/**
 Where records come from: over every run, each record held anywhere came from one put, and no two puts
 on a key share a version while fractions are distinct and every put moves its server's clock on.
 */
module VersionAgreement {
  import opened Lamport
  import opened Store
  import opened R = Replica
  import opened System

  /******* Fractions: every run *******/

  ghost predicate OwnFraction(r: Replica) {
    Frac(r.clock) == IdFraction(r.id)
  }

  ghost predicate ServerFractions(servers: map<string, Replica>) {
    forall id | id in servers :: servers[id].id == id && OwnFraction(servers[id])
  }

  ghost predicate IssueFractions(issued: seq<Issue>) {
    forall i | 0 <= i < |issued| :: Frac(issued[i].kv.version) == IdFraction(issued[i].server)
  }

  ghost predicate Fractions(s: System) {
    ServerFractions(s.servers) && IssueFractions(s.issued)
  }

  lemma PutKeepsFraction(r: Replica, key: string, version: real)
    ensures Frac(ClockAfterPut(r, key, version)) == Frac(r.clock)
    ensures Frac(NewVersion(r, key, version)) == Frac(r.clock)
  {
    FracShift(r.clock, 1);
    var pivot := Pivot(r, key, version);
    if pivot.Some? { ConditionalIncrementKeepsFraction(r.clock, pivot.value); }
  }

  lemma HandledKeepsFraction(s: System, e: Event)
    requires Enabled(s, e) && Target(e).Some? && ServerFractions(s.servers)
    ensures Handled(s, e).id == Target(e).value && OwnFraction(Handled(s, e))
  {
    match e {
      case Join(id) => TimestampFraction(1, id);
      case ClientPut(client, server, key, _, _, _) =>
        PutKeepsFraction(s.servers[server], key, RequestVersion(SessionOf(s, client), key));
      case ClientGet(_, server, _, _) => FracShift(s.servers[server].clock, 1);
      case HeartbeatSend(server) => FracShift(s.servers[server].clock, 1);
      case HeartbeatReceive(server, clocks) => ReceiveKeepsFraction(s.servers[server].clock, server, clocks);
      case _ =>
    }
  }

  lemma StepKeepsFractions(s: System, e: Event)
    requires Enabled(s, e) && Fractions(s)
    ensures Fractions(Step(s, e))
  {
    if Target(e).Some? { HandledKeepsFraction(s, e); }
    if e.ClientPut? {
      PutKeepsFraction(s.servers[e.server], e.key, RequestVersion(SessionOf(s, e.client), e.key));
    }
  }

  lemma FractionsAt(ss: seq<System>, es: seq<Event>, i: nat)
    requires IsRun(ss, es) && i < |es| && Fractions(ss[i])
    ensures Fractions(ss[i + 1])
  {
    At(ss, es, i);
    StepKeepsFractions(ss[i], es[i]);
  }

  /** In every reachable state each clock and each issued version has its server's fraction. */
  lemma {:induction false} FractionsInvariant(ss: seq<System>, es: seq<Event>, i: nat)
    requires Execution(ss, es) && i <= |es|
    ensures Fractions(ss[i])
  {
    if i > 0 {
      FractionsInvariant(ss, es, i - 1);
      FractionsAt(ss, es, i - 1);
    }
  }

  /******* Origin: every run *******/

  ghost function Records(issued: seq<Issue>): set<KeyValue> {
    set i | 0 <= i < |issued| :: issued[i].kv
  }

  ghost predicate StoreFrom(records: set<KeyValue>, store: Store) {
    forall k | k in store :: store[k].key == k && store[k] in records
  }

  ghost predicate ReplicaFrom(records: set<KeyValue>, r: Replica) {
    StoreFrom(records, r.store) && forall kv | kv in r.log :: kv in records
  }

  ghost predicate ServersFrom(records: set<KeyValue>, servers: map<string, Replica>) {
    forall id | id in servers :: ReplicaFrom(records, servers[id])
  }

  ghost predicate MessagesFrom(records: set<KeyValue>, writes: set<WriteMessage>, pushes: set<PushMessage>) {
    && (forall m | m in writes :: m.kv in records)
    && (forall p | p in pushes :: StoreFrom(records, p.store))
  }

  ghost predicate Origin(s: System) {
    && ServersFrom(Records(s.issued), s.servers)
    && MessagesFrom(Records(s.issued), s.writes, s.pushes)
  }

  lemma RecordsSnoc(issued: seq<Issue>, extra: Issue)
    ensures Records(issued + [extra]) == Records(issued) + {extra.kv}
  {
    var more := issued + [extra];
    assert more[|issued|].kv == extra.kv;
    forall kv | kv in Records(issued) ensures kv in Records(more) {
      var i :| 0 <= i < |issued| && issued[i].kv == kv;
      assert more[i].kv == kv;
    }
  }

  lemma WriteFrom(records: set<KeyValue>, r: Replica, kv: KeyValue)
    requires ReplicaFrom(records, r) && kv in records
    ensures ReplicaFrom(records, R.RemoteWrite(r, kv))
  {
  }

  lemma MergeFrom(records: set<KeyValue>, store: Store, incoming: Store)
    requires StoreFrom(records, store) && StoreFrom(records, incoming)
    ensures StoreFrom(records, Merge(store, incoming))
  {
  }

  /** What a handler stores or logs was in its request or there before. */
  lemma HandledFrom(s: System, e: Event, records: set<KeyValue>)
    requires Enabled(s, e) && Target(e).Some?
    requires ServersFrom(records, s.servers) && MessagesFrom(records, s.writes, s.pushes)
    requires e.ClientPut? ==> Reply(s, e) in records
    ensures ReplicaFrom(records, Handled(s, e))
  {
    if e.DeliverWrite? {
      WriteFrom(records, s.servers[e.write.dest], e.write.kv);
    } else if e.DeliverPush? {
      MergeFrom(records, s.servers[e.push.dest].store, e.push.store);
    }
  }

  lemma StepKeepsServersFrom(s: System, e: Event)
    requires Enabled(s, e) && Origin(s)
    ensures ServersFrom(Records(Step(s, e).issued), Step(s, e).servers)
  {
    if e.ClientPut? {
      RecordsSnoc(s.issued, Issue(e.server, Reply(s, e)));
    }
    if Target(e).Some? {
      HandledFrom(s, e, Records(Step(s, e).issued));
    }
  }

  lemma StepKeepsMessagesFrom(s: System, e: Event)
    requires Enabled(s, e) && Origin(s)
    ensures MessagesFrom(Records(Step(s, e).issued), Step(s, e).writes, Step(s, e).pushes)
  {
    if e.ClientPut? {
      RecordsSnoc(s.issued, Issue(e.server, Reply(s, e)));
    }
  }

  lemma StepKeepsOrigin(s: System, e: Event)
    requires Enabled(s, e) && Origin(s)
    ensures Origin(Step(s, e))
  {
    StepKeepsServersFrom(s, e);
    StepKeepsMessagesFrom(s, e);
  }

  lemma OriginAt(ss: seq<System>, es: seq<Event>, i: nat)
    requires IsRun(ss, es) && i < |es| && Origin(ss[i])
    ensures Origin(ss[i + 1])
  {
    At(ss, es, i);
    StepKeepsOrigin(ss[i], es[i]);
  }

  lemma {:induction false} OriginInvariant(ss: seq<System>, es: seq<Event>, i: nat)
    requires Execution(ss, es) && i <= |es|
    ensures Origin(ss[i])
  {
    if i > 0 {
      OriginInvariant(ss, es, i - 1);
      OriginAt(ss, es, i - 1);
    }
  }

  /******* Bounds: runs in which every put ticks *******/

  ghost predicate ClocksPositive(servers: map<string, Replica>) {
    forall id | id in servers :: servers[id].clock > 0.0
  }

  /** A version a server issued is at most its clock, and the key is present there. */
  ghost predicate IssueBounded(servers: map<string, Replica>, issue: Issue) {
    && issue.server in servers
    && 0.0 < issue.kv.version <= servers[issue.server].clock
    && issue.kv.key in servers[issue.server].store
  }

  ghost predicate Bounded(s: System) {
    && ClocksPositive(s.servers)
    && forall i | 0 <= i < |s.issued| :: IssueBounded(s.servers, s.issued[i])
  }

  ghost predicate Advances(r: Replica, r': Replica) {
    r.clock <= r'.clock && r.store.Keys <= r'.store.Keys
  }

  lemma HandledAdvances(s: System, e: Event)
    requires Enabled(s, e) && TickStep(s, e) && Target(e).Some? && !e.Join?
    ensures Advances(s.servers[Target(e).value], Handled(s, e))
  {
    match e {
      case ClientPut(client, server, key, _, _, _) =>
        PutTicksIff(s.servers[server], key, RequestVersion(SessionOf(s, client), key));
      case HeartbeatReceive(server, clocks) =>
        ReceiveAdvances(s.servers[server].clock, s.servers[server].id, clocks);
      case _ =>
    }
  }

  /** If puts tick, no step moves a clock back or drops a key. */
  lemma StepAdvances(s: System, e: Event)
    requires Enabled(s, e) && TickStep(s, e)
    ensures forall id | id in s.servers :: id in Step(s, e).servers && Advances(s.servers[id], Step(s, e).servers[id])
  {
    if Target(e).Some? && !e.Join? {
      HandledAdvances(s, e);
    }
  }

  /** Every put that ticks, every get and every heartbeat has its own, later clock reading on its server. */
  lemma EventsTick(s: System, e: Event)
    requires Enabled(s, e) && TickStep(s, e)
    requires e.ClientPut? || e.ClientGet? || e.HeartbeatSend? || (e.HeartbeatReceive? && e.clocks != [])
    ensures Step(s, e).servers[e.server].clock >= s.servers[e.server].clock + 1.0
  {
    if e.ClientPut? {
      PutTicksIff(s.servers[e.server], e.key, RequestVersion(SessionOf(s, e.client), e.key));
    } else if e.HeartbeatReceive? {
      ReceiveAdvances(s.servers[e.server].clock, s.servers[e.server].id, e.clocks);
    }
  }

  lemma StepKeepsClocksPositive(s: System, e: Event)
    requires Enabled(s, e) && TickStep(s, e) && ClocksPositive(s.servers)
    ensures ClocksPositive(Step(s, e).servers)
  {
    if e.Join? {
      OffsetBounds(e.id);
    } else if Target(e).Some? {
      HandledAdvances(s, e);
    }
  }

  lemma NewIssueBounded(s: System, e: Event)
    requires Enabled(s, e) && TickStep(s, e) && e.ClientPut? && ClocksPositive(s.servers)
    ensures IssueBounded(Step(s, e).servers, Issue(e.server, Reply(s, e)))
  {
    PutTicksIff(s.servers[e.server], e.key, RequestVersion(SessionOf(s, e.client), e.key));
  }

  lemma StepKeepsBounds(s: System, e: Event)
    requires Enabled(s, e) && TickStep(s, e) && Bounded(s)
    ensures Bounded(Step(s, e))
  {
    StepKeepsClocksPositive(s, e);
    StepAdvances(s, e);
    var s' := Step(s, e);
    forall i | 0 <= i < |s.issued| ensures IssueBounded(s'.servers, s.issued[i]) {
      assert IssueBounded(s.servers, s.issued[i]);
      assert Advances(s.servers[s.issued[i].server], s'.servers[s.issued[i].server]);
    }
    if e.ClientPut? { NewIssueBounded(s, e); }
  }

  lemma BoundsAt(ss: seq<System>, es: seq<Event>, i: nat)
    requires TicksAt(ss, es, i) && Bounded(ss[i])
    ensures Bounded(ss[i + 1])
  {
    StepKeepsBounds(ss[i], es[i]);
  }

  lemma {:induction false} BoundsInvariant(ss: seq<System>, es: seq<Event>, i: nat)
    requires Execution(ss, es) && i <= |es| && TicksBefore(ss, es, i)
    ensures Bounded(ss[i])
  {
    if i > 0 {
      BoundsInvariant(ss, es, i - 1);
      assert TicksAt(ss, es, i - 1);
      BoundsAt(ss, es, i - 1);
    }
  }

  /******* Agreement *******/

  ghost predicate DistinctFractions(ids: set<string>) {
    forall a, b | a in ids && b in ids && a != b :: IdFraction(a) != IdFraction(b)
  }

  ghost predicate UniqueVersions(issued: seq<Issue>) {
    forall i, j | 0 <= i < j < |issued| ::
      issued[i].kv.key == issued[j].kv.key ==> issued[i].kv.version != issued[j].kv.version
  }

  /** Why a new version is new: another server's fraction differs; on the same server the first
      write of a key is the only one stamped with the old clock. */
  lemma NewVersionIsUnique(s: System, e: Event, i: nat)
    requires Enabled(s, e) && TickStep(s, e) && e.ClientPut? && i < |s.issued|
    requires Bounded(s) && Fractions(s) && DistinctFractions(s.servers.Keys)
    requires s.issued[i].kv.key == e.key
    ensures s.issued[i].kv.version != Reply(s, e).version
  {
    var version := RequestVersion(SessionOf(s, e.client), e.key);
    PutTicksIff(s.servers[e.server], e.key, version);
    PutKeepsFraction(s.servers[e.server], e.key, version);
  }

  lemma StepKeepsUnique(s: System, e: Event)
    requires Enabled(s, e) && TickStep(s, e)
    requires Bounded(s) && Fractions(s) && DistinctFractions(s.servers.Keys)
    requires UniqueVersions(s.issued)
    ensures UniqueVersions(Step(s, e).issued)
  {
    if e.ClientPut? {
      forall i | 0 <= i < |s.issued| && s.issued[i].kv.key == e.key
        ensures s.issued[i].kv.version != Reply(s, e).version
      {
        NewVersionIsUnique(s, e, i);
      }
    }
  }

  lemma StepKeepsServers(s: System, e: Event)
    requires Enabled(s, e)
    ensures s.servers.Keys <= Step(s, e).servers.Keys
  {
  }

  lemma ServersAt(ss: seq<System>, es: seq<Event>, i: nat)
    requires IsRun(ss, es) && i < |es|
    ensures ss[i].servers.Keys <= ss[i + 1].servers.Keys
  {
    At(ss, es, i);
    StepKeepsServers(ss[i], es[i]);
  }

  lemma {:induction false} ServersGrow(ss: seq<System>, es: seq<Event>, i: nat, j: nat)
    requires IsRun(ss, es) && i <= j <= |es|
    ensures ss[i].servers.Keys <= ss[j].servers.Keys
    decreases j
  {
    if i < j {
      ServersGrow(ss, es, i, j - 1);
      ServersAt(ss, es, j - 1);
    }
  }

  lemma UniqueAt(ss: seq<System>, es: seq<Event>, i: nat)
    requires TicksAt(ss, es, i)
    requires Bounded(ss[i]) && Fractions(ss[i]) && DistinctFractions(ss[i].servers.Keys)
    requires UniqueVersions(ss[i].issued)
    ensures UniqueVersions(ss[i + 1].issued)
  {
    StepKeepsUnique(ss[i], es[i]);
  }

  lemma FewerAreDistinct(ids: set<string>, more: set<string>)
    requires ids <= more && DistinctFractions(more)
    ensures DistinctFractions(ids)
  {
    forall a, b | a in ids && b in ids && a != b ensures IdFraction(a) != IdFraction(b) {
      assert a in more && b in more;
    }
  }

  lemma {:induction false} UniqueInvariant(ss: seq<System>, es: seq<Event>, i: nat)
    requires Execution(ss, es) && i <= |es| && TicksBefore(ss, es, i) && DistinctFractions(ss[i].servers.Keys)
    ensures UniqueVersions(ss[i].issued)
  {
    if i > 0 {
      ServersAt(ss, es, i - 1);
      FewerAreDistinct(ss[i - 1].servers.Keys, ss[i].servers.Keys);
      UniqueInvariant(ss, es, i - 1);
      BoundsInvariant(ss, es, i - 1);
      FractionsInvariant(ss, es, i - 1);
      assert TicksAt(ss, es, i - 1);
      UniqueAt(ss, es, i - 1);
    }
  }

  /** kv is in some store, some log, or some message in flight. */
  ghost predicate Held(s: System, kv: KeyValue) {
    || (exists id, k :: id in s.servers && k in s.servers[id].store && s.servers[id].store[k] == kv)
    || (exists id :: id in s.servers && kv in s.servers[id].log)
    || (exists m :: m in s.writes && m.kv == kv)
    || (exists p, k :: p in s.pushes && k in p.store && p.store[k] == kv)
  }

  lemma HeldIsIssued(s: System, kv: KeyValue)
    requires Origin(s) && Held(s, kv)
    ensures kv in Records(s.issued)
  {
  }

  lemma IssuedOnce(issued: seq<Issue>, x: KeyValue, y: KeyValue)
    requires UniqueVersions(issued) && x in Records(issued) && y in Records(issued)
    requires x.key == y.key && x.version == y.version
    ensures x == y
  {
    var i :| 0 <= i < |issued| && issued[i].kv == x;
    var j :| 0 <= j < |issued| && issued[j].kv == y;
  }

  ghost predicate FromOnePut(issued: seq<Issue>, kv: KeyValue) {
    exists i | 0 <= i < |issued| ::
      && issued[i].kv == kv
      && forall j | 0 <= j < |issued| && j != i :: issued[j].kv.key == kv.key ==> issued[j].kv.version != kv.version
  }

  lemma UniqueMeansOnePut(issued: seq<Issue>, kv: KeyValue)
    requires UniqueVersions(issued) && kv in Records(issued)
    ensures FromOnePut(issued, kv)
  {
    var i :| 0 <= i < |issued| && issued[i].kv == kv;
    forall j | 0 <= j < |issued| && j != i && issued[j].kv.key == kv.key
      ensures issued[j].kv.version != kv.version
    {
      assert if i < j then issued[i].kv.version != issued[j].kv.version
             else issued[j].kv.version != issued[i].kv.version;
    }
  }

  /** Every record held anywhere came from exactly one put, and no other put on its key has its
      version. */
  lemma VersionAgreement(ss: seq<System>, es: seq<Event>, i: nat, kv: KeyValue)
    requires Execution(ss, es) && i <= |es| && TicksBefore(ss, es, i) && DistinctFractions(ss[i].servers.Keys)
    requires Held(ss[i], kv)
    ensures FromOnePut(ss[i].issued, kv)
  {
    OriginInvariant(ss, es, i);
    UniqueInvariant(ss, es, i);
    HeldIsIssued(ss[i], kv);
    UniqueMeansOnePut(ss[i].issued, kv);
  }

  /** Two held records of one key and version are the same record. */
  lemma HeldAgree(s: System, x: KeyValue, y: KeyValue)
    requires Origin(s) && UniqueVersions(s.issued)
    requires Held(s, x) && Held(s, y) && x.key == y.key && x.version == y.version
    ensures x == y
  {
    HeldIsIssued(s, x);
    HeldIsIssued(s, y);
    IssuedOnce(s.issued, x, y);
  }

  /** Servers with distinct fractions never issue one version, lag or not. */
  lemma DistinctServersNeverCollide(ss: seq<System>, es: seq<Event>, i: nat, x: Issue, y: Issue)
    requires Execution(ss, es) && i <= |es| && x in ss[i].issued && y in ss[i].issued
    requires IdFraction(x.server) != IdFraction(y.server)
    ensures x.kv.version != y.kv.version
  {
    FractionsInvariant(ss, es, i);
  }

  /******* What agreement needs *******/

  lemma Append(ss: seq<System>, es: seq<Event>, e: Event, s: System) returns (ss': seq<System>, es': seq<Event>)
    requires Execution(ss, es) && Enabled(ss[|es|], e) && s == Step(ss[|es|], e)
    ensures ss' == ss + [s] && es' == es + [e]
    ensures Execution(ss', es')
    ensures NoLagRun(ss, es) && NoLagStep(ss[|es|], e) ==> NoLagRun(ss', es')
  {
    Extend(ss, es, e);
    ss', es' := ss + [s], es + [e];
  }

  function Beaten(s: System, id: string, n: nat): System
    requires id in s.servers
  {
    s.(servers := s.servers[id := s.servers[id].(clock := s.servers[id].clock + n as real)])
  }

  /** The run goes on with n heartbeats of one server. */
  lemma {:induction false} Beat(ss: seq<System>, es: seq<Event>, id: string, n: nat)
    returns (ss': seq<System>, es': seq<Event>)
    requires Execution(ss, es) && NoLagRun(ss, es) && id in ss[|es|].servers
    ensures Execution(ss', es') && NoLagRun(ss', es') && ss'[|es'|] == Beaten(ss[|es|], id, n)
    ensures forall e | e in es' :: e in es || e == HeartbeatSend(id)
  {
    if n == 0 {
      assert Beaten(ss[|es|], id, 0).servers == ss[|es|].servers;
      return ss, es;
    }
    ss', es' := Beat(ss, es, id, n - 1);
    var next := Step(ss'[|es'|], HeartbeatSend(id));
    assert next.servers == Beaten(ss[|es|], id, n).servers;
    ss', es' := Append(ss', es', HeartbeatSend(id), next);
  }

  lemma JoinBoth(a: string, b: string) returns (ss: seq<System>, es: seq<Event>)
    requires a != b && Atoi(a).Some? && Atoi(b).Some?
    ensures Execution(ss, es) && NoLagRun(ss, es) && es == [Join(a), Join(b)]
    ensures ss[|es|] == EMPTY.(servers := map[a := Fresh(a), b := Fresh(b)])
  {
    var s1 := Step(EMPTY, Join(a));
    var s2 := Step(s1, Join(b));
    ss, es := Append([EMPTY], [], Join(a), s1);
    ss, es := Append(ss, es, Join(b), s2);
    assert s2.servers == map[a := Fresh(a), b := Fresh(b)];
  }

  /** Two servers join and the first sends n heartbeats, which do not arrive. */
  lemma TwoServers(a: string, b: string, n: nat) returns (ss: seq<System>, es: seq<Event>)
    requires a != b && Atoi(a).Some? && Atoi(b).Some?
    ensures Execution(ss, es) && NoLagRun(ss, es)
    ensures ss[|es|] == EMPTY.(servers := map[a := Fresh(a).(clock := Fresh(a).clock + n as real), b := Fresh(b)])
    ensures forall e | e in es :: e.Join? || e.HeartbeatSend?
  {
    ss, es := JoinBoth(a, b);
    ss, es := Beat(ss, es, a, n);
    assert ss[|es|].servers == map[a := Fresh(a).(clock := Fresh(a).clock + n as real), b := Fresh(b)];
  }

  /** A put of k by a client that has put nothing, on a server without the key. */
  lemma FirstPut(s: System, put: Event)
    requires Enabled(s, put) && put.ClientPut? && put.key !in SessionOf(s, put.client)
    requires put.key !in s.servers[put.server].store
    ensures NoLagStep(s, put)
    ensures var kv, r := KeyValue(put.key, put.value, s.servers[put.server].clock), s.servers[put.server];
      var r' := Replica(r.id, r.store[put.key := kv], r.log + [kv], r.clock + 1.0);
      && Step(s, put).servers == s.servers[put.server := r']
      && Step(s, put).issued == s.issued + [Issue(put.server, kv)]
      && SessionOf(Step(s, put), put.client) ==
         if put.answered then SessionOf(s, put.client)[put.key := kv.version] else SessionOf(s, put.client)
    ensures forall c | c != put.client :: SessionOf(Step(s, put), c) == SessionOf(s, c)
    ensures forall m | m in put.reached :: WriteMessage(m, Reply(s, put)) in Step(s, put).writes
  {
  }

  /** Two puts with one key and version but different values, on record at the servers that took them. */
  ghost predicate Collision(s: System, x: Issue, y: Issue) {
    && x in s.issued && y in s.issued && x.server in s.servers && y.server in s.servers
    && x.kv in s.servers[x.server].log && y.kv in s.servers[y.server].log
    && x.kv.key == y.kv.key && x.kv.version == y.kv.version && x.kv.value != y.kv.value
  }

  lemma CollisionIsHeld(s: System, x: Issue, y: Issue)
    requires Collision(s, x, y)
    ensures Held(s, x.kv) && Held(s, y.kv) && !FromOnePut(s.issued, x.kv) && !FromOnePut(s.issued, y.kv)
  {
    var i :| 0 <= i < |s.issued| && s.issued[i] == x;
    var j :| 0 <= j < |s.issued| && s.issued[j] == y;
  }

  lemma OneFraction(x: real, y: real)
    requires -1.0 < x <= y < 1.0 && Frac(x) == Frac(y)
    ensures y == x || y == x + 1.0
  {
    var n := y.Floor - x.Floor;
    assert y == x + n as real;
    assert n == 0 || n == 1;
  }

  lemma OffsetsOfOneFraction(a: string, b: string)
    requires IdFraction(a) == IdFraction(b) && IdOffset(a) <= IdOffset(b)
    ensures IdOffset(b) == IdOffset(a) || IdOffset(b) == IdOffset(a) + 1.0
  {
    OffsetBounds(a);
    OffsetBounds(b);
    OneFraction(IdOffset(a), IdOffset(b));
  }

  lemma FirstPutsCollide(ss: seq<System>, es: seq<Event>, a: string, b: string)
    returns (ss': seq<System>, es': seq<Event>, x: Issue, y: Issue)
    requires Execution(ss, es) && NoLagRun(ss, es) && a != b && ss[|es|].servers.Keys == {a, b}
    requires ss[|es|].sessions == map[]
    requires ss[|es|].servers[a].store == ss[|es|].servers[b].store == map[]
    requires ss[|es|].servers[a].clock == ss[|es|].servers[b].clock
    ensures Execution(ss', es') && NoLagRun(ss', es') && ss'[|es'|].servers.Keys == {a, b}
    ensures Collision(ss'[|es'|], x, y)
  {
    var put1, put2 := ClientPut("c", a, "k", "x", {}, true), ClientPut("d", b, "k", "y", {}, true);
    FirstPut(ss[|es|], put1);
    var s1 := Step(ss[|es|], put1);
    ss', es' := Append(ss, es, put1, s1);
    FirstPut(s1, put2);
    var s2 := Step(s1, put2);
    ss', es' := Append(ss', es', put2, s2);
    var clock := ss[|es|].servers[a].clock;
    x, y := Issue(a, KeyValue("k", "x", clock)), Issue(b, KeyValue("k", "y", clock));
    assert s2.issued[|ss[|es|].issued|] == x && s2.issued[|ss[|es|].issued| + 1] == y;
    assert s2.servers[a].log[|ss[|es|].servers[a].log|] == x.kv;
    assert s2.servers[b].log[|ss[|es|].servers[b].log|] == y.kv;
  }

  /** Two servers of one fraction, with nothing stored and their clocks at the same reading. */
  ghost predicate InStep(s: System, a: string, b: string) {
    && s.servers.Keys == {a, b} && s.servers[a].clock == s.servers[b].clock > 0.0
    && s.servers[a].store == s.servers[b].store == map[] && s.servers[a].log == s.servers[b].log == []
    && s.sessions == map[] && s.writes == {} && s.pushes == {}
  }

  lemma ReachInStep(a: string, b: string) returns (ss: seq<System>, es: seq<Event>)
    requires a != b && Atoi(a).Some? && Atoi(b).Some? && IdFraction(a) == IdFraction(b)
    ensures Execution(ss, es) && NoLagRun(ss, es) && InStep(ss[|es|], a, b)
  {
    OffsetBounds(a);
    OffsetBounds(b);
    if IdOffset(a) <= IdOffset(b) {
      OffsetsOfOneFraction(a, b);
      ss, es := TwoServers(a, b, if IdOffset(a) == IdOffset(b) then 0 else 1);
    } else {
      OffsetsOfOneFraction(b, a);
      ss, es := TwoServers(b, a, 1);
    }
  }

  /** Distinct fractions are needed: any two ids with one fraction, such as "1" and "10" or "-5" and
      "95", can issue one version for two writes. */
  lemma SharedFractionCollides(a: string, b: string)
    returns (ss: seq<System>, es: seq<Event>, x: Issue, y: Issue)
    requires a != b && Atoi(a).Some? && Atoi(b).Some? && IdFraction(a) == IdFraction(b)
    ensures Execution(ss, es) && NoLagRun(ss, es) && ss[|es|].servers.Keys == {a, b}
    ensures Collision(ss[|es|], x, y) && Held(ss[|es|], x.kv) && !FromOnePut(ss[|es|].issued, x.kv)
  {
    ss, es := ReachInStep(a, b);
    ss, es, x, y := FirstPutsCollide(ss, es, a, b);
    CollisionIsHeld(ss[|es|], x, y);
  }

  /** A put whose pivot is between two and three ticks ahead takes the clock's present reading, which
      may be some other put's version. */
  lemma StalledPut(r: Replica, key: string, version: real)
    requires version != ANY_VERSION && r.clock + 2.0 <= version < r.clock + 3.0
    ensures NewVersion(r, key, version) == ClockAfterPut(r, key, version) == r.clock
  {
    var difference := r.clock + 1.0 - version;
    CeilBounds(difference);
    assert Ceil(difference) == -1;
  }

  lemma PutOverStored(s: System, put: Event)
    requires Enabled(s, put) && put.ClientPut? && SessionOf(s, put.client) == map[]
    requires var r := s.servers[put.server]; put.key in r.store && r.store[put.key].version < r.clock + 1.0
    ensures NoLagStep(s, put)
    ensures var r := s.servers[put.server];
      var kv := KeyValue(put.key, put.value, r.clock + 1.0);
      var r' := Replica(r.id, r.store[put.key := kv], r.log + [kv], r.clock + 1.0);
      && Step(s, put).servers == s.servers[put.server := r']
      && Step(s, put).issued == s.issued + [Issue(put.server, kv)]
    ensures forall c | c != put.client :: SessionOf(Step(s, put), c) == SessionOf(s, c)
  {
  }

  lemma StalledCollides(s: System, put: Event, x: Issue)
    requires Enabled(s, put) && put.ClientPut? && put.key in SessionOf(s, put.client)
    requires var r, v := s.servers[put.server], SessionOf(s, put.client)[put.key];
      v != ANY_VERSION && r.clock + 2.0 <= v < r.clock + 3.0
    requires x in s.issued && x.server == put.server && x.kv in s.servers[put.server].log
    requires x.kv.key == put.key && x.kv.value != put.value && x.kv.version == s.servers[put.server].clock
    ensures Collision(Step(s, put), x, Issue(put.server, Reply(s, put)))
  {
    var r, v := s.servers[put.server], SessionOf(s, put.client)[put.key];
    StalledPut(r, put.key, v);
    var s', y := Step(s, put), Issue(put.server, Reply(s, put));
    assert s'.issued == s.issued + [y] && s'.servers[put.server].log == r.log + [y.kv];
    assert s'.issued[|s.issued|] == y && s'.servers[put.server].log[|r.log|] == y.kv;
    assert x in s'.issued && x.kv in s'.servers[put.server].log;
  }

  /** A client that put at b has a version `ahead` to `ahead` + 1 ticks ahead of a, which has just
      started. */
  lemma ClientAhead(a: string, b: string, client: string, key: string, ahead: nat)
    returns (ss: seq<System>, es: seq<Event>)
    requires a != b && Atoi(a).Some? && Atoi(b).Some? && ahead >= 2
    ensures Execution(ss, es) && NoLagRun(ss, es) && ss[|es|].servers.Keys == {a, b}
    ensures ss[|es|].servers[a] == Fresh(a)
    ensures SessionOf(ss[|es|], client).Keys == ss[|es|].servers[b].store.Keys == {key}
    ensures var version := SessionOf(ss[|es|], client)[key] - Fresh(a).clock;
      ahead as real <= version < ahead as real + 1.0
    ensures forall c | c != client :: SessionOf(ss[|es|], c) == map[]
    ensures forall e | e in es :: e.ClientPut? ==> e.key == key
  {
    OffsetBounds(a);
    OffsetBounds(b);
    var n := Ceil(ahead as real + IdOffset(a) - IdOffset(b));
    CeilBounds(ahead as real + IdOffset(a) - IdOffset(b));
    ss, es := TwoServers(b, a, n);
    var put := ClientPut(client, b, key, "w", {}, true);
    FirstPut(ss[|es|], put);
    var next := Step(ss[|es|], put);
    ss, es := Append(ss, es, put, next);
  }

  /** Two clients put on a server that has just started, the second on the first one's version. */
  lemma PutTwice(ss: seq<System>, es: seq<Event>, a: string, c: string, d: string, key: string)
    returns (ss': seq<System>, es': seq<Event>, x: Issue)
    requires Execution(ss, es) && NoLagRun(ss, es) && c != d
    requires Atoi(a).Some? && a in ss[|es|].servers && ss[|es|].servers[a] == Fresh(a)
    requires SessionOf(ss[|es|], c) == SessionOf(ss[|es|], d) == map[]
    ensures Execution(ss', es') && NoLagRun(ss', es') && ss'[|es'|].servers.Keys == ss[|es|].servers.Keys
    ensures forall e | e != c && e != d :: SessionOf(ss'[|es'|], e) == SessionOf(ss[|es|], e)
    ensures ss'[|es'|].servers[a].clock == Fresh(a).clock + 2.0
    ensures x.server == a && x.kv == KeyValue(key, "y", Fresh(a).clock + 2.0)
    ensures x in ss'[|es'|].issued && x.kv in ss'[|es'|].servers[a].log
  {
    var first, second := ClientPut(c, a, key, "x", {}, true), ClientPut(d, a, key, "y", {}, true);
    FirstPut(ss[|es|], first);
    var s1 := Step(ss[|es|], first);
    ss', es' := Append(ss, es, first, s1);
    PutOverStored(s1, second);
    var s2 := Step(s1, second);
    ss', es' := Append(ss', es', second, s2);
    x := Issue(a, KeyValue(key, "y", Fresh(a).clock + 2.0));
    assert s2.issued[|s1.issued|] == x && s2.servers[a].log[|s1.servers[a].log|] == x.kv;
  }

  /** The condition on pivots is needed too, and its bound is exact: for any two servers, whatever their
      fractions, there is a run without lag after which one put, with a pivot less than three ticks
      ahead, repeats a version. */
  lemma StallBreaksAgreement(a: string, b: string)
    returns (ss: seq<System>, es: seq<Event>, put: Event, x: Issue)
    requires a != b && Atoi(a).Some? && Atoi(b).Some?
    ensures Execution(ss, es) && NoLagRun(ss, es) && ss[|es|].servers.Keys == {a, b}
    ensures put.ClientPut? && Enabled(ss[|es|], put) && !TickStep(ss[|es|], put)
    ensures put.key in SessionOf(ss[|es|], put.client)
            && SessionOf(ss[|es|], put.client)[put.key] < ss[|es|].servers[put.server].clock + 3.0
    ensures var s := Step(ss[|es|], put);
      Collision(s, x, Issue(put.server, Reply(ss[|es|], put))) && Held(s, x.kv) && !FromOnePut(s.issued, x.kv)
  {
    OffsetBounds(a);
    put := ClientPut("e", a, "k", "z", {}, true);
    ss, es := ClientAhead(a, b, "e", "k", 4);
    ss, es, x := PutTwice(ss, es, a, "c", "d", "k");
    StalledCollides(ss[|es|], put, x);
    CollisionIsHeld(Step(ss[|es|], put), x, Issue(put.server, Reply(ss[|es|], put)));
  }
}
