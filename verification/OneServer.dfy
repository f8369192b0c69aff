/**
 A single server and any number of clients: the store is a plain map and lag never arises.
 */
module OneServer {
  import opened Lamport
  import opened Store
  import opened R = Replica
  import opened System

  /** Clients' calls on the server and its own heartbeats; there is nobody to send a write to. */
  predicate Local(e: Event, id: string) {
    || (e.ClientPut? && e.server == id && e.reached == {})
    || (e.ClientGet? && e.server == id)
    || (e.HeartbeatSend? && e.server == id)
    || (e.HeartbeatReceive? && e.server == id)
  }

  ghost predicate LocalRun(ss: seq<System>, es: seq<Event>, id: string) {
    && IsRun(ss, es) && Atoi(id).Some?
    && ss[0] == EMPTY.(servers := map[id := Fresh(id)])
    && forall i | 0 <= i < |es| :: Local(es[i], id)
  }

  /******* A plain map *******/

  function Values(store: Store): map<string, string> {
    map k | k in store :: store[k].value
  }

  function Apply(m: map<string, string>, e: Event): map<string, string> {
    if e.ClientPut? then m[e.key := e.value] else m
  }

  /** The map the puts build. */
  function MapAfter(es: seq<Event>): map<string, string> {
    if es == [] then map[] else Apply(MapAfter(es[..|es| - 1]), es[|es| - 1])
  }

  lemma MapAfterSnoc(es: seq<Event>, i: nat)
    requires i < |es|
    ensures MapAfter(es[..i + 1]) == Apply(MapAfter(es[..i]), es[i])
  {
    assert es[..i + 1][..i] == es[..i];
  }

  function Lookup(m: map<string, string>, key: string): string {
    if key in m then m[key] else ERR_KEY
  }

  /******* The invariant *******/

  ghost predicate StoreBehind(r: Replica) {
    r.clock > 0.0 && forall k | k in r.store :: r.store[k].key == k && 0.0 < r.store[k].version <= r.clock
  }

  /** A client has recorded nothing above what the server stores. */
  ghost predicate SessionBehind(store: Store, session: Session) {
    forall k | k in session :: k in store && 0.0 < session[k] <= store[k].version
  }

  ghost predicate Behind(s: System, id: string) {
    && s.servers.Keys == {id}
    && StoreBehind(s.servers[id])
    && forall client | client in s.sessions :: SessionBehind(s.servers[id].store, s.sessions[client])
  }

  lemma RequestBehind(s: System, id: string, client: string, key: string)
    requires Behind(s, id)
    ensures SessionBehind(s.servers[id].store, SessionOf(s, client))
    ensures var version := RequestVersion(SessionOf(s, client), key);
      && (version != ANY_VERSION ==> key in s.servers[id].store)
      && (key in s.servers[id].store ==> version <= s.servers[id].store[key].version)
      && NoLag(s.servers[id], key, version)
  {
    assert SessionBehind(s.servers[id].store, SessionOf(s, client));
  }

  /** A put's version is above everything stored for the key. */
  lemma PutAbove(r: Replica, key: string, value: string, version: real)
    requires StoreBehind(r) && NoLag(r, key, version)
    requires version != ANY_VERSION ==> key in r.store
    ensures StoreBehind(Put(r, key, value, version))
    ensures key in r.store ==> NewVersion(r, key, version) > r.store[key].version
    ensures Values(Put(r, key, value, version).store) == Values(r.store)[key := value]
  {
    PutWithoutLag(r, key, version);
  }

  lemma PutKeepsSessions(r: Replica, key: string, value: string, version: real, session: Session)
    requires StoreBehind(r) && NoLag(r, key, version) && SessionBehind(r.store, session)
    requires version != ANY_VERSION ==> key in r.store
    ensures SessionBehind(Put(r, key, value, version).store, session)
    ensures SessionBehind(Put(r, key, value, version).store, RecordPut(session, PutReply(r, key, value, version)))
  {
    PutAbove(r, key, value, version);
  }

  lemma GetRecords(r: Replica, session: Session, key: string)
    requires StoreBehind(r) && SessionBehind(r.store, session)
    ensures SessionBehind(r.store, RecordGet(session, GetReply(r, key, RequestVersion(session, key))))
    ensures GetReply(r, key, RequestVersion(session, key)).value == Lookup(Values(r.store), key)
  {
  }

  lemma PutHandled(s: System, e: Event, id: string)
    requires Enabled(s, e) && Local(e, id) && Behind(s, id) && e.ClientPut?
    ensures StoreBehind(Handled(s, e))
    ensures Values(Handled(s, e).store) == Apply(Values(s.servers[id].store), e)
  {
    RequestBehind(s, id, e.client, e.key);
    PutAbove(s.servers[id], e.key, e.value, RequestVersion(SessionOf(s, e.client), e.key));
  }

  lemma OtherHandled(s: System, e: Event, id: string)
    requires Enabled(s, e) && Local(e, id) && StoreBehind(s.servers[id]) && !e.ClientPut?
    ensures Handled(s, e).store == s.servers[id].store && StoreBehind(Handled(s, e))
  {
    if e.HeartbeatReceive? {
      ReceiveAdvances(s.servers[id].clock, s.servers[id].id, e.clocks);
    }
  }

  lemma HandledBehind(s: System, e: Event, id: string)
    requires Enabled(s, e) && Local(e, id) && Behind(s, id)
    ensures StoreBehind(Handled(s, e))
    ensures Values(Handled(s, e).store) == Apply(Values(s.servers[id].store), e)
  {
    if e.ClientPut? { PutHandled(s, e, id); } else { OtherHandled(s, e, id); }
  }

  lemma SessionsBehind(s: System, e: Event, id: string)
    requires Enabled(s, e) && Local(e, id) && Behind(s, id)
    ensures forall client | client in SessionsAfter(s, e) ::
              SessionBehind(Handled(s, e).store, SessionsAfter(s, e)[client])
  {
    if e.ClientPut? {
      RequestBehind(s, id, e.client, e.key);
      var version := RequestVersion(SessionOf(s, e.client), e.key);
      forall client | client in s.sessions || client == e.client
        ensures var after := Put(s.servers[id], e.key, e.value, version).store;
          && SessionBehind(after, SessionOf(s, client))
          && SessionBehind(after, RecordPut(SessionOf(s, client), Reply(s, e)))
      {
        PutKeepsSessions(s.servers[id], e.key, e.value, version, SessionOf(s, client));
      }
    } else if e.ClientGet? {
      GetRecords(s.servers[id], SessionOf(s, e.client), e.key);
    }
  }

  /** The server's store is the map m, and nothing recorded or stored is above the clock. */
  ghost predicate Refines(s: System, id: string, m: map<string, string>) {
    Behind(s, id) && Values(s.servers[id].store) == m
  }

  lemma StepRefines(s: System, e: Event, id: string)
    requires Enabled(s, e) && Local(e, id) && Behind(s, id)
    ensures Refines(Step(s, e), id, Apply(Values(s.servers[id].store), e))
  {
    HandledBehind(s, e, id);
    SessionsBehind(s, e, id);
  }

  lemma RefinesAt(ss: seq<System>, es: seq<Event>, id: string, m: map<string, string>, i: nat)
    requires IsRun(ss, es) && i < |es| && Local(es[i], id) && Refines(ss[i], id, m)
    ensures Refines(ss[i + 1], id, Apply(m, es[i]))
  {
    At(ss, es, i);
    StepRefines(ss[i], es[i], id);
  }

  lemma FreshRefines(id: string)
    requires Atoi(id).Some?
    ensures Refines(EMPTY.(servers := map[id := Fresh(id)]), id, map[])
  {
    OffsetBounds(id);
  }

  lemma {:induction false} RefinesFrom(ss: seq<System>, es: seq<Event>, id: string, i: nat)
    requires IsRun(ss, es) && i <= |es| && Refines(ss[0], id, map[])
    requires forall j | 0 <= j < |es| :: Local(es[j], id)
    ensures Refines(ss[i], id, MapAfter(es[..i]))
  {
    if i > 0 {
      RefinesFrom(ss, es, id, i - 1);
      RefinesAt(ss, es, id, MapAfter(es[..i - 1]), i - 1);
      MapAfterSnoc(es, i - 1);
    }
  }

  /** In every state of the run the store holds what the puts so far wrote, and every recorded and
      stored version is at most the clock. */
  lemma RefinesMap(ss: seq<System>, es: seq<Event>, id: string, i: nat)
    requires LocalRun(ss, es, id) && i <= |es|
    ensures Refines(ss[i], id, MapAfter(es[..i]))
  {
    FreshRefines(id);
    RefinesFrom(ss, es, id, i);
  }

  lemma GetReads(s: System, e: Event, id: string, m: map<string, string>)
    requires Enabled(s, e) && Local(e, id) && Refines(s, id, m)
    ensures NoLagStep(s, e)
    ensures e.ClientGet? ==>
              && Reply(s, e).value == Lookup(m, e.key)
              && (e.key in SessionOf(s, e.client) ==> Reply(s, e).version >= SessionOf(s, e.client)[e.key])
  {
    if e.ClientPut? || e.ClientGet? {
      RequestBehind(s, id, e.client, e.key);
      GetRecords(s.servers[id], SessionOf(s, e.client), e.key);
    }
  }

  /** No call lags, and every get of every client returns what the plain map returns, at a version no
      lower than the client has recorded: ERR_DEP never comes from the version check. */
  lemma GetsReadTheMap(ss: seq<System>, es: seq<Event>, id: string, i: nat)
    requires LocalRun(ss, es, id) && i < |es|
    ensures StepAt(ss, es, i) && NoLagStep(ss[i], es[i])
    ensures es[i].ClientGet? ==>
              && Reply(ss[i], es[i]).value == Lookup(MapAfter(es[..i]), es[i].key)
              && (es[i].key in SessionOf(ss[i], es[i].client) ==>
                    Reply(ss[i], es[i]).version >= SessionOf(ss[i], es[i].client)[es[i].key])
  {
    RefinesMap(ss, es, id, i);
    At(ss, es, i);
    GetReads(ss[i], es[i], id, MapAfter(es[..i]));
  }
}
