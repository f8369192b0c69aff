/**
 Puts, asynchronous writes and stabilize together: the servers of a component end up with one store.
 */
module EventualConsistency {
  import opened Store
  import opened System
  import opened VersionAgreement
  import opened Graph
  import opened Flooding

  lemma StoredInComponent(s: System, edges: Edges, i: string, j: string, a: Store, b: Store, k: string)
    requires Connected(edges, i, j)
    requires StoreFromComponent(s, edges, i, a) && ComponentJoin(s, edges, j, b) && k in a
    ensures k in b
  {
    assert FromComponent(s, edges, i, k, a[k]);
    var x :| x in s.servers && Connected(edges, x, i) && k in s.servers[x].store && s.servers[x].store[k] == a[k];
    ConnectedTransitive(edges, x, i, j);
    assert Below(s.servers[x].store, b);
  }

  /******* When stabilize makes a component agree *******/

  /** x holds a record of k whose version no server connected to j exceeds. */
  ghost predicate HoldsTop(s: System, edges: Edges, j: string, x: string, k: string) {
    && x in s.servers && Connected(edges, x, j) && k in s.servers[x].store
    && forall i | i in s.servers && Connected(edges, i, j) && k in s.servers[i].store ::
         s.servers[i].store[k].version <= s.servers[x].store[k].version
  }

  /** No two servers of j's component hold different records of a key's highest version. */
  ghost predicate NoTies(s: System, edges: Edges, j: string) {
    forall x, y, k | HoldsTop(s, edges, j, x, k) && HoldsTop(s, edges, j, y, k) ::
      s.servers[x].store[k] == s.servers[y].store[k]
  }

  lemma JoinHoldsTop(s: System, edges: Edges, j: string, a: Store, k: string) returns (x: string)
    requires ComponentJoin(s, edges, j, a) && k in a
    ensures HoldsTop(s, edges, j, x, k) && s.servers[x].store[k] == a[k]
  {
    assert FromComponent(s, edges, j, k, a[k]);
    x :| x in s.servers && Connected(edges, x, j) && k in s.servers[x].store && s.servers[x].store[k] == a[k];
    forall i | i in s.servers && Connected(edges, i, j) && k in s.servers[i].store
      ensures s.servers[i].store[k].version <= a[k].version
    {
      assert Below(s.servers[i].store, a);
    }
  }

  lemma TopMoves(s: System, edges: Edges, i: string, j: string, x: string, k: string)
    requires Symmetric(edges) && Connected(edges, i, j) && HoldsTop(s, edges, i, x, k)
    ensures HoldsTop(s, edges, j, x, k)
  {
    ConnectedTransitive(edges, x, i, j);
    ConnectedSymmetric(edges, i, j);
    forall n | n in s.servers && Connected(edges, n, j) && k in s.servers[n].store
      ensures s.servers[n].store[k].version <= s.servers[x].store[k].version
    {
      ConnectedTransitive(edges, n, j, i);
    }
  }

  lemma OneJoinAt(s: System, edges: Edges, i: string, j: string, a: Store, b: Store, k: string)
    requires Symmetric(edges) && Connected(edges, i, j) && NoTies(s, edges, j)
    requires ComponentJoin(s, edges, i, a) && ComponentJoin(s, edges, j, b)
    ensures k in a <==> k in b
    ensures k in a ==> a[k] == b[k]
  {
    ConnectedSymmetric(edges, i, j);
    if k in a {
      StoredInComponent(s, edges, i, j, a, b, k);
      var x := JoinHoldsTop(s, edges, i, a, k);
      var y := JoinHoldsTop(s, edges, j, b, k);
      TopMoves(s, edges, i, j, x, k);
    } else if k in b {
      StoredInComponent(s, edges, j, i, b, a, k);
    }
  }

  lemma SameStore(a: Store, b: Store)
    requires forall k :: (k in a <==> k in b) && (k in a ==> a[k] == b[k])
    ensures a == b
  {
  }

  /** A component without ties has only one join. */
  lemma OneJoin(s: System, edges: Edges, i: string, j: string, a: Store, b: Store)
    requires Symmetric(edges) && Connected(edges, i, j) && NoTies(s, edges, j)
    requires ComponentJoin(s, edges, i, a) && ComponentJoin(s, edges, j, b)
    ensures a == b
  {
    forall k ensures (k in a <==> k in b) && (k in a ==> a[k] == b[k]) {
      OneJoinAt(s, edges, i, j, a, b, k);
    }
    SameStore(a, b);
  }

  /** A server that starts with a highest version keeps that record through every push: ties keep the
      record already there. */
  ghost predicate Keeps(s: System, t: System, x: string, k: string) {
    x in s.servers && x in t.servers && k in s.servers[x].store && k in t.servers[x].store
    && t.servers[x].store[k] == s.servers[x].store[k]
  }

  lemma StepKeepsTop(s: System, edges: Edges, t: System, e: Event, x: string, k: string)
    requires Enabled(t, e) && Quiet(e, edges) && Isolated(s, edges, t)
    requires HoldsTop(s, edges, x, x, k) && Keeps(s, t, x, k)
    ensures Keeps(s, Step(t, e), x, k)
  {
    if e.DeliverPush? && e.push.dest == x && k in e.push.store {
      StoreCrossesEdge(s, edges, e.push.src, x, e.push.store);
      assert FromComponent(s, edges, x, k, e.push.store[k]);
    }
  }

  lemma KeepsTopAt(ss: seq<System>, es: seq<Event>, edges: Edges, s: System, i: nat, x: string, k: string)
    requires IsRun(ss, es) && i < |es| && Quiet(es[i], edges) && Isolated(s, edges, ss[i])
    requires HoldsTop(s, edges, x, x, k) && Keeps(s, ss[i], x, k)
    ensures Keeps(s, ss[i + 1], x, k)
  {
    At(ss, es, i);
    StepKeepsTop(s, edges, ss[i], es[i], x, k);
  }

  lemma {:induction false} KeepsTop(ss: seq<System>, es: seq<Event>, edges: Edges, lo: nat, i: nat, x: string,
                                    k: string)
    requires IsRun(ss, es) && lo <= i <= |es| && ss[lo].pushes == {}
    requires forall n | lo <= n < i :: Quiet(es[n], edges)
    requires HoldsTop(ss[lo], edges, x, x, k)
    ensures Keeps(ss[lo], ss[i], x, k)
    decreases i
  {
    if i > lo {
      KeepsTop(ss, es, edges, lo, i - 1, x, k);
      PartitionIsolation(ss, es, edges, lo, i - 1);
      KeepsTopAt(ss, es, edges, ss[lo], i - 1, x, k);
    }
  }

  ghost predicate ComponentAgrees(t: System, edges: Edges, j: string) {
    forall i | i in t.servers && Connected(edges, i, j) :: j in t.servers && t.servers[i].store == t.servers[j].store
  }

  lemma TopSurvives(ss: seq<System>, es: seq<Event>, edges: Edges, lo: nat, i: nat, j: string, x: string, k: string)
    requires IsRun(ss, es) && lo <= i <= |es| && ss[lo].pushes == {} && Symmetric(edges)
    requires forall n | lo <= n < i :: Quiet(es[n], edges)
    requires HoldsTop(ss[lo], edges, j, x, k)
    ensures Keeps(ss[lo], ss[i], x, k)
  {
    ConnectedSymmetric(edges, x, j);
    TopMoves(ss[lo], edges, j, x, x, k);
    KeepsTop(ss, es, edges, lo, i, x, k);
  }

  /** With n servers up, n - 1 rounds of stabilize make a component's stores identical exactly when no two
      of its servers began with different records of one key's highest version. */
  lemma StabilizeAgreesIff(ss: seq<System>, es: seq<Event>, edges: Edges, nodes: set<string>, marks: seq<nat>,
                           r: nat, j: string)
    requires Rounds(ss, es, edges, marks) && r < |marks| && |nodes| - 1 <= r
    requires nodes <= ss[marks[0]].servers.Keys && Symmetric(edges) && Within(edges, nodes) && j in nodes
    ensures marks[r] <= |es|
    ensures ComponentAgrees(ss[marks[r]], edges, j) <==> NoTies(ss[marks[0]], edges, j)
  {
    var s := ss[marks[0]];
    MarksOrdered(ss, es, edges, marks, r);
    var t := ss[marks[r]];
    Grows(ss, es, edges, marks[0], marks[r]);
    FloodingConverges(ss, es, edges, nodes, marks, r, j);
    if NoTies(s, edges, j) {
      forall i | i in t.servers && Connected(edges, i, j) ensures t.servers[i].store == t.servers[j].store {
        ConnectedWithin(edges, nodes, i, j);
        FloodingConverges(ss, es, edges, nodes, marks, r, i);
        OneJoin(s, edges, i, j, t.servers[i].store, t.servers[j].store);
      }
    }
    if ComponentAgrees(t, edges, j) {
      forall x, y, k | HoldsTop(s, edges, j, x, k) && HoldsTop(s, edges, j, y, k)
        ensures s.servers[x].store[k] == s.servers[y].store[k]
      {
        TopSurvives(ss, es, edges, marks[0], marks[r], j, x, k);
        TopSurvives(ss, es, edges, marks[0], marks[r], j, y, k);
      }
    }
  }

  /** Version agreement leaves no ties. */
  lemma AgreementLeavesNoTies(s: System, edges: Edges, j: string)
    requires Origin(s) && UniqueVersions(s.issued)
    ensures NoTies(s, edges, j)
  {
    forall x, y, k | HoldsTop(s, edges, j, x, k) && HoldsTop(s, edges, j, y, k)
      ensures s.servers[x].store[k] == s.servers[y].store[k]
    {
      assert ReplicaFrom(Records(s.issued), s.servers[x]) && ReplicaFrom(Records(s.issued), s.servers[y]);
      HeldAgree(s, s.servers[x].store[k], s.servers[y].store[k]);
    }
  }

  /** After any run in which every put ticks, with n servers up, n - 1 rounds of stabilize leave connected
      servers with the same store, values as well as versions. Writes still in flight stay in flight. */
  lemma EventuallyConsistent(ss: seq<System>, es: seq<Event>, edges: Edges, nodes: set<string>, marks: seq<nat>,
                             r: nat, i: string, j: string)
    requires Execution(ss, es) && Rounds(ss, es, edges, marks) && r < |marks| && |nodes| - 1 <= r
    requires TicksBefore(ss, es, marks[0]) && DistinctFractions(ss[marks[0]].servers.Keys)
    requires nodes <= ss[marks[0]].servers.Keys && Symmetric(edges) && Within(edges, nodes)
    requires i in nodes && Connected(edges, i, j)
    ensures marks[r] <= |es| && i in ss[marks[r]].servers && j in ss[marks[r]].servers
    ensures ss[marks[r]].servers[i].store == ss[marks[r]].servers[j].store
  {
    var _ := ShortPath(edges, nodes, i, j);
    OriginInvariant(ss, es, marks[0]);
    UniqueInvariant(ss, es, marks[0]);
    AgreementLeavesNoTies(ss[marks[0]], edges, j);
    StabilizeAgreesIff(ss, es, edges, nodes, marks, r, j);
    FloodingConverges(ss, es, edges, nodes, marks, r, i);
  }

  /******* Arrival order *******/

  ghost predicate InFlight(s: System, u: Update) {
    match u
    case RemoteWrite(kv) => exists m :: m in s.writes && m.kv == kv
    case Push(incoming) => exists p :: p in s.pushes && p.store == incoming
  }

  lemma CandidateIsHeld(s: System, id: string, us: seq<Update>, k: string, kv: KeyValue)
    requires Origin(s) && id in s.servers && forall u | u in us :: InFlight(s, u)
    requires Candidate(s.servers[id].store, us, k, kv)
    ensures Held(s, kv) && kv.key == k
  {
    if i :| 0 <= i < |us| && Carries(us[i], k, kv) {
      assert InFlight(s, us[i]);
    }
  }

  /** In such a run, a server that receives any of the messages in flight ends with the same
      store whatever their order and however often each arrives. */
  lemma ArrivalOrderIrrelevant(ss: seq<System>, es: seq<Event>, i: nat, id: string, us: seq<Update>, vs: seq<Update>)
    requires Execution(ss, es) && i <= |es| && TicksBefore(ss, es, i) && DistinctFractions(ss[i].servers.Keys)
    requires id in ss[i].servers && forall u | u in us :: InFlight(ss[i], u)
    requires SameUpdates(us, vs)
    ensures ReceiveAll(ss[i].servers[id].store, us) == ReceiveAll(ss[i].servers[id].store, vs)
  {
    OriginInvariant(ss, es, i);
    UniqueInvariant(ss, es, i);
    var store := ss[i].servers[id].store;
    forall k, x, y | Candidate(store, us, k, x) && Candidate(store, us, k, y) && x.version == y.version
      ensures x == y
    {
      CandidateIsHeld(ss[i], id, us, k, x);
      CandidateIsHeld(ss[i], id, us, k, y);
      HeldAgree(ss[i], x, y);
    }
    OrderIrrelevant(store, us, vs);
  }
}
