/**
 Stabilize: rounds in which every server pushes its whole store along every live edge.
 */
module Flooding {
  import opened Store
  import opened System
  import opened Graph

  /** Events of a stabilize phase: pushes on live edges, reads and heartbeats, but no put, no remote
      write and no new server. */
  predicate Quiet(e: Event, edges: Edges) {
    match e
    case Join(_) => false
    case ClientPut(_, _, _, _, _, _) => false
    case DeliverWrite(_, _) => false
    case TakeSnapshot(src, dest) => (src, dest) in edges
    case _ => true
  }

  predicate Delivers(e: Event, edge: (string, string)) {
    e.DeliverPush? && e.push.src == edge.0 && e.push.dest == edge.1
  }

  /** Between two barriers each edge delivers, at some moment, a snapshot taken since the first. */
  ghost predicate Round(ss: seq<System>, es: seq<Event>, edges: Edges, lo: nat, hi: nat) {
    && IsRun(ss, es) && lo <= hi <= |es|
    && ss[lo].pushes == {} && ss[hi].pushes == {}
    && (forall i | lo <= i < hi :: Quiet(es[i], edges))
    && (forall edge | edge in edges :: exists i :: lo <= i < hi && Delivers(es[i], edge))
  }

  /** marks are the barriers: one more than there are rounds. */
  ghost predicate Rounds(ss: seq<System>, es: seq<Event>, edges: Edges, marks: seq<nat>) {
    && IsRun(ss, es) && marks != [] && marks[0] <= |es| && ss[marks[0]].pushes == {}
    && forall r | 0 <= r < |marks| - 1 :: Round(ss, es, edges, marks[r], marks[r + 1])
  }

  /******* Stores only grow *******/

  ghost predicate Grown(s: System, s': System) {
    && s.servers.Keys == s'.servers.Keys
    && forall id | id in s.servers :: Below(s.servers[id].store, s'.servers[id].store)
  }

  lemma QuietStepGrows(s: System, e: Event, edges: Edges)
    requires Enabled(s, e) && Quiet(e, edges)
    ensures Grown(s, Step(s, e))
  {
    if e.DeliverPush? {
      MergeIsUpperBound(s.servers[e.push.dest].store, e.push.store);
    }
  }

  lemma GrowsAt(ss: seq<System>, es: seq<Event>, edges: Edges, i: nat)
    requires IsRun(ss, es) && i < |es| && Quiet(es[i], edges)
    ensures Grown(ss[i], ss[i + 1])
  {
    At(ss, es, i);
    QuietStepGrows(ss[i], es[i], edges);
  }

  lemma GrownTransitive(s: System, t: System, u: System)
    requires Grown(s, t) && Grown(t, u)
    ensures Grown(s, u)
  {
    forall id | id in s.servers ensures Below(s.servers[id].store, u.servers[id].store) {
      assert Below(s.servers[id].store, t.servers[id].store) && Below(t.servers[id].store, u.servers[id].store);
    }
  }

  lemma {:induction false} Grows(ss: seq<System>, es: seq<Event>, edges: Edges, lo: nat, hi: nat)
    requires IsRun(ss, es) && lo <= hi <= |es|
    requires forall i | lo <= i < hi :: Quiet(es[i], edges)
    ensures Grown(ss[lo], ss[hi])
    decreases hi
  {
    if lo < hi {
      Grows(ss, es, edges, lo, hi - 1);
      GrowsAt(ss, es, edges, hi - 1);
      GrownTransitive(ss[lo], ss[hi - 1], ss[hi]);
    }
  }

  /******* One round carries every store over every edge *******/

  /** Every snapshot in flight covers what its sender held in state s. */
  ghost predicate Covers(s: System, pushes: set<PushMessage>) {
    forall p | p in pushes :: p.src in s.servers && Below(s.servers[p.src].store, p.store)
  }

  lemma CoversAt(ss: seq<System>, es: seq<Event>, s: System, i: nat)
    requires IsRun(ss, es) && i < |es| && Grown(s, ss[i]) && Covers(s, ss[i].pushes)
    ensures Covers(s, ss[i + 1].pushes)
  {
    At(ss, es, i);
  }

  lemma {:induction false} SnapshotsAreRecent(ss: seq<System>, es: seq<Event>, edges: Edges, lo: nat, i: nat)
    requires IsRun(ss, es) && lo <= i <= |es| && ss[lo].pushes == {}
    requires forall j | lo <= j < i :: Quiet(es[j], edges)
    ensures Covers(ss[lo], ss[i].pushes)
    decreases i
  {
    if lo < i {
      SnapshotsAreRecent(ss, es, edges, lo, i - 1);
      Grows(ss, es, edges, lo, i - 1);
      CoversAt(ss, es, ss[lo], i - 1);
    }
  }

  lemma DeliveryCovers(ss: seq<System>, es: seq<Event>, s: System, i: nat)
    requires IsRun(ss, es) && i < |es| && es[i].DeliverPush? && Covers(s, ss[i].pushes)
    ensures Carried(s, es[i].push.src, ss[i + 1], es[i].push.dest)
  {
    At(ss, es, i);
    MergeIsUpperBound(ss[i].servers[es[i].push.dest].store, es[i].push.store);
  }

  /** a's store in s is covered by b's in s'. */
  ghost predicate Carried(s: System, a: string, s': System, b: string) {
    a in s.servers && b in s'.servers && Below(s.servers[a].store, s'.servers[b].store)
  }

  lemma CarriedGrows(s: System, a: string, s': System, b: string, s'': System)
    requires Carried(s, a, s', b) && Grown(s', s'')
    ensures Carried(s, a, s'', b)
  {
  }

  lemma DeliveryLasts(ss: seq<System>, es: seq<Event>, edges: Edges, lo: nat, hi: nat, i: nat)
    requires Round(ss, es, edges, lo, hi) && lo <= i < hi && es[i].DeliverPush?
    ensures Carried(ss[lo], es[i].push.src, ss[hi], es[i].push.dest)
  {
    SnapshotsAreRecent(ss, es, edges, lo, i);
    DeliveryCovers(ss, es, ss[lo], i);
    Grows(ss, es, edges, i + 1, hi);
    CarriedGrows(ss[lo], es[i].push.src, ss[i + 1], es[i].push.dest, ss[hi]);
  }

  lemma RoundCovers(ss: seq<System>, es: seq<Event>, edges: Edges, lo: nat, hi: nat, a: string, b: string)
    requires Round(ss, es, edges, lo, hi) && (a, b) in edges
    ensures Carried(ss[lo], a, ss[hi], b)
  {
    var i :| lo <= i < hi && Delivers(es[i], (a, b));
    DeliveryLasts(ss, es, edges, lo, hi, i);
  }

  /******* Rounds carry stores along paths *******/

  lemma {:induction false} MarksOrdered(ss: seq<System>, es: seq<Event>, edges: Edges, marks: seq<nat>, r: nat)
    requires Rounds(ss, es, edges, marks) && r < |marks|
    ensures marks[0] <= marks[r] <= |es| && ss[marks[r]].pushes == {}
    ensures forall i | marks[0] <= i < marks[r] :: Quiet(es[i], edges)
  {
    if r > 0 {
      MarksOrdered(ss, es, edges, marks, r - 1);
      assert Round(ss, es, edges, marks[r - 1], marks[r - 1 + 1]);
    }
  }

  lemma RoundAt(ss: seq<System>, es: seq<Event>, edges: Edges, marks: seq<nat>, r: nat)
    requires Rounds(ss, es, edges, marks) && r + 1 < |marks|
    ensures Round(ss, es, edges, marks[r], marks[r + 1])
  {
  }

  lemma CarriedOver(ss: seq<System>, es: seq<Event>, edges: Edges, s: System, i: string, lo: nat, hi: nat, a: string,
                    b: string)
    requires Round(ss, es, edges, lo, hi) && (a, b) in edges && Carried(s, i, ss[lo], a)
    ensures Carried(s, i, ss[hi], b)
  {
    RoundCovers(ss, es, edges, lo, hi, a, b);
  }

  lemma LastHop(edges: Edges, p: seq<string>)
    requires Path(edges, p) && |p| > 1
    ensures Path(edges, p[..|p| - 1]) && (p[|p| - 2], p[|p| - 1]) in edges
  {
    var front := p[..|p| - 1];
    assert Hop(edges, p, |p| - 2);
    forall i: nat | i + 1 < |front| ensures Hop(edges, front, i) {
      assert Hop(edges, p, i);
    }
  }

  /** After r rounds each store has reached every server at most r edges away. */
  lemma {:induction false} RoundsReach(ss: seq<System>, es: seq<Event>, edges: Edges, marks: seq<nat>, r: nat,
                                       p: seq<string>)
    requires Rounds(ss, es, edges, marks) && r < |marks|
    requires Path(edges, p) && |p| - 1 <= r && p[0] in ss[marks[0]].servers
    ensures marks[r] <= |es| && Carried(ss[marks[0]], p[0], ss[marks[r]], p[|p| - 1])
    decreases r
  {
    MarksOrdered(ss, es, edges, marks, r);
    if |p| == 1 {
      Grows(ss, es, edges, marks[0], marks[r]);
    } else {
      LastHop(edges, p);
      RoundsReach(ss, es, edges, marks, r - 1, p[..|p| - 1]);
      RoundAt(ss, es, edges, marks, r - 1);
      CarriedOver(ss, es, edges, ss[marks[0]], p[0], marks[r - 1], marks[r], p[|p| - 2], p[|p| - 1]);
    }
  }

  /******* Stabilize stays inside a component *******/

  /** kv was in the store of some server connected to j in state s. */
  ghost predicate FromComponent(s: System, edges: Edges, j: string, k: string, kv: KeyValue) {
    exists i :: i in s.servers && Connected(edges, i, j) && k in s.servers[i].store && s.servers[i].store[k] == kv
  }

  ghost predicate StoreFromComponent(s: System, edges: Edges, j: string, store: Store) {
    forall k | k in store :: FromComponent(s, edges, j, k, store[k])
  }

  ghost predicate Isolated(s: System, edges: Edges, t: System) {
    && (forall j | j in t.servers :: StoreFromComponent(s, edges, j, t.servers[j].store))
    && (forall p | p in t.pushes :: (p.src, p.dest) in edges && StoreFromComponent(s, edges, p.src, p.store))
  }

  lemma StoreCrossesEdge(s: System, edges: Edges, a: string, b: string, store: Store)
    requires StoreFromComponent(s, edges, a, store) && (a, b) in edges
    ensures StoreFromComponent(s, edges, b, store)
  {
    forall k | k in store ensures FromComponent(s, edges, b, k, store[k]) {
      assert FromComponent(s, edges, a, k, store[k]);
      var i :| i in s.servers && Connected(edges, i, a) && k in s.servers[i].store && s.servers[i].store[k] == store[k];
      ConnectedStep(edges, i, a, b);
    }
  }

  lemma MergeFromComponent(s: System, edges: Edges, j: string, store: Store, incoming: Store)
    requires StoreFromComponent(s, edges, j, store) && StoreFromComponent(s, edges, j, incoming)
    ensures StoreFromComponent(s, edges, j, Merge(store, incoming))
  {
  }

  lemma StepStaysIsolated(s: System, edges: Edges, t: System, e: Event)
    requires Enabled(t, e) && Quiet(e, edges) && Isolated(s, edges, t)
    ensures Isolated(s, edges, Step(t, e))
  {
    if e.DeliverPush? {
      StoreCrossesEdge(s, edges, e.push.src, e.push.dest, e.push.store);
      MergeFromComponent(s, edges, e.push.dest, t.servers[e.push.dest].store, e.push.store);
    }
  }

  lemma IsolatedAt(ss: seq<System>, es: seq<Event>, edges: Edges, s: System, i: nat)
    requires IsRun(ss, es) && i < |es| && Quiet(es[i], edges) && Isolated(s, edges, ss[i])
    ensures Isolated(s, edges, ss[i + 1])
  {
    At(ss, es, i);
    StepStaysIsolated(s, edges, ss[i], es[i]);
  }

  lemma IsolatedAtStart(s: System, edges: Edges)
    requires s.pushes == {}
    ensures Isolated(s, edges, s)
  {
    forall j | j in s.servers ensures StoreFromComponent(s, edges, j, s.servers[j].store) {
      ConnectedToSelf(edges, j);
    }
  }

  /** Stabilize never gives a server a record that no server connected to it held at the start. */
  lemma {:induction false} PartitionIsolation(ss: seq<System>, es: seq<Event>, edges: Edges, lo: nat, i: nat)
    requires IsRun(ss, es) && lo <= i <= |es| && ss[lo].pushes == {}
    requires forall n | lo <= n < i :: Quiet(es[n], edges)
    ensures Isolated(ss[lo], edges, ss[i])
    decreases i
  {
    if i == lo {
      IsolatedAtStart(ss[lo], edges);
    } else {
      PartitionIsolation(ss, es, edges, lo, i - 1);
      IsolatedAt(ss, es, edges, ss[lo], i - 1);
    }
  }

  /******* Convergence *******/

  /** Server j's store is, key by key, the highest version that the servers connected to it held in
      state s, and holds no other key. */
  ghost predicate ComponentJoin(s: System, edges: Edges, j: string, store: Store) {
    && StoreFromComponent(s, edges, j, store)
    && forall i | i in s.servers && Connected(edges, i, j) :: Below(s.servers[i].store, store)
  }

  /** Flooding for n - 1 rounds, whatever the interleaving inside each round. The n nodes are the servers
      that are up, any set that contains the ends of all live edges. */
  lemma FloodingConverges(ss: seq<System>, es: seq<Event>, edges: Edges, nodes: set<string>, marks: seq<nat>,
                          r: nat, j: string)
    requires Rounds(ss, es, edges, marks) && r < |marks| && |nodes| - 1 <= r
    requires nodes <= ss[marks[0]].servers.Keys && Within(edges, nodes) && j in nodes
    ensures marks[r] <= |es| && j in ss[marks[r]].servers
    ensures ComponentJoin(ss[marks[0]], edges, j, ss[marks[r]].servers[j].store)
  {
    var s := ss[marks[0]];
    MarksOrdered(ss, es, edges, marks, r);
    Grows(ss, es, edges, marks[0], marks[r]);
    PartitionIsolation(ss, es, edges, marks[0], marks[r]);
    forall i | i in s.servers && Connected(edges, i, j)
      ensures Below(s.servers[i].store, ss[marks[r]].servers[j].store)
    {
      ConnectedWithin(edges, nodes, i, j);
      var p := ShortPath(edges, nodes, i, j);
      RoundsReach(ss, es, edges, marks, r, p);
    }
  }

  /******* How far lock-step rounds reach *******/

  /** A round in lock step: every snapshot is taken before any is delivered. */
  ghost predicate LockStep(es: seq<Event>, lo: nat, mid: nat, hi: nat) {
    && lo <= mid <= hi <= |es|
    && (forall i | lo <= i < mid :: !es[i].DeliverPush?)
    && (forall i | mid <= i < hi :: !es[i].TakeSnapshot?)
  }

  ghost predicate WithinHops(edges: Edges, i: string, j: string, n: nat) {
    exists p :: PathBetween(edges, p, i, j) && |p| - 1 <= n
  }

  lemma OneHopMore(edges: Edges, i: string, a: string, b: string, n: nat)
    requires WithinHops(edges, i, a, n) && (a, b) in edges
    ensures WithinHops(edges, i, b, n + 1)
  {
    var p :| PathBetween(edges, p, i, a) && |p| - 1 <= n;
    AppendHop(edges, p, i, a, b);
    assert PathBetween(edges, p + [b], i, b) && |p + [b]| - 1 <= n + 1;
  }

  ghost predicate FromHops(s: System, edges: Edges, j: string, n: nat, k: string, kv: KeyValue) {
    exists i :: i in s.servers && WithinHops(edges, i, j, n) && k in s.servers[i].store && s.servers[i].store[k] == kv
  }

  ghost predicate StoreFromHops(s: System, edges: Edges, j: string, n: nat, store: Store) {
    forall k | k in store :: FromHops(s, edges, j, n, k, store[k])
  }

  ghost predicate StoresFromHops(s: System, edges: Edges, n: nat, t: System) {
    forall j | j in t.servers :: StoreFromHops(s, edges, j, n, t.servers[j].store)
  }

  ghost predicate PushesFromHops(s: System, edges: Edges, n: nat, t: System) {
    forall p | p in t.pushes :: (p.src, p.dest) in edges && StoreFromHops(s, edges, p.src, n, p.store)
  }

  lemma HopsCrossEdge(s: System, edges: Edges, a: string, b: string, n: nat, store: Store)
    requires StoreFromHops(s, edges, a, n, store) && (a, b) in edges
    ensures StoreFromHops(s, edges, b, n + 1, store)
  {
    forall k | k in store ensures FromHops(s, edges, b, n + 1, k, store[k]) {
      assert FromHops(s, edges, a, n, k, store[k]);
      var i :| i in s.servers && WithinHops(edges, i, a, n)
               && k in s.servers[i].store && s.servers[i].store[k] == store[k];
      OneHopMore(edges, i, a, b, n);
    }
  }

  lemma HopsWeaken(s: System, edges: Edges, j: string, n: nat, store: Store)
    requires StoreFromHops(s, edges, j, n, store)
    ensures StoreFromHops(s, edges, j, n + 1, store)
  {
    forall k | k in store ensures FromHops(s, edges, j, n + 1, k, store[k]) {
      assert FromHops(s, edges, j, n, k, store[k]);
    }
  }

  lemma MergeFromHops(s: System, edges: Edges, j: string, n: nat, store: Store, incoming: Store)
    requires StoreFromHops(s, edges, j, n, store) && StoreFromHops(s, edges, j, n, incoming)
    ensures StoreFromHops(s, edges, j, n, Merge(store, incoming))
  {
  }

  lemma TakeAt(ss: seq<System>, es: seq<Event>, edges: Edges, s: System, n: nat, i: nat)
    requires IsRun(ss, es) && i < |es| && Quiet(es[i], edges) && !es[i].DeliverPush?
    requires StoresFromHops(s, edges, n, ss[i]) && PushesFromHops(s, edges, n, ss[i])
    ensures StoresFromHops(s, edges, n, ss[i + 1]) && PushesFromHops(s, edges, n, ss[i + 1])
  {
    At(ss, es, i);
  }

  lemma DeliverAt(ss: seq<System>, es: seq<Event>, edges: Edges, s: System, n: nat, i: nat)
    requires IsRun(ss, es) && i < |es| && Quiet(es[i], edges) && !es[i].TakeSnapshot?
    requires StoresFromHops(s, edges, n + 1, ss[i]) && PushesFromHops(s, edges, n, ss[i])
    ensures StoresFromHops(s, edges, n + 1, ss[i + 1]) && PushesFromHops(s, edges, n, ss[i + 1])
  {
    At(ss, es, i);
    if es[i].DeliverPush? {
      var p := es[i].push;
      HopsCrossEdge(s, edges, p.src, p.dest, n, p.store);
      MergeFromHops(s, edges, p.dest, n + 1, ss[i].servers[p.dest].store, p.store);
    }
  }

  lemma {:induction false} TakePhase(ss: seq<System>, es: seq<Event>, edges: Edges, s: System, n: nat, lo: nat, i: nat)
    requires IsRun(ss, es) && lo <= i <= |es| && ss[lo].pushes == {} && StoresFromHops(s, edges, n, ss[lo])
    requires forall m | lo <= m < i :: Quiet(es[m], edges) && !es[m].DeliverPush?
    ensures StoresFromHops(s, edges, n, ss[i]) && PushesFromHops(s, edges, n, ss[i])
    decreases i
  {
    if lo < i {
      TakePhase(ss, es, edges, s, n, lo, i - 1);
      TakeAt(ss, es, edges, s, n, i - 1);
    }
  }

  lemma {:induction false} DeliverPhase(ss: seq<System>, es: seq<Event>, edges: Edges, s: System, n: nat, mid: nat,
                                        i: nat)
    requires IsRun(ss, es) && mid <= i <= |es|
    requires StoresFromHops(s, edges, n + 1, ss[mid]) && PushesFromHops(s, edges, n, ss[mid])
    requires forall m | mid <= m < i :: Quiet(es[m], edges) && !es[m].TakeSnapshot?
    ensures StoresFromHops(s, edges, n + 1, ss[i]) && PushesFromHops(s, edges, n, ss[i])
    decreases i
  {
    if mid < i {
      DeliverPhase(ss, es, edges, s, n, mid, i - 1);
      DeliverAt(ss, es, edges, s, n, i - 1);
    }
  }

  /** In lock step a round carries a record over one edge and no further. */
  lemma LockStepRound(ss: seq<System>, es: seq<Event>, edges: Edges, s: System, n: nat, lo: nat, mid: nat, hi: nat)
    requires Round(ss, es, edges, lo, hi) && LockStep(es, lo, mid, hi) && StoresFromHops(s, edges, n, ss[lo])
    ensures StoresFromHops(s, edges, n + 1, ss[hi])
  {
    TakePhase(ss, es, edges, s, n, lo, mid);
    forall j | j in ss[mid].servers { HopsWeaken(s, edges, j, n, ss[mid].servers[j].store); }
    DeliverPhase(ss, es, edges, s, n, mid, hi);
  }

  /** After r rounds in lock step, each record a server holds was held at the start by some server at
      most r edges away: servers further apart have not yet exchanged anything. */
  lemma {:induction false} LockStepReach(ss: seq<System>, es: seq<Event>, edges: Edges, marks: seq<nat>,
                                         mids: seq<nat>, r: nat)
    requires Rounds(ss, es, edges, marks) && r < |marks| && |mids| == |marks|
    requires forall n | 0 <= n < r :: LockStep(es, marks[n], mids[n], marks[n + 1])
    ensures marks[r] <= |es| && StoresFromHops(ss[marks[0]], edges, r, ss[marks[r]])
  {
    MarksOrdered(ss, es, edges, marks, r);
    if r == 0 {
      var s := ss[marks[0]];
      forall j, k | j in s.servers && k in s.servers[j].store
        ensures FromHops(s, edges, j, 0, k, s.servers[j].store[k])
      {
        assert PathBetween(edges, [j], j, j);
      }
    } else {
      LockStepReach(ss, es, edges, marks, mids, r - 1);
      RoundAt(ss, es, edges, marks, r - 1);
      assert LockStep(es, marks[r - 1], mids[r - 1], marks[r - 1 + 1]);
      LockStepRound(ss, es, edges, ss[marks[0]], r - 1, marks[r - 1], mids[r - 1], marks[r]);
    }
  }
}
