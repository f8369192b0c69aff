/**
 The round count of stabilize is exact: on a line of n servers whose rounds run in lock step, n - 2 rounds
 leave the ends with different stores.
 */
module LineOfServers {
  import opened Lamport
  import opened Store
  import opened System
  import opened VersionAgreement
  import opened Graph
  import opened Flooding

  /******* The line *******/

  function Ahead(p: seq<string>, i: nat): (string, string)
    requires i + 1 < |p|
  {
    (p[i], p[i + 1])
  }

  function Back(p: seq<string>, i: nat): (string, string)
    requires i + 1 < |p|
  {
    (p[i + 1], p[i])
  }

  ghost function LineEdges(p: seq<string>): Edges {
    (set i: nat | i < |p| - 1 :: Ahead(p, i)) + (set i: nat | i < |p| - 1 :: Back(p, i))
  }

  ghost function Nodes(p: seq<string>): set<string> {
    set i | 0 <= i < |p| :: p[i]
  }

  lemma LineIsGraph(p: seq<string>)
    requires p != []
    ensures Within(LineEdges(p), Nodes(p)) && Symmetric(LineEdges(p))
    ensures Connected(LineEdges(p), p[0], p[|p| - 1])
  {
    forall e | e in LineEdges(p) ensures (e.1, e.0) in LineEdges(p) {
      if i: nat :| i < |p| - 1 && e == Ahead(p, i) {
        assert Back(p, i) in LineEdges(p);
      } else {
        var j: nat :| j < |p| - 1 && e == Back(p, j);
        assert Ahead(p, j) in LineEdges(p);
      }
    }
    forall i: nat | i + 1 < |p| ensures Hop(LineEdges(p), p, i) {
      assert Ahead(p, i) in LineEdges(p);
    }
    assert PathBetween(LineEdges(p), p, p[0], p[|p| - 1]);
  }

  lemma HopIsNext(p: seq<string>, a: string, j: nat)
    requires Distinct(p) && j < |p| && (a, p[j]) in LineEdges(p)
    ensures (j > 0 && a == p[j - 1]) || (j + 1 < |p| && a == p[j + 1])
  {
    if i: nat :| i < |p| - 1 && (a, p[j]) == Ahead(p, i) {
      assert p[i + 1] == p[j];
    } else {
      var i: nat :| i < |p| - 1 && (a, p[j]) == Back(p, i);
    }
  }

  /** A path along the line takes a hop for each server it passes. */
  lemma {:induction false} LineDistance(p: seq<string>, q: seq<string>, j: nat)
    requires Distinct(p) && j < |p| && PathBetween(LineEdges(p), q, p[0], p[j])
    ensures |q| - 1 >= j
    decreases |q|
  {
    if |q| > 1 {
      LastHop(LineEdges(p), q);
      var front := q[..|q| - 1];
      HopIsNext(p, q[|q| - 2], j);
      if j > 0 && q[|q| - 2] == p[j - 1] {
        LineDistance(p, front, j - 1);
      } else {
        LineDistance(p, front, j + 1);
      }
    }
  }

  /******* Rounds in lock step *******/

  /** One more event of a run that only stabilize adds to. */
  ghost predicate Extended(ss: seq<System>, es: seq<Event>, ss': seq<System>, es': seq<Event>) {
    Execution(ss', es') && ss <= ss' && es <= es'
  }

  ghost predicate Taking(es: seq<Event>, lo: nat, edges: Edges) {
    forall i | lo <= i < |es| :: es[i].TakeSnapshot? && (es[i].src, es[i].dest) in edges
  }

  ghost predicate Delivering(es: seq<Event>, lo: nat) {
    forall i | lo <= i < |es| :: es[i].DeliverPush?
  }

  /** Every edge's snapshot is taken. */
  lemma {:induction false} TakeAll(ss: seq<System>, es: seq<Event>, edges: Edges, rest: Edges)
    returns (ss': seq<System>, es': seq<Event>)
    requires Execution(ss, es) && Within(edges, ss[|es|].servers.Keys) && rest <= edges
    ensures Extended(ss, es, ss', es') && Taking(es', |es|, edges)
    ensures ss'[|es'|].servers == ss[|es|].servers
    ensures forall e | e in rest :: exists m :: m in ss'[|es'|].pushes && m.src == e.0 && m.dest == e.1
    ensures ss[|es|].pushes <= ss'[|es'|].pushes
    ensures forall m | m in ss'[|es'|].pushes :: m in ss[|es|].pushes || m.dest in ss[|es|].servers
    decreases |rest|
  {
    if rest == {} { return ss, es; }
    var e :| e in rest;
    ss', es' := TakeAll(ss, es, edges, rest - {e});
    var take, now := TakeSnapshot(e.0, e.1), ss'[|es'|];
    var next := Step(now, take);
    assert PushMessage(e.0, e.1, now.servers[e.0].store) in next.pushes;
    ss', es' := Append(ss', es', take, next);
  }

  /** Every message in flight is delivered. */
  lemma {:induction false} DeliverAll(ss: seq<System>, es: seq<Event>) returns (ss': seq<System>, es': seq<Event>)
    requires Execution(ss, es) && forall m | m in ss[|es|].pushes :: m.dest in ss[|es|].servers
    ensures Extended(ss, es, ss', es') && Delivering(es', |es|)
    ensures ss'[|es'|].pushes == {} && ss'[|es'|].servers.Keys == ss[|es|].servers.Keys
    ensures forall m | m in ss[|es|].pushes :: exists i :: |es| <= i < |es'| && es'[i] == DeliverPush(m)
    decreases |ss[|es|].pushes|
  {
    if ss[|es|].pushes == {} { return ss, es; }
    var m :| m in ss[|es|].pushes;
    var next := Step(ss[|es|], DeliverPush(m));
    assert next.pushes == ss[|es|].pushes - {m};
    var ss1, es1 := Append(ss, es, DeliverPush(m), next);
    ss', es' := DeliverAll(ss1, es1);
    assert es'[|es|] == es1[|es|] == DeliverPush(m);
  }

  /** From any state without messages in flight there is a lock-step round. */
  lemma LockStepExists(ss: seq<System>, es: seq<Event>, edges: Edges)
    returns (ss': seq<System>, es': seq<Event>, mid: nat)
    requires Execution(ss, es) && Within(edges, ss[|es|].servers.Keys) && ss[|es|].pushes == {}
    ensures Extended(ss, es, ss', es') && ss'[|es'|].servers.Keys == ss[|es|].servers.Keys
    ensures Round(ss', es', edges, |es|, |es'|) && LockStep(es', |es|, mid, |es'|)
  {
    var ss1, es1 := TakeAll(ss, es, edges, edges);
    mid := |es1|;
    ss', es' := DeliverAll(ss1, es1);
    forall e | e in edges ensures exists i :: |es| <= i < |es'| && Delivers(es'[i], e) {
      var m :| m in ss1[|es1|].pushes && m.src == e.0 && m.dest == e.1;
      var i :| |es1| <= i < |es'| && es'[i] == DeliverPush(m);
      assert Delivers(es'[i], e);
    }
    forall i | |es| <= i < |es'| ensures Quiet(es'[i], edges) {
      if i < mid { assert es'[i] == es1[i]; }
    }
  }

  ghost predicate InLockStep(es: seq<Event>, marks: seq<nat>, mids: seq<nat>) {
    |mids| == |marks| && forall n | 0 <= n < |marks| - 1 :: LockStep(es, marks[n], mids[n], marks[n + 1])
  }

  lemma RoundLater(ss: seq<System>, es: seq<Event>, ss': seq<System>, es': seq<Event>, edges: Edges, lo: nat, hi: nat)
    requires Round(ss, es, edges, lo, hi) && Extended(ss, es, ss', es')
    ensures Round(ss', es', edges, lo, hi)
  {
    forall e | e in edges ensures exists i :: lo <= i < hi && Delivers(es'[i], e) {
      var i :| lo <= i < hi && Delivers(es[i], e);
      assert Delivers(es'[i], e);
    }
  }

  /** Any number of them. */
  lemma {:induction false} LockStepRounds(ss: seq<System>, es: seq<Event>, edges: Edges, r: nat)
    returns (ss': seq<System>, es': seq<Event>, marks: seq<nat>, mids: seq<nat>)
    requires Execution(ss, es) && Within(edges, ss[|es|].servers.Keys) && ss[|es|].pushes == {}
    ensures Extended(ss, es, ss', es') && ss'[|es'|].servers.Keys == ss[|es|].servers.Keys
    ensures Rounds(ss', es', edges, marks) && InLockStep(es', marks, mids)
    ensures |marks| == r + 1 && marks[0] == |es| && marks[r] == |es'| && ss'[|es'|].pushes == {}
  {
    if r == 0 { return ss, es, [|es|], [0]; }
    var ss1, es1, marks1, mids1 := LockStepRounds(ss, es, edges, r - 1);
    var mid;
    ss', es', mid := LockStepExists(ss1, es1, edges);
    marks, mids := marks1 + [|es'|], mids1[..r - 1] + [mid, 0];
    forall n | 0 <= n < r
      ensures Round(ss', es', edges, marks[n], marks[n + 1]) && LockStep(es', marks[n], mids[n], marks[n + 1])
    {
      if n < r - 1 {
        assert Round(ss1, es1, edges, marks1[n], marks1[n + 1]) && LockStep(es1, marks1[n], mids1[n], marks1[n + 1]);
        RoundLater(ss1, es1, ss', es', edges, marks1[n], marks1[n + 1]);
      }
    }
  }

  /******* Too few rounds *******/

  /** The servers of the line join, in order. */
  lemma {:induction false} JoinAll(p: seq<string>) returns (ss: seq<System>, es: seq<Event>)
    requires Distinct(p) && forall i | 0 <= i < |p| :: Atoi(p[i]).Some?
    ensures Execution(ss, es) && ss[|es|].servers.Keys == Nodes(p)
    ensures ss[|es|].pushes == {} && ss[|es|].sessions == map[]
    ensures forall id | id in ss[|es|].servers :: ss[|es|].servers[id].store == map[]
  {
    if p == [] { return [EMPTY], []; }
    var front, id := p[..|p| - 1], p[|p| - 1];
    ss, es := JoinAll(front);
    assert id !in Nodes(front);
    assert Nodes(p) == Nodes(front) + {id};
    ss, es := Append(ss, es, Join(id), Step(ss[|es|], Join(id)));
  }

  /** Only the first server has anything. */
  ghost predicate FirstAlone(s: System, p: seq<string>, key: string)
    requires p != []
  {
    && s.servers.Keys == Nodes(p) && s.pushes == {}
    && forall id | id in s.servers :: key in s.servers[id].store <==> id == p[0]
  }

  lemma PutAtFirst(p: seq<string>, key: string) returns (ss: seq<System>, es: seq<Event>)
    requires p != [] && Distinct(p) && forall i | 0 <= i < |p| :: Atoi(p[i]).Some?
    ensures Execution(ss, es) && FirstAlone(ss[|es|], p, key)
  {
    ss, es := JoinAll(p);
    var put := ClientPut("c", p[0], key, "x", {}, true);
    FirstPut(ss[|es|], put);
    ss, es := Append(ss, es, put, Step(ss[|es|], put));
  }

  lemma EndIsFar(p: seq<string>, i: string, r: nat)
    requires p != [] && Distinct(p) && i == p[0] && WithinHops(LineEdges(p), i, p[|p| - 1], r)
    ensures r >= |p| - 1
  {
    var q :| PathBetween(LineEdges(p), q, i, p[|p| - 1]) && |q| - 1 <= r;
    LineDistance(p, q, |p| - 1);
  }

  lemma NotYetAtEnd(s: System, p: seq<string>, key: string, r: nat, store: Store)
    requires |p| >= 2 && Distinct(p) && FirstAlone(s, p, key) && r <= |p| - 2
    requires StoreFromHops(s, LineEdges(p), p[|p| - 1], r, store)
    ensures key !in store
  {
    if key in store {
      assert FromHops(s, LineEdges(p), p[|p| - 1], r, key, store[key]);
      var i :| i in s.servers && WithinHops(LineEdges(p), i, p[|p| - 1], r)
               && key in s.servers[i].store && s.servers[i].store[key] == store[key];
      EndIsFar(p, i, r);
    }
  }

  /** n - 1 rounds are needed: on any line of n servers there is a run in which n - 2 lock-step rounds of
      stabilize leave its ends, though connected, with different stores. */
  lemma FewerRoundsDoNotSuffice(p: seq<string>)
    returns (ss: seq<System>, es: seq<Event>, marks: seq<nat>, mids: seq<nat>)
    requires |p| >= 2 && Distinct(p) && forall i | 0 <= i < |p| :: Atoi(p[i]).Some?
    ensures Symmetric(LineEdges(p)) && Connected(LineEdges(p), p[0], p[|p| - 1])
    ensures Execution(ss, es) && Rounds(ss, es, LineEdges(p), marks) && InLockStep(es, marks, mids)
    ensures |marks| == |p| - 1 && marks[|p| - 2] == |es| && ss[marks[0]].servers.Keys == Nodes(p)
    ensures p[0] in ss[|es|].servers && p[|p| - 1] in ss[|es|].servers
    ensures ss[|es|].servers[p[0]].store != ss[|es|].servers[p[|p| - 1]].store
  {
    LineIsGraph(p);
    var ss0, es0 := PutAtFirst(p, "k");
    var r, edges := |p| - 2, LineEdges(p);
    ss, es, marks, mids := LockStepRounds(ss0, es0, edges, r);
    var s, t := ss[marks[0]], ss[|es|];
    assert s == ss0[|es0|];
    MarksOrdered(ss, es, edges, marks, r);
    Grows(ss, es, edges, marks[0], |es|);
    assert Below(s.servers[p[0]].store, t.servers[p[0]].store);
    LockStepReach(ss, es, edges, marks, mids, r);
    NotYetAtEnd(s, p, "k", r, t.servers[p[|p| - 1]].store);
  }
}
