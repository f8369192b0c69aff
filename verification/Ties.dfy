/**
 What servers that share a fraction are left with: two writes of one version, each kept where it was made.
 */
module Ties {
  import opened Lamport
  import opened Store
  import opened System
  import opened VersionAgreement

  /** Both servers have taken a first write of the key, and the client "r" has not read anything. */
  ghost predicate OwnWrites(s: System, a: string, b: string, x: KeyValue, y: KeyValue) {
    && s.servers.Keys == {a, b} && x.key == y.key && x.version == y.version > 0.0
    && s.servers[a].store == map[x.key := x] && s.servers[a].log == [x]
    && s.servers[b].store == map[y.key := y] && s.servers[b].log == [y]
    && SessionOf(s, "r") == map[]
  }

  /** Each write is on its way to the other server. */
  ghost predicate Crossing(s: System, a: string, b: string, x: KeyValue, y: KeyValue) {
    OwnWrites(s, a, b, x, y) && WriteMessage(b, x) in s.writes && WriteMessage(a, y) in s.writes
  }

  lemma CrossedPuts(ss: seq<System>, es: seq<Event>, a: string, b: string)
    returns (ss': seq<System>, es': seq<Event>, x: KeyValue, y: KeyValue)
    requires Execution(ss, es) && NoLagRun(ss, es) && a != b && InStep(ss[|es|], a, b)
    ensures Execution(ss', es') && NoLagRun(ss', es') && Crossing(ss'[|es'|], a, b, x, y)
    ensures x.key == "k" && x.value == "x" && y.value == "y"
  {
    var put1, put2 := ClientPut("c", a, "k", "x", {b}, true), ClientPut("d", b, "k", "y", {a}, true);
    var s := ss[|es|];
    FirstPut(s, put1);
    var s1 := Step(s, put1);
    FirstPut(s1, put2);
    var s2 := Step(s1, put2);
    x, y := Reply(s, put1), Reply(s1, put2);
    ss', es' := Append(ss, es, put1, s1);
    ss', es' := Append(ss', es', put2, s2);
  }

  lemma TiedWriteArrives(s: System, write: WriteMessage)
    requires write in s.writes && write.dest in s.servers && write.kv.key in s.servers[write.dest].store
    requires s.servers[write.dest].store[write.kv.key].version == write.kv.version
    ensures Enabled(s, DeliverWrite(write, false))
    ensures Step(s, DeliverWrite(write, false)) == s.(writes := s.writes - {write})
  {
    var r := s.servers[write.dest];
    assert s.servers[write.dest := r] == s.servers;
  }

  lemma FreshGet(s: System, id: string, client: string, kv: KeyValue)
    requires id in s.servers && kv.key in s.servers[id].store && s.servers[id].store[kv.key] == kv
    requires SessionOf(s, client) == map[] && kv.version >= -1.0
    ensures var get := ClientGet(client, id, kv.key, true); Enabled(s, get) && Reply(s, get) == kv
  {
  }

  lemma BothArrive(ss: seq<System>, es: seq<Event>, a: string, b: string, x: KeyValue, y: KeyValue)
    returns (ss': seq<System>, es': seq<Event>)
    requires Execution(ss, es) && NoLagRun(ss, es) && a != b && Crossing(ss[|es|], a, b, x, y)
    ensures Execution(ss', es') && NoLagRun(ss', es') && OwnWrites(ss'[|es'|], a, b, x, y)
    ensures es' == es + [DeliverWrite(WriteMessage(b, x), false)] + [DeliverWrite(WriteMessage(a, y), false)]
  {
    var s, toB, toA := ss[|es|], WriteMessage(b, x), WriteMessage(a, y);
    TiedWriteArrives(s, toB);
    var s1 := s.(writes := s.writes - {toB});
    ss', es' := Append(ss, es, DeliverWrite(toB, false), s1);
    TiedWriteArrives(s1, toA);
    ss', es' := Append(ss', es', DeliverWrite(toA, false), s1.(writes := s1.writes - {toA}));
  }

  /** Two servers of one fraction that both take a first write of a key keep their own, unlogged by the
      other, after each write has reached the other server: whoever reads gets one value at one and the
      other value at the other, at one version. */
  lemma EachKeepsItsOwn(a: string, b: string)
    returns (ss: seq<System>, es: seq<Event>, x: KeyValue, y: KeyValue)
    requires a != b && Atoi(a).Some? && Atoi(b).Some? && IdFraction(a) == IdFraction(b)
    ensures Execution(ss, es) && NoLagRun(ss, es) && ss[|es|].servers.Keys == {a, b}
    ensures x.key == y.key && x.version == y.version && x.value == "x" && y.value == "y"
    ensures DeliverWrite(WriteMessage(b, x), false) in es && DeliverWrite(WriteMessage(a, y), false) in es
    ensures ss[|es|].servers[a].log == [x] && ss[|es|].servers[b].log == [y]
    ensures var get1, get2 := ClientGet("r", a, x.key, true), ClientGet("r", b, y.key, true);
      && Enabled(ss[|es|], get1) && Reply(ss[|es|], get1) == x
      && Enabled(ss[|es|], get2) && Reply(ss[|es|], get2) == y
  {
    ss, es := ReachInStep(a, b);
    ss, es, x, y := CrossedPuts(ss, es, a, b);
    var n := |es|;
    ss, es := BothArrive(ss, es, a, b, x, y);
    assert es[n] == DeliverWrite(WriteMessage(b, x), false) && es[n + 1] == DeliverWrite(WriteMessage(a, y), false);
    FreshGet(ss[|es|], a, "r", x);
    FreshGet(ss[|es|], b, "r", y);
  }
}
