/**
 Runs in which a client reads a value older than one it wrote or read.
 */
module SessionFailures {
  import opened Lamport
  import opened Store
  import opened R = Replica
  import opened System
  import opened VersionAgreement
  import opened Sessions

  /******* The client's own lag *******/

  /** The client's second put is answered with a version two ticks or more below its first. */
  lemma PutsOutOfOrder(s: System, put1: Event, put2: Event)
    requires Enabled(s, put1) && put1.ClientPut? && put1.answered
    requires put1.key !in SessionOf(s, put1.client) && put1.key !in s.servers[put1.server].store
    requires put2.ClientPut? && put2 == put1.(server := put2.server, value := put2.value)
    requires Enabled(Step(s, put1), put2)
    requires put1.server != put2.server
    requires s.servers[put1.server].clock > s.servers[put2.server].clock + 1.0 > 0.0
    ensures !NoLagStep(Step(s, put1), put2)
    ensures Reply(Step(s, put1), put2).version < Reply(s, put1).version
    ensures SessionOf(Step(Step(s, put1), put2), put1.client)[put1.key] == Reply(Step(s, put1), put2).version
  {
    FirstPut(s, put1);
    var s', pivot := Step(s, put1), s.servers[put1.server].clock;
    assert SessionOf(s', put1.client)[put1.key] == Reply(s, put1).version == pivot;
    PutKeepsSessionIff(s', put2);
  }

  /** Then a get back at the first server returns the first write. */
  lemma ReadsOldWrite(s: System, put1: Event, put2: Event)
    requires Enabled(s, put1) && put1.ClientPut? && put1.answered
    requires put1.key !in SessionOf(s, put1.client) && put1.key !in s.servers[put1.server].store
    requires put2.ClientPut? && put2 == put1.(server := put2.server, value := put2.value)
    requires Enabled(Step(s, put1), put2)
    requires put1.server != put2.server
    requires SessionOf(Step(Step(s, put1), put2), put1.client)[put1.key] < Reply(s, put1).version
    ensures var s'', get := Step(Step(s, put1), put2), ClientGet(put1.client, put1.server, put1.key, true);
      Enabled(s'', get) && Reply(s'', get) == Reply(s, put1)
  {
    FirstPut(s, put1);
    var s' := Step(s, put1);
    assert s'.servers[put1.server].store[put1.key] == Reply(s, put1);
    assert Step(s', put2).servers[put1.server] == s'.servers[put1.server];
  }

  /** Read Your Writes fails: after nothing but joins and heartbeats sent, a client writes "x" at one
      server, then writes "y" at the other, which lags, then reads "x" back at the first. */
  lemma LagBreaksReadYourWrites(a: string, b: string)
    returns (ss: seq<System>, es: seq<Event>, put1: Event, put2: Event, get: Event)
    requires a != b && Atoi(a).Some? && Atoi(b).Some?
    ensures Execution(ss, es) && forall e | e in es :: e.Join? || e.HeartbeatSend?
    ensures put1 == ClientPut("c", a, "k", "x", {}, true) && put2 == ClientPut("c", b, "k", "y", {}, true)
    ensures get == ClientGet("c", a, "k", true) && Enabled(ss[|es|], put1)
    ensures var s' := Step(ss[|es|], put1);
      Enabled(s', put2) && !NoLagStep(s', put2) && Enabled(Step(s', put2), get)
    ensures Reply(Step(Step(ss[|es|], put1), put2), get).value == "x"
    ensures Reply(Step(ss[|es|], put1), put2).version < Reply(ss[|es|], put1).version
  {
    OffsetBounds(a);
    OffsetBounds(b);
    ss, es := TwoServers(a, b, 4);
    put1, put2 := ClientPut("c", a, "k", "x", {}, true), ClientPut("c", b, "k", "y", {}, true);
    get := ClientGet("c", a, "k", true);
    PutsOutOfOrder(ss[|es|], put1, put2);
    ReadsOldWrite(ss[|es|], put1, put2);
  }

  /******* Other clients' lag *******/

  /** Each answered put on the key, by any client with a version for it, has been in reach. */
  ghost predicate AllInReach(ss: seq<System>, es: seq<Event>, key: string)
    requires IsRun(ss, es)
  {
    forall client :: PutsInReach(ss, es, 0, |es|, client, key)
  }

  /** One more event of a run; ss' and es' are the run with it. */
  lemma Continue(ss: seq<System>, es: seq<Event>, e: Event, key: string) returns (ss': seq<System>, es': seq<Event>)
    requires Execution(ss, es) && AllInReach(ss, es, key) && Enabled(ss[|es|], e)
    requires e.ClientPut? && e.answered && e.key == key && key in SessionOf(ss[|es|], e.client) ==>
               InReach(ss[|es|].servers[e.server], key, SessionOf(ss[|es|], e.client)[key])
    ensures ss' == ss + [Step(ss[|es|], e)] && es' == es + [e]
    ensures Execution(ss', es') && AllInReach(ss', es', key)
  {
    ss', es' := Append(ss, es, e, Step(ss[|es|], e));
    forall client, n: nat | n < |es'| ensures InReachAt(ss', es', n, client, key) {
      if n < |es| { assert PutsInReach(ss, es, 0, |es|, client, key) && InReachAt(ss, es, n, client, key); }
    }
  }

  /** The client e has put at b and is far ahead of a. Nobody has put on k. */
  lemma FarAhead(a: string, b: string) returns (ss: seq<System>, es: seq<Event>)
    requires a != b && Atoi(a).Some? && Atoi(b).Some?
    ensures Execution(ss, es) && AllInReach(ss, es, "k") && ss[|es|].servers.Keys == {a, b}
    ensures forall n | 0 <= n < |es| :: es[n].ClientPut? ==> es[n].key != "k"
    ensures ss[|es|].servers[a] == Fresh(a) && "k" !in ss[|es|].servers[b].store
    ensures "j" in SessionOf(ss[|es|], "e")
            && Fresh(a).clock + 5.0 <= SessionOf(ss[|es|], "e")["j"] < Fresh(a).clock + 6.0
    ensures forall c | c != "e" :: SessionOf(ss[|es|], c) == map[]
  {
    ss, es := ClientAhead(a, b, "e", "j", 5);
    forall n | 0 <= n < |es| ensures es[n].ClientPut? ==> es[n].key != "k" {
      assert es[n] in es;
    }
    forall client ensures PutsInReach(ss, es, 0, |es|, client, "k") {
    }
  }

  /** The write that a first put sends is stored by a server without the key. */
  lemma FirstWriteArrives(s: System, put: Event, b: string)
    requires Enabled(s, put) && put.ClientPut? && put.answered && put.reached == {b}
    requires put.key !in SessionOf(s, put.client) && put.key !in s.servers[put.server].store
    requires b in s.servers && b != put.server && put.key !in s.servers[b].store
    ensures var deliver := DeliverWrite(WriteMessage(b, Reply(s, put)), false);
      && Enabled(Step(s, put), deliver)
      && var t, kv := Step(Step(s, put), deliver), Reply(s, put);
      && t.servers.Keys == s.servers.Keys
      && t.servers[put.server] == Put(s.servers[put.server], put.key, put.value, ANY_VERSION)
      && put.key in t.servers[b].store && t.servers[b].store[put.key] == kv
      && SessionOf(t, put.client) == SessionOf(s, put.client)[put.key := kv.version]
      && forall c | c != put.client :: SessionOf(t, c) == SessionOf(s, c)
  {
    FirstPut(s, put);
    var s' := Step(s, put);
    var deliver := DeliverWrite(WriteMessage(b, Reply(s, put)), false);
    assert s'.servers[b] == s.servers[b] && Step(s', deliver).sessions == s'.sessions;
  }

  /** p puts "x" at a, and b receives it. */
  lemma WriteBoth(a: string, b: string, p: string) returns (ss: seq<System>, es: seq<Event>, first: nat)
    requires a != b && p != "e" && Atoi(a).Some? && Atoi(b).Some?
    ensures Execution(ss, es) && AllInReach(ss, es, "k") && ss[|es|].servers.Keys == {a, b}
    ensures first < |es| && es[first] == ClientPut(p, a, "k", "x", {b}, true)
    ensures forall n | 0 <= n < |es| :: es[n].ClientPut? && es[n].key == "k" ==> n == first
    ensures var kv, s := KeyValue("k", "x", Fresh(a).clock), ss[|es|];
      && s.servers[a] == Replica(a, map["k" := kv], [kv], Fresh(a).clock + 1.0)
      && "k" in s.servers[b].store && s.servers[b].store["k"] == kv
      && SessionOf(s, p) == map["k" := kv.version]
    ensures "j" in SessionOf(ss[|es|], "e")
            && Fresh(a).clock + 5.0 <= SessionOf(ss[|es|], "e")["j"] < Fresh(a).clock + 6.0
    ensures forall c | c != p && c != "e" :: SessionOf(ss[|es|], c) == map[]
  {
    ss, es := FarAhead(a, b);
    first := |es|;
    var s, put := ss[|es|], ClientPut(p, a, "k", "x", {b}, true);
    FirstWriteArrives(s, put, b);
    var deliver := DeliverWrite(WriteMessage(b, Reply(s, put)), false);
    ss, es := Continue(ss, es, put, "k");
    ss, es := Continue(ss, es, deliver, "k");
    assert ss[|es|] == Step(Step(s, put), deliver);
  }

  lemma FarPut(clock: real, pivot: real)
    requires clock + 4.0 <= pivot < clock + 5.0
    ensures ConditionalIncrement(clock, pivot) == clock - 2.0
  {
    CeilBounds(clock + 1.0 - pivot);
    assert Ceil(clock + 1.0 - pivot) == -3;
  }

  /** e's put on the key j at a sets a's clock back by two. */
  lemma SetBack(s: System, a: string)
    requires a in s.servers && "j" in SessionOf(s, "e") && SessionOf(s, "e")["j"] > 0.0
    requires s.servers[a].clock + 4.0 <= SessionOf(s, "e")["j"] < s.servers[a].clock + 5.0
    ensures var s' := Step(s, ClientPut("e", a, "j", "v", {}, true));
      && s'.servers[a].clock == s.servers[a].clock - 2.0
      && s'.servers == s.servers[a := s'.servers[a]]
      && ("k" in s.servers[a].store ==>
            "k" in s'.servers[a].store && s'.servers[a].store["k"] == s.servers[a].store["k"])
      && forall c | c != "e" :: SessionOf(s', c) == SessionOf(s, c)
  {
    FarPut(s.servers[a].clock, SessionOf(s, "e")["j"]);
  }

  /** Then a put of k at a repeats the version that a issued for k before, and is in reach. */
  lemma RepeatsVersion(s: System, a: string, q: string)
    requires a in s.servers && "k" in s.servers[a].store && q != "e" && s.servers[a].clock + 1.0 > 0.0
    requires s.servers[a].store["k"].version == s.servers[a].clock + 1.0
    requires SessionOf(s, q) == map[] || SessionOf(s, q) == map["k" := s.servers[a].clock + 1.0]
    ensures var put, kv := ClientPut(q, a, "k", "y", {}, true), KeyValue("k", "y", s.servers[a].clock + 1.0);
      && Reply(s, put) == kv
      && "k" in Step(s, put).servers[a].store && Step(s, put).servers[a].store["k"] == kv
      && Step(s, put).servers == s.servers[a := Step(s, put).servers[a]]
      && SessionOf(Step(s, put), q) == map["k" := kv.version]
      && ("k" in SessionOf(s, q) ==> InReach(s.servers[a], "k", SessionOf(s, q)["k"]))
      && forall c | c != q :: SessionOf(Step(s, put), c) == SessionOf(s, c)
  {
    ConditionalIncrementExact(s.servers[a].clock, s.servers[a].clock + 1.0);
  }

  /** p writes "x" and q writes "y" over it at a; both get one version, and b still holds "x". */
  lemma WriteOver(a: string, b: string, p: string, q: string)
    returns (ss: seq<System>, es: seq<Event>, first: nat, second: nat)
    requires a != b && p != "e" && q != "e" && Atoi(a).Some? && Atoi(b).Some?
    ensures Execution(ss, es) && AllInReach(ss, es, "k") && ss[|es|].servers.Keys == {a, b}
    ensures first < second < |es|
    ensures es[first] == ClientPut(p, a, "k", "x", {b}, true) && es[second] == ClientPut(q, a, "k", "y", {}, true)
    ensures forall n | 0 <= n < |es| :: es[n].ClientPut? && es[n].key == "k" ==> n == first || n == second
    ensures var s, version := ss[|es|], Fresh(a).clock;
      && "k" in s.servers[a].store && s.servers[a].store["k"] == KeyValue("k", "y", version)
      && "k" in s.servers[b].store && s.servers[b].store["k"] == KeyValue("k", "x", version)
      && SessionOf(s, q) == map["k" := version]
      && forall c | c != p && c != q && c != "e" :: SessionOf(s, c) == map[]
  {
    OffsetBounds(a);
    ss, es, first := WriteBoth(a, b, p);
    SetBack(ss[|es|], a);
    ss, es := Continue(ss, es, ClientPut("e", a, "j", "v", {}, true), "k");
    second := |es|;
    RepeatsVersion(ss[|es|], a, q);
    ss, es := Continue(ss, es, ClientPut(q, a, "k", "y", {}, true), "k");
  }

  lemma ReadsStored(s: System, at: string, client: string, kv: KeyValue)
    requires at in s.servers && kv.key in s.servers[at].store && s.servers[at].store[kv.key] == kv
    requires RequestVersion(SessionOf(s, client), kv.key) <= kv.version && kv.value != ERR_KEY && kv.value != ERR_DEP
    ensures var get := ClientGet(client, at, kv.key, true);
      && Enabled(s, get) && Reply(s, get) == kv && RequestVersion(SessionOf(Step(s, get), client), kv.key) == kv.version
      && Step(s, get).servers == s.servers[at := Step(s, get).servers[at]]
  {
  }

  /** A get of a stored record that is not below the client's version ends the run. */
  lemma AppendGet(ss: seq<System>, es: seq<Event>, at: string, client: string, kv: KeyValue)
    returns (ss': seq<System>, es': seq<Event>)
    requires Execution(ss, es) && at in ss[|es|].servers
    requires kv.key in ss[|es|].servers[at].store && ss[|es|].servers[at].store[kv.key] == kv
    requires RequestVersion(SessionOf(ss[|es|], client), kv.key) <= kv.version
    requires kv.value != ERR_KEY && kv.value != ERR_DEP
    ensures Execution(ss', es') && es' == es + [ClientGet(client, at, kv.key, true)] && ss <= ss'
    ensures Enabled(ss'[|es|], es'[|es|]) && Reply(ss'[|es|], es'[|es|]) == kv
    ensures ss'[|es'|].servers.Keys == ss[|es|].servers.Keys
    ensures forall id | id in ss[|es|].servers && id != at :: ss'[|es'|].servers[id] == ss[|es|].servers[id]
    ensures RequestVersion(SessionOf(ss'[|es'|], client), kv.key) == kv.version
  {
    var get := ClientGet(client, at, kv.key, true);
    ReadsStored(ss[|es|], at, client, kv);
    ss', es' := Append(ss, es, get, Step(ss[|es|], get));
  }

  /** That every put ticks is needed, other clients' puts on other keys included: a client writes "x" and
      then "y", is in reach at each put, and then reads "x". */
  lemma OthersLagBreaksReadYourWrites(a: string, b: string)
    returns (ss: seq<System>, es: seq<Event>, first: nat, second: nat, read: nat)
    requires a != b && Atoi(a).Some? && Atoi(b).Some?
    ensures Execution(ss, es) && PutsInReach(ss, es, 0, |es|, "c", "k") && ss[|es|].servers.Keys == {a, b}
    ensures first < second < read < |es|
    ensures es[first] == ClientPut("c", a, "k", "x", {b}, true) && es[second] == ClientPut("c", a, "k", "y", {}, true)
    ensures es[read] == ClientGet("c", b, "k", true) && Enabled(ss[read], es[read])
    ensures Reply(ss[read], es[read]).value == "x"
  {
    ss, es, first, second := WriteOver(a, b, "c", "c");
    read := |es|;
    ReadsStored(ss[|es|], b, "c", KeyValue("k", "x", Fresh(a).clock));
    ss, es := Continue(ss, es, ClientGet("c", b, "k", true), "k");
    assert PutsInReach(ss, es, 0, |es|, "c", "k");
  }

  lemma ReadYThenX(ss: seq<System>, es: seq<Event>, a: string, b: string, version: real)
    returns (ss': seq<System>, es': seq<Event>)
    requires Execution(ss, es) && a in ss[|es|].servers && b in ss[|es|].servers && a != b
    requires var s := ss[|es|];
      && "k" in s.servers[a].store && s.servers[a].store["k"] == KeyValue("k", "y", version)
      && "k" in s.servers[b].store && s.servers[b].store["k"] == KeyValue("k", "x", version)
      && SessionOf(s, "c") == map[] && version > 0.0
    ensures Execution(ss', es') && ss'[|es'|].servers.Keys == ss[|es|].servers.Keys
    ensures es' == es + [ClientGet("c", a, "k", true), ClientGet("c", b, "k", true)]
    ensures Enabled(ss'[|es|], es'[|es|]) && Reply(ss'[|es|], es'[|es|]).value == "y"
    ensures Enabled(ss'[|es| + 1], es'[|es| + 1]) && Reply(ss'[|es| + 1], es'[|es| + 1]).value == "x"
  {
    ss', es' := AppendGet(ss, es, a, "c", KeyValue("k", "y", version));
    ss', es' := AppendGet(ss', es', b, "c", KeyValue("k", "x", version));
  }

  /** The same for Monotonic Reads: a client that writes nothing reads "y" and then "x", which "y" had
      overwritten. */
  lemma OthersLagBreaksMonotonicReads(a: string, b: string)
    returns (ss: seq<System>, es: seq<Event>, first: nat, second: nat, read: nat)
    requires a != b && Atoi(a).Some? && Atoi(b).Some?
    ensures Execution(ss, es) && ss[|es|].servers.Keys == {a, b} && first < second < read && read + 1 < |es|
    ensures forall n | 0 <= n < |es| :: !PutsKey(es[n], "c", "k")
    ensures es[first] == ClientPut("d", a, "k", "x", {b}, true) && es[second] == ClientPut("f", a, "k", "y", {}, true)
    ensures es[read] == ClientGet("c", a, "k", true) && es[read + 1] == ClientGet("c", b, "k", true)
    ensures Enabled(ss[read], es[read]) && Reply(ss[read], es[read]).value == "y"
    ensures Enabled(ss[read + 1], es[read + 1]) && Reply(ss[read + 1], es[read + 1]).value == "x"
  {
    OffsetBounds(a);
    ss, es, first, second := WriteOver(a, b, "d", "f");
    read := |es|;
    ss, es := ReadYThenX(ss, es, a, b, Fresh(a).clock);
  }
}
