/**
 Read Your Writes and Monotonic Reads over whole runs.
 */
module Sessions {
  import opened Lamport
  import opened Store
  import opened R = Replica
  import opened System
  import opened VersionAgreement

  /** The event answers the client's put on the key, or its get with a stored value. */
  predicate Answers(s: System, e: Event, client: string, key: string)
    requires Enabled(s, e)
  {
    && (e.ClientPut? || e.ClientGet?)
    && e.client == client && e.key == key && e.answered
    && (e.ClientGet? ==> Successful(Reply(s, e)))
  }

  ghost predicate StoresWellKeyed(s: System) {
    forall id | id in s.servers :: WellKeyed(s.servers[id].store)
  }

  /******* One step *******/

  predicate PutsKey(e: Event, client: string, key: string) {
    e.ClientPut? && e.client == client && e.key == key && e.answered
  }

  /** before's recorded version for the key, if any, is still there or has risen. */
  predicate NoLower(before: Session, after: Session, key: string) {
    key in before ==> key in after && before[key] <= after[key]
  }

  lemma GetReplyAtLeast(r: Replica, key: string, version: real)
    requires WellKeyed(r.store) && Successful(GetReply(r, key, version))
    ensures GetReply(r, key, version).key == key && GetReply(r, key, version).version >= version
  {
  }

  /** A step without a put by the client on the key never lowers what the client recorded for it. */
  lemma StepWithoutPut(s: System, e: Event, client: string, key: string)
    requires Enabled(s, e) && StoresWellKeyed(s)
    requires !PutsKey(e, client, key)
    ensures NoLower(SessionOf(s, client), SessionOf(Step(s, e), client), key)
  {
    if e.ClientGet? && e.answered && Successful(Reply(s, e)) {
      GetReplyAtLeast(s.servers[e.server], e.key, RequestVersion(SessionOf(s, e.client), e.key));
    }
  }

  /** An answered put by a client with a recorded version keeps the session's order exactly when the
      client is in reach of the server: its version is at most one tick ahead of the clock. */
  lemma PutKeepsSessionIff(s: System, e: Event)
    requires Enabled(s, e) && e.ClientPut? && e.answered && e.key in SessionOf(s, e.client)
    ensures SessionOf(s, e.client)[e.key] <= SessionOf(Step(s, e), e.client)[e.key]
            <==> InReach(s.servers[e.server], e.key, SessionOf(s, e.client)[e.key])
    ensures e.key in SessionOf(Step(s, e), e.client)
  {
    PutInReachIff(s.servers[e.server], e.key, SessionOf(s, e.client)[e.key]);
  }

  /** An answer is recorded, and a get's is not below what was recorded before. */
  lemma AnswerIsRecorded(s: System, e: Event, client: string, key: string)
    requires Enabled(s, e) && StoresWellKeyed(s) && Answers(s, e, client, key)
    ensures key in SessionOf(Step(s, e), client) && SessionOf(Step(s, e), client)[key] == Reply(s, e).version
    ensures e.ClientGet? && key in SessionOf(s, client) ==> Reply(s, e).version >= SessionOf(s, client)[key]
  {
    if e.ClientGet? {
      GetReplyAtLeast(s.servers[e.server], key, RequestVersion(SessionOf(s, client), key));
    }
  }

  lemma OnlyAnswersRecord(s: System, e: Event, client: string, key: string)
    requires Enabled(s, e) && StoresWellKeyed(s) && !Answers(s, e, client, key)
    ensures key in SessionOf(Step(s, e), client) <==> key in SessionOf(s, client)
    ensures key in SessionOf(s, client) ==> SessionOf(Step(s, e), client)[key] == SessionOf(s, client)[key]
  {
    if e.ClientGet? && e.answered && Successful(Reply(s, e)) {
      GetReplyAtLeast(s.servers[e.server], e.key, RequestVersion(SessionOf(s, e.client), e.key));
    }
  }

  /******* The exact condition over runs *******/

  /** If event n is an answered put by the client on the key, and the client has a version for it, the
      client is in reach of the server. Puts of other clients and on other keys do not matter. */
  ghost predicate InReachAt(ss: seq<System>, es: seq<Event>, n: nat, client: string, key: string)
    requires n < |es| && n < |ss|
  {
    PutsKey(es[n], client, key) && key in SessionOf(ss[n], client) ==>
      es[n].server in ss[n].servers && InReach(ss[n].servers[es[n].server], key, SessionOf(ss[n], client)[key])
  }

  ghost predicate PutsInReach(ss: seq<System>, es: seq<Event>, i: nat, j: nat, client: string, key: string)
    requires IsRun(ss, es) && j <= |es|
  {
    forall n: nat | i <= n < j :: InReachAt(ss, es, n, client, key)
  }

  lemma RecordedAt(ss: seq<System>, es: seq<Event>, n: nat, client: string, key: string)
    requires IsRun(ss, es) && n < |es| && Origin(ss[n])
    ensures NoLower(SessionOf(ss[n], client), SessionOf(ss[n + 1], client), key) <==> InReachAt(ss, es, n, client, key)
  {
    At(ss, es, n);
    if PutsKey(es[n], client, key) {
      if key in SessionOf(ss[n], client) { PutKeepsSessionIff(ss[n], es[n]); }
    } else {
      StepWithoutPut(ss[n], es[n], client, key);
    }
  }

  /** The version recorded for the key never falls between states i and j. */
  ghost predicate NeverFalls(ss: seq<System>, i: nat, j: nat, client: string, key: string)
    requires j < |ss|
  {
    forall m: nat, n: nat | i <= m <= n <= j :: NoLower(SessionOf(ss[m], client), SessionOf(ss[n], client), key)
  }

  lemma {:induction false} RecordedNeverFalls(ss: seq<System>, es: seq<Event>, i: nat, j: nat,
                                              client: string, key: string)
    requires Execution(ss, es) && i <= j <= |es| && PutsInReach(ss, es, i, j, client, key)
    ensures NoLower(SessionOf(ss[i], client), SessionOf(ss[j], client), key)
    decreases j
  {
    if i < j {
      RecordedNeverFalls(ss, es, i, j - 1, client, key);
      OriginInvariant(ss, es, j - 1);
      assert InReachAt(ss, es, j - 1, client, key);
      RecordedAt(ss, es, j - 1, client, key);
    }
  }

  /** In any run, over any span, a client's recorded version for a key never falls exactly when the
      client is in reach of the server at each of its own answered puts on that key, whatever lag other
      clients' puts cause. */
  lemma RecordedNeverFallsIff(ss: seq<System>, es: seq<Event>, i: nat, j: nat, client: string, key: string)
    requires Execution(ss, es) && i <= j <= |es|
    ensures NeverFalls(ss, i, j, client, key) <==> PutsInReach(ss, es, i, j, client, key)
  {
    if PutsInReach(ss, es, i, j, client, key) {
      forall m: nat, n: nat | i <= m <= n <= j
        ensures NoLower(SessionOf(ss[m], client), SessionOf(ss[n], client), key)
      {
        RecordedNeverFalls(ss, es, m, n, client, key);
      }
    }
    if NeverFalls(ss, i, j, client, key) {
      forall n: nat | i <= n < j ensures InReachAt(ss, es, n, client, key) {
        assert NoLower(SessionOf(ss[n], client), SessionOf(ss[n + 1], client), key);
        OriginInvariant(ss, es, n);
        RecordedAt(ss, es, n, client, key);
      }
    }
  }

  ghost predicate AnswersAt(ss: seq<System>, es: seq<Event>, n: nat, client: string, key: string) {
    StepAt(ss, es, n) && Answers(ss[n], es[n], client, key)
  }

  /** Of two answers to the client about the key in events i to j - 1, the later never has the lower
      version. */
  ghost predicate AnswersInOrder(ss: seq<System>, es: seq<Event>, i: nat, j: nat, client: string, key: string) {
    forall m: nat, n: nat | i <= m && n < j && AnswerPair(ss, es, m, n, client, key) :: NotBelow(ss, es, m, n)
  }

  ghost predicate AnswerPair(ss: seq<System>, es: seq<Event>, m: nat, n: nat, client: string, key: string) {
    m < n && AnswersAt(ss, es, m, client, key) && AnswersAt(ss, es, n, client, key)
  }

  ghost predicate ReplyAt(ss: seq<System>, es: seq<Event>, n: nat) {
    StepAt(ss, es, n) && (es[n].ClientPut? || es[n].ClientGet?)
  }

  ghost predicate NotBelow(ss: seq<System>, es: seq<Event>, m: nat, n: nat)
    requires ReplyAt(ss, es, m) && ReplyAt(ss, es, n)
  {
    Reply(ss[m], es[m]).version <= Reply(ss[n], es[n]).version
  }

  lemma LaterAnswer(ss: seq<System>, es: seq<Event>, m: nat, n: nat, client: string, key: string)
    requires Execution(ss, es) && m < n < |es| && PutsInReach(ss, es, m + 1, n + 1, client, key)
    requires AnswersAt(ss, es, m, client, key) && AnswersAt(ss, es, n, client, key)
    ensures Reply(ss[m], es[m]).version <= Reply(ss[n], es[n]).version
    ensures key in SessionOf(ss[n], client) && Reply(ss[m], es[m]).version <= SessionOf(ss[n], client)[key]
  {
    OriginInvariant(ss, es, m);
    OriginInvariant(ss, es, n);
    AnswerIsRecorded(ss[m], es[m], client, key);
    RecordedNeverFalls(ss, es, m + 1, n, client, key);
    AnswerIsRecorded(ss[n], es[n], client, key);
    if es[n].ClientPut? {
      assert InReachAt(ss, es, n, client, key);
      PutKeepsSessionIff(ss[n], es[n]);
    }
  }

  /** An answer is what the client then has recorded; nothing else changes that. */
  lemma SessionAt(ss: seq<System>, es: seq<Event>, n: nat, client: string, key: string)
    requires Execution(ss, es) && n < |es|
    ensures var before, after := SessionOf(ss[n], client), SessionOf(ss[n + 1], client);
      if AnswersAt(ss, es, n, client, key) then key in after && after[key] == Reply(ss[n], es[n]).version
      else (key in after <==> key in before) && (key in before ==> after[key] == before[key])
  {
    OriginInvariant(ss, es, n);
    At(ss, es, n);
    if AnswersAt(ss, es, n, client, key) {
      AnswerIsRecorded(ss[n], es[n], client, key);
    } else {
      OnlyAnswersRecord(ss[n], es[n], client, key);
    }
  }

  /** What a client has recorded since an answer is the version of its last answer. */
  lemma {:induction false} LastAnswer(ss: seq<System>, es: seq<Event>, i: nat, n: nat, client: string, key: string)
    returns (m: nat)
    requires Execution(ss, es) && i < n <= |es| && AnswersAt(ss, es, i, client, key)
    ensures i <= m < n && AnswersAt(ss, es, m, client, key)
    ensures key in SessionOf(ss[n], client) && SessionOf(ss[n], client)[key] == Reply(ss[m], es[m]).version
    decreases n
  {
    SessionAt(ss, es, n - 1, client, key);
    if AnswersAt(ss, es, n - 1, client, key) {
      m := n - 1;
    } else {
      m := LastAnswer(ss, es, i, n - 1, client, key);
    }
  }

  /** The version order, exactly: in any run, from any answer to a client about a key on, the versions it
      is answered with for that key never fall exactly when at each of its later answered puts on the key
      it is in reach of the server. */
  lemma SessionOrderIff(ss: seq<System>, es: seq<Event>, i: nat, j: nat, client: string, key: string)
    requires Execution(ss, es) && i < j <= |es| && AnswersAt(ss, es, i, client, key)
    ensures AnswersInOrder(ss, es, i, j, client, key) <==> PutsInReach(ss, es, i + 1, j, client, key)
  {
    if PutsInReach(ss, es, i + 1, j, client, key) {
      forall m: nat, n: nat | i <= m && n < j && AnswerPair(ss, es, m, n, client, key)
        ensures NotBelow(ss, es, m, n)
      {
        LaterAnswer(ss, es, m, n, client, key);
      }
    }
    if AnswersInOrder(ss, es, i, j, client, key) {
      forall n: nat | i + 1 <= n < j ensures InReachAt(ss, es, n, client, key) {
        At(ss, es, n);
        if PutsKey(es[n], client, key) {
          var m := LastAnswer(ss, es, i, n, client, key);
          assert AnswerPair(ss, es, m, n, client, key);
          PutInReachIff(ss[n].servers[es[n].server], key, SessionOf(ss[n], client)[key]);
        }
      }
    }
  }

  /******* Records, not only versions *******/

  /** Of two answers to the client about the key in events i to j - 1, the later is a newer record, or a
      get of the same one. */
  ghost predicate RecordsInOrder(ss: seq<System>, es: seq<Event>, i: nat, j: nat, client: string, key: string) {
    forall m: nat, n: nat | i <= m && n < j && AnswerPair(ss, es, m, n, client, key) :: NewerOrSame(ss, es, m, n)
  }

  ghost predicate NewerOrSame(ss: seq<System>, es: seq<Event>, m: nat, n: nat)
    requires ReplyAt(ss, es, m) && ReplyAt(ss, es, n)
  {
    var x, y := Reply(ss[m], es[m]), Reply(ss[n], es[n]);
    x.version < y.version || (es[n].ClientGet? && y == x)
  }

  lemma IssuedAt(ss: seq<System>, es: seq<Event>, n: nat)
    requires IsRun(ss, es) && n < |es|
    ensures ss[n].issued <= ss[n + 1].issued
    ensures es[n].ClientPut? ==>
              && StepAt(ss, es, n)
              && ss[n + 1].issued == ss[n].issued + [Issue(es[n].server, Reply(ss[n], es[n]))]
  {
    At(ss, es, n);
  }

  lemma {:induction false} IssuedGrows(ss: seq<System>, es: seq<Event>, m: nat, n: nat)
    requires IsRun(ss, es) && m <= n <= |es|
    ensures ss[m].issued <= ss[n].issued
    decreases n
  {
    if m < n {
      IssuedGrows(ss, es, m, n - 1);
      IssuedAt(ss, es, n - 1);
    }
  }

  /** An answer is some put's record: one that a get found in the store, or the put's own. */
  lemma AnswerIsIssued(ss: seq<System>, es: seq<Event>, n: nat, client: string, key: string) returns (k: nat)
    requires Execution(ss, es) && n < |es| && AnswersAt(ss, es, n, client, key)
    ensures k < |ss[n + 1].issued| && ss[n + 1].issued[k].kv == Reply(ss[n], es[n])
    ensures if es[n].ClientPut? then k == |ss[n].issued| else k < |ss[n].issued|
    ensures ss[n].issued <= ss[n + 1].issued && Reply(ss[n], es[n]).key == key
  {
    IssuedAt(ss, es, n);
    if es[n].ClientPut? {
      k := |ss[n].issued|;
    } else {
      OriginInvariant(ss, es, n);
      assert ReplicaFrom(Records(ss[n].issued), ss[n].servers[es[n].server]);
      k :| 0 <= k < |ss[n].issued| && ss[n].issued[k].kv == Reply(ss[n], es[n]);
    }
  }

  lemma NotBelowIsNewerOrSame(ss: seq<System>, es: seq<Event>, m: nat, n: nat, client: string, key: string)
    requires Execution(ss, es) && n < |es| && AnswerPair(ss, es, m, n, client, key)
    requires TicksBefore(ss, es, n + 1) && DistinctFractions(ss[n + 1].servers.Keys)
    ensures NotBelow(ss, es, m, n) <==> NewerOrSame(ss, es, m, n)
  {
    var a := AnswerIsIssued(ss, es, m, client, key);
    var b := AnswerIsIssued(ss, es, n, client, key);
    IssuedGrows(ss, es, m + 1, n);
    UniqueInvariant(ss, es, n + 1);
    assert ss[n + 1].issued[a].kv == Reply(ss[m], es[m]);
  }

  /** Read Your Writes and Monotonic Reads, exactly: while every put ticks and fractions are distinct, from
      any answer on each later answer is a newer record or a get of the same one, exactly when the client
      is in reach of the server at each of its own puts. */
  lemma SessionRecordsIff(ss: seq<System>, es: seq<Event>, i: nat, j: nat, client: string, key: string)
    requires Execution(ss, es) && i < j <= |es| && AnswersAt(ss, es, i, client, key)
    requires TicksBefore(ss, es, j) && DistinctFractions(ss[j].servers.Keys)
    ensures RecordsInOrder(ss, es, i, j, client, key) <==> PutsInReach(ss, es, i + 1, j, client, key)
  {
    SessionOrderIff(ss, es, i, j, client, key);
    forall m: nat, n: nat | i <= m && n < j && AnswerPair(ss, es, m, n, client, key)
      ensures NotBelow(ss, es, m, n) <==> NewerOrSame(ss, es, m, n)
    {
      ServersGrow(ss, es, n + 1, j);
      FewerAreDistinct(ss[n + 1].servers.Keys, ss[j].servers.Keys);
      NotBelowIsNewerOrSame(ss, es, m, n, client, key);
    }
  }

  /******* Sufficient conditions *******/

  /** In any run, across a span without a put by the client on the key, its recorded version never
      falls, and a successful get at the end of it is not below. */
  lemma ReadsNotBelowRecorded(ss: seq<System>, es: seq<Event>, i: nat, j: nat, client: string, key: string)
    requires Execution(ss, es) && i <= j < |es|
    requires forall n | i <= n < j :: !PutsKey(es[n], client, key)
    requires key in SessionOf(ss[i], client)
    requires AnswersAt(ss, es, j, client, key) && es[j].ClientGet?
    ensures key in SessionOf(ss[j], client)
    ensures SessionOf(ss[i], client)[key] <= SessionOf(ss[j], client)[key] <= Reply(ss[j], es[j]).version
  {
    RecordedNeverFalls(ss, es, i, j, client, key);
    OriginInvariant(ss, es, j);
    AnswerIsRecorded(ss[j], es[j], client, key);
  }

  /** A get after any answer, with no put by the client on the key in between, never has a lower version,
      in any run. While every put ticks and fractions are distinct it is a newer record or the same. */
  lemma MonotonicReads(ss: seq<System>, es: seq<Event>, i: nat, j: nat, client: string, key: string)
    requires Execution(ss, es) && i < j < |es|
    requires forall n | i < n < j :: !PutsKey(es[n], client, key)
    requires AnswersAt(ss, es, i, client, key) && AnswersAt(ss, es, j, client, key) && es[j].ClientGet?
    ensures Reply(ss[i], es[i]).version <= Reply(ss[j], es[j]).version
    ensures TicksBefore(ss, es, j + 1) && DistinctFractions(ss[j + 1].servers.Keys) ==> NewerOrSame(ss, es, i, j)
  {
    LaterAnswer(ss, es, i, j, client, key);
    if TicksBefore(ss, es, j + 1) && DistinctFractions(ss[j + 1].servers.Keys) {
      assert AnswerPair(ss, es, i, j, client, key);
      NotBelowIsNewerOrSame(ss, es, i, j, client, key);
    }
  }

  lemma NoLagInReach(r: Replica, key: string, version: real)
    requires NoLag(r, key, version) && r.clock > 0.0
    ensures InReach(r, key, version) && NewVersion(r, key, version) > version
  {
    PutWithoutLag(r, key, version);
    PutInReachIff(r, key, version);
  }

  lemma NoLagRunInReach(ss: seq<System>, es: seq<Event>, n: nat, client: string, key: string)
    requires Execution(ss, es) && NoLagRun(ss, es) && n < |es|
    ensures InReachAt(ss, es, n, client, key)
    ensures PutsKey(es[n], client, key) && key in SessionOf(ss[n], client) ==>
              StepAt(ss, es, n) && SessionOf(ss[n], client)[key] < Reply(ss[n], es[n]).version
  {
    NoLagRunTicks(ss, es);
    BoundsInvariant(ss, es, n);
    At(ss, es, n);
    if PutsKey(es[n], client, key) && key in SessionOf(ss[n], client) {
      NoLagInReach(ss[n].servers[es[n].server], key, SessionOf(ss[n], client)[key]);
    }
  }

  /** In a run without lag, of two answers to one client about one key the later has a version at least
      as high, and a higher one if it answers a put. With distinct fractions it is a newer record, or a get
      of the same one. */
  lemma SessionGuarantee(ss: seq<System>, es: seq<Event>, i: nat, j: nat, client: string, key: string)
    requires Execution(ss, es) && NoLagRun(ss, es) && i < j < |es|
    requires AnswersAt(ss, es, i, client, key) && AnswersAt(ss, es, j, client, key)
    ensures Reply(ss[i], es[i]).version <= Reply(ss[j], es[j]).version
    ensures es[j].ClientPut? ==> Reply(ss[i], es[i]).version < Reply(ss[j], es[j]).version
    ensures DistinctFractions(ss[j + 1].servers.Keys) ==> NewerOrSame(ss, es, i, j)
  {
    forall n: nat | i + 1 <= n < j + 1 ensures InReachAt(ss, es, n, client, key) {
      NoLagRunInReach(ss, es, n, client, key);
    }
    LaterAnswer(ss, es, i, j, client, key);
    NoLagRunInReach(ss, es, j, client, key);
    NoLagRunTicks(ss, es);
    assert AnswerPair(ss, es, i, j, client, key);
    if DistinctFractions(ss[j + 1].servers.Keys) { NotBelowIsNewerOrSame(ss, es, i, j, client, key); }
  }

  /******* When lag cannot arise *******/

  lemma ClockAt(ss: seq<System>, es: seq<Event>, i: nat, id: string)
    requires TicksAt(ss, es, i) && id in ss[i].servers
    ensures id in ss[i + 1].servers && ss[i].servers[id].clock <= ss[i + 1].servers[id].clock
  {
    StepAdvances(ss[i], es[i]);
  }

  lemma {:induction false} ClockNeverFalls(ss: seq<System>, es: seq<Event>, i: nat, j: nat, id: string)
    requires IsRun(ss, es) && i <= j <= |es| && id in ss[i].servers
    requires TicksBefore(ss, es, j)
    ensures id in ss[j].servers && ss[i].servers[id].clock <= ss[j].servers[id].clock
    decreases j
  {
    if i < j {
      ClockNeverFalls(ss, es, i, j - 1, id);
      assert TicksAt(ss, es, j - 1);
      ClockAt(ss, es, j - 1, id);
    }
  }

  lemma HeartbeatRaisesClock(s: System, e: Event, n: nat)
    requires Enabled(s, e) && e.HeartbeatReceive? && n < |e.clocks| && s.servers[e.server].id == e.server
    ensures Step(s, e).servers[e.server].clock > e.clocks[n] - Shortfall(e.server)
  {
    ReceiveRule(s.servers[e.server].clock, e.server, e.clocks);
  }

  function PutPivot(s: System, e: Event): Option<real>
    requires Enabled(s, e) && e.ClientPut?
  {
    Pivot(s.servers[e.server], e.key, RequestVersion(SessionOf(s, e.client), e.key))
  }

  lemma ClockAfterHeartbeat(ss: seq<System>, es: seq<Event>, i: nat, n: nat)
    requires Execution(ss, es) && i < |es| && es[i].HeartbeatReceive? && n < |es[i].clocks|
    ensures es[i].server in ss[i + 1].servers
            && ss[i + 1].servers[es[i].server].clock > es[i].clocks[n] - Shortfall(es[i].server)
  {
    At(ss, es, i);
    FractionsInvariant(ss, es, i);
    HeartbeatRaisesClock(ss[i], es[i], n);
  }

  /** What gossip buys: once a server has received a heartbeat that lists a clock at or above a put's
      pivot, that put does not lag there, as long as every earlier put has ticked. */
  lemma HeartbeatPreventsLag(ss: seq<System>, es: seq<Event>, i: nat, j: nat, n: nat)
    requires Execution(ss, es) && i < j < |es| && TicksBefore(ss, es, j)
    requires es[i].HeartbeatReceive? && n < |es[i].clocks|
    requires StepAt(ss, es, j) && es[j].ClientPut? && es[j].server == es[i].server
    requires PutPivot(ss[j], es[j]).Some? ==> PutPivot(ss[j], es[j]).value <= es[i].clocks[n]
    ensures NoLagStep(ss[j], es[j])
  {
    ClockAfterHeartbeat(ss, es, i, n);
    ClockNeverFalls(ss, es, i + 1, j, es[i].server);
  }

  /** Where such a clock comes from: the heartbeat that a server sends, event m, after it has issued a
      version carries a clock at or above that version. Once another server has received it, event k, no
      put with that version as pivot lags there. */
  lemma GossipPreventsLag(ss: seq<System>, es: seq<Event>, m: nat, k: nat, j: nat, n: nat, issue: Issue)
    requires Execution(ss, es) && m < k < j < |es| && TicksBefore(ss, es, j)
    requires issue in ss[m].issued && es[m] == HeartbeatSend(issue.server)
    requires issue.server in ss[m + 1].servers && es[k].HeartbeatReceive? && n < |es[k].clocks|
    requires es[k].clocks[n] == ss[m + 1].servers[issue.server].clock
    requires StepAt(ss, es, j) && es[j].ClientPut? && es[j].server == es[k].server
    requires PutPivot(ss[j], es[j]) == Some(issue.kv.version)
    ensures NoLagStep(ss[j], es[j])
  {
    BoundsInvariant(ss, es, m);
    var i :| 0 <= i < |ss[m].issued| && ss[m].issued[i] == issue;
    assert IssueBounded(ss[m].servers, ss[m].issued[i]);
    assert TicksAt(ss, es, m);
    ClockAt(ss, es, m, issue.server);
    HeartbeatPreventsLag(ss, es, k, j, n);
  }
}
