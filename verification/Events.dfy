/**
 What each event of a run does to stores, logs, clocks, sessions and messages, told from the states before
 and after it.
 */
module Events {
  import opened Lamport
  import opened Store
  import opened R = Replica
  import opened System
  import opened VersionAgreement

  /** The version the client has on record for the key, or -1. */
  function LastSeen(s: System, client: string, key: string): real {
    if client in s.sessions && key in s.sessions[client] then s.sessions[client][key] else -1.0
  }

  /** No server but id changes. */
  ghost predicate OthersKept(s: System, s': System, id: string) {
    && id in s.servers && id in s'.servers && s'.servers[id].id == s.servers[id].id
    && s'.servers.Keys == s.servers.Keys
    && forall j | j in s.servers && j != id :: s'.servers[j] == s.servers[j]
  }

  ghost predicate SessionsKept(s: System, s': System) {
    forall client, key :: LastSeen(s', client, key) == LastSeen(s, client, key)
  }

  /** The client's version for the key becomes v, and no other client or key is affected. */
  ghost predicate OnlyRecorded(s: System, s': System, client: string, key: string, v: real) {
    && LastSeen(s', client, key) == v
    && forall c, k | c != client || k != key :: LastSeen(s', c, k) == LastSeen(s, c, k)
  }

  /******* Puts *******/

  ghost predicate PutsAt(ss: seq<System>, es: seq<Event>, i: nat) {
    IsRun(ss, es) && i < |es| && es[i].ClientPut?
  }

  /** The version a put is stamped with: the clock from before for the first write of a key by a client
      with nothing on record, the clock from after in every other case. */
  ghost predicate StampedAt(ss: seq<System>, es: seq<Event>, i: nat, v: real)
    requires PutsAt(ss, es, i)
  {
    && OthersKept(ss[i], ss[i + 1], es[i].server)
    && v == if es[i].key !in ss[i].servers[es[i].server].store && LastSeen(ss[i], es[i].client, es[i].key) == -1.0
            then ss[i].servers[es[i].server].clock
            else ss[i + 1].servers[es[i].server].clock
  }

  /** A put stores, logs, issues, answers with and sends one record. */
  lemma PutWrites(ss: seq<System>, es: seq<Event>, i: nat) returns (kv: KeyValue)
    requires PutsAt(ss, es, i)
    ensures kv.key == es[i].key && kv.value == es[i].value && StampedAt(ss, es, i, kv.version)
    ensures var r, r' := ss[i].servers[es[i].server], ss[i + 1].servers[es[i].server];
      r'.store == r.store[kv.key := kv] && r'.log == r.log + [kv]
    ensures Enabled(ss[i], es[i]) && Reply(ss[i], es[i]) == kv
    ensures ss[i + 1].issued == ss[i].issued + [Issue(es[i].server, kv)]
    ensures ss[i + 1].writes == ss[i].writes + set m | m in es[i].reached :: WriteMessage(m, kv)
    ensures ss[i + 1].pushes == ss[i].pushes
    ensures if es[i].answered then OnlyRecorded(ss[i], ss[i + 1], es[i].client, es[i].key, kv.version)
            else SessionsKept(ss[i], ss[i + 1])
  {
    At(ss, es, i);
    kv := Reply(ss[i], es[i]);
  }

  /** A put starts from the client's version, or from the stored one for a client with none on record. Its
      clock advances by one if that is below the next tick, and loses a tick for each whole tick by which it
      is above. */
  lemma PutMovesClock(ss: seq<System>, es: seq<Event>, i: nat)
    requires PutsAt(ss, es, i)
    ensures OthersKept(ss[i], ss[i + 1], es[i].server)
    ensures var r, r' := ss[i].servers[es[i].server], ss[i + 1].servers[es[i].server];
      var seen := LastSeen(ss[i], es[i].client, es[i].key);
      if seen == -1.0 && es[i].key !in r.store then r'.clock == r.clock + 1.0
      else
        var from := if seen != -1.0 then seen else r.store[es[i].key].version;
        if from < r.clock + 1.0 then r'.clock == r.clock + 1.0
        else
          var lost := r.clock + 1.0 - r'.clock;
          0.0 <= lost <= from - (r.clock + 1.0) < lost + 1.0 && lost.Floor as real == lost
  {
    At(ss, es, i);
    var r, seen := ss[i].servers[es[i].server], LastSeen(ss[i], es[i].client, es[i].key);
    if seen != -1.0 || es[i].key in r.store {
      var from := if seen != -1.0 then seen else r.store[es[i].key].version;
      if from >= r.clock + 1.0 { ConditionalIncrementWhenLagging(r.clock, from); }
    }
  }

  ghost predicate IssuedAt(ss: seq<System>, es: seq<Event>, i: nat, issue: Issue) {
    && PutsAt(ss, es, i) && issue.server == es[i].server
    && issue.kv.key == es[i].key && issue.kv.value == es[i].value && StampedAt(ss, es, i, issue.kv.version)
  }

  /** Every version issued in a run was stamped like that by its put. */
  lemma {:induction false} EveryIssueStamped(ss: seq<System>, es: seq<Event>, n: nat, k: nat) returns (i: nat)
    requires Execution(ss, es) && n <= |es| && k < |ss[n].issued|
    ensures i < n && IssuedAt(ss, es, i, ss[n].issued[k])
  {
    At(ss, es, n - 1);
    if es[n - 1].ClientPut? {
      var kv := PutWrites(ss, es, n - 1);
      if k == |ss[n - 1].issued| { return n - 1; }
    }
    i := EveryIssueStamped(ss, es, n - 1, k);
  }

  /******* Gets *******/

  ghost predicate GetsAt(ss: seq<System>, es: seq<Event>, i: nat) {
    IsRun(ss, es) && i < |es| && es[i].ClientGet?
  }

  /** The answer to a get: an absent key is ERR_KEY with the clock from before; a record below the client's
      version is ERR_DEP with its own version; any other record is the answer itself. */
  lemma GetAnswers(ss: seq<System>, es: seq<Event>, i: nat)
    requires GetsAt(ss, es, i)
    ensures Enabled(ss[i], es[i])
    ensures var r, key := ss[i].servers[es[i].server], es[i].key;
      Reply(ss[i], es[i])
      == if key !in r.store then KeyValue(key, "ERR_KEY", r.clock)
         else if r.store[key].version < LastSeen(ss[i], es[i].client, key)
              then r.store[key].(value := "ERR_DEP")
         else r.store[key]
  {
    At(ss, es, i);
  }

  lemma StoredIsIssued(ss: seq<System>, es: seq<Event>, i: nat, id: string, key: string)
    requires Execution(ss, es) && i <= |es| && id in ss[i].servers && key in ss[i].servers[id].store
    ensures ss[i].servers[id].store[key].key == key
    ensures exists k :: 0 <= k < |ss[i].issued| && ss[i].issued[k].kv == ss[i].servers[id].store[key]
  {
    OriginInvariant(ss, es, i);
    assert ReplicaFrom(Records(ss[i].issued), ss[i].servers[id]);
  }

  /** Errors mean what they say: ERR_KEY that the server has no such key, ERR_DEP that its record is below
      the client's version, unless some client wrote that very text. */
  lemma ErrorsMeanWhatTheySay(ss: seq<System>, es: seq<Event>, i: nat)
    requires Execution(ss, es) && GetsAt(ss, es, i)
    ensures Enabled(ss[i], es[i]) && Reply(ss[i], es[i]).key == es[i].key
    ensures var store, key, reply := ss[i].servers[es[i].server].store, es[i].key, Reply(ss[i], es[i]);
      var written := exists k :: 0 <= k < |ss[i].issued| && ss[i].issued[k].kv == reply;
      && (reply.value == "ERR_KEY" ==> key !in store || written)
      && (reply.value == "ERR_DEP" ==>
            (key in store && store[key].version < LastSeen(ss[i], es[i].client, key)) || written)
      && (reply.value != "ERR_KEY" && reply.value != "ERR_DEP" ==> key in store && reply == store[key] && written)
  {
    GetAnswers(ss, es, i);
    if es[i].key in ss[i].servers[es[i].server].store {
      StoredIsIssued(ss, es, i, es[i].server, es[i].key);
    }
  }

  /** A get costs one tick and changes nothing else at the server; a client records the version of an
      answer that is not an error. */
  lemma GetTicks(ss: seq<System>, es: seq<Event>, i: nat)
    requires Execution(ss, es) && GetsAt(ss, es, i)
    ensures OthersKept(ss[i], ss[i + 1], es[i].server)
    ensures var r, r' := ss[i].servers[es[i].server], ss[i + 1].servers[es[i].server];
      r'.clock == r.clock + 1.0 && r'.store == r.store && r'.log == r.log
    ensures ss[i + 1].issued == ss[i].issued && ss[i + 1].writes == ss[i].writes && ss[i + 1].pushes == ss[i].pushes
    ensures Enabled(ss[i], es[i])
    ensures var reply := Reply(ss[i], es[i]);
      if es[i].answered && reply.value != "ERR_KEY" && reply.value != "ERR_DEP"
      then OnlyRecorded(ss[i], ss[i + 1], es[i].client, es[i].key, reply.version)
      else SessionsKept(ss[i], ss[i + 1])
  {
    At(ss, es, i);
    ErrorsMeanWhatTheySay(ss, es, i);
  }

  /******* Remote writes and pushes *******/

  /** A delivered write is stored and logged exactly when the server has no record of its key or one with a
      lower version; otherwise, on a tie too, the server stays as it is. */
  lemma WriteArrives(ss: seq<System>, es: seq<Event>, i: nat)
    requires IsRun(ss, es) && i < |es| && es[i].DeliverWrite?
    ensures OthersKept(ss[i], ss[i + 1], es[i].write.dest) && SessionsKept(ss[i], ss[i + 1])
    ensures var r, r', kv := ss[i].servers[es[i].write.dest], ss[i + 1].servers[es[i].write.dest], es[i].write.kv;
      if kv.key in r.store && r.store[kv.key].version >= kv.version then r' == r
      else r'.store == r.store[kv.key := kv] && r'.log == r.log + [kv] && r'.clock == r.clock
    ensures ss[i + 1].issued == ss[i].issued && ss[i + 1].pushes == ss[i].pushes
    ensures ss[i + 1].writes == if es[i].again then ss[i].writes else ss[i].writes - {es[i].write}
  {
    At(ss, es, i);
  }

  /** A delivered push gives the server, key by key, the pushed record if it has none or one with a lower
      version, and its own otherwise, on a tie too. Nothing is logged. */
  lemma PushArrives(ss: seq<System>, es: seq<Event>, i: nat)
    requires IsRun(ss, es) && i < |es| && es[i].DeliverPush?
    ensures OthersKept(ss[i], ss[i + 1], es[i].push.dest) && SessionsKept(ss[i], ss[i + 1])
    ensures var r, r', push := ss[i].servers[es[i].push.dest], ss[i + 1].servers[es[i].push.dest], es[i].push.store;
      && r'.log == r.log && r'.clock == r.clock
      && r'.store.Keys == r.store.Keys + push.Keys
      && forall k | k in r'.store ::
           r'.store[k] == if k in push && (k in r.store ==> r.store[k].version < push[k].version) then push[k]
                          else if k in r.store then r.store[k] else push[k]
    ensures ss[i + 1].issued == ss[i].issued && ss[i + 1].writes == ss[i].writes
    ensures ss[i + 1].pushes == ss[i].pushes - {es[i].push}
  {
    At(ss, es, i);
  }

  /** A snapshot in flight is what its sender stores at that moment. Nothing else changes. */
  lemma SnapshotTaken(ss: seq<System>, es: seq<Event>, i: nat)
    requires IsRun(ss, es) && i < |es| && es[i].TakeSnapshot?
    ensures es[i].src in ss[i].servers
    ensures ss[i + 1] == ss[i].(pushes := ss[i].pushes
                                          + {PushMessage(es[i].src, es[i].dest, ss[i].servers[es[i].src].store)})
  {
    At(ss, es, i);
  }

  /******* Joins and heartbeats *******/

  /** A new server has nothing but a clock of one plus its fraction. */
  lemma ServerStarts(ss: seq<System>, es: seq<Event>, i: nat)
    requires IsRun(ss, es) && i < |es| && es[i].Join?
    ensures es[i].id !in ss[i].servers && Atoi(es[i].id).Some?
    ensures var server := Replica(es[i].id, map[], [], 1.0 + IdOffset(es[i].id));
      ss[i + 1] == ss[i].(servers := ss[i].servers[es[i].id := server])
  {
    At(ss, es, i);
  }

  /** Sending a heartbeat costs one tick and changes nothing else. */
  lemma HeartbeatSent(ss: seq<System>, es: seq<Event>, i: nat)
    requires IsRun(ss, es) && i < |es| && es[i].HeartbeatSend?
    ensures OthersKept(ss[i], ss[i + 1], es[i].server)
    ensures var r, r' := ss[i].servers[es[i].server], ss[i + 1].servers[es[i].server];
      r' == r.(clock := r.clock + 1.0) && ss[i + 1] == ss[i].(servers := ss[i].servers[es[i].server := r'])
  {
    At(ss, es, i);
  }

  /** A heartbeat moves the clock to the greatest of where it would be by ticking once for each entry, and
      where each sent clock would bring it. It changes nothing else. */
  lemma HeartbeatArrives(ss: seq<System>, es: seq<Event>, i: nat)
    requires Execution(ss, es) && i < |es| && es[i].HeartbeatReceive?
    ensures OthersKept(ss[i], ss[i + 1], es[i].server)
    ensures var id, n, sent := es[i].server, |es[i].clocks| as real, es[i].clocks;
      var before, after := ss[i].servers[id].clock, ss[i + 1].servers[id].clock;
      && after >= before + n && (forall k | 0 <= k < |sent| :: after >= BroughtTo(id, sent, k))
      && (after == before + n || exists k :: 0 <= k < |sent| && after == BroughtTo(id, sent, k))
    ensures var r := ss[i + 1].servers[es[i].server];
      && r == ss[i].servers[es[i].server].(clock := r.clock)
      && ss[i + 1] == ss[i].(servers := ss[i].servers[es[i].server := r])
  {
    At(ss, es, i);
    FractionsInvariant(ss, es, i);
    ReceiveClosedForm(ss[i].servers[es[i].server].clock, es[i].server, es[i].clocks);
  }

  /** A lost message is gone, and nothing else has happened. */
  lemma MessageLost(ss: seq<System>, es: seq<Event>, i: nat)
    requires IsRun(ss, es) && i < |es|
    ensures es[i].LoseWrite? ==> ss[i + 1] == ss[i].(writes := ss[i].writes - {es[i].write})
    ensures es[i].LosePush? ==> ss[i + 1] == ss[i].(pushes := ss[i].pushes - {es[i].push})
  {
    At(ss, es, i);
  }

  /******* Counting ticks *******/

  /** The event costs server id a tick. */
  predicate Costs(e: Event, id: string) {
    (e.ClientPut? || e.ClientGet? || e.HeartbeatSend?) && e.server == id
  }

  function Ticked(es: seq<Event>, id: string): nat {
    if es == [] then 0 else Ticked(es[..|es| - 1], id) + if Costs(es[|es| - 1], id) then 1 else 0
  }

  lemma ClockAfter(ss: seq<System>, es: seq<Event>, i: nat, id: string)
    requires Execution(ss, es) && i < |es| && id in ss[i].servers
    requires TicksAt(ss, es, i) && !(es[i].HeartbeatReceive? && es[i].server == id)
    ensures id in ss[i + 1].servers
    ensures ss[i + 1].servers[id].clock == ss[i].servers[id].clock + if Costs(es[i], id) then 1.0 else 0.0
  {
    if es[i].ClientPut? && es[i].server == id {
      PutTicksIff(ss[i].servers[id], es[i].key, RequestVersion(SessionOf(ss[i], es[i].client), es[i].key));
    }
  }

  /** A server that joins in event i and hears no heartbeat has counted its puts, gets and heartbeats, as
      long as every put ticks: nothing else moves its clock. */
  lemma {:induction false} ClockCounts(ss: seq<System>, es: seq<Event>, i: nat, j: nat, id: string)
    requires Execution(ss, es) && i < j <= |es| && es[i] == Join(id) && TicksBefore(ss, es, j)
    requires forall n | i < n < j :: !(es[n].HeartbeatReceive? && es[n].server == id)
    ensures id in ss[j].servers
    ensures ss[j].servers[id].clock == 1.0 + IdOffset(id) + Ticked(es[i + 1..j], id) as real
    decreases j
  {
    if i + 1 == j {
      ServerStarts(ss, es, i);
    } else {
      ClockCounts(ss, es, i, j - 1, id);
      assert TicksAt(ss, es, j - 1);
      ClockAfter(ss, es, j - 1, id);
      assert es[i + 1..j][..j - 1 - (i + 1)] == es[i + 1..j - 1];
    }
  }

  /** The first version a new server issues for a first write is one plus its fraction: the digits of its
      id after the decimal point. */
  lemma FirstVersion(ss: seq<System>, es: seq<Event>, i: nat, j: nat, id: string)
    requires Execution(ss, es) && i < j < |es| && es[i] == Join(id) && Digits(id)
    requires forall n | i < n < j :: Target(es[n]) != Some(id)
    requires es[j].ClientPut? && es[j].server == id && LastSeen(ss[j], es[j].client, es[j].key) == -1.0
    ensures Enabled(ss[j], es[j]) && Reply(ss[j], es[j]).version == 1.0 + Decimal(id)
  {
    UntouchedSince(ss, es, i, j, id);
    ServerStarts(ss, es, i);
    UnsignedOffset(id);
    var kv := PutWrites(ss, es, j);
  }

  lemma {:induction false} UntouchedSince(ss: seq<System>, es: seq<Event>, i: nat, j: nat, id: string)
    requires IsRun(ss, es) && i < j <= |es| && es[i] == Join(id)
    requires forall n | i < n < j :: Target(es[n]) != Some(id)
    ensures id in ss[i + 1].servers && id in ss[j].servers && ss[j].servers[id] == ss[i + 1].servers[id]
    decreases j
  {
    At(ss, es, j - 1);
    if i + 1 < j { UntouchedSince(ss, es, i, j - 1, id); }
  }
}
