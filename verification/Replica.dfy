/**
 One server as a value: its store, its write log and its clock, and what each handler does to them.
 The class in Server.dfy is proved to behave like these functions.
 */
module Replica {
  import opened Lamport
  import opened Store

  datatype Replica = Replica(id: string, store: Store, log: seq<KeyValue>, clock: real)

  /** A server that has just started. */
  function Fresh(id: string): Replica
    requires Atoi(id).Some?
  {
    Replica(id, map[], [], GetLamportTimestampFromSeqnum(1, id).value)
  }

  /** The request's "no version recorded". */
  const ANY_VERSION: real := -1.0

  const ERR_KEY := "ERR_KEY"
  const ERR_DEP := "ERR_DEP"

  /******* PutKVServer *******/

  /** The version the new one is meant to exceed, if any: the client's, or for a client that has
      none the stored one. */
  function Pivot(r: Replica, key: string, version: real): Option<real> {
    if version != ANY_VERSION then Some(version)
    else if key in r.store then Some(r.store[key].version)
    else None
  }

  /** The branch in which the allocator does not exceed its pivot is not taken. */
  predicate NoLag(r: Replica, key: string, version: real) {
    var pivot := Pivot(r, key, version);
    pivot.None? || pivot.value < r.clock + 1.0
  }

  /** The put moves the clock on: its pivot is less than two ticks ahead. */
  predicate Ticks(r: Replica, key: string, version: real) {
    var pivot := Pivot(r, key, version);
    pivot.None? || pivot.value < r.clock + 2.0
  }

  function ClockAfterPut(r: Replica, key: string, version: real): real {
    var pivot := Pivot(r, key, version);
    if pivot.None? then r.clock + 1.0 else ConditionalIncrement(r.clock, pivot.value)
  }

  /** The first write of a key by a client without a version is stamped with the old clock, every
      other write with the new one. */
  function NewVersion(r: Replica, key: string, version: real): real {
    if Pivot(r, key, version).None? then r.clock else ClockAfterPut(r, key, version)
  }

  function PutReply(r: Replica, key: string, value: string, version: real): KeyValue {
    KeyValue(key, value, NewVersion(r, key, version))
  }

  function Put(r: Replica, key: string, value: string, version: real): Replica {
    var kv := PutReply(r, key, value, version);
    r.(store := r.store[key := kv], log := r.log + [kv], clock := ClockAfterPut(r, key, version))
  }

  /** A put exceeds its pivot exactly when it does not lag. */
  lemma PutExceedsPivot(r: Replica, key: string, version: real)
    requires Pivot(r, key, version).Some?
    ensures NewVersion(r, key, version) > Pivot(r, key, version).value <==> NoLag(r, key, version)
  {
    ConditionalIncrementExact(r.clock, Pivot(r, key, version).value);
  }

  /** A put moves the clock on exactly when its pivot is less than two ticks ahead, and then by one. */
  lemma PutTicksIff(r: Replica, key: string, version: real)
    ensures Ticks(r, key, version) <==> ClockAfterPut(r, key, version) > r.clock
    ensures Ticks(r, key, version) <==> ClockAfterPut(r, key, version) == r.clock + 1.0
  {
    var pivot := Pivot(r, key, version);
    if pivot.Some? { ConditionalIncrementExact(r.clock, pivot.value); }
  }

  lemma PutWithoutLag(r: Replica, key: string, version: real)
    requires NoLag(r, key, version)
    ensures Ticks(r, key, version) && ClockAfterPut(r, key, version) == r.clock + 1.0
    ensures r.clock <= NewVersion(r, key, version) <= r.clock + 1.0
    ensures version != ANY_VERSION ==> NewVersion(r, key, version) > version
  {
  }

  /** A client that has recorded `version` is close enough to the server to be answered with a version
      at least as high. The last two cases need a recorded version that equals ANY_VERSION. */
  predicate InReach(r: Replica, key: string, version: real) {
    if version != ANY_VERSION then version <= r.clock + 1.0
    else if key !in r.store then version <= r.clock
    else if r.store[key].version < r.clock + 1.0 then version <= r.clock + 1.0
    else r.store[key].version < r.clock + r.clock.Floor as real + 4.0
  }

  lemma PutInReachIff(r: Replica, key: string, version: real)
    ensures NewVersion(r, key, version) >= version <==> InReach(r, key, version)
  {
    if version != ANY_VERSION {
      ConditionalIncrementExact(r.clock, version);
    } else if key in r.store {
      IncrementAtLeast(r.clock, r.store[key].version, -1);
    }
  }

  /** Without lag a put still lowers a stored version exactly when the replica holds one above its
      own next tick, which a remote write or a push can have brought. */
  lemma PutLowersStoredVersion(r: Replica, key: string, value: string, version: real)
    requires key in r.store && NoLag(r, key, version)
    ensures Put(r, key, value, version).store[key].version < r.store[key].version
            <==> r.clock + 1.0 < r.store[key].version
  {
    PutWithoutLag(r, key, version);
  }

  /******* GetKVServer *******/

  function GetReply(r: Replica, key: string, version: real): KeyValue {
    if key !in r.store then KeyValue(key, ERR_KEY, r.clock)
    else
      var kv := r.store[key];
      if kv.version < version then KeyValue(kv.key, ERR_DEP, kv.version) else kv
  }

  function Get(r: Replica): Replica {
    r.(clock := r.clock + 1.0)
  }

  /******* ProcessRemoteWrite, SendKVData, heartbeats *******/

  function RemoteWrite(r: Replica, kv: KeyValue): Replica {
    var store := Write(r.store, kv);
    if kv.key in r.store && !(kv.version > r.store[kv.key].version) then r
    else r.(store := store, log := r.log + [kv])
  }

  /** A push is not logged. */
  function SendKVData(r: Replica, incoming: Store): Replica {
    r.(store := Merge(r.store, incoming))
  }

  function SendHeartbeat(r: Replica): Replica {
    r.(clock := r.clock + 1.0)
  }

  function ReceiveHeartbeat(r: Replica, clocks: seq<real>): Replica
  {
    r.(clock := ReceiveClocks(r.clock, r.id, clocks))
  }

  /******* The log *******/

  /** The store that the log's writes build, in order. */
  function Replay(log: seq<KeyValue>): Store {
    if log == [] then map[] else Replay(log[..|log| - 1])[log[|log| - 1].key := log[|log| - 1]]
  }

  /** Replay answers with the last logged write of each key. */
  lemma {:induction false} ReplayIsLastWrite(log: seq<KeyValue>, k: string)
    ensures k in Replay(log) <==> exists i | 0 <= i < |log| :: log[i].key == k
    ensures k in Replay(log) ==>
              exists i | 0 <= i < |log| :: log[i] == Replay(log)[k] && log[i].key == k
                                           && forall j | i < j < |log| :: log[j].key != k
  {
    if log != [] {
      var front, last := log[..|log| - 1], log[|log| - 1];
      ReplayIsLastWrite(front, k);
      if k in Replay(front) && last.key != k {
        var i :| 0 <= i < |front| && front[i] == Replay(front)[k] && front[i].key == k
                 && forall j | i < j < |front| :: front[j].key != k;
        assert log[i] == Replay(log)[k];
        forall j | i < j < |log| ensures log[j].key != k {
          if j < |front| { assert log[j] == front[j]; }
        }
      }
      if i :| 0 <= i < |log| && log[i].key == k {
        if i < |front| { assert front[i].key == k; }
      }
    }
  }

  lemma ReplaySnoc(log: seq<KeyValue>, kv: KeyValue)
    ensures Replay(log + [kv]) == Replay(log)[kv.key := kv]
  {
    assert (log + [kv])[..|log|] == log;
  }

  ghost predicate LogReplays(r: Replica) {
    Replay(r.log) == r.store
  }

  lemma PutKeepsReplay(r: Replica, key: string, value: string, version: real)
    requires LogReplays(r)
    ensures LogReplays(Put(r, key, value, version))
  {
    ReplaySnoc(r.log, PutReply(r, key, value, version));
  }

  lemma RemoteWriteKeepsReplay(r: Replica, kv: KeyValue)
    requires LogReplays(r)
    ensures LogReplays(RemoteWrite(r, kv))
  {
    ReplaySnoc(r.log, kv);
  }

  /** A push keeps the log in step exactly when it brings nothing new. */
  lemma PushKeepsReplayIff(r: Replica, incoming: Store)
    requires LogReplays(r)
    ensures LogReplays(SendKVData(r, incoming))
            <==> forall k | k in incoming :: k in r.store && incoming[k].version <= r.store[k].version
  {
    var merged := Merge(r.store, incoming);
    if merged == r.store {
      forall k | k in incoming ensures k in r.store && incoming[k].version <= r.store[k].version {
        assert k in merged;
      }
    } else if forall k | k in incoming :: k in r.store && incoming[k].version <= r.store[k].version {
      assert merged.Keys == r.store.Keys;
      assert forall k | k in merged :: merged[k] == r.store[k];
    }
  }
}
