/**
 A server's key-value state on the heap: one mutable record per key, a log of copies, the clock.
 Each method is one RPC handler, run under the store's mutex, and is proved against the function of
 the same name in Replica.dfy.
 */
module Server {
  import opened Lamport
  import opened Store
  import R = Replica

  class KeyValueInfo {
    var key: string
    var value: string
    var version: real

    constructor (kv: KeyValue)
      ensures Snapshot() == kv
    {
      key, value, version := kv.key, kv.value, kv.version;
    }

    function Snapshot(): KeyValue
      reads this
    {
      KeyValue(key, value, version)
    }
  }

  /** A message to be sent to a member. */
  datatype Outgoing = Outgoing(dest: string, kv: KeyValue)

  class ServerListener {
    const id: string
    var lamportTimestamp: real
    var keyValueMap: map<string, KeyValueInfo>
    var writeLog: seq<KeyValueInfo>

    /** No two keys share a record, and no record is in the log. */
    ghost predicate Separate()
      reads this
    {
      && (forall j, k | j in keyValueMap && k in keyValueMap && j != k :: keyValueMap[j] != keyValueMap[k])
      && (forall k | k in keyValueMap :: keyValueMap[k] !in writeLog)
    }

    ghost predicate Valid()
      reads this, keyValueMap.Values
    {
      Atoi(id).Some? && Separate() && forall k | k in keyValueMap :: keyValueMap[k].key == k
    }

    ghost function Contents(): Store
      reads this, keyValueMap.Values
    {
      map k | k in keyValueMap :: keyValueMap[k].Snapshot()
    }

    ghost function Log(): seq<KeyValue>
      reads this, writeLog
    {
      seq(|writeLog|, i requires 0 <= i < |writeLog| reads this, writeLog => writeLog[i].Snapshot())
    }

    /** The log's entries are not among the store's records, so no store update reaches them. */
    ghost function View(): R.Replica
      reads this, keyValueMap.Values, writeLog
    {
      R.Replica(id, Contents(), Log(), lamportTimestamp)
    }

    constructor (id: string)
      requires Atoi(id).Some?
      ensures Valid() && View() == R.Fresh(id)
    {
      this.id := id;
      lamportTimestamp := GetLamportTimestampFromSeqnum(1, id).value;
      keyValueMap := map[];
      writeLog := [];
    }

    method GetAndIncrementLamportTimestamp() returns (before: real)
      modifies this`lamportTimestamp
      ensures before == old(lamportTimestamp)
      ensures View() == old(View()).(clock := before + 1.0)
    {
      before := lamportTimestamp;
      lamportTimestamp := lamportTimestamp + 1.0;
    }

    method ConditionalIncrementLamportTimestamp(pivot: real) returns (now: real)
      modifies this`lamportTimestamp
      ensures now == ConditionalIncrement(old(lamportTimestamp), pivot)
      ensures View() == old(View()).(clock := now)
    {
      var difference := lamportTimestamp + 1.0 - pivot;
      if difference > 0.0 {
        lamportTimestamp := lamportTimestamp + 1.0;
      } else {
        lamportTimestamp := lamportTimestamp + (1.0 + Ceil(difference) as real);
      }
      now := lamportTimestamp;
    }

    method AddToWriteLog(info: KeyValueInfo)
      requires Valid()
      modifies this`writeLog
      ensures Valid()
      ensures |writeLog| == |old(writeLog)| + 1 && writeLog[..|old(writeLog)|] == old(writeLog)
      ensures fresh(writeLog[|old(writeLog)|]) && writeLog[|old(writeLog)|].Snapshot() == info.Snapshot()
      ensures View() == old(View()).(log := old(View()).log + [info.Snapshot()])
    {
      var copy := new KeyValueInfo(info.Snapshot());
      writeLog := writeLog + [copy];
      assert Log() == old(Log()) + [info.Snapshot()];
    }

    /** The store part of a write: a new record, or an update of the one in place. */
    method SetRecord(kv: KeyValue)
      requires Valid()
      modifies this`keyValueMap, keyValueMap.Values
      ensures Valid() && kv.key in keyValueMap && keyValueMap[kv.key].Snapshot() == kv
      ensures forall o | o in keyValueMap.Values :: o in old(keyValueMap.Values) || fresh(o)
      ensures kv.key in old(keyValueMap) ==> keyValueMap == old(keyValueMap)
      ensures View() == old(View()).(store := old(View()).store[kv.key := kv])
    {
      if kv.key !in keyValueMap {
        var info := new KeyValueInfo(kv);
        keyValueMap := keyValueMap[kv.key := info];
      } else {
        var info := keyValueMap[kv.key];
        info.value := kv.value;
        info.version := kv.version;
      }
      assert Log() == old(Log());
      assert Contents() == old(Contents())[kv.key := kv];
    }

    /** The version for a write of key by a client that last saw `version`. */
    method Stamp(key: string, version: real) returns (stamp: real)
      requires Valid()
      modifies this`lamportTimestamp
      ensures stamp == R.NewVersion(old(View()), key, version)
      ensures View() == old(View()).(clock := R.ClockAfterPut(old(View()), key, version))
    {
      if key !in keyValueMap {
        if version == R.ANY_VERSION {
          stamp := GetAndIncrementLamportTimestamp();
        } else {
          stamp := ConditionalIncrementLamportTimestamp(version);
        }
      } else if version == R.ANY_VERSION {
        stamp := ConditionalIncrementLamportTimestamp(keyValueMap[key].version);
      } else {
        stamp := ConditionalIncrementLamportTimestamp(version);
      }
    }

    /** Writes locally, then sends the stored record to every member with a live connection. */
    method PutKVServer(key: string, value: string, version: real, members: set<string>, live: set<string>)
      returns (reply: KeyValue, sent: set<Outgoing>)
      requires Valid()
      modifies this`lamportTimestamp, this`writeLog, this`keyValueMap, keyValueMap.Values
      ensures Valid() && View() == R.Put(old(View()), key, value, version)
      ensures reply == R.PutReply(old(View()), key, value, version)
      ensures sent == set m | m in members && m in live :: Outgoing(m, reply)
      ensures old(writeLog) <= writeLog
    {
      var stamp := Stamp(key, version);
      SetRecord(KeyValue(key, value, stamp));
      AddToWriteLog(keyValueMap[key]);
      reply := keyValueMap[key].Snapshot();
      sent := Broadcast(key, members, live);
    }

    method Broadcast(key: string, members: set<string>, live: set<string>) returns (sent: set<Outgoing>)
      requires key in keyValueMap
      ensures sent == set m | m in members && m in live :: Outgoing(m, keyValueMap[key].Snapshot())
    {
      sent := {};
      var rest := members;
      while rest != {}
        invariant rest <= members
        invariant sent == set m | m in members - rest && m in live :: Outgoing(m, keyValueMap[key].Snapshot())
      {
        var m :| m in rest;
        if m in live {
          sent := sent + {Outgoing(m, keyValueMap[key].Snapshot())};
        }
        rest := rest - {m};
      }
    }

    method GetKVServer(key: string, version: real) returns (reply: KeyValue)
      requires Valid()
      modifies this`lamportTimestamp
      ensures Valid() && View() == R.Get(old(View()))
      ensures reply == R.GetReply(old(View()), key, version)
    {
      var before := GetAndIncrementLamportTimestamp();
      if key !in keyValueMap {
        reply := KeyValue(key, R.ERR_KEY, before);
      } else {
        reply := keyValueMap[key].Snapshot();
        if keyValueMap[key].version < version {
          reply := reply.(value := R.ERR_DEP);
        }
      }
    }

    method ProcessRemoteWrite(kv: KeyValue)
      requires Valid()
      modifies this`writeLog, this`keyValueMap, keyValueMap.Values
      ensures Valid() && View() == R.RemoteWrite(old(View()), kv)
      ensures old(writeLog) <= writeLog
    {
      if kv.key !in keyValueMap || kv.version > keyValueMap[kv.key].version {
        SetRecord(kv);
        AddToWriteLog(keyValueMap[kv.key]);
      }
    }

    /** A record arrives filed under key: an update in place keeps the key of the record that is there. */
    method MergeRecord(key: string, kv: KeyValue)
      requires Separate()
      modifies this`keyValueMap, keyValueMap.Values
      ensures Separate() && View() == old(View()).(store := Filed(old(View()).store, key, kv))
      ensures forall o | o in keyValueMap.Values :: o in old(keyValueMap.Values) || fresh(o)
    {
      if key !in keyValueMap {
        var info := new KeyValueInfo(kv);
        keyValueMap := keyValueMap[key := info];
      } else if kv.version > keyValueMap[key].version {
        var info := keyValueMap[key];
        info.value := kv.value;
        info.version := kv.version;
      }
      assert Log() == old(Log());
      assert Contents() == Filed(old(Contents()), key, kv);
    }

    /** The keys of the request come in no particular order. */
    method SendKVData(incoming: Store)
      requires Separate()
      modifies this`keyValueMap, keyValueMap.Values
      ensures Separate() && View() == old(View()).(store := MergeFiled(old(View()).store, incoming))
      ensures old(Valid()) && WellKeyed(incoming) ==> Valid() && View() == R.SendKVData(old(View()), incoming)
    {
      var rest := incoming.Keys;
      ghost var start := View();
      assert MergeFiled(start.store, incoming - rest) == start.store;
      while rest != {}
        invariant rest <= incoming.Keys && Separate()
        invariant forall o | o in keyValueMap.Values :: o in old(keyValueMap.Values) || fresh(o)
        invariant View() == start.(store := MergeFiled(start.store, incoming - rest))
      {
        var key :| key in rest;
        assert rest == rest - {key} + {key};
        MergeOneMore(start.store, incoming, rest - {key}, key);
        MergeRecord(key, incoming[key]);
        rest := rest - {key};
      }
      assert incoming - {} == incoming;
      if old(Valid()) && WellKeyed(incoming) {
        MergeWellKeyed(start.store, incoming);
        assert forall k | k in keyValueMap :: keyValueMap[k].Snapshot() == Contents()[k];
      }
    }

    /** Stabilize's copy of the whole store. */
    method CopyStore() returns (copy: Store)
      requires Valid()
      ensures copy == View().store && WellKeyed(copy)
    {
      copy := map[];
      var rest := keyValueMap.Keys;
      while rest != {}
        invariant rest <= keyValueMap.Keys
        invariant copy == View().store - rest
      {
        var key :| key in rest;
        copy := copy[key := keyValueMap[key].Snapshot()];
        rest := rest - {key};
      }
    }

    /** One stabilize round: a copy of the store for every member with a live connection. */
    method PushToMembers(members: set<string>, live: set<string>) returns (sent: map<string, Store>)
      requires Valid()
      ensures sent.Keys == members * live
      ensures forall m | m in sent :: sent[m] == View().store
    {
      sent := map[];
      var rest := members;
      while rest != {}
        invariant rest <= members && sent.Keys == (members - rest) * live
        invariant forall m | m in sent :: sent[m] == View().store
      {
        var m :| m in rest;
        if m in live {
          var copy := CopyStore();
          sent := sent[m := copy];
        }
        rest := rest - {m};
      }
    }

    /** The clock's part of sending a heartbeat. */
    method StartHeartbeat()
      modifies this`lamportTimestamp
      ensures View() == R.SendHeartbeat(old(View()))
    {
      lamportTimestamp := lamportTimestamp + 1.0;
    }

    /** The clock's part of receiving one. */
    method ReceiveClockList(clocks: seq<real>)
      requires Valid()
      modifies this`lamportTimestamp
      ensures Valid() && View() == R.ReceiveHeartbeat(old(View()), clocks)
    {
      for i := 0 to |clocks|
        invariant lamportTimestamp == ReceiveClocks(old(lamportTimestamp), id, clocks[..i])
      {
        ReceiveClocksSnoc(old(lamportTimestamp), id, clocks[..i], clocks[i]);
        assert clocks[..i + 1] == clocks[..i] + [clocks[i]];
        var rebuilt := GetLamportTimestampFromSeqnum(clocks[i].Floor, id).value;
        lamportTimestamp := (if rebuilt > lamportTimestamp then rebuilt else lamportTimestamp) + 1.0;
      }
      assert clocks[..|clocks|] == clocks;
    }
  }

  /** One entry of a push, filed under key. */
  function Filed(store: Store, key: string, kv: KeyValue): Store {
    if key !in store then store[key := kv]
    else if kv.version > store[key].version then store[key := kv.(key := store[key].key)]
    else store
  }

  /** A whole push, whatever keys its records name. */
  function MergeFiled(store: Store, incoming: Store): Store {
    map k | k in store.Keys + incoming.Keys :: if k in incoming then Filed(store, k, incoming[k])[k] else store[k]
  }

  /** Value and version come from the push exactly if the key is new or its version higher; a record that is
      there keeps the key it names, whatever the push says. */
  lemma PushedRecord(store: Store, incoming: Store, k: string)
    requires k in store || k in incoming
    ensures k in MergeFiled(store, incoming)
    ensures var kv, pushed := MergeFiled(store, incoming)[k],
                              k in incoming && (k in store ==> store[k].version < incoming[k].version);
      && kv.key == (if k in store then store[k].key else incoming[k].key)
      && kv.value == (if pushed then incoming[k].value else store[k].value)
      && kv.version == (if pushed then incoming[k].version else store[k].version)
  {
  }

  lemma MergeOneMore(store: Store, incoming: Store, rest: set<string>, key: string)
    requires key in incoming && key !in rest
    ensures MergeFiled(store, incoming - rest)
            == Filed(MergeFiled(store, incoming - (rest + {key})), key, incoming[key])
  {
  }

  /** If both name each record by its own key, this is the merge by version. */
  lemma MergeWellKeyed(store: Store, incoming: Store)
    requires WellKeyed(store) && WellKeyed(incoming)
    ensures MergeFiled(store, incoming) == Merge(store, incoming) && WellKeyed(Merge(store, incoming))
  {
  }
}
