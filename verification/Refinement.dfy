/**
 The server's handlers on the heap take the steps of System.dfy: after each call the server's state is
 that of the step's successor state. The client's half is in Client.dfy.
 */
module Refinement {
  import opened Lamport
  import opened Store
  import R = Replica
  import opened System
  import opened Server
  import opened Membership
  import opened VersionAgreement

  ghost predicate Represents(server: ServerListener, s: System)
    reads server, server.keyValueMap.Values, server.writeLog
  {
    server.Valid() && server.id in s.servers && s.servers[server.id] == server.View()
  }

  method Start(id: string, ghost s: System) returns (server: ServerListener)
    requires Atoi(id).Some? && id !in s.servers
    ensures Enabled(s, Join(id)) && Represents(server, Step(s, Join(id)))
  {
    server := new ServerListener(id);
  }

  function Messages(sent: set<Outgoing>): set<WriteMessage> {
    set o | o in sent :: WriteMessage(o.dest, o.kv)
  }

  lemma SentMessages(members: set<string>, live: set<string>, kv: KeyValue)
    ensures Messages(set m | m in members && m in live :: Outgoing(m, kv))
            == set m | m in members * live :: WriteMessage(m, kv)
  {
    var sent := set m | m in members && m in live :: Outgoing(m, kv);
    forall m | m in members * live ensures WriteMessage(m, kv) in Messages(sent) {
      assert Outgoing(m, kv) in sent;
    }
  }

  /** The server's half of a put by the client of that name; its half is Client.PutKVClient. */
  method Put(server: ServerListener, name: string, key: string, value: string, version: real,
             members: set<string>, live: set<string>, answered: bool, ghost s: System)
    returns (reply: KeyValue, sent: set<Outgoing>, ghost e: Event)
    requires Represents(server, s) && version == RequestVersion(SessionOf(s, name), key)
    modifies server`lamportTimestamp, server`writeLog, server`keyValueMap, server.keyValueMap.Values
    ensures e == ClientPut(name, server.id, key, value, members * live, answered)
    ensures Enabled(s, e) && reply == Reply(s, e) && Represents(server, Step(s, e))
    ensures Step(s, e).writes == s.writes + Messages(sent)
  {
    e := ClientPut(name, server.id, key, value, members * live, answered);
    reply, sent := server.PutKVServer(key, value, version, members, live);
    SentMessages(members, live, reply);
  }

  method Get(server: ServerListener, name: string, key: string, version: real, answered: bool, ghost s: System)
    returns (reply: KeyValue, ghost e: Event)
    requires Represents(server, s) && version == RequestVersion(SessionOf(s, name), key)
    modifies server`lamportTimestamp
    ensures e == ClientGet(name, server.id, key, answered)
    ensures Enabled(s, e) && reply == Reply(s, e) && Represents(server, Step(s, e))
  {
    e := ClientGet(name, server.id, key, answered);
    reply := server.GetKVServer(key, version);
  }

  method ReceiveWrite(server: ServerListener, kv: KeyValue, ghost s: System)
    requires Represents(server, s) && WriteMessage(server.id, kv) in s.writes
    modifies server`writeLog, server`keyValueMap, server.keyValueMap.Values
    ensures var e := DeliverWrite(WriteMessage(server.id, kv), false);
      Enabled(s, e) && Represents(server, Step(s, e))
  {
    server.ProcessRemoteWrite(kv);
  }

  method ReceivePush(server: ServerListener, src: string, incoming: Store, ghost s: System)
    requires Represents(server, s) && PushMessage(src, server.id, incoming) in s.pushes && Origin(s)
    modifies server`keyValueMap, server.keyValueMap.Values
    ensures var e := DeliverPush(PushMessage(src, server.id, incoming));
      Enabled(s, e) && Represents(server, Step(s, e))
  {
    server.SendKVData(incoming);
  }

  method Snapshot(server: ServerListener, dest: string, ghost s: System) returns (copy: Store)
    requires Represents(server, s) && dest in s.servers
    ensures var e := TakeSnapshot(server.id, dest);
      Enabled(s, e) && Step(s, e).pushes == s.pushes + {PushMessage(server.id, dest, copy)}
  {
    copy := server.CopyStore();
  }

  method SendHeartbeat(server: ServerListener, ghost s: System)
    requires Represents(server, s)
    modifies server`lamportTimestamp
    ensures Enabled(s, HeartbeatSend(server.id)) && Represents(server, Step(s, HeartbeatSend(server.id)))
  {
    server.StartHeartbeat();
  }

  method ReceiveHeartbeat(server: ServerListener, clocks: seq<real>, ghost s: System)
    requires Represents(server, s)
    modifies server`lamportTimestamp
    ensures var e := HeartbeatReceive(server.id, clocks);
      Enabled(s, e) && Represents(server, Step(s, e))
  {
    server.ReceiveClockList(clocks);
  }

  function Clocks(list: seq<ServerInfo>): seq<real> {
    seq(|list|, i requires 0 <= i < |list| => list[i].lamport)
  }

  /** The clock is one variable, which gossip and the store's handlers both move: sending and receiving a
      heartbeat have one effect on it in both views of the server. */
  lemma OneClock(m: Member, r: R.Replica, list: seq<ServerInfo>, now: int)
    requires m.self.id == r.id && m.self.lamport == r.clock
    ensures Scan(BeginHeartbeat(m), now).self.lamport == R.SendHeartbeat(r).clock
    ensures ReceiveEntries(m, list, now).self.lamport == R.ReceiveHeartbeat(r, Clocks(list)).clock
  {
    HeartbeatClock(m, list, now);
    assert Clocks(list) == seq(|list|, i requires 0 <= i < |list| => list[i].lamport);
  }
}
