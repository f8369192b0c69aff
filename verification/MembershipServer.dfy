/**
 A server's membership state on the heap: its own record and one mutable record per member. Each method
 is proved against the function of the same meaning in Membership.dfy.
 */
module MembershipServer {
  import opened Lamport
  import opened Membership
  import opened Fanout

  class ServerInfoRecord {
    const id: string
    const address: string
    const lamport: real
    var heartbeat: int
    var timestamp: int
    var alive: bool
    var suspicion: bool

    /** A copy with the local time of its creation. */
    constructor (info: ServerInfo, now: int)
      ensures Snapshot() == info.(timestamp := now)
    {
      id, address, lamport := info.id, info.address, info.lamport;
      heartbeat, timestamp, alive, suspicion := info.heartbeat, now, info.alive, info.suspicion;
    }

    method Refresh(newHeartbeat: int, now: int)
      modifies this
      ensures Snapshot() == Accepted(old(Snapshot()), newHeartbeat, now)
    {
      heartbeat := newHeartbeat;
      timestamp := now;
      if suspicion {
        suspicion := false;
        alive := true;
      }
    }

    function Snapshot(): ServerInfo
      reads this
    {
      ServerInfo(id, address, heartbeat, timestamp, alive, suspicion, lamport)
    }
  }

  class MembershipListener {
    var currServerInfo: ServerInfo
    var serverMap: map<string, ServerInfoRecord>
    ghost var heard: map<string, Heard>

    ghost predicate Valid()
      reads this
    {
      forall k | k in serverMap :: serverMap[k].id == k
    }

    ghost function Others(): map<string, ServerInfo>
      reads this, serverMap.Values
    {
      map k | k in serverMap :: serverMap[k].Snapshot()
    }

    ghost function View(): Member
      reads this, serverMap.Values
    {
      Member(currServerInfo, Others(), heard)
    }

    constructor (id: string, address: string, now: int)
      requires Atoi(id).Some?
      ensures Valid() && View() == Starting(id, address, now)
    {
      currServerInfo := ServerInfo(id, address, 1, now, true, false, GetLamportTimestampFromSeqnum(1, id).value);
      serverMap := map[];
      heard := map[];
    }

    method AddServer(info: ServerInfo, now: int)
      requires Valid() && info.id !in serverMap
      modifies this`serverMap, this`heard
      ensures Valid() && Others() == old(Others())[info.id := info.(timestamp := now)]
      ensures heard == old(heard)[info.id := Heard(now, !info.alive)]
      ensures forall o | o in serverMap.Values :: o in old(serverMap.Values) || fresh(o)
    {
      var entry := new ServerInfoRecord(info, now);
      serverMap := serverMap[info.id := entry];
      heard := heard[info.id := Heard(now, !info.alive)];
      assert Others() == old(Others())[info.id := info.(timestamp := now)];
    }

    method AcceptHeartbeat(sid: string, heartbeat: int, now: int)
      requires Valid() && sid in serverMap
      modifies this`heard, serverMap[sid]
      ensures Valid() && Others() == old(Others())[sid := Accepted(old(Others())[sid], heartbeat, now)]
      ensures heard == old(heard)[sid := Heard(now, false)]
    {
      var entry := serverMap[sid];
      entry.Refresh(heartbeat, now);
      heard := heard[sid := Heard(now, false)];
      assert Others() == old(Others())[sid := entry.Snapshot()];
    }

    /** The sender's counter with this server's fraction, or this server's clock, and one more. */
    method TickClock(sent: real)
      modifies this`currServerInfo
      ensures currServerInfo == old(currServerInfo).(
                lamport := ReceiveClock(old(currServerInfo).lamport, old(currServerInfo).id, sent))
    {
      var rebuilt := sent.Floor as real + IdOffset(currServerInfo.id);
      var later := if rebuilt > currServerInfo.lamport then rebuilt else currServerInfo.lamport;
      currServerInfo := currServerInfo.(lamport := later + 1.0);
    }

    method ReceiveOne(info: ServerInfo, now: int)
      requires Valid()
      modifies this, serverMap.Values
      ensures Valid() && View() == ReceiveEntry(old(View()), info, now)
      ensures forall o | o in serverMap.Values :: o in old(serverMap.Values) || fresh(o)
    {
      TickClock(info.lamport);
      assert View() == TickFor(old(View()), info);
      NoteOne(info, now);
    }

    /** The membership part of an entry. */
    method NoteOne(info: ServerInfo, now: int)
      requires Valid()
      modifies this`serverMap, this`heard, serverMap.Values
      ensures Valid() && View() == NoteEntry(old(View()), info, now)
      ensures forall o | o in serverMap.Values :: o in old(serverMap.Values) || fresh(o)
    {
      if info.id == currServerInfo.id {
        return;
      }
      if info.id !in serverMap {
        if !info.suspicion {
          AddServer(info, now);
        }
      } else if serverMap[info.id].heartbeat < info.heartbeat {
        AcceptHeartbeat(info.id, info.heartbeat, now);
      }
    }

    method HeartbeatNotification(list: seq<ServerInfo>, now: int)
      requires Valid()
      modifies this, serverMap.Values
      ensures Valid() && View() == ReceiveEntries(old(View()), list, now)
    {
      ghost var start := View();
      for i := 0 to |list|
        invariant Valid() && View() == ReceiveEntries(start, list[..i], now)
        invariant forall o | o in serverMap.Values :: o in old(serverMap.Values) || fresh(o)
      {
        ReceiveOne(list[i], now);
        assert list[..i + 1][..i] == list[..i];
      }
      assert list[..|list|] == list;
    }

    /** One entry of the timeout scan. */
    method CheckTimeout(sid: string, now: int)
      requires Valid() && sid in serverMap
      modifies this`serverMap, serverMap[sid]
      ensures Valid() && serverMap.Keys <= old(serverMap.Keys)
      ensures forall k | k in serverMap :: serverMap[k] == old(serverMap[k])
      ensures Others() == ScanOne(old(Others()), sid, now)
    {
      var entry := serverMap[sid];
      if ElapsedMillis(entry.timestamp, now) > GOSSIP_HEARTBEAT_TIMEOUT {
        if entry.alive {
          entry.alive := false;
          entry.suspicion := true;
          entry.timestamp := now;
        } else if entry.suspicion {
          serverMap := map k | k in serverMap && k != sid :: serverMap[k];
        }
      }
      assert Others() == ScanOne(old(Others()), sid, now);
    }

    method ScanNext(sid: string, now: int, ghost start: map<string, ServerInfo>, ghost rest: set<string>)
      requires Valid() && sid in start && sid in rest && Others() == ScanSome(start, rest, now)
      modifies this`serverMap, serverMap.Values
      ensures Valid() && Others() == ScanSome(start, rest - {sid}, now)
      ensures serverMap.Values <= old(serverMap.Values)
    {
      ScanOneMore(start, rest, sid, now);
      assert sid in Others();
      CheckTimeout(sid, now);
    }

    method ScanTimeouts(now: int)
      requires Valid()
      modifies this`serverMap, serverMap.Values
      ensures Valid() && Others() == Scan(old(View()), now).others
    {
      ghost var start := View();
      ScanStartAndEnd(start, now);
      var rest := serverMap.Keys;
      while rest != {}
        invariant Valid() && rest <= start.others.Keys && Others() == ScanSome(start.others, rest, now)
        invariant serverMap.Values <= old(serverMap.Values)
      {
        var sid :| sid in rest;
        ScanNext(sid, now, start.others, rest);
        rest := rest - {sid};
      }
    }

    method StartHeartbeat(now: int)
      requires Valid()
      modifies this`currServerInfo, this`serverMap, serverMap.Values
      ensures Valid() && View() == Scan(BeginHeartbeat(old(View())), now)
    {
      currServerInfo := currServerInfo.(heartbeat := currServerInfo.heartbeat + 1,
                                        lamport := currServerInfo.lamport + 1.0);
      assert View() == BeginHeartbeat(old(View()));
      ScanTimeouts(now);
    }

    /** The list sent with a heartbeat, and the members in the same order. */
    method Describe() returns (list: seq<ServerInfo>, members: seq<string>)
      requires Valid()
      ensures |list| == |members| + 1 && list[0] == currServerInfo && DistinctMembers(members)
      ensures forall i | 0 <= i < |members| :: members[i] in serverMap && list[i + 1] == View().others[members[i]]
      ensures forall sid | sid in serverMap :: sid in members
    {
      list, members := [currServerInfo], [];
      var rest := serverMap.Keys;
      while rest != {}
        invariant rest <= serverMap.Keys && |list| == |members| + 1 && list[0] == currServerInfo
        invariant DistinctMembers(members)
        invariant forall i | 0 <= i < |members| ::
                    members[i] in serverMap && members[i] !in rest && list[i + 1] == View().others[members[i]]
        invariant forall sid | sid in serverMap :: sid in rest || sid in members
      {
        var sid :| sid in rest;
        list := list + [serverMap[sid].Snapshot()];
        members := members + [sid];
        rest := rest - {sid};
      }
    }

    /** The reply is made before the joiner is added, so it never contains the joiner; the members with
        a live connection are told of it. */
    method JoinClusterAsServer(id: string, address: string, live: set<string>, now: int)
      returns (ok: bool, reply: seq<ServerInfo>, told: set<string>)
      requires Valid()
      modifies this`serverMap, this`heard
      ensures Valid() && View() == JoinCluster(old(View()), id, address, now)
      ensures ok <==> id in old(serverMap) || id != currServerInfo.id
      ensures Refused(old(View()), id) ==> reply == [] && told == {}
      ensures !Refused(old(View()), id) ==>
                && reply != [] && reply[0] == currServerInfo && told == old(serverMap).Keys * live
                && (forall i | 1 <= i < |reply| :: reply[i] in old(View()).others.Values)
                && (forall sid | sid in old(serverMap) :: old(View()).others[sid] in reply)
    {
      reply, told := [], {};
      if id in serverMap {
        return true, reply, told;
      }
      if currServerInfo.id == id {
        return false, reply, told;
      }
      var members;
      reply, members := Describe();
      ghost var others := View().others;
      forall i | 1 <= i < |reply| ensures reply[i] in others.Values {
        assert members[i - 1] in others && reply[i - 1 + 1] == others[members[i - 1]];
      }
      forall sid | sid in others ensures others[sid] in reply {
        var i :| 0 <= i < |members| && members[i] == sid;
        assert reply[i + 1] in reply;
      }
      told := serverMap.Keys * live;
      AddServer(Joiner(id, address, now), now);
      ok := true;
    }

    method NewServerNotification(info: ServerInfo, now: int)
      requires Valid()
      modifies this`serverMap, this`heard
      ensures Valid() && View() == NewServer(old(View()), info, now)
    {
      if info.id in serverMap {
        return;
      }
      if currServerInfo.id == info.id {
        return;
      }
      AddServer(info, now);
    }

    /** What a joiner does with each reply it gets. */
    method AdoptReply(list: seq<ServerInfo>, now: int)
      requires Valid()
      modifies this`serverMap, this`heard
      ensures Valid() && View() == AdoptEntries(old(View()), list, now)
    {
      ghost var start := View();
      for i := 0 to |list|
        invariant Valid() && View() == AdoptEntries(start, list[..i], now)
        invariant forall o | o in serverMap.Values :: o in old(serverMap.Values) || fresh(o)
      {
        assert list[..i + 1][..i] == list[..i];
        if list[i].id !in serverMap {
          AddServer(list[i], now);
        }
      }
      assert list[..|list|] == list;
    }

    method KillServerNotification(id: string)
      requires Valid()
      modifies this`serverMap
      ensures Valid() && View() == Forget(old(View()), id)
    {
      serverMap := map k | k in serverMap && k != id :: serverMap[k];
      assert Others() == old(Others()) - {id};
    }
  }

  function ScanOne(others: map<string, ServerInfo>, sid: string, now: int): map<string, ServerInfo>
    requires sid in others
  {
    var entry := ScanEntry(others[sid], now);
    if entry.Some? then others[sid := entry.value] else others - {sid}
  }

  /** The scan part way: the entries in rest have not been looked at. */
  function ScanSome(others: map<string, ServerInfo>, rest: set<string>, now: int): map<string, ServerInfo> {
    map sid | sid in others && (sid in rest || ScanEntry(others[sid], now).Some?) ::
      if sid in rest then others[sid] else ScanEntry(others[sid], now).value
  }

  lemma ScanStartAndEnd(m: Member, now: int)
    ensures ScanSome(m.others, m.others.Keys, now) == m.others
    ensures ScanSome(m.others, {}, now) == Scan(m, now).others
  {
  }

  lemma ScanOneMore(others: map<string, ServerInfo>, rest: set<string>, sid: string, now: int)
    requires sid in others && sid in rest
    ensures sid in ScanSome(others, rest, now)
    ensures ScanSome(others, rest - {sid}, now) == ScanOne(ScanSome(others, rest, now), sid, now)
  {
  }
}
