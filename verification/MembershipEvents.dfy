/**
 What each event of a run does to membership lists and messages, told from the states before and after it.
 */
module MembershipEvents {
  import opened Lamport
  import opened Membership
  import opened Gossip

  /** No server but id changes. */
  ghost predicate OthersKept(c: Cluster, c': Cluster, id: string) {
    && id in c.members && c'.members.Keys == c.members.Keys
    && forall j | j in c.members && j != id :: c'.members[j] == c.members[j]
  }

  /** id lists the same servers, with the same entries, but for sid. */
  ghost predicate EntriesKept(c: Cluster, c': Cluster, id: string, sid: string)
    requires id in c.members && id in c'.members
  {
    forall k | k != sid :: Lists(c', id, k) == Lists(c, id, k)
                           && (Lists(c, id, k) ==> c'.members[id].others[k] == c.members[id].others[k])
  }

  lemma SentExactly(c: Cluster, c': Cluster, extra: set<Message>)
    requires c.sent <= c'.sent && c'.sent - c.sent == extra - c.sent
    ensures c'.sent == c.sent + extra
  {
    assert c'.sent == c.sent + (c'.sent - c.sent);
  }

  ghost predicate EventAt(cs: seq<Cluster>, es: seq<Event>, i: nat) {
    IsRun(cs, es) && i < |es|
  }

  /** A server starts with counter one, a clock of one plus its fraction and nobody on its list. */
  lemma ServerStarts(cs: seq<Cluster>, es: seq<Event>, i: nat)
    requires EventAt(cs, es, i) && es[i].Start?
    ensures var id := es[i].id;
      && id !in cs[i].members && cs[i + 1].members.Keys == cs[i].members.Keys + {id}
      && (forall j | j in cs[i].members :: cs[i + 1].members[j] == cs[i].members[j])
      && cs[i + 1].members[id].others == map[]
      && cs[i + 1].members[id].self == ServerInfo(id, es[i].address, 1, es[i].now, true, false, 1.0 + IdOffset(id))
    ensures cs[i + 1].sent == cs[i].sent
  {
    assert NextAt(cs, es, i);
    SentExactly(cs[i], cs[i + 1], {});
  }

  lemma SoundMember(cs: seq<Cluster>, es: seq<Event>, i: nat, id: string)
    requires IsRun(cs, es) && i <= |es| && id in cs[i].members
    ensures cs[i].members[id].self.id == id && id !in cs[i].members[id].others
    ensures forall sid | sid in cs[i].members[id].others ::
              cs[i].members[id].others[sid].alive == !cs[i].members[id].others[sid].suspicion
  {
    SoundInvariant(cs, es, i);
    assert MemberSound(cs[i].members, id, cs[i].members[id]);
  }

  /** The entry a server gets when it asks to join. */
  function JoinEntry(c: Cluster, id: string, now: int): ServerInfo
    requires id in c.members
  {
    ServerInfo(id, c.members[id].self.address, 1, now, true, false, 0.0)
  }

  /** A server that is asked to join enters the joiner, alive and with counter one, unless it lists it
      already; nothing else changes on its list. */
  lemma JoinAsked(cs: seq<Cluster>, es: seq<Event>, i: nat)
    requires EventAt(cs, es, i) && es[i].Join?
    ensures OthersKept(cs[i], cs[i + 1], es[i].at) && es[i].id in cs[i].members
    ensures var m, m' := cs[i].members[es[i].at], cs[i + 1].members[es[i].at];
      if es[i].id in m.others then m' == m
      else m'.self == m.self && m'.others == m.others[es[i].id := JoinEntry(cs[i], es[i].id, es[i].now)]
  {
    assert NextAt(cs, es, i);
    SoundMember(cs, es, i, es[i].at);
  }

  /** The messages it may send tell the joiner of itself and the servers it listed before, and them of the
      joiner; if it lists the joiner already it replies with nothing. */
  lemma JoinAnswered(cs: seq<Cluster>, es: seq<Event>, i: nat, msg: Message)
    requires EventAt(cs, es, i) && es[i].Join? && msg in cs[i + 1].sent - cs[i].sent
    ensures es[i].id in cs[i].members && es[i].at in cs[i].members
    ensures var m := cs[i].members[es[i].at];
      if es[i].id in m.others then msg == JoinReply(es[i].id, [])
      else if msg.JoinReply? then
        msg.dest == es[i].id && forall info | info in msg.list :: info == m.self || info in m.others.Values
      else
        msg.Notice? && msg.dest in m.others && msg.info == JoinEntry(cs[i], es[i].id, es[i].now)
  {
    assert NextAt(cs, es, i);
    SoundMember(cs, es, i, es[i].at);
  }

  /** With a heartbeat the own counter and clock rise by one. An entry that has been silent for more than
      1000 whole milliseconds is suspected with a fresh timestamp if it was alive, and deleted if it was
      suspected; any other stays as it is. */
  lemma HeartbeatSent(cs: seq<Cluster>, es: seq<Event>, i: nat)
    requires EventAt(cs, es, i) && es[i].SendHeartbeat?
    ensures OthersKept(cs[i], cs[i + 1], es[i].id)
    ensures var m, m' := cs[i].members[es[i].id], cs[i + 1].members[es[i].id];
      m'.self == m.self.(heartbeat := m.self.heartbeat + 1, lamport := m.self.lamport + 1.0)
    ensures forall sid ::
              var m, m', now := cs[i].members[es[i].id], cs[i + 1].members[es[i].id], es[i].now;
              if sid !in m.others then sid !in m'.others
              else if now - m.others[sid].timestamp < 1_001_000_000 then
                sid in m'.others && m'.others[sid] == m.others[sid]
              else if m.others[sid].alive then
                && sid in m'.others
                && m'.others[sid] == m.others[sid].(alive := false, suspicion := true, timestamp := now)
              else sid !in m'.others
    ensures cs[i + 1].sent == cs[i].sent + set d | d in es[i].dests :: Heartbeat(d, es[i].list)
  {
    assert NextAt(cs, es, i);
    SentExactly(cs[i], cs[i + 1], set d | d in es[i].dests :: Heartbeat(d, es[i].list));
    SoundMember(cs, es, i, es[i].id);
    var m, now := cs[i].members[es[i].id], es[i].now;
    forall sid | sid in m.others
      ensures sid !in Scan(m, now).others <==> m.others[sid].suspicion && now - m.others[sid].timestamp >= 1_001_000_000
      ensures sid in Scan(m, now).others ==>
                Scan(m, now).others[sid]
                == if m.others[sid].alive && now - m.others[sid].timestamp >= 1_001_000_000
                   then m.others[sid].(alive := false, suspicion := true, timestamp := now) else m.others[sid]
    {
      ElapsedExact(m.others[sid].timestamp, now);
    }
  }

  ghost predicate ArrivesAt(cs: seq<Cluster>, es: seq<Event>, i: nat) {
    EventAt(cs, es, i) && es[i].Arrive?
  }

  /** A notice makes its receiver list the server it is about, with the local time, unless it lists it
      already or is that server itself. Nothing else changes. */
  lemma NoticeArrives(cs: seq<Cluster>, es: seq<Event>, i: nat)
    requires ArrivesAt(cs, es, i) && es[i].message.Notice?
    ensures var id, info := es[i].message.dest, es[i].message.info;
      && OthersKept(cs[i], cs[i + 1], id) && EntriesKept(cs[i], cs[i + 1], id, info.id)
      && cs[i + 1].members[id].self == cs[i].members[id].self
      && if info.id == id then !Lists(cs[i + 1], id, id)
         else
           && Lists(cs[i + 1], id, info.id)
           && cs[i + 1].members[id].others[info.id]
              == if Lists(cs[i], id, info.id) then cs[i].members[id].others[info.id] else info.(timestamp := es[i].now)
    ensures cs[i + 1].sent == cs[i].sent
  {
    assert NextAt(cs, es, i);
    SentExactly(cs[i], cs[i + 1], {});
    SoundMember(cs, es, i, es[i].message.dest);
  }

  /** A farewell removes the server it is about and nothing else. */
  lemma FarewellArrives(cs: seq<Cluster>, es: seq<Event>, i: nat)
    requires ArrivesAt(cs, es, i) && es[i].message.Farewell?
    ensures var id, gone := es[i].message.dest, es[i].message.id;
      && OthersKept(cs[i], cs[i + 1], id) && EntriesKept(cs[i], cs[i + 1], id, gone)
      && cs[i + 1].members[id].self == cs[i].members[id].self && !Lists(cs[i + 1], id, gone)
    ensures cs[i + 1].sent == cs[i].sent
  {
    assert NextAt(cs, es, i);
    SentExactly(cs[i], cs[i + 1], {});
  }

  /** A joiner lists every server in a reply: one it knew as before, any other with the reply's first entry
      for it, suspected or not, and the local time. */
  lemma ReplyArrives(cs: seq<Cluster>, es: seq<Event>, i: nat, sid: string)
    requires ArrivesAt(cs, es, i) && es[i].message.JoinReply?
    ensures var id, list := es[i].message.dest, es[i].message.list;
      && OthersKept(cs[i], cs[i + 1], id) && cs[i + 1].members[id].self == cs[i].members[id].self
      && (Lists(cs[i + 1], id, sid) <==> Lists(cs[i], id, sid) || exists k :: FirstFor(list, k, sid))
      && (Lists(cs[i], id, sid) ==> cs[i + 1].members[id].others[sid] == cs[i].members[id].others[sid])
      && (!Lists(cs[i], id, sid) && Lists(cs[i + 1], id, sid) ==>
            exists k :: FirstFor(list, k, sid) && cs[i + 1].members[id].others[sid] == list[k].(timestamp := es[i].now))
    ensures cs[i + 1].sent == cs[i].sent
  {
    assert NextAt(cs, es, i);
    SentExactly(cs[i], cs[i + 1], {});
    AdoptedEntry(cs[i].members[es[i].message.dest], es[i].message.list, es[i].now, sid);
  }

  /** The clocks a heartbeat lists. */
  function Clocks(list: seq<ServerInfo>): seq<real> {
    seq(|list|, i requires 0 <= i < |list| => list[i].lamport)
  }

  /** A heartbeat moves its receiver's clock to the greatest of where it would be by ticking once for each
      entry, and where each listed clock would bring it. Nothing else of its own entry changes. */
  lemma HeartbeatMovesClock(cs: seq<Cluster>, es: seq<Event>, i: nat)
    requires ArrivesAt(cs, es, i) && es[i].message.Heartbeat?
    ensures OthersKept(cs[i], cs[i + 1], es[i].message.dest) && cs[i + 1].sent == cs[i].sent
    ensures var id, clocks := es[i].message.dest, Clocks(es[i].message.list);
      var before, after, n := cs[i].members[id].self, cs[i + 1].members[id].self, |clocks| as real;
      && after == before.(lamport := after.lamport)
      && after.lamport >= before.lamport + n
      && (forall k | 0 <= k < |clocks| :: after.lamport >= BroughtTo(id, clocks, k))
      && (after.lamport == before.lamport + n
          || exists k :: 0 <= k < |clocks| && after.lamport == BroughtTo(id, clocks, k))
  {
    assert NextAt(cs, es, i);
    SentExactly(cs[i], cs[i + 1], {});
    var id, list := es[i].message.dest, es[i].message.list;
    SoundMember(cs, es, i, id);
    HeartbeatClock(cs[i].members[id], list, es[i].now);
    assert Clocks(list) == seq(|list|, j requires 0 <= j < |list| => list[j].lamport);
    ReceiveClosedForm(cs[i].members[id].self.lamport, id, Clocks(list));
  }

  /** For a server the receiver lists, a heartbeat raises the counter to the highest one it carries for it.
      If that is a rise, the entry is alive again with the local time, and else it stays as it is. */
  lemma HeartbeatMeetsKnown(cs: seq<Cluster>, es: seq<Event>, i: nat, sid: string)
    requires ArrivesAt(cs, es, i) && es[i].message.Heartbeat? && Lists(cs[i], es[i].message.dest, sid)
    ensures Lists(cs[i + 1], es[i].message.dest, sid)
    ensures var before := cs[i].members[es[i].message.dest].others[sid];
      var after, list := cs[i + 1].members[es[i].message.dest].others[sid], es[i].message.list;
      && (forall info | info in list && info.id == sid :: info.heartbeat <= after.heartbeat)
      && (after == before
          || (&& after == before.(heartbeat := after.heartbeat, timestamp := es[i].now,
                                  alive := true, suspicion := false)
              && before.heartbeat < after.heartbeat
              && exists info :: info in list && info.id == sid && info.heartbeat == after.heartbeat))
  {
    assert NextAt(cs, es, i);
    SoundMember(cs, es, i, es[i].message.dest);
    var m := cs[i].members[es[i].message.dest];
    HighestCounterKept(m, es[i].message.list, es[i].now, sid);
    RisenIsAlive(m, es[i].message.list, es[i].now, sid);
  }

  /** Any other server is listed afterwards exactly if the heartbeat has an entry for it that is not under
      suspicion and it is not the receiver: with the first such entry, the local time and the highest
      counter from there on. */
  lemma HeartbeatMeetsUnknown(cs: seq<Cluster>, es: seq<Event>, i: nat, sid: string)
    requires ArrivesAt(cs, es, i) && es[i].message.Heartbeat?
    requires es[i].message.dest in cs[i].members && !Lists(cs[i], es[i].message.dest, sid)
    ensures var id, list := es[i].message.dest, es[i].message.list;
      && (Lists(cs[i + 1], id, sid)
          <==> sid != id && exists info :: info in list && info.id == sid && !info.suspicion)
      && (Lists(cs[i + 1], id, sid) ==>
            exists k :: FirstSeen(list, k, sid) && Entered(list, k, cs[i + 1].members[id].others[sid], es[i].now))
  {
    assert NextAt(cs, es, i);
    SoundInvariant(cs, es, i);
    var m, list := cs[i].members[es[i].message.dest], es[i].message.list;
    assert MemberSound(cs[i].members, es[i].message.dest, m) && MessageSound(cs[i].members, es[i].message);
    AdmitsOnlyUnsuspected(m, list, es[i].now, sid);
    if Lists(cs[i + 1], es[i].message.dest, sid) {
      var k := AdmittedEntry(m, list, es[i].now, sid);
      assert Entered(list, k, cs[i + 1].members[es[i].message.dest].others[sid], es[i].now);
    }
  }

  /** An announcement to a server that was cut off, and a farewell, change nobody's list when they are sent. */
  lemma OnlySends(cs: seq<Cluster>, es: seq<Event>, i: nat)
    requires EventAt(cs, es, i) && (es[i].Reconnect? || es[i].Leave?)
    ensures es[i].id in cs[i].members && cs[i + 1].members == cs[i].members
    ensures es[i].Reconnect? ==> cs[i + 1].sent == cs[i].sent + {Notice(es[i].dest, cs[i].members[es[i].id].self)}
    ensures es[i].Leave? ==> forall msg | msg in cs[i + 1].sent - cs[i].sent :: msg.Farewell? && msg.id == es[i].id
  {
    assert NextAt(cs, es, i);
    if es[i].Reconnect? {
      SentExactly(cs[i], cs[i + 1], {Notice(es[i].dest, cs[i].members[es[i].id].self)});
    }
  }

  /******* Own counters *******/

  function Beats(es: seq<Event>, id: string): nat {
    if es == [] then 0
    else
      var e := es[|es| - 1];
      Beats(es[..|es| - 1], id) + if e.SendHeartbeat? && e.id == id then 1 else 0
  }

  lemma CounterAfter(cs: seq<Cluster>, es: seq<Event>, i: nat, id: string)
    requires EventAt(cs, es, i) && id in cs[i].members
    ensures id in cs[i + 1].members
    ensures cs[i + 1].members[id].self.heartbeat
            == cs[i].members[id].self.heartbeat + if es[i].SendHeartbeat? && es[i].id == id then 1 else 0
  {
    assert NextAt(cs, es, i);
    if es[i].Arrive? && es[i].message.dest == id {
      ReceiveKeepsSelf(cs[i].members[id], es[i].message, es[i].now);
    }
  }

  /** In every run a server's own counter is one more than the heartbeats it has begun. */
  lemma {:induction false} OwnCounterExact(cs: seq<Cluster>, es: seq<Event>, n: nat, id: string)
    requires IsRun(cs, es) && n <= |es|
    ensures id in cs[n].members ==> cs[n].members[id].self.heartbeat == 1 + Beats(es[..n], id)
    ensures id !in cs[n].members ==> Beats(es[..n], id) == 0
  {
    if n > 0 {
      OwnCounterExact(cs, es, n - 1, id);
      assert NextAt(cs, es, n - 1);
      assert es[..n][..n - 1] == es[..n - 1];
      if id in cs[n - 1].members {
        CounterAfter(cs, es, n - 1, id);
      } else if es[n - 1].Start? && es[n - 1].id == id {
        ServerStarts(cs, es, n - 1);
      }
    }
  }
}
