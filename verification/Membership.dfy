/**
 One server's view of the cluster as a value, and what each membership handler does to it.
 Times are local clock readings in nanoseconds.
 */
module Membership {
  import opened Lamport

  datatype ServerInfo = ServerInfo(
    id: string, address: string, heartbeat: int, timestamp: int, alive: bool, suspicion: bool, lamport: real)

  /** When a server last admitted an entry or accepted a higher heartbeat for it, and whether the entry
      was admitted already suspected. */
  datatype Heard = Heard(time: int, inherited: bool)

  /** heard is history, read by no handler. */
  datatype Member = Member(self: ServerInfo, others: map<string, ServerInfo>, heard: map<string, Heard>)

  const GOSSIP_HEARTBEAT_TIMEOUT := 1000
  const NANOS_PER_MILLI := 1_000_000

  function Starting(id: string, address: string, now: int): Member
    requires Atoi(id).Some?
  {
    Member(ServerInfo(id, address, 1, now, true, false, GetLamportTimestampFromSeqnum(1, id).value), map[], map[])
  }

  function Admit(m: Member, info: ServerInfo, now: int): Member {
    m.(others := m.others[info.id := info.(timestamp := now)],
       heard := m.heard[info.id := Heard(now, !info.alive)])
  }

  /******* HeartbeatNotification *******/

  /** A higher heartbeat lifts suspicion. */
  function Accepted(known: ServerInfo, heartbeat: int, now: int): ServerInfo {
    known.(heartbeat := heartbeat, timestamp := now, alive := known.alive || known.suspicion, suspicion := false)
  }

  function Accept(m: Member, sid: string, heartbeat: int, now: int): Member
    requires sid in m.others
  {
    m.(others := m.others[sid := Accepted(m.others[sid], heartbeat, now)],
       heard := m.heard[sid := Heard(now, false)])
  }

  function TickFor(m: Member, info: ServerInfo): Member {
    m.(self := m.self.(lamport := ReceiveClock(m.self.lamport, m.self.id, info.lamport)))
  }

  function NoteEntry(m: Member, info: ServerInfo, now: int): Member {
    if info.id == m.self.id then m
    else if info.id !in m.others then
      if info.suspicion then m else Admit(m, info, now)
    else if m.others[info.id].heartbeat >= info.heartbeat then m
    else Accept(m, info.id, info.heartbeat, now)
  }

  function ReceiveEntry(m: Member, info: ServerInfo, now: int): Member {
    NoteEntry(TickFor(m, info), info, now)
  }

  function ReceiveEntries(m: Member, list: seq<ServerInfo>, now: int): Member {
    if list == [] then m else ReceiveEntry(ReceiveEntries(m, list[..|list| - 1], now), list[|list| - 1], now)
  }

  /******* The heartbeat loop *******/

  function BeginHeartbeat(m: Member): Member {
    m.(self := m.self.(heartbeat := m.self.heartbeat + 1, lamport := m.self.lamport + 1.0))
  }

  /** Integer division truncates. */
  function ElapsedMillis(since: int, now: int): int {
    if now >= since then (now - since) / NANOS_PER_MILLI else -((since - now) / NANOS_PER_MILLI)
  }

  predicate TimedOut(info: ServerInfo, now: int) {
    ElapsedMillis(info.timestamp, now) > GOSSIP_HEARTBEAT_TIMEOUT
  }

  /** First silence: suspect and start waiting again. Second: delete. */
  function ScanEntry(info: ServerInfo, now: int): Option<ServerInfo> {
    if !TimedOut(info, now) then Some(info)
    else if info.alive then Some(info.(alive := false, suspicion := true, timestamp := now))
    else if info.suspicion then None
    else Some(info)
  }

  function Scan(m: Member, now: int): Member {
    m.(others := map sid | sid in m.others && ScanEntry(m.others[sid], now).Some? ::
                   ScanEntry(m.others[sid], now).value)
  }

  /******* Joining and leaving *******/

  /** The entry a joiner gets. The clock field is left at its default. */
  function Joiner(id: string, address: string, now: int): ServerInfo {
    ServerInfo(id, address, 1, now, true, false, 0.0)
  }

  predicate Refused(m: Member, id: string) {
    id in m.others || id == m.self.id
  }

  function JoinCluster(m: Member, id: string, address: string, now: int): Member {
    if Refused(m, id) then m else Admit(m, Joiner(id, address, now), now)
  }

  function NewServer(m: Member, info: ServerInfo, now: int): Member {
    if Refused(m, info.id) then m else Admit(m, info, now)
  }

  /** The join loop has no guard against the server's own id. */
  function AdoptEntry(m: Member, info: ServerInfo, now: int): Member {
    if info.id in m.others then m else Admit(m, info, now)
  }

  function AdoptEntries(m: Member, list: seq<ServerInfo>, now: int): Member {
    if list == [] then m else AdoptEntry(AdoptEntries(m, list[..|list| - 1], now), list[|list| - 1], now)
  }

  function Forget(m: Member, id: string): Member {
    m.(others := m.others - {id})
  }

  /******* Properties of single handlers *******/

  /** The clock after a heartbeat is the receive rule over the clocks in the list. */
  lemma {:induction false} HeartbeatClock(m: Member, list: seq<ServerInfo>, now: int)
    ensures ReceiveEntries(m, list, now).self ==
            m.self.(lamport := ReceiveClocks(m.self.lamport, m.self.id,
                                             seq(|list|, i requires 0 <= i < |list| => list[i].lamport)))
  {
    var clocks := seq(|list|, i requires 0 <= i < |list| => list[i].lamport);
    if list != [] {
      var front := list[..|list| - 1];
      var before := seq(|front|, i requires 0 <= i < |front| => front[i].lamport);
      HeartbeatClock(m, front, now);
      assert clocks == before + [list[|list| - 1].lamport];
      ReceiveClocksSnoc(m.self.lamport, m.self.id, before, list[|list| - 1].lamport);
    }
  }

  /** After a heartbeat the receiver's clock is above every clock in the list, less its shortfall if its
      id is negative, and has advanced by at least the list's length. */
  lemma HeartbeatReceiveRule(m: Member, list: seq<ServerInfo>, now: int)
    ensures ReceiveEntries(m, list, now).self.lamport >= m.self.lamport + |list| as real
    ensures forall info | info in list ::
              ReceiveEntries(m, list, now).self.lamport > info.lamport - Shortfall(m.self.id)
  {
    var clocks := seq(|list|, i requires 0 <= i < |list| => list[i].lamport);
    HeartbeatClock(m, list, now);
    ReceiveRule(m.self.lamport, m.self.id, clocks);
    forall info | info in list
      ensures ReceiveEntries(m, list, now).self.lamport > info.lamport - Shortfall(m.self.id)
    {
      var i :| 0 <= i < |list| && list[i] == info;
      assert clocks[i] == info.lamport;
    }
  }

  lemma ReceiveEntryAdmits(m: Member, info: ServerInfo, now: int, sid: string)
    ensures ReceiveEntry(m, info, now).self.id == m.self.id
    ensures sid in ReceiveEntry(m, info, now).others
            <==> sid in m.others || (info.id == sid && sid != m.self.id && !info.suspicion)
  {
  }

  lemma {:induction false} ReceiveKeepsId(m: Member, list: seq<ServerInfo>, now: int)
    ensures ReceiveEntries(m, list, now).self.id == m.self.id
  {
    if list != [] {
      ReceiveKeepsId(m, list[..|list| - 1], now);
      ReceiveEntryAdmits(ReceiveEntries(m, list[..|list| - 1], now), list[|list| - 1], now, m.self.id);
    }
  }

  /** What one entry does to a known server's record. */
  lemma ReceiveEntryAt(m: Member, info: ServerInfo, now: int, sid: string)
    requires sid in m.others && sid != m.self.id
    ensures ReceiveEntry(m, info, now).self.id == m.self.id && sid in ReceiveEntry(m, info, now).others
    ensures ReceiveEntry(m, info, now).others[sid]
            == if info.id == sid && m.others[sid].heartbeat < info.heartbeat
               then Accepted(m.others[sid], info.heartbeat, now) else m.others[sid]
  {
  }

  /** For a known server a heartbeat leaves the highest counter among the recorded one and the list's. */
  lemma {:induction false} HighestCounterKept(m: Member, list: seq<ServerInfo>, now: int, sid: string)
    requires sid in m.others && sid != m.self.id
    ensures var after := ReceiveEntries(m, list, now);
      && sid in after.others && after.self.id == m.self.id
      && m.others[sid].heartbeat <= after.others[sid].heartbeat
      && (forall info | info in list && info.id == sid :: info.heartbeat <= after.others[sid].heartbeat)
      && (after.others[sid].heartbeat == m.others[sid].heartbeat
          || exists info :: info in list && info.id == sid && info.heartbeat == after.others[sid].heartbeat)
  {
    if list != [] {
      var front, last := list[..|list| - 1], list[|list| - 1];
      HighestCounterKept(m, front, now, sid);
      ReceiveEntryAt(ReceiveEntries(m, front, now), last, now, sid);
      assert list == front + [last];
    }
  }

  /** The entry of a known server is untouched by a heartbeat unless its counter rises, and then it is
      alive, unsuspected and stamped with the local time, whatever it was before. */
  lemma {:induction false} RisenIsAlive(m: Member, list: seq<ServerInfo>, now: int, sid: string)
    requires sid in m.others && sid != m.self.id && m.others[sid].alive == !m.others[sid].suspicion
    ensures var before, after := m.others[sid], ReceiveEntries(m, list, now).others;
      && sid in after
      && if after[sid].heartbeat == before.heartbeat then after[sid] == before
         else after[sid] == before.(heartbeat := after[sid].heartbeat, timestamp := now,
                                    alive := true, suspicion := false)
  {
    if list != [] {
      var front := list[..|list| - 1];
      RisenIsAlive(m, front, now, sid);
      HighestCounterKept(m, front, now, sid);
      ReceiveEntryAt(ReceiveEntries(m, front, now), list[|list| - 1], now, sid);
    }
  }

  /** A heartbeat that carries a higher counter for a suspected server clears it. */
  lemma HeartbeatRevives(m: Member, list: seq<ServerInfo>, now: int, info: ServerInfo)
    requires info in list && info.id in m.others && info.id != m.self.id
    requires m.others[info.id].alive == !m.others[info.id].suspicion
    requires m.others[info.id].heartbeat < info.heartbeat
    ensures var after := ReceiveEntries(m, list, now).others;
      && info.id in after && after[info.id].heartbeat >= info.heartbeat
      && after[info.id].alive && !after[info.id].suspicion && after[info.id].timestamp == now
  {
    HighestCounterKept(m, list, now, info.id);
    RisenIsAlive(m, list, now, info.id);
  }

  lemma {:induction false} AdoptKeepsKnown(m: Member, list: seq<ServerInfo>, now: int, sid: string)
    requires sid in m.others
    ensures sid in AdoptEntries(m, list, now).others && AdoptEntries(m, list, now).others[sid] == m.others[sid]
  {
    if list != [] {
      AdoptKeepsKnown(m, list[..|list| - 1], now, sid);
    }
  }

  /** An entry's timestamp is as it was, or the handler's reading of the clock. */
  ghost predicate Stamped(m: Member, m': Member, now: int) {
    forall sid | sid in m'.others ::
      m'.others[sid].timestamp == now || (sid in m.others && m'.others[sid].timestamp == m.others[sid].timestamp)
  }

  lemma {:induction false} EntriesStamped(m: Member, list: seq<ServerInfo>, now: int)
    ensures Stamped(m, ReceiveEntries(m, list, now), now) && Stamped(m, AdoptEntries(m, list, now), now)
  {
    if list != [] {
      EntriesStamped(m, list[..|list| - 1], now);
    }
  }

  /** A heartbeat brings in a new server only on an entry that is not suspected, and never the receiver. */
  lemma {:induction false} AdmitsOnlyUnsuspected(m: Member, list: seq<ServerInfo>, now: int, sid: string)
    requires sid !in m.others
    ensures sid in ReceiveEntries(m, list, now).others
            <==> sid != m.self.id && exists info :: info in list && info.id == sid && !info.suspicion
  {
    if list != [] {
      var front, last := list[..|list| - 1], list[|list| - 1];
      ReceiveKeepsId(m, front, now);
      AdmitsOnlyUnsuspected(m, front, now, sid);
      ReceiveEntryAdmits(ReceiveEntries(m, front, now), last, now, sid);
      assert list == front + [last];
    }
  }

  /** The k-th entry is the first for sid that is not under suspicion. */
  ghost predicate FirstSeen(list: seq<ServerInfo>, k: int, sid: string) {
    && 0 <= k < |list| && list[k].id == sid && !list[k].suspicion
    && forall j | 0 <= j < k && list[j].id == sid :: list[j].suspicion
  }

  ghost predicate Carries(list: seq<ServerInfo>, k: int, sid: string, heartbeat: int) {
    exists j :: k <= j < |list| && 0 <= j && list[j].id == sid && list[j].heartbeat == heartbeat
  }

  /** entry is the k-th, but for the time and the highest counter from there on. */
  ghost predicate Entered(list: seq<ServerInfo>, k: int, entry: ServerInfo, now: int)
    requires 0 <= k < |list|
  {
    && entry == list[k].(heartbeat := entry.heartbeat, timestamp := now)
    && (forall j | k <= j < |list| && list[j].id == entry.id :: list[j].heartbeat <= entry.heartbeat)
    && Carries(list, k, entry.id, entry.heartbeat)
  }

  lemma EnteredMore(front: seq<ServerInfo>, last: ServerInfo, k: int, entry: ServerInfo, now: int)
    requires 0 <= k < |front| && Entered(front, k, entry, now) && entry.alive && !entry.suspicion
    ensures var entry' := if last.id == entry.id && entry.heartbeat < last.heartbeat
                          then Accepted(entry, last.heartbeat, now) else entry;
      Entered(front + [last], k, entry', now)
  {
    var list := front + [last];
    var j :| k <= j < |front| && 0 <= j && front[j].id == entry.id && front[j].heartbeat == entry.heartbeat;
    assert list[j] == front[j] && list[|front|] == last;
    assert list[k] == front[k];
  }

  lemma FirstSeenMore(front: seq<ServerInfo>, last: ServerInfo, k: int, sid: string)
    requires FirstSeen(front, k, sid)
    ensures FirstSeen(front + [last], k, sid)
  {
  }

  /** The entry a heartbeat brings in: the first unsuspected one for that server, with the local time and
      the highest counter from there on. */
  lemma {:induction false} AdmittedEntry(m: Member, list: seq<ServerInfo>, now: int, sid: string) returns (k: nat)
    requires sid !in m.others && forall info | info in list :: info.alive == !info.suspicion
    requires sid in ReceiveEntries(m, list, now).others
    ensures FirstSeen(list, k, sid) && Entered(list, k, ReceiveEntries(m, list, now).others[sid], now)
  {
    var n := |list| - 1;
    var front, last := list[..n], list[n];
    var before := ReceiveEntries(m, front, now);
    assert list == front + [last];
    ReceiveKeepsId(m, front, now);
    AdmitsOnlyUnsuspected(m, list, now, sid);
    if sid in before.others {
      k := AdmittedEntry(m, front, now, sid);
      ReceiveEntryAt(before, last, now, sid);
      FirstSeenMore(front, last, k, sid);
      EnteredMore(front, last, k, before.others[sid], now);
    } else {
      AdmitsOnlyUnsuspected(m, front, now, sid);
      k := n;
      AdmittedLast(m, before, front, last, now, sid);
    }
  }

  lemma AdmittedLast(m: Member, before: Member, front: seq<ServerInfo>, last: ServerInfo, now: int, sid: string)
    requires sid !in before.others && sid in ReceiveEntry(before, last, now).others
    requires forall info | info in front && info.id == sid :: info.suspicion
    ensures FirstSeen(front + [last], |front|, sid)
    ensures Entered(front + [last], |front|, ReceiveEntry(before, last, now).others[sid], now)
  {
    var list := front + [last];
    assert list[|front|] == last;
    forall j | 0 <= j < |front| && list[j].id == sid ensures list[j].suspicion {
      assert list[j] in front;
    }
  }

  ghost predicate FirstFor(list: seq<ServerInfo>, k: int, sid: string) {
    0 <= k < |list| && list[k].id == sid && forall j | 0 <= j < k :: list[j].id != sid
  }

  lemma FirstForMore(front: seq<ServerInfo>, last: ServerInfo, sid: string)
    ensures forall k | FirstFor(front, k, sid) :: FirstFor(front + [last], k, sid) && (front + [last])[k] == front[k]
    ensures (forall k :: !FirstFor(front, k, sid)) && last.id == sid ==> FirstFor(front + [last], |front|, sid)
    ensures (forall k :: !FirstFor(front, k, sid)) && last.id != sid ==> forall k :: !FirstFor(front + [last], k, sid)
  {
    if forall k :: !FirstFor(front, k, sid) {
      NoneFor(front, sid);
    }
  }

  lemma {:induction false} NoneFor(list: seq<ServerInfo>, sid: string)
    requires forall k :: !FirstFor(list, k, sid)
    ensures forall j | 0 <= j < |list| :: list[j].id != sid
  {
    if j :| 0 <= j < |list| && list[j].id == sid {
      var k := LeastFor(list, sid, j);
    }
  }

  lemma {:induction false} LeastFor(list: seq<ServerInfo>, sid: string, j: nat) returns (k: nat)
    requires j < |list| && list[j].id == sid
    ensures FirstFor(list, k, sid)
    decreases j
  {
    if i :| 0 <= i < j && list[i].id == sid { k := LeastFor(list, sid, i); } else { k := j; }
  }

  /** What a joiner takes over from a reply: for a server it does not know, the first entry, suspected or
      not, with the local time; nothing else changes. */
  lemma {:induction false} AdoptedEntry(m: Member, list: seq<ServerInfo>, now: int, sid: string)
    ensures AdoptEntries(m, list, now).self == m.self
    ensures sid in AdoptEntries(m, list, now).others <==> sid in m.others || exists k :: FirstFor(list, k, sid)
    ensures sid in m.others ==> AdoptEntries(m, list, now).others[sid] == m.others[sid]
    ensures sid !in m.others && sid in AdoptEntries(m, list, now).others ==>
              exists k :: FirstFor(list, k, sid) && AdoptEntries(m, list, now).others[sid] == list[k].(timestamp := now)
  {
    if list != [] {
      var n := |list| - 1;
      var front, last := list[..n], list[n];
      assert list == front + [last];
      AdoptedEntry(m, front, now, sid);
      FirstForMore(front, last, sid);
    }
  }

  /** A recorded counter does not fall while its entry stays, and heard is the time at which the entry
      appeared or its counter last rose. */
  ghost predicate EntryFollows(m: Member, m': Member, now: int, sid: string) {
    sid in m'.others ==>
      if sid in m.others && m.others[sid].heartbeat == m'.others[sid].heartbeat
      then sid in m.heard ==> sid in m'.heard && m'.heard[sid] == m.heard[sid]
      else
        && sid in m'.heard && m'.heard[sid].time == now
        && (sid in m.others ==> m.others[sid].heartbeat < m'.others[sid].heartbeat && !m'.heard[sid].inherited)
  }

  ghost predicate Follows(m: Member, m': Member, now: int) {
    m.self.heartbeat <= m'.self.heartbeat && forall sid :: EntryFollows(m, m', now, sid)
  }

  /** As above for handlers that delete nothing. */
  ghost predicate Extends(m: Member, m': Member, now: int) {
    Follows(m, m', now) && m.others.Keys <= m'.others.Keys
  }

  lemma ExtendsTransitive(a: Member, b: Member, c: Member, now: int)
    requires Extends(a, b, now) && Extends(b, c, now)
    ensures Extends(a, c, now)
  {
    forall sid ensures EntryFollows(a, c, now, sid) {
      assert EntryFollows(a, b, now, sid) && EntryFollows(b, c, now, sid);
    }
  }

  lemma EntryExtends(m: Member, info: ServerInfo, now: int)
    ensures Extends(m, ReceiveEntry(m, info, now), now) && Extends(m, AdoptEntry(m, info, now), now)
  {
  }

  lemma {:induction false} ReceiveEntriesExtends(m: Member, list: seq<ServerInfo>, now: int)
    ensures Extends(m, ReceiveEntries(m, list, now), now)
  {
    if list != [] {
      var before := ReceiveEntries(m, list[..|list| - 1], now);
      ReceiveEntriesExtends(m, list[..|list| - 1], now);
      EntryExtends(before, list[|list| - 1], now);
      ExtendsTransitive(m, before, ReceiveEntries(m, list, now), now);
    }
  }

  lemma {:induction false} AdoptEntriesExtends(m: Member, list: seq<ServerInfo>, now: int)
    ensures Extends(m, AdoptEntries(m, list, now), now)
  {
    if list != [] {
      var before := AdoptEntries(m, list[..|list| - 1], now);
      AdoptEntriesExtends(m, list[..|list| - 1], now);
      EntryExtends(before, list[|list| - 1], now);
      ExtendsTransitive(m, before, AdoptEntries(m, list, now), now);
    }
  }

  /******* The failure detector *******/

  const TIMEOUT_NANOS := GOSSIP_HEARTBEAT_TIMEOUT * NANOS_PER_MILLI

  /** An alive entry's timestamp is when it was last heard; a suspected one that was ever heard alive
      was silent for a whole timeout before its timestamp. */
  ghost predicate EntryWatched(info: ServerInfo, heard: Heard) {
    && info.alive == !info.suspicion
    && (info.alive ==> !heard.inherited && info.timestamp == heard.time)
    && (!info.alive && !heard.inherited ==> info.timestamp - heard.time > TIMEOUT_NANOS)
    && (heard.inherited ==> info.timestamp == heard.time)
  }

  ghost predicate Watched(m: Member) {
    forall sid | sid in m.others :: sid in m.heard && EntryWatched(m.others[sid], m.heard[sid])
  }

  lemma ElapsedExact(since: int, now: int)
    ensures ElapsedMillis(since, now) > GOSSIP_HEARTBEAT_TIMEOUT <==> now - since >= TIMEOUT_NANOS + NANOS_PER_MILLI
  {
  }

  lemma ScanKeepsWatched(m: Member, now: int)
    requires Watched(m)
    ensures Watched(Scan(m, now))
  {
    forall sid | sid in Scan(m, now).others ensures EntryWatched(Scan(m, now).others[sid], m.heard[sid]) {
      ElapsedExact(m.others[sid].timestamp, now);
    }
  }

  lemma {:induction false} ReceiveKeepsWatched(m: Member, list: seq<ServerInfo>, now: int)
    requires Watched(m) && forall info | info in list :: info.alive == !info.suspicion
    ensures Watched(ReceiveEntries(m, list, now))
  {
    if list != [] {
      assert list[|list| - 1] in list;
      ReceiveKeepsWatched(m, list[..|list| - 1], now);
    }
  }

  lemma {:induction false} AdoptKeepsWatched(m: Member, list: seq<ServerInfo>, now: int)
    requires Watched(m) && forall info | info in list :: info.alive == !info.suspicion
    ensures Watched(AdoptEntries(m, list, now))
  {
    if list != [] {
      assert list[|list| - 1] in list;
      AdoptKeepsWatched(m, list[..|list| - 1], now);
    }
  }

  /** A scan that deletes an entry which was not admitted suspected comes more than two timeouts after
      the entry was last heard; for an inherited suspicion one timeout is enough. */
  lemma DeletionNeedsSilence(m: Member, now: int, sid: string)
    requires Watched(m) && sid in m.others && sid !in Scan(m, now).others
    ensures !m.heard[sid].inherited ==> now - m.heard[sid].time > 2 * TIMEOUT_NANOS
    ensures now - m.heard[sid].time > TIMEOUT_NANOS
  {
    ElapsedExact(m.others[sid].timestamp, now);
  }

  /** The exact moment: a watched entry is deleted exactly when it is suspected and its timestamp is
      more than a timeout old, by whole milliseconds. */
  lemma DeletedIff(m: Member, now: int, sid: string)
    requires Watched(m) && sid in m.others
    ensures sid !in Scan(m, now).others
            <==> m.others[sid].suspicion && now - m.others[sid].timestamp >= TIMEOUT_NANOS + NANOS_PER_MILLI
  {
    ElapsedExact(m.others[sid].timestamp, now);
  }

  /** A scan newly suspects exactly the entries that were alive and silent that long, and gives them a
      fresh timeout. */
  lemma SuspectedIff(m: Member, now: int, sid: string)
    requires Watched(m) && sid in m.others && sid in Scan(m, now).others
    ensures var before, after := m.others[sid], Scan(m, now).others[sid];
      && (after.suspicion && !before.suspicion
          <==> before.alive && now - before.timestamp >= TIMEOUT_NANOS + NANOS_PER_MILLI)
      && (after.suspicion != before.suspicion ==> after.timestamp == now && !after.alive)
      && (after.suspicion == before.suspicion ==> after == before)
  {
    ElapsedExact(m.others[sid].timestamp, now);
  }
}
