/**
 The cluster's membership protocol: servers and the messages they have sent. A message can arrive any
 number of times, at any moment or never.
 */
module Gossip {
  import opened Lamport
  import opened Membership

  datatype Message =
    | Heartbeat(dest: string, list: seq<ServerInfo>)
    | JoinReply(dest: string, list: seq<ServerInfo>)
    | Notice(dest: string, info: ServerInfo)
    | Farewell(dest: string, id: string)

  datatype Cluster = Cluster(members: map<string, Member>, sent: set<Message>)

  const NOBODY := Cluster(map[], {})

  datatype Event =
    | Start(id: string, address: string, now: int)
    | Join(id: string, at: string, now: int)
    | SendHeartbeat(id: string, dests: set<string>, list: seq<ServerInfo>, now: int)
    | Reconnect(id: string, dest: string)
    | Leave(id: string)
    | Arrive(message: Message, now: int)

  /** The list is the sender's own entry and its members' entries, in some order; the joiner's reply
      likewise. */
  ghost predicate Describes(m: Member, list: seq<ServerInfo>) {
    forall info | info in list :: info == m.self || info in m.others.Values
  }

  function Ticked(c: Cluster, e: Event): Member
    requires e.SendHeartbeat? && e.id in c.members
  {
    Scan(BeginHeartbeat(c.members[e.id]), e.now)
  }

  /** A server starts under an id no server has had. It can ask any other server to join. */
  ghost predicate Enabled(c: Cluster, e: Event) {
    match e
    case Start(id, _, _) => id !in c.members && Atoi(id).Some?
    case Join(id, at, _) => id in c.members && at in c.members && id != at
    case SendHeartbeat(id, dests, list, now) => id in c.members && Describes(Ticked(c, e), list)
    case Reconnect(id, dest) => id in c.members && dest in c.members
    case Leave(id) => id in c.members
    case Arrive(message, _) => message in c.sent && message.dest in c.members
  }

  /** The replies and notices that let `at` answer a join: the whole list if the joiner is new to it,
      nothing otherwise. */
  ghost predicate JoinAnswers(m: Member, id: string, address: string, now: int, extra: set<Message>) {
    if Refused(m, id) then forall msg | msg in extra :: msg == JoinReply(id, [])
    else forall msg | msg in extra ::
           || (msg.JoinReply? && msg.dest == id && Describes(m, msg.list))
           || (msg.Notice? && msg.dest in m.others && msg.info == Joiner(id, address, now))
  }

  function Receive(m: Member, message: Message, now: int): Member {
    match message
    case Heartbeat(_, list) => ReceiveEntries(m, list, now)
    case JoinReply(_, list) => AdoptEntries(m, list, now)
    case Notice(_, info) => NewServer(m, info, now)
    case Farewell(_, id) => Forget(m, id)
  }

  /** The one server an event runs on, and that server afterwards. */
  function Target(e: Event): string {
    match e
    case Start(id, _, _) => id
    case Join(_, at, _) => at
    case SendHeartbeat(id, _, _, _) => id
    case Reconnect(id, _) => id
    case Leave(id) => id
    case Arrive(message, _) => message.dest
  }

  ghost function Handled(c: Cluster, e: Event): Member
    requires Enabled(c, e)
  {
    match e
    case Start(id, address, now) => Starting(id, address, now)
    case Join(id, at, now) => JoinCluster(c.members[at], id, c.members[id].self.address, now)
    case SendHeartbeat(_, _, _, _) => Ticked(c, e)
    case Arrive(message, now) => Receive(c.members[message.dest], message, now)
    case _ => c.members[Target(e)]
  }

  /** The messages an event may send, apart from those sent before. */
  ghost predicate Sends(c: Cluster, e: Event, extra: set<Message>)
    requires Enabled(c, e)
  {
    match e
    case Join(id, at, now) => JoinAnswers(c.members[at], id, c.members[id].self.address, now, extra)
    case SendHeartbeat(_, dests, list, _) => extra == (set d | d in dests :: Heartbeat(d, list)) - c.sent
    case Reconnect(id, dest) => extra == {Notice(dest, c.members[id].self)} - c.sent
    case Leave(id) => forall msg | msg in extra :: msg.Farewell? && msg.id == id
    case _ => extra == {}
  }

  ghost predicate Next(c: Cluster, e: Event, c': Cluster) {
    && Enabled(c, e)
    && c'.members == c.members[Target(e) := Handled(c, e)]
    && c.sent <= c'.sent && Sends(c, e, c'.sent - c.sent)
  }

  ghost predicate NextAt(cs: seq<Cluster>, es: seq<Event>, i: nat) {
    i < |es| && i + 1 < |cs| && Next(cs[i], es[i], cs[i + 1])
  }

  ghost predicate IsRun(cs: seq<Cluster>, es: seq<Event>) {
    |cs| == |es| + 1 && cs[0] == NOBODY && forall i: nat | i < |es| :: NextAt(cs, es, i)
  }

  /******* What holds in every reachable state *******/

  /** The entry names a server that has started, with a counter that server has reached, and is alive
      exactly when it is not suspected. */
  ghost predicate Genuine(members: map<string, Member>, info: ServerInfo) {
    && info.id in members && info.heartbeat <= members[info.id].self.heartbeat
    && info.alive == !info.suspicion
  }

  ghost predicate AllGenuine(members: map<string, Member>, list: seq<ServerInfo>) {
    forall info | info in list :: Genuine(members, info)
  }

  ghost predicate MemberSound(members: map<string, Member>, id: string, m: Member) {
    && m.self.id == id && m.self.heartbeat >= 1 && m.self.alive && !m.self.suspicion
    && id !in m.others
    && (forall sid | sid in m.others :: m.others[sid].id == sid && Genuine(members, m.others[sid]))
    && Watched(m)
  }

  /** A reply to a joiner never describes the joiner. */
  ghost predicate MessageSound(members: map<string, Member>, message: Message) {
    match message
    case Heartbeat(_, list) => AllGenuine(members, list)
    case JoinReply(dest, list) => AllGenuine(members, list) && forall info | info in list :: info.id != dest
    case Notice(_, info) => Genuine(members, info)
    case Farewell(_, _) => true
  }

  ghost predicate Sound(c: Cluster) {
    && (forall id | id in c.members :: MemberSound(c.members, id, c.members[id]))
    && (forall msg | msg in c.sent :: MessageSound(c.members, msg))
  }

  /** Servers are only added, and their own counters only rise. */
  ghost predicate Grown(members: map<string, Member>, members': map<string, Member>) {
    forall id | id in members :: id in members' && members[id].self.heartbeat <= members'[id].self.heartbeat
  }

  lemma GenuineGrows(members: map<string, Member>, members': map<string, Member>)
    requires Grown(members, members')
    ensures forall info | Genuine(members, info) :: Genuine(members', info)
    ensures forall id, m | MemberSound(members, id, m) :: MemberSound(members', id, m)
    ensures forall msg | MessageSound(members, msg) :: MessageSound(members', msg)
  {
  }

  lemma {:induction false} ReceiveSound(members: map<string, Member>, id: string, m: Member, list: seq<ServerInfo>,
                                        now: int)
    requires MemberSound(members, id, m) && AllGenuine(members, list)
    ensures MemberSound(members, id, ReceiveEntries(m, list, now))
  {
    ReceiveKeepsWatched(m, list, now);
    if list != [] {
      assert list[|list| - 1] in list;
      ReceiveSound(members, id, m, list[..|list| - 1], now);
    }
  }

  lemma {:induction false} AdoptSound(members: map<string, Member>, id: string, m: Member, list: seq<ServerInfo>,
                                      now: int)
    requires MemberSound(members, id, m) && AllGenuine(members, list) && forall info | info in list :: info.id != id
    ensures MemberSound(members, id, AdoptEntries(m, list, now))
  {
    AdoptKeepsWatched(m, list, now);
    if list != [] {
      assert list[|list| - 1] in list;
      AdoptSound(members, id, m, list[..|list| - 1], now);
    }
  }

  lemma AdmitSound(members: map<string, Member>, id: string, m: Member, info: ServerInfo, now: int)
    requires MemberSound(members, id, m) && Genuine(members, info)
    ensures MemberSound(members, id, NewServer(m, info, now))
  {
  }

  lemma ScanSound(members: map<string, Member>, id: string, m: Member, now: int)
    requires MemberSound(members, id, m)
    ensures MemberSound(members, id, Scan(m, now))
  {
    ScanKeepsWatched(m, now);
  }

  lemma ReceivedSound(c: Cluster, message: Message, now: int)
    requires Sound(c) && message in c.sent && message.dest in c.members
    ensures MemberSound(c.members, message.dest, Receive(c.members[message.dest], message, now))
  {
    var m := c.members[message.dest];
    assert MemberSound(c.members, message.dest, m) && MessageSound(c.members, message);
    match message {
      case Heartbeat(dest, list) => ReceiveSound(c.members, dest, m, list, now);
      case JoinReply(dest, list) => AdoptSound(c.members, dest, m, list, now);
      case Notice(dest, info) => AdmitSound(c.members, dest, m, info, now);
      case Farewell(_, _) =>
    }
  }

  lemma ReceiveKeepsSelf(m: Member, message: Message, now: int)
    ensures Receive(m, message, now).self.heartbeat == m.self.heartbeat
  {
    match message {
      case Heartbeat(_, list) => HeartbeatClock(m, list, now);
      case JoinReply(_, list) => AdoptKeepsSelf(m, list, now);
      case _ =>
    }
  }

  lemma {:induction false} AdoptKeepsSelf(m: Member, list: seq<ServerInfo>, now: int)
    ensures AdoptEntries(m, list, now).self == m.self
  {
    if list != [] { AdoptKeepsSelf(m, list[..|list| - 1], now); }
  }

  lemma NextGrows(c: Cluster, e: Event, c': Cluster)
    requires Next(c, e, c')
    ensures Grown(c.members, c'.members)
  {
    if e.Arrive? {
      ReceiveKeepsSelf(c.members[e.message.dest], e.message, e.now);
    }
  }

  /** The target's new state is sound among the new members. */
  lemma HandledSound(c: Cluster, e: Event, c': Cluster)
    requires Next(c, e, c') && Sound(c)
    ensures MemberSound(c'.members, Target(e), Handled(c, e))
  {
    NextGrows(c, e, c');
    GenuineGrows(c.members, c'.members);
    match e {
      case Start(_, _, _) =>
      case Join(id, at, now) =>
        assert MemberSound(c'.members, at, c.members[at]) && MemberSound(c'.members, id, c.members[id]);
        var joiner := Joiner(id, c.members[id].self.address, now);
        assert Genuine(c'.members, joiner);
        AdmitSound(c'.members, at, c.members[at], joiner, now);
      case SendHeartbeat(id, _, _, now) =>
        assert MemberSound(c'.members, id, c.members[id]);
        ScanSound(c'.members, id, BeginHeartbeat(c.members[id]), now);
      case Arrive(message, now) =>
        ReceivedSound(c, message, now);
      case _ =>
    }
  }

  lemma DescribedGenuine(members: map<string, Member>, id: string, m: Member, list: seq<ServerInfo>)
    requires MemberSound(members, id, m) && id in members && m.self.heartbeat <= members[id].self.heartbeat
    requires Describes(m, list)
    ensures AllGenuine(members, list)
    ensures forall info | info in list :: info.id == id || info.id in m.others
  {
  }

  lemma SentSound(c: Cluster, e: Event, c': Cluster, msg: Message)
    requires Next(c, e, c') && Sound(c) && msg in c'.sent && msg !in c.sent
    ensures MessageSound(c'.members, msg)
  {
    NextGrows(c, e, c');
    GenuineGrows(c.members, c'.members);
    HandledSound(c, e, c');
    assert msg in c'.sent - c.sent;
    match e {
      case Join(id, at, now) =>
        assert MemberSound(c'.members, at, c.members[at]) && MemberSound(c'.members, id, c.members[id]);
        if msg.JoinReply? { DescribedGenuine(c'.members, at, c.members[at], msg.list); }
      case SendHeartbeat(id, _, list, _) =>
        DescribedGenuine(c'.members, id, Handled(c, e), list);
      case Reconnect(id, _) =>
        assert MemberSound(c'.members, id, c.members[id]);
      case _ =>
    }
  }

  lemma NextSound(c: Cluster, e: Event, c': Cluster)
    requires Next(c, e, c') && Sound(c)
    ensures Sound(c')
  {
    NextGrows(c, e, c');
    GenuineGrows(c.members, c'.members);
    HandledSound(c, e, c');
    forall id | id in c'.members ensures MemberSound(c'.members, id, c'.members[id]) {
      if id != Target(e) { assert MemberSound(c.members, id, c.members[id]); }
    }
    forall msg | msg in c'.sent ensures MessageSound(c'.members, msg) {
      if msg !in c.sent { SentSound(c, e, c', msg); } else { assert MessageSound(c.members, msg); }
    }
  }

  lemma SoundAt(cs: seq<Cluster>, es: seq<Event>, i: nat)
    requires IsRun(cs, es) && i < |es| && Sound(cs[i])
    ensures Sound(cs[i + 1])
  {
    assert NextAt(cs, es, i);
    NextSound(cs[i], es[i], cs[i + 1]);
  }

  lemma {:induction false} SoundInvariant(cs: seq<Cluster>, es: seq<Event>, i: nat)
    requires IsRun(cs, es) && i <= |es|
    ensures Sound(cs[i])
  {
    if i > 0 {
      SoundInvariant(cs, es, i - 1);
      SoundAt(cs, es, i - 1);
    }
  }

  /** No server ever lists itself. */
  lemma NeverListsItself(cs: seq<Cluster>, es: seq<Event>, i: nat, id: string)
    requires IsRun(cs, es) && i <= |es| && id in cs[i].members
    ensures id !in cs[i].members[id].others
  {
    SoundInvariant(cs, es, i);
    assert MemberSound(cs[i].members, id, cs[i].members[id]);
  }

  /** The message carries the entry. */
  predicate Mentions(message: Message, info: ServerInfo) {
    match message
    case Heartbeat(_, list) => info in list
    case JoinReply(_, list) => info in list
    case Notice(_, entry) => info == entry
    case Farewell(_, _) => false
  }

  lemma MentionedIsGenuine(members: map<string, Member>, message: Message, info: ServerInfo)
    requires MessageSound(members, message) && Mentions(message, info)
    ensures Genuine(members, info)
  {
  }

  /** A counter recorded or sent anywhere is one its server has reached. */
  lemma CountersNeverInvented(cs: seq<Cluster>, es: seq<Event>, i: nat)
    requires IsRun(cs, es) && i <= |es|
    ensures forall id, sid | id in cs[i].members && sid in cs[i].members[id].others ::
              && sid in cs[i].members
              && cs[i].members[id].others[sid].heartbeat <= cs[i].members[sid].self.heartbeat
    ensures forall msg, info | msg in cs[i].sent && Mentions(msg, info) ::
              info.id in cs[i].members && info.heartbeat <= cs[i].members[info.id].self.heartbeat
  {
    SoundInvariant(cs, es, i);
    forall id, sid | id in cs[i].members && sid in cs[i].members[id].others
      ensures sid in cs[i].members && cs[i].members[id].others[sid].heartbeat <= cs[i].members[sid].self.heartbeat
    {
      assert MemberSound(cs[i].members, id, cs[i].members[id]);
    }
    forall msg, info | msg in cs[i].sent && Mentions(msg, info) ensures Genuine(cs[i].members, info) {
      MentionedIsGenuine(cs[i].members, msg, info);
    }
  }

  ghost predicate Lists(c: Cluster, id: string, sid: string) {
    id in c.members && sid in c.members[id].others
  }

  /** The counter a server sends with a heartbeat is above every counter recorded for it anywhere and
      every one sent before, so it is news to whoever lists the server. */
  lemma HeartbeatIsNews(cs: seq<Cluster>, es: seq<Event>, i: nat, id: string, info: ServerInfo)
    requires IsRun(cs, es) && NextAt(cs, es, i) && es[i].SendHeartbeat?
    requires || (Lists(cs[i], id, es[i].id) && info == cs[i].members[id].others[es[i].id])
             || (exists msg :: msg in cs[i].sent && Mentions(msg, info) && info.id == es[i].id)
    ensures info.heartbeat < cs[i + 1].members[es[i].id].self.heartbeat
  {
    SoundInvariant(cs, es, i);
    if Lists(cs[i], id, es[i].id) && info == cs[i].members[id].others[es[i].id] {
      assert MemberSound(cs[i].members, id, cs[i].members[id]);
    } else {
      var msg :| msg in cs[i].sent && Mentions(msg, info) && info.id == es[i].id;
      MentionedIsGenuine(cs[i].members, msg, info);
    }
  }

  /******* Entries over time *******/

  function EventTime(e: Event): int {
    match e
    case Start(_, _, now) => now
    case Join(_, _, now) => now
    case SendHeartbeat(_, _, _, now) => now
    case Arrive(_, now) => now
    case _ => 0
  }

  lemma ReceiveFollows(m: Member, message: Message, now: int)
    ensures Follows(m, Receive(m, message, now), now)
  {
    match message {
      case Heartbeat(_, list) => ReceiveEntriesExtends(m, list, now);
      case JoinReply(_, list) => AdoptEntriesExtends(m, list, now);
      case _ =>
    }
  }

  lemma NextFollows(c: Cluster, e: Event, c': Cluster, id: string)
    requires Next(c, e, c') && id in c.members
    ensures id in c'.members && Follows(c.members[id], c'.members[id], EventTime(e))
  {
    if e.Arrive? && id == Target(e) {
      ReceiveFollows(c.members[id], e.message, e.now);
    }
  }

  /** While an entry stays in a server's list its counter does not fall. */
  lemma {:induction false} CountersNeverFall(cs: seq<Cluster>, es: seq<Event>, i: nat, j: nat, id: string, sid: string)
    requires IsRun(cs, es) && i <= j <= |es| && Lists(cs[i], id, sid) && Lists(cs[j], id, sid)
    requires forall n | i < n < j :: Lists(cs[n], id, sid)
    ensures cs[i].members[id].others[sid].heartbeat <= cs[j].members[id].others[sid].heartbeat
    decreases j
  {
    if i < j {
      assert Lists(cs[j - 1], id, sid);
      CountersNeverFall(cs, es, i, j - 1, id, sid);
      assert NextAt(cs, es, j - 1);
      NextFollows(cs[j - 1], es[j - 1], cs[j], id);
      assert EntryFollows(cs[j - 1].members[id], cs[j].members[id], EventTime(es[j - 1]), sid);
    }
  }

  /** The entry for sid at server id appears in event i, or its counter rises there. */
  ghost predicate HeardAt(cs: seq<Cluster>, es: seq<Event>, i: nat, id: string, sid: string) {
    && NextAt(cs, es, i) && id in cs[i].members && id in cs[i + 1].members
    && sid in cs[i + 1].members[id].others
    && (sid in cs[i].members[id].others ==>
          cs[i].members[id].others[sid].heartbeat < cs[i + 1].members[id].others[sid].heartbeat)
  }

  lemma HeardIsHistory(cs: seq<Cluster>, es: seq<Event>, i: nat, id: string, sid: string)
    requires IsRun(cs, es) && HeardAt(cs, es, i, id, sid)
    ensures sid in cs[i + 1].members[id].heard && cs[i + 1].members[id].heard[sid].time == EventTime(es[i])
    ensures sid in cs[i].members[id].others || cs[i + 1].members[id].others[sid].alive ==>
              !cs[i + 1].members[id].heard[sid].inherited
  {
    NextFollows(cs[i], es[i], cs[i + 1], id);
    assert EntryFollows(cs[i].members[id], cs[i + 1].members[id], EventTime(es[i]), sid);
    SoundInvariant(cs, es, i + 1);
    assert MemberSound(cs[i + 1].members, id, cs[i + 1].members[id]);
  }

  lemma {:induction false} HeardStays(cs: seq<Cluster>, es: seq<Event>, i: nat, j: nat, id: string, sid: string)
    requires IsRun(cs, es) && i <= j <= |es| && Lists(cs[i], id, sid) && Lists(cs[j], id, sid)
    requires forall n | i < n < j :: Lists(cs[n], id, sid)
    requires forall n: nat | i <= n < j :: !HeardAt(cs, es, n, id, sid)
    requires sid in cs[i].members[id].heard
    ensures sid in cs[j].members[id].heard && cs[j].members[id].heard[sid] == cs[i].members[id].heard[sid]
    decreases j
  {
    if i < j {
      assert Lists(cs[j - 1], id, sid);
      HeardStays(cs, es, i, j - 1, id, sid);
      assert NextAt(cs, es, j - 1) && !HeardAt(cs, es, j - 1, id, sid);
      NextFollows(cs[j - 1], es[j - 1], cs[j], id);
      assert EntryFollows(cs[j - 1].members[id], cs[j].members[id], EventTime(es[j - 1]), sid);
    }
  }

  /** In every run: an entry is admitted, or its counter rises, in event i; it stays without another
      rise; a timeout scan deletes it in event j. Then more than one timeout lies between, and more than
      two unless the entry was admitted under suspicion. */
  lemma DetectorNeedsTwoTimeouts(cs: seq<Cluster>, es: seq<Event>, i: nat, j: nat, id: string, sid: string)
    requires IsRun(cs, es) && i < j < |es| && HeardAt(cs, es, i, id, sid)
    requires forall n | i < n <= j :: Lists(cs[n], id, sid)
    requires forall n: nat | i < n < j :: !HeardAt(cs, es, n, id, sid)
    requires es[j].SendHeartbeat? && es[j].id == id && !Lists(cs[j + 1], id, sid)
    ensures es[j].now - EventTime(es[i]) > TIMEOUT_NANOS
    ensures sid in cs[i].members[id].others || cs[i + 1].members[id].others[sid].alive ==>
              es[j].now - EventTime(es[i]) > 2 * TIMEOUT_NANOS
  {
    HeardIsHistory(cs, es, i, id, sid);
    assert Lists(cs[i + 1], id, sid) && Lists(cs[j], id, sid);
    HeardStays(cs, es, i + 1, j, id, sid);
    SoundInvariant(cs, es, j);
    assert MemberSound(cs[j].members, id, cs[j].members[id]) && NextAt(cs, es, j);
    assert Lists(cs[j], id, sid);
    DeletionNeedsSilence(BeginHeartbeat(cs[j].members[id]), es[j].now, sid);
  }

  /******* Completeness *******/

  lemma ReceiveLeavesUnheard(m: Member, message: Message, now: int, sid: string)
    requires sid in m.others && sid != m.self.id && m.others[sid].alive == !m.others[sid].suspicion
    requires sid in Receive(m, message, now).others
    requires Receive(m, message, now).others[sid].heartbeat == m.others[sid].heartbeat
    ensures Receive(m, message, now).others[sid] == m.others[sid]
  {
    match message {
      case Heartbeat(_, list) => RisenIsAlive(m, list, now, sid);
      case JoinReply(_, list) => AdoptKeepsKnown(m, list, now, sid);
      case _ =>
    }
  }

  /** An entry that event i neither admits nor raises was there before, and only a scan can change it. */
  lemma UnheardEntry(cs: seq<Cluster>, es: seq<Event>, i: nat, id: string, sid: string)
    requires IsRun(cs, es) && i < |es| && id in cs[i].members
    requires !HeardAt(cs, es, i, id, sid) && Lists(cs[i + 1], id, sid)
    ensures Lists(cs[i], id, sid)
    ensures var before, after := cs[i].members[id].others[sid], cs[i + 1].members[id].others[sid];
      if es[i].SendHeartbeat? && es[i].id == id then ScanEntry(before, es[i].now) == Some(after) else after == before
  {
    assert NextAt(cs, es, i);
    NextFollows(cs[i], es[i], cs[i + 1], id);
    assert EntryFollows(cs[i].members[id], cs[i + 1].members[id], EventTime(es[i]), sid);
    SoundInvariant(cs, es, i);
    assert MemberSound(cs[i].members, id, cs[i].members[id]);
    if es[i].Arrive? && id == Target(es[i]) {
      ReceiveLeavesUnheard(cs[i].members[id], es[i].message, es[i].now, sid);
    }
  }

  /** The clock readings at id before event n are at most T. */
  ghost predicate ReadBefore(es: seq<Event>, n: nat, id: string, T: int)
    requires n <= |es|
  {
    forall m | 0 <= m < n && Target(es[m]) == id && !es[m].Reconnect? && !es[m].Leave? :: EventTime(es[m]) <= T
  }

  ghost predicate StampsAtMost(c: Cluster, id: string, T: int) {
    id in c.members ==> forall sid | sid in c.members[id].others :: c.members[id].others[sid].timestamp <= T
  }

  lemma NextStamped(c: Cluster, e: Event, c': Cluster, id: string, T: int)
    requires Next(c, e, c') && StampsAtMost(c, id, T)
    requires Target(e) == id && !e.Reconnect? && !e.Leave? ==> EventTime(e) <= T
    ensures StampsAtMost(c', id, T)
  {
    if e.Arrive? && Target(e) == id {
      match e.message {
        case Heartbeat(_, list) => EntriesStamped(c.members[id], list, e.now);
        case JoinReply(_, list) => EntriesStamped(c.members[id], list, e.now);
        case _ =>
      }
    }
  }

  lemma {:induction false} StampsBefore(cs: seq<Cluster>, es: seq<Event>, n: nat, id: string, T: int)
    requires IsRun(cs, es) && n <= |es| && ReadBefore(es, n, id, T)
    ensures StampsAtMost(cs[n], id, T)
  {
    if n > 0 {
      StampsBefore(cs, es, n - 1, id, T);
      assert NextAt(cs, es, n - 1);
      NextStamped(cs[n - 1], es[n - 1], cs[n], id, T);
    }
  }

  /** The entry is gone, or suspected since T at the latest. */
  ghost predicate SuspectOrGone(c: Cluster, id: string, sid: string, T: int) {
    id in c.members && (sid in c.members[id].others ==>
                          var entry := c.members[id].others[sid];
                          entry.suspicion && !entry.alive && entry.timestamp <= T)
  }

  /** No event from i to j - 1 admits the entry or raises its counter. */
  ghost predicate Unheard(cs: seq<Cluster>, es: seq<Event>, i: nat, j: nat, id: string, sid: string) {
    forall n: nat | i <= n < j :: !HeardAt(cs, es, n, id, sid)
  }

  lemma MembersStay(cs: seq<Cluster>, es: seq<Event>, i: nat, id: string)
    requires IsRun(cs, es) && i < |es| && id in cs[i].members
    ensures id in cs[i + 1].members
  {
    assert NextAt(cs, es, i);
  }

  lemma {:induction false} SuspicionStays(cs: seq<Cluster>, es: seq<Event>, i: nat, j: nat, id: string, sid: string,
                                          T: int)
    requires IsRun(cs, es) && i <= j <= |es| && Unheard(cs, es, i, j, id, sid)
    requires SuspectOrGone(cs[i], id, sid, T)
    ensures SuspectOrGone(cs[j], id, sid, T)
    decreases j
  {
    if i < j {
      SuspicionStays(cs, es, i, j - 1, id, sid, T);
      assert !HeardAt(cs, es, j - 1, id, sid);
      MembersStay(cs, es, j - 1, id);
      if Lists(cs[j], id, sid) { UnheardEntry(cs, es, j - 1, id, sid); }
    }
  }

  /** Unheard entries that are still listed have been listed all along. */
  lemma {:induction false} ListedAllAlong(cs: seq<Cluster>, es: seq<Event>, i: nat, j: nat, id: string, sid: string)
    requires IsRun(cs, es) && i <= j <= |es| && Unheard(cs, es, i, j, id, sid)
    requires id in cs[i].members && Lists(cs[j], id, sid)
    ensures forall n | i <= n <= j :: Lists(cs[n], id, sid)
    decreases j
  {
    if i < j {
      assert !HeardAt(cs, es, j - 1, id, sid);
      MembersGrow(cs, es, i, j - 1, id);
      UnheardEntry(cs, es, j - 1, id, sid);
      ListedAllAlong(cs, es, i, j - 1, id, sid);
    }
  }

  lemma {:induction false} MembersGrow(cs: seq<Cluster>, es: seq<Event>, i: nat, j: nat, id: string)
    requires IsRun(cs, es) && i <= j <= |es| && id in cs[i].members
    ensures id in cs[j].members
    decreases j
  {
    if i < j {
      MembersGrow(cs, es, i, j - 1, id);
      MembersStay(cs, es, j - 1, id);
    }
  }

  /** A scan that comes a timeout after an entry was last heard leaves it suspected or deletes it. */
  lemma ScanSuspects(cs: seq<Cluster>, es: seq<Event>, i: nat, p: nat, id: string, sid: string)
    requires IsRun(cs, es) && i < p < |es| && HeardAt(cs, es, i, id, sid) && Unheard(cs, es, i + 1, p + 1, id, sid)
    requires es[p].SendHeartbeat? && es[p].id == id && ReadBefore(es, p, id, es[p].now)
    requires es[p].now - EventTime(es[i]) >= TIMEOUT_NANOS + NANOS_PER_MILLI
    ensures SuspectOrGone(cs[p + 1], id, sid, es[p].now)
  {
    MembersGrow(cs, es, i, p, id);
    MembersStay(cs, es, p, id);
    if Lists(cs[p + 1], id, sid) {
      assert !HeardAt(cs, es, p, id, sid);
      UnheardEntry(cs, es, p, id, sid);
      ListedAllAlong(cs, es, i + 1, p, id, sid);
      HeardIsHistory(cs, es, i, id, sid);
      HeardStays(cs, es, i + 1, p, id, sid);
      StampsBefore(cs, es, p, id, es[p].now);
      SoundInvariant(cs, es, p);
      var m := cs[p].members[id];
      assert MemberSound(cs[p].members, id, m);
      assert EntryWatched(m.others[sid], m.heard[sid]);
      assert sid in Scan(m, es[p].now).others;
      SuspectedIff(m, es[p].now, sid);
    }
  }

  /** The other half of the detector: a server from which nothing is heard is deleted. In every run with a
      non-decreasing local clock, if an entry's counter last rises in event i, a scan in event p comes a
      timeout later, and one in event q another timeout later, then the entry is gone after q. */
  lemma DetectorCompletes(cs: seq<Cluster>, es: seq<Event>, i: nat, p: nat, q: nat, id: string, sid: string)
    requires IsRun(cs, es) && i < p < q < |es| && HeardAt(cs, es, i, id, sid)
    requires Unheard(cs, es, i + 1, q + 1, id, sid)
    requires es[p].SendHeartbeat? && es[p].id == id && es[q].SendHeartbeat? && es[q].id == id
    requires ReadBefore(es, p, id, es[p].now)
    requires es[p].now - EventTime(es[i]) >= TIMEOUT_NANOS + NANOS_PER_MILLI
    requires es[q].now - es[p].now >= TIMEOUT_NANOS + NANOS_PER_MILLI
    ensures id in cs[q + 1].members && !Lists(cs[q + 1], id, sid)
  {
    ScanSuspects(cs, es, i, p, id, sid);
    SuspectDropped(cs, es, p + 1, q, id, sid, es[p].now);
  }

  /** A suspected entry that is not heard again is gone after a scan a timeout later. This is all it takes
      for an entry that was admitted under suspicion. */
  lemma SuspectDropped(cs: seq<Cluster>, es: seq<Event>, i: nat, q: nat, id: string, sid: string, T: int)
    requires IsRun(cs, es) && i <= q < |es| && Unheard(cs, es, i, q + 1, id, sid)
    requires SuspectOrGone(cs[i], id, sid, T)
    requires es[q].SendHeartbeat? && es[q].id == id && es[q].now - T >= TIMEOUT_NANOS + NANOS_PER_MILLI
    ensures id in cs[q + 1].members && !Lists(cs[q + 1], id, sid)
  {
    SuspicionStays(cs, es, i, q, id, sid, T);
    MembersStay(cs, es, q, id);
    if Lists(cs[q + 1], id, sid) {
      assert !HeardAt(cs, es, q, id, sid);
      UnheardEntry(cs, es, q, id, sid);
      SoundInvariant(cs, es, q);
      var m := cs[q].members[id];
      assert MemberSound(cs[q].members, id, m);
      DeletedIff(m, es[q].now, sid);
    }
  }

  /******* An inherited suspicion *******/

  lemma Append(cs: seq<Cluster>, es: seq<Event>, e: Event, members: map<string, Member>, extra: set<Message>)
    returns (cs': seq<Cluster>, es': seq<Event>)
    requires IsRun(cs, es) && Next(cs[|es|], e, Cluster(members, cs[|es|].sent + extra))
    ensures cs' == cs + [Cluster(members, cs[|es|].sent + extra)] && es' == es + [e] && IsRun(cs', es')
  {
    cs', es' := cs + [Cluster(members, cs[|es|].sent + extra)], es + [e];
    forall i: nat | i < |es'| ensures NextAt(cs', es', i) {
      if i < |es| { assert NextAt(cs, es, i); }
    }
  }

  /** id has just started and knows nobody. */
  ghost predicate Newborn(c: Cluster, id: string) {
    Atoi(id).Some? && id in c.members && c.members[id] == Starting(id, "", 0)
  }

  lemma ThreeStart(a: string, b: string, c: string) returns (cs: seq<Cluster>, es: seq<Event>)
    requires a != b && b != c && a != c && Atoi(a).Some? && Atoi(b).Some? && Atoi(c).Some?
    ensures IsRun(cs, es) && Newborn(cs[|es|], a) && Newborn(cs[|es|], b) && Newborn(cs[|es|], c)
    ensures cs[|es|].sent == {}
  {
    var one := map[a := Starting(a, "", 0)];
    var two := one[b := Starting(b, "", 0)];
    cs, es := Append([NOBODY], [], Start(a, "", 0), one, {});
    cs, es := Append(cs, es, Start(b, "", 0), two, {});
    cs, es := Append(cs, es, Start(c, "", 0), two[c := Starting(c, "", 0)], {});
  }

  const OVERDUE := TIMEOUT_NANOS + NANOS_PER_MILLI

  /** a lists b alone, and suspects it. */
  ghost predicate Suspects(c: Cluster, a: string, b: string) {
    && a in c.members && c.members[a].self.id == a && c.members[a].self.alive && c.members[a].others.Keys == {b}
    && c.members[a].others[b] == Joiner(b, "", 0).(alive := false, suspicion := true, timestamp := OVERDUE)
  }

  /** b joins at a, which then hears nothing from it for a timeout. */
  lemma SuspectJoiner(a: string, b: string, c: string) returns (cs: seq<Cluster>, es: seq<Event>)
    requires a != b && b != c && a != c && Atoi(a).Some? && Atoi(b).Some? && Atoi(c).Some?
    ensures IsRun(cs, es) && Suspects(cs[|es|], a, b) && Newborn(cs[|es|], c)
  {
    cs, es := ThreeStart(a, b, c);
    var m := cs[|es|].members[a];
    var joined := JoinCluster(m, b, "", 0);
    var reply := JoinReply(b, [m.self]);
    assert JoinAnswers(m, b, "", 0, {reply});
    assert (cs[|es|].sent + {reply}) - cs[|es|].sent == {reply};
    cs, es := Append(cs, es, Join(b, a, 0), cs[|es|].members[a := joined], {reply});
    ElapsedExact(0, OVERDUE);
    var ticked := Scan(BeginHeartbeat(joined), OVERDUE);
    assert ticked.others.Keys == {b};
    cs, es := SendTo(cs, es, a, {b}, [ticked.self, ticked.others[b]], OVERDUE);
  }

  /** A timeout scan and a heartbeat. */
  lemma SendTo(cs: seq<Cluster>, es: seq<Event>, id: string, dests: set<string>, list: seq<ServerInfo>, now: int)
    returns (cs': seq<Cluster>, es': seq<Event>)
    requires IsRun(cs, es) && id in cs[|es|].members
    requires Describes(Scan(BeginHeartbeat(cs[|es|].members[id]), now), list)
    ensures IsRun(cs', es') && es' == es + [SendHeartbeat(id, dests, list, now)] && cs' == cs + [cs'[|cs|]]
    ensures cs'[|es'|].members == cs[|es|].members[id := Scan(BeginHeartbeat(cs[|es|].members[id]), now)]
  {
    var beats := (set d | d in dests :: Heartbeat(d, list)) - cs[|es|].sent;
    assert (cs[|es|].sent + beats) - cs[|es|].sent == beats;
    cs', es' := Append(cs, es, SendHeartbeat(id, dests, list, now),
                       cs[|es|].members[id := Scan(BeginHeartbeat(cs[|es|].members[id]), now)], beats);
  }

  /** c asks a to join and is sent what a lists. */
  lemma AskToJoin(cs: seq<Cluster>, es: seq<Event>, a: string, b: string, c: string)
    returns (cs': seq<Cluster>, es': seq<Event>, reply: Message)
    requires IsRun(cs, es) && a != b && b != c && a != c && Suspects(cs[|es|], a, b) && Newborn(cs[|es|], c)
    ensures IsRun(cs', es') && reply in cs'[|es'|].sent && Newborn(cs'[|es'|], c)
    ensures var m := cs[|es|].members[a]; reply == JoinReply(c, [m.self, m.others[b]]) && m.self.id == a && m.self.alive
  {
    var m := cs[|es|].members[a];
    reply := JoinReply(c, [m.self, m.others[b]]);
    var extra := {reply, Notice(b, Joiner(c, "", OVERDUE))} - cs[|es|].sent;
    assert JoinAnswers(m, c, "", OVERDUE, extra);
    assert (cs[|es|].sent + extra) - cs[|es|].sent == extra;
    cs', es' := Append(cs, es, Join(c, a, OVERDUE),
                       cs[|es|].members[a := JoinCluster(m, c, "", OVERDUE)], extra);
  }

  lemma AdoptTwo(m: Member, x: ServerInfo, y: ServerInfo, now: int)
    requires m.others == map[] && x.id != y.id
    ensures AdoptEntries(m, [x, y], now).others == map[x.id := x.(timestamp := now), y.id := y.(timestamp := now)]
    ensures AdoptEntries(m, [x, y], now).self == m.self
  {
    assert [x, y][..1] == [x] && [x][..0] == [];
    assert AdoptEntries(m, [x], now) == AdoptEntry(m, x, now);
  }

  /** c takes over what a lists. */
  lemma InheritSuspicion(cs: seq<Cluster>, es: seq<Event>, a: string, b: string, c: string)
    returns (cs': seq<Cluster>, es': seq<Event>)
    requires IsRun(cs, es) && a != b && b != c && a != c && Suspects(cs[|es|], a, b) && Newborn(cs[|es|], c)
    ensures IsRun(cs', es') && |es'| > 0 && es'[|es'| - 1].Arrive? && es'[|es'| - 1].message.JoinReply?
    ensures EventTime(es'[|es'| - 1]) == OVERDUE
    ensures c in cs'[|es'| - 1].members && !Lists(cs'[|es'| - 1], c, b)
    ensures c in cs'[|es'|].members && cs'[|es'|].members[c].others.Keys == {a, b}
    ensures cs'[|es'|].members[c].others[a].alive
    ensures var entry := cs'[|es'|].members[c].others[b];
      entry.suspicion && !entry.alive && entry.timestamp == OVERDUE
  {
    var reply;
    var m := cs[|es|].members[a];
    cs', es', reply := AskToJoin(cs, es, a, b, c);
    var members := cs'[|es'|].members;
    AdoptTwo(members[c], m.self, m.others[b], OVERDUE);
    cs', es' := Append(cs', es', Arrive(reply, OVERDUE),
                       members[c := AdoptEntries(members[c], reply.list, OVERDUE)], {});
  }

  /** A timeout later c's scan deletes the entry. */
  lemma DropInherited(cs: seq<Cluster>, es: seq<Event>, a: string, b: string, c: string)
    returns (cs': seq<Cluster>, es': seq<Event>)
    requires IsRun(cs, es) && Lists(cs[|es|], c, a) && Lists(cs[|es|], c, b) && cs[|es|].members[c].others[a].alive
    requires var entry := cs[|es|].members[c].others[b];
      entry.suspicion && !entry.alive && entry.timestamp == OVERDUE
    ensures IsRun(cs', es') && |cs'| == |cs| + 1 && cs <= cs' && es <= es'
    ensures es'[|es|].SendHeartbeat? && es'[|es|].id == c && es'[|es|].now == 2 * OVERDUE
    ensures !Lists(cs'[|es'|], c, b)
  {
    ElapsedExact(OVERDUE, 2 * OVERDUE);
    var ticked := Scan(BeginHeartbeat(cs[|es|].members[c]), 2 * OVERDUE);
    assert a in ticked.others && b !in ticked.others;
    cs', es' := SendTo(cs, es, c, {a}, [ticked.self, ticked.others[a]], 2 * OVERDUE);
  }

  /** A second timeout is not waited for if the entry was admitted under suspicion: for any three servers
      there is a run in which a joiner takes over a suspected entry and deletes it after one timeout. */
  lemma InheritedSuspicionRun(a: string, b: string, c: string)
    returns (cs: seq<Cluster>, es: seq<Event>, i: nat, j: nat)
    requires a != b && b != c && a != c && Atoi(a).Some? && Atoi(b).Some? && Atoi(c).Some?
    ensures IsRun(cs, es) && i < j < |es|
    ensures es[i].Arrive? && es[i].message.JoinReply? && c in cs[i].members && !Lists(cs[i], c, b)
    ensures j == i + 1 && Lists(cs[j], c, b)
    ensures es[j].SendHeartbeat? && es[j].id == c && !Lists(cs[j + 1], c, b)
    ensures es[j].now - EventTime(es[i]) == TIMEOUT_NANOS + NANOS_PER_MILLI < 2 * TIMEOUT_NANOS
  {
    cs, es := SuspectJoiner(a, b, c);
    cs, es := InheritSuspicion(cs, es, a, b, c);
    i, j := |es| - 1, |es|;
    var before, events := cs, es;
    cs, es := DropInherited(cs, es, a, b, c);
    assert cs[i] == before[i] && cs[j] == before[j] && es[i] == events[i];
  }
}
