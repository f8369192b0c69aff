/**
 The whole system: servers, the messages in flight between them, and the clients' session state.
 Every handler is one atomic step. Remote writes can be delayed, reordered, repeated and lost.
 */
module System {
  import opened Lamport
  import opened Store
  import opened R = Replica

  datatype WriteMessage = WriteMessage(dest: string, kv: KeyValue)
  datatype PushMessage = PushMessage(src: string, dest: string, store: Store)

  /** A write that some server accepted from a client. */
  datatype Issue = Issue(server: string, kv: KeyValue)

  /** The versions a client has recorded, one per key. */
  type Session = map<string, real>

  datatype System = System(
    servers: map<string, Replica>,
    writes: set<WriteMessage>,
    pushes: set<PushMessage>,
    sessions: map<string, Session>,
    issued: seq<Issue>)  // history, read by no handler

  const EMPTY := System(map[], {}, {}, map[], [])

  datatype Event =
    | Join(id: string)
    | ClientPut(client: string, server: string, key: string, value: string, reached: set<string>, answered: bool)
    | ClientGet(client: string, server: string, key: string, answered: bool)
    | DeliverWrite(write: WriteMessage, again: bool)
    | LoseWrite(write: WriteMessage)
    | TakeSnapshot(src: string, dest: string)
    | DeliverPush(push: PushMessage)
    | LosePush(push: PushMessage)
    | HeartbeatSend(server: string)
    | HeartbeatReceive(server: string, clocks: seq<real>)

  /******* Clients *******/

  function SessionOf(s: System, client: string): Session {
    if client in s.sessions then s.sessions[client] else map[]
  }

  function RequestVersion(session: Session, key: string): real {
    if key in session then session[key] else ANY_VERSION
  }

  function RecordPut(session: Session, reply: KeyValue): Session {
    session[reply.key := reply.version]
  }

  predicate Successful(reply: KeyValue) {
    reply.value != ERR_DEP && reply.value != ERR_KEY
  }

  function RecordGet(session: Session, reply: KeyValue): Session {
    if Successful(reply) then session[reply.key := reply.version] else session
  }

  /******* Steps *******/

  predicate Enabled(s: System, e: Event) {
    match e
    case Join(id) => id !in s.servers && Atoi(id).Some?
    case ClientPut(_, server, _, _, _, _) => server in s.servers
    case ClientGet(_, server, _, _) => server in s.servers
    case DeliverWrite(write, _) => write in s.writes && write.dest in s.servers
    case LoseWrite(write) => write in s.writes
    case TakeSnapshot(src, dest) => src in s.servers && dest in s.servers
    case DeliverPush(push) => push in s.pushes && push.dest in s.servers
    case LosePush(push) => push in s.pushes
    case HeartbeatSend(server) => server in s.servers
    case HeartbeatReceive(server, _) => server in s.servers
  }

  /** The server's answer to a client's put or get. */
  function Reply(s: System, e: Event): KeyValue
    requires Enabled(s, e) && (e.ClientPut? || e.ClientGet?)
  {
    var r, version := s.servers[e.server], RequestVersion(SessionOf(s, e.client), e.key);
    if e.ClientPut? then PutReply(r, e.key, e.value, version) else GetReply(r, e.key, version)
  }

  /** The one server an event runs on. */
  function Target(e: Event): Option<string> {
    match e
    case Join(id) => Some(id)
    case ClientPut(_, server, _, _, _, _) => Some(server)
    case ClientGet(_, server, _, _) => Some(server)
    case DeliverWrite(write, _) => Some(write.dest)
    case DeliverPush(push) => Some(push.dest)
    case HeartbeatSend(server) => Some(server)
    case HeartbeatReceive(server, _) => Some(server)
    case _ => None
  }

  /** That server afterwards. */
  function Handled(s: System, e: Event): Replica
    requires Enabled(s, e) && Target(e).Some?
  {
    match e
    case Join(id) => Fresh(id)
    case ClientPut(client, server, key, value, _, _) =>
      Put(s.servers[server], key, value, RequestVersion(SessionOf(s, client), key))
    case ClientGet(_, server, _, _) => Get(s.servers[server])
    case DeliverWrite(write, _) => R.RemoteWrite(s.servers[write.dest], write.kv)
    case DeliverPush(push) => SendKVData(s.servers[push.dest], push.store)
    case HeartbeatSend(server) => SendHeartbeat(s.servers[server])
    case HeartbeatReceive(server, clocks) => ReceiveHeartbeat(s.servers[server], clocks)
  }

  /** A put sends its record to the members it reaches. */
  function WritesAfter(s: System, e: Event): set<WriteMessage>
    requires Enabled(s, e)
  {
    match e
    case ClientPut(_, _, _, _, reached, _) => s.writes + set m | m in reached :: WriteMessage(m, Reply(s, e))
    case DeliverWrite(write, again) => if again then s.writes else s.writes - {write}
    case LoseWrite(write) => s.writes - {write}
    case _ => s.writes
  }

  /** A snapshot is the sender's store at that moment. */
  function PushesAfter(s: System, e: Event): set<PushMessage>
    requires Enabled(s, e)
  {
    match e
    case TakeSnapshot(src, dest) => s.pushes + {PushMessage(src, dest, s.servers[src].store)}
    case DeliverPush(push) => s.pushes - {push}
    case LosePush(push) => s.pushes - {push}
    case _ => s.pushes
  }

  /** A client whose reply is lost records nothing. */
  function SessionsAfter(s: System, e: Event): map<string, Session>
    requires Enabled(s, e)
  {
    if e.ClientPut? && e.answered then s.sessions[e.client := RecordPut(SessionOf(s, e.client), Reply(s, e))]
    else if e.ClientGet? && e.answered then s.sessions[e.client := RecordGet(SessionOf(s, e.client), Reply(s, e))]
    else s.sessions
  }

  function IssuedAfter(s: System, e: Event): seq<Issue>
    requires Enabled(s, e)
  {
    if e.ClientPut? then s.issued + [Issue(e.server, Reply(s, e))] else s.issued
  }

  function Step(s: System, e: Event): System
    requires Enabled(s, e)
  {
    System(if Target(e).Some? then s.servers[Target(e).value := Handled(s, e)] else s.servers,
           WritesAfter(s, e),
           PushesAfter(s, e),
           SessionsAfter(s, e),
           IssuedAfter(s, e))
  }

  /** A put whose pivot is below the server's next tick; every other event. */
  predicate NoLagStep(s: System, e: Event)
    requires Enabled(s, e)
  {
    e.ClientPut? ==> NoLag(s.servers[e.server], e.key, RequestVersion(SessionOf(s, e.client), e.key))
  }

  /** A put that moves its server's clock on; every other event. */
  predicate TickStep(s: System, e: Event)
    requires Enabled(s, e)
  {
    e.ClientPut? ==> Ticks(s.servers[e.server], e.key, RequestVersion(SessionOf(s, e.client), e.key))
  }

  /******* Runs *******/

  ghost predicate StepAt(ss: seq<System>, es: seq<Event>, i: nat) {
    i < |es| && i + 1 < |ss| && Enabled(ss[i], es[i]) && ss[i + 1] == Step(ss[i], es[i])
  }

  /** The states ss that the events es lead through, one more than there are events. */
  ghost predicate IsRun(ss: seq<System>, es: seq<Event>) {
    |ss| == |es| + 1 && forall i: nat | i < |es| :: StepAt(ss, es, i)
  }

  /** A run of the system from before any server has joined. */
  ghost predicate Execution(ss: seq<System>, es: seq<Event>) {
    IsRun(ss, es) && ss[0] == EMPTY
  }

  ghost predicate NoLagAt(ss: seq<System>, es: seq<Event>, i: nat)
    requires StepAt(ss, es, i)
  {
    NoLagStep(ss[i], es[i])
  }

  ghost predicate NoLagRun(ss: seq<System>, es: seq<Event>)
    requires IsRun(ss, es)
  {
    forall i: nat | i < |es| :: NoLagAt(ss, es, i)
  }

  ghost predicate TicksAt(ss: seq<System>, es: seq<Event>, i: nat) {
    StepAt(ss, es, i) && TickStep(ss[i], es[i])
  }

  /** Every put before event j moves its server's clock on: no pivot is two ticks or more ahead of the
      server that takes it. */
  ghost predicate TicksBefore(ss: seq<System>, es: seq<Event>, j: nat) {
    forall m: nat | m < j :: TicksAt(ss, es, m)
  }

  lemma NoLagRunTicks(ss: seq<System>, es: seq<Event>)
    requires IsRun(ss, es) && NoLagRun(ss, es)
    ensures TicksBefore(ss, es, |es|)
  {
    forall i: nat | i < |es| ensures TicksAt(ss, es, i) {
      assert StepAt(ss, es, i) && NoLagAt(ss, es, i);
    }
  }

  lemma At(ss: seq<System>, es: seq<Event>, i: nat)
    requires IsRun(ss, es) && i < |es|
    ensures StepAt(ss, es, i)
    ensures NoLagRun(ss, es) ==> NoLagStep(ss[i], es[i])
  {
    assert StepAt(ss, es, i);
    assert NoLagRun(ss, es) ==> NoLagAt(ss, es, i);
  }

  /** A run of one more step. */
  lemma Extend(ss: seq<System>, es: seq<Event>, e: Event)
    requires IsRun(ss, es) && Enabled(ss[|es|], e)
    ensures var ss', es' := ss + [Step(ss[|es|], e)], es + [e];
      IsRun(ss', es') && (NoLagRun(ss, es) && NoLagStep(ss[|es|], e) ==> NoLagRun(ss', es'))
  {
    var ss', es' := ss + [Step(ss[|es|], e)], es + [e];
    forall i: nat | i < |es'| ensures StepAt(ss', es', i) {
      if i < |es| { assert StepAt(ss, es, i); }
    }
    if NoLagRun(ss, es) && NoLagStep(ss[|es|], e) {
      forall i: nat | i < |es'| ensures NoLagAt(ss', es', i) {
        if i < |es| { assert NoLagAt(ss, es, i); }
      }
    }
  }

  /** The state that the events lead to from s, if each is enabled in turn. */
  function After(s: System, es: seq<Event>): Option<System> {
    if es == [] then Some(s)
    else
      var before, e := After(s, es[..|es| - 1]), es[|es| - 1];
      if before.Some? && Enabled(before.value, e) then Some(Step(before.value, e)) else None
  }

  lemma AfterSnoc(s: System, es: seq<Event>, e: Event)
    requires After(s, es).Some? && Enabled(After(s, es).value, e)
    ensures After(s, es + [e]) == Some(Step(After(s, es).value, e))
  {
    assert (es + [e])[..|es|] == es;
  }
}
