/**
 A client: the servers it is connected to and the versions it has recorded.
 */
module Client {
  import opened Lamport
  import opened Store
  import opened System
  import R = Replica

  datatype Request = PutRequest(key: string, value: string) | GetRequest(key: string)

  /** What becomes of a call: the server cannot be dialled; an error comes back, though nothing was done;
      an error comes back, but the server has acted; the server's answer. A server that acts on a put
      sends the write to the members it reaches. */
  datatype Fate = NoConnection | CallFailed | AnswerLost(reached: set<string>) | Answered(reached: set<string>)

  /** What the client meets while it serves one request: the fate of its call on each server, and the
      events that come before that call. */
  datatype World = World(fate: string -> Fate, meanwhile: string -> seq<Event>)

  /** The event is a call by the client. */
  predicate By(e: Event, name: string) {
    (e.ClientPut? || e.ClientGet?) && e.client == name
  }

  /** The client's own events among es. */
  function Own(es: seq<Event>, name: string): seq<Event> {
    if es == [] then []
    else
      var own, e := Own(es[..|es| - 1], name), es[|es| - 1];
      if By(e, name) then own + [e] else own
  }

  lemma OwnSnoc(es: seq<Event>, e: Event, name: string)
    ensures Own(es + [e], name) == if By(e, name) then Own(es, name) + [e] else Own(es, name)
  {
    assert (es + [e])[..|es|] == es;
  }

  function Call(name: string, request: Request, id: string, reached: set<string>, answered: bool): (e: Event)
    ensures By(e, name)
  {
    match request
    case PutRequest(key, value) => ClientPut(name, id, key, value, reached, answered)
    case GetRequest(key) => ClientGet(name, id, key, answered)
  }

  /** The step, if any, that a call with this fate takes. */
  function Acted(name: string, request: Request, id: string, fate: Fate): seq<Event> {
    match fate
    case NoConnection => []
    case CallFailed => []
    case AnswerLost(reached) => [Call(name, request, id, reached, false)]
    case Answered(reached) => [Call(name, request, id, reached, true)]
  }

  /** The steps of a request, in the order in which the servers are tried. */
  function Calls(name: string, request: Request, tried: seq<string>, fate: string -> Fate): seq<Event> {
    if tried == [] then []
    else
      var id := tried[|tried| - 1];
      Calls(name, request, tried[..|tried| - 1], fate) + Acted(name, request, id, fate(id))
  }

  lemma CallsSnoc(name: string, request: Request, tried: seq<string>, id: string, fate: string -> Fate)
    ensures Calls(name, request, tried + [id], fate)
            == Calls(name, request, tried, fate) + Acted(name, request, id, fate(id))
  {
    assert (tried + [id])[..|tried|] == tried;
  }

  /** The servers tried, in order: distinct members, until one answers or none is left. */
  ghost predicate TriedInTurn(tried: seq<string>, members: set<string>, fate: string -> Fate) {
    && (forall i | 0 <= i < |tried| :: tried[i] in members)
    && (forall i, j | 0 <= i < j < |tried| :: tried[i] != tried[j] && !fate(tried[i]).Answered?)
    && ((tried != [] && fate(tried[|tried| - 1]).Answered?) || forall id | id in members :: id in tried)
  }

  /** A run from s in which the client's events are its calls on the servers tried, and any others. */
  ghost predicate Served(s: System, es: seq<Event>, name: string, request: Request, tried: seq<string>,
                         fate: string -> Fate) {
    After(s, es).Some? && Own(es, name) == Calls(name, request, tried, fate)
  }

  lemma Unanswered(s: System, e: Event, name: string)
    requires Enabled(s, e) && (By(e, name) ==> !e.answered)
    ensures SessionOf(Step(s, e), name) == SessionOf(s, name) && s.servers.Keys <= Step(s, e).servers.Keys
  {
  }

  lemma OneMore(s: System, es: seq<Event>, now: System, e: Event, name: string)
    requires After(s, es) == Some(now) && Enabled(now, e)
    ensures After(s, es + [e]) == Some(Step(now, e))
    ensures Own(es + [e], name) == if By(e, name) then Own(es, name) + [e] else Own(es, name)
    ensures (By(e, name) ==> !e.answered) ==>
              SessionOf(Step(now, e), name) == SessionOf(now, name) && now.servers.Keys <= Step(now, e).servers.Keys
  {
    AfterSnoc(s, es, e);
    OwnSnoc(es, e, name);
    if By(e, name) ==> !e.answered { Unanswered(now, e, name); }
  }

  /** The run es from s to now goes on with those events of other clients, servers and the network that
      are possible in turn. */
  method Others(now: System, name: string, more: seq<Event>, ghost s: System, ghost es: seq<Event>)
    returns (after: System, ghost es': seq<Event>)
    requires After(s, es) == Some(now)
    ensures After(s, es') == Some(after) && Own(es', name) == Own(es, name)
    ensures SessionOf(after, name) == SessionOf(now, name) && now.servers.Keys <= after.servers.Keys
  {
    after, es' := now, es;
    for i := 0 to |more|
      invariant After(s, es') == Some(after) && Own(es', name) == Own(es, name)
      invariant SessionOf(after, name) == SessionOf(now, name) && now.servers.Keys <= after.servers.Keys
    {
      if Enabled(after, more[i]) && !By(more[i], name) {
        OneMore(s, es', after, more[i], name);
        after, es' := Step(after, more[i]), es' + [more[i]];
      }
    }
  }

  /** The reply to the call that ends the run. */
  function LastReply(s: System, es: seq<Event>): Option<KeyValue>
    requires After(s, es).Some?
  {
    if es == [] then None
    else
      var before, e := After(s, es[..|es| - 1]).value, es[|es| - 1];
      if e.ClientPut? || e.ClientGet? then Some(Reply(before, e)) else None
  }

  function Recorded(session: Session, request: Request, reply: KeyValue): Session {
    if request.PutRequest? then RecordPut(session, reply) else RecordGet(session, reply)
  }

  /** A call on which the server acts is the next step of the run. */
  lemma CallStep(s: System, es: seq<Event>, now: System, name: string, request: Request, e: Event)
    requires After(s, es) == Some(now) && Enabled(now, e) && By(e, name)
    requires request.PutRequest? ==> e.ClientPut? && e.key == request.key && e.value == request.value
    requires request.GetRequest? ==> e.ClientGet? && e.key == request.key
    ensures After(s, es + [e]) == Some(Step(now, e)) && now.servers.Keys <= Step(now, e).servers.Keys
    ensures Own(es + [e], name) == Own(es, name) + [e] && LastReply(s, es + [e]) == Some(Reply(now, e))
    ensures SessionOf(Step(now, e), name)
            == if e.answered then Recorded(SessionOf(now, name), request, Reply(now, e)) else SessionOf(now, name)
  {
    AfterSnoc(s, es, e);
    OwnSnoc(es, e, name);
    assert (es + [e])[..|es|] == es;
  }

  /** One call: what happens before it, then the call. */
  method Rpc(name: string, request: Request, id: string, world: World, now: System, ghost s: System,
             ghost es: seq<Event>)
    returns (reply: Option<KeyValue>, after: System, ghost es': seq<Event>)
    requires After(s, es) == Some(now) && id in now.servers
    ensures After(s, es') == Some(after) && now.servers.Keys <= after.servers.Keys
    ensures Own(es', name) == Own(es, name) + Acted(name, request, id, world.fate(id))
    ensures reply.Some? <==> world.fate(id).Answered?
    ensures reply.Some? ==> LastReply(s, es') == reply
    ensures SessionOf(after, name) ==
            if reply.Some? then Recorded(SessionOf(now, name), request, reply.value) else SessionOf(now, name)
  {
    after, es' := Others(now, name, world.meanwhile(id), s, es);
    reply := None;
    match world.fate(id) {
      case NoConnection =>
      case CallFailed =>
      case AnswerLost(reached) =>
        var e := Call(name, request, id, reached, false);
        CallStep(s, es', after, name, request, e);
        after, es' := Step(after, e), es' + [e];
      case Answered(reached) =>
        var e := Call(name, request, id, reached, true);
        CallStep(s, es', after, name, request, e);
        reply := Some(Reply(after, e));
        after, es' := Step(after, e), es' + [e];
    }
  }

  /** The servers not in rest have been tried, and none has answered. */
  ghost predicate NoneYet(tried: seq<string>, rest: set<string>, members: set<string>, fate: string -> Fate) {
    && rest <= members
    && (forall i | 0 <= i < |tried| :: tried[i] in members && tried[i] !in rest && !fate(tried[i]).Answered?)
    && (forall i, j | 0 <= i < j < |tried| :: tried[i] != tried[j])
    && (forall id | id in members :: id in rest || id in tried)
  }

  lemma TryNext(tried: seq<string>, rest: set<string>, members: set<string>, fate: string -> Fate, id: string)
    requires NoneYet(tried, rest, members, fate) && id in rest
    ensures fate(id).Answered? ==> TriedInTurn(tried + [id], members, fate)
    ensures !fate(id).Answered? ==> NoneYet(tried + [id], rest - {id}, members, fate)
  {
  }

  class ClientListener {
    var servMap: map<string, string>
    var keyVersionInfo: Session

    constructor (server: string, address: string)
      ensures servMap == map[server := address] && keyVersionInfo == map[]
    {
      servMap := map[server := address];
      keyVersionInfo := map[];
    }

    method CreateConnection(id: string, address: string)
      modifies this`servMap
      ensures servMap == map[id := address] + old(servMap)
    {
      if id !in servMap {
        servMap := servMap[id := address];
      }
    }

    method BreakConnection(id: string)
      modifies this`servMap
      ensures servMap == old(servMap) - {id}
    {
      if id in servMap {
        servMap := map s | s in servMap && s != id :: servMap[s];
      }
    }

    method RecordPutReply(reply: KeyValue)
      modifies this`keyVersionInfo
      ensures keyVersionInfo == RecordPut(old(keyVersionInfo), reply)
    {
      keyVersionInfo := keyVersionInfo[reply.key := reply.version];
    }

    method RecordGetReply(reply: KeyValue)
      modifies this`keyVersionInfo
      ensures keyVersionInfo == RecordGet(old(keyVersionInfo), reply)
    {
      if reply.value != R.ERR_DEP && reply.value != R.ERR_KEY {
        keyVersionInfo := keyVersionInfo[reply.key := reply.version];
      }
    }

    /** Tries the servers in some order until one answers, and records the version it answers with. Each
        call that reaches a server is a step of the system, answered or not. */
    method PutKVClient(name: string, key: string, value: string, world: World, s: System)
      returns (ok: bool, ghost tried: seq<string>, ghost es: seq<Event>)
      requires keyVersionInfo == SessionOf(s, name) && servMap.Keys <= s.servers.Keys
      modifies this`keyVersionInfo
      ensures TriedInTurn(tried, servMap.Keys, world.fate)
      ensures ok <==> exists id :: id in servMap && world.fate(id).Answered?
      ensures Served(s, es, name, PutRequest(key, value), tried, world.fate)
      ensures keyVersionInfo == SessionOf(After(s, es).value, name)
      ensures !ok ==> keyVersionInfo == old(keyVersionInfo)
    {
      var now, rest := s, servMap.Keys;
      tried, es := [], [];
      while rest != {}
        invariant NoneYet(tried, rest, servMap.Keys, world.fate) && servMap.Keys <= now.servers.Keys
        invariant Served(s, es, name, PutRequest(key, value), tried, world.fate) && After(s, es) == Some(now)
        invariant keyVersionInfo == old(keyVersionInfo) == SessionOf(now, name)
      {
        var id :| id in rest;
        TryNext(tried, rest, servMap.Keys, world.fate, id);
        CallsSnoc(name, PutRequest(key, value), tried, id, world.fate);
        var reply;
        reply, now, es := Rpc(name, PutRequest(key, value), id, world, now, s, es);
        rest, tried := rest - {id}, tried + [id];
        if reply.Some? {
          RecordPutReply(reply.value);
          return true, tried, es;
        }
      }
      ok := false;
    }

    /** As for a put; the reply is that of the server that answers, and its version is recorded unless it
        reports an error. */
    method GetKVClient(name: string, key: string, world: World, s: System)
      returns (answer: Option<KeyValue>, ghost tried: seq<string>, ghost es: seq<Event>)
      requires keyVersionInfo == SessionOf(s, name) && servMap.Keys <= s.servers.Keys
      modifies this`keyVersionInfo
      ensures TriedInTurn(tried, servMap.Keys, world.fate)
      ensures answer.Some? <==> exists id :: id in servMap && world.fate(id).Answered?
      ensures Served(s, es, name, GetRequest(key), tried, world.fate)
      ensures answer.Some? ==> LastReply(s, es) == answer
      ensures keyVersionInfo == SessionOf(After(s, es).value, name)
      ensures answer.None? ==> keyVersionInfo == old(keyVersionInfo)
    {
      var now, rest := s, servMap.Keys;
      tried, es := [], [];
      while rest != {}
        invariant NoneYet(tried, rest, servMap.Keys, world.fate) && servMap.Keys <= now.servers.Keys
        invariant Served(s, es, name, GetRequest(key), tried, world.fate) && After(s, es) == Some(now)
        invariant keyVersionInfo == old(keyVersionInfo) == SessionOf(now, name)
      {
        var id :| id in rest;
        TryNext(tried, rest, servMap.Keys, world.fate, id);
        CallsSnoc(name, GetRequest(key), tried, id, world.fate);
        var reply;
        reply, now, es := Rpc(name, GetRequest(key), id, world, now, s, es);
        rest, tried := rest - {id}, tried + [id];
        if reply.Some? {
          RecordGetReply(reply.value);
          return reply, tried, es;
        }
      }
      answer := None;
    }
  }
}
