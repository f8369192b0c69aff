/**
 Which servers can call which: breakConnection and createConnection, blacklists, cached connections and
 membership. A command reaches its two servers by separate calls, and the announcement that
 createConnection makes to the other end can fail.
 */
module Connections {
  import opened Graph

  /** One server's side: the members it lists, those with an open connection, and the blacklist. */
  datatype Conn = Conn(members: set<string>, cached: set<string>, black: set<string>)

  type Net = map<string, Conn>

  /******* Handlers *******/

  /** BreakConnection: blacklist the other end and close a connection to it. */
  function Blacklist(net: Net, at: string, id: string): Net
    requires at in net
  {
    net[at := net[at].(black := net[at].black + {id}, cached := net[at].cached - {id})]
  }

  /** NewServerNotification */
  function Learn(net: Net, at: string, id: string): Net
    requires at in net
  {
    if id == at then net else net[at := net[at].(members := net[at].members + {id})]
  }

  /** CreateConnection: clear the blacklist and announce oneself to the other end, which may not hear it. */
  function Restore(net: Net, at: string, id: string, heard: bool): Net
    requires at in net
  {
    var cleared := net[at := net[at].(black := net[at].black - {id})];
    if heard && id in net then Learn(cleared, id, at) else cleared
  }

  /** An unblacklisted member is dialled and the connection kept. */
  function Dial(net: Net, at: string, id: string): Net
    requires at in net
  {
    if id in net[at].members && id !in net[at].black
    then net[at := net[at].(cached := net[at].cached + {id})] else net
  }

  function Drop(net: Net, at: string, id: string): Net
    requires at in net
  {
    net[at := net[at].(members := net[at].members - {id}, cached := net[at].cached - {id})]
  }

  /** A call goes through on an open connection or one that may be dialled. */
  predicate Live(net: Net, i: string, j: string) {
    i in net && j in net[i].members && (j in net[i].cached || j !in net[i].black)
  }

  /******* Runs *******/

  datatype Event =
    | Start(id: string)
    | Break(at: string, id: string)
    | Create(at: string, id: string, heard: bool)
    | Found(at: string, id: string)
    | Lost(at: string, id: string)
    | Called(at: string, id: string)

  predicate Possible(net: Net, e: Event) {
    if e.Start? then e.id !in net else e.at in net
  }

  function Step(net: Net, e: Event): Net
    requires Possible(net, e)
  {
    match e
    case Start(id) => net[id := Conn({}, {}, {})]
    case Break(at, id) => Blacklist(net, at, id)
    case Create(at, id, heard) => Restore(net, at, id, heard)
    case Found(at, id) => Learn(net, at, id)
    case Lost(at, id) => Drop(net, at, id)
    case Called(at, id) => Dial(net, at, id)
  }

  ghost predicate StepAt(ns: seq<Net>, es: seq<Event>, i: nat) {
    i < |es| && i + 1 < |ns| && Possible(ns[i], es[i]) && ns[i + 1] == Step(ns[i], es[i])
  }

  ghost predicate IsRun(ns: seq<Net>, es: seq<Event>) {
    |ns| == |es| + 1 && ns[0] == map[] && forall i: nat | i < |es| :: StepAt(ns, es, i)
  }

  /** The last connection command that i was given about j is a break. */
  predicate CutOff(es: seq<Event>, i: string, j: string) {
    if es == [] then false
    else
      var e := es[|es| - 1];
      if (e.Break? || e.Create?) && e.at == i && e.id == j then e.Break? else CutOff(es[..|es| - 1], i, j)
  }

  lemma CutOffSnoc(es: seq<Event>, n: nat, i: string, j: string)
    requires n < |es|
    ensures CutOff(es[..n + 1], i, j)
            <==> if (es[n].Break? || es[n].Create?) && es[n].at == i && es[n].id == j then es[n].Break?
                 else CutOff(es[..n], i, j)
  {
    assert es[..n + 1][..n] == es[..n];
  }

  /** i's blacklist holds j exactly if i is cut off from it, and then no connection to it is open. */
  ghost predicate Exact(net: Net, es: seq<Event>, i: string, j: string) {
    if i in net then (j in net[i].black <==> CutOff(es, i, j)) && !(j in net[i].cached && j in net[i].black)
    else !CutOff(es, i, j)
  }

  lemma StepExact(net: Net, e: Event, before: seq<Event>, after: seq<Event>, i: string, j: string)
    requires Possible(net, e) && Exact(net, before, i, j)
    requires CutOff(after, i, j)
             <==> if (e.Break? || e.Create?) && e.at == i && e.id == j then e.Break? else CutOff(before, i, j)
    ensures Exact(Step(net, e), after, i, j)
  {
  }

  lemma {:induction false} BlacklistsExact(ns: seq<Net>, es: seq<Event>, n: nat, i: string, j: string)
    requires IsRun(ns, es) && n <= |es|
    ensures Exact(ns[n], es[..n], i, j)
  {
    if n > 0 {
      BlacklistsExact(ns, es, n - 1, i, j);
      assert StepAt(ns, es, n - 1);
      CutOffSnoc(es, n - 1, i, j);
      StepExact(ns[n - 1], es[n - 1], es[..n - 1], es[..n], i, j);
    }
  }

  /** In every run a call from i to j can pass exactly when i lists j and the last connection command i
      was given about j is not a break, whatever else has happened, cached connections included. */
  lemma CallPassesIff(ns: seq<Net>, es: seq<Event>, n: nat, i: string, j: string)
    requires IsRun(ns, es) && n <= |es| && i in ns[n]
    ensures Live(ns[n], i, j) <==> j in ns[n][i].members && !CutOff(es[..n], i, j)
  {
    BlacklistsExact(ns, es, n, i, j);
  }

  /** The last event that told i of j, or made it forget j, told it: j announced itself or gossip found it. */
  predicate Knows(es: seq<Event>, i: string, j: string) {
    if es == [] then false
    else
      var e := es[|es| - 1];
      if e.Found? && e.at == i && e.id == j && i != j then true
      else if e.Create? && e.heard && e.at == j && e.id == i && i != j then true
      else if e.Lost? && e.at == i && e.id == j then false
      else Knows(es[..|es| - 1], i, j)
  }

  /** An announcement is only heard by a server that is up. */
  ghost predicate HeardByRunning(ns: seq<Net>, es: seq<Event>) {
    forall n | 0 <= n < |es| && n < |ns| && es[n].Create? && es[n].heard :: es[n].id in ns[n]
  }

  lemma StepLists(net: Net, e: Event, before: seq<Event>, after: seq<Event>, i: string, j: string)
    requires Possible(net, e) && after == before + [e] && (e.Create? && e.heard ==> e.id in net)
    requires if i in net then j in net[i].members <==> Knows(before, i, j) else !Knows(before, i, j)
    ensures var net' := Step(net, e);
      if i in net' then j in net'[i].members <==> Knows(after, i, j) else !Knows(after, i, j)
  {
    assert after[..|after| - 1] == before;
  }

  /** In every run a server lists exactly those it was last told of rather than made to forget. */
  lemma {:induction false} ListedIff(ns: seq<Net>, es: seq<Event>, n: nat, i: string, j: string)
    requires IsRun(ns, es) && HeardByRunning(ns, es) && n <= |es|
    ensures if i in ns[n] then j in ns[n][i].members <==> Knows(es[..n], i, j) else !Knows(es[..n], i, j)
  {
    if n > 0 {
      ListedIff(ns, es, n - 1, i, j);
      assert StepAt(ns, es, n - 1);
      assert es[..n] == es[..n - 1] + [es[n - 1]];
      StepLists(ns[n - 1], es[n - 1], es[..n - 1], es[..n], i, j);
    }
  }

  /** A connection stays open from a call until a break of it or until the entry is dropped. */
  lemma {:induction false} ConnectionKept(ns: seq<Net>, es: seq<Event>, i: nat, j: nat, a: string, b: string)
    requires IsRun(ns, es) && i < j <= |es| && es[i] == Called(a, b) && Live(ns[i], a, b)
    requires forall n | i < n < j :: es[n] != Break(a, b) && es[n] != Lost(a, b)
    ensures a in ns[j] && b in ns[j][a].cached
    decreases j
  {
    assert StepAt(ns, es, j - 1);
    if i + 1 < j {
      ConnectionKept(ns, es, i, j - 1, a, b);
    } else {
      CallPassesIff(ns, es, i, a, b);
      BlacklistsExact(ns, es, i, a, b);
    }
  }

  lemma {:induction false} CutOffLasts(es: seq<Event>, i: nat, j: nat, a: string, b: string)
    requires i < j <= |es| && es[i] == Break(a, b)
    requires forall n | i < n < j :: !(es[n].Create? && es[n].at == a && es[n].id == b)
    ensures CutOff(es[..j], a, b)
    decreases j
  {
    CutOffSnoc(es, j - 1, a, b);
    if i + 1 < j { CutOffLasts(es, i, j - 1, a, b); }
  }

  /** From a break until the server is told to create the connection again, no call to the other end
      passes, whatever gossip finds or loses, whoever joins and whoever else is cut or joined. */
  lemma NoCallAcrossCut(ns: seq<Net>, es: seq<Event>, i: nat, j: nat, a: string, b: string)
    requires IsRun(ns, es) && i < j <= |es| && es[i] == Break(a, b)
    requires forall n | i < n < j :: !(es[n].Create? && es[n].at == a && es[n].id == b)
    ensures !Live(ns[j], a, b)
  {
    CutOffLasts(es, i, j, a, b);
    if a in ns[j] { CallPassesIff(ns, es, j, a, b); }
  }

  lemma {:induction false} ListedLasts(ns: seq<Net>, es: seq<Event>, i: nat, j: nat, a: string, b: string)
    requires IsRun(ns, es) && i < j <= |es| && a != b && es[i] == Create(b, a, true) && a in ns[i]
    requires forall n | i < n < j :: es[n] != Lost(a, b)
    ensures a in ns[j] && b in ns[j][a].members
    decreases j
  {
    assert StepAt(ns, es, j - 1);
    if i + 1 < j { ListedLasts(ns, es, i, j - 1, a, b); }
  }

  lemma {:induction false} MendedLasts(es: seq<Event>, i: nat, j: nat, a: string, b: string)
    requires i < j <= |es| && es[i].Create? && es[i].at == a && es[i].id == b
    requires forall n | i < n < j :: es[n] != Break(a, b)
    ensures !CutOff(es[..j], a, b)
    decreases j
  {
    CutOffSnoc(es, j - 1, a, b);
    if i + 1 < j { MendedLasts(es, i, j - 1, a, b); }
  }

  /** Once a has been told to create the connection, and b's announcement has reached a, calls from a to
      b pass until a is told to break it or b is dropped from a's list. */
  lemma CreatedLasts(ns: seq<Net>, es: seq<Event>, i: nat, m: nat, j: nat, a: string, b: string)
    requires IsRun(ns, es) && i < j <= |es| && m < j && a != b && a in ns[m]
    requires es[i].Create? && es[i].at == a && es[i].id == b && es[m] == Create(b, a, true)
    requires forall n | i < n < j :: es[n] != Break(a, b)
    requires forall n | m < n < j :: es[n] != Lost(a, b)
    ensures Live(ns[j], a, b)
  {
    MendedLasts(es, i, j, a, b);
    ListedLasts(ns, es, m, j, a, b);
    CallPassesIff(ns, es, j, a, b);
  }

  /******* The master's commands *******/

  /** Whom a command reaches: nobody, two servers, or the client alone of a server and a client. */
  datatype Ends = Rejected | ServerPair(first: string, second: string) | ClientPair(server: string, client: string)

  function Dispatch(servers: set<string>, clients: set<string>, id1: string, id2: string): Ends {
    if id1 !in servers && id1 !in clients then Rejected
    else if id2 !in servers && id2 !in clients then Rejected
    else if id1 in clients && id2 in clients then Rejected
    else if id1 in servers && id2 in servers then ServerPair(id1, id2)
    else if id1 in clients && id2 in servers then ClientPair(id2, id1)
    else ClientPair(id1, id2)
  }

  function Swapped(ends: Ends): Ends {
    if ends.ServerPair? then ServerPair(ends.second, ends.first) else ends
  }

  /** A command reaches one server and one client, or two servers, whichever is named first. */
  lemma DispatchExact(servers: set<string>, clients: set<string>, a: string, b: string)
    ensures Dispatch(servers, clients, b, a) == Swapped(Dispatch(servers, clients, a, b))
    ensures forall s, c :: Dispatch(servers, clients, a, b) == ClientPair(s, c) ==>
              s in servers && c in clients && {s, c} == {a, b}
    ensures Dispatch(servers, clients, a, b) == Rejected
            <==> (a !in servers + clients) || (b !in servers + clients) || (a in clients && b in clients)
    ensures Dispatch(servers, clients, a, b) == ServerPair(a, b)
            <==> a in servers && b in servers && !(a in clients && b in clients)
  {
  }

  /** A command with the servers and clients the master knows when it is given. heard says whether the
      first and the second announcement of createConnection arrive. */
  datatype Command =
    | BreakConnection(servers: set<string>, clients: set<string>, id1: string, id2: string)
    | CreateConnection(servers: set<string>, clients: set<string>, id1: string, id2: string, heard: (bool, bool))

  function EndsOf(c: Command): Ends {
    Dispatch(c.servers, c.clients, c.id1, c.id2)
  }

  /** A command about two servers is told to both, one after the other. */
  function Calls(c: Command): seq<Event> {
    match EndsOf(c)
    case ServerPair(first, second) =>
      if c.BreakConnection? then [Break(first, second), Break(second, first)]
      else [Create(first, second, c.heard.0), Create(second, first, c.heard.1)]
    case _ => []
  }

  function AllCalls(cs: seq<Command>): seq<Event> {
    if cs == [] then [] else AllCalls(cs[..|cs| - 1]) + Calls(cs[|cs| - 1])
  }

  /** The connection commands among the events. */
  function Orders(es: seq<Event>): seq<Event> {
    if es == [] then []
    else
      var e := es[|es| - 1];
      if e.Break? || e.Create? then Orders(es[..|es| - 1]) + [e] else Orders(es[..|es| - 1])
  }

  lemma {:induction false} OnlyOrdersCut(es: seq<Event>, i: string, j: string)
    ensures CutOff(es, i, j) == CutOff(Orders(es), i, j)
  {
    if es != [] {
      var front, e := es[..|es| - 1], es[|es| - 1];
      OnlyOrdersCut(front, i, j);
      if e.Break? || e.Create? { assert (Orders(front) + [e])[..|Orders(front)|] == Orders(front); }
    }
  }

  /** The command's ids are i and j, in either order; the master knows both as servers, and does not take
      both for clients. */
  predicate Names(c: Command, i: string, j: string) {
    && ((c.id1 == i && c.id2 == j) || (c.id1 == j && c.id2 == i))
    && i in c.servers && j in c.servers && !(i in c.clients && j in c.clients)
  }

  lemma CutOffAfterCalls(es: seq<Event>, c: Command, i: string, j: string)
    ensures CutOff(es + Calls(c), i, j) == if Names(c, i, j) then c.BreakConnection? else CutOff(es, i, j)
  {
    DispatchExact(c.servers, c.clients, c.id1, c.id2);
    var calls := Calls(c);
    if calls == [] {
      assert es + calls == es;
    } else {
      assert es + calls == es + [calls[0]] + [calls[1]];
      assert (es + [calls[0]] + [calls[1]])[..|es| + 1] == es + [calls[0]];
      assert (es + [calls[0]])[..|es|] == es;
    }
  }

  /** The order in which a command names its ends does not matter to who is cut off from whom. */
  lemma IdsCommute(es: seq<Event>, c: Command, i: string, j: string)
    ensures CutOff(es + Calls(c.(id1 := c.id2, id2 := c.id1)), i, j) == CutOff(es + Calls(c), i, j)
  {
    CutOffAfterCalls(es, c, i, j);
    CutOffAfterCalls(es, c.(id1 := c.id2, id2 := c.id1), i, j);
  }

  /** The last command that names the pair, in either order, is a break. */
  predicate Severed(cs: seq<Command>, i: string, j: string) {
    cs != [] && var c := cs[|cs| - 1];
      if Names(c, i, j) then c.BreakConnection? else Severed(cs[..|cs| - 1], i, j)
  }

  /** Commands told at both ends cut both ways. */
  lemma {:induction false} CutsAreMutual(cs: seq<Command>, i: string, j: string)
    ensures CutOff(AllCalls(cs), i, j) == Severed(cs, i, j) == Severed(cs, j, i)
  {
    if cs != [] {
      var front, c := cs[..|cs| - 1], cs[|cs| - 1];
      CutsAreMutual(front, i, j);
      CutOffAfterCalls(AllCalls(front), c, i, j);
    }
  }

  /** In every run, whenever the master's commands so far have been told at both ends, a call from i to j
      can pass exactly when i lists j and the last command that names the two is not a break. */
  lemma LiveIffNotSevered(ns: seq<Net>, es: seq<Event>, n: nat, cs: seq<Command>, i: string, j: string)
    requires IsRun(ns, es) && n <= |es| && Orders(es[..n]) == AllCalls(cs) && i in ns[n]
    ensures Live(ns[n], i, j) <==> j in ns[n][i].members && !Severed(cs, i, j)
  {
    CallPassesIff(ns, es, n, i, j);
    OnlyOrdersCut(es[..n], i, j);
    CutsAreMutual(cs, i, j);
  }

  /** The edges that stabilize pushes along. */
  ghost function LiveEdges(net: Net): Edges {
    set i, j | i in net && j in net && Live(net, i, j) :: (i, j)
  }

  /** Then the live edges are undirected exactly when servers that are not severed list each other or
      neither lists the other. */
  lemma UndirectedIff(ns: seq<Net>, es: seq<Event>, n: nat, cs: seq<Command>)
    requires IsRun(ns, es) && n <= |es| && Orders(es[..n]) == AllCalls(cs)
    ensures Within(LiveEdges(ns[n]), ns[n].Keys)
    ensures Symmetric(LiveEdges(ns[n]))
            <==> forall i, j | i in ns[n] && j in ns[n] && !Severed(cs, i, j) ::
                   j in ns[n][i].members ==> i in ns[n][j].members
  {
    var net := ns[n];
    forall i, j | i in net && j in net
      ensures (i, j) in LiveEdges(net) <==> j in net[i].members && !Severed(cs, i, j)
      ensures Severed(cs, i, j) == Severed(cs, j, i)
    {
      LiveIffNotSevered(ns, es, n, cs, i, j);
      CutsAreMutual(cs, i, j);
    }
    if Symmetric(LiveEdges(net)) {
      forall i, j | i in net && j in net && !Severed(cs, i, j) && j in net[i].members
        ensures i in net[j].members
      {
        assert (i, j) in LiveEdges(net);
        assert ((i, j).1, (i, j).0) in LiveEdges(net);
      }
    }
  }
}
