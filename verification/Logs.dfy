/**
 The write logs over whole runs.
 */
module Logs {
  import opened Lamport
  import opened R = Replica
  import opened System

  ghost predicate LogKept(s: System, s': System, id: string) {
    id in s.servers ==> id in s'.servers && s.servers[id].log <= s'.servers[id].log
  }

  lemma LogKeptAt(ss: seq<System>, es: seq<Event>, i: nat, id: string)
    requires IsRun(ss, es) && i < |es|
    ensures LogKept(ss[i], ss[i + 1], id)
  {
    At(ss, es, i);
  }

  /** Entries of a log never change once appended, though the store's records are updated in place. */
  lemma {:induction false} LogFrozen(ss: seq<System>, es: seq<Event>, i: nat, j: nat, id: string)
    requires IsRun(ss, es) && i <= j <= |es|
    ensures LogKept(ss[i], ss[j], id)
    decreases j
  {
    if i < j {
      LogFrozen(ss, es, i, j - 1, id);
      LogKeptAt(ss, es, j - 1, id);
    }
  }

  predicate PushedTo(e: Event, id: string) {
    e.DeliverPush? && e.push.dest == id
  }

  ghost predicate ReplaysAt(s: System, id: string) {
    id in s.servers ==> LogReplays(s.servers[id])
  }

  lemma HandledReplays(s: System, e: Event)
    requires Enabled(s, e) && Target(e).Some? && !e.DeliverPush? && ReplaysAt(s, Target(e).value)
    ensures LogReplays(Handled(s, e))
  {
    match e {
      case ClientPut(client, server, key, value, _, _) =>
        PutKeepsReplay(s.servers[server], key, value, RequestVersion(SessionOf(s, client), key));
      case DeliverWrite(write, _) => RemoteWriteKeepsReplay(s.servers[write.dest], write.kv);
      case _ =>
    }
  }

  lemma ReplayAt(ss: seq<System>, es: seq<Event>, i: nat, id: string)
    requires IsRun(ss, es) && i < |es| && ReplaysAt(ss[i], id) && !PushedTo(es[i], id)
    ensures ReplaysAt(ss[i + 1], id)
  {
    At(ss, es, i);
    if Target(es[i]) == Some(id) {
      HandledReplays(ss[i], es[i]);
    }
  }

  /** A server that no push has reached holds exactly the store its log replays to: the last logged
      write of each key. */
  lemma {:induction false} ReplayInvariant(ss: seq<System>, es: seq<Event>, i: nat, id: string)
    requires Execution(ss, es) && i <= |es|
    requires forall j | 0 <= j < i :: !PushedTo(es[j], id)
    ensures ReplaysAt(ss[i], id)
  {
    if i > 0 {
      ReplayInvariant(ss, es, i - 1, id);
      ReplayAt(ss, es, i - 1, id);
    }
  }
}
