/**
 The versioned key-value store as a value: one record per key, merged by version.
 */
module Store {

  datatype KeyValue = KeyValue(key: string, value: string, version: real)

  type Store = map<string, KeyValue>

  ghost predicate WellKeyed(store: Store) {
    forall k | k in store :: store[k].key == k
  }

  /** A remote write: a new key is taken as it is, a known key only with a higher version. */
  function Write(store: Store, kv: KeyValue): Store {
    if kv.key !in store || kv.version > store[kv.key].version then store[kv.key := kv] else store
  }

  /** A whole-store push; ties keep the record already there. */
  function Merge(store: Store, incoming: Store): Store {
    map k | k in store.Keys + incoming.Keys ::
      if k !in incoming then store[k]
      else if k !in store || incoming[k].version > store[k].version then incoming[k]
      else store[k]
  }

  /** Every key of a is in b with a version at least as high. */
  ghost predicate Below(a: Store, b: Store) {
    forall k | k in a :: k in b && a[k].version <= b[k].version
  }

  lemma MergeIsUpperBound(store: Store, incoming: Store)
    ensures Below(store, Merge(store, incoming)) && Below(incoming, Merge(store, incoming))
  {
    assert Merge(store, incoming).Keys == store.Keys + incoming.Keys;
  }

  /******* Order of arrival *******/

  datatype Update = RemoteWrite(kv: KeyValue) | Push(incoming: Store)

  function Receive(store: Store, u: Update): Store {
    match u
    case RemoteWrite(kv) => Write(store, kv)
    case Push(incoming) => Merge(store, incoming)
  }

  function ReceiveAll(store: Store, us: seq<Update>): Store
    decreases |us|
  {
    if us == [] then store else ReceiveAll(Receive(store, us[0]), us[1..])
  }

  /** The record u offers for key k. */
  ghost predicate Carries(u: Update, k: string, kv: KeyValue) {
    match u
    case RemoteWrite(w) => w.key == k && w == kv
    case Push(incoming) => k in incoming && incoming[k] == kv
  }

  /** kv competes for key k: it is in the store at the start or some update carries it. */
  ghost predicate Candidate(store: Store, us: seq<Update>, k: string, kv: KeyValue) {
    (k in store && store[k] == kv) || exists i | 0 <= i < |us| :: Carries(us[i], k, kv)
  }

  /** Records for one key that agree on the version agree on the value. */
  ghost predicate Agreement(store: Store, us: seq<Update>) {
    forall k, x, y | Candidate(store, us, k, x) && Candidate(store, us, k, y) ::
      x.version == y.version ==> x == y
  }

  /** kv is a highest-version candidate for k. */
  ghost predicate Wins(store: Store, us: seq<Update>, k: string, kv: KeyValue) {
    && Candidate(store, us, k, kv)
    && forall x | Candidate(store, us, k, x) :: x.version <= kv.version
  }

  lemma CandidateStep(store: Store, us: seq<Update>, k: string, kv: KeyValue)
    requires us != []
    ensures Candidate(Receive(store, us[0]), us[1..], k, kv) ==> Candidate(store, us, k, kv)
    ensures Candidate(store, us, k, kv) ==>
              var next := Receive(store, us[0]);
              || Candidate(next, us[1..], k, kv)
              || (k in next && kv.version <= next[k].version)
  {
    if i :| 0 <= i < |us[1..]| && Carries(us[1..][i], k, kv) {
      assert Carries(us[i + 1], k, kv);
    }
    if i :| 0 <= i < |us| && Carries(us[i], k, kv) {
      if i > 0 { assert Carries(us[1..][i - 1], k, kv); }
    }
  }

  /** Folding any updates leaves, for each key, a record of the highest version offered. */
  lemma {:induction false} HighestWins(store: Store, us: seq<Update>, k: string)
    ensures k in ReceiveAll(store, us) <==> exists kv :: Candidate(store, us, k, kv)
    ensures k in ReceiveAll(store, us) ==> Wins(store, us, k, ReceiveAll(store, us)[k])
    decreases |us|
  {
    if us == [] {
      if k in store { assert Candidate(store, us, k, store[k]); }
    } else {
      var next := Receive(store, us[0]);
      HighestWins(next, us[1..], k);
      forall kv { CandidateStep(store, us, k, kv); }
      if k in next { assert Candidate(next, us[1..], k, next[k]); }
    }
  }

  /** No update before the i-th offers k with a version at least v, and the store has none. */
  ghost predicate NoneBefore(store: Store, us: seq<Update>, i: nat, k: string, v: real)
    requires i <= |us|
  {
    && (k in store ==> store[k].version < v)
    && forall j, kv | 0 <= j < i && Carries(us[j], k, kv) :: kv.version < v
  }

  /** Ties go to whoever was first: the record that the updates leave is the one in the store, if no update
      exceeds it, and otherwise that of the first update with the highest version offered. */
  lemma {:induction false} FirstOfHighestWins(store: Store, us: seq<Update>, k: string)
    requires k in ReceiveAll(store, us)
    ensures var kv := ReceiveAll(store, us)[k];
      || (k in store && kv == store[k])
      || exists i :: 0 <= i < |us| && Carries(us[i], k, kv) && NoneBefore(store, us, i, k, kv.version)
    ensures forall i, kv | 0 <= i < |us| && Carries(us[i], k, kv) :: kv.version <= ReceiveAll(store, us)[k].version
    ensures k in store ==> store[k].version <= ReceiveAll(store, us)[k].version
    decreases |us|
  {
    HighestWins(store, us, k);
    var kv := ReceiveAll(store, us)[k];
    forall i, x | 0 <= i < |us| && Carries(us[i], k, x) ensures x.version <= kv.version {
      assert Candidate(store, us, k, x);
    }
    if k in store { assert Candidate(store, us, k, store[k]); }
    if us != [] {
      var next, rest := Receive(store, us[0]), us[1..];
      FirstOfHighestWins(next, rest, k);
      if i :| 0 <= i < |rest| && Carries(rest[i], k, kv) && NoneBefore(next, rest, i, k, kv.version) {
        FirstLater(store, us, i, k, kv);
      } else if k !in store || kv != store[k] {
        assert Carries(us[0], k, kv) && NoneBefore(store, us, 0, k, kv.version);
      }
    }
  }

  lemma FirstLater(store: Store, us: seq<Update>, i: nat, k: string, kv: KeyValue)
    requires us != [] && i < |us| - 1 && Carries(us[1..][i], k, kv)
    requires NoneBefore(Receive(store, us[0]), us[1..], i, k, kv.version)
    ensures Carries(us[i + 1], k, kv) && NoneBefore(store, us, i + 1, k, kv.version)
  {
    forall j, x | 0 <= j < i + 1 && Carries(us[j], k, x) ensures x.version < kv.version {
      if j > 0 { assert Carries(us[1..][j - 1], k, x); }
    }
  }

  /** Of two remote writes of one key with one version, the one that arrives first stays. */
  lemma FirstOfTwoStays(x: KeyValue, y: KeyValue)
    requires x.key == y.key && x.version == y.version
    ensures ReceiveAll(map[], [RemoteWrite(x), RemoteWrite(y)]) == map[x.key := x]
  {
    var us := [RemoteWrite(x), RemoteWrite(y)];
    assert us[1..] == [RemoteWrite(y)] && us[1..][1..] == [];
    assert Receive(map[], us[0]) == map[x.key := x];
    assert ReceiveAll(map[x.key := x], us[1..]) == Receive(map[x.key := x], us[1]);
  }

  ghost predicate SameUpdates(us: seq<Update>, vs: seq<Update>) {
    && (forall u | u in us :: u in vs)
    && (forall v | v in vs :: v in us)
  }

  lemma SameCandidates(store: Store, us: seq<Update>, vs: seq<Update>, k: string, kv: KeyValue)
    requires SameUpdates(us, vs)
    ensures Candidate(store, us, k, kv) <==> Candidate(store, vs, k, kv)
  {
    if i :| 0 <= i < |us| && Carries(us[i], k, kv) { assert us[i] in vs; }
    if i :| 0 <= i < |vs| && Carries(vs[i], k, kv) { assert vs[i] in us; }
  }

  /** Reordering or repeating remote writes and pushes does not change the store they lead to. */
  lemma OrderIrrelevant(store: Store, us: seq<Update>, vs: seq<Update>)
    requires Agreement(store, us) && SameUpdates(us, vs)
    ensures ReceiveAll(store, us) == ReceiveAll(store, vs)
  {
    var a, b := ReceiveAll(store, us), ReceiveAll(store, vs);
    forall k, kv { SameCandidates(store, us, vs, k, kv); }
    forall k ensures k in a <==> k in b {
      HighestWins(store, us, k);
      HighestWins(store, vs, k);
    }
    forall k | k in a ensures a[k] == b[k] {
      HighestWins(store, us, k);
      HighestWins(store, vs, k);
      SameCandidates(store, us, vs, k, a[k]);
      SameCandidates(store, us, vs, k, b[k]);
    }
  }

  /** Agreement is needed exactly: two candidates of one version and different content make the
      order of arrival visible. */
  lemma OrderMattersWithoutAgreement(x: KeyValue, y: KeyValue)
    requires x.key == y.key
    ensures ReceiveAll(map[], [RemoteWrite(x), RemoteWrite(y)]) != ReceiveAll(map[], [RemoteWrite(y), RemoteWrite(x)])
            <==> x != y && x.version == y.version
  {
    forall p: KeyValue, q: KeyValue | p.key == q.key
      ensures ReceiveAll(map[], [RemoteWrite(p), RemoteWrite(q)])
              == map[p.key := if q.version > p.version then q else p]
    {
      var us := [RemoteWrite(p), RemoteWrite(q)];
      assert us[1..] == [RemoteWrite(q)];
      assert us[1..][1..] == [];
      var one := Receive(map[], us[0]);
      assert one == map[p.key := p];
      assert ReceiveAll(one, us[1..]) == Receive(one, us[1]);
    }
    var a := ReceiveAll(map[], [RemoteWrite(x), RemoteWrite(y)]);
    var b := ReceiveAll(map[], [RemoteWrite(y), RemoteWrite(x)]);
    assert a[x.key] == if y.version > x.version then y else x;
    assert b[x.key] == if x.version > y.version then x else y;
  }
}
