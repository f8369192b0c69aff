/**
 Choosing heartbeat recipients: a scan over the members with two indices.
 */
module Fanout {

  ghost predicate Increasing(s: seq<int>) {
    forall i, j | 0 <= i < j < |s| :: s[i] < s[j]
  }

  ghost predicate DistinctMembers(s: seq<string>) {
    forall i, j | 0 <= i < j < |s| :: s[i] != s[j]
  }

  lemma {:induction false} AtLeastIndex(s: seq<int>, i: nat)
    requires Increasing(s) && i < |s| && s[0] >= 0
    ensures s[i] >= i
  {
    if i > 0 {
      AtLeastIndex(s, i - 1);
    }
  }

  /** perm holds sorted random positions, min(fanout, size) of them. The scan never reads past its
      end, and picks exactly the members at those positions. */
  method PickRecipients(members: seq<string>, fanout: nat, perm: seq<int>) returns (picked: seq<string>)
    requires |perm| == if fanout < |members| then fanout else |members|
    requires Increasing(perm) && forall i | 0 <= i < |perm| :: 0 <= perm[i] < |members|
    ensures |picked| == |perm| && forall i | 0 <= i < |perm| :: picked[i] == members[perm[i]]
    ensures DistinctMembers(members) ==> DistinctMembers(picked)
  {
    var pidx, kidx := 0, 0;
    picked := [];
    while kidx < |members|
      invariant 0 <= pidx <= |perm| && kidx <= |members| && |picked| == pidx
      invariant forall i | 0 <= i < pidx :: picked[i] == members[perm[i]]
      invariant pidx < |perm| ==> perm[pidx] >= kidx
      invariant pidx > 0 ==> perm[pidx - 1] < kidx
    {
      if pidx >= fanout {
        break;
      }
      if pidx == |perm| {
        AtLeastIndex(perm, pidx - 1);
        assert false;
      }
      if perm[pidx] == kidx {
        picked := picked + [members[kidx]];
        pidx := pidx + 1;
      }
      kidx := kidx + 1;
    }
  }
}
