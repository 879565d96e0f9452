/** A flag that some events of a run set and others clear, told from the history of the run. */
module RunHistory {

  /** Event j sets the flag, and no later event before k clears it. */
  predicate LastsFrom(sets: seq<bool>, clears: seq<bool>, j: nat, k: nat)
    requires k <= |sets| == |clears|
  {
    j < k && sets[j] && forall l :: j < l < k ==> !clears[l]
  }

  /** Something since i has set the flag, and nothing cleared it again. */
  ghost predicate SetSince(sets: seq<bool>, clears: seq<bool>, i: nat, k: nat)
    requires k <= |sets| == |clears|
  {
    exists j :: i <= j && LastsFrom(sets, clears, j, k)
  }

  lemma SetSinceOneMore(sets: seq<bool>, clears: seq<bool>, i: nat, k: nat)
    requires i < k <= |sets| == |clears|
    ensures SetSince(sets, clears, i, k) == (sets[k - 1] || (SetSince(sets, clears, i, k - 1) && !clears[k - 1]))
  {
    if sets[k - 1] {
      assert LastsFrom(sets, clears, k - 1, k);
    } else if SetSince(sets, clears, i, k) {
      var j :| i <= j && LastsFrom(sets, clears, j, k);
      assert LastsFrom(sets, clears, j, k - 1);
    } else if SetSince(sets, clears, i, k - 1) && !clears[k - 1] {
      var j :| i <= j && LastsFrom(sets, clears, j, k - 1);
      assert LastsFrom(sets, clears, j, k);
    }
  }

  /** Event k does to the flag what its entries say. */
  predicate Follows(flags: seq<bool>, sets: seq<bool>, clears: seq<bool>, k: nat)
    requires k < |sets| == |clears| < |flags|
  {
    flags[k + 1] == (sets[k] || (flags[k] && !clears[k]))
  }

  /** Once clear, the flag is set later on if and only if it was set since and not cleared again. */
  lemma {:induction false} HistoryDecides(flags: seq<bool>, sets: seq<bool>, clears: seq<bool>, i: nat, k: nat)
    requires |sets| == |clears| && |flags| == |sets| + 1 && i <= k < |flags| && !flags[i]
    requires forall n: nat :: i <= n < k ==> Follows(flags, sets, clears, n)
    ensures flags[k] <==> SetSince(sets, clears, i, k)
  {
    if i < k {
      HistoryDecides(flags, sets, clears, i, k - 1);
      SetSinceOneMore(sets, clears, i, k);
      assert Follows(flags, sets, clears, k - 1);
    }
  }
}
