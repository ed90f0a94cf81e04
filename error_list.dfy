/** The shape shared by the server-side validators: a fixed catalogue of
    messages, one per check, and a list that receives the message of every
    check that fails, appended in catalogue order. */
module ErrorList {

  /** The message of check k when it failed, nothing when it passed. */
  function Flag(cat: seq<string>, ok: seq<bool>, k: nat): seq<string>
    requires |cat| == |ok| && k < |cat|
  {
    if ok[k] then [] else [cat[k]]
  }

  /** The list after the first k checks have run. */
  function FailingPrefix(cat: seq<string>, ok: seq<bool>, k: nat): seq<string>
    requires |cat| == |ok| && k <= |cat|
  {
    if k == 0 then [] else FailingPrefix(cat, ok, k - 1) + Flag(cat, ok, k - 1)
  }

  /** The messages whose check failed (ok[k] false), in the order of cat. */
  function Failing(cat: seq<string>, ok: seq<bool>): seq<string>
    requires |cat| == |ok|
  {
    FailingPrefix(cat, ok, |cat|)
  }

  predicate Distinct(cat: seq<string>) {
    forall i, j :: 0 <= i < j < |cat| ==> cat[i] != cat[j]
  }

  /** errs can be obtained from cat by deleting entries (matched from the end). */
  predicate IsSubsequence(errs: seq<string>, cat: seq<string>) {
    if errs == [] then true
    else if cat == [] then false
    else if errs[|errs| - 1] == cat[|cat| - 1] then IsSubsequence(errs[..|errs| - 1], cat[..|cat| - 1])
    else IsSubsequence(errs, cat[..|cat| - 1])
  }

  lemma {:induction false} FailingPrefixEmpty(cat: seq<string>, ok: seq<bool>, k: nat)
    requires |cat| == |ok| && k <= |cat|
    ensures FailingPrefix(cat, ok, k) == [] <==> forall j :: 0 <= j < k ==> ok[j]
  {
    if k > 0 {
      FailingPrefixEmpty(cat, ok, k - 1);
    }
  }

  /** The failing list is empty exactly when every check passes. */
  lemma FailingEmpty(cat: seq<string>, ok: seq<bool>)
    requires |cat| == |ok|
    ensures Failing(cat, ok) == [] <==> false !in ok
  {
    FailingPrefixEmpty(cat, ok, |cat|);
  }

  lemma {:induction false} FailingPrefixMembers(cat: seq<string>, ok: seq<bool>, k: nat)
    requires |cat| == |ok| && k <= |cat| && Distinct(cat)
    ensures forall j :: 0 <= j < |cat| ==> (cat[j] in FailingPrefix(cat, ok, k) <==> j < k && !ok[j])
  {
    if k > 0 {
      FailingPrefixMembers(cat, ok, k - 1);
    }
  }

  /** With distinct messages, a message is listed exactly when its check failed. */
  lemma FailingMembers(cat: seq<string>, ok: seq<bool>)
    requires |cat| == |ok| && Distinct(cat)
    ensures forall k :: 0 <= k < |cat| ==> (cat[k] in Failing(cat, ok) <==> !ok[k])
  {
    FailingPrefixMembers(cat, ok, |cat|);
  }

  /** One more catalogue entry keeps a subsequence a subsequence. */
  lemma {:induction false} SubsequenceExtend(errs: seq<string>, cat: seq<string>, x: string)
    requires IsSubsequence(errs, cat)
    ensures IsSubsequence(errs, cat + [x])
    decreases |cat| + 1, 0
  {
    var d := cat + [x];
    assert d[..|d| - 1] == cat;
    if errs != [] && errs[|errs| - 1] == x {
      SubsequenceInit(errs, cat);
    }
  }

  /** Dropping the last entry of errs keeps a subsequence a subsequence. */
  lemma {:induction false} SubsequenceInit(errs: seq<string>, cat: seq<string>)
    requires errs != [] && IsSubsequence(errs, cat)
    ensures IsSubsequence(errs[..|errs| - 1], cat)
    decreases |cat|, 1
  {
    var init, y := cat[..|cat| - 1], cat[|cat| - 1];
    assert init + [y] == cat;
    if errs[|errs| - 1] != y {
      SubsequenceInit(errs, init);
    }
    SubsequenceExtend(errs[..|errs| - 1], init, y);
  }

  lemma {:induction false} FailingPrefixOrdered(cat: seq<string>, ok: seq<bool>, k: nat)
    requires |cat| == |ok| && k <= |cat|
    ensures IsSubsequence(FailingPrefix(cat, ok, k), cat[..k])
  {
    if k > 0 {
      FailingPrefixOrdered(cat, ok, k - 1);
      var before := FailingPrefix(cat, ok, k - 1);
      assert cat[..k] == cat[..k - 1] + [cat[k - 1]];
      if ok[k - 1] {
        assert FailingPrefix(cat, ok, k) == before;
        SubsequenceExtend(before, cat[..k - 1], cat[k - 1]);
      } else {
        var r, d := FailingPrefix(cat, ok, k), cat[..k];
        assert r == before + [cat[k - 1]] && r[..|r| - 1] == before;
        assert d[..|d| - 1] == cat[..k - 1] && d[|d| - 1] == r[|r| - 1];
      }
    }
  }

  /** The failing list keeps the catalogue's order. */
  lemma FailingOrdered(cat: seq<string>, ok: seq<bool>)
    requires |cat| == |ok|
    ensures IsSubsequence(Failing(cat, ok), cat)
  {
    FailingPrefixOrdered(cat, ok, |cat|);
    assert cat[..|cat|] == cat;
  }
}
