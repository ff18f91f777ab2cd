/** Sequence operations the application performs through JavaScript's
    `Array.prototype.filter`, `slice` and `String.prototype.includes`. */
module SeqUtil {

  /** `a` is an order-preserving subsequence of `b`. */
  predicate IsSubsequence<T(==)>(a: seq<T>, b: seq<T>)
    decreases |b|
  {
    if |a| == 0 then true
    else if |b| == 0 then false
    else if a[0] == b[0] then IsSubsequence(a[1..], b[1..])
    else IsSubsequence(a, b[1..])
  }

  /** `xs.filter(p)`: keeps exactly the elements satisfying `p`, in order. */
  function Filter<T>(xs: seq<T>, p: T -> bool): (r: seq<T>)
    ensures |r| <= |xs|
    ensures forall i :: 0 <= i < |r| ==> p(r[i])
    ensures forall i :: 0 <= i < |xs| && p(xs[i]) ==> xs[i] in r
    ensures forall y :: y in r ==> y in xs
    ensures (forall i :: 0 <= i < |xs| ==> p(xs[i])) ==> r == xs
    decreases |xs|
  {
    if |xs| == 0 then []
    else
      var rest := Filter(xs[1..], p);
      assert forall i :: 1 <= i < |xs| ==> xs[i] == xs[1..][i - 1];
      if p(xs[0]) then [xs[0]] + rest else rest
  }

  /** The filtered sequence is an order-preserving subsequence of the input. */
  lemma {:induction false} FilterIsSubsequence<T>(xs: seq<T>, p: T -> bool)
    ensures IsSubsequence(Filter(xs, p), xs)
    decreases |xs|
  {
    if |xs| > 0 {
      FilterIsSubsequence(xs[1..], p);
      var rest := Filter(xs[1..], p);
      if p(xs[0]) {
        assert Filter(xs, p)[1..] == rest;
      } else if |rest| > 0 {
        // rest[0] satisfies `p` and xs[0] does not, so they differ
        assert p(rest[0]);
      }
    }
  }

  /** Filtering keeps every element satisfying `p` as often as it occurs,
      and no other: together with `FilterIsSubsequence` this fixes the
      result completely. */
  lemma {:induction false} FilterKeepsMultiplicity<T>(xs: seq<T>, p: T -> bool)
    ensures forall y :: multiset(Filter(xs, p))[y] == if p(y) then multiset(xs)[y] else 0
    ensures multiset(Filter(xs, p)) <= multiset(xs)
    decreases |xs|
  {
    if |xs| > 0 {
      FilterKeepsMultiplicity(xs[1..], p);
      assert xs == [xs[0]] + xs[1..];
      assert multiset(xs) == multiset{xs[0]} + multiset(xs[1..]);
      var rest := Filter(xs[1..], p);
      if p(xs[0]) {
        assert multiset(Filter(xs, p)) == multiset{xs[0]} + multiset(rest);
      } else {
        assert Filter(xs, p) == rest;
      }
    }
  }

  /** `xs.filter((_, i) => i !== k)`: drops the element at index `k`, if any. */
  function DropIndex<T>(xs: seq<T>, k: int): (r: seq<T>)
    ensures 0 <= k < |xs| ==> r == xs[..k] + xs[k + 1..]
    ensures !(0 <= k < |xs|) ==> r == xs
    decreases |xs|
  {
    if |xs| == 0 then []
    else (if k == 0 then [] else [xs[0]]) + DropIndex(xs[1..], k - 1)
  }

  /** JavaScript's `Array.prototype.slice(start, end)`, including its
      clamping of out-of-range and negative bounds. */
  function JsSlice<T>(xs: seq<T>, start: int, end: int): (r: seq<T>)
    ensures |r| <= |xs|
    ensures 0 <= start <= end <= |xs| ==> r == xs[start..end]
    ensures 0 <= start && |xs| <= start ==> r == []
    ensures 0 <= start <= |xs| && start <= end ==> r == xs[start..if end < |xs| then end else |xs|]
    ensures 0 <= end <= start ==> r == []
  {
    var n := |xs|;
    var from := if start < 0 then (if n + start < 0 then 0 else n + start)
                else (if start < n then start else n);
    var to := if end < 0 then (if n + end < 0 then 0 else n + end)
              else (if end < n then end else n);
    if to <= from then [] else xs[from..to]
  }

  /** `hay.includes(needle)`, as a search that tries each start position. */
  predicate Includes<T(==)>(hay: seq<T>, needle: seq<T>)
    ensures Includes(hay, needle) ==> |needle| <= |hay|
    ensures needle <= hay ==> Includes(hay, needle)
    decreases |hay|
  {
    needle <= hay || (|hay| > 0 && Includes(hay[1..], needle))
  }

  /** The reference meaning of `includes`: `needle` occurs at some offset. */
  ghost predicate OccursAt<T>(hay: seq<T>, needle: seq<T>, i: int)
  {
    0 <= i && i + |needle| <= |hay| && hay[i..i + |needle|] == needle
  }

  lemma {:induction false} OccursImpliesIncludes<T>(hay: seq<T>, needle: seq<T>, i: int)
    requires OccursAt(hay, needle, i)
    ensures Includes(hay, needle)
    decreases i
  {
    if i == 0 {
      assert needle <= hay;
    } else {
      assert hay[1..][i - 1..i - 1 + |needle|] == hay[i..i + |needle|];
      OccursImpliesIncludes(hay[1..], needle, i - 1);
    }
  }

  lemma {:induction false} IncludesImpliesOccurs<T>(hay: seq<T>, needle: seq<T>) returns (i: int)
    requires Includes(hay, needle)
    ensures OccursAt(hay, needle, i)
    decreases |hay|
  {
    if needle <= hay {
      i := 0;
    } else {
      var j := IncludesImpliesOccurs(hay[1..], needle);
      assert hay[j + 1..j + 1 + |needle|] == hay[1..][j..j + |needle|];
      i := j + 1;
    }
  }

  /** The search agrees with the reference meaning in both directions. */
  lemma IncludesMeansOccurs<T>(hay: seq<T>, needle: seq<T>)
    ensures Includes(hay, needle) <==> exists i :: OccursAt(hay, needle, i)
  {
    if Includes(hay, needle) {
      var i := IncludesImpliesOccurs(hay, needle);
    }
    forall i | OccursAt(hay, needle, i)
      ensures Includes(hay, needle)
    {
      OccursImpliesIncludes(hay, needle, i);
    }
  }
}
