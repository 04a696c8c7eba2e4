/** Sequence operations behind the source's `filter`, `find`, `includes`
    and the id-list edits of the store and the forms. */
module Seqs {
  import opened Types

  datatype Found = NotFound | FoundAt(index: nat)

  /** `sub` is obtained from `s` by deleting elements: an order-preserving subsequence. */
  predicate IsSubsequence<T(==,!new)>(sub: seq<T>, s: seq<T>)
    decreases |s|
  {
    if sub == [] then true
    else if s == [] then false
    else if sub[0] == s[0] then IsSubsequence(sub[1..], s[1..])
    else IsSubsequence(sub, s[1..])
  }

  /** `Array.prototype.filter`: the elements satisfying `p`, in their original order. */
  function Filter<T(==,!new)>(s: seq<T>, p: T -> bool): (r: seq<T>)
    ensures |r| <= |s|
    ensures forall x :: x in r <==> x in s && p(x)
  {
    if s == [] then [] else (if p(s[0]) then [s[0]] else []) + Filter(s[1..], p)
  }

  /** `Array.prototype.findIndex`: the first position satisfying `p`. */
  function FindIndex<T(!new)>(s: seq<T>, p: T -> bool): (r: Found)
    ensures r.FoundAt? ==> r.index < |s| && p(s[r.index])
    ensures r.FoundAt? ==> forall k :: 0 <= k < r.index ==> !p(s[k])
    ensures r.NotFound? <==> forall k :: 0 <= k < |s| ==> !p(s[k])
  {
    if s == [] then NotFound
    else if p(s[0]) then FoundAt(0)
    else match FindIndex(s[1..], p)
      case NotFound => NotFound
      case FoundAt(i) => FoundAt(i + 1)
  }

  /** `Array.prototype.find`: the first element satisfying `p`, if any. */
  function Find<T(!new)>(s: seq<T>, p: T -> bool): (r: Option<T>)
    ensures r.None? <==> forall k :: 0 <= k < |s| ==> !p(s[k])
    ensures r.Some? ==> FindIndex(s, p).FoundAt? && r.value == s[FindIndex(s, p).index] && p(r.value)
  {
    match FindIndex(s, p)
    case NotFound => None
    case FoundAt(k) => Some(s[k])
  }

  /** `ids.filter(x => x !== id)`. */
  function RemoveAll<T(==,!new)>(s: seq<T>, x: T): (r: seq<T>)
    ensures x !in r
    ensures forall y :: y != x ==> (y in r <==> y in s)
    ensures x !in s ==> r == s
  {
    if s == [] then []
    else if s[0] == x then RemoveAll(s[1..], x)
    else [s[0]] + RemoveAll(s[1..], x)
  }

  /** The checkbox toggle of both forms: remove every occurrence if present, append if absent. */
  function Toggle<T(==,!new)>(s: seq<T>, x: T): (r: seq<T>)
    ensures x in s ==> x !in r
    ensures x !in s ==> r == s + [x]
    ensures forall y :: y != x ==> (y in r <==> y in s)
    ensures x in s ==> IsSubsequence(r, s)
  {
    if x in s then RemoveAllIsSubsequence(s, x); RemoveAll(s, x) else s + [x]
  }

  /** Number of occurrences of `x` in `s`. */
  function Count<T(==,!new)>(s: seq<T>, x: T): (n: nat)
    ensures n == 0 <==> x !in s
    ensures n <= |s|
  {
    if s == [] then 0 else (if s[0] == x then 1 else 0) + Count(s[1..], x)
  }

  /** `n` copies of `x`. */
  function Repeat<T(!new)>(x: T, n: nat): (r: seq<T>)
    ensures |r| == n
    ensures forall k :: 0 <= k < n ==> r[k] == x
  {
    if n == 0 then [] else Repeat(x, n - 1) + [x]
  }

  lemma {:induction false} SubsequenceRefl<T(!new)>(s: seq<T>)
    ensures IsSubsequence(s, s)
  {
    if s != [] {
      SubsequenceRefl(s[1..]);
    }
  }

  /** Every element of a subsequence comes from the sequence. */
  lemma {:induction false} SubsequenceMembers<T(!new)>(sub: seq<T>, s: seq<T>)
    requires IsSubsequence(sub, s)
    ensures forall x :: x in sub ==> x in s
    decreases |s|
  {
    if sub != [] && s != [] {
      if sub[0] == s[0] {
        SubsequenceMembers(sub[1..], s[1..]);
        assert forall x :: x in sub ==> x == sub[0] || x in sub[1..];
      } else {
        SubsequenceMembers(sub, s[1..]);
      }
    }
  }

  /** Prepending an element to the sequence keeps every subsequence. */
  lemma {:induction false} SubsequenceOfTail<T(!new)>(sub: seq<T>, s: seq<T>)
    requires s != [] && IsSubsequence(sub, s[1..])
    ensures IsSubsequence(sub, s)
    decreases |sub| + |s|
  {
    if sub != [] && sub[0] == s[0] {
      SubsequenceDropHead(sub, s[1..]);
    }
  }

  /** Dropping the first element of a subsequence keeps it a subsequence. */
  lemma {:induction false} SubsequenceDropHead<T(!new)>(sub: seq<T>, t: seq<T>)
    requires sub != [] && IsSubsequence(sub, t)
    ensures IsSubsequence(sub[1..], t)
    decreases |sub| + |t|
  {
    if sub[0] == t[0] {
      SubsequenceOfTail(sub[1..], t);
    } else {
      SubsequenceDropHead(sub, t[1..]);
      SubsequenceOfTail(sub[1..], t);
    }
  }

  /** A one-element sequence is a subsequence of any sequence ending in that element. */
  lemma {:induction false} LastIsSubsequence<T(!new)>(s: seq<T>, x: T)
    ensures IsSubsequence([x], s + [x])
  {
    if s != [] {
      LastIsSubsequence(s[1..], x);
      assert (s + [x])[1..] == s[1..] + [x];
      if s[0] == x {
        assert [x][1..] == [];
      }
    }
  }

  /** Appending the same element to both sides keeps a subsequence, and so does appending to the sequence alone. */
  lemma {:induction false} SubsequenceExtend<T(!new)>(sub: seq<T>, s: seq<T>, x: T)
    requires IsSubsequence(sub, s)
    ensures IsSubsequence(sub, s + [x])
    ensures IsSubsequence(sub + [x], s + [x])
    decreases |s|
  {
    if sub == [] {
      LastIsSubsequence(s, x);
      assert sub + [x] == [x];
    } else {
      assert (s + [x])[0] == s[0] && (s + [x])[1..] == s[1..] + [x];
      assert (sub + [x])[0] == sub[0] && (sub + [x])[1..] == sub[1..] + [x];
      if sub[0] == s[0] {
        SubsequenceExtend(sub[1..], s[1..], x);
      } else {
        SubsequenceExtend(sub, s[1..], x);
      }
    }
  }

  /** `filter` keeps the surviving elements in their original order. */
  lemma {:induction false} FilterIsSubsequence<T(!new)>(s: seq<T>, p: T -> bool)
    ensures IsSubsequence(Filter(s, p), s)
  {
    if s != [] {
      FilterIsSubsequence(s[1..], p);
      var rest := Filter(s[1..], p);
      if p(s[0]) {
        assert Filter(s, p) == [s[0]] + rest;
        assert ([s[0]] + rest)[1..] == rest;
      } else {
        assert Filter(s, p) == rest;
        SubsequenceOfTail(rest, s);
      }
    }
  }

  /** A filter every element passes returns its input. */
  lemma {:induction false} FilterAllPass<T(!new)>(s: seq<T>, p: T -> bool)
    requires forall x :: x in s ==> p(x)
    ensures Filter(s, p) == s
  {
    if s != [] {
      assert s[0] in s;
      assert forall x :: x in s[1..] ==> x in s;
      FilterAllPass(s[1..], p);
    }
  }

  /** Filtering twice by the same predicate is filtering once. */
  lemma FilterIdempotent<T(!new)>(s: seq<T>, p: T -> bool)
    ensures Filter(Filter(s, p), p) == Filter(s, p)
  {
    FilterAllPass(Filter(s, p), p);
  }

  /** A stronger predicate selects a subsequence of what a weaker one selects. */
  lemma {:induction false} FilterMonotone<T(!new)>(s: seq<T>, p: T -> bool, q: T -> bool)
    requires forall x :: x in s && p(x) ==> q(x)
    ensures IsSubsequence(Filter(s, p), Filter(s, q))
  {
    if s != [] {
      assert forall x :: x in s[1..] ==> x in s;
      FilterMonotone(s[1..], p, q);
      var fp, fq := Filter(s[1..], p), Filter(s[1..], q);
      if p(s[0]) {
        assert Filter(s, p) == [s[0]] + fp && Filter(s, q) == [s[0]] + fq;
        assert ([s[0]] + fp)[1..] == fp && ([s[0]] + fq)[1..] == fq;
        assert ([s[0]] + fp)[0] == ([s[0]] + fq)[0];
      } else if q(s[0]) {
        assert Filter(s, p) == fp && Filter(s, q) == [s[0]] + fq;
        assert ([s[0]] + fq)[1..] == fq;
        SubsequenceOfTail(fp, [s[0]] + fq);
      } else {
        assert Filter(s, p) == fp && Filter(s, q) == fq;
      }
    }
  }

  /** Toggling an absent element twice restores the list. */
  lemma ToggleTwiceAbsent<T(!new)>(s: seq<T>, x: T)
    requires x !in s
    ensures Toggle(Toggle(s, x), x) == s
  {
    assert x in s + [x];
    RemoveAllAppended(s, x);
  }

  lemma {:induction false} RemoveAllAppended<T(!new)>(s: seq<T>, x: T)
    requires x !in s
    ensures RemoveAll(s + [x], x) == s
  {
    if s == [] {
      assert [] + [x] == [x];
    } else {
      assert (s + [x])[0] == s[0];
      assert (s + [x])[1..] == s[1..] + [x];
      RemoveAllAppended(s[1..], x);
    }
  }

  /** Removing an element keeps the order of the others. */
  lemma {:induction false} RemoveAllIsSubsequence<T(!new)>(s: seq<T>, x: T)
    ensures IsSubsequence(RemoveAll(s, x), s)
  {
    if s != [] {
      RemoveAllIsSubsequence(s[1..], x);
      if s[0] == x {
        SubsequenceOfTail(RemoveAll(s, x), s);
      } else {
        assert ([s[0]] + RemoveAll(s[1..], x))[1..] == RemoveAll(s[1..], x);
      }
    }
  }

  /** Removing the same element twice is removing it once. */
  lemma RemoveAllIdempotent<T(!new)>(s: seq<T>, x: T)
    ensures RemoveAll(RemoveAll(s, x), x) == RemoveAll(s, x)
  {
  }

  lemma {:induction false} CountAppend<T(!new)>(s: seq<T>, t: seq<T>, x: T)
    ensures Count(s + t, x) == Count(s, x) + Count(t, x)
  {
    if s == [] {
      assert s + t == t;
    } else {
      assert (s + t)[0] == s[0];
      assert (s + t)[1..] == s[1..] + t;
      CountAppend(s[1..], t, x);
    }
  }

  lemma RepeatAppend<T(!new)>(x: T, m: nat, n: nat)
    ensures Repeat(x, m) + Repeat(x, n) == Repeat(x, m + n)
  {
  }
}
