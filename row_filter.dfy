/** Row filtering: a stable filter (pandas' dropna and boolean masks) and the two
    filters of the transform built from it. */
module RowFilter {
  import opened Rows

  /** `a` can be obtained from `b` by deleting elements, without reordering the rest. */
  predicate IsSubsequence<T(==)>(a: seq<T>, b: seq<T>)
    decreases |b|
  {
    if a == [] then true
    else if b == [] then false
    else if a[0] == b[0] then IsSubsequence(a[1..], b[1..])
    else IsSubsequence(a, b[1..])
  }

  /** The elements of `s` that satisfy `keep`, in their original order. */
  function Where<T(!new)>(s: seq<T>, keep: T -> bool): (kept: seq<T>)
    ensures |kept| <= |s|
    ensures forall x :: x in kept <==> x in s && keep(x)
  {
    if s == [] then []
    else if keep(s[0]) then [s[0]] + Where(s[1..], keep)
    else Where(s[1..], keep)
  }

  /** The number of elements of `s` that satisfy `keep` (the sum of a boolean column). */
  function CountWhere<T(!new)>(s: seq<T>, keep: T -> bool): (n: nat)
    ensures n == |Where(s, keep)|
  {
    if s == [] then 0
    else (if keep(s[0]) then 1 else 0) + CountWhere(s[1..], keep)
  }

  /** The filter keeps every copy of every element it keeps and no copy of any other. */
  lemma {:induction false} WhereKeepsEveryCopy<T(!new)>(s: seq<T>, keep: T -> bool)
    ensures forall x :: multiset(Where(s, keep))[x] == if keep(x) then multiset(s)[x] else 0
  {
    if s != [] {
      WhereKeepsEveryCopy(s[1..], keep);
      assert s == [s[0]] + s[1..];
    }
  }

  /** The filter does not reorder: its result is a subsequence of its input. */
  lemma {:induction false} WhereIsSubsequence<T(!new)>(s: seq<T>, keep: T -> bool)
    ensures IsSubsequence(Where(s, keep), s)
  {
    if s != [] {
      WhereIsSubsequence(s[1..], keep);
      var w := Where(s, keep);
      if keep(s[0]) {
        assert w[0] == s[0] && w[1..] == Where(s[1..], keep);
      } else if w != [] {
        assert w[0] in w;
      }
    }
  }

  /** Dropping the head of a subsequence leaves a subsequence. */
  lemma {:induction false} IsSubsequenceTail<T>(a: seq<T>, b: seq<T>)
    requires a != [] && IsSubsequence(a, b)
    ensures IsSubsequence(a[1..], b)
    decreases |b|, 0
  {
    if a[1..] != [] && b != [] {
      if a[0] == b[0] {
        IsSubsequenceWeaken(a[1..], b[1..], b[0]);
      } else {
        IsSubsequenceTail(a, b[1..]);
        IsSubsequenceWeaken(a[1..], b[1..], b[0]);
      }
    }
  }

  /** Putting an element in front of the longer sequence keeps a subsequence one. */
  lemma {:induction false} IsSubsequenceWeaken<T>(a: seq<T>, b: seq<T>, x: T)
    requires IsSubsequence(a, b)
    ensures IsSubsequence(a, [x] + b)
    decreases |b|, 1
  {
    var xb := [x] + b;
    assert xb[1..] == b;
    if a != [] && a[0] == x {
      IsSubsequenceTail(a, b);
    }
  }

  lemma {:induction false} IsSubsequenceTransitive<T>(a: seq<T>, b: seq<T>, c: seq<T>)
    requires IsSubsequence(a, b) && IsSubsequence(b, c)
    ensures IsSubsequence(a, c)
    decreases |c|
  {
    if a != [] && c != [] {
      if b[0] == c[0] {
        if a[0] == b[0] {
          IsSubsequenceTransitive(a[1..], b[1..], c[1..]);
        } else {
          IsSubsequenceTransitive(a, b[1..], c[1..]);
        }
      } else {
        IsSubsequenceTransitive(a, b, c[1..]);
        if a[0] == c[0] {
          IsSubsequenceTail(a, c[1..]);
        }
      }
    }
  }

  /** Filtering leaves the input unchanged exactly when every element passes. */
  lemma {:induction false} WhereIdentityIff<T(!new)>(s: seq<T>, keep: T -> bool)
    ensures Where(s, keep) == s <==> forall x :: x in s ==> keep(x)
  {
    if forall x :: x in s ==> keep(x) {
      if s != [] {
        assert forall x :: x in s[1..] ==> x in s;
        WhereIdentityIff(s[1..], keep);
        assert s[0] in s;
      }
    }
  }

  /** Filtering leaves nothing exactly when no element passes. */
  lemma {:induction false} WhereEmptyIff<T(!new)>(s: seq<T>, keep: T -> bool)
    ensures Where(s, keep) == [] <==> forall x :: x in s ==> !keep(x)
  {
    if s != [] {
      WhereEmptyIff(s[1..], keep);
      assert forall x :: x in s <==> x == s[0] || x in s[1..];
    }
  }

  /** Filtering a concatenation filters each part. */
  lemma {:induction false} WhereConcat<T(!new)>(a: seq<T>, b: seq<T>, keep: T -> bool)
    ensures Where(a + b, keep) == Where(a, keep) + Where(b, keep)
  {
    if a == [] {
      assert a + b == b;
    } else {
      assert (a + b)[1..] == a[1..] + b;
      WhereConcat(a[1..], b, keep);
    }
  }

  /** Two filters in a row are one filter by the conjunction `both`. */
  lemma {:induction false} WhereWhere<T(!new)>(s: seq<T>, p: T -> bool, q: T -> bool, both: T -> bool)
    requires forall x :: both(x) == (p(x) && q(x))
    ensures Where(Where(s, p), q) == Where(s, both)
  {
    if s != [] {
      WhereWhere(s[1..], p, q, both);
      if p(s[0]) {
        assert Where(s, p)[1..] == Where(s[1..], p);
      }
    }
  }

  /** A row survives into staging when its Description is present. */
  predicate HasDescription(e: EnrichedRecord)
  {
    e.description.Some?
  }

  /** A staging row survives into the clean set when its quantity is positive. */
  predicate PositiveQuantity(e: EnrichedRecord)
  {
    e.quantity > 0
  }

  /** The staging set: rows with a missing Description dropped. */
  function Staging(frame: seq<EnrichedRecord>): (staging: seq<EnrichedRecord>)
    ensures |staging| <= |frame|
    ensures forall e :: e in staging <==> e in frame && e.description.Some?
  {
    Where(frame, HasDescription)
  }

  /** The clean set: staging rows with a positive quantity. */
  function Clean(staging: seq<EnrichedRecord>): (clean: seq<EnrichedRecord>)
    ensures |clean| <= |staging|
    ensures forall e :: e in clean <==> e in staging && e.quantity > 0
  {
    Where(staging, PositiveQuantity)
  }

  /** Both sets keep the input's order, and clean is ordered inside staging. */
  lemma FiltersAreStable(frame: seq<EnrichedRecord>)
    ensures IsSubsequence(Staging(frame), frame)
    ensures IsSubsequence(Clean(Staging(frame)), Staging(frame))
    ensures IsSubsequence(Clean(Staging(frame)), frame)
  {
    WhereIsSubsequence(frame, HasDescription);
    WhereIsSubsequence(Staging(frame), PositiveQuantity);
    IsSubsequenceTransitive(Clean(Staging(frame)), Staging(frame), frame);
  }

  /** A row reaches the clean table when it has a description and a positive quantity. */
  predicate Loadable(e: EnrichedRecord)
  {
    e.description.Some? && e.quantity > 0
  }

  /** The clean set is the frame filtered once by both conditions. */
  lemma CleanIsBothFilters(frame: seq<EnrichedRecord>)
    ensures Clean(Staging(frame)) == Where(frame, Loadable)
  {
    WhereWhere(frame, HasDescription, PositiveQuantity, Loadable);
  }

  /** Staging and clean coincide exactly when every staging row has a positive quantity. */
  lemma CleanEqualsStagingIff(staging: seq<EnrichedRecord>)
    ensures Clean(staging) == staging <==> forall e :: e in staging ==> e.quantity > 0
  {
    WhereIdentityIff(staging, PositiveQuantity);
  }
}
