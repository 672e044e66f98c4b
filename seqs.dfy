/** Sequence helpers shared by the model: reversal, concatenation, duplicate-freedom. */
module Seqs {

  function Reverse<T>(s: seq<T>): (r: seq<T>)
    ensures |r| == |s|
    ensures forall i :: 0 <= i < |s| ==> r[i] == s[|s| - 1 - i]
  {
    if s == [] then [] else Reverse(s[1..]) + [s[0]]
  }

  lemma {:induction false} ReverseAppend<T>(a: seq<T>, b: seq<T>)
    ensures Reverse(a + b) == Reverse(b) + Reverse(a)
  {
    var l, r := Reverse(a + b), Reverse(b) + Reverse(a);
    assert |l| == |r|;
    forall i | 0 <= i < |l| ensures l[i] == r[i] {
      if i < |b| {
        assert l[i] == (a + b)[|a| + |b| - 1 - i];
      } else {
        assert l[i] == (a + b)[|a| + |b| - 1 - i];
      }
    }
  }

  /** Concatenation regroups freely. */
  lemma AppendAssoc<T>(a: seq<T>, b: seq<T>, c: seq<T>)
    ensures (a + b) + c == a + (b + c)
  {
  }

  /** The middle part of a concatenation of three is found again at its offset. */
  lemma Middle<T>(a: seq<T>, b: seq<T>, c: seq<T>)
    ensures (a + b) + c == a + (b + c)
    ensures forall k :: |a| <= k < |a| + |b| ==> ((a + b) + c)[k] == b[k - |a|]
    ensures ((a + b) + c)[|a|..|a| + |b|] == b
    ensures c != [] ==> ((a + b) + c)[|a| + |b|] == c[0]
  {
  }

  /** Flattening a sequence of sequences, in order. */
  function Concat<T>(ss: seq<seq<T>>): (r: seq<T>)
  {
    if ss == [] then [] else ss[0] + Concat(ss[1..])
  }

  lemma {:induction false} ConcatAppend<T>(ss: seq<seq<T>>, s: seq<T>)
    ensures Concat(ss + [s]) == Concat(ss) + s
  {
    if ss == [] {
      assert ss + [s] == [s];
    } else {
      assert (ss + [s])[1..] == ss[1..] + [s];
      ConcatAppend(ss[1..], s);
    }
  }

  /** What `f` gives for each element, concatenated in order (a loop that extends a list per element). */
  function FlatMap<T, U>(xs: seq<T>, f: T -> seq<U>): seq<U>
  {
    if xs == [] then [] else FlatMap(xs[..|xs| - 1], f) + f(xs[|xs| - 1])
  }

  /** Each element contributes on its own: mapping `a + b` is mapping `a`, then `b`. */
  lemma {:induction false} FlatMapAppend<T, U>(a: seq<T>, b: seq<T>, f: T -> seq<U>)
    ensures FlatMap(a + b, f) == FlatMap(a, f) + FlatMap(b, f)
  {
    if b == [] {
      assert a + b == a;
    } else {
      FlatMapAppend(a, b[..|b| - 1], f);
      assert (a + b)[..|a + b| - 1] == a + b[..|b| - 1];
      assert (a + b)[|a + b| - 1] == b[|b| - 1];
    }
  }

  /** Updating a state with each element in turn (a loop whose body changes the state per element). */
  function FoldLeft<S, T>(s: S, xs: seq<T>, f: (S, T) -> S): S
  {
    if xs == [] then s else f(FoldLeft(s, xs[..|xs| - 1], f), xs[|xs| - 1])
  }

  /** Folding over `a + b` is folding over `a`, then over `b` from where that left off. */
  lemma {:induction false} FoldLeftAppend<S, T>(s: S, a: seq<T>, b: seq<T>, f: (S, T) -> S)
    ensures FoldLeft(s, a + b, f) == FoldLeft(FoldLeft(s, a, f), b, f)
    decreases |b|
  {
    if b == [] {
      assert a + b == a;
    } else {
      FoldLeftAppend(s, a, b[..|b| - 1], f);
      assert (a + b)[..|a + b| - 1] == a + b[..|b| - 1];
      assert (a + b)[|a + b| - 1] == b[|b| - 1];
    }
  }

  /**
   * Threading a state through the elements and collecting one output per element (a loop that
   * updates its state and appends to a list for each element).
   */
  function Scan<S, T, U>(s: S, xs: seq<T>, f: (S, T) -> (S, U)): (r: (S, seq<U>))
    ensures |r.1| == |xs|
  {
    if xs == [] then (s, [])
    else
      var r := Scan(s, xs[..|xs| - 1], f);
      var st := f(r.0, xs[|xs| - 1]);
      (st.0, r.1 + [st.1])
  }

  /** Output `i` is made by the i-th step, from the state after the elements before it. */
  lemma {:induction false} ScanAt<S, T, U>(s: S, xs: seq<T>, f: (S, T) -> (S, U), i: nat)
    requires i < |xs|
    ensures Scan(s, xs, f).1[i] == f(Scan(s, xs[..i], f).0, xs[i]).1
  {
    var front := xs[..|xs| - 1];
    if i < |front| {
      ScanAt(s, front, f, i);
      assert front[..i] == xs[..i];
    } else {
      assert xs[..i] == front;
    }
  }

  /** One more element of a prefix: one more step, one more output. */
  lemma ScanSnoc<S, T, U>(s: S, xs: seq<T>, f: (S, T) -> (S, U), j: nat)
    requires j < |xs|
    ensures var r := Scan(s, xs[..j], f);
      Scan(s, xs[..j + 1], f) == (f(r.0, xs[j]).0, r.1 + [f(r.0, xs[j]).1])
  {
    assert xs[..j + 1][..j] == xs[..j];
  }

  /** `if x not in s: s.append(x)`: the list grows by `x` only when `x` is new, and stays duplicate-free. */
  function AddNew<T(==)>(s: seq<T>, x: T): (r: seq<T>)
    ensures x in r && s <= r
    ensures forall y :: y in r ==> y in s || y == x
    ensures NoDup(s) ==> NoDup(r)
  {
    if x in s then s else s + [x]
  }

  /** One more element of a prefix contributes its own part at the end. */
  lemma FlatMapStep<T, U>(xs: seq<T>, i: nat, f: T -> seq<U>)
    requires i < |xs|
    ensures FlatMap(xs[..i + 1], f) == FlatMap(xs[..i], f) + f(xs[i])
  {
    assert xs[..i + 1][..i] == xs[..i];
  }

  /** A sequence is its first `k` elements followed by the rest. */
  lemma TakeDrop<T>(s: seq<T>, k: nat)
    requires k <= |s|
    ensures s[..k] + s[k..] == s
  {
  }

  predicate NoDup<T(==)>(s: seq<T>)
  {
    forall i, j :: 0 <= i < j < |s| ==> s[i] != s[j]
  }

  /** The integers lo, lo+1, ..., hi-1 in ascending order (Python's `list(range(lo, hi))`). */
  function Range(lo: int, hi: int): (r: seq<int>)
    ensures |r| == if lo <= hi then hi - lo else 0
    ensures forall i :: 0 <= i < |r| ==> r[i] == lo + i
    decreases hi - lo
  {
    if lo >= hi then [] else [lo] + Range(lo + 1, hi)
  }

  /** Strictly ascending: every earlier element is smaller than every later one. */
  predicate Ascending(s: seq<int>)
  {
    forall i, j :: 0 <= i < j < |s| ==> s[i] < s[j]
  }

  /** Popping from the end: the last element is the first of the reversal. */
  lemma {:induction false} ReverseLast<T>(s: seq<T>)
    requires s != []
    ensures Reverse(s) == [s[|s| - 1]] + Reverse(s[..|s| - 1])
  {
    var n := |s|;
    var init := s[..n - 1];
    var l, ri := Reverse(s), Reverse(init);
    var r := [s[n - 1]] + ri;
    assert |l| == |r|;
    forall i | 0 <= i < n ensures l[i] == r[i] {
      if i > 0 {
        assert ri[i - 1] == init[n - 2 - (i - 1)];
      }
    }
  }

  /** One more element of a prefix goes to the front of its reversal. */
  lemma ReversePrefixStep<T>(s: seq<T>, i: nat)
    requires i < |s|
    ensures Reverse(s[..i + 1]) == [s[i]] + Reverse(s[..i])
  {
    assert s[..i + 1][..i] == s[..i];
    ReverseLast(s[..i + 1]);
  }

  /** Reversing twice gives the sequence back. */
  lemma {:induction false} ReverseReverse<T>(s: seq<T>)
    ensures Reverse(Reverse(s)) == s
  {
  }

  /** The elements satisfying `p`, in order (a list comprehension with a condition). */
  function Filter<T>(s: seq<T>, p: T -> bool): (r: seq<T>)
    ensures |r| <= |s|
    ensures forall x :: x in r ==> x in s && p(x)
  {
    if s == [] then [] else (if p(s[0]) then [s[0]] else []) + Filter(s[1..], p)
  }

  /** The opposite condition. */
  function Not<T>(p: T -> bool): T -> bool
  {
    x => !p(x)
  }

  /** Splitting by a condition loses nothing and duplicates nothing. */
  lemma {:induction false} FilterPartition<T>(s: seq<T>, p: T -> bool)
    ensures multiset(Filter(s, p)) + multiset(Filter(s, Not(p))) == multiset(s)
  {
    if s != [] {
      FilterPartition(s[1..], p);
      FilterHead(s, p);
      FilterHead(s, Not(p));
      MultisetHead(s);
    }
  }

  /** A non-empty sequence holds its head once more than its tail. */
  lemma MultisetHead<T>(s: seq<T>)
    requires s != []
    ensures multiset(s) == multiset{s[0]} + multiset(s[1..])
  {
    assert s == [s[0]] + s[1..];
  }

  /** The head of a non-empty sequence is kept exactly when it satisfies the condition. */
  lemma FilterHead<T>(s: seq<T>, p: T -> bool)
    requires s != []
    ensures multiset(Filter(s, p)) == (if p(s[0]) then multiset{s[0]} else multiset{}) + multiset(Filter(s[1..], p))
  {
  }


}
