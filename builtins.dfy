/** The Python built-ins that the teaching scripts lean on: exceptions, `sum`,
    `map`, `filter`, `functools.reduce`, `sorted(key=...)`, `set(list)` and
    the string methods `lower`, `upper` and `strip`. Each is stated once here
    and used by the per-script modules. */
module Builtins {

  /** The exceptions the scripts raise, or that the interpreter raises for them. */
  datatype PyError =
    | ValueError(message: string)
    | TypeError(message: string)
    | IndexError(message: string)
    | KeyError
    | NotImplementedError(message: string)
    | StopIteration

  /** A call either returns a value or raises. */
  datatype Result<T> = Ok(value: T) | Raised(error: PyError)

  /** A list element that may be Python's `None`. */
  datatype Cell<T> = None | Some(value: T)

  /** `list(range(lo, hi))`. */
  function Range(lo: int, hi: int): (r: seq<int>)
    ensures |r| == if lo <= hi then hi - lo else 0
    ensures forall i :: 0 <= i < |r| ==> r[i] == lo + i
    decreases hi - lo
  {
    if lo < hi then [lo] + Range(lo + 1, hi) else []
  }

  // ---------------------------------------------------------------------------
  // ** on integers
  // ---------------------------------------------------------------------------

  /** `base ** exponent` for a non-negative integer exponent. */
  function Pow(base: int, exponent: nat): (r: int)
    ensures base >= 0 ==> r >= 0
    ensures base >= 1 ==> r >= 1
  {
    if exponent == 0 then 1 else base * Pow(base, exponent - 1)
  }

  /** Squaring: b ** 2 = b * b. */
  lemma PowTwo(base: int)
    ensures Pow(base, 2) == base * base
  {
    assert Pow(base, 1) == base;
  }

  /** Exponents add: b^(m + n) = b^m * b^n. */
  lemma {:induction false} PowAdd(base: int, m: nat, n: nat)
    ensures Pow(base, m + n) == Pow(base, m) * Pow(base, n)
    decreases m
  {
    if m > 0 {
      PowAdd(base, m - 1, n);
      assert Pow(base, m + n) == base * (Pow(base, m - 1) * Pow(base, n));
    }
  }

  // ---------------------------------------------------------------------------
  // sum
  // ---------------------------------------------------------------------------

  /** `sum(xs)`: start from 0 and add the elements left to right. */
  function Sum(xs: seq<int>): int
  {
    if xs == [] then 0 else Sum(xs[..|xs| - 1]) + xs[|xs| - 1]
  }

  /** Summing a concatenation is the sum of the sums. */
  lemma {:induction false} SumConcat(a: seq<int>, b: seq<int>)
    ensures Sum(a + b) == Sum(a) + Sum(b)
  {
    if b == [] {
      assert a + b == a;
    } else {
      var b' := b[..|b| - 1];
      assert (a + b)[..|a + b| - 1] == a + b';
      SumConcat(a, b');
    }
  }

  /** Taking the first element off the front: the head plus the sum of the tail. */
  lemma SumCons(x: int, xs: seq<int>)
    ensures Sum([x] + xs) == x + Sum(xs)
  {
    SumConcat([x], xs);
    assert [x][..0] == [];
  }

  /** `sum` does not depend on the order of its argument. */
  lemma {:induction false} SumPermutation(a: seq<int>, b: seq<int>)
    requires multiset(a) == multiset(b)
    ensures Sum(a) == Sum(b)
  {
    if a != [] {
      var x := a[|a| - 1];
      assert x in multiset(b);
      var i :| 0 <= i < |b| && b[i] == x;
      var b' := b[..i] + b[i + 1..];
      assert b == b[..i] + [x] + b[i + 1..];
      assert multiset(b') == multiset(b) - multiset{x};
      assert a == a[..|a| - 1] + [x];
      assert multiset(a[..|a| - 1]) == multiset(a) - multiset{x};
      SumPermutation(a[..|a| - 1], b');
      SumConcat(b[..i] + [x], b[i + 1..]);
      SumConcat(b[..i], [x]);
      SumConcat(b[..i], b[i + 1..]);
      assert Sum([x]) == x by { assert [x][..0] == []; }
    }
  }

  /** 1 + 2 + ... + n = n(n + 1)/2. */
  lemma {:induction false} SumRange(n: nat)
    ensures 2 * Sum(Range(1, n + 1)) == n * (n + 1)
  {
    if n > 0 {
      SumRange(n - 1);
      var s := Range(1, n + 1);
      assert s[..|s| - 1] == Range(1, n);
    }
  }

  // ---------------------------------------------------------------------------
  // map and filter
  // ---------------------------------------------------------------------------

  /** `list(map(f, s))`: one output per input, in order. */
  function Map<A, B>(f: A -> B, s: seq<A>): (r: seq<B>)
    ensures |r| == |s|
    ensures forall i :: 0 <= i < |s| ==> r[i] == f(s[i])
  {
    if s == [] then [] else [f(s[0])] + Map(f, s[1..])
  }

  /** Mapping a concatenation maps each part. */
  lemma MapConcat<A, B>(f: A -> B, a: seq<A>, b: seq<A>)
    ensures Map(f, a + b) == Map(f, a) + Map(f, b)
  {
    assert |Map(f, a + b)| == |Map(f, a) + Map(f, b)|;
    forall i | 0 <= i < |a + b|
      ensures Map(f, a + b)[i] == (Map(f, a) + Map(f, b))[i]
    {
      if i < |a| {
        assert (a + b)[i] == a[i];
      } else {
        assert (a + b)[i] == b[i - |a|];
      }
    }
  }

  /** `list(filter(p, s))`: the elements that satisfy `p`, in their original order. */
  function Filter<T(!new)>(p: T -> bool, s: seq<T>): (r: seq<T>)
    ensures |r| <= |s|
    ensures forall i :: 0 <= i < |r| ==> p(r[i])
  {
    if s == [] then [] else (if p(s[0]) then [s[0]] else []) + Filter(p, s[1..])
  }

  /** An element is kept exactly when it occurs in `s` and satisfies `p`. */
  lemma {:induction false} FilterMembers<T(!new)>(p: T -> bool, s: seq<T>)
    ensures forall x :: x in Filter(p, s) <==> x in s && p(x)
  {
    if s != [] {
      FilterMembers(p, s[1..]);
      assert s == [s[0]] + s[1..];
    }
  }

  /** Filtering a concatenation filters each part and keeps them in order. */
  lemma {:induction false} FilterConcat<T(!new)>(p: T -> bool, a: seq<T>, b: seq<T>)
    ensures Filter(p, a + b) == Filter(p, a) + Filter(p, b)
  {
    if a == [] {
      assert a + b == b;
    } else {
      assert (a + b)[0] == a[0];
      assert (a + b)[1..] == a[1..] + b;
      FilterConcat(p, a[1..], b);
    }
  }

  /** An element survives filtering as often as it occurs, when it satisfies `p`. */
  lemma {:induction false} FilterCount<T(!new)>(p: T -> bool, s: seq<T>, x: T)
    ensures multiset(Filter(p, s))[x] == if p(x) then multiset(s)[x] else 0
  {
    if s != [] {
      FilterCount(p, s[1..], x);
      assert s == [s[0]] + s[1..];
    }
  }

  // ---------------------------------------------------------------------------
  // functools.reduce
  // ---------------------------------------------------------------------------

  /** The left fold that `reduce` performs once it has a starting value. */
  function FoldLeft<T>(f: (T, T) -> T, acc: T, s: seq<T>): T
  {
    if s == [] then acc else FoldLeft(f, f(acc, s[0]), s[1..])
  }

  /** `reduce(f, s)` with no initializer: the first element is the start value,
      and an empty sequence raises TypeError. */
  function Reduce<T>(f: (T, T) -> T, s: seq<T>): (r: Result<T>)
    ensures r.Raised? <==> s == []
    ensures r.Raised? ==> r.error.TypeError?
    ensures |s| == 1 ==> r == Ok(s[0])
  {
    if s == [] then Raised(TypeError("reduce() of empty iterable with no initial value"))
    else Ok(FoldLeft(f, s[0], s[1..]))
  }

  /** Folding addition from a start value adds the start value to `sum`. */
  lemma {:induction false} FoldAddIsSum(acc: int, s: seq<int>)
    ensures FoldLeft((x: int, y: int) => x + y, acc, s) == acc + Sum(s)
    decreases s
  {
    if s != [] {
      FoldAddIsSum(acc + s[0], s[1..]);
      SumCons(s[0], s[1..]);
      assert s == [s[0]] + s[1..];
    }
  }

  /** `reduce` with addition agrees with `sum` on every non-empty sequence. */
  lemma ReduceAddIsSum(s: seq<int>)
    requires s != []
    ensures Reduce((x: int, y: int) => x + y, s) == Ok(Sum(s))
  {
    FoldAddIsSum(s[0], s[1..]);
    SumCons(s[0], s[1..]);
    assert s == [s[0]] + s[1..];
  }

  // ---------------------------------------------------------------------------
  // sorted(s, key=...)
  // ---------------------------------------------------------------------------

  /** Ordered by non-decreasing key. */
  ghost predicate SortedByKey<T>(s: seq<T>, key: T -> int)
  {
    forall i, j :: 0 <= i < j < |s| ==> key(s[i]) <= key(s[j])
  }

  /** Places `x` in front of the first element whose key is not smaller, so `x`
      precedes the elements of `s` with an equal key. */
  function Insert<T>(x: T, s: seq<T>, key: T -> int): (r: seq<T>)
    ensures |r| == |s| + 1
  {
    if s == [] || key(x) <= key(s[0]) then [x] + s else [s[0]] + Insert(x, s[1..], key)
  }

  /** `sorted(s, key=key)`: a stable sort (an insertion sort, here). */
  function Sorted<T>(s: seq<T>, key: T -> int): (r: seq<T>)
    ensures |r| == |s|
  {
    if s == [] then [] else Insert(s[0], Sorted(s[1..], key), key)
  }

  lemma {:induction false} InsertPermutes<T>(x: T, s: seq<T>, key: T -> int)
    ensures multiset(Insert(x, s, key)) == multiset(s) + multiset{x}
  {
    if s != [] && key(s[0]) < key(x) {
      InsertPermutes(x, s[1..], key);
      assert s == [s[0]] + s[1..];
    }
  }

  lemma {:induction false} InsertSorted<T>(x: T, s: seq<T>, key: T -> int)
    requires SortedByKey(s, key)
    ensures SortedByKey(Insert(x, s, key), key)
  {
    if s != [] && key(s[0]) < key(x) {
      var t := Insert(x, s[1..], key);
      InsertSorted(x, s[1..], key);
      InsertPermutes(x, s[1..], key);
      forall j | 0 <= j < |t| ensures key(s[0]) <= key(t[j]) {
        assert t[j] in multiset(t);
        if t[j] != x {
          assert t[j] in multiset(s[1..]);
          var m :| 0 <= m < |s[1..]| && s[1..][m] == t[j];
          assert s[m + 1] == t[j];
        }
      }
      var r := [s[0]] + t;
      assert Insert(x, s, key) == r;
      forall i, j | 0 <= i < j < |r| ensures key(r[i]) <= key(r[j]) {
        if i > 0 {
          assert r[i] == t[i - 1] && r[j] == t[j - 1];
        }
      }
    }
  }

  /** The elements of `s` whose key is `k`, in their order in `s`. */
  function WithKey<T(!new)>(s: seq<T>, key: T -> int, k: int): seq<T>
  {
    Filter(y => key(y) == k, s)
  }

  lemma WithKeyCons<T(!new)>(x: T, s: seq<T>, key: T -> int, k: int)
    ensures WithKey([x] + s, key, k) == (if key(x) == k then [x] else []) + WithKey(s, key, k)
  {
    assert ([x] + s)[0] == x;
    assert ([x] + s)[1..] == s;
  }

  /** Inserting `x` adds it in front of the elements with its key and leaves the
      elements with any other key as they were. */
  lemma {:induction false} InsertStable<T(!new)>(x: T, s: seq<T>, key: T -> int, k: int)
    requires SortedByKey(s, key)
    ensures WithKey(Insert(x, s, key), key, k)
         == (if key(x) == k then [x] else []) + WithKey(s, key, k)
  {
    if s == [] || key(x) <= key(s[0]) {
      WithKeyCons(x, s, key, k);
    } else {
      assert s == [s[0]] + s[1..];
      InsertStable(x, s[1..], key, k);
      WithKeyCons(s[0], Insert(x, s[1..], key), key, k);
      WithKeyCons(s[0], s[1..], key, k);
    }
  }

  /** What Python promises of `sorted`: ordered by key, a permutation of the
      input, and stable (elements with equal keys keep their input order). */
  lemma {:induction false} SortedSpec<T(!new)>(s: seq<T>, key: T -> int)
    ensures SortedByKey(Sorted(s, key), key)
    ensures multiset(Sorted(s, key)) == multiset(s)
    ensures forall k :: WithKey(Sorted(s, key), key, k) == WithKey(s, key, k)
  {
    if s != [] {
      SortedSpec(s[1..], key);
      InsertSorted(s[0], Sorted(s[1..], key), key);
      InsertPermutes(s[0], Sorted(s[1..], key), key);
      assert s == [s[0]] + s[1..];
      forall k ensures WithKey(Sorted(s, key), key, k) == WithKey(s, key, k) {
        InsertStable(s[0], Sorted(s[1..], key), key, k);
        WithKeyCons(s[0], s[1..], key, k);
      }
    }
  }

  // ---------------------------------------------------------------------------
  // list.index, list.remove
  // ---------------------------------------------------------------------------

  /** `s.index(x)`: where `x` first occurs. */
  function FirstIndex<T(==)>(s: seq<T>, x: T): (i: nat)
    requires x in s
    ensures i < |s| && s[i] == x
    ensures x !in s[..i]
  {
    if s[0] == x then 0
    else
      assert s[1..][..FirstIndex(s[1..], x)] == s[1..1 + FirstIndex(s[1..], x)];
      1 + FirstIndex(s[1..], x)
  }

  /** The list `s.remove(x)` leaves behind: `s` without the first `x`. */
  function RemoveFirst<T(==)>(s: seq<T>, x: T): (r: seq<T>)
    requires x in s
    ensures |r| == |s| - 1
  {
    var i := FirstIndex(s, x);
    s[..i] + s[i + 1..]
  }

  /** `remove` takes out one `x` and keeps everything else, in order. */
  lemma RemoveFirstSpec<T>(s: seq<T>, x: T)
    requires x in s
    ensures |RemoveFirst(s, x)| == |s| - 1
    ensures multiset(RemoveFirst(s, x)) == multiset(s) - multiset{x}
    ensures forall k :: 0 <= k < |s| - 1 ==>
      RemoveFirst(s, x)[k] == if k < FirstIndex(s, x) then s[k] else s[k + 1]
  {
    var i := FirstIndex(s, x);
    assert s == s[..i] + [x] + s[i + 1..];
    assert multiset(s) == multiset(s[..i]) + multiset{x} + multiset(s[i + 1..]);
  }

  /** Removing a value that was just appended, and occurred nowhere before,
      gives back the original list. */
  lemma RemoveAppended<T>(s: seq<T>, x: T)
    requires x !in s
    ensures RemoveFirst(s + [x], x) == s
  {
    var t := s + [x];
    var i := FirstIndex(t, x);
    assert i == |s|;
    assert t[..i] == s;
  }

  // ---------------------------------------------------------------------------
  // set(list)
  // ---------------------------------------------------------------------------

  /** `set(xs)`: the distinct elements of a list. */
  function SetOf<T(!new)>(xs: seq<T>): (r: set<T>)
    ensures |r| <= |xs|
  {
    if xs == [] then {} else {xs[0]} + SetOf(xs[1..])
  }

  /** The set holds exactly the list's elements. */
  lemma {:induction false} SetOfMembers<T(!new)>(xs: seq<T>)
    ensures forall x :: x in SetOf(xs) <==> x in xs
  {
    if xs != [] {
      SetOfMembers(xs[1..]);
      assert xs == [xs[0]] + xs[1..];
    }
  }

  /** No value occurs twice. */
  predicate NoDuplicates<T(==)>(xs: seq<T>)
  {
    forall i, j :: 0 <= i < j < |xs| ==> xs[i] != xs[j]
  }

  /** A list without duplicates has as many elements as its set. */
  lemma {:induction false} DistinctCardinality<T(!new)>(xs: seq<T>)
    requires NoDuplicates(xs)
    ensures |SetOf(xs)| == |xs|
  {
    if xs != [] {
      DistinctCardinality(xs[1..]);
      SetOfMembers(xs[1..]);
      assert xs[0] !in SetOf(xs[1..]);
    }
  }

  // ---------------------------------------------------------------------------
  // str.lower, str.upper, str.strip
  // ---------------------------------------------------------------------------

  predicate IsUpper(c: char) { 'A' <= c <= 'Z' }
  predicate IsLower(c: char) { 'a' <= c <= 'z' }

  function LowerChar(c: char): (r: char)
    ensures !IsUpper(r)
    ensures IsUpper(c) ==> IsLower(r) && r as int == c as int + 32
    ensures !IsUpper(c) ==> r == c
  {
    if IsUpper(c) then (c as int + 32) as char else c
  }

  function UpperChar(c: char): (r: char)
    ensures !IsLower(r)
    ensures IsLower(c) ==> IsUpper(r) && r as int == c as int - 32
    ensures !IsLower(c) ==> r == c
  {
    if IsLower(c) then (c as int - 32) as char else c
  }

  /** `s.lower()` for the ASCII letters: same length, every upper-case
      letter replaced by its lower-case partner, every other character kept. */
  function Lower(s: string): (r: string)
    ensures |r| == |s|
    ensures forall i :: 0 <= i < |s| ==> !IsUpper(r[i])
    ensures forall i :: 0 <= i < |s| && IsUpper(s[i]) ==> r[i] as int == s[i] as int + 32
    ensures forall i :: 0 <= i < |s| && !IsUpper(s[i]) ==> r[i] == s[i]
  {
    Map(LowerChar, s)
  }

  /** `s.upper()` for the ASCII letters: same length, every lower-case
      letter replaced by its upper-case partner, every other character kept. */
  function Upper(s: string): (r: string)
    ensures |r| == |s|
    ensures forall i :: 0 <= i < |s| ==> !IsLower(r[i])
    ensures forall i :: 0 <= i < |s| && IsLower(s[i]) ==> r[i] as int == s[i] as int - 32
    ensures forall i :: 0 <= i < |s| && !IsLower(s[i]) ==> r[i] == s[i]
  {
    Map(UpperChar, s)
  }

  /** Lowercasing twice is lowercasing once, and uppercasing a lowercased
      string gives the same as uppercasing the original. */
  lemma CaseIdempotent(s: string)
    ensures Lower(Lower(s)) == Lower(s)
    ensures Upper(Lower(s)) == Upper(s)
  {
  }

  /** The characters `str.isspace` accepts. */
  predicate IsSpace(c: char)
  {
    || '\U{0009}' <= c <= '\U{000D}'
    || '\U{001C}' <= c <= '\U{0020}'
    || c == '\U{0085}' || c == '\U{00A0}' || c == '\U{1680}'
    || '\U{2000}' <= c <= '\U{200A}'
    || c == '\U{2028}' || c == '\U{2029}' || c == '\U{202F}' || c == '\U{205F}' || c == '\U{3000}'
  }

  /** How many whitespace characters `s` starts with. */
  function LeadingSpaces(s: string): (n: nat)
    ensures n <= |s|
    ensures forall k :: 0 <= k < n ==> IsSpace(s[k])
    ensures n < |s| ==> !IsSpace(s[n])
  {
    if s != [] && IsSpace(s[0]) then 1 + LeadingSpaces(s[1..]) else 0
  }

  /** Where the whitespace that `s` ends with begins. */
  function TrailingSpacesStart(s: string): (n: nat)
    ensures n <= |s|
    ensures forall k :: n <= k < |s| ==> IsSpace(s[k])
    ensures 0 < n ==> !IsSpace(s[n - 1])
  {
    if s != [] && IsSpace(s[|s| - 1]) then TrailingSpacesStart(s[..|s| - 1]) else |s|
  }

  /** `s.strip()`: removes leading and trailing whitespace. */
  function Strip(s: string): (r: string)
    ensures |r| <= |s|
  {
    var t := s[LeadingSpaces(s)..];
    t[..TrailingSpacesStart(t)]
  }

  /** `strip` undoes padding: whitespace put around a string that neither
      starts nor ends with whitespace is exactly what `strip` removes. */
  lemma StripPadded(a: string, w: string, b: string)
    requires forall k :: 0 <= k < |a| ==> IsSpace(a[k])
    requires forall k :: 0 <= k < |b| ==> IsSpace(b[k])
    requires w != [] ==> !IsSpace(w[0]) && !IsSpace(w[|w| - 1])
    ensures Strip(a + w + b) == w
  {
    var s := a + w + b;
    var n := LeadingSpaces(s);
    if w == [] {
      assert forall k :: 0 <= k < |s| ==> IsSpace(s[k]) by {
        forall k | 0 <= k < |s| ensures IsSpace(s[k]) {
          if k < |a| { assert s[k] == a[k]; } else { assert s[k] == b[k - |a|]; }
        }
      }
      assert n == |s|;
    } else {
      assert s[|a|] == w[0];
      assert n == |a|;
      var t := s[n..];
      assert t == w + b;
      var m := TrailingSpacesStart(t);
      assert t[|w| - 1] == w[|w| - 1];
      assert m == |w|;
      assert t[..m] == w;
    }
  }

  /** What `strip` promises: the result is a contiguous piece of the input, only
      whitespace is cut off at either end, and no whitespace is left at either
      end of the result. */
  lemma StripSpec(s: string)
    ensures var r := Strip(s);
      && (r != [] ==> !IsSpace(r[0]) && !IsSpace(r[|r| - 1]))
      && exists i, j :: 0 <= i <= j <= |s| && r == s[i..j]
           && (forall k :: 0 <= k < i ==> IsSpace(s[k]))
           && (forall k :: j <= k < |s| ==> IsSpace(s[k]))
  {
    var i := LeadingSpaces(s);
    var t := s[i..];
    var n := TrailingSpacesStart(t);
    var r := Strip(s);
    assert r == s[i..i + n];
    if r != [] {
      assert r[0] == t[0];
    }
    forall k | i + n <= k < |s| ensures IsSpace(s[k]) {
      assert s[k] == t[k - i];
    }
  }

  /** Stripping twice is stripping once. */
  lemma StripIdempotent(s: string)
    ensures Strip(Strip(s)) == Strip(s)
  {
    var r := Strip(s);
    StripSpec(s);
    assert LeadingSpaces(r) == 0;
    assert r[0..] == r;
    assert TrailingSpacesStart(r) == |r|;
    assert r[..|r|] == r;
  }
}
