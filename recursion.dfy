/** Recursion examples: factorial (recursive and iterative), Fibonacci (plain
    and memoised through a cache that persists across calls), the recursive sum
    of a list, and the pre-order walk that collects every key of a nested
    dictionary. */
module Recursion {
  import opened Builtins

  // ---------------------------------------------------------------------------
  // factorial
  // ---------------------------------------------------------------------------

  /** `factorial(n)`: 1 at 0, otherwise `n * factorial(n - 1)`. The source has
      no case for negative `n` and never reaches its base case there. */
  function Factorial(n: int): (r: int)
    requires n >= 0
    ensures r >= 1
    ensures n >= 1 ==> r >= n
  {
    if n == 0 then 1 else n * Factorial(n - 1)
  }

  /** The iterative factorial: multiplies `result` by 1, 2, ..., n. For a
      negative `n` the range is empty and the result is 1. */
  method FactorialIterative(n: int) returns (result: int)
    ensures n >= 0 ==> result == Factorial(n)
    ensures n < 0 ==> result == 1
  {
    result := 1;
    var i := 1;
    while i < n + 1
      invariant 1 <= i <= if n >= 0 then n + 1 else 1
      invariant result == Factorial(i - 1)
    {
      result := result * i;
      i := i + 1;
    }
  }

  // ---------------------------------------------------------------------------
  // fibonacci
  // ---------------------------------------------------------------------------

  /** `fibonacci(n)`: `n` itself when `n <= 1` (negative `n` included),
      otherwise the sum of the two previous numbers. */
  function Fibonacci(n: int): int
  {
    if n <= 1 then n else Fibonacci(n - 1) + Fibonacci(n - 2)
  }

  /** Fibonacci numbers never decrease from index 0 on, and are non-negative there. */
  lemma {:induction false} FibonacciMonotone(n: nat)
    ensures 0 <= Fibonacci(n) <= Fibonacci(n + 1)
  {
    if n >= 1 {
      FibonacciMonotone(n - 1);
    }
  }

  /** The demonstration value: the 10th Fibonacci number is 55. */
  lemma FibonacciTen()
    ensures Fibonacci(10) == 55
  {
    assert Fibonacci(2) == 1;
    assert Fibonacci(3) == 2;
    assert Fibonacci(4) == 3;
    assert Fibonacci(5) == 5;
    assert Fibonacci(6) == 8;
    assert Fibonacci(7) == 13;
    assert Fibonacci(8) == 21;
    assert Fibonacci(9) == 34;
  }

  // ---------------------------------------------------------------------------
  // sum_of_a_list
  // ---------------------------------------------------------------------------

  /** `sum_of_a_list(data)`: 0 for the empty list, otherwise the head plus the
      sum of the tail. This recursion adds from the right, Python's `sum` from
      the left, and the two agree on every list. */
  function SumOfAList(data: seq<int>): (r: int)
    ensures r == Sum(data)
  {
    if |data| == 0 then 0
    else
      SumCons(data[0], data[1..]);
      assert data == [data[0]] + data[1..];
      data[0] + SumOfAList(data[1..])
  }

  // ---------------------------------------------------------------------------
  // extract_keys
  // ---------------------------------------------------------------------------

  /** A nested dictionary: its entries in insertion order; a value is either a
      dictionary or something else (whose content the walk ignores). */
  datatype Value = Atom(n: int) | Dict(entries: seq<Entry>)
  datatype Entry = Entry(key: string, value: Value)

  /** The keys the walk reports for one entry: its own key, then the keys
      nested under its value when that value is a dictionary. */
  function EntryKeys(e: Entry): seq<string>
    decreases e, 1
  {
    [e.key] + (if e.value.Dict? then PreOrderKeys(e.value.entries) else [])
  }

  /** Every key at every depth, in pre-order. */
  function PreOrderKeys(entries: seq<Entry>): seq<string>
    decreases entries, 0
  {
    if entries == [] then [] else EntryKeys(entries[0]) + PreOrderKeys(entries[1..])
  }

  lemma {:induction false} PreOrderKeysConcat(a: seq<Entry>, b: seq<Entry>)
    ensures PreOrderKeys(a + b) == PreOrderKeys(a) + PreOrderKeys(b)
  {
    if a == [] {
      assert a + b == b;
    } else {
      assert (a + b)[0] == a[0];
      assert (a + b)[1..] == a[1..] + b;
      PreOrderKeysConcat(a[1..], b);
    }
  }

  /** `extract_keys(data)`: walks the entries in order, appending each key and,
      when its value is a dictionary, extending with that dictionary's keys. */
  method ExtractKeys(data: seq<Entry>) returns (keys: seq<string>)
    ensures keys == PreOrderKeys(data)
    decreases data
  {
    keys := [];
    var i := 0;
    while i < |data|
      invariant 0 <= i <= |data|
      invariant keys == PreOrderKeys(data[..i])
    {
      var e := data[i];
      keys := keys + [e.key];
      if e.value.Dict? {
        assert e in data;
        var nested := ExtractKeys(e.value.entries);
        keys := keys + nested;
      }
      assert data[..i + 1] == data[..i] + [e];
      PreOrderKeysConcat(data[..i], [e]);
      assert PreOrderKeys([e]) == EntryKeys(e);
      i := i + 1;
    }
    assert data[..i] == data;
  }

  /** The key `k` occurs somewhere in the nested dictionary, at any depth. */
  ghost predicate HasKey(entries: seq<Entry>, k: string)
    decreases entries, 1
  {
    exists i :: 0 <= i < |entries| && EntryHasKey(entries[i], k)
  }

  ghost predicate EntryHasKey(e: Entry, k: string)
    decreases e, 0
  {
    e.key == k || (e.value.Dict? && HasKey(e.value.entries, k))
  }

  /** A key is reported exactly when it occurs at some depth. */
  lemma {:induction false} PreOrderKeysComplete(entries: seq<Entry>, k: string)
    ensures k in PreOrderKeys(entries) <==> HasKey(entries, k)
    decreases entries
  {
    if entries != [] {
      var e := entries[0];
      PreOrderKeysComplete(entries[1..], k);
      if e.value.Dict? {
        assert e in entries;
        PreOrderKeysComplete(e.value.entries, k);
      }
      if HasKey(entries, k) {
        var i :| 0 <= i < |entries| && EntryHasKey(entries[i], k);
        if i > 0 {
          assert entries[1..][i - 1] == entries[i];
        }
      }
      if HasKey(entries[1..], k) {
        var i :| 0 <= i < |entries[1..]| && EntryHasKey(entries[1..][i], k);
        assert entries[i + 1] == entries[1..][i];
      }
    }
  }

  /** The number of keys at every depth. */
  function KeyCount(entries: seq<Entry>): nat
    decreases entries
  {
    if entries == [] then 0
    else
      var e := entries[0];
      1 + (if e.value.Dict? then KeyCount(e.value.entries) else 0) + KeyCount(entries[1..])
  }

  /** One key is reported per key in the tree. */
  lemma {:induction false} PreOrderKeysLength(entries: seq<Entry>)
    ensures |PreOrderKeys(entries)| == KeyCount(entries)
    decreases entries
  {
    if entries != [] {
      var e := entries[0];
      PreOrderKeysLength(entries[1..]);
      if e.value.Dict? {
        PreOrderKeysLength(e.value.entries);
      }
    }
  }

  /** Pre-order: the keys of the i-th entry come after those of the entries
      before it, start with the entry's own key, and are followed at once by
      the keys nested under it. */
  lemma {:induction false} PreOrderKeysAt(entries: seq<Entry>, i: nat)
    requires i < |entries|
    ensures PreOrderKeys(entries)
         == PreOrderKeys(entries[..i]) + [entries[i].key]
            + (if entries[i].value.Dict? then PreOrderKeys(entries[i].value.entries) else [])
            + PreOrderKeys(entries[i + 1..])
  {
    var before, e, after := entries[..i], entries[i], entries[i + 1..];
    assert entries == (before + [e]) + after;
    PreOrderKeysConcat(before + [e], after);
    PreOrderKeysConcat(before, [e]);
    assert [e][1..] == [];
    assert PreOrderKeys([e]) == EntryKeys(e) + PreOrderKeys([]);
  }

  /** The demonstration dictionary {"a": 1, "b": {"c": 2, "d": {"e": 3, "f": 4}}, "g": 5}. */
  function NestedData(): seq<Entry>
  {
    [ Entry("a", Atom(1)),
      Entry("b", Dict([Entry("c", Atom(2)), Entry("d", Dict([Entry("e", Atom(3)), Entry("f", Atom(4))]))])),
      Entry("g", Atom(5)) ]
  }

  /** The keys of a list that starts with `e`: those of `e`, then the rest's. */
  lemma PreOrderKeysCons(e: Entry, rest: seq<Entry>)
    ensures PreOrderKeys([e] + rest) == EntryKeys(e) + PreOrderKeys(rest)
  {
    assert ([e] + rest)[0] == e;
    assert ([e] + rest)[1..] == rest;
  }

  lemma NestedDataKeys()
    ensures PreOrderKeys(NestedData()) == ["a", "b", "c", "d", "e", "f", "g"]
  {
    var f := Entry("f", Atom(4));
    PreOrderKeysCons(f, []);
    var e := Entry("e", Atom(3));
    PreOrderKeysCons(e, [f]);
    assert [e] + [f] == [e, f];
    var d := Entry("d", Dict([e, f]));
    assert EntryKeys(d) == ["d", "e", "f"];
    PreOrderKeysCons(d, []);
    var c := Entry("c", Atom(2));
    PreOrderKeysCons(c, [d]);
    assert [c] + [d] == [c, d];
    var b := Entry("b", Dict([c, d]));
    assert EntryKeys(b) == ["b", "c", "d", "e", "f"];
    var g := Entry("g", Atom(5));
    PreOrderKeysCons(g, []);
    PreOrderKeysCons(b, [g]);
    assert [b] + [g] == [b, g];
    var a := Entry("a", Atom(1));
    PreOrderKeysCons(a, [b, g]);
    assert [a] + [b, g] == NestedData();
  }

  // ---------------------------------------------------------------------------
  // fibonacci_memo
  // ---------------------------------------------------------------------------

  /** `fibonacci_memo` with its default dictionary: the dictionary is created
      once, when the function is defined, and every call reads and extends it.
      This object is that dictionary. */
  class FibonacciMemo {
    var memo: map<int, int>

    /** Every cached entry is right; only indices from 2 up are cached, and
        with an index all smaller ones from 2 up. */
    ghost predicate Valid()
      reads this
    {
      && (forall k :: k in memo ==> k >= 2 && memo[k] == Fibonacci(k))
      && (forall k, j :: k in memo && 2 <= j <= k ==> j in memo)
    }

    /** The default argument `memo={}`: empty when the function is defined. */
    constructor ()
      ensures Valid() && memo == map[]
    {
      memo := map[];
    }

    /** One call `fibonacci_memo(n)`: a cache hit returns the stored value and
        leaves the cache alone; otherwise the base case, or both recursive calls
        and caching of the result. */
    method Call(n: int) returns (r: int)
      requires Valid()
      modifies this
      ensures Valid()
      ensures r == Fibonacci(n)
      ensures n in old(memo) ==> memo == old(memo)
      ensures forall k :: k in memo <==> k in old(memo) || 2 <= k <= n
      ensures forall k :: k in old(memo) ==> k in memo && memo[k] == old(memo)[k]
      decreases n
    {
      if n in memo {
        r := memo[n];
        return;
      }
      if n <= 1 {
        r := n;
        return;
      }
      var a := Call(n - 1);
      var b := Call(n - 2);
      assert a + b == Fibonacci(n);
      memo := memo[n := a + b];
      r := a + b;
    }
  }

  /** The demonstration call and a repeat: the first call fills the cache with
      F(2..10), the second is a pure cache hit that leaves the cache as the
      first call left it. */
  method MemoDemo() returns (first: int, second: int, ghost afterFirst: map<int, int>, ghost afterSecond: map<int, int>)
    ensures first == 55 && second == 55
    ensures forall k :: k in afterFirst <==> 2 <= k <= 10
    ensures forall k :: k in afterFirst ==> afterFirst[k] == Fibonacci(k)
    ensures afterSecond == afterFirst
  {
    var f := new FibonacciMemo();
    first := f.Call(10);
    afterFirst := f.memo;
    second := f.Call(10);
    afterSecond := f.memo;
    FibonacciTen();
  }
}
