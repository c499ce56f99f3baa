/** The generator examples. Each generator is an object whose fields are the
    generator function's local state; `Next` runs it to its next `yield` and
    returns the yielded value, or StopIteration once the function body has
    finished. The methods beside them drain a generator the way the scripts do
    (`list(gen)` or a fixed number of `next` calls). */
module Generators {
  import opened Builtins
  import Recursion

  // ---------------------------------------------------------------------------
  // simple_generator
  // ---------------------------------------------------------------------------

  /** `yield 1; yield 2; yield 3`. */
  class SimpleGenerator {
    /** How many `yield` statements have run. */
    var resumed: nat

    ghost predicate Valid()
      reads this
    {
      resumed <= 3
    }

    constructor ()
      ensures Valid() && resumed == 0
    {
      resumed := 0;
    }

    method Next() returns (r: Result<int>)
      requires Valid()
      modifies this
      ensures Valid()
      ensures old(resumed) < 3 ==> r == Ok(old(resumed) + 1) && resumed == old(resumed) + 1
      ensures old(resumed) == 3 ==> r == Raised(StopIteration) && resumed == 3
    {
      if resumed < 3 {
        resumed := resumed + 1;
        r := Ok(resumed);
      } else {
        r := Raised(StopIteration);
      }
    }
  }

  /** Three `next` calls give 1, 2, 3 and a fourth raises StopIteration. */
  method SimpleGeneratorDemo() returns (outputs: seq<Result<int>>)
    ensures outputs == [Ok(1), Ok(2), Ok(3), Raised(StopIteration)]
  {
    var gen := new SimpleGenerator();
    var a := gen.Next();
    var b := gen.Next();
    var c := gen.Next();
    var d := gen.Next();
    outputs := [a, b, c, d];
  }

  // ---------------------------------------------------------------------------
  // (x ** 2 for x in range(n))
  // ---------------------------------------------------------------------------

  /** The generator expression over `range(bound)`. */
  class SquaresGenerator {
    var x: nat
    const bound: nat

    ghost predicate Valid()
      reads this
    {
      x <= bound
    }

    constructor (bound: nat)
      ensures Valid() && x == 0 && this.bound == bound
    {
      x := 0;
      this.bound := bound;
    }

    method Next() returns (r: Result<int>)
      requires Valid()
      modifies this
      ensures Valid()
      ensures old(x) < bound ==> r == Ok(old(x) * old(x)) && x == old(x) + 1
      ensures old(x) == bound ==> r == Raised(StopIteration) && x == bound
    {
      if x < bound {
        r := Ok(x * x);
        x := x + 1;
      } else {
        r := Raised(StopIteration);
      }
    }
  }

  /** The five `next` calls of the script give 0, 1, 4, 9, 16. */
  method SquaresDemo() returns (outputs: seq<int>)
    ensures outputs == [0, 1, 4, 9, 16]
  {
    var gen := new SquaresGenerator(5);
    outputs := [];
    var k := 0;
    while k < 5
      invariant 0 <= k <= 5
      invariant gen.Valid() && gen.bound == 5 && gen.x == k
      invariant |outputs| == k
      invariant forall i :: 0 <= i < k ==> outputs[i] == i * i
    {
      var r := gen.Next();
      outputs := outputs + [r.value];
      k := k + 1;
    }
  }

  // ---------------------------------------------------------------------------
  // infinite_fibonacci
  // ---------------------------------------------------------------------------

  /** `a, b = 0, 1; while True: yield a; a, b = b, a + b`. */
  class FibonacciGenerator {
    var a: int
    var b: int
    /** How many values have been yielded. */
    ghost var k: nat

    ghost predicate Valid()
      reads this
    {
      a == Recursion.Fibonacci(k) && b == Recursion.Fibonacci(k + 1)
    }

    constructor ()
      ensures Valid() && k == 0
    {
      a, b := 0, 1;
      k := 0;
    }

    /** Never raises StopIteration: the k-th value is F(k). */
    method Next() returns (r: int)
      requires Valid()
      modifies this
      ensures Valid() && k == old(k) + 1
      ensures r == Recursion.Fibonacci(old(k))
    {
      r := a;
      a, b := b, a + b;
      k := k + 1;
    }
  }

  /** The first `n` values of the infinite stream: F(0), ..., F(n-1). */
  method FibonacciPrefix(n: nat) returns (outputs: seq<int>)
    ensures |outputs| == n
    ensures forall i :: 0 <= i < n ==> outputs[i] == Recursion.Fibonacci(i)
  {
    var gen := new FibonacciGenerator();
    outputs := [];
    while |outputs| < n
      invariant |outputs| <= n
      invariant gen.Valid() && gen.k == |outputs|
      invariant forall i :: 0 <= i < |outputs| ==> outputs[i] == Recursion.Fibonacci(i)
    {
      var r := gen.Next();
      outputs := outputs + [r];
    }
  }

  /** The script prints 0, 1, 1, 2, 3. */
  lemma FibonacciFirstFive()
    ensures seq(5, i => Recursion.Fibonacci(i)) == [0, 1, 1, 2, 3]
  {
    assert Recursion.Fibonacci(2) == 1;
    assert Recursion.Fibonacci(3) == 2;
    assert Recursion.Fibonacci(4) == 3;
  }

  // ---------------------------------------------------------------------------
  // stream_data
  // ---------------------------------------------------------------------------

  /** `for item in data: yield item * 2`. */
  class StreamData {
    const data: seq<int>
    var i: nat

    ghost predicate Valid()
      reads this
    {
      i <= |data|
    }

    constructor (data: seq<int>)
      ensures Valid() && this.data == data && i == 0
    {
      this.data := data;
      i := 0;
    }

    method Next() returns (r: Result<int>)
      requires Valid()
      modifies this
      ensures Valid()
      ensures old(i) < |data| ==> r == Ok(2 * data[old(i)]) && i == old(i) + 1
      ensures old(i) == |data| ==> r == Raised(StopIteration) && i == old(i)
    {
      if i < |data| {
        r := Ok(data[i] * 2);
        i := i + 1;
      } else {
        r := Raised(StopIteration);
      }
    }
  }

  /** Drains the stream: one output per input, each doubled, in order. */
  method StreamDataList(data: seq<int>) returns (outputs: seq<int>)
    ensures |outputs| == |data|
    ensures forall j :: 0 <= j < |data| ==> outputs[j] == 2 * data[j]
  {
    var gen := new StreamData(data);
    outputs := [];
    var r := gen.Next();
    while r.Ok?
      invariant gen.Valid() && gen.data == data
      invariant r.Ok? ==> gen.i == |outputs| + 1 && r.value == 2 * data[|outputs|]
      invariant r.Raised? ==> gen.i == |outputs| == |data|
      invariant forall j :: 0 <= j < |outputs| ==> outputs[j] == 2 * data[j]
      decreases |data| - |outputs|
    {
      outputs := outputs + [r.value];
      r := gen.Next();
    }
  }

  // ---------------------------------------------------------------------------
  // cumulative_sum
  // ---------------------------------------------------------------------------

  /** The running totals of `data`: the i-th is `sum(data[:i+1])`. */
  function RunningTotals(data: seq<int>): (r: seq<int>)
    ensures |r| == |data|
    ensures forall i :: 0 <= i < |data| ==> r[i] == Sum(data[..i + 1])
  {
    if data == [] then []
    else
      var front := data[..|data| - 1];
      assert forall j :: 1 <= j <= |front| ==> front[..j] == data[..j];
      assert data[..|data|] == data;
      RunningTotals(front) + [Sum(data)]
  }

  /** Each running total is the previous one plus the next input. */
  lemma RunningTotalsStep(data: seq<int>, i: nat)
    requires 0 < i < |data|
    ensures RunningTotals(data)[i] == RunningTotals(data)[i - 1] + data[i]
  {
    assert data[..i + 1][..i] == data[..i];
  }

  /** `total = 0; for item in data: total += item; yield total`. */
  class CumulativeSum {
    const data: seq<int>
    var i: nat
    var total: int

    ghost predicate Valid()
      reads this
    {
      i <= |data| && total == Sum(data[..i])
    }

    constructor (data: seq<int>)
      ensures Valid() && this.data == data && i == 0
    {
      this.data := data;
      i := 0;
      total := 0;
      assert data[..0] == [];
    }

    method Next() returns (r: Result<int>)
      requires Valid()
      modifies this
      ensures Valid()
      ensures old(i) < |data| ==> r == Ok(Sum(data[..old(i) + 1])) && i == old(i) + 1
      ensures old(i) == |data| ==> r == Raised(StopIteration) && i == old(i)
    {
      if i < |data| {
        total := total + data[i];
        assert data[..i + 1][..i] == data[..i];
        i := i + 1;
        r := Ok(total);
      } else {
        r := Raised(StopIteration);
      }
    }
  }

  /** `list(cumulative_sum(data))`. */
  method CumulativeSumList(data: seq<int>) returns (outputs: seq<int>)
    ensures outputs == RunningTotals(data)
  {
    var gen := new CumulativeSum(data);
    outputs := [];
    var r := gen.Next();
    while r.Ok?
      invariant gen.Valid() && gen.data == data
      invariant r.Ok? ==> gen.i == |outputs| + 1 && r.value == Sum(data[..|outputs| + 1])
      invariant r.Raised? ==> gen.i == |outputs| == |data|
      invariant |outputs| <= |data|
      invariant forall j :: 0 <= j < |outputs| ==> outputs[j] == Sum(data[..j + 1])
      decreases |data| - |outputs|
    {
      outputs := outputs + [r.value];
      r := gen.Next();
    }
  }

  /** The script's input [1, 2, 3, 4, 5] gives [1, 3, 6, 10, 15]. */
  lemma CumulativeSumDemo(data: seq<int>)
    requires data == [1, 2, 3, 4, 5]
    ensures RunningTotals(data) == [1, 3, 6, 10, 15]
  {
    var r := RunningTotals(data);
    assert data[..1] == [1];
    assert Sum([1]) == 1 by { assert [1][..0] == []; }
    RunningTotalsStep(data, 1);
    RunningTotalsStep(data, 2);
    RunningTotalsStep(data, 3);
    RunningTotalsStep(data, 4);
  }

  // ---------------------------------------------------------------------------
  // filter_even_numbers
  // ---------------------------------------------------------------------------

  /** The values `value % 2 == 0` keeps (Python's `%` and Dafny's agree on
      this test, for negative values too). */
  predicate IsEven(x: int)
  {
    x % 2 == 0
  }

  /** `for value in data: if value % 2 == 0: yield value`. */
  class FilterEvenNumbers {
    const data: seq<int>
    var i: nat

    ghost predicate Valid()
      reads this
    {
      i <= |data|
    }

    constructor (data: seq<int>)
      ensures Valid() && this.data == data && i == 0
    {
      this.data := data;
      i := 0;
    }

    /** Runs the loop on until the next even value, which is yielded, or to the
        end of the data. What is yielded is the first element of the filtered
        rest of the data. */
    method Next() returns (r: Result<int>)
      requires Valid()
      modifies this
      ensures Valid() && old(i) <= i
      ensures Filter(IsEven, old(data[i..])) == (if r.Ok? then [r.value] else []) + Filter(IsEven, data[i..])
      ensures r.Ok? ==> old(i) < i
      ensures r.Raised? ==> r.error == StopIteration && i == |data|
    {
      while i < |data| && !IsEven(data[i])
        invariant old(i) <= i <= |data|
        invariant Filter(IsEven, data[old(i)..]) == Filter(IsEven, data[i..])
      {
        assert data[i..] == [data[i]] + data[i + 1..];
        FilterConcat(IsEven, [data[i]], data[i + 1..]);
        i := i + 1;
      }
      if i < |data| {
        assert data[i..] == [data[i]] + data[i + 1..];
        FilterConcat(IsEven, [data[i]], data[i + 1..]);
        r := Ok(data[i]);
        i := i + 1;
      } else {
        r := Raised(StopIteration);
      }
    }
  }

  /** `list(filter_even_numbers(data))`: exactly the even inputs, in order. */
  method FilterEvenList(data: seq<int>) returns (outputs: seq<int>)
    ensures outputs == Filter(IsEven, data)
  {
    var gen := new FilterEvenNumbers(data);
    outputs := [];
    assert data[0..] == data;
    while true
      invariant gen.Valid() && gen.data == data
      invariant Filter(IsEven, data) == outputs + Filter(IsEven, data[gen.i..])
      decreases |data| - gen.i
    {
      var r := gen.Next();
      if r.Raised? {
        assert data[gen.i..] == [];
        return;
      }
      outputs := outputs + [r.value];
    }
  }

  /** The even values of range(10), taken in two halves. */
  lemma EvensBelowTen(data: seq<int>)
    requires data == [0, 1, 2, 3, 4, 5, 6, 7, 8, 9]
    ensures Filter(IsEven, data) == [0, 2, 4, 6, 8]
  {
    var lo, hi := [0, 1, 2, 3, 4], [5, 6, 7, 8, 9];
    assert data == lo + hi;
    FilterConcat(IsEven, lo, hi);
    assert Filter(IsEven, lo) == [0, 2, 4];
    assert Filter(IsEven, hi) == [6, 8];
  }

  /** The script drains the generator over range(10) and gets [0, 2, 4, 6, 8]. */
  method FilterEvenDemo() returns (outputs: seq<int>)
    ensures outputs == [0, 2, 4, 6, 8]
  {
    var data := [0, 1, 2, 3, 4, 5, 6, 7, 8, 9];
    EvensBelowTen(data);
    outputs := FilterEvenList(data);
  }
}
