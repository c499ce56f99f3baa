/** Intermediate function features: `*args`, lambdas with `sorted` and
    `filter`, scope and closures, annotations and `functools.partial`. */
module Intermediate {
  import opened Builtins
  import HigherOrder

  /** `sum_of_numbers(*args)`: `sum(args)`. The order the arguments are passed
      in does not change the result. */
  lemma SumOfNumbersReordered(args: seq<int>, reordered: seq<int>)
    requires multiset(args) == multiset(reordered)
    ensures Sum(args) == Sum(reordered)
  {
    SumPermutation(args, reordered);
  }

  /** `sum_of_numbers(1, 2, 3, 4, 5)` is 15, whichever order the five are
      passed in. */
  lemma SumOfNumbersDemo(args: seq<int>)
    requires multiset(args) == multiset{1, 2, 3, 4, 5}
    ensures Sum(args) == 15
  {
    var r := Range(1, 6);
    assert r == [1, 2, 3, 4, 5];
    assert multiset(r) == multiset{1, 2, 3, 4, 5};
    SumPermutation(args, r);
    SumRange(5);
  }

  // ---------------------------------------------------------------------------
  // sorted(data, key=lambda x: x['age'])
  // ---------------------------------------------------------------------------

  /** Alice (34), Bob (25) and Charlie (30) sort to Bob, Charlie, Alice. */
  lemma SortedRecordsDemo()
    ensures var alice, bob, charlie := HigherOrder.Person("Alice", 34), HigherOrder.Person("Bob", 25), HigherOrder.Person("Charlie", 30);
      Sorted([alice, bob, charlie], HigherOrder.Age) == [bob, charlie, alice]
  {
    var alice, bob, charlie := HigherOrder.Person("Alice", 34), HigherOrder.Person("Bob", 25), HigherOrder.Person("Charlie", 30);
    var key := HigherOrder.Age;
    assert Sorted([charlie], key) == [charlie];
    assert [bob, charlie][1..] == [charlie];
    assert Sorted([bob, charlie], key) == Insert(bob, [charlie], key) == [bob, charlie];
    assert Insert(alice, [charlie], key) == [charlie] + Insert(alice, [], key);
    assert Insert(alice, [bob, charlie], key) == [bob] + Insert(alice, [charlie], key);
  }

  // ---------------------------------------------------------------------------
  // filter(lambda x: x > 200, transactions)
  // ---------------------------------------------------------------------------

  predicate IsHighValue(x: int)
  {
    x > 200
  }

  /** The high-value transactions are those above 200, in their original
      order: [100, 200, 300, 450] gives [300, 450]. */
  lemma HighValueDemo()
    ensures Filter(IsHighValue, [100, 200, 300, 450]) == [300, 450]
  {
  }

  // ---------------------------------------------------------------------------
  // scope and closures
  // ---------------------------------------------------------------------------

  /** `outer()`: the local `x = 2` is read by `inner`, which returns `x * 2`. */
  function Outer(): (r: int)
    ensures r == 4
  {
    var x := 2;
    var inner := () => x * 2;
    inner()
  }

  /** The argument values `add_num` is shown with: its annotations say `int`,
      but Python does not check them, so a string gets through as well. */
  datatype Value = IntValue(i: int) | StrValue(s: string)

  /** `add_num(x: int, y: int) -> int`: `x + y` on whatever is passed. Two ints
      add, two strings concatenate, and a mix raises TypeError with the
      message of the left operand's `+`. */
  function AddNum(x: Value, y: Value): (r: Result<Value>)
    ensures x.IntValue? && y.IntValue? ==> r == Ok(IntValue(Sum([x.i, y.i])))
    ensures x.StrValue? && y.StrValue? ==> r.Ok? && r.value.StrValue? && |r.value.s| == |x.s| + |y.s|
                                           && r.value.s[..|x.s|] == x.s && r.value.s[|x.s|..] == y.s
    ensures x.IntValue? != y.IntValue? ==> r.Raised? && r.error.TypeError?
  {
    match (x, y)
    case (IntValue(a), IntValue(b)) =>
      assert [a, b][..1] == [a] && [a][..0] == [];
      assert Sum([a]) == a;
      assert Sum([a, b]) == a + b;
      Ok(IntValue(a + b))
    case (StrValue(a), StrValue(b)) => Ok(StrValue(a + b))
    case (IntValue(_), StrValue(_)) => Raised(TypeError("unsupported operand type(s) for +: 'int' and 'str'"))
    case (StrValue(_), IntValue(_)) => Raised(TypeError("can only concatenate str (not \"int\") to str"))
  }

  /** The annotations are not enforced: `add_num(2, 3)` is 5, but
      `add_num("a", "b")` runs too and gives "ab", and on strings the order
      of the arguments matters while on ints it does not. */
  lemma AddNumDemo(a: int, b: int)
    ensures AddNum(IntValue(2), IntValue(3)) == Ok(IntValue(5))
    ensures AddNum(StrValue("a"), StrValue("b")) == Ok(StrValue("ab"))
    ensures AddNum(StrValue("b"), StrValue("a")) != AddNum(StrValue("a"), StrValue("b"))
    ensures AddNum(IntValue(a), IntValue(b)) == AddNum(IntValue(b), IntValue(a))
  {
    assert "a" + "b" == "ab" && "b" + "a" == "ba";
    assert "ba" != "ab" by { assert "ba"[0] != "ab"[0]; }
    assert AddNum(IntValue(a), IntValue(b)) == Ok(IntValue(a + b));
    assert AddNum(IntValue(b), IntValue(a)) == Ok(IntValue(b + a));
  }

  // ---------------------------------------------------------------------------
  // functools.partial
  // ---------------------------------------------------------------------------

  /** `power(base, exponent)`: `base ** exponent` for a non-negative exponent. */
  function Power(base: int, exponent: nat): int
  {
    Pow(base, exponent)
  }

  /** `square = partial(power, exponent=2)`: the exponent is fixed, the base is
      left open, and the result is the square of the base. */
  function Square(): (square: int -> int)
    ensures forall b :: square(b) == Power(b, 2) == b * b
  {
    forall b ensures Pow(b, 2) == b * b {
      PowTwo(b);
    }
    b => Power(b, 2)
  }

  lemma SquareDemo()
    ensures Square()(5) == 25
  {
  }
}
