/** Higher-order functions: passing a function as an argument, `map`,
    `filter`, `reduce` and `sorted(key=...)` on small data sets, a function
    factory (`multiplier`), and `apply_transformations`, which pushes a list
    through a list of functions one after the other. */
module HigherOrder {
  import opened Builtins
  import Recursion
  import Generators

  // ---------------------------------------------------------------------------
  // call_function
  // ---------------------------------------------------------------------------

  /** `greet(name)`: the f-string "Hello {name}!". */
  function Greet(name: string): (r: string)
    ensures |r| == |name| + 7
    ensures r[6..|r| - 1] == name
  {
    "Hello " + name + "!"
  }

  /** `call_function(func, argument)` hands its argument to `func` and returns
      whatever `func` returns. */
  function CallFunction<A, B>(func: A -> B, argument: A): B
  {
    func(argument)
  }

  /** `call_function` adds nothing of its own: mapping it, with `func` fixed,
      over a list is mapping `func` itself. */
  lemma CallFunctionMap<A, B>(func: A -> B, s: seq<A>)
    ensures Map(x => CallFunction(func, x), s) == Map(func, s)
  {
    var l, r := Map(x => CallFunction(func, x), s), Map(func, s);
    assert forall i :: 0 <= i < |s| ==> l[i] == r[i];
  }

  /** The script's call greets Alice. */
  lemma CallFunctionDemo()
    ensures CallFunction(Greet, "Alice") == "Hello Alice!"
  {
  }

  // ---------------------------------------------------------------------------
  // map, filter, reduce
  // ---------------------------------------------------------------------------

  /** `list(map(lambda x: x**2, numbers))` over [1, 2, 3, 4, 5]. */
  lemma SquaredDemo()
    ensures Map((x: int) => x * x, Range(1, 6)) == [1, 4, 9, 16, 25]
  {
    assert Range(1, 6) == [1, 2, 3, 4, 5];
  }

  /** `list(filter(lambda x: x % 2 == 0, numbers))` over [1, 2, 3, 4, 5]. */
  lemma FilterEvenDemo()
    ensures Filter(Generators.IsEven, Range(1, 6)) == [2, 4]
  {
    assert Range(1, 6) == [1, 2, 3, 4, 5];
  }

  /** The multiplication that `reduce(lambda x, y: x * y, numbers)` folds with. */
  function Times(x: int, y: int): int
  {
    x * y
  }

  /** Folding multiplication over k + 1, ..., n from k! gives n!. */
  lemma {:induction false} FoldTimesFactorial(k: nat, n: nat)
    requires k <= n
    ensures FoldLeft(Times, Recursion.Factorial(k), Range(k + 1, n + 1)) == Recursion.Factorial(n)
    decreases n - k
  {
    if k < n {
      assert Range(k + 1, n + 1) == [k + 1] + Range(k + 2, n + 1);
      assert Times(Recursion.Factorial(k), k + 1) == Recursion.Factorial(k + 1);
      FoldTimesFactorial(k + 1, n);
    }
  }

  /** `reduce` with multiplication over [1, ..., n] is n! for every n >= 1. */
  lemma ReduceTimesIsFactorial(n: nat)
    requires n >= 1
    ensures Reduce(Times, Range(1, n + 1)) == Ok(Recursion.Factorial(n))
  {
    assert Range(1, n + 1)[1..] == Range(2, n + 1);
    FoldTimesFactorial(1, n);
  }

  /** The script's product of [1, 2, 3, 4, 5] is 120. */
  lemma ProductDemo()
    ensures Reduce(Times, [1, 2, 3, 4, 5]) == Ok(120)
  {
    assert Range(1, 6) == [1, 2, 3, 4, 5];
    ReduceTimesIsFactorial(5);
    assert Recursion.Factorial(5) == 120;
  }

  /** `reduce(lambda x, y: x + y, sales)` over [100, 200, 300] is their sum, 600. */
  lemma SalesDemo()
    ensures Reduce((x: int, y: int) => x + y, [100, 200, 300]) == Ok(600)
  {
    ReduceAddIsSum([100, 200, 300]);
    assert [100, 200, 300][..2] == [100, 200];
    assert [100, 200][..1] == [100];
    assert [100][..0] == [];
  }

  // ---------------------------------------------------------------------------
  // sorted(data, key=lambda item: item['age'])
  // ---------------------------------------------------------------------------

  /** A record `{'name': ..., 'age': ...}`. */
  datatype Person = Person(name: string, age: int)

  function Age(p: Person): int
  {
    p.age
  }

  /** Alice (34) and Bob (27) come out youngest first. */
  lemma SortedByAgeDemo()
    ensures Sorted([Person("Alice", 34), Person("Bob", 27)], Age)
         == [Person("Bob", 27), Person("Alice", 34)]
  {
    var alice, bob := Person("Alice", 34), Person("Bob", 27);
    assert Sorted([bob], Age) == [bob];
    assert Insert(alice, [bob], Age) == [bob] + Insert(alice, [], Age);
  }

  // ---------------------------------------------------------------------------
  // multiplier
  // ---------------------------------------------------------------------------

  /** `multiplier(factor)` returns the closure `multiply`, which multiplies its
      argument by the captured factor. */
  function Multiplier(factor: int): int -> int
  {
    x => x * factor
  }

  /** Each closure keeps its own captured factor: applied to 1 it gives that
      factor back, and applying one closure after another multiplies by the
      product of their factors. */
  lemma MultiplierCompose(a: int, b: int, x: int)
    ensures Multiplier(a)(1) == a
    ensures Multiplier(a)(Multiplier(b)(x)) == Multiplier(a * b)(x)
  {
    assert x * b * a == x * (a * b);
  }

  /** `times_two = multiplier(2)`; `times_two(5)` is 10. */
  lemma TimesTwoDemo()
    ensures Multiplier(2)(5) == 10
  {
  }

  // ---------------------------------------------------------------------------
  // apply_transformations
  // ---------------------------------------------------------------------------

  /** One element pushed through the transformations in list order: the first
      transformation is applied first. */
  function ApplyAll(transformations: seq<int -> int>, x: int): int
  {
    if transformations == [] then x
    else
      var last := |transformations| - 1;
      transformations[last](ApplyAll(transformations[..last], x))
  }

  /** Applying `a` and then `b` is applying `a + b`. */
  lemma {:induction false} ApplyAllConcat(a: seq<int -> int>, b: seq<int -> int>, x: int)
    ensures ApplyAll(a + b, x) == ApplyAll(b, ApplyAll(a, x))
    decreases |b|
  {
    if b == [] {
      assert a + b == a;
    } else {
      var last := |b| - 1;
      assert (a + b)[..|a + b| - 1] == a + b[..last];
      ApplyAllConcat(a, b[..last], x);
    }
  }

  /** `apply_transformations(data, transformations)`: each pass rebinds `data`
      to `map(transformation, data)`; the result is the list of the last map. */
  method ApplyTransformations(data: seq<int>, transformations: seq<int -> int>) returns (r: seq<int>)
    ensures |r| == |data|
    ensures forall i :: 0 <= i < |data| ==> r[i] == ApplyAll(transformations, data[i])
  {
    r := data;
    for k := 0 to |transformations|
      invariant |r| == |data|
      invariant forall i :: 0 <= i < |data| ==> r[i] == ApplyAll(transformations[..k], data[i])
    {
      assert transformations[..k + 1][..k] == transformations[..k];
      r := Map(transformations[k], r);
    }
    assert transformations[..|transformations|] == transformations;
  }

  /** With no transformations the data comes back unchanged. */
  lemma ApplyNoTransformations(x: int)
    ensures ApplyAll([], x) == x
  {
  }

  /** The script's data [1, 2, 3, 4] with `x + 1` and then `x ** 2` gives
      [4, 9, 16, 25]. */
  method ApplyTransformationsDemo() returns (r: seq<int>)
    ensures r == [4, 9, 16, 25]
  {
    var inc := (x: int) => x + 1;
    var square := (x: int) => x * x;
    r := ApplyTransformations([1, 2, 3, 4], [inc, square]);
    forall x ensures ApplyAll([inc, square], x) == (x + 1) * (x + 1) {
      assert [inc][..0] == [];
      assert ApplyAll([inc], x) == x + 1;
      assert [inc, square][..1] == [inc];
      assert ApplyAll([inc, square], x) == square(ApplyAll([inc], x));
    }
  }

  // ---------------------------------------------------------------------------
  // cleaning filter and upper-case columns
  // ---------------------------------------------------------------------------

  /** `item is not None and item != ""`. */
  predicate IsPresent(item: Cell<string>)
  {
    item.Some? && item.value != ""
  }

  /** The filter keeps an entry exactly when it is neither None nor "", and
      keeps the kept entries in their original order. */
  lemma CleanFilterSpec(data: seq<Cell<string>>)
    ensures forall x :: x in Filter(IsPresent, data) <==> x in data && x != None && x != Some("")
    ensures forall a, b :: Filter(IsPresent, a + b) == Filter(IsPresent, a) + Filter(IsPresent, b)
  {
    FilterMembers(IsPresent, data);
    forall a, b ensures Filter(IsPresent, a + b) == Filter(IsPresent, a) + Filter(IsPresent, b) {
      FilterConcat(IsPresent, a, b);
    }
  }

  /** ["Alice", "Charles", "", None, "Bob"] cleans to ["Alice", "Charles", "Bob"]. */
  lemma CleanFilterDemo()
    ensures Filter(IsPresent, [Some("Alice"), Some("Charles"), Some(""), None, Some("Bob")])
         == [Some("Alice"), Some("Charles"), Some("Bob")]
  {
  }

  /** `list(map(lambda x: x.upper(), columns))`. */
  lemma UppercaseColumnsDemo()
    ensures Map(Upper, ["name", "age", "salary"]) == ["NAME", "AGE", "SALARY"]
  {
    assert Upper("name") == "NAME";
    assert Upper("age") == "AGE";
    assert Upper("salary") == "SALARY";
  }
}
