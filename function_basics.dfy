/** Function basics: identity, squaring, summing `*args`, a data-cleaning
    function that lowercases and deduplicates, and a nested helper function. */
module FunctionBasics {
  import opened Builtins

  /** `function_name(parameters)`: binds the argument to a local and returns it. */
  function FunctionName<T>(parameters: T): T
  {
    var value := parameters;
    value
  }

  /** `function_name` hands back what it is given: mapped over a list it
      leaves the list as it was, and it does so for a number as for a
      string. */
  lemma FunctionNameMap(s: seq<int>)
    ensures Map(FunctionName, s) == s
    ensures FunctionName(4) == 4 && FunctionName("Alice") == "Alice"
  {
    assert forall i :: 0 <= i < |s| ==> Map(FunctionName, s)[i] == s[i];
  }

  /** `square_number(num)`: `num ** 2`, the square, never negative. */
  function SquareNumber(num: int): (r: int)
    ensures r == num * num
    ensures r >= 0
  {
    PowTwo(num);
    Pow(num, 2)
  }

  lemma SquareNumberDemo()
    ensures SquareNumber(4) == 16
  {
  }

  /** `add_numbers(*args)`: `sum(args)`, 0 for no arguments, and the sum of
      two runs of arguments is the sum of their sums. */
  lemma AddNumbersSpec(a: seq<int>, b: seq<int>)
    ensures Sum([]) == 0
    ensures Sum(a + b) == Sum(a) + Sum(b)
    ensures Sum(Range(1, 6)) == 15
  {
    SumConcat(a, b);
    SumRange(5);
  }

  /** `clean_data(data)`: lowercases every item, then `list(set(data))`. The
      order in which the set hands back its members is not specified, so the
      elements are taken out of it in an arbitrary order. */
  method CleanData(data: seq<string>) returns (r: seq<string>)
    ensures NoDuplicates(r)
    ensures SetOf(r) == SetOf(Map(Lower, data))
  {
    var lowered := SetOf(Map(Lower, data));
    var remaining := lowered;
    r := [];
    while remaining != {}
      invariant NoDuplicates(r)
      invariant remaining <= lowered
      invariant forall y :: y in r <==> y in lowered && y !in remaining
      decreases |remaining|
    {
      var x :| x in remaining;
      r := r + [x];
      remaining := remaining - {x};
    }
    SetOfMembers(r);
  }

  /** Every distinct lowercased input appears exactly once. */
  lemma CleanDataLength(r: seq<string>, data: seq<string>)
    requires NoDuplicates(r) && SetOf(r) == SetOf(Map(Lower, data))
    ensures |r| == |SetOf(Map(Lower, data))| <= |data|
  {
    DistinctCardinality(r);
  }

  /** The four names of the demonstration, lowercased one by one. */
  lemma LowerDemoNames()
    ensures Lower("ALICE") == "alice" && Lower("bob") == "bob"
    ensures Lower("ChaRLie") == "charlie" && Lower("BOB") == "bob"
  {
    assert Lower("ALICE") == "alice";
    assert Lower("bob") == "bob";
    assert Lower("ChaRLie") == "charlie";
    assert Lower("BOB") == "bob";
  }

  /** The demonstration input lowercases to alice, bob, charlie and bob. */
  lemma CleanDataDemoInput(data: seq<string>)
    requires data == ["ALICE", "bob", "ChaRLie", "BOB"]
    ensures SetOf(Map(Lower, data)) == {"alice", "bob", "charlie"}
  {
    LowerDemoNames();
    var lowered := Map(Lower, data);
    assert lowered == ["alice", "bob", "charlie", "bob"];
    SetOfMembers(lowered);
  }

  /** ["ALICE", "bob", "ChaRLie", "BOB"] cleans to alice, bob and charlie in
      some order. */
  method CleanDataDemo() returns (r: seq<string>)
    ensures |r| == 3
    ensures SetOf(r) == {"alice", "bob", "charlie"}
  {
    var data := ["ALICE", "bob", "ChaRLie", "BOB"];
    CleanDataDemoInput(data);
    r := CleanData(data);
    CleanDataLength(r, data);
    assert |{"alice", "bob", "charlie"}| == 3;
  }

  /** `inner_function(y)`: `y ** 2`. */
  function InnerFunction(y: int): (r: int)
    ensures r == y * y
  {
    PowTwo(y);
    Pow(y, 2)
  }

  /** `outer_function(x)`: `inner_function(x) + 1`, that is x² + 1. */
  function OuterFunction(x: int): (r: int)
    ensures r == x * x + 1
    ensures r >= 1
  {
    InnerFunction(x) + 1
  }

  lemma OuterFunctionDemo()
    ensures OuterFunction(3) == 10
  {
  }
}
