/** Decorators: wrappers that take a function and return a function which may
    do something before or after calling it. A call is its positional and
    keyword arguments; the wrapped function's result is a `Result`, so a
    wrapped function that raises is covered as well. */
module Decorators {
  import opened Builtins

  /** A Python argument value, as far as `isinstance(arg, (int, float))` and
      `arg < 0` can tell them apart. `bool` is a subclass of `int`. */
  datatype Arg = IntArg(i: int) | FloatArg(x: real) | BoolArg(b: bool) | OtherArg

  /** `*args, **kwargs`. */
  datatype Call = Call(args: seq<Arg>, kwargs: map<string, Arg>)

  // ---------------------------------------------------------------------------
  // decorator_name
  // ---------------------------------------------------------------------------

  /** `decorator_name(func)`: the wrapper forwards every call and returns the
      result, or lets the exception through. */
  function DecoratorName<T>(func: Call -> Result<T>): Call -> Result<T>
  {
    c => func(c)
  }

  /** `func` under `n` stacked `@decorator_name` lines. */
  function Stacked<T>(func: Call -> Result<T>, n: nat): Call -> Result<T>
  {
    if n == 0 then func else DecoratorName(Stacked(func, n - 1))
  }

  /** The wrapper is transparent: however many times `@decorator_name` is
      stacked on a function, every call returns what the bare function
      returns, or raises what it raises. */
  lemma {:induction false} StackedTransparent<T>(func: Call -> Result<T>, n: nat, c: Call)
    ensures Stacked(func, n)(c) == func(c)
  {
    if n > 0 {
      StackedTransparent(func, n - 1, c);
    }
  }

  /** `def function_to_decorate(): pass`: a call with no arguments returns
      None; the function takes no parameters, so any positional or keyword
      argument raises TypeError. */
  function FunctionToDecorate(c: Call): (r: Result<()>)
    ensures r.Ok? <==> c.args == [] && c.kwargs.Keys == {}
    ensures r.Raised? ==> r.error.TypeError?
  {
    if c.args == [] && c.kwargs == map[] then Ok(())
    else if c.args != [] then Raised(TypeError("function_to_decorate() takes 0 positional arguments"))
    else Raised(TypeError("function_to_decorate() got an unexpected keyword argument"))
  }

  /** The decorated `function_to_decorate()` returns None; given an argument,
      by position or by name, it raises TypeError through the wrapper, which
      forwards the call unchanged. */
  lemma FunctionToDecorateDemo()
    ensures DecoratorName(FunctionToDecorate)(Call([], map[])) == Ok(())
    ensures DecoratorName(FunctionToDecorate)(Call([IntArg(1)], map[])).Raised?
    ensures DecoratorName(FunctionToDecorate)(Call([IntArg(1)], map[])).error.TypeError?
    ensures DecoratorName(FunctionToDecorate)(Call([], map["k" := IntArg(0)])).Raised?
    ensures DecoratorName(FunctionToDecorate)(Call([], map["k" := IntArg(0)])).error.TypeError?
  {
    StackedTransparent(FunctionToDecorate, 1, Call([], map[]));
    StackedTransparent(FunctionToDecorate, 1, Call([IntArg(1)], map[]));
    assert "k" in map["k" := IntArg(0)];
    StackedTransparent(FunctionToDecorate, 1, Call([], map["k" := IntArg(0)]));
  }

  // ---------------------------------------------------------------------------
  // log_decorator
  // ---------------------------------------------------------------------------

  /** The two lines the logging wrapper prints, without their formatting. */
  datatype LogLine<T> = Calling(call: Call) | Returned(result: T)

  /** `log_decorator(func)`: logs the call, calls `func`, logs the result and
      returns it. When `func` raises, the second line is never printed and the
      exception propagates. */
  function LogDecorator<T>(func: Call -> Result<T>): (wrapper: Call -> (Result<T>, seq<LogLine<T>>))
    ensures forall c :: wrapper(c).0 == func(c)
    ensures forall c :: func(c).Ok? ==> wrapper(c).1 == [Calling(c), Returned(func(c).value)]
    ensures forall c :: func(c).Raised? ==> wrapper(c).1 == [Calling(c)]
  {
    c =>
      var result := func(c);
      if result.Ok? then (result, [Calling(c), Returned(result.value)])
      else (result, [Calling(c)])
  }

  /** Python's binding of a call to the two parameters `(x, y)` of `add` and
      `multiply`: the positional arguments fill x and then y, and keywords fill
      the rest by name. More than two positional arguments, a keyword other
      than x or y, a parameter given twice, or one left unfilled raises
      TypeError. */
  function BindXY(name: string, c: Call): (r: Result<(Arg, Arg)>)
    ensures r.Ok? <==>
      || (|c.args| == 2 && c.kwargs.Keys == {})
      || (|c.args| == 1 && c.kwargs.Keys == {"y"})
      || (|c.args| == 0 && c.kwargs.Keys == {"x", "y"})
    ensures r.Ok? ==> r.value.0 == if |c.args| >= 1 then c.args[0] else c.kwargs["x"]
    ensures r.Ok? ==> r.value.1 == if |c.args| == 2 then c.args[1] else c.kwargs["y"]
    ensures r.Raised? ==> r.error.TypeError?
  {
    if |c.args| > 2 then Raised(TypeError(name + "() takes 2 positional arguments"))
    else if !(c.kwargs.Keys <= {"x", "y"}) then Raised(TypeError(name + "() got an unexpected keyword argument"))
    else if |c.args| >= 1 && "x" in c.kwargs then Raised(TypeError(name + "() got multiple values for argument 'x'"))
    else if |c.args| == 2 && "y" in c.kwargs then Raised(TypeError(name + "() got multiple values for argument 'y'"))
    else if |c.args| == 0 && "x" !in c.kwargs then Raised(TypeError(name + "() missing required argument: 'x'"))
    else if |c.args| <= 1 && "y" !in c.kwargs then Raised(TypeError(name + "() missing required argument: 'y'"))
    else Ok((if |c.args| >= 1 then c.args[0] else c.kwargs["x"],
             if |c.args| == 2 then c.args[1] else c.kwargs["y"]))
  }

  /** `add(x, y)`: `x + y`, for two integer arguments, given by position or
      by name. */
  function Add(c: Call): (r: Result<int>)
    ensures var b := BindXY("add", c);
      r.Ok? <==> b.Ok? && b.value.0.IntArg? && b.value.1.IntArg?
    ensures r.Ok? ==> r.value == Sum([BindXY("add", c).value.0.i, BindXY("add", c).value.1.i])
    ensures r.Raised? ==> r.error.TypeError?
  {
    match BindXY("add", c)
    case Raised(e) => Raised(e)
    case Ok((IntArg(x), IntArg(y))) =>
      assert [x, y][..1] == [x] && [x][..0] == [];
      assert Sum([x]) == x;
      assert Sum([x, y]) == x + y;
      Ok(x + y)
    case Ok(_) => Raised(TypeError("unsupported operand type(s) for +"))
  }

  /** `add` may be called by position, by name or both: `add(a, b)`,
      `add(a, y=b)` and `add(x=a, y=b)` all return a + b, while `add(a, x=b)`
      gives x twice and `add(a, b, z=0)` names no parameter, so both raise. */
  lemma AddCallForms(a: int, b: int)
    ensures Add(Call([IntArg(a), IntArg(b)], map[])) == Ok(a + b)
    ensures Add(Call([IntArg(a)], map["y" := IntArg(b)])) == Ok(a + b)
    ensures Add(Call([], map["x" := IntArg(a), "y" := IntArg(b)])) == Ok(a + b)
    ensures Add(Call([IntArg(a)], map["x" := IntArg(b)])).Raised?
    ensures Add(Call([IntArg(a), IntArg(b)], map["z" := IntArg(0)])).Raised?
  {
    assert [a, b][..1] == [a] && [a][..0] == [];
    assert Sum([a]) == a;
    assert Sum([a, b]) == a + b;
    assert map["x" := IntArg(a), "y" := IntArg(b)].Keys == {"x", "y"};
    assert "z" in map["z" := IntArg(0)].Keys;
  }

  /** The logged `add(3, 5)` returns 8 and logs the call and the result. */
  lemma LogDecoratorDemo()
    ensures var c := Call([IntArg(3), IntArg(5)], map[]);
      LogDecorator(Add)(c) == (Ok(8), [Calling(c), Returned(8)])
  {
  }

  // ---------------------------------------------------------------------------
  // validate_positive
  // ---------------------------------------------------------------------------

  /** `isinstance(arg, (int, float)) and arg < 0`. A bool is an int, but never
      below 0; any other argument is skipped by the generator's `if`. */
  predicate IsNegativeNumber(a: Arg)
  {
    match a
    case IntArg(i) => i < 0
    case FloatArg(x) => x < 0.0
    case BoolArg(_) => false
    case OtherArg => false
  }

  /** `any(arg < 0 for arg in args if isinstance(arg, (int, float)))`,
      scanning the positional arguments from the left. */
  function AnyNegative(args: seq<Arg>): bool
  {
    if args == [] then false
    else if IsNegativeNumber(args[0]) then true
    else AnyNegative(args[1..])
  }

  /** The scan finds a negative number exactly when there is one. */
  lemma {:induction false} AnyNegativeSpec(args: seq<Arg>)
    ensures AnyNegative(args) <==> exists i :: 0 <= i < |args| && IsNegativeNumber(args[i])
  {
    if args != [] {
      AnyNegativeSpec(args[1..]);
      if exists i :: 0 <= i < |args[1..]| && IsNegativeNumber(args[1..][i]) {
        var i :| 0 <= i < |args[1..]| && IsNegativeNumber(args[1..][i]);
        assert IsNegativeNumber(args[i + 1]);
      }
      if exists i :: 0 <= i < |args| && IsNegativeNumber(args[i]) {
        var i :| 0 <= i < |args| && IsNegativeNumber(args[i]);
        if i > 0 {
          assert args[1..][i - 1] == args[i];
        }
      }
    }
  }

  const NegativeInput := ValueError("All inputs must be positive")

  /** `validate_positive(func)`: a call with a negative positional number
      raises ValueError without calling `func`; any other call is passed to
      `func` and its result returned unchanged. Keyword arguments are not
      looked at. */
  function ValidatePositive<T>(func: Call -> Result<T>): (wrapper: Call -> Result<T>)
    ensures forall c: Call :: AnyNegative(c.args) ==> wrapper(c) == Raised(NegativeInput)
    ensures forall c: Call :: !AnyNegative(c.args) ==> wrapper(c) == func(c)
  {
    (c: Call) => if AnyNegative(c.args) then Raised(NegativeInput) else func(c)
  }

  /** The validation is decided by the positional arguments alone: it raises
      exactly when one of them is a negative int or float, so 0, booleans,
      non-numbers and every keyword argument are let through. */
  lemma ValidatePositiveSpec<T>(func: Call -> Result<T>, c: Call)
    ensures (exists i :: 0 <= i < |c.args| && IsNegativeNumber(c.args[i]))
            ==> ValidatePositive(func)(c) == Raised(NegativeInput)
    ensures (forall i :: 0 <= i < |c.args| ==> !IsNegativeNumber(c.args[i]))
            ==> ValidatePositive(func)(c) == func(c)
  {
    AnyNegativeSpec(c.args);
  }

  /** Zero passes the check: `0 < 0` is false. */
  lemma ZeroIsAccepted<T>(func: Call -> Result<T>, n: nat, kwargs: map<string, Arg>)
    ensures var c := Call(seq(n, _ => IntArg(0)), kwargs);
      ValidatePositive(func)(c) == func(c)
  {
    var c := Call(seq(n, _ => IntArg(0)), kwargs);
    ValidatePositiveSpec(func, c);
  }

  /** `multiply(x, y)`: `x * y`, for two integer arguments, given by position
      or by name. */
  function Multiply(c: Call): (r: Result<int>)
    ensures var b := BindXY("multiply", c);
      r.Ok? <==> b.Ok? && b.value.0.IntArg? && b.value.1.IntArg?
    ensures var b := BindXY("multiply", c);
      r.Ok? ==> (b.value.0.i >= 0 && b.value.1.i >= 0 ==> r.value >= 0)
    ensures r.Raised? ==> r.error.TypeError?
  {
    match BindXY("multiply", c)
    case Raised(e) => Raised(e)
    case Ok((IntArg(x), IntArg(y))) => Ok(x * y)
    case Ok(_) => Raised(TypeError("unsupported operand type(s) for *"))
  }

  /** `multiply(a, b)` called by position. */
  function MultiplyAt(a: int, b: int): Result<int>
  {
    Multiply(Call([IntArg(a), IntArg(b)], map[]))
  }

  /** The laws that pin `multiply` down as the product: it commutes, 1 is
      its identity, it distributes over addition in its second argument, and
      naming y gives the same result as passing it by position. */
  lemma MultiplyLaws(a: int, b: int, d: int)
    ensures MultiplyAt(a, b).Ok?
    ensures MultiplyAt(a, b) == MultiplyAt(b, a)
    ensures MultiplyAt(a, 1) == Ok(a)
    ensures MultiplyAt(a, b + d).value == MultiplyAt(a, b).value + MultiplyAt(a, d).value
    ensures Multiply(Call([IntArg(a)], map["y" := IntArg(b)])) == MultiplyAt(a, b)
  {
    assert a * (b + d) == a * b + a * d;
  }

  /** `multiply(5, 10)` passes and returns 50; `multiply(-5, 10)` raises. */
  lemma ValidatePositiveDemo()
    ensures ValidatePositive(Multiply)(Call([IntArg(5), IntArg(10)], map[])) == Ok(50)
    ensures ValidatePositive(Multiply)(Call([IntArg(-5), IntArg(10)], map[])) == Raised(NegativeInput)
  {
  }

  /** The check reads the positional arguments only: `multiply(5, y=-10)` is
      let through and returns -50, while `multiply(5, -10)` raises. */
  lemma KeywordBypassDemo()
    ensures ValidatePositive(Multiply)(Call([IntArg(5)], map["y" := IntArg(-10)])) == Ok(-50)
    ensures ValidatePositive(Multiply)(Call([IntArg(5), IntArg(-10)], map[])) == Raised(NegativeInput)
  {
    assert !AnyNegative([IntArg(5)]);
  }

  // ---------------------------------------------------------------------------
  // validate_shapes
  // ---------------------------------------------------------------------------

  const ShapeMismatch := ValueError("Data shapes does not match expected shape")

  /** `validate_shapes(func)`: the wrapper compares `len(data)` with
      `expected_shape[0]`. An empty shape tuple makes that index raise
      IndexError; a mismatch raises ValueError; otherwise `func`'s result is
      returned unchanged. */
  function ValidateShapes<D(!new), T>(func: (seq<D>, seq<int>) -> Result<T>): (wrapper: (seq<D>, seq<int>) -> Result<T>)
    ensures forall data, shape :: shape == [] ==> wrapper(data, shape).Raised? && wrapper(data, shape).error.IndexError?
    ensures forall data, shape :: shape != [] && |data| != shape[0] ==> wrapper(data, shape) == Raised(ShapeMismatch)
    ensures forall data, shape :: shape != [] && |data| == shape[0] ==> wrapper(data, shape) == func(data, shape)
  {
    (data, shape) =>
      if shape == [] then Raised(IndexError("tuple index out of range"))
      else if |data| != shape[0] then Raised(ShapeMismatch)
      else func(data, shape)
  }

  /** `process_data(data, expected_shape)`: prints the shape and returns True. */
  function ProcessData(data: seq<int>, expectedShape: seq<int>): Result<bool>
  {
    Ok(true)
  }

  /** [1, 2, 3] with shape (3,) is processed; [1, 2] with shape (3,) raises. */
  lemma ValidateShapesDemo()
    ensures ValidateShapes(ProcessData)([1, 2, 3], [3]) == Ok(true)
    ensures ValidateShapes(ProcessData)([1, 2], [3]) == Raised(ShapeMismatch)
  {
  }

  // ---------------------------------------------------------------------------
  // clean_data
  // ---------------------------------------------------------------------------

  /** `[item.strip() for item in data]`. */
  function CleanData(data: seq<string>): (r: seq<string>)
    ensures |r| == |data|
    ensures forall k :: 0 <= k < |r| ==> |r[k]| <= |data[k]|
  {
    Map(Strip, data)
  }

  /** One cleaned item per input item, in order; each is its input with only
      the surrounding whitespace cut away. */
  lemma CleanDataSpec(data: seq<string>)
    ensures |CleanData(data)| == |data|
    ensures forall k :: 0 <= k < |data| ==>
      var r := CleanData(data)[k];
      && (r != [] ==> !IsSpace(r[0]) && !IsSpace(r[|r| - 1]))
      && exists i, j :: 0 <= i <= j <= |data[k]| && r == data[k][i..j]
           && (forall m :: 0 <= m < i ==> IsSpace(data[k][m]))
           && (forall m :: j <= m < |data[k]| ==> IsSpace(data[k][m]))
  {
    forall k | 0 <= k < |data| {
      StripSpec(data[k]);
    }
  }

  /** Each padded name of the script strips to the bare name. */
  lemma StripAlice()
    ensures Strip("Alice ") == "Alice"
  {
    assert !IsSpace('A') && !IsSpace('e');
    StripPadded("", "Alice", " ");
    assert "" + "Alice" + " " == "Alice ";
  }

  lemma StripBob()
    ensures Strip(" Bob") == "Bob"
  {
    assert !IsSpace('B') && !IsSpace('b');
    StripPadded(" ", "Bob", "");
    assert " " + "Bob" + "" == " Bob";
  }

  lemma StripCharlie()
    ensures Strip(" Charlie ") == "Charlie"
  {
    assert !IsSpace('C') && !IsSpace('e');
    StripPadded(" ", "Charlie", " ");
    assert " " + "Charlie" + " " == " Charlie ";
  }

  /** ["Alice ", " Bob", " Charlie "] cleans to ["Alice", "Bob", "Charlie"]. */
  lemma CleanDataDemo()
    ensures CleanData(["Alice ", " Bob", " Charlie "]) == ["Alice", "Bob", "Charlie"]
  {
    StripAlice();
    StripBob();
    StripCharlie();
    var r := CleanData(["Alice ", " Bob", " Charlie "]);
    assert |r| == 3 && r[0] == "Alice" && r[1] == "Bob" && r[2] == "Charlie";
  }
}
