# Python core concepts, modelled in Dafny

This project models the teaching scripts of the `python-core-concepts` part of
the Data-Science-Essentials repository. The scripts cover:

- recursion (factorial, Fibonacci, summing a list, pre-order extraction of the
  keys of a nested dictionary, a memoised Fibonacci whose cache persists
  across calls);
- object-oriented basics (a bank account that guards its balance, a
  hyperparameter setter that only takes learning rates in (0, 1], a cleaner
  that fills missing values, preprocessors that drop missing values and
  lowercase text, an extract–transform–load template);
- generators (a three-value generator, squares, an unbounded Fibonacci stream,
  doubling, running totals, an even filter);
- higher-order functions (`map`, `filter`, `reduce`, `sorted` with a key,
  closures, `partial`, ordered composition of transformations);
- decorators (pass-through, logging, positive-input validation, shape
  validation, stripping of whitespace);
- polymorphic models and pipelines, and a `process` method that dispatches on
  how many arguments it gets;
- the container operations on sets, lists, tuples and dictionaries.

Every Python module is one Dafny module; Python builtins shared by several
scripts (`sum`, `map`, `filter`, `functools.reduce`, `sorted(key=...)`,
`list.index`, `list.remove`, `set(list)`, `str.lower`, `str.upper`,
`str.strip`, and the exceptions) live in `Builtins`. Raising an exception is a
`Result` value `Raised(error)`; `None` in a list is the `Cell` value `None`.

Where a script changes state in place, the model does too:

- `BankAccount`, `MLModel`, `DataCleaner`, the preprocessors, the memo cache,
  each generator, the shopping list and the transaction dictionary are
  classes;
- each of their methods states the new state through a specification
  function of the old state;
- the properties the scripts promise are lemmas about those functions.

Scripts that only compute values are functions and lemmas. Generators are
classes whose `Next` method returns the next value or raises `StopIteration`,
plus a method that drains a generator into a list.

Three behaviours of the code are modelled as written:

- `factorial` reaches its base case only from a non-negative argument, so the
  model requires `n >= 0`.
- `factorial_iterative` returns 1 for a negative argument, because
  `range(1, n + 1)` is empty then.
- In the inheritance script, `ETLBase.extract` *returns* a
  `NotImplementedError` object instead of raising it. Its `transform` then
  iterates that object, which raises `TypeError`.

The dictionaries script says dictionaries are unordered. Python dictionaries
in fact keep the order in which keys were first inserted, and iteration and
`|` follow that order, so the model keeps the key order.

## Model

| member | source | states |
|---|---|---|
| `Builtins.Range` | python-core-concepts/02-functions/06_advanced_generators.py:42 | `range(lo, hi)` has hi − lo elements (none when hi ≤ lo), the i-th being lo + i |
| `Builtins.Pow` | python-core-concepts/02-python-functions/intermediate.py:166-167 | `base ** exponent` for a non-negative exponent; a non-negative base gives a non-negative power and a base of at least 1 a power of at least 1 |
| `Builtins.PowTwo` | python-core-concepts/02-functions/01_basics.py:12-13 | `x ** 2` is x · x |
| `Builtins.PowAdd` | python-core-concepts/02-python-functions/intermediate.py:166-167 | b^(m+n) = b^m · b^n for the power `**` |
| `Builtins.Sum` | python-core-concepts/02-functions/01_basics.py:83-84 | defines `sum(xs)`, adding left to right from 0; no contract of its own, its laws are SumConcat, SumCons, SumPermutation and SumRange |
| `Builtins.SumConcat` | python-core-concepts/02-functions/01_basics.py:83-84 | the sum of two runs of values is the sum of their sums |
| `Builtins.SumCons` | python-core-concepts/02-functions/04_advanced_recursion.py:43-46 | `sum([x] + xs)` is x plus `sum(xs)`, the step the recursive sum takes |
| `Builtins.SumPermutation` | python-core-concepts/02-python-functions/intermediate.py:44-45 | `sum` does not depend on the order of its arguments: equal multisets have equal sums |
| `Builtins.SumRange` | python-core-concepts/02-functions/01_basics.py:85 | 2 · (1 + … + n) = n(n + 1), which gives 15 for the five arguments 1..5 |
| `Builtins.Map` | python-core-concepts/02-functions/05_advanced_higher_order.py:22-26 | `map(f, s)` has one element per input, the i-th being f(s[i]) |
| `Builtins.MapConcat` | python-core-concepts/02-functions/05_advanced_higher_order.py:22-25 | mapping a concatenation is concatenating the mapped parts, so order is kept |
| `Builtins.Filter` | python-core-concepts/02-functions/05_advanced_higher_order.py:28-32 | `filter(p, s)` is no longer than s and every kept element satisfies p |
| `Builtins.FilterMembers` | python-core-concepts/02-functions/05_advanced_higher_order.py:30-31 | x is kept by the filter iff x is in s and satisfies p |
| `Builtins.FilterConcat` | python-core-concepts/02-python-functions/intermediate.py:86-88 | filtering a concatenation filters each part, so the kept elements keep their order |
| `Builtins.FilterCount` | python-core-concepts/02-functions/05_advanced_higher_order.py:31 | a value that passes the test is kept as many times as it occurs; one that fails is dropped every time |
| `Builtins.Reduce` | python-core-concepts/02-functions/05_advanced_higher_order.py:34-41 | `reduce(f, s)` without an initializer raises TypeError exactly on an empty s, and returns the element of a one-element s |
| `Builtins.FoldLeft` | python-core-concepts/02-functions/05_advanced_higher_order.py:34-40 | defines the left fold `reduce` performs from its start value; no contract of its own, its laws are FoldAddIsSum and HigherOrder.FoldTimesFactorial |
| `Builtins.FoldAddIsSum` | python-core-concepts/02-functions/05_advanced_higher_order.py:78-80 | folding `+` from an accumulator adds the sum of the list to it |
| `Builtins.ReduceAddIsSum` | python-core-concepts/02-functions/05_advanced_higher_order.py:79-81 | `reduce(lambda x, y: x + y, s)` is `sum(s)` on a non-empty list |
| `Builtins.Insert` | python-core-concepts/02-functions/05_advanced_higher_order.py:47 | one insertion step of the stable sort adds exactly one element |
| `Builtins.Sorted` | python-core-concepts/02-python-functions/intermediate.py:82 | `sorted(s, key=k)` has as many elements as s; SortedSpec gives order, permutation and stability |
| `Builtins.InsertPermutes` | python-core-concepts/02-functions/05_advanced_higher_order.py:47 | inserting into the sorted part adds exactly that one element |
| `Builtins.InsertSorted` | python-core-concepts/02-functions/05_advanced_higher_order.py:46-47 | inserting into a list sorted by key keeps it sorted by key |
| `Builtins.InsertStable` | python-core-concepts/02-python-functions/intermediate.py:82 | insertion keeps the relative order of the elements that share a key |
| `Builtins.SortedSpec` | python-core-concepts/02-python-functions/intermediate.py:80-83 | `sorted(s, key=k)` is ordered by key, is a permutation of s, and is stable: the elements with any one key keep their input order |
| `Builtins.FirstIndex` | python-core-concepts/01-lists-tuples-sets-dicts/lists_and_tuples.py:13 | `s.index(x)` is a position holding x with no x before it |
| `Builtins.RemoveFirst` | python-core-concepts/01-lists-tuples-sets-dicts/lists_and_tuples.py:13 | the list `remove(x)` leaves is one element shorter; RemoveFirstSpec gives which element goes |
| `Builtins.RemoveFirstSpec` | python-core-concepts/lists_and_tuples.py:13-14 | `remove(x)` shortens the list by one and takes out exactly one x; every element before the first x keeps its place, and every element after it moves one place forward |
| `Builtins.RemoveAppended` | python-core-concepts/01-lists-tuples-sets-dicts/lists_and_tuples.py:9-14 | removing a value just appended, which occurred nowhere before, gives back the list as it was |
| `Builtins.SetOf` | python-core-concepts/01-data-structures/02_sets.py:62-64 | `set(xs)` has at most as many members as xs has elements |
| `Builtins.SetOfMembers` | python-core-concepts/sets.py:35-38 | `set(xs)` holds exactly the elements of xs |
| `Builtins.DistinctCardinality` | python-core-concepts/01-data-structures/02_sets.py:55-57 | a list without duplicates has as many elements as its set has members |
| `Builtins.LowerChar` | python-core-concepts/02-functions/01_basics.py:105 | a lowercased character is never upper case; an upper-case letter moves to its lower-case partner, anything else is kept |
| `Builtins.UpperChar` | python-core-concepts/02-functions/05_advanced_higher_order.py:85 | an uppercased character is never lower case; a lower-case letter moves to its upper-case partner, anything else is kept |
| `Builtins.Lower` | python-core-concepts/03-oop-concepts/01_basics.py:243 | `s.lower()` keeps the length, leaves no upper-case letter, lowers each upper-case letter and keeps every other character |
| `Builtins.Upper` | python-core-concepts/02-functions/05_advanced_higher_order.py:84-86 | `s.upper()` keeps the length, leaves no lower-case letter, raises each lower-case letter and keeps every other character |
| `Builtins.CaseIdempotent` | python-core-concepts/02-functions/01_basics.py:104-105 | lowercasing twice is lowercasing once, and uppercasing after lowercasing is plain uppercasing |
| `Builtins.LeadingSpaces` | python-core-concepts/02-functions/03_advanced_decorators.py:99 | counts exactly the whitespace that opens a string |
| `Builtins.TrailingSpacesStart` | python-core-concepts/02-functions/03_advanced_decorators.py:99 | finds exactly where the whitespace that closes a string begins |
| `Builtins.Strip` | python-core-concepts/02-functions/03_advanced_decorators.py:99 | `s.strip()` is never longer than s; StripSpec and StripPadded say exactly what it cuts |
| `Builtins.StripPadded` | python-core-concepts/02-functions/03_advanced_decorators.py:101-102 | whitespace put around a string that neither starts nor ends with whitespace is exactly what `strip` removes |
| `Builtins.StripSpec` | python-core-concepts/02-functions/03_advanced_decorators.py:98-99 | `strip` returns a contiguous piece of its input, cuts only whitespace at either end and leaves none at either end |
| `Builtins.StripIdempotent` | python-core-concepts/02-functions/03_advanced_decorators.py:99 | stripping twice is stripping once |
| `Recursion.Factorial` | python-core-concepts/02-functions/04_advanced_recursion.py:14-18 | for n ≥ 0 (the only arguments that reach the base case), n! ≥ 1 and n! ≥ n |
| `Recursion.FactorialIterative` | python-core-concepts/02-functions/04_advanced_recursion.py:110-115 | the loop's product equals the recursive factorial for every n ≥ 0, and is 1 for a negative n |
| `Recursion.Fibonacci` | python-core-concepts/02-functions/04_advanced_recursion.py:34-38 | defines `fibonacci(n)`, n itself for n ≤ 1 and the sum of the two before otherwise; no contract of its own, its laws are FibonacciMonotone and FibonacciTen |
| `Recursion.FibonacciMonotone` | python-core-concepts/02-functions/04_advanced_recursion.py:34-38 | from 0 on the Fibonacci numbers are non-negative and never decrease |
| `Recursion.FibonacciTen` | python-core-concepts/02-functions/04_advanced_recursion.py:39 | `fibonacci(10)` is 55 |
| `Recursion.SumOfAList` | python-core-concepts/02-functions/04_advanced_recursion.py:42-47 | the head-first recursion equals Python's left-to-right `sum` on every list (0 for the empty list) |
| `Recursion.PreOrderKeysConcat` | python-core-concepts/02-functions/04_advanced_recursion.py:53-56 | the keys of consecutive entries come out one run after another |
| `Recursion.ExtractKeys` | python-core-concepts/02-functions/04_advanced_recursion.py:51-57 | the `append`/`extend` loop returns the pre-order key list of the dictionary |
| `Recursion.PreOrderKeysComplete` | python-core-concepts/02-functions/04_advanced_recursion.py:51-57 | a key is in the result iff it occurs at some depth of the dictionary |
| `Recursion.PreOrderKeysLength` | python-core-concepts/02-functions/04_advanced_recursion.py:52-56 | the result has one element per key at every depth |
| `Recursion.PreOrderKeysAt` | python-core-concepts/02-functions/04_advanced_recursion.py:53-56 | each entry's key follows the keys of the entries before it and is followed at once by the keys nested under it |
| `Recursion.NestedDataKeys` | python-core-concepts/02-functions/04_advanced_recursion.py:58-63 | the demonstration dictionary gives a, b, c, d, e, f, g |
| `Recursion.FibonacciMemo.constructor` | python-core-concepts/02-functions/04_advanced_recursion.py:121 | the default `memo` starts empty |
| `Recursion.FibonacciMemo.Call` | python-core-concepts/02-functions/04_advanced_recursion.py:121-127 | returns `fibonacci(n)`; every cached entry k holds `fibonacci(k)` before and after; a hit leaves the cache alone; the cache only grows, by exactly the keys 2..n |
| `Recursion.MemoDemo` | python-core-concepts/02-functions/04_advanced_recursion.py:121-128 | the first `fibonacci_memo(10)` gives 55 and leaves exactly F(2..10) cached; the second gives 55 again and leaves the cache exactly as the first call left it |
| `OopBasics.Deposited` | python-core-concepts/03-oop-concepts/01_basics.py:69-74 | a positive deposit raises the balance by the amount; any other amount leaves it |
| `OopBasics.Withdrawn` | python-core-concepts/03-oop-concepts/01_basics.py:76-81 | a withdrawal in (0, balance] lowers the balance by the amount; any other leaves it; the balance never rises and never turns negative |
| `OopBasics.DepositThenWithdraw` | python-core-concepts/03-oop-concepts/01_basics.py:69-81 | withdrawing what was just deposited restores the balance |
| `OopBasics.BalanceNeverNegative` | python-core-concepts/03-oop-concepts/01_basics.py:65-84 | no sequence of deposits and withdrawals takes a non-negative balance below zero |
| `OopBasics.BankAccount.constructor` | python-core-concepts/03-oop-concepts/01_basics.py:66-67 | the account starts with the given balance |
| `OopBasics.BankAccount.Deposit` | python-core-concepts/03-oop-concepts/01_basics.py:69-74 | the balance becomes the guarded deposit of the old balance |
| `OopBasics.BankAccount.Withdraw` | python-core-concepts/03-oop-concepts/01_basics.py:76-81 | the balance becomes the guarded withdrawal from the old balance |
| `OopBasics.BankAccount.GetBalance` | python-core-concepts/03-oop-concepts/01_basics.py:83-84 | returns the balance and changes nothing |
| `OopBasics.AccountDemo` | python-core-concepts/03-oop-concepts/01_basics.py:86-90 | 1000, deposit 20, withdraw 100 reads 1020 then 920 |
| `OopBasics.MLModel.Default` | python-core-concepts/03-oop-concepts/01_basics.py:100-102 | the defaults are learning rate 0.01 and 1000 epochs |
| `OopBasics.MLModel.constructor` | python-core-concepts/03-oop-concepts/01_basics.py:100-102 | the given hyperparameters are stored |
| `OopBasics.MLModel.GetHyperparameters` | python-core-concepts/03-oop-concepts/01_basics.py:103-104 | returns both hyperparameters and changes nothing |
| `OopBasics.MLModel.SetHyperparameters` | python-core-concepts/03-oop-concepts/01_basics.py:106-111 | a rate in (0, 1] is stored, any other is ignored, epochs never change, and a valid rate stays valid |
| `OopBasics.MLModelDemo` | python-core-concepts/03-oop-concepts/01_basics.py:113-118 | setting 0.05 takes, setting 0 is ignored |
| `OopBasics.FillMissing` | python-core-concepts/03-oop-concepts/01_basics.py:129-130 | one output per input: present values kept, each `None` replaced by the fill value |
| `OopBasics.FillMissingComplete` | python-core-concepts/03-oop-concepts/01_basics.py:130 | after filling nothing is missing, so a second fill changes nothing |
| `OopBasics.DataCleaner.constructor` | python-core-concepts/03-oop-concepts/01_basics.py:126-127 | the cleaner holds the given list |
| `OopBasics.DataCleaner.MissingValues` | python-core-concepts/03-oop-concepts/01_basics.py:129-130 | the held list becomes its filled version |
| `OopBasics.DataCleaner.GetCleanedData` | python-core-concepts/03-oop-concepts/01_basics.py:132-133 | returns the held list and changes nothing |
| `OopBasics.CleanerDemo` | python-core-concepts/03-oop-concepts/01_basics.py:135-138 | [1, 0, None, 3, None, 5] filled with -1 is [1, 0, -1, 3, -1, 5] |
| `OopBasics.DropMissing` | python-core-concepts/03-oop-concepts/01_basics.py:237-238 | the result holds exactly the present values of the input, and no `None` |
| `OopBasics.DropMissingConcat` | python-core-concepts/03-oop-concepts/01_basics.py:238 | dropping missing values from a concatenation drops them from each part, keeping order |
| `OopBasics.DropMissingNoop` | python-core-concepts/03-oop-concepts/01_basics.py:238 | a list with nothing missing is left as it is |
| `OopBasics.LowerAll` | python-core-concepts/03-oop-concepts/01_basics.py:243 | one output per input, each the lowercased string |
| `OopBasics.PreProcessor.constructor` | python-core-concepts/03-oop-concepts/01_basics.py:234-235 | the preprocessor holds the given list |
| `OopBasics.PreProcessor.Clean` | python-core-concepts/03-oop-concepts/01_basics.py:237-238 | the held list loses its `None` entries |
| `OopBasics.TextPreProcessor.constructor` | python-core-concepts/03-oop-concepts/01_basics.py:240 | the text preprocessor holds the given list |
| `OopBasics.TextPreProcessor.Clean` | python-core-concepts/03-oop-concepts/01_basics.py:241-243 | the parent's clean, then lowercasing: the held list becomes the lowercased present strings, none missing |
| `OopBasics.TextCleanConcat` | python-core-concepts/03-oop-concepts/01_basics.py:241-243 | the text clean works element by element, so cleaning a concatenation cleans each part |
| `OopBasics.TextPreProcessorDemo` | python-core-concepts/03-oop-concepts/01_basics.py:245-248 | ["Alice", "BOB", "CHarLIe", None] cleans to alice, bob, charlie |
| `OopBasics.Etl.Extract` | python-core-concepts/03-oop-concepts/01_basics.py:284-307 | the base class returns (does not raise) a NotImplementedError object, and only the base class does; each subclass returns a four-element list |
| `OopBasics.Etl.Transform` | python-core-concepts/03-oop-concepts/01_basics.py:287-288 | a list is doubled element by element; the exception object the base `extract` returns makes it raise TypeError |
| `OopBasics.Etl.EtlProcess` | python-core-concepts/03-oop-concepts/01_basics.py:293-297 | `transform(extract())` reaches `load` for the two subclasses and fails for the base class |
| `OopBasics.EtlDemo` | python-core-concepts/03-oop-concepts/01_basics.py:299-313 | the CSV pipeline loads [2, 4, 6, 10], the API pipeline [8, 10, 12, 14] |
| `Generators.SimpleGenerator.constructor` | python-core-concepts/02-functions/06_advanced_generators.py:27 | a fresh generator has yielded nothing |
| `Generators.SimpleGenerator.Next` | python-core-concepts/02-functions/06_advanced_generators.py:22-31 | yields 1, 2, 3 in turn, then raises StopIteration |
| `Generators.SimpleGeneratorDemo` | python-core-concepts/02-functions/06_advanced_generators.py:27-31 | four `next` calls give 1, 2, 3 and StopIteration |
| `Generators.SquaresGenerator.constructor` | python-core-concepts/02-functions/06_advanced_generators.py:42 | the generator expression starts at 0 |
| `Generators.SquaresGenerator.Next` | python-core-concepts/02-functions/06_advanced_generators.py:42 | yields x² for the next x of the range, then raises StopIteration |
| `Generators.SquaresDemo` | python-core-concepts/02-functions/06_advanced_generators.py:42-47 | five `next` calls give 0, 1, 4, 9, 16 |
| `Generators.FibonacciGenerator.constructor` | python-core-concepts/02-functions/06_advanced_generators.py:65-66 | the pair starts at 0, 1 |
| `Generators.FibonacciGenerator.Next` | python-core-concepts/02-functions/06_advanced_generators.py:65-69 | the k-th value yielded is `fibonacci(k)` |
| `Generators.FibonacciPrefix` | python-core-concepts/02-functions/06_advanced_generators.py:71-73 | the first n values of the stream are `fibonacci(0..n-1)` |
| `Generators.FibonacciFirstFive` | python-core-concepts/02-functions/06_advanced_generators.py:72-73 | the five printed values are 0, 1, 1, 2, 3 |
| `Generators.StreamData.constructor` | python-core-concepts/02-functions/06_advanced_generators.py:82 | the stream starts at the first item |
| `Generators.StreamData.Next` | python-core-concepts/02-functions/06_advanced_generators.py:78-80 | yields twice the next item, then raises StopIteration |
| `Generators.StreamDataList` | python-core-concepts/02-functions/06_advanced_generators.py:82-84 | the stream gives one doubled value per item, in order |
| `Generators.RunningTotals` | python-core-concepts/02-functions/06_advanced_generators.py:106-110 | the i-th running total is the sum of the first i + 1 items |
| `Generators.RunningTotalsStep` | python-core-concepts/02-functions/06_advanced_generators.py:109 | each running total is the previous one plus the next item |
| `Generators.CumulativeSum.constructor` | python-core-concepts/02-functions/06_advanced_generators.py:107 | the total starts at 0 |
| `Generators.CumulativeSum.Next` | python-core-concepts/02-functions/06_advanced_generators.py:108-110 | yields the sum of the items consumed so far, then raises StopIteration |
| `Generators.CumulativeSumList` | python-core-concepts/02-functions/06_advanced_generators.py:111-112 | `list(cumulative_sum(data))` is the running totals of data |
| `Generators.CumulativeSumDemo` | python-core-concepts/02-functions/06_advanced_generators.py:111-112 | [1, 2, 3, 4, 5] gives [1, 3, 6, 10, 15] |
| `Generators.FilterEvenNumbers.constructor` | python-core-concepts/02-functions/06_advanced_generators.py:121 | the filter starts at the first value |
| `Generators.FilterEvenNumbers.Next` | python-core-concepts/02-functions/06_advanced_generators.py:117-120 | yields the next even value of the rest, skipping odd ones, or raises StopIteration once none is left |
| `Generators.FilterEvenList` | python-core-concepts/02-functions/06_advanced_generators.py:117-122 | the generator yields exactly the even values, in order |
| `Generators.FilterEvenDemo` | python-core-concepts/02-functions/06_advanced_generators.py:121-122 | `range(10)` gives [0, 2, 4, 6, 8] |
| `HigherOrder.Greet` | python-core-concepts/02-functions/05_advanced_higher_order.py:14-15 | the greeting is seven characters longer than the name and holds the name between "Hello " and "!" |
| `HigherOrder.CallFunction` | python-core-concepts/02-functions/05_advanced_higher_order.py:16-17 | defines `call_function`; no contract of its own, CallFunctionMap states what it does |
| `HigherOrder.CallFunctionMap` | python-core-concepts/02-functions/05_advanced_higher_order.py:16-17 | `call_function` with a fixed function, mapped over any list, is mapping that function itself: it adds nothing of its own |
| `HigherOrder.CallFunctionDemo` | python-core-concepts/02-functions/05_advanced_higher_order.py:14-18 | `call_function(greet, "Alice")` is "Hello Alice!" |
| `HigherOrder.SquaredDemo` | python-core-concepts/02-functions/05_advanced_higher_order.py:24-26 | squaring 1..5 gives [1, 4, 9, 16, 25] |
| `HigherOrder.FilterEvenDemo` | python-core-concepts/02-functions/05_advanced_higher_order.py:30-32 | the even numbers of 1..5 are [2, 4] |
| `HigherOrder.FoldTimesFactorial` | python-core-concepts/02-functions/05_advanced_higher_order.py:40 | folding `*` over k+1..n starting from k! gives n! |
| `HigherOrder.ReduceTimesIsFactorial` | python-core-concepts/02-functions/05_advanced_higher_order.py:39-40 | the product of 1..n by `reduce` is n! |
| `HigherOrder.ProductDemo` | python-core-concepts/02-functions/05_advanced_higher_order.py:39-41 | the product of [1, 2, 3, 4, 5] is 120 |
| `HigherOrder.SalesDemo` | python-core-concepts/02-functions/05_advanced_higher_order.py:79-81 | the cumulative sales of [100, 200, 300] are 600 |
| `HigherOrder.SortedByAgeDemo` | python-core-concepts/02-functions/05_advanced_higher_order.py:46-48 | sorting Alice (34) and Bob (27) by age puts Bob first |
| `HigherOrder.Multiplier` | python-core-concepts/02-functions/05_advanced_higher_order.py:53-56 | defines the closure factory; no contract of its own, MultiplierCompose states what the closures do |
| `HigherOrder.MultiplierCompose` | python-core-concepts/02-functions/05_advanced_higher_order.py:53-56 | each closure keeps its own captured factor: applied to 1 it gives the factor back, and one closure after another multiplies by the product of the two factors |
| `HigherOrder.TimesTwoDemo` | python-core-concepts/02-python-functions/intermediate.py:119-120 | `multiplier(2)(5)` is 10 |
| `HigherOrder.ApplyAllConcat` | python-core-concepts/02-functions/05_advanced_higher_order.py:64-65 | applying two lists of transformations one after the other is applying them as one list |
| `HigherOrder.ApplyTransformations` | python-core-concepts/02-functions/05_advanced_higher_order.py:63-66 | each output is its input passed through all transformations in list order |
| `HigherOrder.ApplyNoTransformations` | python-core-concepts/02-functions/05_advanced_higher_order.py:64-66 | with no transformations the data comes back as it was |
| `HigherOrder.ApplyTransformationsDemo` | python-core-concepts/02-functions/05_advanced_higher_order.py:68-70 | add one, then square: [1, 2, 3, 4] gives [4, 9, 16, 25] |
| `HigherOrder.CleanFilterSpec` | python-core-concepts/02-functions/05_advanced_higher_order.py:74-75 | an item is kept iff it is neither `None` nor empty; the filter works piece by piece |
| `HigherOrder.CleanFilterDemo` | python-core-concepts/02-functions/05_advanced_higher_order.py:74-76 | the data cleans to Alice, Charles, Bob |
| `HigherOrder.UppercaseColumnsDemo` | python-core-concepts/02-functions/05_advanced_higher_order.py:84-86 | the column names become NAME, AGE, SALARY |
| `Decorators.DecoratorName` | python-core-concepts/02-functions/03_advanced_decorators.py:18-22 | defines the forwarding wrapper; no contract of its own, StackedTransparent states what it does |
| `Decorators.StackedTransparent` | python-core-concepts/02-functions/03_advanced_decorators.py:18-22 | however many times `@decorator_name` is stacked on a function, every call returns what the bare function returns, or raises what it raises |
| `Decorators.FunctionToDecorate` | python-core-concepts/02-functions/03_advanced_decorators.py:26-27 | `function_to_decorate` takes no parameters: it returns None exactly when it is called with no positional and no keyword argument, and otherwise raises TypeError |
| `Decorators.FunctionToDecorateDemo` | python-core-concepts/02-functions/03_advanced_decorators.py:18-27 | the decorated `function_to_decorate()` returns None; called with a positional or a keyword argument it raises TypeError, which the forwarding wrapper lets through |
| `Decorators.LogDecorator` | python-core-concepts/02-functions/03_advanced_decorators.py:34-40 | the result passes through unchanged; a call that returns logs the call then the result, one that raises logs only the call |
| `Decorators.BindXY` | python-core-concepts/02-functions/03_advanced_decorators.py:35-43 | the wrapper forwards `*args, **kwargs` to `def add(x, y)`, and Python binds them only when two are given by position, one by position and y by name, or both by name; every other call (too many, an unknown keyword, a parameter given twice, one missing) raises TypeError |
| `Decorators.Add` | python-core-concepts/02-functions/03_advanced_decorators.py:43-44 | returns exactly when the bound x and y are both ints, and then returns their `sum`; every other call raises TypeError |
| `Decorators.AddCallForms` | python-core-concepts/02-functions/03_advanced_decorators.py:43-44 | `add(a, b)`, `add(a, y=b)` and `add(x=a, y=b)` all return a + b; `add(a, x=b)` and `add(a, b, z=0)` raise |
| `Decorators.LogDecoratorDemo` | python-core-concepts/02-functions/03_advanced_decorators.py:42-45 | `add(3, 5)` returns 8, logged as the call then 8 |
| `Decorators.AnyNegativeSpec` | python-core-concepts/02-functions/03_advanced_decorators.py:74 | the `any(...)` test holds iff some positional argument is a negative int or float |
| `Decorators.ValidatePositive` | python-core-concepts/02-functions/03_advanced_decorators.py:72-77 | the wrapper raises ValueError("All inputs must be positive") when the test holds, and otherwise returns the wrapped function's result |
| `Decorators.ValidatePositiveSpec` | python-core-concepts/02-functions/03_advanced_decorators.py:73-76 | a negative number among the positional arguments raises; with none, the call passes through |
| `Decorators.ZeroIsAccepted` | python-core-concepts/02-functions/03_advanced_decorators.py:74 | zeros pass the "positive" check, since only `< 0` is refused |
| `Decorators.Multiply` | python-core-concepts/02-functions/03_advanced_decorators.py:79-80 | returns exactly when the bound x and y are both ints, and two non-negative ones give a non-negative product; every other call raises TypeError |
| `Decorators.MultiplyLaws` | python-core-concepts/02-functions/03_advanced_decorators.py:79-80 | `multiply` always succeeds on two ints, commutes, has 1 as its identity, distributes over addition (which pins it down as the product), and gives the same result with y named as with y by position |
| `Decorators.ValidatePositiveDemo` | python-core-concepts/02-functions/03_advanced_decorators.py:78-81 | `multiply(5, 10)` is 50; a negative argument raises |
| `Decorators.KeywordBypassDemo` | python-core-concepts/02-functions/03_advanced_decorators.py:73-80 | the check scans `args` only, so `multiply(5, y=-10)` gets through and returns -50, while `multiply(5, -10)` raises ValueError |
| `Decorators.ValidateShapes` | python-core-concepts/02-functions/03_advanced_decorators.py:117-122 | an empty expected shape raises IndexError, a length other than its first entry raises ValueError, otherwise the call passes through |
| `Decorators.ProcessData` | python-core-concepts/02-functions/03_advanced_decorators.py:124-126 | defines `process_data`, which returns True; ValidateShapesDemo states it through the validator |
| `Decorators.ValidateShapesDemo` | python-core-concepts/02-functions/03_advanced_decorators.py:123-128 | `[1, 2, 3]` with `(3,)` returns True; `[1, 2]` with `(3,)` raises |
| `Decorators.CleanData` | python-core-concepts/02-functions/03_advanced_decorators.py:98-99 | one cleaned item per item, none longer than its input; CleanDataSpec says exactly what is cut |
| `Decorators.CleanDataSpec` | python-core-concepts/02-functions/03_advanced_decorators.py:97-99 | one cleaned item per item, in order, each its input with only the surrounding whitespace cut away |
| `Decorators.CleanDataDemo` | python-core-concepts/02-functions/03_advanced_decorators.py:101-103 | the padded names clean to Alice, Bob, Charlie |
| `FunctionBasics.FunctionName` | python-core-concepts/02-functions/01_basics.py:6-9 | defines `function_name`; no contract of its own, FunctionNameMap states what it does |
| `FunctionBasics.FunctionNameMap` | python-core-concepts/02-functions/01_basics.py:6-9 | `function_name` hands back what it is given: mapped over any list it leaves the list unchanged, and it returns 4 for 4 and "Alice" for "Alice" |
| `FunctionBasics.SquareNumber` | python-core-concepts/02-functions/01_basics.py:12-13 | `num ** 2` is num · num and never negative |
| `FunctionBasics.SquareNumberDemo` | python-core-concepts/02-functions/01_basics.py:14 | `square_number(4)` is 16 |
| `FunctionBasics.AddNumbersSpec` | python-core-concepts/02-functions/01_basics.py:83-85 | no arguments sum to 0, two runs of arguments add up separately, and 1..5 gives 15 |
| `FunctionBasics.CleanData` | python-core-concepts/02-functions/01_basics.py:104-107 | the result has no duplicates and holds exactly the lowercased inputs, in an unspecified order |
| `FunctionBasics.CleanDataLength` | python-core-concepts/02-functions/01_basics.py:106 | the result has one element per distinct lowercased input, never more than the input |
| `FunctionBasics.CleanDataDemoInput` | python-core-concepts/02-functions/01_basics.py:108 | the demonstration names lowercase to alice, bob and charlie |
| `FunctionBasics.CleanDataDemo` | python-core-concepts/02-functions/01_basics.py:108-109 | the demonstration cleans to three names: alice, bob, charlie |
| `FunctionBasics.InnerFunction` | python-core-concepts/02-functions/01_basics.py:115-116 | `y ** 2` is y · y |
| `FunctionBasics.OuterFunction` | python-core-concepts/02-functions/01_basics.py:114-117 | the result is x² + 1, so at least 1 |
| `FunctionBasics.OuterFunctionDemo` | python-core-concepts/02-functions/01_basics.py:118 | `outer_function(3)` is 10 |
| `Intermediate.SumOfNumbersReordered` | python-core-concepts/02-python-functions/intermediate.py:44-45 | the arguments' order does not change `sum_of_numbers` |
| `Intermediate.SumOfNumbersDemo` | python-core-concepts/02-python-functions/intermediate.py:46 | 1, 2, 3, 4, 5, in any order, sum to 15 |
| `Intermediate.SortedRecordsDemo` | python-core-concepts/02-python-functions/intermediate.py:81-83 | the records sort by age to Bob, Charlie, Alice |
| `Intermediate.HighValueDemo` | python-core-concepts/02-python-functions/intermediate.py:86-89 | the transactions above 200 are [300, 450] |
| `Intermediate.Outer` | python-core-concepts/02-python-functions/intermediate.py:107-112 | `inner` reads the enclosing x = 2, so `outer()` is 4 |
| `Intermediate.AddNum` | python-core-concepts/02-python-functions/intermediate.py:148-153 | the annotations are not checked: two ints give their `sum`, two strings their concatenation, and an int mixed with a string raises TypeError |
| `Intermediate.AddNumDemo` | python-core-concepts/02-python-functions/intermediate.py:148-153 | `add_num(2, 3)` is 5 and `add_num("a", "b")` is "ab"; swapping the arguments never changes an int result but does change a string result |
| `Intermediate.Power` | python-core-concepts/02-python-functions/intermediate.py:166-167 | defines `power(base, exponent)` as `**`; the partial below states what it gives |
| `Intermediate.Square` | python-core-concepts/02-python-functions/intermediate.py:165-168 | with the exponent fixed at 2, every base gives its square |
| `Intermediate.SquareDemo` | python-core-concepts/02-python-functions/intermediate.py:169 | `square(5)` is 25 |
| `OopIntermediate.Model.Fit` | python-core-concepts/03-oop-concepts/02_intermediate.py:21-37 | raises NotImplementedError exactly for the base class |
| `OopIntermediate.Model.Predict` | python-core-concepts/03-oop-concepts/02_intermediate.py:25-40 | the base class raises; the subclasses give one output per input, doubled for linear regression, squared (never negative) for the decision tree |
| `OopIntermediate.PredictInjectivity` | python-core-concepts/03-oop-concepts/02_intermediate.py:32-40 | different inputs never get the same linear-regression prediction; -1 and 1 get the same decision-tree prediction |
| `OopIntermediate.ModelsDemo` | python-core-concepts/03-oop-concepts/02_intermediate.py:42-45 | fitting succeeds, and [1, 2, 3] predicts [2, 4, 6] and [1, 4, 9] |
| `OopIntermediate.Pipeline.Extract` | python-core-concepts/03-oop-concepts/02_intermediate.py:98-112 | the CSV source gives [1, 2, 3], the API source [4, 5, 6] |
| `OopIntermediate.Pipeline.Step` | python-core-concepts/03-oop-concepts/02_intermediate.py:104-116 | defines each subclass's per-element step, doubling or adding 10; Transform and TransformSpec state what the transform does |
| `OopIntermediate.Pipeline.Transform` | python-core-concepts/03-oop-concepts/02_intermediate.py:102-116 | one output per input: doubled for CSV, plus 10 for the API |
| `OopIntermediate.TransformSpec` | python-core-concepts/03-oop-concepts/02_intermediate.py:104-116 | the transform works element by element in order and no two inputs transform alike |
| `OopIntermediate.PipelinesDemo` | python-core-concepts/03-oop-concepts/02_intermediate.py:121-133 | the pipelines load [2, 4, 6] and [14, 15, 16] |
| `OopIntermediate.Process` | python-core-concepts/03-oop-concepts/02_intermediate.py:162-169 | one argument is a single dataset, more than one is several, none is no dataset |
| `Sets.Union` | python-core-concepts/01-data-structures/02_sets.py:16-18 | `a \| b` holds exactly the members of either set |
| `Sets.Intersection` | python-core-concepts/01-data-structures/02_sets.py:20-22 | `a & b` holds exactly the members of both |
| `Sets.Difference` | python-core-concepts/01-data-structures/02_sets.py:24-26 | `a - b` holds exactly the members of a not in b |
| `Sets.DifferenceIntersectionSplit` | python-core-concepts/sets.py:20-26 | a splits into the disjoint parts a - b and a & b |
| `Sets.UnionSize` | python-core-concepts/sets.py:16-22 | the union's size is the two sizes less the intersection's |
| `Sets.SubsetOrder` | python-core-concepts/sets.py:28-33 | each operand is a subset of the union and a superset of the intersection; a - b is a subset of a |
| `Sets.IsSubset` | python-core-concepts/01-data-structures/02_sets.py:28-33 | `set_c <= set_a` holds exactly when every member of set_c is in set_a; a subset is never larger than its superset, and subsets of each other are equal |
| `Sets.SetsDemo` | python-core-concepts/01-data-structures/02_sets.py:10-33 | the repeated "cherry" is held once; the union, intersection, difference and subset checks give the printed results |
| `Sets.UniqueProductsDemo` | python-core-concepts/01-data-structures/02_sets.py:35-38 | the product list has three distinct products |
| `Sets.Deduplicate` | python-core-concepts/01-data-structures/02_sets.py:67-75 | the loop's result has no duplicates, holds every input value, and lists them in first-occurrence order |
| `Sets.DemoInput` | python-core-concepts/01-data-structures/02_sets.py:69 | [1, 2, 2, 3] has three distinct values, first met at 0, 1 and 3 |
| `Sets.DeduplicatedDemo` | python-core-concepts/01-data-structures/02_sets.py:69-74 | those properties force the result [1, 2, 3] |
| `Sets.DeduplicateDemo` | python-core-concepts/01-data-structures/02_sets.py:69-74 | [1, 2, 2, 3] deduplicates to [1, 2, 3] |
| `ListsTuples.NormalizedIndex` | python-core-concepts/lists_and_tuples.py:11 | an index is valid iff -len ≤ index < len, and a negative one counts from the end |
| `ListsTuples.PyList.constructor` | python-core-concepts/01-lists-tuples-sets-dicts/lists_and_tuples.py:8 | the list holds the given items |
| `ListsTuples.PyList.Append` | python-core-concepts/01-lists-tuples-sets-dicts/lists_and_tuples.py:9 | the item is added at the end, the others unchanged |
| `ListsTuples.PyList.SetItem` | python-core-concepts/01-lists-tuples-sets-dicts/lists_and_tuples.py:11 | the slot the index names is replaced; an index out of range raises IndexError and changes nothing |
| `ListsTuples.PyList.Remove` | python-core-concepts/01-lists-tuples-sets-dicts/lists_and_tuples.py:13 | the scan deletes the first occurrence only; a missing value raises ValueError and changes nothing |
| `ListsTuples.SetItemSpec` | python-core-concepts/lists_and_tuples.py:11-12 | assignment keeps the length, puts the value in its slot and leaves every other slot |
| `ListsTuples.ShoppingListDemo` | python-core-concepts/lists_and_tuples.py:7-14 | the edits leave apple, oranges, blueberries |
| `ListsTuples.FilterAbove25Demo` | python-core-concepts/01-lists-tuples-sets-dicts/lists_and_tuples.py:25-28 | the values above 25 are [30, 40, 50] |
| `ListsTuples.HalvedAbove25` | python-core-concepts/01-lists-tuples-sets-dicts/lists_and_tuples.py:30-32 | one half per value above 25, in order |
| `ListsTuples.HalvedAbove25Demo` | python-core-concepts/01-lists-tuples-sets-dicts/lists_and_tuples.py:31-33 | [10, 20, 30, 40, 50] gives [15.0, 20.0, 25.0] |
| `ListsTuples.DataMapDemo` | python-core-concepts/01-lists-tuples-sets-dicts/lists_and_tuples.py:52-56 | (10, 20) looks up "Location A", and the reversed pair is not a key |
| `ListsTuples.LocationMapDemo` | python-core-concepts/lists_and_tuples.py:21-23 | the two coordinate pairs are distinct keys, each with its own label |
| `Dictionaries.PyDict.Get` | python-core-concepts/01-data-structures/03_dictionaries.py:14-15 | `d[k]` returns the stored value, and raises KeyError exactly when k is missing |
| `Dictionaries.PyDict.Set` | python-core-concepts/01-data-structures/03_dictionaries.py:17-22 | `d[k] = v` reads back v; earlier keys keep their order in front; the table grows by one exactly when k is new |
| `Dictionaries.PyDict.Delete` | python-core-concepts/01-data-structures/03_dictionaries.py:25-26 | `del d[k]` raises KeyError exactly when k is missing; otherwise k no longer reads and the table shrinks by one |
| `Dictionaries.PyDict.Merge` | python-core-concepts/01-data-structures/03_dictionaries.py:33-36 | `a \| b` keeps a's keys first in their order and holds exactly the keys of both |
| `Dictionaries.PyDict.Items` | python-core-concepts/01-data-structures/03_dictionaries.py:29-31 | one (key, value) pair per key, in insertion order |
| `Dictionaries.SizeSpec` | python-core-concepts/01-data-structures/03_dictionaries.py:2-3 | the listed keys are the mapped keys, so `len` counts the entries |
| `Dictionaries.SetSpec` | python-core-concepts/01-data-structures/03_dictionaries.py:17-23 | the key reads back the new value and others are unchanged; a new key adds one entry at the end, an existing key keeps size and order |
| `Dictionaries.RemoveKey` | python-core-concepts/01-data-structures/03_dictionaries.py:26 | taking a key out of the order leaves every other key once |
| `Dictionaries.DeleteSpec` | python-core-concepts/01-data-structures/03_dictionaries.py:25-27 | `del` raises KeyError for a missing key; otherwise exactly that key goes, the rest unchanged, size down by one |
| `Dictionaries.FilterNoDuplicates` | python-core-concepts/01-data-structures/03_dictionaries.py:36 | the right side's new keys contain no duplicates |
| `Dictionaries.FilterKeepsAll` | python-core-concepts/01-data-structures/03_dictionaries.py:34-36 | when no key is shared, all of the right side's keys are new |
| `Dictionaries.MergeSpec` | python-core-concepts/01-data-structures/03_dictionaries.py:33-37 | `a \| b` holds the keys of both; the right side wins on a shared key; disjoint maps give the sum of their sizes |
| `Dictionaries.ItemsSpec` | python-core-concepts/01-data-structures/03_dictionaries.py:30-31 | `items()` visits each key/value pair exactly once |
| `Dictionaries.Dict.constructor` | python-core-concepts/01-data-structures/03_dictionaries.py:12 | the dict holds the displayed entries |
| `Dictionaries.Dict.GetItem` | python-core-concepts/01-data-structures/03_dictionaries.py:15 | reads the stored value or raises KeyError, and changes nothing |
| `Dictionaries.Dict.SetItem` | python-core-concepts/01-data-structures/03_dictionaries.py:18-22 | the entries become their assignment of the key |
| `Dictionaries.Dict.DeleteItem` | python-core-concepts/01-data-structures/03_dictionaries.py:26 | the entries lose the key, or KeyError leaves them unchanged |
| `Dictionaries.Dict.Items` | python-core-concepts/01-data-structures/03_dictionaries.py:30 | the loop collects the pairs of `items()` |
| `Dictionaries.CustomerTransactionsValid` | python-core-concepts/01-data-structures/03_dictionaries.py:34-35 | the two displays list each customer once |
| `Dictionaries.LilySteps` | python-core-concepts/01-data-structures/03_dictionaries.py:17-23 | Lily is added last with 2 and overwritten to 20 |
| `Dictionaries.CharlieStep` | python-core-concepts/01-data-structures/03_dictionaries.py:25-27 | deleting Charlie leaves Alice, Bob, Lily |
| `Dictionaries.ItemsStep` | python-core-concepts/01-data-structures/03_dictionaries.py:29-31 | the loop visits Alice 8, Bob 7, Lily 20 |
| `Dictionaries.TransactionsDemo` | python-core-concepts/01-data-structures/03_dictionaries.py:11-31 | Alice reads 8, and after the edits the items are Alice 8, Bob 7, Lily 20 |
| `Dictionaries.MergeDemo` | python-core-concepts/01-data-structures/03_dictionaries.py:33-37 | the merge has six entries, each with its own count |

## Left out

- `User` (password hashing with SHA-256): a foreign `hashlib` call.
- Floating-point arithmetic:
  - `FeatureScaler.scale`;
  - `BaseModel.preprocess`, whose min–max scaling divides by `min - max`, so the sign is inverted and equal values divide by zero;
  - `normalise_values`;
  - `calculate_total` and `calculate_discounted_price`;
  - `DataStats.mean`;
  - `calculate_mean` and `sliding_window_average` in the doc-comments.
  The learning-rate guard is a comparison, so it is modelled on `real`.
- The clock and I/O:
  - `timing_decorator`, `slow_function` and `train_model` (`time`);
  - the timestamp of `log_preprocessing` (its wrapped `clean_data` is modelled);
  - `read_large_file` (a file).
- Printing and f-string formatting: every `print`, `greet()` without a return, `display_info`, `introduce`, `create_profile`, `displayName`/`displayAge`, the `load` methods and the messages of `fit`, `deposit`, `withdraw` and `set_hyperparameters`. `Greet` keeps its returned greeting.
- Python's class machinery: `ABC`/`@abstractmethod`, `super()`, `_protected` names and name mangling of `__balance`. Classes are plain Dafny classes or datatypes with the same behaviour. `BaseModel.train` and its two subclasses only return an exception object or print.
- `Recursion.Factorial`: does not model the RecursionError a negative argument ends in; the function requires n ≥ 0.
- The recursion-depth limit of `fibonacci` and `fibonacci_memo`, and the value `fibonacci_memo(50)`: the cache property is stated for every n, and the demonstration uses 10.
- `Generators.FibonacciGenerator`: the stream is unbounded; the model yields one value per `Next`, and `FibonacciPrefix` collects finite prefixes.
- Set iteration order: `list(set(...))` in `clean_data` is specified by membership and distinctness only.
- `Builtins.Lower`: case mapping of the ASCII letters only; non-ASCII case mapping is not modelled.
- `Builtins.Upper`: case mapping of the ASCII letters only; non-ASCII case mapping is not modelled.
- `Builtins.LowerChar`: ASCII letters only, as for `Builtins.Lower`.
- `Builtins.UpperChar`: ASCII letters only, as for `Builtins.Upper`.
- `ListsTuples.HalvedAbove25`: halves are exact reals. Python's float `x/2` gives the same value only for kept values up to 2^53. Above that it rounds (for 2^53 + 1 it gives 2^52, not 2^52 + 0.5). From 2^1024 on it raises OverflowError. The model captures neither the rounding nor the overflow.
- `Intermediate.AddNum`: only int and str arguments are modelled. Floats, lists, booleans and other types that Python's `+` accepts are not.
- `OopBasics.DataCleaner.MissingValues`: the fill value has the element type, so `missing_values(None)`, which would leave every `None` in place, cannot be expressed.
- `Decorators.ValidatePositive`: NaN is not modelled; floats are `real`, and `bool` arguments never count as negative.
- `Decorators.Add`: int arguments only, by position or by name; float, bool, str and other operands that Python's `+` accepts raise TypeError in the model.
- `Decorators.Multiply`: int arguments only, by position or by name; float, bool, str and other operands that Python's `*` accepts raise TypeError in the model.
- `Builtins.Pow`: non-negative integer exponents only, the ones the scripts use.
- The tuple immutability comment (`coordinates[0] = ...` raising TypeError) is commented out in the scripts and is not modelled.
