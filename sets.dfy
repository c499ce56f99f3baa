/** Sets: a literal with a repeated member, the four set operators, `set(list)`
    and an order-preserving deduplication loop. */
module Sets {
  import opened Builtins

  // ---------------------------------------------------------------------------
  // |, &, -, <=
  // ---------------------------------------------------------------------------

  /** `a | b`: the members of either set. */
  function Union<T(!new)>(a: set<T>, b: set<T>): (r: set<T>)
    ensures forall x :: x in r <==> x in a || x in b
  {
    a + b
  }

  /** `a & b`: the members of both sets. */
  function Intersection<T(!new)>(a: set<T>, b: set<T>): (r: set<T>)
    ensures forall x :: x in r <==> x in a && x in b
  {
    a * b
  }

  /** `a - b`: the members of `a` that are not in `b`. */
  function Difference<T(!new)>(a: set<T>, b: set<T>): (r: set<T>)
    ensures forall x :: x in r <==> x in a && x !in b
  {
    a - b
  }

  /** `a <= b`: every member of `a` is in `b`. A subset is never larger than
      its superset, and two sets that are subsets of each other are equal. */
  predicate IsSubset<T(!new)>(a: set<T>, b: set<T>): (r: bool)
    ensures r <==> a <= b
    ensures r ==> |a| <= |b|
    ensures r && (forall x :: x in b ==> x in a) ==> a == b
  {
    var r := forall x :: x in a ==> x in b;
    if r then
      assert b == a + (b - a) && a !! (b - a);
      r
    else r
  }

  /** `a` splits into the part it shares with `b` and the part it does not. */
  lemma DifferenceIntersectionSplit<T(!new)>(a: set<T>, b: set<T>)
    ensures Union(Difference(a, b), Intersection(a, b)) == a
    ensures Difference(a, b) !! Intersection(a, b)
    ensures |Difference(a, b)| + |Intersection(a, b)| == |a|
  {
  }

  /** Inclusion and exclusion: the union counts the shared members once. */
  lemma UnionSize<T(!new)>(a: set<T>, b: set<T>)
    ensures |Union(a, b)| == |a| + |b| - |Intersection(a, b)|
  {
    DifferenceIntersectionSplit(a, b);
    assert Union(a, b) == Difference(a, b) + b;
    assert Difference(a, b) !! b;
  }

  /** Each operand is a subset of the union and a superset of the intersection. */
  lemma SubsetOrder<T(!new)>(a: set<T>, b: set<T>)
    ensures IsSubset(a, Union(a, b)) && IsSubset(b, Union(a, b))
    ensures IsSubset(Intersection(a, b), a) && IsSubset(Intersection(a, b), b)
    ensures IsSubset(Difference(a, b), a)
  {
  }

  // ---------------------------------------------------------------------------
  // the scripted sets
  // ---------------------------------------------------------------------------

  /** `set_a`, written with "cherry" twice. */
  function SetA(): set<string>
  {
    {"apple", "banana", "cherry", "cherry"}
  }

  function SetB(): set<string>
  {
    {"dog", "cat", "elephant", "cherry"}
  }

  function SetC(): set<string>
  {
    {"apple", "cherry"}
  }

  /** The repeated "cherry" is held once: `set_a` has three members. The
      operators give the values the script prints. */
  lemma SetsDemo()
    ensures |SetA()| == 3
    ensures Union(SetA(), SetB()) == {"apple", "banana", "cherry", "dog", "cat", "elephant"}
    ensures Intersection(SetA(), SetB()) == {"cherry"}
    ensures Difference(SetA(), SetB()) == {"apple", "banana"}
    ensures IsSubset(SetC(), SetA())
    ensures !IsSubset(SetC(), SetB())
  {
    assert SetA() == {"apple", "banana", "cherry"};
    assert "apple" in SetC() && "apple" !in SetB();
    assert |{"apple", "banana", "cherry"}| == 3;
  }

  // ---------------------------------------------------------------------------
  // set(product_list)
  // ---------------------------------------------------------------------------

  /** `set(product_list)` holds each distinct product once:
      ["apple", "banana", "cherry", "banana"] gives three products. */
  lemma UniqueProductsDemo(products: seq<string>)
    requires products == ["apple", "banana", "cherry", "banana"]
    ensures SetOf(products) == {"apple", "banana", "cherry"}
    ensures |SetOf(products)| == 3
  {
    SetOfMembers(products);
    assert SetOf(products) == {"apple", "banana", "cherry"};
    assert |{"apple", "banana", "cherry"}| == 3;
  }

  // ---------------------------------------------------------------------------
  // order-preserving deduplication
  // ---------------------------------------------------------------------------

  /** The loop `for item in data: if item not in deduplicated:
      deduplicated.append(item)`. The result holds every input value once, and
      in the order of the values' first occurrences. */
  method Deduplicate<T(==)>(data: seq<T>) returns (deduplicated: seq<T>)
    ensures NoDuplicates(deduplicated)
    ensures forall x :: x in deduplicated <==> x in data
    ensures forall i, j :: 0 <= i < j < |deduplicated| ==>
              FirstIndex(data, deduplicated[i]) < FirstIndex(data, deduplicated[j])
  {
    deduplicated := [];
    for k := 0 to |data|
      invariant NoDuplicates(deduplicated)
      invariant forall x :: x in deduplicated <==> x in data[..k]
      invariant forall x :: x in deduplicated ==> x in data
      invariant forall i :: 0 <= i < |deduplicated| ==> FirstIndex(data, deduplicated[i]) < k
      invariant forall i, j :: 0 <= i < j < |deduplicated| ==>
                  FirstIndex(data, deduplicated[i]) < FirstIndex(data, deduplicated[j])
    {
      var item := data[k];
      assert data[..k + 1] == data[..k] + [item];
      if item !in deduplicated {
        assert item !in data[..k];
        assert FirstIndex(data, item) == k;
        deduplicated := deduplicated + [item];
      }
    }
    assert data[..|data|] == data;
  }

  /** [1, 2, 2, 3] has three distinct values, first met at 0, 1 and 3. */
  lemma DemoInput(data: seq<int>, deduplicated: seq<int>)
    requires data == [1, 2, 2, 3]
    requires NoDuplicates(deduplicated)
    requires forall x :: x in deduplicated <==> x in data
    ensures |deduplicated| == 3
    ensures FirstIndex(data, 1) == 0 && FirstIndex(data, 2) == 1 && FirstIndex(data, 3) == 3
  {
    SetOfMembers(deduplicated);
    assert SetOf(deduplicated) == {1, 2, 3};
    DistinctCardinality(deduplicated);
    assert |{1, 2, 3}| == 3;
  }

  /** The three properties pin the result down for [1, 2, 2, 3]: it is
      [1, 2, 3]. */
  lemma DeduplicatedDemo(data: seq<int>, deduplicated: seq<int>)
    requires data == [1, 2, 2, 3]
    requires NoDuplicates(deduplicated)
    requires forall x :: x in deduplicated <==> x in data
    requires forall i, j :: 0 <= i < j < |deduplicated| ==>
               FirstIndex(data, deduplicated[i]) < FirstIndex(data, deduplicated[j])
    ensures deduplicated == [1, 2, 3]
  {
    DemoInput(data, deduplicated);
    var a, b, c := deduplicated[0], deduplicated[1], deduplicated[2];
    assert a in data && b in data && c in data;
    assert FirstIndex(data, a) < FirstIndex(data, b) < FirstIndex(data, c);
  }

  /** [1, 2, 2, 3] deduplicates to [1, 2, 3]. */
  method DeduplicateDemo() returns (deduplicated: seq<int>)
    ensures deduplicated == [1, 2, 3]
  {
    var data := [1, 2, 2, 3];
    deduplicated := Deduplicate(data);
    DeduplicatedDemo(data, deduplicated);
  }
}
