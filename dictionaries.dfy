/** Dictionaries: a table of customer transactions looked up, extended,
    overwritten and shrunk in place, iterated, and merged with `|`. A Python
    dict remembers the order its keys were first inserted in, so a dictionary
    is its keys in that order together with the key-to-value map. */
module Dictionaries {
  import opened Builtins

  // ---------------------------------------------------------------------------
  // the dictionary as a value
  // ---------------------------------------------------------------------------

  /** The contents of a dict: `keys` in insertion order, `values` the mapping. */
  datatype PyDict<K(==, !new), V> = PyDict(keys: seq<K>, values: map<K, V>)
  {
    /** Each key is listed once, and the listed keys are the mapped ones. */
    ghost predicate Valid()
    {
      NoDuplicates(keys) && forall k :: k in values <==> k in keys
    }

    /** `len(d)`. */
    function Size(): nat
    {
      |keys|
    }

    /** `d[k]`: the stored value, or KeyError. */
    function Get(k: K): (r: Result<V>)
      ensures r.Ok? <==> k in values
      ensures r.Ok? ==> r.value == values[k]
      ensures r.Raised? ==> r.error == KeyError
    {
      if k in values then Ok(values[k]) else Raised(KeyError)
    }

    /** `d[k] = v`: a new key goes last; an existing key keeps its place. */
    function Set(k: K, v: V): (r: PyDict<K, V>)
      ensures r.Get(k) == Ok(v)
      ensures |r.keys| == |keys| + (if k in values then 0 else 1)
      ensures r.keys[..|keys|] == keys
    {
      PyDict(if k in values then keys else keys + [k], values[k := v])
    }

    /** `del d[k]`: the key leaves both the order and the map, or KeyError. */
    function Delete(k: K): (r: Result<PyDict<K, V>>)
      requires Valid()
      ensures r.Raised? <==> k !in values
      ensures r.Raised? ==> r.error == KeyError
      ensures r.Ok? ==> r.value.Get(k) == Raised(KeyError) && |r.value.keys| == |keys| - 1
    {
      if k in values then
        Ok(PyDict(RemoveFirst(keys, k), values - {k}))
      else
        Raised(KeyError)
    }

    /** `d | other`: this dict's keys, then the other's new keys in their
        order; on a shared key the other's value wins. */
    function Merge(other: PyDict<K, V>): (r: PyDict<K, V>)
      ensures |r.keys| >= |keys| && r.keys[..|keys|] == keys
      ensures r.values.Keys == values.Keys + other.values.Keys
    {
      PyDict(keys + Filter(k => k !in values, other.keys), values + other.values)
    }

    /** `d.items()`: one (key, value) pair per key, in insertion order. */
    function Items(): (r: seq<(K, V)>)
      requires Valid()
      ensures |r| == |keys|
      ensures forall i :: 0 <= i < |r| ==> r[i].0 == keys[i] && r[i].0 in values && r[i].1 == values[r[i].0]
    {
      seq(|keys|, i requires 0 <= i < |keys| => (keys[i], values[keys[i]]))
    }
  }

  /** Under the invariant the listed keys and the mapped keys are the same
      number, so `len` counts the entries. */
  lemma SizeSpec<K(!new), V>(d: PyDict<K, V>)
    requires d.Valid()
    ensures d.Size() == |d.values|
    ensures forall k :: k in d.values <==> k in d.keys
  {
    DistinctCardinality(d.keys);
    SetOfMembers(d.keys);
    assert d.values.Keys == SetOf(d.keys);
  }

  /** Assigning a key: reading it back gives the new value, every other key
      reads as before; a new key adds one entry at the end of the order, an
      existing key keeps the size and the order. */
  lemma SetSpec<K(!new), V>(d: PyDict<K, V>, k: K, v: V)
    requires d.Valid()
    ensures d.Set(k, v).Valid()
    ensures d.Set(k, v).Get(k) == Ok(v)
    ensures forall j :: j != k ==> d.Set(k, v).Get(j) == d.Get(j)
    ensures k in d.values ==> d.Set(k, v).Size() == d.Size() && d.Set(k, v).keys == d.keys
    ensures k !in d.values ==> d.Set(k, v).Size() == d.Size() + 1 && d.Set(k, v).keys == d.keys + [k]
  {
    var r := d.Set(k, v);
    if k !in d.values {
      forall i, j | 0 <= i < j < |r.keys| ensures r.keys[i] != r.keys[j] {
        if j == |d.keys| {
          assert r.keys[i] in d.keys;
        }
      }
    }
  }

  /** Removing the first occurrence of a key from a list without duplicates
      leaves a list without duplicates that holds every other key. */
  lemma RemoveKey<K(!new)>(keys: seq<K>, k: K)
    requires NoDuplicates(keys) && k in keys
    ensures NoDuplicates(RemoveFirst(keys, k))
    ensures forall x :: x in RemoveFirst(keys, k) <==> x in keys && x != k
  {
    var i := FirstIndex(keys, k);
    var r := RemoveFirst(keys, k);
    assert forall j :: 0 <= j < |r| ==> r[j] == if j < i then keys[j] else keys[j + 1];
    forall x | x in keys && x != k ensures x in r {
      var m :| 0 <= m < |keys| && keys[m] == x;
      if m < i {
        assert r[m] == x;
      } else {
        assert r[m - 1] == x;
      }
    }
  }

  /** `del d[k]` raises KeyError for a missing key; otherwise the key reads as
      missing afterwards, every other key reads as before, the size drops by
      one and one `k` leaves the key order. */
  lemma DeleteSpec<K(!new), V>(d: PyDict<K, V>, k: K)
    requires d.Valid()
    ensures k !in d.values ==> d.Delete(k) == Raised(KeyError)
    ensures k in d.values ==> d.Delete(k).Ok?
    ensures k in d.values ==> var r := d.Delete(k).value;
      && r.Valid()
      && r.Get(k) == Raised(KeyError)
      && (forall j :: j != k ==> r.Get(j) == d.Get(j))
      && r.Size() == d.Size() - 1
      && multiset(r.keys) == multiset(d.keys) - multiset{k}
  {
    if k in d.values {
      RemoveKey(d.keys, k);
      RemoveFirstSpec(d.keys, k);
    }
  }

  /** Filtering keeps a list free of duplicates. */
  lemma {:induction false} FilterNoDuplicates<T(!new)>(p: T -> bool, s: seq<T>)
    requires NoDuplicates(s)
    ensures NoDuplicates(Filter(p, s))
  {
    if s != [] {
      FilterNoDuplicates(p, s[1..]);
      FilterMembers(p, s[1..]);
      assert s[0] !in s[1..] by {
        forall j | 0 <= j < |s[1..]| ensures s[1..][j] != s[0] {
          assert s[1..][j] == s[j + 1];
        }
      }
      var t := Filter(p, s[1..]);
      if p(s[0]) {
        var u := [s[0]] + t;
        forall i, j | 0 <= i < j < |u| ensures u[i] != u[j] {
          if i == 0 {
            assert u[j] == t[j - 1];
          } else {
            assert u[i] == t[i - 1] && u[j] == t[j - 1];
          }
        }
      }
    }
  }

  /** Filtering with a test every element passes changes nothing. */
  lemma {:induction false} FilterKeepsAll<T(!new)>(p: T -> bool, s: seq<T>)
    requires forall i :: 0 <= i < |s| ==> p(s[i])
    ensures Filter(p, s) == s
  {
    if s != [] {
      FilterKeepsAll(p, s[1..]);
    }
  }

  /** `a | b` holds the keys of both; a key of `b` reads as in `b`, a key only
      in `a` reads as in `a`; the result keeps the invariant, and when no key
      is shared it has as many entries as both together. */
  lemma MergeSpec<K(!new), V>(a: PyDict<K, V>, b: PyDict<K, V>)
    requires a.Valid() && b.Valid()
    ensures a.Merge(b).Valid()
    ensures forall k :: k in a.Merge(b).values <==> k in a.values || k in b.values
    ensures forall k :: k in b.values ==> a.Merge(b).Get(k) == b.Get(k)
    ensures forall k :: k in a.values && k !in b.values ==> a.Merge(b).Get(k) == a.Get(k)
    ensures a.values.Keys !! b.values.Keys ==> a.Merge(b).Size() == a.Size() + b.Size()
  {
    var p := (k: K) => k !in a.values;
    var added := Filter(p, b.keys);
    var r := a.Merge(b);
    assert r.keys == a.keys + added;
    FilterMembers(p, b.keys);
    FilterNoDuplicates(p, b.keys);
    forall i, j | 0 <= i < j < |r.keys| ensures r.keys[i] != r.keys[j] {
      if j >= |a.keys| {
        if i < |a.keys| {
          assert r.keys[j] == added[j - |a.keys|];
          assert r.keys[j] in added;
        } else {
          assert r.keys[i] == added[i - |a.keys|] && r.keys[j] == added[j - |a.keys|];
        }
      }
    }
    if a.values.Keys !! b.values.Keys {
      forall i | 0 <= i < |b.keys| ensures p(b.keys[i]) {
        assert b.keys[i] in b.values.Keys;
      }
      FilterKeepsAll(p, b.keys);
    }
  }

  /** `items()` visits every entry exactly once. */
  lemma ItemsSpec<K(!new), V>(d: PyDict<K, V>)
    requires d.Valid()
    ensures |d.Items()| == |d.values|
    ensures NoDuplicates(d.Items())
    ensures forall k :: k in d.values ==> (k, d.values[k]) in d.Items()
    ensures forall e :: e in d.Items() ==> e.0 in d.values && e.1 == d.values[e.0]
  {
    SizeSpec(d);
    var items := d.Items();
    forall k | k in d.values ensures (k, d.values[k]) in items {
      var i :| 0 <= i < |d.keys| && d.keys[i] == k;
      assert items[i] == (k, d.values[k]);
    }
  }

  // ---------------------------------------------------------------------------
  // the dictionary changed in place
  // ---------------------------------------------------------------------------

  /** A dict object whose entries the statements change. */
  class Dict<K(==, !new), V> {
    var keys: seq<K>
    var values: map<K, V>

    /** The entries, as a value. */
    function Contents(): PyDict<K, V>
      reads this
    {
      PyDict(keys, values)
    }

    ghost predicate Valid()
      reads this
    {
      Contents().Valid()
    }

    /** A dict display `{k1: v1, ...}`. */
    constructor (contents: PyDict<K, V>)
      requires contents.Valid()
      ensures Valid() && Contents() == contents
    {
      keys := contents.keys;
      values := contents.values;
    }

    /** `d[k]`: reads an entry and changes nothing. */
    method GetItem(k: K) returns (r: Result<V>)
      ensures k in values ==> r == Ok(values[k])
      ensures k !in values ==> r == Raised(KeyError)
    {
      if k in values {
        r := Ok(values[k]);
      } else {
        r := Raised(KeyError);
      }
    }

    /** `d[k] = v`. */
    method SetItem(k: K, v: V)
      requires Valid()
      modifies this
      ensures Valid()
      ensures Contents() == old(Contents()).Set(k, v)
    {
      SetSpec(Contents(), k, v);
      if k !in values {
        keys := keys + [k];
      }
      values := values[k := v];
    }

    /** `del d[k]`: KeyError leaves the dict as it was. */
    method DeleteItem(k: K) returns (r: Result<()>)
      requires Valid()
      modifies this
      ensures Valid()
      ensures old(Contents()).Delete(k).Ok? ==> r == Ok(()) && Contents() == old(Contents()).Delete(k).value
      ensures old(Contents()).Delete(k).Raised? ==> r == Raised(KeyError) && Contents() == old(Contents())
    {
      DeleteSpec(Contents(), k);
      if k in values {
        keys := RemoveFirst(keys, k);
        values := values - {k};
        r := Ok(());
      } else {
        r := Raised(KeyError);
      }
    }

    /** `for key, value in d.items()`: the loop collects the pairs in the
        order it meets them. */
    method Items() returns (items: seq<(K, V)>)
      requires Valid()
      ensures items == Contents().Items()
    {
      items := [];
      for i := 0 to |keys|
        invariant |items| == i
        invariant forall j :: 0 <= j < i ==> items[j] == (keys[j], values[keys[j]])
      {
        items := items + [(keys[i], values[keys[i]])];
      }
    }
  }

  // ---------------------------------------------------------------------------
  // the scripted statements
  // ---------------------------------------------------------------------------

  /** `{"Alice": 8, "Bob": 7, "Charlie": 6}`. */
  function CustomerTransactions(): PyDict<string, int>
  {
    PyDict(["Alice", "Bob", "Charlie"], map["Alice" := 8, "Bob" := 7, "Charlie" := 6])
  }

  /** `{"Dwayne": 8, "Dan": 7, "Jack": 9}`. */
  function CustomerTransactions2(): PyDict<string, int>
  {
    PyDict(["Dwayne", "Dan", "Jack"], map["Dwayne" := 8, "Dan" := 7, "Jack" := 9])
  }

  lemma CustomerTransactionsValid()
    ensures CustomerTransactions().Valid()
    ensures CustomerTransactions2().Valid()
  {
  }

  /** Adding Lily with 2 and then overwriting her count with 20 puts her
      last, with 20. */
  lemma LilySteps(d0: PyDict<string, int>, d2: PyDict<string, int>)
    requires d0 == CustomerTransactions()
    requires d2 == d0.Set("Lily", 2).Set("Lily", 20)
    ensures d2.keys == ["Alice", "Bob", "Charlie", "Lily"]
    ensures d2.values == map["Alice" := 8, "Bob" := 7, "Charlie" := 6, "Lily" := 20]
  {
    assert "Lily" !in d0.values;
  }

  /** Deleting Charlie leaves Alice, Bob and Lily, in that order. */
  lemma CharlieStep(d2: PyDict<string, int>, d3: PyDict<string, int>)
    requires d2.keys == ["Alice", "Bob", "Charlie", "Lily"]
    requires d2.values == map["Alice" := 8, "Bob" := 7, "Charlie" := 6, "Lily" := 20]
    requires d2.Valid() && d2.Delete("Charlie").Ok? && d3 == d2.Delete("Charlie").value
    ensures d3.keys == ["Alice", "Bob", "Lily"]
    ensures d3.values == map["Alice" := 8, "Bob" := 7, "Lily" := 20]
  {
    assert FirstIndex(d2.keys, "Charlie") == 2;
  }

  /** The loop over the final table visits Alice, Bob and Lily. */
  lemma ItemsStep(d3: PyDict<string, int>)
    requires d3.keys == ["Alice", "Bob", "Lily"]
    requires d3.values == map["Alice" := 8, "Bob" := 7, "Lily" := 20]
    requires d3.Valid()
    ensures d3.Items() == [("Alice", 8), ("Bob", 7), ("Lily", 20)]
  {
    assert |d3.Items()| == 3;
  }

  /** Alice's count is read as 8; Lily is added with 2 and overwritten with
      20; Charlie is deleted; the loop then visits Alice, Bob and Lily. */
  method TransactionsDemo() returns (alice: Result<int>, items: seq<(string, int)>)
    ensures alice == Ok(8)
    ensures items == [("Alice", 8), ("Bob", 7), ("Lily", 20)]
  {
    CustomerTransactionsValid();
    var d := new Dict(CustomerTransactions());
    alice := d.GetItem("Alice");
    d.SetItem("Lily", 2);
    d.SetItem("Lily", 20);
    LilySteps(CustomerTransactions(), d.Contents());
    ghost var d2 := d.Contents();
    DeleteSpec(d2, "Charlie");
    var r := d.DeleteItem("Charlie");
    CharlieStep(d2, d.Contents());
    ItemsStep(d.Contents());
    items := d.Items();
  }

  /** The two tables share no customer, so the merge has all six entries,
      each with the count it had. */
  lemma MergeDemo(a: PyDict<string, int>, b: PyDict<string, int>)
    requires a == CustomerTransactions() && b == CustomerTransactions2()
    ensures var m := a.Merge(b);
      && m.Size() == 6
      && m.Get("Alice") == Ok(8) && m.Get("Charlie") == Ok(6) && m.Get("Jack") == Ok(9)
  {
    CustomerTransactionsValid();
    assert a.values.Keys == {"Alice", "Bob", "Charlie"};
    assert b.values.Keys == {"Dwayne", "Dan", "Jack"};
    assert a.values.Keys !! b.values.Keys;
    MergeSpec(a, b);
    assert "Alice" !in b.values && "Charlie" !in b.values && "Jack" in b.values;
  }
}
