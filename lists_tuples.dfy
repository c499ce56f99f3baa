/** Lists and tuples: a shopping list changed in place by `append`, index
    assignment and `remove`; a comprehension filter; and dictionaries keyed
    by tuples. */
module ListsTuples {
  import opened Builtins

  // ---------------------------------------------------------------------------
  // the shopping list
  // ---------------------------------------------------------------------------

  /** Python's index normalisation for `s[index] = value`: a negative index
      counts from the end; anything outside `-len(s) <= index < len(s)` is out
      of range. */
  function NormalizedIndex(length: nat, index: int): (r: Cell<nat>)
    ensures r.Some? <==> -(length as int) <= index < length
    ensures r.Some? ==> r.value < length && (r.value == index || r.value == index + length)
  {
    if 0 <= index < length then Some(index)
    else if -(length as int) <= index < 0 then Some(index + length)
    else None
  }

  /** A Python list of strings, held as a sequence that each operation
      replaces. */
  class PyList {
    var items: seq<string>

    constructor (items: seq<string>)
      ensures this.items == items
    {
      this.items := items;
    }

    /** `append(x)`: one more element, at the end; the others unchanged. */
    method Append(x: string)
      modifies this
      ensures items == old(items) + [x]
    {
      items := items + [x];
    }

    /** `items[index] = value`: replaces the one slot the (possibly negative)
        index names, or raises IndexError and changes nothing. */
    method SetItem(index: int, value: string) returns (r: Result<()>)
      modifies this
      ensures var n := NormalizedIndex(|old(items)|, index);
        && (n.Some? ==> r == Ok(()) && items == old(items)[n.value := value])
        && (n.None? ==> r == Raised(IndexError("list assignment index out of range")) && items == old(items))
    {
      var n := NormalizedIndex(|items|, index);
      if n.Some? {
        items := items[n.value := value];
        r := Ok(());
      } else {
        r := Raised(IndexError("list assignment index out of range"));
      }
    }

    /** `remove(x)`: scans for the first `x` and deletes it; with no `x` in the
        list it raises ValueError and changes nothing. */
    method Remove(x: string) returns (r: Result<()>)
      modifies this
      ensures x in old(items) ==> r == Ok(()) && items == RemoveFirst(old(items), x)
      ensures x !in old(items) ==> r == Raised(ValueError("list.remove(x): x not in list")) && items == old(items)
    {
      var i := 0;
      while i < |items| && items[i] != x
        invariant 0 <= i <= |items|
        invariant x !in items[..i]
      {
        assert items[..i + 1] == items[..i] + [items[i]];
        i := i + 1;
      }
      if i == |items| {
        assert items[..i] == items;
        r := Raised(ValueError("list.remove(x): x not in list"));
      } else {
        assert items[..i + 1] == items[..i] + [x];
        assert FirstIndex(items, x) == i;
        items := items[..i] + items[i + 1..];
        r := Ok(());
      }
    }
  }

  /** Index assignment changes only the slot it names, and reading that slot
      back gives the new value. */
  lemma SetItemSpec(s: seq<string>, index: int, value: string)
    requires NormalizedIndex(|s|, index).Some?
    ensures var k := NormalizedIndex(|s|, index).value;
      var t := s[k := value];
      && |t| == |s| && t[k] == value
      && forall j :: 0 <= j < |s| && j != k ==> t[j] == s[j]
  {
  }

  /** The scripted changes: append "dates", set slot 1 to "oranges", remove
      "dates". */
  method ShoppingListDemo() returns (items: seq<string>)
    ensures items == ["apple", "oranges", "blueberries"]
  {
    var shopping := new PyList(["apple", "banana", "blueberries"]);
    shopping.Append("dates");
    assert shopping.items == ["apple", "banana", "blueberries", "dates"];
    var r := shopping.SetItem(1, "oranges");
    assert shopping.items == ["apple", "oranges", "blueberries"] + ["dates"];
    r := shopping.Remove("dates");
    RemoveAppended(["apple", "oranges", "blueberries"], "dates");
    items := shopping.items;
  }

  // ---------------------------------------------------------------------------
  // [x for x in data if x > 25]
  // ---------------------------------------------------------------------------

  predicate IsAbove25(x: int)
  {
    x > 25
  }

  /** [10, 20, 30, 40, 50] filters to [30, 40, 50]. */
  lemma FilterAbove25Demo()
    ensures Filter(IsAbove25, [10, 20, 30, 40, 50]) == [30, 40, 50]
  {
  }

  /** `[x/2 for x in data if x > 25]`, with exact halves: Python's float
      division gives the same values for every kept value up to 2^53. */
  function HalvedAbove25(data: seq<int>): (r: seq<real>)
    ensures |r| == |Filter(IsAbove25, data)|
    ensures forall i :: 0 <= i < |r| ==> 2.0 * r[i] == Filter(IsAbove25, data)[i] as real > 25.0
  {
    Map((x: int) => x as real / 2.0, Filter(IsAbove25, data))
  }

  /** [10, 20, 30, 40, 50] gives [15.0, 20.0, 25.0]. */
  lemma HalvedAbove25Demo()
    ensures HalvedAbove25([10, 20, 30, 40, 50]) == [15.0, 20.0, 25.0]
  {
    FilterAbove25Demo();
    var r := HalvedAbove25([10, 20, 30, 40, 50]);
    assert |r| == 3 && r[0] == 15.0 && r[1] == 20.0 && r[2] == 25.0;
  }

  // ---------------------------------------------------------------------------
  // tuples as dictionary keys
  // ---------------------------------------------------------------------------

  /** `{(10, 20): "Location A", (30, 40): "Location B"}`. */
  function DataMap(): map<(int, int), string>
  {
    map[(10, 20) := "Location A", (30, 40) := "Location B"]
  }

  /** `{(10.5, 20.3): "Work", (10.3, 20.5): "Home"}`: swapping the coordinates
      gives a different key. */
  function LocationMap(): map<(real, real), string>
  {
    map[(10.5, 20.3) := "Work", (10.3, 20.5) := "Home"]
  }

  /** `data_map[(10, 20)]` is "Location A": a pair key looks up the label
      stored for that pair. */
  lemma DataMapDemo()
    ensures (10, 20) in DataMap() && DataMap()[(10, 20)] == "Location A"
    ensures (30, 40) in DataMap() && DataMap()[(30, 40)] == "Location B"
    ensures (20, 10) !in DataMap()
  {
  }

  /** The two location keys hold the same numbers in swapped places, so they
      are distinct and both entries are kept, each with its own label. */
  lemma LocationMapDemo()
    ensures |LocationMap()| == 2
    ensures LocationMap()[(10.5, 20.3)] == "Work" && LocationMap()[(10.3, 20.5)] == "Home"
  {
    assert LocationMap().Keys == {(10.5, 20.3), (10.3, 20.5)};
    assert |{(10.5, 20.3), (10.3, 20.5)}| == 2;
  }
}
