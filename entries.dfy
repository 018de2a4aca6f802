/**
 * Lists of name/count pairs, the shape shared by the item modal's selections:
 * `SelectedSauce[]`, `SelectedDessert[]` and the count objects
 * (`{ [key: string]: number }`) held for doneness, drinks and multi-choice
 * options. A JS object keeps its keys in insertion order and never holds a key
 * twice, so a count object is a list of entries with distinct names.
 */
module Entries {
  import opened Wrappers

  /** One `{ name, quantity }` record, or one key/value pair of a count object. */
  datatype Entry = Entry(name: string, quantity: int)

  predicate HasName(s: seq<Entry>, name: string) {
    exists i :: 0 <= i < |s| && s[i].name == name
  }

  predicate DistinctNames(s: seq<Entry>) {
    forall i, j :: 0 <= i < j < |s| ==> s[i].name != s[j].name
  }

  /** The sparse invariant: no entry is kept with a count of zero (or below). */
  predicate AllPositive(s: seq<Entry>) {
    forall i :: 0 <= i < |s| ==> s[i].quantity > 0
  }

  /** A JS object used as a count map: its keys are distinct by construction. */
  type CountObject = s: seq<Entry> | DistinctNames(s) witness []

  /** `list.find(e => e.name === name)`: the first entry with that name. */
  function Find(s: seq<Entry>, name: string): (r: Option<Entry>)
    ensures r.None? <==> !HasName(s, name)
    ensures r.Some? ==> r.value in s && r.value.name == name
  {
    if s == [] then None
    else if s[0].name == name then Some(s[0])
    else
      assert forall i :: 1 <= i < |s| ==> s[i] == s[1..][i - 1];
      Find(s[1..], name)
  }

  /**
   * The single accessor for a count: `obj[name] || 0` on a count object and
   * `list.find(e => e.name === name)?.quantity || 0` on a list.
   */
  function CountOf(s: seq<Entry>, name: string): (r: int)
    ensures !HasName(s, name) ==> r == 0
    ensures DistinctNames(s) ==> forall i :: 0 <= i < |s| && s[i].name == name ==> r == s[i].quantity
    ensures AllPositive(s) ==> r >= 0 && (HasName(s, name) ==> r > 0)
  {
    match Find(s, name)
    case Some(e) => e.quantity
    case None => 0
  }

  /** `list.reduce((sum, e) => sum + e.quantity, 0)`; for a count object, the sum of `Object.values`. */
  function Total(s: seq<Entry>): int {
    if s == [] then 0 else s[0].quantity + Total(s[1..])
  }

  /** `list.filter(e => group.includes(e.name)).reduce((sum, e) => sum + e.quantity, 0)`. */
  function GroupTotal(s: seq<Entry>, group: seq<string>): int {
    if s == [] then 0
    else (if s[0].name in group then s[0].quantity else 0) + GroupTotal(s[1..], group)
  }

  /** `list.filter(e => e.name !== name)`; on a count object, `delete obj[name]`. */
  function FilterOut(s: seq<Entry>, name: string): seq<Entry> {
    if s == [] then []
    else if s[0].name == name then FilterOut(s[1..], name)
    else [s[0]] + FilterOut(s[1..], name)
  }

  /** `list.map(e => e.name === name ? { ...e, quantity: q } : e)`. */
  function SetAll(s: seq<Entry>, name: string, q: int): seq<Entry> {
    if s == [] then []
    else [if s[0].name == name then s[0].(quantity := q) else s[0]] + SetAll(s[1..], name, q)
  }

  /** `obj[name] = q` on a count object: an existing key keeps its place, a new key goes last. */
  function Assign(s: CountObject, name: string, q: int): (r: CountObject)
    ensures CountOf(r, name) == q && HasName(r, name)
    ensures forall n :: n != name ==> CountOf(r, n) == CountOf(s, n)
    ensures FilterOut(r, name) == FilterOut(s, name)
    ensures Total(r) == Total(s) - CountOf(s, name) + q
    ensures forall n :: n != name ==> HasName(r, n) == HasName(s, n)
    ensures AllPositive(s) && q > 0 ==> AllPositive(r)
  {
    if HasName(s, name) then
      SetAllFacts(s, name, q);
      SetAll(s, name, q)
    else
      AppendFacts(s, Entry(name, q));
      s + [Entry(name, q)]
  }

  /** `delete obj[name]` on a count object. */
  function Delete(s: CountObject, name: string): (r: CountObject)
    ensures !HasName(r, name)
    ensures forall n :: n != name ==> CountOf(r, n) == CountOf(s, n)
    ensures FilterOut(r, name) == FilterOut(s, name)
    ensures Total(r) == Total(s) - CountOf(s, name)
    ensures forall n :: n != name ==> HasName(r, n) == HasName(s, n)
    ensures AllPositive(s) ==> AllPositive(r)
  {
    FilterOutFacts(s, name);
    FilterOutTwice(s, name);
    FilterOut(s, name)
  }

  // ---------------------------------------------------------------------------
  // Structural facts about the list operations.

  lemma {:induction false} DistinctTail(s: seq<Entry>)
    requires s != [] && DistinctNames(s)
    ensures DistinctNames(s[1..]) && !HasName(s[1..], s[0].name)
  {
    assert forall i :: 0 <= i < |s| - 1 ==> s[1..][i] == s[i + 1];
  }

  lemma {:induction false} HasNameTail(s: seq<Entry>, name: string)
    requires s != []
    ensures HasName(s, name) <==> s[0].name == name || HasName(s[1..], name)
  {
    assert forall i :: 0 <= i < |s| - 1 ==> s[1..][i] == s[i + 1];
    if HasName(s, name) && s[0].name != name {
      var i :| 0 <= i < |s| && s[i].name == name;
      assert s[1..][i - 1].name == name;
    }
  }

  /**
   * `find` returns the first entry with the name: no earlier entry has it,
   * and the count read is that entry's count.
   */
  lemma {:induction false} FindIsFirst(s: seq<Entry>, name: string)
    requires HasName(s, name)
    ensures exists i ::
      (0 <= i < |s| && s[i].name == name && Find(s, name) == Some(s[i]) &&
       CountOf(s, name) == s[i].quantity && forall j :: 0 <= j < i ==> s[j].name != name)
  {
    if s[0].name == name {
      assert Find(s, name) == Some(s[0]);
    } else {
      var t := s[1..];
      HasNameTail(s, name);
      FindIsFirst(t, name);
      var k :| 0 <= k < |t| && t[k].name == name && Find(t, name) == Some(t[k]) &&
        CountOf(t, name) == t[k].quantity && forall j :: 0 <= j < k ==> t[j].name != name;
      assert Find(s, name) == Find(t, name);
      assert s[k + 1] == t[k];
      forall j | 0 <= j < k + 1 ensures s[j].name != name {
        if j > 0 { assert s[j] == t[j - 1]; }
      }
    }
  }

  lemma CountOfCons(h: Entry, t: seq<Entry>, name: string)
    ensures CountOf([h] + t, name) == if h.name == name then h.quantity else CountOf(t, name)
  {
    assert ([h] + t)[1..] == t;
  }

  lemma {:induction false} DistinctCons(e: Entry, t: seq<Entry>)
    requires DistinctNames(t) && !HasName(t, e.name)
    ensures DistinctNames([e] + t)
  {
    var s := [e] + t;
    forall i, j | 0 <= i < j < |s| ensures s[i].name != s[j].name {
      assert s[j] == t[j - 1];
      if i > 0 { assert s[i] == t[i - 1]; }
    }
  }

  /** What `filter(e => e.name !== name)` keeps and removes. */
  lemma FilterOutFacts(s: seq<Entry>, name: string)
    ensures !HasName(FilterOut(s, name), name)
    ensures forall n :: n != name ==> HasName(FilterOut(s, name), n) == HasName(s, n)
    ensures forall n :: n != name ==> CountOf(FilterOut(s, name), n) == CountOf(s, n)
    ensures forall g :: name !in g ==> GroupTotal(FilterOut(s, name), g) == GroupTotal(s, g)
    ensures DistinctNames(s) ==> DistinctNames(FilterOut(s, name))
    ensures DistinctNames(s) ==> Total(FilterOut(s, name)) == Total(s) - CountOf(s, name)
    ensures DistinctNames(s) ==> forall g :: name in g ==> GroupTotal(FilterOut(s, name), g) == GroupTotal(s, g) - CountOf(s, name)
    ensures AllPositive(s) ==> AllPositive(FilterOut(s, name))
    ensures !HasName(s, name) ==> FilterOut(s, name) == s
  {
    forall n | n != name
      ensures HasName(FilterOut(s, name), n) == HasName(s, n)
      ensures CountOf(FilterOut(s, name), n) == CountOf(s, n)
    {
      FilterOutKeeps(s, name, n);
    }
    FilterOutRemoves(s, name);
    forall g
      ensures name !in g ==> GroupTotal(FilterOut(s, name), g) == GroupTotal(s, g)
      ensures name in g && DistinctNames(s) ==> GroupTotal(FilterOut(s, name), g) == GroupTotal(s, g) - CountOf(s, name)
    {
      FilterOutGroupTotal(s, name, g);
    }
    if DistinctNames(s) {
      FilterOutDistinct(s, name);
      FilterOutTotal(s, name);
    }
    if AllPositive(s) {
      FilterOutPositive(s, name);
    }
    if !HasName(s, name) {
      FilterOutAbsent(s, name);
    }
  }

  lemma {:induction false} FilterOutKeeps(s: seq<Entry>, name: string, n: string)
    requires n != name
    ensures HasName(FilterOut(s, name), n) == HasName(s, n)
    ensures CountOf(FilterOut(s, name), n) == CountOf(s, n)
  {
    if s != [] {
      var t := FilterOut(s[1..], name);
      FilterOutKeeps(s[1..], name, n);
      HasNameTail(s, n);
      if s[0].name != name {
        HasNameTail([s[0]] + t, n);
        assert ([s[0]] + t)[1..] == t;
        CountOfCons(s[0], t, n);
      }
    }
  }

  lemma {:induction false} FilterOutRemoves(s: seq<Entry>, name: string)
    ensures !HasName(FilterOut(s, name), name)
  {
    if s != [] {
      var t := FilterOut(s[1..], name);
      FilterOutRemoves(s[1..], name);
      if s[0].name != name {
        HasNameTail([s[0]] + t, name);
        assert ([s[0]] + t)[1..] == t;
      }
    }
  }

  lemma {:induction false} FilterOutAbsent(s: seq<Entry>, name: string)
    requires !HasName(s, name)
    ensures FilterOut(s, name) == s
  {
    if s != [] {
      HasNameTail(s, name);
      FilterOutAbsent(s[1..], name);
    }
  }

  lemma {:induction false} FilterOutDistinct(s: seq<Entry>, name: string)
    requires DistinctNames(s)
    ensures DistinctNames(FilterOut(s, name))
  {
    if s != [] {
      DistinctTail(s);
      FilterOutDistinct(s[1..], name);
      if s[0].name != name {
        FilterOutKeeps(s[1..], name, s[0].name);
        DistinctCons(s[0], FilterOut(s[1..], name));
      }
    }
  }

  lemma {:induction false} FilterOutTotal(s: seq<Entry>, name: string)
    requires DistinctNames(s)
    ensures Total(FilterOut(s, name)) == Total(s) - CountOf(s, name)
  {
    if s != [] {
      DistinctTail(s);
      CountOfCons(s[0], s[1..], name);
      assert s == [s[0]] + s[1..];
      if s[0].name == name {
        FilterOutAbsent(s[1..], name);
      } else {
        FilterOutTotal(s[1..], name);
        assert ([s[0]] + FilterOut(s[1..], name))[1..] == FilterOut(s[1..], name);
      }
    }
  }

  lemma {:induction false} FilterOutGroupTotal(s: seq<Entry>, name: string, g: seq<string>)
    ensures name !in g ==> GroupTotal(FilterOut(s, name), g) == GroupTotal(s, g)
    ensures name in g && DistinctNames(s) ==> GroupTotal(FilterOut(s, name), g) == GroupTotal(s, g) - CountOf(s, name)
  {
    if s != [] {
      CountOfCons(s[0], s[1..], name);
      assert s == [s[0]] + s[1..];
      if DistinctNames(s) { DistinctTail(s); }
      if s[0].name == name {
        if DistinctNames(s) { FilterOutAbsent(s[1..], name); }
        FilterOutGroupTotal(s[1..], name, g);
      } else {
        FilterOutGroupTotal(s[1..], name, g);
        assert ([s[0]] + FilterOut(s[1..], name))[1..] == FilterOut(s[1..], name);
      }
    }
  }

  lemma {:induction false} FilterOutPositive(s: seq<Entry>, name: string)
    requires AllPositive(s)
    ensures AllPositive(FilterOut(s, name))
  {
    if s != [] {
      assert forall i :: 0 <= i < |s| - 1 ==> s[1..][i] == s[i + 1];
      FilterOutPositive(s[1..], name);
      var t := FilterOut(s[1..], name);
      assert forall i :: 0 < i < |t| + 1 ==> ([s[0]] + t)[i] == t[i - 1];
    }
  }

  /** Removing a name twice is removing it once. */
  lemma {:induction false} FilterOutTwice(s: seq<Entry>, name: string)
    ensures FilterOut(FilterOut(s, name), name) == FilterOut(s, name)
  {
    FilterOutFacts(FilterOut(s, name), name);
    FilterOutFacts(s, name);
  }

  /** What `map(e => e.name === name ? { ...e, quantity: q } : e)` changes. */
  lemma SetAllFacts(s: seq<Entry>, name: string, q: int)
    ensures |SetAll(s, name, q)| == |s|
    ensures forall n :: HasName(SetAll(s, name, q), n) == HasName(s, n)
    ensures HasName(s, name) ==> CountOf(SetAll(s, name, q), name) == q
    ensures forall n :: n != name ==> CountOf(SetAll(s, name, q), n) == CountOf(s, n)
    ensures FilterOut(SetAll(s, name, q), name) == FilterOut(s, name)
    ensures forall g :: name !in g ==> GroupTotal(SetAll(s, name, q), g) == GroupTotal(s, g)
    ensures DistinctNames(s) ==> DistinctNames(SetAll(s, name, q))
    ensures DistinctNames(s) ==> Total(SetAll(s, name, q)) == Total(s) - CountOf(s, name) + (if HasName(s, name) then q else 0)
    ensures DistinctNames(s) ==> forall g :: name in g ==>
      GroupTotal(SetAll(s, name, q), g) == GroupTotal(s, g) - CountOf(s, name) + (if HasName(s, name) then q else 0)
    ensures AllPositive(s) && q > 0 ==> AllPositive(SetAll(s, name, q))
  {
    forall n ensures HasName(SetAll(s, name, q), n) == HasName(s, n)
      ensures n != name ==> CountOf(SetAll(s, name, q), n) == CountOf(s, n)
      ensures n == name && HasName(s, name) ==> CountOf(SetAll(s, name, q), name) == q
    {
      SetAllCounts(s, name, q, n);
    }
    SetAllFilterOut(s, name, q);
    forall g
      ensures name !in g ==> GroupTotal(SetAll(s, name, q), g) == GroupTotal(s, g)
      ensures DistinctNames(s) && name in g ==>
        GroupTotal(SetAll(s, name, q), g) == GroupTotal(s, g) - CountOf(s, name) + (if HasName(s, name) then q else 0)
    {
      SetAllGroupTotal(s, name, q, g);
    }
    if DistinctNames(s) {
      SetAllDistinct(s, name, q);
      SetAllTotal(s, name, q);
    }
    if AllPositive(s) && q > 0 {
      SetAllPositive(s, name, q);
    }
  }

  lemma {:induction false} SetAllCounts(s: seq<Entry>, name: string, q: int, n: string)
    ensures |SetAll(s, name, q)| == |s|
    ensures HasName(SetAll(s, name, q), n) == HasName(s, n)
    ensures n != name ==> CountOf(SetAll(s, name, q), n) == CountOf(s, n)
    ensures n == name && HasName(s, name) ==> CountOf(SetAll(s, name, q), name) == q
  {
    if s != [] {
      var h := if s[0].name == name then s[0].(quantity := q) else s[0];
      var t := SetAll(s[1..], name, q);
      SetAllCounts(s[1..], name, q, n);
      HasNameTail(s, n);
      HasNameTail([h] + t, n);
      assert ([h] + t)[1..] == t;
      CountOfCons(h, t, n);
      CountOfCons(s[0], s[1..], n);
      assert [s[0]] + s[1..] == s;
    }
  }

  lemma {:induction false} SetAllFilterOut(s: seq<Entry>, name: string, q: int)
    ensures FilterOut(SetAll(s, name, q), name) == FilterOut(s, name)
  {
    if s != [] {
      var h := if s[0].name == name then s[0].(quantity := q) else s[0];
      var t := SetAll(s[1..], name, q);
      SetAllFilterOut(s[1..], name, q);
      assert ([h] + t)[1..] == t;
    }
  }

  lemma {:induction false} SetAllGroupTotal(s: seq<Entry>, name: string, q: int, g: seq<string>)
    ensures name !in g ==> GroupTotal(SetAll(s, name, q), g) == GroupTotal(s, g)
    ensures DistinctNames(s) && name in g ==>
      GroupTotal(SetAll(s, name, q), g) == GroupTotal(s, g) - CountOf(s, name) + (if HasName(s, name) then q else 0)
  {
    if s != [] {
      var h := if s[0].name == name then s[0].(quantity := q) else s[0];
      var t := SetAll(s[1..], name, q);
      assert ([h] + t)[1..] == t;
      CountOfCons(s[0], s[1..], name);
      HasNameTail(s, name);
      assert [s[0]] + s[1..] == s;
      if DistinctNames(s) {
        DistinctTail(s);
        if s[0].name == name {
          SetAllAbsent(s[1..], name, q);
        }
      }
      SetAllGroupTotal(s[1..], name, q, g);
    }
  }

  lemma {:induction false} SetAllTotal(s: seq<Entry>, name: string, q: int)
    requires DistinctNames(s)
    ensures Total(SetAll(s, name, q)) == Total(s) - CountOf(s, name) + (if HasName(s, name) then q else 0)
  {
    if s != [] {
      var h := if s[0].name == name then s[0].(quantity := q) else s[0];
      var t := SetAll(s[1..], name, q);
      assert ([h] + t)[1..] == t;
      CountOfCons(s[0], s[1..], name);
      HasNameTail(s, name);
      assert [s[0]] + s[1..] == s;
      DistinctTail(s);
      if s[0].name == name {
        SetAllAbsent(s[1..], name, q);
      } else {
        SetAllTotal(s[1..], name, q);
      }
    }
  }

  lemma {:induction false} SetAllDistinct(s: seq<Entry>, name: string, q: int)
    requires DistinctNames(s)
    ensures DistinctNames(SetAll(s, name, q))
  {
    if s != [] {
      var h := if s[0].name == name then s[0].(quantity := q) else s[0];
      DistinctTail(s);
      SetAllDistinct(s[1..], name, q);
      SetAllCounts(s[1..], name, q, h.name);
      DistinctCons(h, SetAll(s[1..], name, q));
    }
  }

  lemma {:induction false} SetAllPositive(s: seq<Entry>, name: string, q: int)
    requires AllPositive(s) && q > 0
    ensures AllPositive(SetAll(s, name, q))
  {
    if s != [] {
      var h := if s[0].name == name then s[0].(quantity := q) else s[0];
      assert forall i :: 0 <= i < |s| - 1 ==> s[1..][i] == s[i + 1];
      SetAllPositive(s[1..], name, q);
      var t := SetAll(s[1..], name, q);
      assert forall i :: 0 < i < |t| + 1 ==> ([h] + t)[i] == t[i - 1];
    }
  }

  /** What appending one entry at the end changes. */
  lemma AppendFacts(s: seq<Entry>, e: Entry)
    ensures forall n :: HasName(s + [e], n) <==> HasName(s, n) || n == e.name
    ensures !HasName(s, e.name) ==> CountOf(s + [e], e.name) == e.quantity
    ensures forall n :: n != e.name ==> CountOf(s + [e], n) == CountOf(s, n)
    ensures FilterOut(s + [e], e.name) == FilterOut(s, e.name)
    ensures Total(s + [e]) == Total(s) + e.quantity
    ensures forall g :: GroupTotal(s + [e], g) == GroupTotal(s, g) + (if e.name in g then e.quantity else 0)
    ensures DistinctNames(s) && !HasName(s, e.name) ==> DistinctNames(s + [e])
    ensures AllPositive(s) && e.quantity > 0 ==> AllPositive(s + [e])
  {
    AppendNames(s, e);
    AppendSums(s, e);
    var u := s + [e];
    assert forall i :: 0 <= i < |s| ==> u[i] == s[i];
    assert u[|s|] == e;
  }

  lemma {:induction false} AppendNames(s: seq<Entry>, e: Entry)
    ensures forall n :: HasName(s + [e], n) <==> HasName(s, n) || n == e.name
    ensures !HasName(s, e.name) ==> CountOf(s + [e], e.name) == e.quantity
    ensures forall n :: n != e.name ==> CountOf(s + [e], n) == CountOf(s, n)
  {
    var u := s + [e];
    if s == [] {
      assert u == [e];
      assert u[1..] == [];
      assert u[0] == e;
    } else {
      assert u[1..] == s[1..] + [e];
      assert u[0] == s[0];
      AppendNames(s[1..], e);
      HasNameTail(s, e.name);
      forall n ensures HasName(u, n) <==> s[0].name == n || HasName(s[1..] + [e], n) {
        HasNameTail(u, n);
      }
      forall n ensures HasName(s, n) <==> s[0].name == n || HasName(s[1..], n) {
        HasNameTail(s, n);
      }
      forall n ensures CountOf(u, n) == if s[0].name == n then s[0].quantity else CountOf(s[1..] + [e], n) {
        CountOfCons(s[0], s[1..] + [e], n);
        assert u == [s[0]] + (s[1..] + [e]);
      }
    }
  }

  lemma {:induction false} AppendSums(s: seq<Entry>, e: Entry)
    ensures FilterOut(s + [e], e.name) == FilterOut(s, e.name)
    ensures Total(s + [e]) == Total(s) + e.quantity
    ensures forall g :: GroupTotal(s + [e], g) == GroupTotal(s, g) + (if e.name in g then e.quantity else 0)
  {
    var u := s + [e];
    if s == [] {
      assert u == [e];
      assert u[1..] == [];
    } else {
      assert u[1..] == s[1..] + [e];
      assert u[0] == s[0];
      AppendSums(s[1..], e);
    }
  }


  /** Setting a name to the count it already has changes nothing. */
  lemma {:induction false} SetAllSame(s: seq<Entry>, name: string)
    requires DistinctNames(s)
    ensures SetAll(s, name, CountOf(s, name)) == s
  {
    if s != [] {
      DistinctTail(s);
      if s[0].name == name {
        SetAllAbsent(s[1..], name, CountOf(s, name));
      } else {
        SetAllSame(s[1..], name);
      }
    }
  }

  lemma {:induction false} SetAllAbsent(s: seq<Entry>, name: string, q: int)
    requires !HasName(s, name)
    ensures SetAll(s, name, q) == s
  {
    if s != [] {
      HasNameTail(s, name);
      SetAllAbsent(s[1..], name, q);
    }
  }

  /** The last `map` wins. */
  lemma {:induction false} SetAllTwice(s: seq<Entry>, name: string, p: int, q: int)
    ensures SetAll(SetAll(s, name, p), name, q) == SetAll(s, name, q)
  {
    if s != [] {
      SetAllTwice(s[1..], name, p, q);
    }
  }
}
