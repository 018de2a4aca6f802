/**
 * The item modal's add-on selection (`SelectedAddon[]`), a list keyed by add-on
 * id, and the operations its handler and its price reduction use.
 */
module AddonList {
  import opened Wrappers
  import opened Types

  predicate HasAddon(s: seq<SelectedAddon>, id: string) {
    exists i :: 0 <= i < |s| && s[i].addon.id == id
  }

  predicate DistinctAddonIds(s: seq<SelectedAddon>) {
    forall i, j :: 0 <= i < j < |s| ==> s[i].addon.id != s[j].addon.id
  }

  /** No add-on is kept with a count of zero (or below). */
  predicate AddonsPositive(s: seq<SelectedAddon>) {
    forall i :: 0 <= i < |s| ==> s[i].quantity > 0
  }

  /** `prev.find(a => a.id === id)`. */
  function FindAddon(s: seq<SelectedAddon>, id: string): (r: Option<SelectedAddon>)
    ensures r.None? <==> !HasAddon(s, id)
    ensures r.Some? ==> r.value in s && r.value.addon.id == id
    ensures r.Some? && DistinctAddonIds(s) ==> forall i :: 0 <= i < |s| && s[i].addon.id == id ==> s[i] == r.value
  {
    if s == [] then None
    else if s[0].addon.id == id then Some(s[0])
    else
      assert forall i :: 1 <= i < |s| ==> s[i] == s[1..][i - 1];
      FindAddon(s[1..], id)
  }

  /** `prev.find(a => a.id === id)?.quantity`, 0 when the add-on is not listed. */
  function AddonCount(s: seq<SelectedAddon>, id: string): (r: int)
    ensures !HasAddon(s, id) ==> r == 0
    ensures DistinctAddonIds(s) ==> forall i :: 0 <= i < |s| && s[i].addon.id == id ==> r == s[i].quantity
    ensures AddonsPositive(s) ==> r >= 0 && (HasAddon(s, id) ==> r > 0)
  {
    match FindAddon(s, id)
    case Some(e) => e.quantity
    case None => 0
  }

  /** `prev.filter(a => a.id !== id)`. */
  function WithoutAddon(s: seq<SelectedAddon>, id: string): seq<SelectedAddon> {
    if s == [] then []
    else if s[0].addon.id == id then WithoutAddon(s[1..], id)
    else [s[0]] + WithoutAddon(s[1..], id)
  }

  /** `prev.map(a => a.id === id ? { ...a, quantity: q } : a)`. */
  function SetAddonQuantity(s: seq<SelectedAddon>, id: string, q: int): seq<SelectedAddon> {
    seq(|s|, i requires 0 <= i < |s| => if s[i].addon.id == id then s[i].(quantity := q) else s[i])
  }

  /** `selectedAddons.reduce((sum, addon) => sum + addon.price * addon.quantity, 0)`. */
  function AddonTotal(s: seq<SelectedAddon>): int {
    if s == [] then 0 else s[0].addon.price * s[0].quantity + AddonTotal(s[1..])
  }

  // ---------------------------------------------------------------------------
  // Structural facts.

  lemma HasAddonTail(s: seq<SelectedAddon>, id: string)
    requires s != []
    ensures HasAddon(s, id) <==> s[0].addon.id == id || HasAddon(s[1..], id)
  {
    assert forall i :: 0 <= i < |s| - 1 ==> s[1..][i] == s[i + 1];
    if HasAddon(s, id) && s[0].addon.id != id {
      var i :| 0 <= i < |s| && s[i].addon.id == id;
      assert s[1..][i - 1].addon.id == id;
    }
  }

  /**
   * `find` returns the first entry with the id: no earlier entry has it, and
   * the count read is that entry's quantity.
   */
  lemma {:induction false} FindAddonIsFirst(s: seq<SelectedAddon>, id: string)
    requires HasAddon(s, id)
    ensures exists i ::
      (0 <= i < |s| && s[i].addon.id == id && FindAddon(s, id) == Some(s[i]) &&
       AddonCount(s, id) == s[i].quantity && forall j :: 0 <= j < i ==> s[j].addon.id != id)
  {
    if s[0].addon.id == id {
      assert FindAddon(s, id) == Some(s[0]);
    } else {
      var t := s[1..];
      HasAddonTail(s, id);
      FindAddonIsFirst(t, id);
      var k :| 0 <= k < |t| && t[k].addon.id == id && FindAddon(t, id) == Some(t[k]) &&
        AddonCount(t, id) == t[k].quantity && forall j :: 0 <= j < k ==> t[j].addon.id != id;
      assert FindAddon(s, id) == FindAddon(t, id);
      assert s[k + 1] == t[k];
      forall j | 0 <= j < k + 1 ensures s[j].addon.id != id {
        if j > 0 { assert s[j] == t[j - 1]; }
      }
    }
  }

  lemma DistinctAddonTail(s: seq<SelectedAddon>)
    requires s != [] && DistinctAddonIds(s)
    ensures DistinctAddonIds(s[1..]) && !HasAddon(s[1..], s[0].addon.id)
  {
    assert forall i :: 0 <= i < |s| - 1 ==> s[1..][i] == s[i + 1];
  }

  lemma {:induction false} WithoutAddonFacts(s: seq<SelectedAddon>, id: string)
    ensures !HasAddon(WithoutAddon(s, id), id)
    ensures forall other :: other != id ==> HasAddon(WithoutAddon(s, id), other) == HasAddon(s, other)
    ensures WithoutAddon(WithoutAddon(s, id), id) == WithoutAddon(s, id)
    ensures !HasAddon(s, id) ==> WithoutAddon(s, id) == s
    ensures AddonsPositive(s) ==> AddonsPositive(WithoutAddon(s, id))
  {
    if s != [] {
      var t := WithoutAddon(s[1..], id);
      WithoutAddonFacts(s[1..], id);
      HasAddonTail(s, id);
      forall other ensures HasAddon([s[0]] + t, other) <==> s[0].addon.id == other || HasAddon(t, other) {
        HasAddonTail([s[0]] + t, other);
        assert ([s[0]] + t)[1..] == t;
      }
      forall other ensures HasAddon(s, other) <==> s[0].addon.id == other || HasAddon(s[1..], other) {
        HasAddonTail(s, other);
      }
      if s[0].addon.id != id {
        assert ([s[0]] + t)[1..] == t;
      }
      if AddonsPositive(s) {
        assert forall i :: 0 <= i < |s| - 1 ==> s[1..][i] == s[i + 1];
        assert forall i :: 0 < i < |t| + 1 ==> ([s[0]] + t)[i] == t[i - 1];
      }
    }
  }

  /** The id filter keeps the count of every other add-on. */
  lemma {:induction false} WithoutAddonKeepsCounts(s: seq<SelectedAddon>, id: string, other: string)
    requires other != id
    ensures AddonCount(WithoutAddon(s, id), other) == AddonCount(s, other)
  {
    if s != [] {
      WithoutAddonKeepsCounts(s[1..], id, other);
      AddonCountCons(s[0], s[1..], other);
      assert s == [s[0]] + s[1..];
      if s[0].addon.id != id {
        AddonCountCons(s[0], WithoutAddon(s[1..], id), other);
      }
    }
  }

  lemma AddonCountCons(h: SelectedAddon, t: seq<SelectedAddon>, id: string)
    ensures AddonCount([h] + t, id) == if h.addon.id == id then h.quantity else AddonCount(t, id)
  {
    assert ([h] + t)[1..] == t;
  }

  lemma {:induction false} WithoutAddonDistinct(s: seq<SelectedAddon>, id: string)
    ensures DistinctAddonIds(s) ==> DistinctAddonIds(WithoutAddon(s, id))
  {
    if s != [] && DistinctAddonIds(s) {
      DistinctAddonTail(s);
      WithoutAddonDistinct(s[1..], id);
      WithoutAddonFacts(s[1..], id);
      var t := WithoutAddon(s[1..], id);
      if s[0].addon.id != id {
        var u := [s[0]] + t;
        forall i, j | 0 <= i < j < |u| ensures u[i].addon.id != u[j].addon.id {
          assert u[j] == t[j - 1];
          if i > 0 { assert u[i] == t[i - 1]; }
        }
      }
    }
  }

  /** Removing an add-on takes its `price * quantity` out of the add-on total. */
  lemma {:induction false} WithoutAddonTotal(s: seq<SelectedAddon>, e: SelectedAddon)
    requires DistinctAddonIds(s) && e in s
    ensures AddonTotal(WithoutAddon(s, e.addon.id)) == AddonTotal(s) - e.addon.price * e.quantity
  {
    DistinctAddonTail(s);
    if s[0] == e {
      WithoutAddonFacts(s[1..], e.addon.id);
    } else {
      assert e in s[1..];
      assert s[0].addon.id != e.addon.id;
      WithoutAddonTotal(s[1..], e);
      assert ([s[0]] + WithoutAddon(s[1..], e.addon.id))[1..] == WithoutAddon(s[1..], e.addon.id);
    }
  }

  lemma SetAddonFacts(s: seq<SelectedAddon>, id: string, q: int)
    ensures forall other :: HasAddon(SetAddonQuantity(s, id, q), other) == HasAddon(s, other)
    ensures WithoutAddon(SetAddonQuantity(s, id, q), id) == WithoutAddon(s, id)
    ensures DistinctAddonIds(s) ==> DistinctAddonIds(SetAddonQuantity(s, id, q))
    ensures AddonsPositive(s) && q > 0 ==> AddonsPositive(SetAddonQuantity(s, id, q))
    ensures !HasAddon(s, id) ==> SetAddonQuantity(s, id, q) == s
  {
    var r := SetAddonQuantity(s, id, q);
    forall other ensures HasAddon(r, other) == HasAddon(s, other) {
      if HasAddon(s, other) {
        var i :| 0 <= i < |s| && s[i].addon.id == other;
        assert r[i].addon.id == other;
      }
      if HasAddon(r, other) {
        var i :| 0 <= i < |r| && r[i].addon.id == other;
        assert s[i].addon.id == other;
      }
    }
    SetAddonWithout(s, id, q);
    if !HasAddon(s, id) {
      assert forall i :: 0 <= i < |s| ==> r[i] == s[i];
    }
  }

  lemma {:induction false} SetAddonWithout(s: seq<SelectedAddon>, id: string, q: int)
    ensures WithoutAddon(SetAddonQuantity(s, id, q), id) == WithoutAddon(s, id)
  {
    if s != [] {
      var r := SetAddonQuantity(s, id, q);
      SetAddonWithout(s[1..], id, q);
      assert r[1..] == SetAddonQuantity(s[1..], id, q);
    }
  }

  /** The first entry under an id, after the map, is the first entry before it with the new count. */
  lemma {:induction false} SetAddonFound(s: seq<SelectedAddon>, id: string, q: int)
    requires HasAddon(s, id)
    ensures FindAddon(SetAddonQuantity(s, id, q), id) == Some(FindAddon(s, id).value.(quantity := q))
  {
    var r := SetAddonQuantity(s, id, q);
    HasAddonTail(s, id);
    if s[0].addon.id != id {
      SetAddonFound(s[1..], id, q);
      assert r[1..] == SetAddonQuantity(s[1..], id, q);
    }
  }

  /** An entry appended under a new id is the one found under it. */
  lemma {:induction false} AppendAddonFound(s: seq<SelectedAddon>, x: SelectedAddon)
    requires !HasAddon(s, x.addon.id)
    ensures FindAddon(s + [x], x.addon.id) == Some(x)
  {
    if s == [] {
      assert s + [x] == [x];
    } else {
      HasAddonTail(s, x.addon.id);
      assert (s + [x])[1..] == s[1..] + [x];
      AppendAddonFound(s[1..], x);
    }
  }

  /** Setting an add-on's count changes the add-on total by its price times the difference. */
  lemma {:induction false} SetAddonTotal(s: seq<SelectedAddon>, e: SelectedAddon, q: int)
    requires DistinctAddonIds(s) && e in s
    ensures AddonTotal(SetAddonQuantity(s, e.addon.id, q)) == AddonTotal(s) - e.addon.price * e.quantity + e.addon.price * q
  {
    DistinctAddonTail(s);
    var r := SetAddonQuantity(s, e.addon.id, q);
    assert r[1..] == SetAddonQuantity(s[1..], e.addon.id, q);
    if s[0] == e {
      SetAddonFacts(s[1..], e.addon.id, q);
    } else {
      assert e in s[1..];
      assert s[0].addon.id != e.addon.id;
      SetAddonTotal(s[1..], e, q);
    }
  }

  /** The entry found under an id, with its count set back, is the list itself. */
  lemma SetAddonSame(s: seq<SelectedAddon>, e: SelectedAddon)
    requires DistinctAddonIds(s) && e in s
    ensures SetAddonQuantity(s, e.addon.id, e.quantity) == s
  {
    var r := SetAddonQuantity(s, e.addon.id, e.quantity);
    forall i | 0 <= i < |s| ensures r[i] == s[i] {
      if s[i].addon.id == e.addon.id {
        var k :| 0 <= k < |s| && s[k] == e;
        assert i == k;
      }
    }
  }

  lemma {:induction false} AppendAddonFacts(s: seq<SelectedAddon>, x: SelectedAddon)
    ensures forall other :: HasAddon(s + [x], other) <==> HasAddon(s, other) || other == x.addon.id
    ensures WithoutAddon(s + [x], x.addon.id) == WithoutAddon(s, x.addon.id)
    ensures AddonTotal(s + [x]) == AddonTotal(s) + x.addon.price * x.quantity
    ensures DistinctAddonIds(s) && !HasAddon(s, x.addon.id) ==> DistinctAddonIds(s + [x])
    ensures AddonsPositive(s) && x.quantity > 0 ==> AddonsPositive(s + [x])
  {
    var u := s + [x];
    assert forall i :: 0 <= i < |s| ==> u[i] == s[i];
    assert u[|s|] == x;
    forall other ensures HasAddon(u, other) <==> HasAddon(s, other) || other == x.addon.id {
      if HasAddon(u, other) {
        var i :| 0 <= i < |u| && u[i].addon.id == other;
        if i < |s| { assert s[i].addon.id == other; }
      }
    }
    if s == [] {
      assert u == [x];
      assert u[1..] == [];
    } else {
      assert u[1..] == s[1..] + [x];
      AppendAddonFacts(s[1..], x);
    }
  }
}
