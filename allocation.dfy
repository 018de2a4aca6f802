/**
 * The updaters behind the item modal's stepper handlers (ItemModal.tsx). Each
 * takes the previous selection and the requested change and returns the next
 * selection, as the function the handler passes to its state setter does. The
 * caps a handler consults (the allocated totals, the sauce limit, the dessert
 * group totals) are read from the same previous selection: one handler call is
 * one atomic step.
 */
module Allocation {
  import opened Wrappers
  import opened Entries
  import opened Types
  import opened Catalog
  import opened AddonList

  // ---------------------------------------------------------------------------
  // Doneness, drink and multi-choice: a count object whose total may not pass
  // the item quantity.

  /** When the doneness, drink and multi-choice handlers take a change. */
  predicate QuotaAccepts(pool: seq<Entry>, key: string, change: int, quantity: int) {
    CountOf(pool, key) + change >= 0 && !(change > 0 && Total(pool) >= quantity)
  }

  /**
   * `handleDonenessChange`, `handleDrinkChange` and `handleMultiChoiceChange`:
   * a rejected change leaves the pool alone; an accepted one moves the key's
   * count by `change` and drops the key when it reaches zero.
   */
  function QuotaChange(pool: CountObject, key: string, change: int, quantity: int): (r: CountObject)
    ensures !QuotaAccepts(pool, key, change, quantity) ==> r == pool
    ensures QuotaAccepts(pool, key, change, quantity) ==>
      CountOf(r, key) == CountOf(pool, key) + change &&
      (HasName(r, key) <==> CountOf(pool, key) + change != 0) &&
      Total(r) == Total(pool) + change
    ensures forall k :: k != key ==> CountOf(r, k) == CountOf(pool, k) && HasName(r, k) == HasName(pool, k)
    ensures FilterOut(r, key) == FilterOut(pool, key)
    ensures AllPositive(pool) ==> AllPositive(r)
    ensures Total(pool) <= quantity && change <= 1 ==> Total(r) <= quantity
  {
    var newCount := CountOf(pool, key) + change;
    if newCount < 0 then pool
    else if change > 0 && Total(pool) >= quantity then pool
    else if newCount == 0 then Delete(pool, key)
    else Assign(pool, key, newCount)
  }

  /** One press of a stepper button: the key and the change it sends. */
  datatype Step = Step(key: string, change: int)

  function ApplyQuotaSteps(pool: CountObject, steps: seq<Step>, quantity: int): CountObject
    decreases |steps|
  {
    if steps == [] then pool
    else ApplyQuotaSteps(QuotaChange(pool, steps[0].key, steps[0].change, quantity), steps[1..], quantity)
  }

  /**
   * Whatever sequence of +1/-1 presses follows (at a fixed item quantity), the
   * allocated total never passes the quantity and no key is kept at zero.
   */
  lemma {:induction false} QuotaStepsStayWithin(pool: CountObject, steps: seq<Step>, quantity: int)
    requires Total(pool) <= quantity && AllPositive(pool)
    requires forall i :: 0 <= i < |steps| ==> steps[i].change <= 1
    ensures Total(ApplyQuotaSteps(pool, steps, quantity)) <= quantity
    ensures AllPositive(ApplyQuotaSteps(pool, steps, quantity))
    decreases |steps|
  {
    if steps != [] {
      var next := QuotaChange(pool, steps[0].key, steps[0].change, quantity);
      assert forall i :: 0 <= i < |steps| - 1 ==> steps[1..][i] == steps[i + 1];
      QuotaStepsStayWithin(next, steps[1..], quantity);
    }
  }

  /** `n` presses of one key's `+` button. */
  function Presses(key: string, n: nat): (r: seq<Step>)
    ensures |r| == n && forall i :: 0 <= i < n ==> r[i] == Step(key, 1)
  {
    if n == 0 then [] else [Step(key, 1)] + Presses(key, n - 1)
  }

  /** While the total is below the quantity, every `+` press is taken. */
  lemma {:induction false} PressesFill(pool: CountObject, key: string, n: nat, quantity: int)
    requires AllPositive(pool) && Total(pool) + n <= quantity
    ensures Total(ApplyQuotaSteps(pool, Presses(key, n), quantity)) == Total(pool) + n
    ensures CountOf(ApplyQuotaSteps(pool, Presses(key, n), quantity), key) == CountOf(pool, key) + n
    decreases n
  {
    if n > 0 {
      var next := QuotaChange(pool, key, 1, quantity);
      assert Presses(key, n)[1..] == Presses(key, n - 1);
      PressesFill(next, key, n - 1, quantity);
    }
  }

  /** A `+` press that is taken, followed by a `-` press on the same key, gives back the same count object. */
  lemma QuotaIncrementUndone(pool: CountObject, key: string, quantity: int)
    requires AllPositive(pool) && Total(pool) < quantity
    ensures QuotaChange(QuotaChange(pool, key, 1, quantity), key, -1, quantity) == pool
  {
    var up := QuotaChange(pool, key, 1, quantity);
    if HasName(pool, key) {
      var c := CountOf(pool, key);
      assert up == SetAll(pool, key, c + 1);
      assert HasName(up, key);
      SetAllTwice(pool, key, c + 1, c);
      SetAllSame(pool, key);
    } else {
      assert up == pool + [Entry(key, 1)];
      AppendFacts(pool, Entry(key, 1));
      FilterOutAbsent(pool, key);
    }
  }

  /**
   * A `-` press followed by a `+` press restores every count, but not always
   * the order: a key that reached zero comes back at the end.
   */
  lemma QuotaDecrementUndone(pool: CountObject, key: string, quantity: int)
    requires AllPositive(pool) && HasName(pool, key) && Total(pool) <= quantity
    ensures forall k :: CountOf(QuotaChange(QuotaChange(pool, key, -1, quantity), key, 1, quantity), k) == CountOf(pool, k)
  {
  }

  lemma QuotaDecrementReorders()
    ensures QuotaChange(QuotaChange([Entry("3分熟", 1), Entry("全熟", 1)], "3分熟", -1, 2), "3分熟", 1, 2)
      == [Entry("全熟", 1), Entry("3分熟", 1)]
  {
    var pool: CountObject := [Entry("3分熟", 1), Entry("全熟", 1)];
    var down := QuotaChange(pool, "3分熟", -1, 2);
    assert CountOf(pool, "3分熟") == 1;
    assert down == FilterOut(pool, "3分熟");
    assert down == [Entry("全熟", 1)];
    assert !HasName(down, "3分熟");
    assert Total(down) == 1;
  }

  // ---------------------------------------------------------------------------
  // Sauces: a list whose total may not pass `quantity * saucesPerItem`.

  /** `item.customizations?.saucesPerItem ?? 2`. */
  function SaucesPerItem(c: Customizations): int {
    c.saucesPerItem.GetOr(2)
  }

  /** `totalSauceLimit`. */
  function SauceLimit(item: MenuItem, quantity: int): int {
    quantity * SaucesPerItem(item.customizations)
  }

  /** On every catalogue item with a sauce choice, the sauce limit is the quantity (one sauce per portion) or twice it. */
  lemma MenuSauceLimit(it: MenuItem, quantity: int)
    requires it in AllItems(MENU_DATA)
    ensures SauceLimit(it, quantity) == (if it.customizations.saucesPerItem.Some? then quantity else 2 * quantity)
    ensures it.customizations.saucesPerItem.Some? ==> it.customizations.sauceChoice
  {
    SaucesPerItemIsOne();
  }

  /** When `handleSauceChange` takes a change. */
  predicate SauceAccepts(prev: seq<Entry>, name: string, change: int, limit: int) {
    if HasName(prev, name) then CountOf(prev, name) + change >= 0 && !(Total(prev) >= limit && change > 0)
    else change > 0 && Total(prev) < limit
  }

  /**
   * `handleSauceChange`: a listed sauce moves by `change` and leaves the list at
   * zero; a sauce not yet listed enters with one portion, whatever positive
   * `change` is.
   */
  function SauceChange(prev: seq<Entry>, name: string, change: int, limit: int): (r: seq<Entry>)
    ensures !SauceAccepts(prev, name, change, limit) ==> r == prev
    ensures SauceAccepts(prev, name, change, limit) && !HasName(prev, name) ==> r == prev + [Entry(name, 1)]
    ensures SauceAccepts(prev, name, change, limit) && HasName(prev, name) ==>
      CountOf(r, name) == CountOf(prev, name) + change &&
      (HasName(r, name) <==> CountOf(prev, name) + change != 0)
    ensures FilterOut(r, name) == FilterOut(prev, name)
    ensures DistinctNames(prev) ==> DistinctNames(r)
    ensures DistinctNames(prev) ==>
      Total(r) == Total(prev) + (if !SauceAccepts(prev, name, change, limit) then 0 else if HasName(prev, name) then change else 1)
    ensures AllPositive(prev) ==> AllPositive(r)
    ensures DistinctNames(prev) && Total(prev) <= limit && change <= 1 ==> Total(r) <= limit
  {
    match Find(prev, name)
    case Some(existing) =>
      var newQuantity := existing.quantity + change;
      if newQuantity < 0 then prev
      else if Total(prev) >= limit && change > 0 then prev
      else if newQuantity == 0 then
        FilterOutFacts(prev, name);
        FilterOutTwice(prev, name);
        FilterOut(prev, name)
      else
        SetAllFacts(prev, name, newQuantity);
        SetAll(prev, name, newQuantity)
    case None =>
      if change > 0 && Total(prev) < limit then
        AppendFacts(prev, Entry(name, 1));
        prev + [Entry(name, 1)]
      else prev
  }

  /** A `+` press on a sauce that is taken, followed by a `-` press, gives back the same list. */
  lemma SauceIncrementUndone(prev: seq<Entry>, name: string, limit: int)
    requires DistinctNames(prev) && AllPositive(prev) && Total(prev) < limit
    ensures SauceChange(SauceChange(prev, name, 1, limit), name, -1, limit) == prev
  {
    var up := SauceChange(prev, name, 1, limit);
    if HasName(prev, name) {
      var c := CountOf(prev, name);
      assert up == SetAll(prev, name, c + 1);
      SetAllCounts(prev, name, c + 1, name);
      SetAllTwice(prev, name, c + 1, c);
      SetAllSame(prev, name);
    } else {
      AppendFacts(prev, Entry(name, 1));
      FilterOutAbsent(prev, name);
    }
  }

  // ---------------------------------------------------------------------------
  // Desserts: two groups, each capped at the item quantity on a dessert item.

  /** The cap a `+` press meets on a dessert item: group A for its own names, group B for every other name. */
  predicate DessertBlocked(prev: seq<Entry>, name: string, change: int, quantity: int, isDessertSelectionItem: bool) {
    isDessertSelectionItem && change > 0 &&
    GroupTotal(prev, if name in DESSERT_CHOICES then DESSERT_CHOICES else ICECREAM_CHOICES) >= quantity
  }

  /**
   * `handleDessertChange`: past the cap, a listed dessert moves by `change` and
   * leaves the list at zero or below; an unlisted one enters with one portion
   * on a positive change.
   */
  function DessertChange(prev: seq<Entry>, name: string, change: int, quantity: int, isDessertSelectionItem: bool): (r: seq<Entry>)
    ensures DessertBlocked(prev, name, change, quantity, isDessertSelectionItem) ==> r == prev
    ensures !DessertBlocked(prev, name, change, quantity, isDessertSelectionItem) && !HasName(prev, name) ==>
      r == if change > 0 then prev + [Entry(name, 1)] else prev
    ensures !DessertBlocked(prev, name, change, quantity, isDessertSelectionItem) && HasName(prev, name) ==>
      (HasName(r, name) <==> CountOf(prev, name) + change > 0) &&
      (CountOf(prev, name) + change > 0 ==> CountOf(r, name) == CountOf(prev, name) + change)
    ensures FilterOut(r, name) == FilterOut(prev, name)
    ensures forall g :: name !in g ==> GroupTotal(r, g) == GroupTotal(prev, g)
    ensures DistinctNames(prev) ==> DistinctNames(r)
    ensures AllPositive(prev) ==> AllPositive(r)
  {
    if isDessertSelectionItem && change > 0 && name in DESSERT_CHOICES && GroupTotal(prev, DESSERT_CHOICES) >= quantity then prev
    else if isDessertSelectionItem && change > 0 && name !in DESSERT_CHOICES && GroupTotal(prev, ICECREAM_CHOICES) >= quantity then prev
    else
      match Find(prev, name)
      case Some(existing) =>
        var newQuantity := existing.quantity + change;
        if newQuantity <= 0 then
          FilterOutFacts(prev, name);
          FilterOutTwice(prev, name);
          FilterOut(prev, name)
        else
          SetAllFacts(prev, name, newQuantity);
          SetAll(prev, name, newQuantity)
      case None =>
        if change > 0 then
          AppendFacts(prev, Entry(name, 1));
          prev + [Entry(name, 1)]
        else prev
  }

  /** A dessert's change moves its own group's total by as much as its count moves. */
  lemma DessertGroupDelta(prev: seq<Entry>, name: string, change: int, quantity: int, isDessertSelectionItem: bool, g: seq<string>)
    requires DistinctNames(prev) && name in g
    ensures GroupTotal(DessertChange(prev, name, change, quantity, isDessertSelectionItem), g) ==
      GroupTotal(prev, g) - CountOf(prev, name) + CountOf(DessertChange(prev, name, change, quantity, isDessertSelectionItem), name)
  {
    var r := DessertChange(prev, name, change, quantity, isDessertSelectionItem);
    if DessertBlocked(prev, name, change, quantity, isDessertSelectionItem) {
      assert r == prev;
    } else if HasName(prev, name) {
      var q := CountOf(prev, name) + change;
      assert Find(prev, name).Some? && Find(prev, name).value.quantity + change == q;
      assert !(isDessertSelectionItem && change > 0 && name in DESSERT_CHOICES && GroupTotal(prev, DESSERT_CHOICES) >= quantity);
      assert !(isDessertSelectionItem && change > 0 && name !in DESSERT_CHOICES && GroupTotal(prev, ICECREAM_CHOICES) >= quantity);
      if q <= 0 {
        assert r == FilterOut(prev, name);
        RemovedGroupDelta(prev, name, g);
      } else {
        assert r == SetAll(prev, name, q);
        SetGroupDelta(prev, name, q, g);
      }
    } else if change > 0 {
      assert r == prev + [Entry(name, 1)];
      AppendedGroupDelta(prev, name, g);
    } else {
      assert r == prev;
    }
  }

  lemma RemovedGroupDelta(prev: seq<Entry>, name: string, g: seq<string>)
    requires DistinctNames(prev) && name in g
    ensures GroupTotal(FilterOut(prev, name), g) == GroupTotal(prev, g) - CountOf(prev, name) + CountOf(FilterOut(prev, name), name)
  {
    FilterOutGroupTotal(prev, name, g);
    FilterOutRemoves(prev, name);
  }

  lemma SetGroupDelta(prev: seq<Entry>, name: string, q: int, g: seq<string>)
    requires DistinctNames(prev) && name in g && HasName(prev, name)
    ensures GroupTotal(SetAll(prev, name, q), g) == GroupTotal(prev, g) - CountOf(prev, name) + CountOf(SetAll(prev, name, q), name)
  {
    SetAllGroupTotal(prev, name, q, g);
    SetAllCounts(prev, name, q, name);
  }

  lemma AppendedGroupDelta(prev: seq<Entry>, name: string, g: seq<string>)
    requires name in g && !HasName(prev, name)
    ensures GroupTotal(prev + [Entry(name, 1)], g) == GroupTotal(prev, g) - CountOf(prev, name) + CountOf(prev + [Entry(name, 1)], name)
  {
    AppendNames(prev, Entry(name, 1));
    AppendSums(prev, Entry(name, 1));
  }

  /**
   * On a dessert item, +1/-1 presses keep each group's total within the item
   * quantity: a name of group A only moves group A, any other name only group B.
   */
  lemma DessertGroupsStayWithin(prev: seq<Entry>, name: string, change: int, quantity: int)
    requires DistinctNames(prev) && AllPositive(prev) && change <= 1
    requires GroupTotal(prev, DESSERT_CHOICES) <= quantity && GroupTotal(prev, ICECREAM_CHOICES) <= quantity
    ensures GroupTotal(DessertChange(prev, name, change, quantity, true), DESSERT_CHOICES) <= quantity
    ensures GroupTotal(DessertChange(prev, name, change, quantity, true), ICECREAM_CHOICES) <= quantity
  {
    var r := DessertChange(prev, name, change, quantity, true);
    DessertGroupsDisjoint();
    var own := if name in DESSERT_CHOICES then DESSERT_CHOICES else ICECREAM_CHOICES;
    if name in own {
      DessertGroupDelta(prev, name, change, quantity, true, own);
      if r != prev {
        assert CountOf(r, name) <= CountOf(prev, name) + (if change > 0 then 1 else 0) by {
          if HasName(prev, name) {
            assert CountOf(prev, name) + change > 0 ==> CountOf(r, name) == CountOf(prev, name) + change;
          } else {
            AppendFacts(prev, Entry(name, 1));
          }
        }
      }
    }
  }

  /** A `+` press on a dessert that is taken, followed by a `-` press, gives back the same list. */
  lemma DessertIncrementUndone(prev: seq<Entry>, name: string, quantity: int, isDessertSelectionItem: bool)
    requires DistinctNames(prev) && AllPositive(prev)
    requires !DessertBlocked(prev, name, 1, quantity, isDessertSelectionItem)
    ensures DessertChange(DessertChange(prev, name, 1, quantity, isDessertSelectionItem), name, -1, quantity, isDessertSelectionItem) == prev
  {
    var up := DessertChange(prev, name, 1, quantity, isDessertSelectionItem);
    if HasName(prev, name) {
      var c := CountOf(prev, name);
      assert up == SetAll(prev, name, c + 1);
      SetAllCounts(prev, name, c + 1, name);
      SetAllTwice(prev, name, c + 1, c);
      SetAllSame(prev, name);
    } else {
      AppendFacts(prev, Entry(name, 1));
      FilterOutAbsent(prev, name);
    }
  }

  // ---------------------------------------------------------------------------
  // Add-ons: no cap, but a sold-out add-on cannot be added.

  /** The price the add-on total charges per portion of an add-on: the listed entry's own, else the add-on's. */
  function UnitPrice(prev: seq<SelectedAddon>, addon: Addon): int {
    match FindAddon(prev, addon.id)
    case Some(e) => e.addon.price
    case None => addon.price
  }

  /**
   * `handleAddonQuantityChange`: an increase of a sold-out add-on is ignored;
   * otherwise a listed add-on moves by `change` and leaves the list at zero or
   * below, and an unlisted one enters with `change` portions when that is positive.
   */
  function AddonChange(prev: seq<SelectedAddon>, addon: Addon, change: int): (r: seq<SelectedAddon>)
    ensures !addon.isAvailable && change > 0 ==> r == prev
    ensures addon.isAvailable || change <= 0 ==>
      AddonCount(r, addon.id) == (if AddonCount(prev, addon.id) + change > 0 then AddonCount(prev, addon.id) + change else 0) &&
      (HasAddon(r, addon.id) <==> AddonCount(prev, addon.id) + change > 0)
    ensures HasAddon(r, addon.id) ==>
      FindAddon(r, addon.id).value.addon == if HasAddon(prev, addon.id) then FindAddon(prev, addon.id).value.addon else addon
    ensures WithoutAddon(r, addon.id) == WithoutAddon(prev, addon.id)
    ensures (addon.isAvailable || change <= 0) && !HasAddon(prev, addon.id) ==>
      r == if change > 0 then prev + [SelectedAddon(addon, change)] else prev
    ensures DistinctAddonIds(prev) ==> DistinctAddonIds(r)
    ensures AddonsPositive(prev) ==> AddonsPositive(r)
  {
    if !addon.isAvailable && change > 0 then prev
    else
      match FindAddon(prev, addon.id)
      case Some(existing) =>
        var newQuantity := existing.quantity + change;
        if newQuantity <= 0 then
          WithoutAddonFacts(prev, addon.id);
          WithoutAddonDistinct(prev, addon.id);
          WithoutAddon(prev, addon.id)
        else
          SetAddonFacts(prev, addon.id, newQuantity);
          SetAddonFound(prev, addon.id, newQuantity);
          SetAddonQuantity(prev, addon.id, newQuantity)
      case None =>
        if change > 0 then
          AppendAddonFacts(prev, SelectedAddon(addon, change));
          AppendAddonFound(prev, SelectedAddon(addon, change));
          prev + [SelectedAddon(addon, change)]
        else prev
  }

  /** The add-on total moves by the unit price times the change in the add-on's count. */
  lemma AddonChangeTotal(prev: seq<SelectedAddon>, addon: Addon, change: int)
    requires DistinctAddonIds(prev)
    ensures AddonTotal(AddonChange(prev, addon, change)) ==
      AddonTotal(prev) + UnitPrice(prev, addon) * (AddonCount(AddonChange(prev, addon, change), addon.id) - AddonCount(prev, addon.id))
  {
    var r := AddonChange(prev, addon, change);
    if !addon.isAvailable && change > 0 {
      assert r == prev;
    } else if HasAddon(prev, addon.id) {
      var existing := FindAddon(prev, addon.id).value;
      assert UnitPrice(prev, addon) == existing.addon.price && AddonCount(prev, addon.id) == existing.quantity;
      var q := existing.quantity + change;
      if q <= 0 {
        assert r == WithoutAddon(prev, addon.id);
        assert AddonCount(r, addon.id) == 0;
        SetListedTotal(prev, existing, 0);
      } else {
        assert r == SetAddonQuantity(prev, addon.id, q);
        assert AddonCount(r, addon.id) == q;
        SetListedTotal(prev, existing, q);
      }
    } else if change > 0 {
      assert r == prev + [SelectedAddon(addon, change)];
      AppendAddonFacts(prev, SelectedAddon(addon, change));
      assert AddonCount(r, addon.id) == change && AddonCount(prev, addon.id) == 0;
    } else {
      assert r == prev;
    }
  }

  /**
   * Setting a listed add-on's count to `q`, by removal when `q` is 0 and by
   * the quantity `map` otherwise, moves the total by its price times the change.
   */
  lemma SetListedTotal(prev: seq<SelectedAddon>, e: SelectedAddon, q: int)
    requires DistinctAddonIds(prev) && e in prev
    ensures AddonTotal(WithoutAddon(prev, e.addon.id)) == AddonTotal(prev) + e.addon.price * (0 - e.quantity)
    ensures AddonTotal(SetAddonQuantity(prev, e.addon.id, q)) == AddonTotal(prev) + e.addon.price * (q - e.quantity)
  {
    WithoutAddonTotal(prev, e);
    SetAddonTotal(prev, e, q);
    assert e.addon.price * (q - e.quantity) == e.addon.price * q - e.addon.price * e.quantity;
  }

  /** A `+` press on an available add-on, followed by a `-` press, gives back the same list. */
  lemma AddonIncrementUndone(prev: seq<SelectedAddon>, addon: Addon)
    requires DistinctAddonIds(prev) && AddonsPositive(prev) && addon.isAvailable
    ensures AddonChange(AddonChange(prev, addon, 1), addon, -1) == prev
  {
    var up := AddonChange(prev, addon, 1);
    match FindAddon(prev, addon.id)
    case Some(existing) =>
      var c := existing.quantity;
      assert up == SetAddonQuantity(prev, addon.id, c + 1);
      SetAddonFound(prev, addon.id, c + 1);
      SetAddonFacts(prev, addon.id, c + 1);
      var stored := FindAddon(up, addon.id).value;
      assert stored == existing.(quantity := c + 1);
      assert SetAddonQuantity(up, addon.id, c) == SetAddonQuantity(prev, addon.id, c);
      SetAddonSame(prev, existing);
    case None =>
      AppendAddonFacts(prev, SelectedAddon(addon, 1));
      AppendAddonFound(prev, SelectedAddon(addon, 1));
      WithoutAddonFacts(prev, addon.id);
  }
}
