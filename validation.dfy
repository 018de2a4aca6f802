/**
 * The checks `handleSubmit` runs before it hands the selection to the cart
 * (ItemModal.tsx): one message per incomplete allocation, in a fixed order.
 */
module Validation {
  import opened Wrappers
  import opened Entries
  import opened Types
  import opened Catalog
  import opened AddonList
  import opened Allocation

  /**
   * The messages `handleSubmit` can push, with the figures each one quotes:
   * the item quantity, and for sauces also the total sauce limit; the
   * multi-choice message also quotes the multi-choice title.
   */
  datatype Violation =
    | DonenessIncomplete(quantity: int)
    | DrinkIncomplete(quantity: int)
    | SauceIncomplete(quantity: int, limit: int)
    | MultiChoiceIncomplete(title: string, quantity: int)
    | DessertIncomplete(quantity: int)

  /** The position of each message in the list. */
  function Rank(v: Violation): nat {
    match v
    case DonenessIncomplete(_) => 0
    case DrinkIncomplete(_) => 1
    case SauceIncomplete(_, _) => 2
    case MultiChoiceIncomplete(_, _) => 3
    case DessertIncomplete(_) => 4
  }

  /** Everything the modal holds besides the quantity: the `options` object it passes on. */
  datatype Selections = Selections(
    donenesses: CountObject,
    drinks: CountObject,
    addons: seq<SelectedAddon>,
    sauces: seq<Entry>,
    desserts: seq<Entry>,
    notes: string,
    singleChoiceAddon: Option<string>,
    multiChoice: CountObject)

  /** Each portion has a doneness. */
  predicate DonenessDone(item: MenuItem, quantity: int, s: Selections) {
    item.customizations.doneness ==> Total(s.donenesses) == quantity
  }

  /** Each portion has a drink. */
  predicate DrinkDone(item: MenuItem, quantity: int, s: Selections) {
    item.customizations.drinkChoice ==> Total(s.drinks) == quantity
  }

  /** Exactly the sauce limit is chosen. */
  predicate SauceDone(item: MenuItem, quantity: int, s: Selections) {
    item.customizations.sauceChoice ==> Total(s.sauces) == SauceLimit(item, quantity)
  }

  /** Each portion has a multi-choice option. */
  predicate MultiChoiceDone(item: MenuItem, quantity: int, s: Selections) {
    item.customizations.multiChoice.Some? ==> Total(s.multiChoice) == quantity
  }

  /** Each portion has one dessert of group A and one of group B. */
  predicate DessertDone(item: MenuItem, quantity: int, s: Selections) {
    item.customizations.dessertChoice ==>
      GroupTotal(s.desserts, DESSERT_CHOICES) == quantity && GroupTotal(s.desserts, ICECREAM_CHOICES) == quantity
  }

  predicate AllocationComplete(item: MenuItem, quantity: int, s: Selections) {
    DonenessDone(item, quantity, s) && DrinkDone(item, quantity, s) && SauceDone(item, quantity, s) &&
    MultiChoiceDone(item, quantity, s) && DessertDone(item, quantity, s)
  }

  /** `v` quotes this item's figures. */
  predicate Names(item: MenuItem, quantity: int, v: Violation) {
    match v
    case DonenessIncomplete(q) => q == quantity
    case DrinkIncomplete(q) => q == quantity
    case SauceIncomplete(q, limit) => q == quantity && limit == SauceLimit(item, quantity)
    case MultiChoiceIncomplete(title, q) =>
      q == quantity && item.customizations.multiChoice.Some? && title == item.customizations.multiChoice.value.title
    case DessertIncomplete(q) => q == quantity
  }

  /** The allocation `v` complains about is incomplete. */
  predicate Fails(item: MenuItem, quantity: int, s: Selections, v: Violation) {
    match v
    case DonenessIncomplete(_) => !DonenessDone(item, quantity, s)
    case DrinkIncomplete(_) => !DrinkDone(item, quantity, s)
    case SauceIncomplete(_, _) => !SauceDone(item, quantity, s)
    case MultiChoiceIncomplete(_, _) => !MultiChoiceDone(item, quantity, s)
    case DessertIncomplete(_) => !DessertDone(item, quantity, s)
  }

  /** The message of the check of rank `k`, with this item's figures. */
  function Message(item: MenuItem, quantity: int, k: nat): (v: Violation)
    requires k < 5
    requires k == 3 ==> item.customizations.multiChoice.Some?
    ensures Rank(v) == k && Names(item, quantity, v)
  {
    if k == 0 then DonenessIncomplete(quantity)
    else if k == 1 then DrinkIncomplete(quantity)
    else if k == 2 then SauceIncomplete(quantity, SauceLimit(item, quantity))
    else if k == 3 then MultiChoiceIncomplete(item.customizations.multiChoice.value.title, quantity)
    else DessertIncomplete(quantity)
  }

  /** Whether the check of rank `k` fails. */
  predicate CheckFails(item: MenuItem, quantity: int, s: Selections, k: nat) {
    if k == 0 then !DonenessDone(item, quantity, s)
    else if k == 1 then !DrinkDone(item, quantity, s)
    else if k == 2 then !SauceDone(item, quantity, s)
    else if k == 3 then !MultiChoiceDone(item, quantity, s)
    else !DessertDone(item, quantity, s)
  }

  /** The messages of the checks from rank `k` on, as `handleSubmit` pushes them. */
  function ChecksFrom(item: MenuItem, quantity: int, s: Selections, k: nat): (r: seq<Violation>)
    requires k <= 5
    ensures forall v :: v in r <==> k <= Rank(v) && Names(item, quantity, v) && Fails(item, quantity, s, v)
    ensures forall i, j :: 0 <= i < j < |r| ==> Rank(r[i]) < Rank(r[j])
    decreases 5 - k
  {
    if k == 5 then []
    else
      var rest := ChecksFrom(item, quantity, s, k + 1);
      if CheckFails(item, quantity, s, k) then
        var v := Message(item, quantity, k);
        assert forall w :: k <= Rank(w) && Names(item, quantity, w) && Rank(w) == k ==> w == v;
        [v] + rest
      else rest
  }

  /**
   * The `errors` list: a message appears exactly when its allocation is
   * incomplete, quoting this item's figures, in the order the checks run.
   */
  function Validate(item: MenuItem, quantity: int, s: Selections): (r: seq<Violation>)
    ensures forall v :: v in r <==> Names(item, quantity, v) && Fails(item, quantity, s, v)
    ensures forall i, j :: 0 <= i < j < |r| ==> Rank(r[i]) < Rank(r[j])
    ensures r == [] <==> AllocationComplete(item, quantity, s)
  {
    SomeCheckFails(item, quantity, s);
    ChecksFrom(item, quantity, s, 0)
  }

  lemma SomeCheckFails(item: MenuItem, quantity: int, s: Selections)
    ensures !AllocationComplete(item, quantity, s) ==> exists v :: Names(item, quantity, v) && Fails(item, quantity, s, v)
  {
    if !AllocationComplete(item, quantity, s) {
      var k: nat := if !DonenessDone(item, quantity, s) then 0 else if !DrinkDone(item, quantity, s) then 1
        else if !SauceDone(item, quantity, s) then 2 else if !MultiChoiceDone(item, quantity, s) then 3 else 4;
      assert Fails(item, quantity, s, Message(item, quantity, k));
    }
  }

  /** Each message, with this item's figures, is listed exactly when its own check fails. */
  lemma ValidateByKind(item: MenuItem, quantity: int, s: Selections)
    ensures DonenessIncomplete(quantity) in Validate(item, quantity, s) <==> !DonenessDone(item, quantity, s)
    ensures DrinkIncomplete(quantity) in Validate(item, quantity, s) <==> !DrinkDone(item, quantity, s)
    ensures SauceIncomplete(quantity, SauceLimit(item, quantity)) in Validate(item, quantity, s) <==> !SauceDone(item, quantity, s)
    ensures item.customizations.multiChoice.Some? ==>
      var v := MultiChoiceIncomplete(item.customizations.multiChoice.value.title, quantity);
      v in Validate(item, quantity, s) <==> !MultiChoiceDone(item, quantity, s)
    ensures DessertIncomplete(quantity) in Validate(item, quantity, s) <==> !DessertDone(item, quantity, s)
  {
    var r := Validate(item, quantity, s);
    assert Names(item, quantity, DonenessIncomplete(quantity)) && Names(item, quantity, DrinkIncomplete(quantity));
    assert Names(item, quantity, SauceIncomplete(quantity, SauceLimit(item, quantity)));
    assert Names(item, quantity, DessertIncomplete(quantity));
  }

  /** At most one message per check. */
  lemma ValidateAtMostFive(item: MenuItem, quantity: int, s: Selections)
    ensures |Validate(item, quantity, s)| <= 5
  {
    var r := Validate(item, quantity, s);
    if |r| > 5 {
      RanksClimb(r, 5);
    }
  }

  lemma {:induction false} RanksClimb(r: seq<Violation>, i: nat)
    requires forall i, j :: 0 <= i < j < |r| ==> Rank(r[i]) < Rank(r[j])
    requires i < |r|
    ensures Rank(r[i]) >= i
  {
    if i > 0 {
      RanksClimb(r, i - 1);
    }
  }

  /** The notes, the single choice and the add-ons are never checked. */
  lemma ValidateIgnoresExtras(item: MenuItem, quantity: int, s: Selections, notes: string, choice: Option<string>, addons: seq<SelectedAddon>)
    ensures Validate(item, quantity, s.(notes := notes, singleChoiceAddon := choice, addons := addons)) == Validate(item, quantity, s)
  {
    ChecksIgnoreExtras(item, quantity, s, s.(notes := notes, singleChoiceAddon := choice, addons := addons), 0);
  }

  lemma {:induction false} ChecksIgnoreExtras(item: MenuItem, quantity: int, s: Selections, t: Selections, k: nat)
    requires k <= 5
    requires t.donenesses == s.donenesses && t.drinks == s.drinks && t.sauces == s.sauces
    requires t.desserts == s.desserts && t.multiChoice == s.multiChoice
    ensures ChecksFrom(item, quantity, t, k) == ChecksFrom(item, quantity, s, k)
    decreases 5 - k
  {
    if k < 5 {
      ChecksIgnoreExtras(item, quantity, s, t, k + 1);
    }
  }

  /** An item without customizations is never held back, whatever the selection holds. */
  lemma PlainItemAlwaysValid(item: MenuItem, quantity: int, s: Selections)
    requires item.customizations == NO_CUSTOMIZATIONS
    ensures Validate(item, quantity, s) == []
  {
  }

  /**
   * Pressing `+` on one doneness, starting from none, as many times as there
   * are portions completes the doneness allocation: the cap never stops a press
   * that is still needed.
   */
  lemma DonenessCanBeCompleted(item: MenuItem, quantity: nat, s: Selections, d: DonenessLevel)
    requires s.donenesses == []
    ensures var filled := s.(donenesses := ApplyQuotaSteps([], Presses(DonenessLabel(d), quantity), quantity));
      DonenessDone(item, quantity, filled)
  {
    PressesFill([], DonenessLabel(d), quantity, quantity);
  }
}
