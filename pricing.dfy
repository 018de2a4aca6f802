/** The price the item modal shows on its confirm button (ItemModal.tsx). */
module Pricing {
  import opened Wrappers
  import opened Types
  import opened AddonList
  import opened Allocation

  /** A chosen single-choice option is truthy: present and not the empty string. */
  predicate Chosen(selected: Option<string>) {
    selected.Some? && selected.value != ""
  }

  /** `singleChoiceAddonPrice`: the item's surcharge when an option is chosen and the item offers one, else 0. */
  function SingleChoicePrice(item: MenuItem, selected: Option<string>): int {
    if Chosen(selected) && item.customizations.singleChoiceAddon.Some? then item.customizations.singleChoiceAddon.value.price
    else 0
  }

  /** `totalPrice`: the per-portion price times the quantity, plus the add-ons once. */
  function TotalPrice(item: MenuItem, quantity: int, selected: Option<string>, addons: seq<SelectedAddon>): int {
    (item.price + SingleChoicePrice(item, selected)) * quantity + AddonTotal(addons)
  }

  /**
   * The surcharge does not depend on which option is chosen, and the empty
   * string costs what no choice costs.
   */
  lemma SingleChoicePriceIgnoresOption(item: MenuItem, a: string, b: string)
    requires a != "" && b != ""
    ensures SingleChoicePrice(item, Some(a)) == SingleChoicePrice(item, Some(b))
    ensures SingleChoicePrice(item, Some("")) == SingleChoicePrice(item, None) == 0
  {
  }

  /**
   * One more portion adds the item price and the surcharge, and nothing for
   * the add-ons: they are charged once whatever the quantity.
   */
  lemma QuantityStepPrice(item: MenuItem, quantity: int, selected: Option<string>, addons: seq<SelectedAddon>)
    ensures TotalPrice(item, quantity + 1, selected, addons) ==
      TotalPrice(item, quantity, selected, addons) + item.price + SingleChoicePrice(item, selected)
  {
  }

  /** An add-on press moves the total by the add-on's unit price times the change of its count. */
  lemma AddonStepPrice(item: MenuItem, quantity: int, selected: Option<string>, addons: seq<SelectedAddon>, addon: Addon, change: int)
    requires DistinctAddonIds(addons)
    ensures TotalPrice(item, quantity, selected, AddonChange(addons, addon, change)) ==
      TotalPrice(item, quantity, selected, addons) +
      UnitPrice(addons, addon) * (AddonCount(AddonChange(addons, addon, change), addon.id) - AddonCount(addons, addon.id))
  {
    AddonChangeTotal(addons, addon, change);
  }

  predicate PricesNonNegative(addons: seq<SelectedAddon>) {
    forall i :: 0 <= i < |addons| ==> addons[i].addon.price >= 0
  }

  lemma {:induction false} AddonTotalNonNegative(addons: seq<SelectedAddon>)
    requires AddonsPositive(addons) && PricesNonNegative(addons)
    ensures AddonTotal(addons) >= 0
  {
    if addons != [] {
      assert forall i :: 0 <= i < |addons| - 1 ==> addons[1..][i] == addons[i + 1];
      AddonTotalNonNegative(addons[1..]);
      assert addons[0].addon.price * addons[0].quantity >= 0;
    }
  }

  /** With prices that are not negative, the total is at least the item price times the quantity. */
  lemma TotalPriceAtLeastBase(item: MenuItem, quantity: nat, selected: Option<string>, addons: seq<SelectedAddon>)
    requires AddonsPositive(addons) && PricesNonNegative(addons)
    requires item.customizations.singleChoiceAddon.Some? ==> item.customizations.singleChoiceAddon.value.price >= 0
    ensures TotalPrice(item, quantity, selected, addons) >= item.price * quantity
  {
    AddonTotalNonNegative(addons);
    var sc := SingleChoicePrice(item, selected);
    assert (item.price + sc) * quantity == item.price * quantity + sc * quantity;
    assert sc * quantity >= 0;
  }
}
