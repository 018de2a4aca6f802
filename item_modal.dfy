/**
 * The item modal component (ItemModal.tsx) as an object: its `useState` slots
 * are fields, each handler is a method that replaces the slots it sets, and
 * its derived values (`useMemo` and plain consts) are functions of the fields.
 */
module ItemModal {
  import opened Wrappers
  import opened Entries
  import opened Types
  import opened AddonList
  import opened Allocation
  import opened Validation
  import opened Pricing
  import opened JsString
  import opened AddonGroups

  /** The arguments of `onConfirmSelection(item, quantity, options, category)`. */
  datatype Confirmation = Confirmation(item: MenuItem, quantity: int, options: Selections, category: MenuCategory)

  /** `editingItem.selectedSingleChoiceAddon || null`: the empty string is falsy. */
  function TruthyChoice(c: Option<string>): (r: Option<string>)
    ensures r.Some? <==> Chosen(c)
    ensures r.Some? ==> r == c
  {
    if Chosen(c) then c else None
  }

  /** A cart line whose selections have the shape the modal keeps: no zero count and no key twice. */
  predicate SparseCartItem(e: CartItem) {
    (e.selectedDonenesses.Some? ==> AllPositive(e.selectedDonenesses.value)) &&
    (e.selectedDrinks.Some? ==> AllPositive(e.selectedDrinks.value)) &&
    (e.selectedMultiChoice.Some? ==> AllPositive(e.selectedMultiChoice.value)) &&
    (e.selectedSauces.Some? ==> DistinctNames(e.selectedSauces.value) && AllPositive(e.selectedSauces.value)) &&
    (e.selectedDesserts.Some? ==> DistinctNames(e.selectedDesserts.value) && AllPositive(e.selectedDesserts.value)) &&
    (e.selectedAddons.Some? ==> DistinctAddonIds(e.selectedAddons.value) && AddonsPositive(e.selectedAddons.value))
  }

  class Modal {
    const item: MenuItem
    const category: MenuCategory
    const addons: seq<Addon>

    var quantity: int
    var donenessQuantities: CountObject
    var drinkQuantities: CountObject
    var notes: string
    var selectedAddons: seq<SelectedAddon>
    var selectedSauces: seq<Entry>
    var selectedDesserts: seq<Entry>
    var selectedSingleChoiceAddon: Option<string>
    var multiChoiceQuantities: CountObject
    var validationErrors: seq<Violation>

    /** Every selection is sparse: no key kept at zero, no key twice. */
    predicate Sparse()
      reads this
    {
      AllPositive(donenessQuantities) && AllPositive(drinkQuantities) && AllPositive(multiChoiceQuantities) &&
      DistinctNames(selectedSauces) && AllPositive(selectedSauces) &&
      DistinctNames(selectedDesserts) && AllPositive(selectedDesserts) &&
      DistinctAddonIds(selectedAddons) && AddonsPositive(selectedAddons)
    }

    /** The `useState` initial values. */
    constructor(item: MenuItem, category: MenuCategory, addons: seq<Addon>)
      ensures this.item == item && this.category == category && this.addons == addons
      ensures quantity == 1 && donenessQuantities == [] && drinkQuantities == [] && notes == ""
      ensures selectedAddons == [] && selectedSauces == [] && selectedDesserts == []
      ensures selectedSingleChoiceAddon == None && multiChoiceQuantities == [] && validationErrors == []
      ensures Sparse()
    {
      this.item := item;
      this.category := category;
      this.addons := addons;
      quantity := 1;
      donenessQuantities := [];
      drinkQuantities := [];
      notes := "";
      selectedAddons := [];
      selectedSauces := [];
      selectedDesserts := [];
      selectedSingleChoiceAddon := None;
      multiChoiceQuantities := [];
      validationErrors := [];
    }

    /**
     * The open/reset effect: load the cart line being edited, or the initial
     * values when there is none; always clear the messages.
     */
    method Reset(editing: Option<CartItem>)
      modifies this
      ensures editing.None? ==>
        quantity == 1 && donenessQuantities == [] && drinkQuantities == [] && notes == "" &&
        selectedAddons == [] && selectedSauces == [] && selectedDesserts == [] &&
        selectedSingleChoiceAddon == None && multiChoiceQuantities == []
      ensures editing.Some? ==>
        var e := editing.value;
        quantity == e.quantity &&
        donenessQuantities == e.selectedDonenesses.GetOr([]) && drinkQuantities == e.selectedDrinks.GetOr([]) &&
        selectedSauces == e.selectedSauces.GetOr([]) && selectedAddons == e.selectedAddons.GetOr([]) &&
        selectedDesserts == e.selectedDesserts.GetOr([]) && notes == e.selectedNotes.GetOr("") &&
        selectedSingleChoiceAddon == TruthyChoice(e.selectedSingleChoiceAddon) &&
        multiChoiceQuantities == e.selectedMultiChoice.GetOr([])
      ensures validationErrors == []
      ensures editing.None? || SparseCartItem(editing.value) ==> Sparse()
    {
      validationErrors := [];
      match editing
      case Some(e) =>
        quantity := e.quantity;
        donenessQuantities := e.selectedDonenesses.GetOr([]);
        drinkQuantities := e.selectedDrinks.GetOr([]);
        selectedSauces := e.selectedSauces.GetOr([]);
        selectedAddons := e.selectedAddons.GetOr([]);
        selectedDesserts := e.selectedDesserts.GetOr([]);
        notes := e.selectedNotes.GetOr("");
        selectedSingleChoiceAddon := TruthyChoice(e.selectedSingleChoiceAddon);
        multiChoiceQuantities := e.selectedMultiChoice.GetOr([]);
      case None =>
        quantity := 1;
        donenessQuantities := [];
        drinkQuantities := [];
        selectedSauces := [];
        selectedAddons := [];
        selectedDesserts := [];
        notes := "";
        selectedSingleChoiceAddon := None;
        multiChoiceQuantities := [];
    }

    // -------------------------------------------------------------------------
    // Derived values.

    function AllocatedDonenessCount(): int
      reads this
    {
      Total(donenessQuantities)
    }

    function AllocatedDrinkCount(): int
      reads this
    {
      Total(drinkQuantities)
    }

    function AllocatedMultiChoiceCount(): int
      reads this
    {
      Total(multiChoiceQuantities)
    }

    function TotalSauceLimit(): int
      reads this
    {
      SauceLimit(item, quantity)
    }

    /** The `options` object of the current state, with the notes as typed. */
    function CurrentSelections(): Selections
      reads this
    {
      Selections(donenessQuantities, drinkQuantities, selectedAddons, selectedSauces, selectedDesserts,
        notes, selectedSingleChoiceAddon, multiChoiceQuantities)
    }

    /** The price on the confirm button. */
    function ShownPrice(): int
      reads this
    {
      TotalPrice(item, quantity, selectedSingleChoiceAddon, selectedAddons)
    }

    /** The main-course add-on section and the other sections. */
    function MainCourseSection(): Option<Group>
      reads this
    {
      MainCourseAddonGroup(GroupByCategory(addons))
    }

    function OtherSections(): seq<Group>
      reads this
    {
      OtherAddonGroups(GroupByCategory(addons))
    }

    // -------------------------------------------------------------------------
    // Handlers.

    /** `handleDonenessChange`. */
    method ChangeDoneness(d: DonenessLevel, change: int)
      modifies this`donenessQuantities
      ensures donenessQuantities == QuotaChange(old(donenessQuantities), DonenessLabel(d), change, quantity)
      ensures old(Sparse()) ==> Sparse()
      ensures old(AllocatedDonenessCount()) <= quantity && change <= 1 ==> AllocatedDonenessCount() <= quantity
    {
      donenessQuantities := QuotaChange(donenessQuantities, DonenessLabel(d), change, quantity);
    }

    /** `handleDrinkChange`. */
    method ChangeDrink(drink: string, change: int)
      modifies this`drinkQuantities
      ensures drinkQuantities == QuotaChange(old(drinkQuantities), drink, change, quantity)
      ensures old(Sparse()) ==> Sparse()
      ensures old(AllocatedDrinkCount()) <= quantity && change <= 1 ==> AllocatedDrinkCount() <= quantity
    {
      drinkQuantities := QuotaChange(drinkQuantities, drink, change, quantity);
    }

    /** `handleMultiChoiceChange`. */
    method ChangeMultiChoice(option: string, change: int)
      modifies this`multiChoiceQuantities
      ensures multiChoiceQuantities == QuotaChange(old(multiChoiceQuantities), option, change, quantity)
      ensures old(Sparse()) ==> Sparse()
      ensures old(AllocatedMultiChoiceCount()) <= quantity && change <= 1 ==> AllocatedMultiChoiceCount() <= quantity
    {
      multiChoiceQuantities := QuotaChange(multiChoiceQuantities, option, change, quantity);
    }

    /** `handleAddonQuantityChange`. */
    method ChangeAddon(addon: Addon, change: int)
      modifies this`selectedAddons
      ensures selectedAddons == AddonChange(old(selectedAddons), addon, change)
      ensures old(Sparse()) ==> Sparse()
    {
      selectedAddons := AddonChange(selectedAddons, addon, change);
    }

    /** `handleSauceChange`. */
    method ChangeSauce(sauce: string, change: int)
      modifies this`selectedSauces
      ensures selectedSauces == SauceChange(old(selectedSauces), sauce, change, TotalSauceLimit())
      ensures old(Sparse()) ==> Sparse()
      ensures old(Sparse()) && old(Total(selectedSauces)) <= TotalSauceLimit() && change <= 1 ==>
        Total(selectedSauces) <= TotalSauceLimit()
    {
      selectedSauces := SauceChange(selectedSauces, sauce, change, TotalSauceLimit());
    }

    /** `handleDessertChange`. */
    method ChangeDessert(dessert: string, change: int)
      modifies this`selectedDesserts
      ensures selectedDesserts == DessertChange(old(selectedDesserts), dessert, change, quantity, item.customizations.dessertChoice)
      ensures old(Sparse()) ==> Sparse()
    {
      selectedDesserts := DessertChange(selectedDesserts, dessert, change, quantity, item.customizations.dessertChoice);
    }

    /** The quantity stepper's `-`: never below one. */
    method DecrementQuantity()
      modifies this`quantity
      ensures quantity == if old(quantity) - 1 > 1 then old(quantity) - 1 else 1
    {
      quantity := if quantity - 1 > 1 then quantity - 1 else 1;
    }

    /** The quantity stepper's `+`. */
    method IncrementQuantity()
      modifies this`quantity
      ensures quantity == old(quantity) + 1
    {
      quantity := quantity + 1;
    }

    /** The single-choice radio buttons: the "none" button and one option. */
    method ChooseNoSingleChoice()
      modifies this`selectedSingleChoiceAddon
      ensures selectedSingleChoiceAddon == None
    {
      selectedSingleChoiceAddon := None;
    }

    method ChooseSingleChoice(option: string)
      modifies this`selectedSingleChoiceAddon
      ensures selectedSingleChoiceAddon == Some(option)
    {
      selectedSingleChoiceAddon := Some(option);
    }

    /** The notes text area. */
    method EditNotes(text: string)
      modifies this`notes
      ensures notes == text
    {
      notes := text;
    }

    /** The close button of the message box. */
    method DismissErrors()
      modifies this`validationErrors
      ensures validationErrors == []
    {
      validationErrors := [];
    }

    /**
     * `handleSubmit`: store the messages; with none, confirm the current
     * selection with the notes trimmed.
     */
    method Submit() returns (confirmation: Option<Confirmation>)
      modifies this`validationErrors
      ensures validationErrors == Validate(item, quantity, CurrentSelections())
      ensures confirmation.Some? <==> AllocationComplete(item, quantity, CurrentSelections())
      ensures confirmation.Some? ==>
        confirmation.value == Confirmation(item, quantity, CurrentSelections().(notes := Trim(notes)), category)
    {
      var errors := Validate(item, quantity, CurrentSelections());
      validationErrors := errors;
      if |errors| > 0 {
        return None;
      }
      confirmation := Some(Confirmation(item, quantity, CurrentSelections().(notes := Trim(notes)), category));
    }
  }
}
