# Restaurant ordering: item customisation and order list, in Dafny

This project models the core of a restaurant ordering web app. Two components
are modelled, together with the catalogue they read:

- **The item modal.** A customer uses it to customise one menu item before it
  goes into the cart:
  - the quantity stepper;
  - doneness, drink and multi-choice allocations per portion;
  - the sauce allowance;
  - the two dessert groups;
  - add-ons and a single-choice surcharge;
  - notes;
  - the checks run on submit;
  - the price shown on the confirm button.
- **The order list of the admin dashboard.** It covers the status badge colours,
  the per-status counts on the filter buttons, the filtered list, and the
  optimistic status update that a failed server call rolls back.
- **The fallback catalogue.** This is the menu, the add-on list and the choice
  lists. Lemmas state the facts the modal relies on.

The modal is the class `ItemModal.Modal`:
- each `useState` slot is a field;
- each handler is a method that replaces the field it sets;
- the derived values are functions of the fields.

Each of the six `handle…Change` callbacks (doneness, drinks, multi-choice,
add-ons, sauces, desserts) passes an updater to its state setter. That updater
is a pure function in `Allocation` (`QuotaChange`, `SauceChange`,
`DessertChange`, `AddonChange`). The other handlers set their field directly,
or, for the quantity stepper, through an inline updater. Lemmas state what each updater keeps and changes, and how a
press combines with the next one.

The submit checks are `Validation.Validate`. The price is `Pricing.TotalPrice`.
The add-on sections are `AddonGroups`.

JavaScript count objects (`{ [label]: count }`) and `{ name, quantity }` lists
are both modelled as sequences of `Entry` in `Entries`. For a count object, the
sequence's order is the object's key order. Its keys are never integer-like, so
that order is insertion order.

The dashboard is `AdminDashboard`:
- `StatusCounts` is the accumulating fold, a loop over an accumulator map.
- `FilterOrders` and `WithStatus` are the list transformations.
- `Dashboard.HandleUpdateStatus` is the update with its rollback.

## Model

| member | source | states |
|---|---|---|
| Entries.Find | components/ItemModal.tsx:153 | `find` by name returns nothing exactly when no entry has the name; otherwise an entry of the list with that name (the first one, by FindIsFirst) |
| Entries.FindIsFirst | components/ItemModal.tsx:153 | when some entry has the name, `find` returns the first such entry (no earlier entry has the name) and the count read is that entry's count |
| Entries.CountOf | components/ItemModal.tsx:85 | `obj[key] \|\| 0`: 0 for an absent key; the stored count under distinct names; positive for a present key of a sparse object |
| Entries.Total | components/ItemModal.tsx:54-60 | the `reduce` sum of the counts; no contract of its own: Assign, Delete, FilterOutFacts, SetAllFacts and AppendFacts state how each update moves it |
| Entries.GroupTotal | components/ItemModal.tsx:63-64 | the filter-then-sum of one dessert group; no contract of its own: FilterOutFacts, AppendFacts and Allocation.DessertGroupDelta state how the updates move it |
| Entries.FilterOut | components/ItemModal.tsx:158 | the name filter; no contract of its own: FilterOutFacts and FilterOutTwice state what it removes and keeps |
| Entries.SetAll | components/ItemModal.tsx:159 | the quantity `map` of one name; no contract of its own: SetAllFacts, SetAllSame and SetAllTwice state what it sets and keeps |
| Entries.Assign | components/ItemModal.tsx:94 | `obj[key] = n` makes the key present with count n, keeps every other key and count, and moves the total by n minus the old count |
| Entries.Delete | components/ItemModal.tsx:92 | `delete obj[key]` removes the key, keeps every other key and count, and lowers the total by the removed count |
| Entries.FilterOutFacts | components/ItemModal.tsx:158 | `filter(name !==)` removes the name, keeps every other name with its count, and lowers the total and the name's group total by its count; filtering an absent name changes nothing |
| Entries.FilterOutTwice | components/ItemModal.tsx:179 | filtering a name out twice is filtering it once |
| Entries.SetAllFacts | components/ItemModal.tsx:159 | `map` setting one name's quantity keeps the length and the names, sets that count, keeps all others, and moves the total by the difference |
| Entries.SetAllSame | components/ItemModal.tsx:181 | setting a name to the count it has changes nothing |
| Entries.SetAllTwice | components/ItemModal.tsx:181 | of two `map` updates of one name the later wins |
| Entries.AppendFacts | components/ItemModal.tsx:161 | appending `{name, quantity: 1}` adds the name, keeps the other counts, and raises the total and the group that holds the name by its quantity |
| AddonList.FindAddon | components/ItemModal.tsx:140 | `prev.find(a => a.id === id)` returns nothing exactly when no entry has the id; otherwise a listed entry with that id (the first one, by FindAddonIsFirst), equal to every entry with that id when ids are distinct |
| AddonList.FindAddonIsFirst | components/ItemModal.tsx:140 | when some entry has the id, `find` returns the first such entry (no earlier entry has the id) and the count read is that entry's quantity |
| AddonList.AddonCount | components/ItemModal.tsx:140-142 | 0 for an absent add-on; the stored quantity of the add-on under distinct ids (of the first entry with the id in general, by FindAddonIsFirst); positive for a listed one in a sparse list |
| AddonList.WithoutAddon | components/ItemModal.tsx:143 | the id filter; no contract of its own: WithoutAddonFacts and WithoutAddonTotal state what it removes and keeps |
| AddonList.SetAddonQuantity | components/ItemModal.tsx:143 | the quantity `map` of one id; no contract of its own: SetAddonFacts, SetAddonFound and SetAddonTotal state what it sets and keeps |
| AddonList.AddonTotal | components/ItemModal.tsx:235 | `totalAddonPrice`, the sum of price times quantity; no contract of its own: WithoutAddonTotal, SetAddonTotal, AppendAddonFacts and Pricing.AddonTotalNonNegative state how it moves and its sign |
| AddonList.WithoutAddonFacts | components/ItemModal.tsx:143 | the filter removes the id, keeps every other id, is idempotent and changes nothing when the id is absent |
| AddonList.WithoutAddonKeepsCounts | components/ItemModal.tsx:143 | the id filter keeps the count of every other add-on |
| AddonList.WithoutAddonTotal | components/ItemModal.tsx:143 | removing a listed add-on takes its price times its quantity out of the add-on total |
| AddonList.SetAddonFacts | components/ItemModal.tsx:143 | the `map` keeps the ids and every other entry, and keeps distinctness and positivity |
| AddonList.SetAddonFound | components/ItemModal.tsx:140-143 | after the `map` the entry found under the id is the one found before, with the new quantity |
| AddonList.SetAddonTotal | components/ItemModal.tsx:143 | setting a listed add-on's quantity moves the add-on total by its price times the difference |
| AddonList.AppendAddonFacts | components/ItemModal.tsx:145 | appending a new add-on adds its id, raises the total by price times quantity, and keeps distinctness and positivity |
| AddonList.AppendAddonFound | components/ItemModal.tsx:145 | the appended entry is what a later `find` returns for its id |
| Allocation.QuotaChange | components/ItemModal.tsx:82-134 | a change that would go below zero, or a `+` when the pool is full, leaves the pool alone; otherwise the key's count and the total move by `change` and the key stays exactly when its count is not zero; other keys are untouched; unit steps keep the total within the quantity |
| Allocation.QuotaStepsStayWithin | components/ItemModal.tsx:82-134 | any sequence of `+1`/`-1` presses from a pool within the quantity keeps it within the quantity and sparse |
| Allocation.PressesFill | components/ItemModal.tsx:86-94 | below the quantity every `+` press is taken: n presses raise the key's count and the total by n |
| Allocation.QuotaIncrementUndone | components/ItemModal.tsx:82-98 | a taken `+` followed by `-` on the same key gives back the same count object |
| Allocation.QuotaDecrementUndone | components/ItemModal.tsx:82-98 | a `-` followed by `+` on a present key restores every count |
| Allocation.QuotaDecrementReorders | components/ItemModal.tsx:92-94 | a key deleted at zero and set again goes to the end: `-` then `+` can reorder the object |
| Allocation.SaucesPerItem | components/ItemModal.tsx:58 | `saucesPerItem ?? 2`; no contract of its own: MenuSauceLimit states its value on the catalogue |
| Allocation.SauceLimit | components/ItemModal.tsx:59 | `quantity * saucesPerItem`; no contract of its own: MenuSauceLimit states it on every catalogue item |
| Allocation.MenuSauceLimit | components/ItemModal.tsx:58-59 | on every catalogue item the sauce limit is the quantity when `saucesPerItem` is set, else twice the quantity |
| Allocation.SauceChange | components/ItemModal.tsx:151-165 | rejection leaves the list alone; a new sauce is appended with 1 when the total is below the limit; an existing one moves by `change` and is dropped at zero; distinctness and positivity are kept and unit steps keep the total within the limit |
| Allocation.SauceIncrementUndone | components/ItemModal.tsx:151-165 | a taken `+` on a sauce followed by `-` gives back the same list |
| Allocation.DessertChange | components/ItemModal.tsx:167-187 | a `+` on a dessert item is refused when the name's group is full (group A for its own names, group B for all others); otherwise a new name is appended with 1, an existing one moves by `change` and is dropped at zero or below; other groups' totals are untouched |
| Allocation.DessertGroupDelta | components/ItemModal.tsx:167-187 | the group that holds the name moves by exactly the change of the name's count |
| Allocation.DessertGroupsStayWithin | components/ItemModal.tsx:169-173 | unit presses on a dessert item keep both group totals within the quantity |
| Allocation.DessertIncrementUndone | components/ItemModal.tsx:167-187 | a taken `+` on a dessert followed by `-` gives back the same list |
| Allocation.AddonChange | components/ItemModal.tsx:137-149 | an unavailable add-on refuses `+`; otherwise its count becomes `max(0, old + change)`, it is listed exactly when that is positive, keeps its stored fields, an unlisted add-on with a positive change is appended at the end with `change` portions, and every other entry is untouched |
| Allocation.AddonChangeTotal | components/ItemModal.tsx:137-149 | a press moves the add-on total by the unit price times the change of the add-on's count |
| Allocation.AddonIncrementUndone | components/ItemModal.tsx:137-149 | `+` then `-` on an available add-on gives back the same list |
| JsString.LeadingSpaces | components/ItemModal.tsx:220 | the length of the white-space run at the front, which ends at the end or at a non-space |
| JsString.TrailingSpaces | components/ItemModal.tsx:220 | the length of the white-space run at the back, which starts at the start or after a non-space |
| JsString.Trim | components/ItemModal.tsx:220 | `trim()` leaves no white space at either end |
| JsString.TrimSlice | components/ItemModal.tsx:220 | the trimmed notes are a slice of the notes with only white space cut on each side |
| JsString.TrimEmpty | components/ItemModal.tsx:220 | the notes trim to nothing exactly when they are all white space |
| JsString.TrimIdempotent | components/ItemModal.tsx:220 | trimming twice is trimming once |
| Validation.Message | components/ItemModal.tsx:192-206 | each check's message, with the figures it quotes |
| Validation.ChecksFrom | components/ItemModal.tsx:192-206 | the messages of the checks from a given one on, each present exactly when its check fails, in check order |
| Validation.Validate | components/ItemModal.tsx:190-206 | a message is listed exactly when its allocation is incomplete, quoting the quantity (and the sauce limit, the multi-choice title); in check order; the list is empty exactly when every allocation is complete |
| Validation.ValidateByKind | components/ItemModal.tsx:192-206 | each of the five messages is listed exactly when its own condition fails |
| Validation.ValidateAtMostFive | components/ItemModal.tsx:192-206 | at most one message per check |
| Validation.ValidateIgnoresExtras | components/ItemModal.tsx:192-206 | notes, the single choice and the add-ons never hold a submission back |
| Validation.PlainItemAlwaysValid | components/ItemModal.tsx:192-206 | an item without customisations always passes |
| Validation.DonenessCanBeCompleted | components/ItemModal.tsx:82-98 | pressing `+` on one doneness once per portion completes the doneness check |
| Pricing.SingleChoicePrice | components/ItemModal.tsx:228-233 | the surcharge of a truthy choice on an item that offers one, else 0; no contract of its own: SingleChoicePriceIgnoresOption states it |
| Pricing.TotalPrice | components/ItemModal.tsx:236 | the price on the confirm button; no contract of its own: QuantityStepPrice, AddonStepPrice and TotalPriceAtLeastBase state how it moves and its lower bound |
| Pricing.SingleChoicePriceIgnoresOption | components/ItemModal.tsx:228-233 | the surcharge is the same for every chosen option; the empty string costs what no choice costs, 0 |
| Pricing.QuantityStepPrice | components/ItemModal.tsx:236 | one more portion adds the item price and the surcharge, not the add-ons |
| Pricing.AddonStepPrice | components/ItemModal.tsx:235-236 | an add-on press moves the shown price by the unit price times the count change |
| Pricing.AddonTotalNonNegative | components/ItemModal.tsx:235 | a sparse add-on list with prices not below zero has a total not below zero |
| Pricing.TotalPriceAtLeastBase | components/ItemModal.tsx:236 | the shown price is at least the item price times the quantity |
| AddonGroups.AddToGroups | components/ItemModal.tsx:68 | one step of the grouping `reduce`; no contract of its own: AddToGroupsFacts and InCategoryAppend state it |
| AddonGroups.GroupByCategory | components/ItemModal.tsx:66-71 | `addonGroups`; no contract of its own: GroupByCategoryExact states it |
| AddonGroups.OtherAddonGroups | components/ItemModal.tsx:74-76 | `otherAddonGroups`; no contract of its own: OtherGroupsFacts and OtherGroupsExact state it |
| AddonGroups.MainCourseAddonGroup | components/ItemModal.tsx:77-79 | `mainCourseAddonGroup`; no contract of its own: MainCourseGroupExact states it |
| AddonGroups.InCategoryAppend | components/ItemModal.tsx:68 | one push adds the add-on to its own category's group only |
| AddonGroups.AddToGroupsFacts | components/ItemModal.tsx:68 | a push creates the category's group if missing, appends to it, leaves other groups alone and keeps categories distinct |
| AddonGroups.GroupByCategoryExact | components/ItemModal.tsx:66-71 | `addonGroups` has one group per category present, and each group lists exactly that category's add-ons in order |
| AddonGroups.MainCourseGroupExact | components/ItemModal.tsx:73-79 | the main-course section lists exactly the main-course add-ons, and is absent when there are none |
| AddonGroups.OtherGroupsFacts | components/ItemModal.tsx:74-76 | the other sections are the groups not of the main-course category |
| AddonGroups.OtherGroupsExact | components/ItemModal.tsx:66-76 | every other section lists exactly its category's add-ons, and every other category present has one |
| AddonGroups.TwoSections | components/ItemModal.tsx:66-79 | a list of main-course add-ons followed by one other category gives one main section and one other section |
| AddonGroups.CatalogueAddonSections | constants.ts:60-75 | the fallback add-ons give the eight main-course ones as the main section and the six rest under '單點加購' as the only other section |
| Catalog.AllItems | constants.ts:3-58 | the flattened menu holds exactly the items of its categories |
| Catalog.MenuIdsDistinct | constants.ts:3-58 | menu item ids are pairwise distinct |
| Catalog.AddonIdsDistinct | constants.ts:60-75 | add-on ids are pairwise distinct |
| Catalog.PricesPositive | constants.ts:3-75 | every menu and add-on price is positive |
| Catalog.SaucesPerItemIsOne | constants.ts:3-58 | an item that sets `saucesPerItem` sets it to 1, on a sauce item |
| Catalog.DonenessLevelsMatch | constants.ts:77 | four distinct labels, one per `DonenessLevel` |
| Catalog.ChoiceListsDistinct | constants.ts:78-83 | 8 sauces, 2 drinks, 5 group-A and 8 group-B desserts, each list without repeats |
| Catalog.DessertGroupsDisjoint | constants.ts:82-83 | no dessert is in both groups |
| ItemModal.TruthyChoice | components/ItemModal.tsx:38 | `x \|\| null`: kept exactly when chosen, i.e. present and not empty |
| ItemModal.Modal.AllocatedDonenessCount | components/ItemModal.tsx:54 | the sum of the doneness counts; no contract of its own: ChangeDoneness keeps it within the quantity |
| ItemModal.Modal.AllocatedDrinkCount | components/ItemModal.tsx:55 | the sum of the drink counts; no contract of its own: ChangeDrink keeps it within the quantity |
| ItemModal.Modal.AllocatedMultiChoiceCount | components/ItemModal.tsx:56 | the sum of the multi-choice counts; no contract of its own: ChangeMultiChoice keeps it within the quantity |
| ItemModal.Modal.TotalSauceLimit | components/ItemModal.tsx:59 | the sauce limit of the current quantity; no contract of its own: ChangeSauce keeps the sauces within it, Allocation.MenuSauceLimit gives its value |
| ItemModal.Modal.CurrentSelections | components/ItemModal.tsx:214-223 | the `options` object with the notes as typed; no contract of its own: Submit passes it with the notes trimmed |
| ItemModal.Modal.ShownPrice | components/ItemModal.tsx:236 | the price of the current state; no contract of its own: the Pricing lemmas state it |
| ItemModal.Modal.MainCourseSection | components/ItemModal.tsx:77-79 | the main-course section of the modal's add-ons; no contract of its own: AddonGroups.MainCourseGroupExact states it |
| ItemModal.Modal.OtherSections | components/ItemModal.tsx:74-76 | the other sections of the modal's add-ons; no contract of its own: AddonGroups.OtherGroupsExact states it |
| ItemModal.Modal.constructor | components/ItemModal.tsx:16-27 | the initial state values |
| ItemModal.Modal.Reset | components/ItemModal.tsx:29-52 | loads the edited cart line (absent fields read as empty) or the initial values, clears the messages, and a sparse cart line gives a sparse state |
| ItemModal.Modal.ChangeDoneness | components/ItemModal.tsx:82-98 | applies the quota updater to the doneness pool; keeps the state sparse and a unit step keeps the allocation within the quantity |
| ItemModal.Modal.ChangeDrink | components/ItemModal.tsx:100-116 | as for doneness, on the drink pool |
| ItemModal.Modal.ChangeMultiChoice | components/ItemModal.tsx:118-134 | as for doneness, on the multi-choice pool |
| ItemModal.Modal.ChangeAddon | components/ItemModal.tsx:137-149 | applies the add-on updater; keeps the state sparse |
| ItemModal.Modal.ChangeSauce | components/ItemModal.tsx:151-165 | applies the sauce updater with the current limit; keeps the state sparse and a unit step keeps the sauces within the limit |
| ItemModal.Modal.ChangeDessert | components/ItemModal.tsx:167-187 | applies the dessert updater; keeps the state sparse |
| ItemModal.Modal.DecrementQuantity | components/ItemModal.tsx:250 | the quantity drops by one but never below one |
| ItemModal.Modal.IncrementQuantity | components/ItemModal.tsx:252 | the quantity rises by one |
| ItemModal.Modal.ChooseNoSingleChoice | components/ItemModal.tsx:289 | the single choice is cleared |
| ItemModal.Modal.ChooseSingleChoice | components/ItemModal.tsx:302 | the single choice is the option |
| ItemModal.Modal.EditNotes | components/ItemModal.tsx:439 | the notes are the typed text |
| ItemModal.Modal.DismissErrors | components/ItemModal.tsx:474 | the messages are cleared |
| ItemModal.Modal.Submit | components/ItemModal.tsx:189-226 | stores the messages; confirms exactly when every allocation is complete, and then passes the current selection with the notes trimmed |
| AdminDashboard.StatusColor | components/AdminDashboard.tsx:7-16 | a status gets a colour other than the red default exactly when it is one of the offered statuses |
| AdminDashboard.OrderStatusesFacts | components/AdminDashboard.tsx:7-18 | five offered statuses, none twice, all but '錯誤'; no two statuses share a colour |
| AdminDashboard.CountStatus | components/AdminDashboard.tsx:72-89 | the number of orders with a status, at most the number of orders; StatusCounts, CountsAddUp and WithStatusCounts state it further |
| AdminDashboard.StatusCounts | components/AdminDashboard.tsx:72-89 | `all` is the number of orders and each status's figure is the number of orders with that status (0 when none) |
| AdminDashboard.CountsAddUp | components/AdminDashboard.tsx:72-89 | the six status figures add up to `all` |
| AdminDashboard.FilterOrders | components/AdminDashboard.tsx:91-94 | `'all'` gives the list unchanged; a status gives only orders of that status, as many as that status's count |
| AdminDashboard.KeepStatus | components/AdminDashboard.tsx:91-94 | `orders.filter(o => o.status === s)`: only orders of that status, as many as CountStatus counts; KeepsMatching, KeepsOrder and KeepAllKept state the rest |
| AdminDashboard.FilterKeepsMatching | components/AdminDashboard.tsx:91-94 | every order of the chosen status appears in the filtered list (with FilterOrders: exactly the orders of that status) |
| AdminDashboard.FilterKeepsOrder | components/AdminDashboard.tsx:91-94 | the filtered list is a subsequence of the order list: the orders keep their relative order |
| AdminDashboard.BadgeMatchesList | components/AdminDashboard.tsx:98-134 | the badge on each filter button is the length of the list it shows |
| AdminDashboard.FilterTwice | components/AdminDashboard.tsx:91-94 | filtering a filtered list again changes nothing |
| AdminDashboard.WithStatus | components/AdminDashboard.tsx:290 | same length; the status is the new one exactly for orders with the id, and the old one for the rest |
| AdminDashboard.WithStatusKeepsFields | components/AdminDashboard.tsx:290 | every order keeps all its fields but the status |
| AdminDashboard.WithStatusCounts | components/AdminDashboard.tsx:288-296 | the update moves the orders with the id out of their old status counts into the new one |
| AdminDashboard.OneOrderMoves | components/AdminDashboard.tsx:288-296 | with one order of the id, its old status count drops by one and the new one rises by one |
| AdminDashboard.WithStatusFacts | components/AdminDashboard.tsx:290 | a second update of the same id replaces the first; an unknown id changes nothing |
| AdminDashboard.Dashboard.constructor | components/AdminDashboard.tsx:245 | the order list starts empty |
| AdminDashboard.Dashboard.HandleUpdateStatus | components/AdminDashboard.tsx:288-296 | on success the list is the updated list; on failure it is the snapshot taken before the change |

## Left out

- **Server calls, alerts and printing.**
  - `apiService` calls are not part of this model. That covers fetching the
    orders, the status update and the statistics.
  - `alert`, printing and the `afterprint` listener are not modelled.
  - The result of the update call is the parameter `updateSucceeded`.
- **Rendering.** The JSX, the CSS classes other than the badge colours, the
  `onClose` callbacks and the order-detail rendering are not modelled. That
  rendering includes the name rewrite `/半全餐|半套餐/g`.
- **React hook semantics.** `useMemo` caching and batching are not modelled.
  - Each handler call is one atomic step whose caps are read from the same
    previous state.
  - The source's updaters read the allocated totals from the render's closure.
    Several presses inside one render could therefore pass a cap. The model
    does not capture that.
- **Sales statistics.** The statistics view (`components/AdminDashboard.tsx`,
  162-235) fetches asynchronously and computes floating-point bar heights.
- **`components/ConfirmationModal.tsx` and `services/apiService.ts`** are not
  part of this model.
- **Message text.** The model keeps each message's kind and the figures it
  quotes, not its Chinese text.
  - The messages quote the quantity, the sauce limit and the multi-choice
    title, not the current count.
- **Integers and key order.**
  - Numbers are unbounded integers. JavaScript doubles are exact for these
    values.
  - Object key order is insertion order, because no key used here is
    integer-like.
- **Lowering the quantity** does not shrink the existing allocations. As in the
  source, the submit checks catch the mismatch.
- **`Allocation.QuotaChange`, `Allocation.SauceChange` and
  `Allocation.DessertGroupsStayWithin`** keep totals within their caps for
  changes of at most one. The source's buttons send only `+1` and `-1`. A larger
  step can overshoot in the source too.
- **`Allocation.AddonChange`** has no cap. A new add-on is appended with
  `change` as its quantity (`components/ItemModal.tsx`, 145), not with 1. The
  model follows that.
- **`AdminDashboard.Dashboard.HandleUpdateStatus`** takes its snapshot from the
  list it updates. In the source the snapshot comes from the render's closure,
  so a newer list from a concurrent update can be lost on rollback. The model
  does not capture that.
