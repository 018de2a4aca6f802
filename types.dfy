/** The shapes of the menu, cart and order records (types.ts). */
module Types {
  import opened Wrappers
  import opened Entries

  /** The `DonenessLevel` union: '3分熟' | '5分熟' | '7分熟' | '全熟'. */
  datatype DonenessLevel = Doneness3 | Doneness5 | Doneness7 | DonenessFull

  /** The label a doneness level carries in the UI and as a count-object key. */
  function DonenessLabel(d: DonenessLevel): string {
    match d
    case Doneness3 => "3分熟"
    case Doneness5 => "5分熟"
    case Doneness7 => "7分熟"
    case DonenessFull => "全熟"
  }

  datatype SingleChoiceAddon = SingleChoiceAddon(price: int, options: seq<string>)

  datatype MultiChoice = MultiChoice(title: string, options: seq<string>)

  /**
   * `MenuItemCustomizations`. An absent boolean flag is `false` (the source reads
   * them with `!!` or as a condition); an absent `saucesPerItem`, `singleChoiceAddon`
   * or `multiChoice` is `None`.
   */
  datatype Customizations = Customizations(
    doneness: bool,
    sauceChoice: bool,
    saucesPerItem: Option<int>,
    drinkChoice: bool,
    dessertChoice: bool,
    notes: bool,
    singleChoiceAddon: Option<SingleChoiceAddon>,
    multiChoice: Option<MultiChoice>)

  /** The customizations object `{}`: nothing to choose. */
  const NO_CUSTOMIZATIONS := Customizations(false, false, None, false, false, false, None, None)

  datatype MenuItem = MenuItem(
    id: string,
    name: string,
    weight: Option<string>,
    price: int,
    description: Option<string>,
    customizations: Customizations,
    isAvailable: bool)

  datatype MenuCategory = MenuCategory(title: string, items: seq<MenuItem>)

  datatype Addon = Addon(id: string, name: string, price: int, category: string, isAvailable: bool)

  /** `SelectedAddon`: the add-on's own fields plus the chosen count. */
  datatype SelectedAddon = SelectedAddon(addon: Addon, quantity: int)

  /** `CartItem`; the optional selections are `None` when the field is absent. */
  datatype CartItem = CartItem(
    cartId: string,
    cartKey: string,
    item: MenuItem,
    quantity: int,
    categoryTitle: string,
    selectedDonenesses: Option<CountObject>,
    selectedDrinks: Option<CountObject>,
    selectedAddons: Option<seq<SelectedAddon>>,
    selectedSauces: Option<seq<Entry>>,
    selectedDesserts: Option<seq<Entry>>,
    selectedNotes: Option<string>,
    selectedSingleChoiceAddon: Option<string>,
    selectedMultiChoice: Option<CountObject>,
    totalPrice: int)

  datatype CustomerInfo = CustomerInfo(name: string, phone: string, tableNumber: string)

  /** '內用' (dine in) | '外帶' (take away). */
  datatype OrderType = DineIn | TakeAway

  /** '待店長確認' | '待處理' | '製作中' | '可以取餐' | '已完成' | '錯誤'. */
  datatype OrderStatus = AwaitingConfirmation | Pending | InPreparation | ReadyForPickup | Completed | Failed

  function StatusLabel(s: OrderStatus): string {
    match s
    case AwaitingConfirmation => "待店長確認"
    case Pending => "待處理"
    case InPreparation => "製作中"
    case ReadyForPickup => "可以取餐"
    case Completed => "已完成"
    case Failed => "錯誤"
  }

  datatype Order = Order(
    id: string,
    status: OrderStatus,
    orderType: OrderType,
    items: seq<CartItem>,
    customerInfo: CustomerInfo,
    totalPrice: int,
    createdAt: string)
}
