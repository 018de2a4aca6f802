/**
 * The fixed catalogue (constants.ts): the fallback menu and add-on list and the
 * classification lists the item modal consults, with the facts the modal relies on.
 */
module Catalog {
  import opened Wrappers
  import opened Types

  const NOODLE_FLAVOURS := MultiChoice("涼麵口味", ["台式", "泰式", "日式", "法式"])

  const SIMPLE_MEALS := MenuCategory("簡餐", [
    MenuItem("new-nuggets-single", "黃金脆皮炸雞塊", None, 75, Some("單點。可於下方選擇加購。"),
      NO_CUSTOMIZATIONS.(notes := true, sauceChoice := true, saucesPerItem := Some(1)), true),
    MenuItem("new-nuggets-set", "雞塊套餐", None, 175, Some("附: 湯品, 飲料, 脆薯, 甜品"),
      NO_CUSTOMIZATIONS.(notes := true, sauceChoice := true, saucesPerItem := Some(1), drinkChoice := true), true),
    MenuItem("new-peanut-burger-single", "波士頓花生冰淇淋吃到堡", None, 75, Some("單點。可於下方選擇加購。"),
      NO_CUSTOMIZATIONS.(notes := true), true),
    MenuItem("new-peanut-burger-set", "花生冰淇淋吃到堡套餐", None, 175, Some("附: 湯品, 飲料, 脆薯, 雞塊"),
      NO_CUSTOMIZATIONS.(notes := true, drinkChoice := true), true),
    MenuItem("new-eggsalad-burger-single", "蛋沙拉脆皮雞塊吃到堡", None, 75, Some("單點。可於下方選擇加購。"),
      NO_CUSTOMIZATIONS.(notes := true), true),
    MenuItem("new-eggsalad-burger-set", "蛋沙拉脆皮雞塊吃到堡套餐", None, 175, Some("附: 湯品, 飲料, 脆薯, 甜品"),
      NO_CUSTOMIZATIONS.(notes := true, drinkChoice := true), true),
    MenuItem("new-kimchi-burger-single", "黃金泡菜脆皮雞塊吃到堡", None, 75, Some("單點。可於下方選擇加購。"),
      NO_CUSTOMIZATIONS.(notes := true), true),
    MenuItem("new-kimchi-burger-set", "黃金泡菜脆皮雞塊吃到堡套餐", None, 175, Some("附: 湯品, 飲料, 脆薯, 甜品"),
      NO_CUSTOMIZATIONS.(notes := true, drinkChoice := true), true),
    MenuItem("new-waldorf-burger-single", "華道夫蘋果沙拉雞塊吃到堡", None, 75, Some("單點。可於下方選擇加購。"),
      NO_CUSTOMIZATIONS.(notes := true), true),
    MenuItem("new-waldorf-burger-set", "華道夫蘋果沙拉雞塊吃到堡套餐", None, 175, Some("附: 湯品, 飲料, 脆薯, 甜品"),
      NO_CUSTOMIZATIONS.(notes := true, drinkChoice := true), true),
    MenuItem("new-cold-noodle-single", "是日涼麵", None, 75, Some("單點。可於下方選擇加購。"),
      NO_CUSTOMIZATIONS.(multiChoice := Some(NOODLE_FLAVOURS), notes := true), true),
    MenuItem("new-cold-noodle-set", "涼麵套餐", None, 175, Some("附: 湯品, 飲料, 脆薯, 雞塊"),
      NO_CUSTOMIZATIONS.(multiChoice := Some(NOODLE_FLAVOURS), drinkChoice := true, notes := true), true),
    MenuItem("new-chicken-porridge-drink", "脆皮炸雞塊+粥品+飲料", None, 99, Some("超值組合"),
      NO_CUSTOMIZATIONS.(drinkChoice := true, notes := true, sauceChoice := true, saucesPerItem := Some(1)), true)
  ])

  const DESSERTS := MenuCategory("甜品", [
    MenuItem("new-dessert-choice-single", "任選甜品", None, 99, Some("A、B區各任選一種。可於下方選擇加購。"),
      NO_CUSTOMIZATIONS.(dessertChoice := true, notes := true), true),
    MenuItem("new-dessert-choice-set", "任選甜品套餐", None, 199, Some("附: 湯品, 飲料, 脆薯, 雞塊"),
      NO_CUSTOMIZATIONS.(dessertChoice := true, drinkChoice := true, notes := true), true)
  ])

  /** The customizations shared by the steak sets ('doneness: false' is the same as leaving it out). */
  const SET_CHOICE := NO_CUSTOMIZATIONS.(sauceChoice := true, drinkChoice := true, notes := true)
  const SET_DESCRIPTION := Some("附: ①日湯 ②麵包 ③主餐 ④脆薯 ⑤飲料")

  const SETS := MenuCategory("套餐", [
    MenuItem("set-1", "香煎海盜牛排套餐", Some("7oz"), 299, SET_DESCRIPTION, SET_CHOICE.(doneness := true), true),
    MenuItem("set-2", "香煎海盜牛排套餐", Some("14oz"), 399, SET_DESCRIPTION, SET_CHOICE.(doneness := true), true),
    MenuItem("set-3", "香煎海盜牛排套餐", Some("21oz"), 499, SET_DESCRIPTION, SET_CHOICE.(doneness := true), true),
    MenuItem("set-4", "香煎特選板腱套餐", Some("10oz"), 399, SET_DESCRIPTION, SET_CHOICE.(doneness := true), true),
    MenuItem("set-5", "香煎老饕上蓋套餐", Some("7oz"), 399, SET_DESCRIPTION, SET_CHOICE.(doneness := true), true),
    MenuItem("set-6", "香煎紐菲力套餐", Some("7oz"), 499, SET_DESCRIPTION, SET_CHOICE.(doneness := true), true),
    MenuItem("set-7", "香煎櫻桃鴨胸套餐", Some("10oz"), 320, SET_DESCRIPTION, SET_CHOICE, true),
    MenuItem("set-8", "香煎鮮嫩鱸魚套餐", Some("10oz"), 320, SET_DESCRIPTION, SET_CHOICE, true),
    MenuItem("set-9", "香煎鮮嫩雞腿套餐", Some("10oz"), 250, SET_DESCRIPTION, SET_CHOICE, true),
    MenuItem("set-10", "香煎美味豬排套餐", Some("10oz"), 299, SET_DESCRIPTION, SET_CHOICE, true),
    MenuItem("set-11", "英式炸魚套餐", Some("10oz"), 250, SET_DESCRIPTION, SET_CHOICE, true),
    MenuItem("set-12", "日式豬排套餐", Some("10oz"), 250, SET_DESCRIPTION, SET_CHOICE, false)
  ])

  const COMBO_DESCRIPTION := Some("附: ①日湯 ②麵包 ③主餐 ④脆薯 ⑤沙拉 ⑥飲料")

  const COMBOS := MenuCategory("組合餐", [
    MenuItem("combo-1", "日豬、雞腿、上蓋組合餐", Some("15oz"), 529, COMBO_DESCRIPTION, SET_CHOICE.(doneness := true), true),
    MenuItem("combo-2", "炸魚、雞腿、板腱組合餐", Some("15oz"), 529, COMBO_DESCRIPTION, SET_CHOICE.(doneness := true), true),
    MenuItem("combo-3", "鱸魚、鴨胸、豬排組合餐", Some("15oz"), 529, COMBO_DESCRIPTION, SET_CHOICE, true),
    MenuItem("combo-4", "鴨胸、鱸魚、上蓋組合餐", Some("15oz"), 599, COMBO_DESCRIPTION, SET_CHOICE.(doneness := true), true),
    MenuItem("combo-5", "N菲、上蓋、板腱組合餐", Some("15oz"), 699, COMBO_DESCRIPTION, SET_CHOICE.(doneness := true), true),
    MenuItem("new-chicken-pasta-single", "黃金脆皮炸雞塊+是日義大利天使麵", None, 140, Some("單點"),
      NO_CUSTOMIZATIONS.(notes := true, sauceChoice := true, saucesPerItem := Some(1)), true),
    MenuItem("new-chicken-pasta-set", "黃金脆皮炸雞塊+是日義大利天使麵套餐", None, 220, Some("附: 湯品, 飲料"),
      NO_CUSTOMIZATIONS.(drinkChoice := true, notes := true, sauceChoice := true, saucesPerItem := Some(1)), true)
  ])

  /** `MENU_DATA`, the fallback menu. */
  const MENU_DATA: seq<MenuCategory> := [SIMPLE_MEALS, DESSERTS, SETS, COMBOS]

  /** `ADDONS`, the fallback add-on list. */
  const ADDONS: seq<Addon> := [
    Addon("addon-top-blade-5oz", "板腱加購 5oz", 200, "主餐加購", true),
    Addon("addon-ribeye-cap-5oz", "上蓋加購 5oz", 200, "主餐加購", true),
    Addon("addon-duck-breast-5oz", "鴨胸加購 5oz", 150, "主餐加購", true),
    Addon("addon-sea-bass-5oz", "鱸魚加購 5oz", 150, "主餐加購", true),
    Addon("addon-chicken-leg-5oz", "雞腿加購 5oz", 120, "主餐加購", true),
    Addon("addon-pork-chop-5oz", "豬排加購 5oz", 120, "主餐加購", true),
    Addon("addon-jp-pork-cutlet-5oz", "日豬加購 5oz", 120, "主餐加購", true),
    Addon("addon-fried-fish-5oz", "炸魚加購 5oz", 120, "主餐加購", true),
    Addon("addon-soup", "湯品 加購", 30, "單點加購", true),
    Addon("addon-congee", "粥品 加購", 40, "單點加購", true),
    Addon("addon-fries", "脆薯 加購", 40, "單點加購", true),
    Addon("addon-dessert-side", "甜品 加購", 40, "單點加購", true),
    Addon("addon-drink-side", "飲料 加購", 20, "單點加購", true),
    Addon("addon-nuggets-side", "雞塊 加購", 45, "單點加購", true)
  ]

  const DONENESS_LEVELS: seq<string> := ["3分熟", "5分熟", "7分熟", "全熟"]
  const SAUCE_CHOICES: seq<string> := ["巴醋", "橙汁", "椒鹽", "芥末", "泡菜", "BBQ醬", "黑胡椒", "蒜味醬"]
  const DRINK_CHOICES: seq<string> := ["無糖紅茶", "冰涼可樂"]

  /** Dessert group A. */
  const DESSERT_CHOICES: seq<string> := ["蜜糖潛艇堡", "美式鬆餅", "格子鬆餅", "法式鬆餅", "蜜糖吐司"]
  /** Dessert group B. */
  const ICECREAM_CHOICES: seq<string> := [
    "法式烤布蕾佐冰淇淋", "阿薩斯蘋果佐冰淇淋", "烤蜜糖香蕉佐冰淇淋", "融岩巧克力佐冰淇淋",
    "醇巧克力暮司佐冰淇", "烤法焦糖布丁佐冰淇", "宜蘭鮮乳奶凍佐冰淇", "宇治紫米紅豆冰淇淋"]

  /** The doneness levels in the order the modal lists them. */
  const ALL_DONENESS: seq<DonenessLevel> := [Doneness3, Doneness5, Doneness7, DonenessFull]

  /** Every menu item of a menu, category by category. */
  function AllItems(menu: seq<MenuCategory>): (r: seq<MenuItem>)
    ensures forall c, it :: c in menu && it in c.items ==> it in r
    ensures forall it :: it in r ==> exists c :: c in menu && it in c.items
  {
    if menu == [] then [] else menu[0].items + AllItems(menu[1..])
  }

  predicate Distinct<T(==)>(s: seq<T>) {
    forall i, j :: 0 <= i < j < |s| ==> s[i] != s[j]
  }

  predicate IdsDistinct(s: seq<MenuItem>) {
    forall i, j :: 0 <= i < j < |s| ==> s[i].id != s[j].id
  }

  predicate IdsApart(s: seq<MenuItem>, t: seq<MenuItem>) {
    forall i, j :: 0 <= i < |s| && 0 <= j < |t| ==> s[i].id != t[j].id
  }

  lemma IdsDistinctConcat(s: seq<MenuItem>, t: seq<MenuItem>)
    requires IdsDistinct(s) && IdsDistinct(t) && IdsApart(s, t)
    ensures IdsDistinct(s + t)
  {
    var u := s + t;
    forall i, j | 0 <= i < j < |u| ensures u[i].id != u[j].id {
      if j < |s| {
        assert u[i] == s[i] && u[j] == s[j];
      } else if i < |s| {
        assert u[i] == s[i] && u[j] == t[j - |s|];
      } else {
        assert u[i] == t[i - |s|] && u[j] == t[j - |s|];
      }
    }
  }

  lemma IdsApartConcat(s: seq<MenuItem>, t: seq<MenuItem>, u: seq<MenuItem>)
    requires IdsApart(s, t) && IdsApart(s, u)
    ensures IdsApart(s, t + u)
  {
    forall i, j | 0 <= i < |s| && 0 <= j < |t + u| ensures s[i].id != (t + u)[j].id {
      if j < |t| { assert (t + u)[j] == t[j]; } else { assert (t + u)[j] == u[j - |t|]; }
    }
  }

  /** The fallback menu, flattened category by category. */
  lemma MenuItems()
    ensures AllItems(MENU_DATA) == SIMPLE_MEALS.items + (DESSERTS.items + (SETS.items + COMBOS.items))
  {
    var m3 := [COMBOS];
    var m2 := [SETS] + m3;
    var m1 := [DESSERTS] + m2;
    assert MENU_DATA == [SIMPLE_MEALS] + m1;
    assert AllItems(m3) == COMBOS.items;
    assert AllItems(m2) == SETS.items + COMBOS.items;
    assert AllItems(m1) == DESSERTS.items + AllItems(m2);
  }

  /** Menu item ids are pairwise distinct across the whole fallback menu. */
  lemma MenuIdsDistinct()
    ensures IdsDistinct(AllItems(MENU_DATA))
  {
    MenuItems();
    var s, d, x, c := SIMPLE_MEALS.items, DESSERTS.items, SETS.items, COMBOS.items;
    CategoryIdsDistinct();
    CategoryIdsApart();
    IdsDistinctConcat(x, c);
    IdsApartConcat(d, x, c);
    IdsDistinctConcat(d, x + c);
    IdsApartConcat(s, x, c);
    IdsApartConcat(s, d, x + c);
    IdsDistinctConcat(s, d + (x + c));
  }

  lemma CategoryIdsDistinct()
    ensures IdsDistinct(SIMPLE_MEALS.items) && IdsDistinct(DESSERTS.items)
    ensures IdsDistinct(SETS.items) && IdsDistinct(COMBOS.items)
  {
    SimpleMealIdsDistinct();
    SetIdsDistinct();
    OtherIdsDistinct();
  }

  lemma SimpleMealIdsDistinct()
    ensures IdsDistinct(SIMPLE_MEALS.items)
  {
  }

  lemma SetIdsDistinct()
    ensures IdsDistinct(SETS.items)
  {
  }

  lemma OtherIdsDistinct()
    ensures IdsDistinct(DESSERTS.items) && IdsDistinct(COMBOS.items)
  {
  }

  lemma SimpleMealIdsApart()
    ensures IdsApart(SIMPLE_MEALS.items, DESSERTS.items) && IdsApart(SIMPLE_MEALS.items, SETS.items)
  {
  }

  lemma CategoryIdsApart()
    ensures IdsApart(SIMPLE_MEALS.items, DESSERTS.items) && IdsApart(SIMPLE_MEALS.items, SETS.items)
    ensures IdsApart(SIMPLE_MEALS.items, COMBOS.items) && IdsApart(DESSERTS.items, SETS.items)
    ensures IdsApart(DESSERTS.items, COMBOS.items) && IdsApart(SETS.items, COMBOS.items)
  {
    SimpleMealIdsApart();
    SimpleComboIdsApart();
    OtherIdsApart();
  }

  lemma SimpleComboIdsApart()
    ensures IdsApart(SIMPLE_MEALS.items, COMBOS.items)
  {
  }

  lemma OtherIdsApart()
    ensures IdsApart(DESSERTS.items, SETS.items) && IdsApart(DESSERTS.items, COMBOS.items)
    ensures IdsApart(SETS.items, COMBOS.items)
  {
  }

  /** Add-on ids are pairwise distinct: the modal keys add-on selections by id. */
  lemma AddonIdsDistinct()
    ensures forall i, j :: 0 <= i < j < |ADDONS| ==> ADDONS[i].id != ADDONS[j].id
  {
  }

  predicate PricesPositiveIn(s: seq<MenuItem>) {
    forall i :: 0 <= i < |s| ==> s[i].price > 0
  }

  /** The only value an item gives `saucesPerItem` is 1, and only an item with a sauce choice gives one. */
  predicate SauceSettingsIn(s: seq<MenuItem>) {
    forall i :: 0 <= i < |s| && s[i].customizations.saucesPerItem.Some? ==>
      s[i].customizations.saucesPerItem == Some(1) && s[i].customizations.sauceChoice
  }

  lemma CategoryFacts()
    ensures PricesPositiveIn(SIMPLE_MEALS.items) && PricesPositiveIn(DESSERTS.items)
    ensures PricesPositiveIn(SETS.items) && PricesPositiveIn(COMBOS.items)
    ensures SauceSettingsIn(SIMPLE_MEALS.items) && SauceSettingsIn(DESSERTS.items)
    ensures SauceSettingsIn(SETS.items) && SauceSettingsIn(COMBOS.items)
  {
    CategoryPrices();
    CategorySauceSettings();
  }

  lemma CategoryPrices()
    ensures PricesPositiveIn(SIMPLE_MEALS.items) && PricesPositiveIn(DESSERTS.items)
    ensures PricesPositiveIn(SETS.items) && PricesPositiveIn(COMBOS.items)
  {
  }

  lemma CategorySauceSettings()
    ensures SauceSettingsIn(SIMPLE_MEALS.items) && SauceSettingsIn(DESSERTS.items)
    ensures SauceSettingsIn(SETS.items) && SauceSettingsIn(COMBOS.items)
  {
  }

  lemma MenuFactsConcat(s: seq<MenuItem>, t: seq<MenuItem>)
    ensures PricesPositiveIn(s) && PricesPositiveIn(t) ==> PricesPositiveIn(s + t)
    ensures SauceSettingsIn(s) && SauceSettingsIn(t) ==> SauceSettingsIn(s + t)
  {
    assert forall i :: 0 <= i < |s| ==> (s + t)[i] == s[i];
    assert forall i :: |s| <= i < |s + t| ==> (s + t)[i] == t[i - |s|];
  }

  /** Every price in the fallback catalogue is a positive whole number. */
  lemma PricesPositive()
    ensures forall it :: it in AllItems(MENU_DATA) ==> it.price > 0
    ensures forall a :: a in ADDONS ==> a.price > 0
  {
    MenuItems();
    CategoryFacts();
    MenuFactsConcat(SETS.items, COMBOS.items);
    MenuFactsConcat(DESSERTS.items, SETS.items + COMBOS.items);
    MenuFactsConcat(SIMPLE_MEALS.items, DESSERTS.items + (SETS.items + COMBOS.items));
    assert forall i :: 0 <= i < |ADDONS| ==> ADDONS[i].price > 0;
  }

  /** An item that sets `saucesPerItem` sets it to 1, and only on a sauce item; the others fall back to 2. */
  lemma SaucesPerItemIsOne()
    ensures forall it :: it in AllItems(MENU_DATA) && it.customizations.saucesPerItem.Some? ==>
      it.customizations.saucesPerItem == Some(1) && it.customizations.sauceChoice
  {
    MenuItems();
    CategoryFacts();
    MenuFactsConcat(SETS.items, COMBOS.items);
    MenuFactsConcat(DESSERTS.items, SETS.items + COMBOS.items);
    MenuFactsConcat(SIMPLE_MEALS.items, DESSERTS.items + (SETS.items + COMBOS.items));
  }

  /** `DONENESS_LEVELS` lists the four labels of the `DonenessLevel` union, each once. */
  lemma DonenessLevelsMatch()
    ensures |DONENESS_LEVELS| == 4 && Distinct(DONENESS_LEVELS)
    ensures forall i :: 0 <= i < 4 ==> DONENESS_LEVELS[i] == DonenessLabel(ALL_DONENESS[i])
    ensures forall d: DonenessLevel :: d in ALL_DONENESS && DonenessLabel(d) in DONENESS_LEVELS
    ensures forall d, e: DonenessLevel :: DonenessLabel(d) == DonenessLabel(e) ==> d == e
  {
    forall d: DonenessLevel ensures d in ALL_DONENESS && DonenessLabel(d) in DONENESS_LEVELS {
      match d
      case Doneness3 => assert ALL_DONENESS[0] == d;
      case Doneness5 => assert ALL_DONENESS[1] == d;
      case Doneness7 => assert ALL_DONENESS[2] == d;
      case DonenessFull => assert ALL_DONENESS[3] == d;
    }
  }

  /** The sauce, drink and dessert lists each name every choice once. */
  lemma ChoiceListsDistinct()
    ensures |SAUCE_CHOICES| == 8 && Distinct(SAUCE_CHOICES)
    ensures |DRINK_CHOICES| == 2 && Distinct(DRINK_CHOICES)
    ensures |DESSERT_CHOICES| == 5 && Distinct(DESSERT_CHOICES)
    ensures |ICECREAM_CHOICES| == 8 && Distinct(ICECREAM_CHOICES)
  {
  }

  /** Dessert groups A and B share no name, so a dessert belongs to at most one group. */
  lemma DessertGroupsDisjoint()
    ensures forall n :: n in DESSERT_CHOICES ==> n !in ICECREAM_CHOICES
  {
  }
}
