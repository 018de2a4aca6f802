/**
 * The add-on sections of the item modal (ItemModal.tsx): the add-ons grouped by
 * category in order of first appearance, the main-course group on its own and
 * the other groups after it.
 */
module AddonGroups {
  import opened Wrappers
  import opened Types
  import opened Catalog

  /** `mainCourseAddonCategory`. */
  const MAIN_COURSE_CATEGORY := "主餐加購"

  /** One `[categoryName, addons]` entry of `addonGroups`. */
  datatype Group = Group(category: string, addons: seq<Addon>)

  /** `addons.filter(a => a.category === c)`: the reference the grouping is checked against. */
  function InCategory(addons: seq<Addon>, c: string): seq<Addon> {
    if addons == [] then []
    else (if addons[0].category == c then [addons[0]] else []) + InCategory(addons[1..], c)
  }

  predicate HasGroup(groups: seq<Group>, c: string) {
    exists i :: 0 <= i < |groups| && groups[i].category == c
  }

  predicate CategoriesDistinct(groups: seq<Group>) {
    forall i, j :: 0 <= i < j < |groups| ==> groups[i].category != groups[j].category
  }

  /** `acc[c] || []`: the add-ons of the first group with that category. */
  function GroupOf(groups: seq<Group>, c: string): seq<Addon> {
    if groups == [] then []
    else if groups[0].category == c then groups[0].addons
    else GroupOf(groups[1..], c)
  }

  /** `(acc[addon.category] = acc[addon.category] || []).push(addon)`. */
  function AddToGroups(groups: seq<Group>, a: Addon): seq<Group> {
    if groups == [] then [Group(a.category, [a])]
    else if groups[0].category == a.category then [groups[0].(addons := groups[0].addons + [a])] + groups[1..]
    else [groups[0]] + AddToGroups(groups[1..], a)
  }

  /** `addonGroups`: the reduce over the add-ons, one push at a time. */
  function GroupByCategory(addons: seq<Addon>): seq<Group> {
    if addons == [] then [] else AddToGroups(GroupByCategory(addons[..|addons| - 1]), addons[|addons| - 1])
  }

  /** `otherAddonGroups`: the groups other than the main-course one, in order. */
  function OtherAddonGroups(groups: seq<Group>): seq<Group> {
    if groups == [] then []
    else (if groups[0].category != MAIN_COURSE_CATEGORY then [groups[0]] else []) + OtherAddonGroups(groups[1..])
  }

  /** `mainCourseAddonGroup`: the main-course group, if there is one. */
  function MainCourseAddonGroup(groups: seq<Group>): Option<Group> {
    if groups == [] then None
    else if groups[0].category == MAIN_COURSE_CATEGORY then Some(groups[0])
    else MainCourseAddonGroup(groups[1..])
  }

  // ---------------------------------------------------------------------------

  lemma {:induction false} InCategoryAppend(addons: seq<Addon>, a: Addon, c: string)
    ensures InCategory(addons + [a], c) == InCategory(addons, c) + (if a.category == c then [a] else [])
  {
    if addons == [] {
      assert addons + [a] == [a];
    } else {
      var b := addons + [a];
      assert b[0] == addons[0] && b[1..] == addons[1..] + [a];
      InCategoryAppend(addons[1..], a, c);
      var h := if addons[0].category == c then [addons[0]] else [];
      var t := if a.category == c then [a] else [];
      assert InCategory(b, c) == h + (InCategory(addons[1..], c) + t);
      assert h + (InCategory(addons[1..], c) + t) == (h + InCategory(addons[1..], c)) + t;
    }
  }

  /** What one push into `acc` changes. */
  lemma AddToGroupsFacts(groups: seq<Group>, a: Addon)
    ensures forall c :: HasGroup(AddToGroups(groups, a), c) <==> HasGroup(groups, c) || c == a.category
    ensures forall c :: GroupOf(AddToGroups(groups, a), c) == GroupOf(groups, c) + (if c == a.category then [a] else [])
    ensures CategoriesDistinct(groups) ==> CategoriesDistinct(AddToGroups(groups, a))
  {
    AddToGroupsHas(groups, a);
    AddToGroupsOf(groups, a);
    if CategoriesDistinct(groups) {
      AddToGroupsDistinct(groups, a);
    }
  }

  lemma {:induction false} HasGroupTail(groups: seq<Group>, c: string)
    requires groups != []
    ensures HasGroup(groups, c) <==> groups[0].category == c || HasGroup(groups[1..], c)
  {
    if HasGroup(groups, c) && groups[0].category != c {
      var i :| 0 <= i < |groups| && groups[i].category == c;
      assert groups[1..][i - 1].category == c;
    }
    if HasGroup(groups[1..], c) {
      var i :| 0 <= i < |groups| - 1 && groups[1..][i].category == c;
      assert groups[i + 1].category == c;
    }
  }

  lemma {:induction false} AddToGroupsHas(groups: seq<Group>, a: Addon)
    ensures forall c :: HasGroup(AddToGroups(groups, a), c) <==> HasGroup(groups, c) || c == a.category
  {
    var r := AddToGroups(groups, a);
    if groups == [] {
      assert r == [Group(a.category, [a])];
      assert r[0].category == a.category;
    } else if groups[0].category == a.category {
      assert forall i :: 0 <= i < |r| ==> r[i].category == groups[i].category;
      forall c ensures HasGroup(r, c) <==> HasGroup(groups, c) {
        if HasGroup(groups, c) {
          var i :| 0 <= i < |groups| && groups[i].category == c;
          assert r[i].category == c;
        }
      }
    } else {
      var t := AddToGroups(groups[1..], a);
      AddToGroupsHas(groups[1..], a);
      assert r[1..] == t && r[0] == groups[0];
      forall c ensures HasGroup(r, c) <==> HasGroup(groups, c) || c == a.category {
        HasGroupTail(r, c);
        HasGroupTail(groups, c);
      }
    }
  }

  lemma {:induction false} AddToGroupsOf(groups: seq<Group>, a: Addon)
    ensures forall c :: GroupOf(AddToGroups(groups, a), c) == GroupOf(groups, c) + (if c == a.category then [a] else [])
  {
    var r := AddToGroups(groups, a);
    if groups == [] {
      forall c ensures GroupOf(r, c) == (if c == a.category then [a] else []) {
        assert r[1..] == [];
      }
    } else if groups[0].category == a.category {
      assert r[1..] == groups[1..];
    } else {
      AddToGroupsOf(groups[1..], a);
      assert r[1..] == AddToGroups(groups[1..], a) && r[0] == groups[0];
    }
  }

  lemma {:induction false} AddToGroupsDistinct(groups: seq<Group>, a: Addon)
    requires CategoriesDistinct(groups)
    ensures CategoriesDistinct(AddToGroups(groups, a))
  {
    var r := AddToGroups(groups, a);
    if groups == [] {
    } else if groups[0].category == a.category {
      assert forall i :: 0 <= i < |r| ==> r[i].category == groups[i].category;
    } else {
      var t := AddToGroups(groups[1..], a);
      assert CategoriesDistinct(groups[1..]) by {
        forall i, j | 0 <= i < j < |groups| - 1 ensures groups[1..][i].category != groups[1..][j].category {
          assert groups[1..][i] == groups[i + 1] && groups[1..][j] == groups[j + 1];
        }
      }
      AddToGroupsDistinct(groups[1..], a);
      AddToGroupsHas(groups[1..], a);
      HasGroupTail(groups, groups[0].category);
      assert !HasGroup(groups[1..], groups[0].category);
      assert r[1..] == t && r[0] == groups[0];
      forall i, j | 0 <= i < j < |r| ensures r[i].category != r[j].category {
        if i == 0 {
          assert r[j] == t[j - 1];
          assert HasGroup(t, r[j].category);
        } else {
          assert r[i] == t[i - 1] && r[j] == t[j - 1];
        }
      }
    }
  }

  /**
   * The grouping is exact: each category of the add-ons has one group, which
   * holds exactly that category's add-ons in their order, and no other group exists.
   */
  lemma {:induction false} GroupByCategoryExact(addons: seq<Addon>)
    ensures CategoriesDistinct(GroupByCategory(addons))
    ensures forall c :: GroupOf(GroupByCategory(addons), c) == InCategory(addons, c)
    ensures forall c :: HasGroup(GroupByCategory(addons), c) <==> InCategory(addons, c) != []
    decreases |addons|
  {
    if addons != [] {
      var init, a := addons[..|addons| - 1], addons[|addons| - 1];
      assert addons == init + [a];
      GroupByCategoryExact(init);
      AddToGroupsFacts(GroupByCategory(init), a);
      forall c ensures InCategory(addons, c) == InCategory(init, c) + (if a.category == c then [a] else []) {
        InCategoryAppend(init, a, c);
      }
    }
  }

  lemma {:induction false} HasGroupGroupOf(groups: seq<Group>, c: string)
    requires HasGroup(groups, c)
    ensures exists i :: 0 <= i < |groups| && groups[i] == Group(c, GroupOf(groups, c))
  {
    if groups[0].category == c {
      assert groups[0] == Group(c, GroupOf(groups, c));
    } else {
      var i :| 0 <= i < |groups| && groups[i].category == c;
      assert groups[1..][i - 1].category == c;
      HasGroupGroupOf(groups[1..], c);
      var j :| 0 <= j < |groups| - 1 && groups[1..][j] == Group(c, GroupOf(groups[1..], c));
      assert groups[j + 1] == Group(c, GroupOf(groups, c));
    }
  }

  lemma {:induction false} MainCourseFound(groups: seq<Group>)
    ensures MainCourseAddonGroup(groups) ==
      if HasGroup(groups, MAIN_COURSE_CATEGORY) then Some(Group(MAIN_COURSE_CATEGORY, GroupOf(groups, MAIN_COURSE_CATEGORY))) else None
  {
    if groups != [] {
      MainCourseFound(groups[1..]);
      if groups[0].category != MAIN_COURSE_CATEGORY {
        assert HasGroup(groups, MAIN_COURSE_CATEGORY) == HasGroup(groups[1..], MAIN_COURSE_CATEGORY) by {
          if HasGroup(groups, MAIN_COURSE_CATEGORY) {
            var i :| 0 <= i < |groups| && groups[i].category == MAIN_COURSE_CATEGORY;
            assert groups[1..][i - 1].category == MAIN_COURSE_CATEGORY;
          }
          if HasGroup(groups[1..], MAIN_COURSE_CATEGORY) {
            var i :| 0 <= i < |groups| - 1 && groups[1..][i].category == MAIN_COURSE_CATEGORY;
            assert groups[i + 1].category == MAIN_COURSE_CATEGORY;
          }
        }
      }
    }
  }

  /** The main-course section lists exactly the main-course add-ons, and is absent when there are none. */
  lemma MainCourseGroupExact(addons: seq<Addon>)
    ensures MainCourseAddonGroup(GroupByCategory(addons)) ==
      if InCategory(addons, MAIN_COURSE_CATEGORY) == [] then None
      else Some(Group(MAIN_COURSE_CATEGORY, InCategory(addons, MAIN_COURSE_CATEGORY)))
  {
    GroupByCategoryExact(addons);
    MainCourseFound(GroupByCategory(addons));
  }

  lemma {:induction false} OtherGroupsFacts(groups: seq<Group>)
    ensures forall g :: g in OtherAddonGroups(groups) <==> g in groups && g.category != MAIN_COURSE_CATEGORY
  {
    if groups != [] {
      OtherGroupsFacts(groups[1..]);
      assert groups == [groups[0]] + groups[1..];
    }
  }

  /**
   * The other sections are exactly the other categories of the add-ons, each
   * with that category's add-ons, and none of them is the main-course one.
   */
  lemma OtherGroupsExact(addons: seq<Addon>)
    ensures forall g :: g in OtherAddonGroups(GroupByCategory(addons)) ==>
      g.category != MAIN_COURSE_CATEGORY && g.addons == InCategory(addons, g.category) && g.addons != []
    ensures forall c :: c != MAIN_COURSE_CATEGORY && InCategory(addons, c) != [] ==>
      Group(c, InCategory(addons, c)) in OtherAddonGroups(GroupByCategory(addons))
  {
    var groups := GroupByCategory(addons);
    GroupByCategoryExact(addons);
    OtherGroupsFacts(groups);
    forall g | g in groups ensures g.addons == InCategory(addons, g.category) && g.addons != [] {
      var i :| 0 <= i < |groups| && groups[i] == g;
      assert HasGroup(groups, g.category);
      HasGroupGroupOf(groups, g.category);
      var j :| 0 <= j < |groups| && groups[j] == Group(g.category, GroupOf(groups, g.category));
      assert i == j;
    }
    forall c | c != MAIN_COURSE_CATEGORY && InCategory(addons, c) != []
      ensures Group(c, InCategory(addons, c)) in OtherAddonGroups(groups)
    {
      HasGroupGroupOf(groups, c);
    }
  }

  lemma {:induction false} InCategoryConcat(s: seq<Addon>, t: seq<Addon>, c: string)
    ensures InCategory(s + t, c) == InCategory(s, c) + InCategory(t, c)
  {
    if s == [] {
      assert s + t == t;
    } else {
      var u := s + t;
      assert u[0] == s[0] && u[1..] == s[1..] + t;
      InCategoryConcat(s[1..], t, c);
      var h := if s[0].category == c then [s[0]] else [];
      assert InCategory(u, c) == h + (InCategory(s[1..], c) + InCategory(t, c));
      assert h + (InCategory(s[1..], c) + InCategory(t, c)) == (h + InCategory(s[1..], c)) + InCategory(t, c);
    }
  }

  lemma {:induction false} InCategoryUniform(s: seq<Addon>, c: string)
    ensures (forall i :: 0 <= i < |s| ==> s[i].category == c) ==> InCategory(s, c) == s
    ensures (forall i :: 0 <= i < |s| ==> s[i].category != c) ==> InCategory(s, c) == []
  {
    if s != [] {
      assert forall i :: 0 <= i < |s| - 1 ==> s[1..][i] == s[i + 1];
      InCategoryUniform(s[1..], c);
    }
  }

  lemma TwoCategories(main: seq<Addon>, side: seq<Addon>, other: string)
    requires other != MAIN_COURSE_CATEGORY
    requires forall i :: 0 <= i < |main| ==> main[i].category == MAIN_COURSE_CATEGORY
    requires forall i :: 0 <= i < |side| ==> side[i].category == other
    ensures InCategory(main + side, MAIN_COURSE_CATEGORY) == main
    ensures InCategory(main + side, other) == side
    ensures forall c :: c != MAIN_COURSE_CATEGORY && c != other ==> InCategory(main + side, c) == []
  {
    forall c ensures InCategory(main + side, c) == InCategory(main, c) + InCategory(side, c) {
      InCategoryConcat(main, side, c);
    }
    forall c ensures c == MAIN_COURSE_CATEGORY ==> InCategory(main, c) == main
      ensures c != MAIN_COURSE_CATEGORY ==> InCategory(main, c) == []
      ensures c == other ==> InCategory(side, c) == side
      ensures c != other ==> InCategory(side, c) == []
    {
      InCategoryUniform(main, c);
      InCategoryUniform(side, c);
    }
  }

  /**
   * A list of main-course add-ons followed by add-ons of one other category
   * shows as exactly those two sections.
   */
  lemma TwoSections(main: seq<Addon>, side: seq<Addon>, other: string)
    requires other != MAIN_COURSE_CATEGORY && main != [] && side != []
    requires forall i :: 0 <= i < |main| ==> main[i].category == MAIN_COURSE_CATEGORY
    requires forall i :: 0 <= i < |side| ==> side[i].category == other
    ensures MainCourseAddonGroup(GroupByCategory(main + side)) == Some(Group(MAIN_COURSE_CATEGORY, main))
    ensures forall g :: g in OtherAddonGroups(GroupByCategory(main + side)) <==> g == Group(other, side)
  {
    var all := main + side;
    TwoCategories(main, side, other);
    MainCourseGroupExact(all);
    OtherGroupsExact(all);
    forall g | g in OtherAddonGroups(GroupByCategory(all)) ensures g == Group(other, side) {
      assert g.addons == InCategory(all, g.category) && g.addons != [];
    }
  }

  /**
   * With the fallback add-on list, the main-course section shows the eight
   * 5oz main-course add-ons and the only other section the six side add-ons.
   */
  lemma CatalogueAddonSections()
    ensures MainCourseAddonGroup(GroupByCategory(ADDONS)) == Some(Group(MAIN_COURSE_CATEGORY, ADDONS[..8]))
    ensures forall g :: g in OtherAddonGroups(GroupByCategory(ADDONS)) <==> g == Group("單點加購", ADDONS[8..])
  {
    var main, side := ADDONS[..8], ADDONS[8..];
    assert ADDONS == main + side;
    assert forall i :: 0 <= i < |main| ==> main[i].category == MAIN_COURSE_CATEGORY;
    assert forall i :: 0 <= i < |side| ==> side[i].category == "單點加購";
    TwoSections(main, side, "單點加購");
  }
}
