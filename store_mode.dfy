/**
 * Store mode (components/store-mode.tsx): a checklist of the shopping items,
 * grouped by department in a fixed order, with completion counts per
 * department and overall.
 */
module StoreMode {
  import opened Wrappers
  import opened Sequences

  datatype StoreItem = StoreItem(
    id: string,
    name: string,
    quantity: real,
    unit: string,
    category: string,
    aisle: string,
    checked: bool,
    price: Option<real>)

  /** One entry of the grouping record: a department and its items. */
  datatype Group = Group(category: string, items: seq<StoreItem>)

  /** The departments, in display order. */
  const Categories: seq<string> := [
    "Fruits et légumes",
    "Boulangerie",
    "Produits laitiers",
    "Viandes et poissons",
    "Épicerie salée",
    "Épicerie sucrée",
    "Surgelés",
    "Hygiène et beauté"
  ]

  ghost predicate Distinct<T>(s: seq<T>) {
    forall i, j :: 0 <= i < j < |s| ==> s[i] != s[j]
  }

  /** The ids of a sequence of items. */
  function IdsOf(items: seq<StoreItem>): (ids: set<string>)
    ensures forall i :: 0 <= i < |items| ==> items[i].id in ids
    ensures forall id :: id in ids ==> exists i :: 0 <= i < |items| && items[i].id == id
  {
    set i | 0 <= i < |items| :: items[i].id
  }

  /** The `toggleItem` update: a copy of the set with `id` added or removed. */
  function Toggled(checked: set<string>, id: string): (r: set<string>)
    ensures id in r <==> id !in checked
    ensures forall other :: other != id ==> (other in r <==> other in checked)
  {
    if id in checked then checked - {id} else checked + {id}
  }

  /** The items of one department, in their original order. */
  function ItemsIn(items: seq<StoreItem>, category: string): (r: seq<StoreItem>)
    ensures forall x :: x in r <==> x in items && x.category == category
  {
    Filter(items, (x: StoreItem) => x.category == category)
  }

  /** The category names of a grouping record, in its key order. */
  function Keys(groups: seq<Group>): (ks: seq<string>)
    ensures |ks| == |groups|
    ensures forall i :: 0 <= i < |groups| ==> ks[i] == groups[i].category
  {
    if groups == [] then [] else [groups[0].category] + Keys(groups[1..])
  }

  /**
   * Assignment `acc[c] = v` on a record: an existing key keeps its position
   * and gets the new value, a new key goes last.
   */
  function Put(acc: seq<Group>, c: string, v: seq<StoreItem>): (r: seq<Group>)
    ensures c !in Keys(acc) ==> r == acc + [Group(c, v)]
    ensures forall g :: g in r ==> g in acc || g == Group(c, v)
  {
    if acc == [] then [Group(c, v)]
    else if acc[0].category == c then [Group(c, v)] + acc[1..]
    else [acc[0]] + Put(acc[1..], c, v)
  }

  /** The `groupedItems` reduce over a category list, as a left fold. */
  function Grouped(cats: seq<string>, items: seq<StoreItem>): seq<Group>
    decreases |cats|
  {
    if cats == [] then []
    else
      var c := cats[|cats| - 1];
      var acc := Grouped(cats[..|cats| - 1], items);
      if |ItemsIn(items, c)| > 0 then Put(acc, c, ItemsIn(items, c)) else acc
  }

  /** Reference definition: the categories that have at least one item, in list order. */
  function CategoriesWithItems(cats: seq<string>, items: seq<StoreItem>): (r: seq<string>)
    ensures forall c :: c in r <==> c in cats && ItemsIn(items, c) != []
  {
    Filter(cats, (c: string) => ItemsIn(items, c) != [])
  }

  /** The reduce as the component runs it, over the fixed department list. */
  method GroupItems(items: seq<StoreItem>) returns (groups: seq<Group>)
    ensures groups == Grouped(Categories, items)
  {
    groups := [];
    for i := 0 to |Categories|
      invariant groups == Grouped(Categories[..i], items)
    {
      var c := Categories[i];
      var categoryItems := ItemsIn(items, c);
      assert Categories[..i + 1][..i] == Categories[..i];
      if |categoryItems| > 0 {
        groups := Put(groups, c, categoryItems);
      }
    }
    assert Categories[..|Categories|] == Categories;
  }

  /** Reference count: the number of `items` whose id is in the checked set. */
  function CheckedIdCount(items: seq<StoreItem>, checked: set<string>): nat {
    if items == [] then 0
    else (if items[0].id in checked then 1 else 0) + CheckedIdCount(items[1..], checked)
  }

  /** `categoryCompleted`: the length of the filter keeping the checked items. */
  function CheckedCount(items: seq<StoreItem>, checked: set<string>): (n: nat)
    ensures n == CheckedIdCount(items, checked)
    ensures n <= |items|
  {
    CheckedFilterIsCount(items, checked);
    |Filter(items, (x: StoreItem) => x.id in checked)|
  }

  lemma {:induction false} CheckedFilterIsCount(items: seq<StoreItem>, checked: set<string>)
    ensures |Filter(items, (x: StoreItem) => x.id in checked)| == CheckedIdCount(items, checked)
  {
    if items != [] {
      CheckedFilterIsCount(items[1..], checked);
    }
  }

  /** A department is completed when its checked count equals its item count. */
  predicate IsCompleted(groupItems: seq<StoreItem>, checked: set<string>) {
    CheckedCount(groupItems, checked) == |groupItems|
  }

  /** The "shopping finished" card: `completedItems === totalItems`. */
  predicate AllDone(items: seq<StoreItem>, checked: set<string>) {
    |checked| == |items|
  }

  /** The screen's state: the (never updated) items and the checked ids. */
  class StoreModeScreen {
    const items: seq<StoreItem>
    var checkedItems: set<string>

    constructor (items: seq<StoreItem>, initiallyChecked: set<string>)
      ensures this.items == items && checkedItems == initiallyChecked
    {
      this.items := items;
      checkedItems := initiallyChecked;
    }

    /** Every checked id belongs to an item on the screen. */
    ghost predicate CheckedAreItems()
      reads this
    {
      checkedItems <= IdsOf(items)
    }

    /** A checkbox is clicked. */
    method ToggleItem(id: string)
      modifies this
      ensures checkedItems == Toggled(old(checkedItems), id)
      ensures old(CheckedAreItems()) && id in IdsOf(items) ==> CheckedAreItems()
    {
      var newChecked := checkedItems;
      if id in newChecked {
        newChecked := newChecked - {id};
      } else {
        newChecked := newChecked + {id};
      }
      checkedItems := newChecked;
    }
  }

  /** Toggling the same id twice restores the set. */
  lemma ToggleTwice(checked: set<string>, id: string)
    ensures Toggled(Toggled(checked, id), id) == checked
  {
  }

  /** The fixed department list has no repeated name. */
  lemma CategoriesDistinct()
    ensures Distinct(Categories)
  {
  }

  /** Every group is a listed category with at least one item, holding exactly its items. */
  lemma {:induction false} GroupedSound(cats: seq<string>, items: seq<StoreItem>)
    ensures forall g :: g in Grouped(cats, items) ==>
              g.category in cats && g.items == ItemsIn(items, g.category) && g.items != []
    decreases |cats|
  {
    if cats != [] {
      var init := cats[..|cats| - 1];
      GroupedSound(init, items);
      assert forall c :: c in init ==> c in cats;
    }
  }

  /** An item whose category is not listed appears in no group. */
  lemma UnlistedItemHidden(cats: seq<string>, items: seq<StoreItem>, x: StoreItem)
    requires x.category !in cats
    ensures forall g :: g in Grouped(cats, items) ==> x !in g.items
  {
    GroupedSound(cats, items);
  }

  /**
   * With distinct categories, the group keys are exactly the categories
   * having items, in the order of the category list.
   */
  lemma {:induction false} GroupedKeys(cats: seq<string>, items: seq<StoreItem>)
    requires Distinct(cats)
    ensures Keys(Grouped(cats, items)) == CategoriesWithItems(cats, items)
    decreases |cats|
  {
    if cats != [] {
      var init, c := cats[..|cats| - 1], cats[|cats| - 1];
      assert cats == init + [c];
      GroupedKeys(init, items);
      var acc := Grouped(init, items);
      FilterConcat(init, [c], (c: string) => ItemsIn(items, c) != []);
      if |ItemsIn(items, c)| > 0 {
        GroupedSound(init, items);
        assert c !in init;
        KeysAppend(acc, Group(c, ItemsIn(items, c)));
      }
    }
  }

  lemma {:induction false} KeysAppend(groups: seq<Group>, g: Group)
    ensures Keys(groups + [g]) == Keys(groups) + [g.category]
  {
  }

  /** The fixed department list: groups follow its order and cover every department with items. */
  lemma DisplayedGroups(items: seq<StoreItem>)
    ensures Keys(Grouped(Categories, items)) == CategoriesWithItems(Categories, items)
  {
    CategoriesDistinct();
    GroupedKeys(Categories, items);
  }

  /** A department is completed exactly when every one of its items is checked. */
  lemma CompletedIff(groupItems: seq<StoreItem>, checked: set<string>)
    ensures IsCompleted(groupItems, checked) <==>
            forall i :: 0 <= i < |groupItems| ==> groupItems[i].id in checked
  {
    FilterFullLength(groupItems, (x: StoreItem) => x.id in checked);
  }

  /** Distinct item ids give as many ids as items. */
  lemma {:induction false} IdsOfSize(items: seq<StoreItem>)
    requires forall i, j :: 0 <= i < j < |items| ==> items[i].id != items[j].id
    ensures |IdsOf(items)| == |items|
    decreases |items|
  {
    if items != [] {
      var init := items[..|items| - 1];
      IdsOfSize(init);
      assert IdsOf(items) == IdsOf(init) + {items[|items| - 1].id};
      assert items[|items| - 1].id !in IdsOf(init);
    }
  }

  /**
   * When every checked id is an item's id and ids are distinct, the
   * "finished" card shows exactly when every item is checked.
   */
  lemma AllDoneIff(items: seq<StoreItem>, checked: set<string>)
    requires checked <= IdsOf(items)
    requires forall i, j :: 0 <= i < j < |items| ==> items[i].id != items[j].id
    ensures AllDone(items, checked) <==> forall i :: 0 <= i < |items| ==> items[i].id in checked
  {
    IdsOfSize(items);
    if forall i :: 0 <= i < |items| ==> items[i].id in checked {
      assert IdsOf(items) == checked;
    } else {
      var i :| 0 <= i < |items| && items[i].id !in checked;
      var ids := IdsOf(items);
      assert ids == checked + (ids - checked);
      assert items[i].id in ids - checked;
    }
  }
}
