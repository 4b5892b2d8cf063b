/**
 * The home page (app/app/page.tsx): loads the family's lists with their item
 * counts, prepends a newly created list, and shows the three most recent.
 * Every backend answer is an input.
 */
module HomePage {
  import opened Wrappers
  import opened Sequences
  import opened ShoppingListManager

  /** The columns of `list_items` the count query selects. */
  datatype ItemRow = ItemRow(id: string, checked: bool)

  /** One list of the family together with what its item query returned. */
  datatype ListFetch = ListFetch(list: ShoppingList, rows: Option<seq<ItemRow>>)

  datatype Member = Member(familyId: string, displayName: string)

  datatype FamilyInfo = FamilyInfo(name: Option<string>, memberCount: nat)

  datatype Route = Login | Onboarding

  /**
   * The answers `checkAuthAndLoadData` awaits, in order: the signed-in user
   * (absent also on an auth error), the member row (absent also on error),
   * the family name, the family's members, and the lists with their items.
   */
  datatype LoadResponse = LoadResponse(
    user: Option<string>,
    member: Option<Member>,
    familyName: Option<string>,
    members: Option<seq<string>>,
    shoppingLists: Option<seq<ListFetch>>)

  /** The answers `createNewList` awaits: the user, the member's family, the insert. */
  datatype CreateResponse = CreateResponse(
    user: Option<string>,
    memberFamilyId: Option<string>,
    inserted: Option<ShoppingList>,
    error: Option<string>)

  /** The row `createNewList` asks the backend to insert. */
  datatype InsertRequest = InsertRequest(name: string, familyId: string, createdBy: string)

  /** Reference count: the number of rows whose `checked` is true. */
  function CheckedRowCount(rows: seq<ItemRow>): nat {
    if rows == [] then 0 else (if rows[0].checked then 1 else 0) + CheckedRowCount(rows[1..])
  }

  /** `items?.filter((item) => item.checked).length || 0` */
  function CheckedRows(rows: seq<ItemRow>): (n: nat)
    ensures n == CheckedRowCount(rows)
    ensures n <= |rows|
    ensures n == |rows| <==> forall i :: 0 <= i < |rows| ==> rows[i].checked
  {
    FilterFullLength(rows, (r: ItemRow) => r.checked);
    CheckedFilterIsCount(rows);
    |Filter(rows, (r: ItemRow) => r.checked)|
  }

  lemma {:induction false} CheckedFilterIsCount(rows: seq<ItemRow>)
    ensures |Filter(rows, (r: ItemRow) => r.checked)| == CheckedRowCount(rows)
  {
    if rows != [] {
      CheckedFilterIsCount(rows[1..]);
    }
  }

  /** One list with the two counts added; every other field is kept. */
  function WithCounts(list: ShoppingList, rows: Option<seq<ItemRow>>): (r: ShoppingList)
    ensures r.id == list.id && r.name == list.name && r.familyId == list.familyId
    ensures r.createdBy == list.createdBy && r.createdAt == list.createdAt
    ensures r.items == Some(if rows.Some? then |rows.value| else 0)
    ensures r.checkedItems == Some(if rows.Some? then CheckedRowCount(rows.value) else 0)
    ensures r.checkedItems.Some? && 0 <= r.checkedItems.value <= r.items.value
    ensures rows.Some? ==>
              (r.checkedItems.value == r.items.value <==>
               forall i :: 0 <= i < |rows.value| ==> rows.value[i].checked)
  {
    var total := if rows.Some? then |rows.value| else 0;
    var checked := if rows.Some? then CheckedRows(rows.value) else 0;
    list.(items := Some(total), checkedItems := Some(checked))
  }

  /** `listsWithCounts`: the lists in their order, each with its counts. */
  function ListsWithCounts(fetched: seq<ListFetch>): (r: seq<ShoppingList>)
    ensures |r| == |fetched|
    ensures forall i :: 0 <= i < |fetched| ==> r[i] == WithCounts(fetched[i].list, fetched[i].rows)
  {
    if fetched == [] then []
    else [WithCounts(fetched[0].list, fetched[0].rows)] + ListsWithCounts(fetched[1..])
  }

  /** Every list carries both counts, with no more checked items than items. */
  ghost predicate CountsConsistent(lists: seq<ShoppingList>) {
    forall i :: 0 <= i < |lists| ==>
      lists[i].items.Some? && lists[i].checkedItems.Some? &&
      0 <= lists[i].checkedItems.value <= lists[i].items.value
  }

  /** `lists.slice(0, 3)`: the home view's recent lists. */
  function Recent(lists: seq<ShoppingList>): (r: seq<ShoppingList>)
    ensures |r| == if |lists| < 3 then |lists| else 3
    ensures r == lists[..|r|]
  {
    if |lists| < 3 then lists else lists[..3]
  }

  /**
   * The home card's `progressPercentage`, in exact arithmetic. `None` stands
   * for the NaN that `checkedItems! / items` gives when the checked count is
   * absent but the item count is positive.
   */
  function HomeProgress(l: ShoppingList): (pct: Option<real>)
    ensures !HasItems(l) ==> pct == Some(0.0)
    ensures HasItems(l) && l.checkedItems.None? ==> pct == None
    ensures HasItems(l) && l.checkedItems.Some? && 0 <= l.checkedItems.value <= l.items.value ==>
              pct.Some? && 0.0 <= pct.value <= 100.0
  {
    if HasItems(l) then
      if l.checkedItems.Some? then Some((l.checkedItems.value as real / l.items.value as real) * 100.0)
      else None
    else Some(0.0)
  }

  /** The page's state. */
  class HomePageState {
    var lists: seq<ShoppingList>
    var familyInfo: Option<FamilyInfo>
    var loading: bool

    constructor ()
      ensures lists == [] && familyInfo == None && loading
    {
      lists := [];
      familyInfo := None;
      loading := true;
    }

    ghost predicate Valid()
      reads this
    {
      CountsConsistent(lists)
    }

    /**
     * `checkAuthAndLoadData`: without a user, go to sign-in; without a member
     * row, go to onboarding; otherwise record the family and, when the lists
     * query answered, replace the lists by the lists with counts. The load
     * flag is cleared on every path.
     */
    method CheckAuthAndLoadData(resp: LoadResponse) returns (redirect: Option<Route>)
      modifies this
      ensures !loading
      ensures resp.user.None? ==>
                redirect == Some(Login) && lists == old(lists) && familyInfo == old(familyInfo)
      ensures resp.user.Some? && resp.member.None? ==>
                redirect == Some(Onboarding) && lists == old(lists) && familyInfo == old(familyInfo)
      ensures resp.user.Some? && resp.member.Some? ==>
                redirect == None &&
                familyInfo == Some(FamilyInfo(resp.familyName,
                                              if resp.members.Some? then |resp.members.value| else 0)) &&
                lists == (if resp.shoppingLists.Some? then ListsWithCounts(resp.shoppingLists.value)
                          else old(lists))
      ensures old(Valid()) ==> Valid()
    {
      redirect := None;
      if resp.user.None? {
        redirect := Some(Login);
      } else if resp.member.None? {
        redirect := Some(Onboarding);
      } else {
        var memberCount := if resp.members.Some? then |resp.members.value| else 0;
        familyInfo := Some(FamilyInfo(resp.familyName, memberCount));
        if resp.shoppingLists.Some? {
          lists := ListsWithCounts(resp.shoppingLists.value);
        }
      }
      loading := false;
    }

    /**
     * `createNewList(name)`: nothing without a user, family info or member
     * row; otherwise the insert is requested, and only when it answers a row
     * without error is that row, with zero counts, put in front of the lists.
     */
    method CreateNewList(name: string, resp: CreateResponse) returns (request: Option<InsertRequest>)
      modifies this
      ensures request.Some? <==>
                resp.user.Some? && old(familyInfo).Some? && resp.memberFamilyId.Some?
      ensures request.Some? ==>
                request.value == InsertRequest(name, resp.memberFamilyId.value, resp.user.value)
      ensures request.Some? && resp.error.None? && resp.inserted.Some? ==>
                lists == [resp.inserted.value.(items := Some(0), checkedItems := Some(0))] + old(lists)
      ensures !(request.Some? && resp.error.None? && resp.inserted.Some?) ==> lists == old(lists)
      ensures familyInfo == old(familyInfo) && loading == old(loading)
      ensures old(Valid()) ==> Valid()
    {
      request := None;
      if resp.user.None? || familyInfo.None? {
        return;
      }
      if resp.memberFamilyId.None? {
        return;
      }
      request := Some(InsertRequest(name, resp.memberFamilyId.value, resp.user.value));
      if resp.error.None? && resp.inserted.Some? {
        var created := resp.inserted.value.(items := Some(0), checkedItems := Some(0));
        lists := [created] + lists;
      }
    }
  }

  /** Lists loaded with counts always carry consistent counts. */
  lemma LoadedCountsConsistent(fetched: seq<ListFetch>)
    ensures CountsConsistent(ListsWithCounts(fetched))
  {
  }

  /**
   * After a create, the home view shows the new list first, followed by the
   * first two of the lists shown before (or all of them when there were fewer).
   */
  lemma NewListShownFirst(lists: seq<ShoppingList>, created: ShoppingList)
    ensures Recent([created] + lists)[0] == created
    ensures Recent([created] + lists)[1..] == lists[..if |lists| < 2 then |lists| else 2]
  {
  }

  /** On consistent lists, every recent card has a defined percentage between 0 and 100. */
  lemma RecentProgressDefined(lists: seq<ShoppingList>)
    requires CountsConsistent(lists)
    ensures forall i :: 0 <= i < |Recent(lists)| ==>
              HomeProgress(Recent(lists)[i]).Some? &&
              0.0 <= HomeProgress(Recent(lists)[i]).value <= 100.0
  {
    var r := Recent(lists);
    forall i | 0 <= i < |r|
      ensures HomeProgress(r[i]).Some? && 0.0 <= HomeProgress(r[i]).value <= 100.0
    {
      assert r[i] == lists[i];
    }
  }
}
