/**
 * The realtime list hook (hooks/useRealtimeList.ts): a local mirror of one
 * shopping list's items, filled by one bulk fetch and then kept up to date by
 * INSERT / UPDATE / DELETE change notifications. The backend is not modelled:
 * the fetch response and each notification payload are inputs.
 */
module RealtimeList {
  import opened Wrappers
  import opened Sequences

  /** One row of the `list_items` table. */
  datatype ListItem = ListItem(
    id: string,
    labelText: string,
    qty: real,
    unit: string,
    checked: bool,
    price: Option<real>,
    addedBy: string,
    createdAt: string)

  /** What the bulk select resolves to: `data` and `error`, either may be absent. */
  datatype FetchResponse = FetchResponse(data: Option<seq<ListItem>>, error: Option<string>)

  /**
   * A change notification. `newRecord` is the payload's `new` row (used by
   * INSERT and UPDATE), `oldId` the `id` of its `old` row (used by DELETE).
   */
  datatype ChangePayload = ChangePayload(eventType: string, newRecord: ListItem, oldId: string)

  /** The fetch is applied only when there is no error and `data` is present. */
  predicate FetchSucceeded(resp: FetchResponse) {
    resp.error.None? && resp.data.Some?
  }

  /** True when no item of `s` carries identity `id`. */
  predicate IdAbsent(s: seq<ListItem>, id: string) {
    forall i :: 0 <= i < |s| ==> s[i].id != id
  }

  /** The UPDATE transition: every item whose id matches `x.id` becomes `x`. */
  function ReplaceById(s: seq<ListItem>, x: ListItem): (r: seq<ListItem>)
    ensures |r| == |s|
    ensures forall i :: 0 <= i < |s| ==> r[i] == (if s[i].id == x.id then x else s[i])
  {
    if s == [] then []
    else [if s[0].id == x.id then x else s[0]] + ReplaceById(s[1..], x)
  }

  /** The DELETE transition: every item whose id is `id` is dropped. */
  function RemoveById(s: seq<ListItem>, id: string): (r: seq<ListItem>)
    ensures |r| <= |s|
    ensures IdAbsent(r, id)
    ensures forall y :: y in r <==> y in s && y.id != id
  {
    var r := Filter(s, (y: ListItem) => y.id != id);
    assert forall i :: 0 <= i < |r| ==> r[i] in r;
    r
  }

  /** The payload handler: dispatch on the event type; any other type changes nothing. */
  function ApplyChange(s: seq<ListItem>, p: ChangePayload): (r: seq<ListItem>)
    ensures p.eventType == "INSERT" ==>
              |r| == |s| + 1 && r[..|s|] == s && r[|s|] == p.newRecord
    ensures p.eventType == "UPDATE" ==>
              |r| == |s| &&
              forall i :: 0 <= i < |s| ==> r[i] == (if s[i].id == p.newRecord.id then p.newRecord else s[i])
    ensures p.eventType == "DELETE" ==>
              IdAbsent(r, p.oldId) && forall y :: y in r <==> y in s && y.id != p.oldId
    ensures p.eventType !in {"INSERT", "UPDATE", "DELETE"} ==> r == s
  {
    if p.eventType == "INSERT" then s + [p.newRecord]
    else if p.eventType == "UPDATE" then ReplaceById(s, p.newRecord)
    else if p.eventType == "DELETE" then RemoveById(s, p.oldId)
    else s
  }

  /** The state the hook keeps between renders. */
  class RealtimeListHook {
    var listId: string
    var items: seq<ListItem>
    var loading: bool

    /** First render: no items yet, initial load pending. */
    constructor (listId: string)
      ensures this.listId == listId && items == [] && loading
    {
      this.listId := listId;
      items := [];
      loading := true;
    }

    /**
     * The initial fetch resolves. On success the fetched rows replace whatever
     * is there (including changes already applied); otherwise the items stay.
     * Either way the load is no longer pending.
     */
    method FetchResolved(resp: FetchResponse)
      modifies this
      ensures !loading && listId == old(listId)
      ensures FetchSucceeded(resp) ==> items == resp.data.value
      ensures !FetchSucceeded(resp) ==> items == old(items)
    {
      if FetchSucceeded(resp) {
        items := resp.data.value;
      }
      loading := false;
    }

    /** A change notification is delivered. */
    method ChangeReceived(p: ChangePayload)
      modifies this
      ensures items == ApplyChange(old(items), p)
      ensures loading == old(loading) && listId == old(listId)
    {
      if p.eventType == "INSERT" {
        items := items + [p.newRecord];
      } else if p.eventType == "UPDATE" {
        items := ReplaceById(items, p.newRecord);
      } else if p.eventType == "DELETE" {
        items := RemoveById(items, p.oldId);
      }
    }

    /**
     * The consumer passes a new list id: the effect re-runs (a new fetch and
     * subscription follow as further events), but nothing clears the items or
     * sets the load flag again.
     */
    method ListIdChanged(newId: string)
      modifies this
      ensures listId == newId
      ensures items == old(items) && loading == old(loading)
    {
      listId := newId;
    }
  }

  /** UPDATE with an id that no item carries leaves the sequence as it was. */
  lemma ReplaceAbsent(s: seq<ListItem>, x: ListItem)
    requires IdAbsent(s, x.id)
    ensures ReplaceById(s, x) == s
  {
    var r := ReplaceById(s, x);
    assert forall i :: 0 <= i < |s| ==> r[i] == s[i];
  }

  /** UPDATE keeps the identities of all positions, and replaying it changes nothing. */
  lemma {:induction false} ReplaceKeepsIds(s: seq<ListItem>, x: ListItem)
    ensures forall i :: 0 <= i < |s| ==> ReplaceById(s, x)[i].id == s[i].id
    ensures ReplaceById(ReplaceById(s, x), x) == ReplaceById(s, x)
  {
    var r := ReplaceById(s, x);
    var rr := ReplaceById(r, x);
    assert |rr| == |r|;
    forall i | 0 <= i < |r| ensures rr[i] == r[i] {
      if s[i].id == x.id {
        assert r[i] == x;
      } else {
        assert r[i] == s[i];
      }
    }
  }

  /** DELETE of an id that no item carries leaves the sequence as it was. */
  lemma RemoveAbsent(s: seq<ListItem>, id: string)
    requires IdAbsent(s, id)
    ensures RemoveById(s, id) == s
  {
    FilterKeepsAll(s, (y: ListItem) => y.id != id);
  }

  /** DELETE is idempotent: a repeated notification is a no-op. */
  lemma RemoveIdempotent(s: seq<ListItem>, id: string)
    ensures RemoveById(RemoveById(s, id), id) == RemoveById(s, id)
  {
    FilterIdempotent(s, (y: ListItem) => y.id != id);
  }

  /** DELETE keeps the survivors in their relative order. */
  lemma RemoveIsSubsequence(s: seq<ListItem>, id: string)
    ensures IsSubsequence(RemoveById(s, id), s)
  {
    FilterIsSubsequence(s, (y: ListItem) => y.id != id);
  }

  /** DELETE distributes over concatenation: it acts on each item on its own. */
  lemma RemoveConcat(a: seq<ListItem>, b: seq<ListItem>, id: string)
    ensures RemoveById(a + b, id) == RemoveById(a, id) + RemoveById(b, id)
  {
    FilterConcat(a, b, (y: ListItem) => y.id != id);
  }

  /** Deleting the id of an item that was just inserted undoes the insertion for the old items. */
  lemma InsertThenDelete(s: seq<ListItem>, p: ChangePayload)
    requires p.eventType == "INSERT"
    ensures RemoveById(ApplyChange(s, p), p.newRecord.id) == RemoveById(s, p.newRecord.id)
  {
    RemoveConcat(s, [p.newRecord], p.newRecord.id);
  }

  /** A session on Milk (1), Bread (2), Eggs (3): updating id 1 replaces Milk in place. */
  lemma ExampleUpdate(milk: ListItem, bread: ListItem, eggs: ListItem, milkChecked: ListItem)
    requires milk.id == "1" && bread.id == "2" && eggs.id == "3" && milkChecked.id == "1"
    ensures ReplaceById([milk, bread, eggs], milkChecked) == [milkChecked, bread, eggs]
  {
    var u := ReplaceById([milk, bread, eggs], milkChecked);
    assert u[0] == milkChecked && u[1] == bread && u[2] == eggs;
  }

  /** DELETE on a single item: it goes iff it has the id. */
  lemma RemoveSingleton(x: ListItem, id: string)
    ensures RemoveById([x], id) == if x.id == id then [] else [x]
  {
    assert [x][1..] == [];
  }

  /** Then deleting id 2 leaves the checked Milk and Eggs, in that order. */
  lemma ExampleDelete(milkChecked: ListItem, bread: ListItem, eggs: ListItem)
    requires milkChecked.id == "1" && bread.id == "2" && eggs.id == "3"
    ensures RemoveById([milkChecked, bread, eggs], "2") == [milkChecked, eggs]
  {
    assert [milkChecked, bread, eggs] == [milkChecked] + ([bread] + [eggs]);
    RemoveConcat([milkChecked], [bread] + [eggs], "2");
    RemoveConcat([bread], [eggs], "2");
    RemoveSingleton(milkChecked, "2");
    RemoveSingleton(bread, "2");
    RemoveSingleton(eggs, "2");
  }
}
