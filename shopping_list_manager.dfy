/**
 * The list manager (components/shopping-list-manager.tsx): a text field to
 * create a list, either through the parent's callback or, without one, by
 * appending a local placeholder list; and each list's progress bar.
 */
module ShoppingListManager {
  import opened Wrappers

  /** A shopping list as the screens hold it; the counts are added after loading. */
  datatype ShoppingList = ShoppingList(
    id: string,
    name: string,
    familyId: Option<string>,
    createdBy: Option<string>,
    createdAt: Option<string>,
    items: Option<int>,
    checkedItems: Option<int>)

  /** The characters `String.prototype.trim` removes: ECMAScript WhiteSpace and LineTerminator. */
  predicate IsJsWhitespace(c: char) {
    || c == '\t' || c == '\n' || c == '\U{000B}' || c == '\U{000C}' || c == '\r'
    || c == ' ' || c == '\U{00A0}' || c == '\U{1680}' || ('\U{2000}' <= c <= '\U{200A}')
    || c == '\U{2028}' || c == '\U{2029}' || c == '\U{202F}' || c == '\U{205F}'
    || c == '\U{3000}' || c == '\U{FEFF}'
  }

  predicate AllWhitespace(s: string) {
    forall i :: 0 <= i < |s| ==> IsJsWhitespace(s[i])
  }

  /** Drops leading whitespace: the result is a suffix of `s`, and only whitespace was dropped. */
  function TrimStart(s: string): (r: string)
    ensures |r| <= |s| && r == s[|s| - |r|..]
    ensures AllWhitespace(s[..|s| - |r|])
    ensures r == [] || !IsJsWhitespace(r[0])
  {
    if s != [] && IsJsWhitespace(s[0]) then TrimStart(s[1..]) else s
  }

  /** Drops trailing whitespace: the result is a prefix of `s`, and only whitespace was dropped. */
  function TrimEnd(s: string): (r: string)
    ensures |r| <= |s| && r == s[..|r|]
    ensures AllWhitespace(s[|r|..])
    ensures r == [] || !IsJsWhitespace(r[|r| - 1])
  {
    if s != [] && IsJsWhitespace(s[|s| - 1]) then TrimEnd(s[..|s| - 1]) else s
  }

  /**
   * `String.prototype.trim`: leading whitespace is dropped (TrimStart), then
   * trailing whitespace (TrimEnd); the result neither starts nor ends with it.
   */
  function Trim(s: string): (r: string)
    ensures r == [] || (!IsJsWhitespace(r[0]) && !IsJsWhitespace(r[|r| - 1]))
  {
    TrimEnd(TrimStart(s))
  }

  /** `list.checkedItems || 0` */
  function OrZero(n: Option<int>): int {
    if n.Some? then n.value else 0
  }

  /** The guard of the progress bar: a count is present and positive. */
  predicate HasItems(l: ShoppingList) {
    l.items.Some? && l.items.value > 0
  }

  /**
   * `progressPercentage`, in exact arithmetic: 0 unless the item count is
   * present and positive, so no division by zero happens.
   */
  function Progress(l: ShoppingList): (pct: real)
    ensures !HasItems(l) ==> pct == 0.0
    ensures HasItems(l) && 0 <= OrZero(l.checkedItems) <= l.items.value ==> 0.0 <= pct <= 100.0
    ensures HasItems(l) && OrZero(l.checkedItems) == l.items.value ==> pct == 100.0
  {
    if HasItems(l) then (OrZero(l.checkedItems) as real / l.items.value as real) * 100.0 else 0.0
  }

  /** The number a string of decimal digits spells, most significant digit first. */
  function DecimalValue(s: string): nat
    requires forall i :: 0 <= i < |s| ==> '0' <= s[i] <= '9'
  {
    if s == [] then 0
    else 10 * DecimalValue(s[..|s| - 1]) + (s[|s| - 1] as int - '0' as int)
  }

  /**
   * Decimal digits of a natural number, as `Number.prototype.toString` writes
   * them: digits only, no leading zero, and they spell `n`.
   */
  function DecimalString(n: nat): (s: string)
    ensures |s| > 0 && forall i :: 0 <= i < |s| ==> '0' <= s[i] <= '9'
    ensures |s| > 1 ==> s[0] != '0'
    ensures DecimalValue(s) == n
  {
    var d := ('0' as int + n % 10) as char;
    if n < 10 then [d]
    else
      var r := DecimalString(n / 10) + [d];
      assert r[..|r| - 1] == DecimalString(n / 10);
      r
  }

  /** The placeholder list the local fallback appends. */
  function PlaceholderList(nowMillis: nat, name: string): ShoppingList {
    ShoppingList(DecimalString(nowMillis), name, None, None, None, Some(0), Some(0))
  }

  /** The component: the lists it shows, its text field, and whether a parent callback is given. */
  class ListManagerView {
    var lists: seq<ShoppingList>
    var newListName: string
    const hasOnCreateList: bool

    constructor (lists: seq<ShoppingList>, hasOnCreateList: bool)
      ensures this.lists == lists && newListName == "" && this.hasOnCreateList == hasOnCreateList
    {
      this.lists := lists;
      newListName := "";
      this.hasOnCreateList := hasOnCreateList;
    }

    /** The text field's `onChange`. */
    method SetNewListName(value: string)
      modifies this
      ensures newListName == value && lists == old(lists)
    {
      newListName := value;
    }

    /**
     * `createNewList`. A blank name changes nothing. Otherwise the trimmed name
     * goes to the callback when there is one (returned as `delegated`), or a
     * placeholder with the untrimmed name and zero counts is appended; then the
     * field is cleared. `nowMillis` stands for `Date.now()`.
     */
    method CreateNewList(nowMillis: nat) returns (delegated: Option<string>)
      modifies this
      ensures Trim(old(newListName)) == "" ==>
                delegated == None && lists == old(lists) && newListName == old(newListName)
      ensures Trim(old(newListName)) != "" ==> newListName == ""
      ensures Trim(old(newListName)) != "" && hasOnCreateList ==>
                delegated == Some(Trim(old(newListName))) && lists == old(lists)
      ensures Trim(old(newListName)) != "" && !hasOnCreateList ==>
                delegated == None &&
                lists == old(lists) + [PlaceholderList(nowMillis, old(newListName))]
    {
      delegated := None;
      var trimmed := Trim(newListName);
      if trimmed == "" {
        return;
      }
      if hasOnCreateList {
        delegated := Some(trimmed);
      } else {
        lists := lists + [PlaceholderList(nowMillis, newListName)];
      }
      newListName := "";
    }
  }

  /** A name is blank, and so ignored, exactly when every character is whitespace. */
  lemma BlankIffAllWhitespace(s: string)
    ensures Trim(s) == "" <==> AllWhitespace(s)
  {
    var t := TrimStart(s);
    if Trim(s) == "" {
      assert AllWhitespace(t[0..]);
      assert s == s[..|s| - |t|] + t;
    }
  }

  /** Trimming twice is trimming once, so the name handed to the callback is already trimmed. */
  lemma TrimIdempotent(s: string)
    ensures Trim(Trim(s)) == Trim(s)
  {
    var r := Trim(s);
    assert TrimStart(r) == r;
    assert TrimEnd(r) == r;
  }
}
