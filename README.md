# FrigoFlow shopping state, modelled in Dafny

FrigoFlow is a family shopping-list web app over a hosted database with
realtime change feeds. This project models the small list and set logic that
every change to a family's shopping state goes through, and proves what that
logic promises:

- **Realtime list hook** (`realtime_list.dfy`, module `RealtimeList`): the
  hook's state (`items`, `loading`, the list id) as a class. The initial fetch
  replaces the items on success. Change notifications are applied one at a
  time: INSERT appends, UPDATE replaces by id in place, DELETE filters by id.
  Any other event type is ignored.
- **Store mode** (`store_mode.dfy`, module `StoreMode`): the set of checked
  ids and its toggle. Items are grouped by a fixed, ordered list of
  departments. Completion is counted per department and overall.
- **Promotions** (`promo_manager.dfy`, module `PromoManager`): the "mylist"
  filter and the in-place sort by score, best first. With the "all" filter the
  sort reorders the state array itself. A score maps to one of three colour
  tiers.
- **List manager** (`shopping_list_manager.dfy`, module `ShoppingListManager`):
  the blank-name guard uses JavaScript's `trim`. A non-blank name goes to the
  parent callback, or else a local placeholder list is appended. The
  progress-bar percentage is guarded against division by zero.
- **Home page** (`home_page.dfy`, module `HomePage`): each list gets item and
  checked counts on load. A newly created list is prepended. The home view
  shows the three most recent lists.

`sequences.dfy` (module `Sequences`) holds `Filter`, the model of
`Array.prototype.filter`, with its order and length facts. `wrappers.dfy`
holds `Option`, the model of `undefined`/`null`.

Backend answers are inputs to the methods. This covers the auth user, member
rows, selects, inserts and change payloads. `Date.now()` is a `nat` parameter.

Three behaviours of the hook are easy to miss:

- A list-id change does not discard the old items or set `loading` back to
  true (`hooks/useRealtimeList.ts:67` only re-runs the effect).
  `RealtimeListHook.ListIdChanged` keeps both.
- A failed fetch leaves whatever items were there, which need not be empty:
  change events may already have been applied, and items may remain from a
  previous list id.
- A successful fetch overwrites any change already applied
  (`FetchResolved`).

## Model

| member | source | states |
|---|---|---|
| `RealtimeList.RealtimeListHook.constructor` | hooks/useRealtimeList.ts:17-19 | initially no items and the load is pending |
| `RealtimeList.RealtimeListHook.FetchResolved` | hooks/useRealtimeList.ts:24-35 | afterwards `loading` is false on every outcome; on success (`FetchSucceeded`, from line 31: no error and data present) items are exactly the fetched rows, replacing anything applied before; otherwise items are unchanged |
| `RealtimeList.RealtimeListHook.ChangeReceived` | hooks/useRealtimeList.ts:50-60 | the new items are `ApplyChange` of the old items and the payload; `loading` and the list id are unchanged |
| `RealtimeList.RealtimeListHook.ListIdChanged` | hooks/useRealtimeList.ts:67 | a new list id changes neither the items nor `loading` (no reset) |
| `RealtimeList.ApplyChange` | hooks/useRealtimeList.ts:50-60 | INSERT: length grows by one, the old sequence is the prefix and the payload is last; UPDATE: same length, matching ids hold the payload, other positions unchanged; DELETE: no item keeps the id and exactly the other items survive; any other event type: unchanged |
| `RealtimeList.ReplaceById` | hooks/useRealtimeList.ts:53-56 | same length; each position whose id equals the payload's holds the payload, every other position is unchanged |
| `RealtimeList.RemoveById` | hooks/useRealtimeList.ts:57-58 | no survivor has the id; an item survives iff it was present with another id; never longer |
| `RealtimeList.ReplaceAbsent` | hooks/useRealtimeList.ts:55 | an UPDATE whose id no item carries leaves the sequence unchanged |
| `RealtimeList.ReplaceKeepsIds` | hooks/useRealtimeList.ts:53-56 | UPDATE keeps the id at every position, and applying the same UPDATE twice equals applying it once |
| `RealtimeList.RemoveAbsent` | hooks/useRealtimeList.ts:58 | a DELETE whose id no item carries leaves the sequence unchanged |
| `RealtimeList.RemoveIdempotent` | hooks/useRealtimeList.ts:58 | the same DELETE applied twice equals applying it once |
| `RealtimeList.RemoveIsSubsequence` | hooks/useRealtimeList.ts:58 | the survivors of a DELETE keep their relative order (they are a subsequence of the input) |
| `RealtimeList.RemoveConcat` | hooks/useRealtimeList.ts:58 | DELETE distributes over concatenation, acting on each item independently |
| `RealtimeList.InsertThenDelete` | hooks/useRealtimeList.ts:51-58 | deleting the id of the item just inserted gives what deleting it from the old sequence gives |
| `RealtimeList.ExampleUpdate` | hooks/useRealtimeList.ts:53-56 | on the items Milk (1), Bread (2), Eggs (3), an update of id 1 replaces Milk in place |
| `RealtimeList.RemoveSingleton` | hooks/useRealtimeList.ts:58 | a DELETE on a one-item list removes that item exactly when its id matches |
| `RealtimeList.ExampleDelete` | hooks/useRealtimeList.ts:57-58 | a delete of id 2 then leaves the checked Milk and Eggs, in that order |
| `StoreMode.Toggled` | components/store-mode.tsx:81-89 | `id` is in the result iff it was not in the set; membership of every other id is unchanged |
| `StoreMode.StoreModeScreen.constructor` | components/store-mode.tsx:35-78 | the screen holds the given items and initially checked ids |
| `StoreMode.StoreModeScreen.ToggleItem` | components/store-mode.tsx:81-89 | the checked set becomes `Toggled` of the old one; toggling an item's id keeps every checked id an item's id |
| `StoreMode.ToggleTwice` | components/store-mode.tsx:81-89 | toggling the same id twice restores the original set |
| `StoreMode.ItemsIn` | components/store-mode.tsx:95 | exactly the items of that category are kept |
| `StoreMode.Put` | components/store-mode.tsx:97 | assigning a new key to the grouping record appends it last; the result holds only old entries and the new one |
| `StoreMode.CategoriesWithItems` | components/store-mode.tsx:96 | reference filter: a category is kept iff it is listed and has at least one item |
| `StoreMode.GroupItems` | components/store-mode.tsx:93-102 | the reduce over the fixed department list computes `Grouped`, the left fold of the record assignments (each department that has at least one item bound to the filter of its items); `GroupedSound`, `GroupedKeys` and `DisplayedGroups` state what that fold holds |
| `StoreMode.GroupedSound` | components/store-mode.tsx:93-102 | every group's key is a listed category with at least one item, and the group holds exactly that category's items in their original order |
| `StoreMode.UnlistedItemHidden` | components/store-mode.tsx:21-30 | an item whose category is not in the list appears in no group |
| `StoreMode.GroupedKeys` | components/store-mode.tsx:93-102 | with distinct categories, the group keys are exactly the categories having items, in the category list's order |
| `StoreMode.CategoriesDistinct` | components/store-mode.tsx:21-30 | the fixed department list has no repeated name |
| `StoreMode.DisplayedGroups` | components/store-mode.tsx:146 | the groups shown follow the department order and cover every department that has items |
| `StoreMode.CheckedCount` | components/store-mode.tsx:147 | the checked count of a department is exactly the number of its items whose id is in the checked set (the independent recursive count `CheckedIdCount`), hence at most its item count |
| `StoreMode.CheckedFilterIsCount` | components/store-mode.tsx:147 | the length of the filter keeping checked items equals the recursive count of items with a checked id |
| `StoreMode.CompletedIff` | components/store-mode.tsx:147-149 | `IsCompleted` (`categoryCompleted === category.items.length`) holds exactly when every one of the department's items has its id in the checked set |
| `StoreMode.AllDoneIff` | components/store-mode.tsx:104-105 | `AllDone` (the count of checked ids against the item count, lines 104-105 and 199): when the checked ids are item ids and ids are distinct, `completedItems === totalItems` holds exactly when every item is checked |
| `PromoManager.Filtered` | components/promo-manager.tsx:81 | "all" returns the promotions themselves; "mylist" keeps exactly those with `inMyList` |
| `PromoManager.FilteredInOrder` | components/promo-manager.tsx:81 | both filters keep the promotions in their original order |
| `PromoManager.SortByScore` | components/promo-manager.tsx:82 | the array is sorted in place by non-increasing score and is a permutation of its old contents |
| `PromoManager.PromoScreen.constructor` | components/promo-manager.tsx:24-79 | a fresh array holds the initial promotions, and the filter starts as "all" |
| `PromoManager.PromoScreen.SetFilter` | components/promo-manager.tsx:109-112 | the filter becomes the chosen one |
| `PromoManager.PromoScreen.SortedPromos` | components/promo-manager.tsx:81-82 | the result is sorted by non-increasing score and is a permutation of the filtered promotions; with "all" it is the state array itself (reordered in place), with "mylist" it is a fresh array and the state is untouched |
| `PromoManager.ScoreTier` | components/promo-manager.tsx:86-90 | green iff the score is at least 90, orange iff it is in [75, 90), red iff it is below 75 |
| `PromoManager.GetScoreColor` | components/promo-manager.tsx:86-90 | the class names are those of the score's tier |
| `PromoManager.TierMonotone` | components/promo-manager.tsx:86-90 | a higher score never gets a worse tier |
| `PromoManager.SortedTiers` | components/promo-manager.tsx:82-90 | in a sorted promotion list, the badge tiers never improve further down |
| `ShoppingListManager.TrimStart` | components/shopping-list-manager.tsx:32 | the result is a suffix of the input; only whitespace was dropped, and the result does not start with whitespace |
| `ShoppingListManager.TrimEnd` | components/shopping-list-manager.tsx:32 | the result is a prefix of the input; only whitespace was dropped, and the result does not end with whitespace |
| `ShoppingListManager.Trim` | components/shopping-list-manager.tsx:32 | the trimmed name is empty or neither starts nor ends with whitespace, where whitespace is `IsJsWhitespace`: the ECMAScript WhiteSpace and LineTerminator characters |
| `ShoppingListManager.BlankIffAllWhitespace` | components/shopping-list-manager.tsx:32 | a name is rejected as blank exactly when all its characters are whitespace |
| `Sequences.Filter` | components/store-mode.tsx:95 | `Array.prototype.filter`: the result is no longer than the input and holds exactly the input elements the predicate keeps |
| `ShoppingListManager.TrimIdempotent` | components/shopping-list-manager.tsx:35 | trimming the already trimmed name changes nothing |
| `ShoppingListManager.DecimalString` | components/shopping-list-manager.tsx:39 | the placeholder id is a non-empty string of decimal digits without a leading zero, and read back as a decimal numeral (`DecimalValue`) it is `Date.now()` itself |
| `ShoppingListManager.Progress` | components/shopping-list-manager.tsx:74 | 0 whenever the item count is absent or not positive, so there is no division by zero; between 0 and 100 when the checked count is between 0 and the item count; 100 when all items are checked |
| `ShoppingListManager.ListManagerView.constructor` | components/shopping-list-manager.tsx:27-29 | the view holds the given lists and starts with an empty name field |
| `ShoppingListManager.ListManagerView.SetNewListName` | components/shopping-list-manager.tsx:56 | typing sets the field and nothing else |
| `ShoppingListManager.ListManagerView.CreateNewList` | components/shopping-list-manager.tsx:31-48 | a blank name changes nothing (no callback, no list, no reset); with a callback, the callback gets the trimmed name and the lists are unchanged; without one, exactly one placeholder (`PlaceholderList`, lines 38-43: id `Date.now()` in decimal, the untrimmed name, no family, creator or date, zero counts) is appended; after any non-blank name the field is "" |
| `HomePage.CheckedRows` | app/app/page.tsx:96 | the checked count is exactly the number of rows with `checked` true (the independent recursive count `CheckedRowCount`); it is at most the row count, and equals it exactly when every row is checked |
| `HomePage.CheckedFilterIsCount` | app/app/page.tsx:96 | the length of the filter keeping checked rows equals the recursive count of checked rows |
| `HomePage.WithCounts` | app/app/page.tsx:93-102 | the list keeps its id, name, family, creator and date; `items` is the number of rows (0 if none answered); `checkedItems` is exactly the number of checked rows (`CheckedRowCount`, 0 if none answered), between 0 and `items` |
| `HomePage.ListsWithCounts` | app/app/page.tsx:91-104 | one result per list, in order, each the list with its own counts |
| `HomePage.Recent` | app/app/page.tsx:240 | at most three lists, exactly the first min(3, n) in order |
| `HomePage.HomeProgress` | app/app/page.tsx:241 | 0 without a positive item count; undefined (NaN) when the checked count is missing; otherwise between 0 and 100 for consistent counts |
| `HomePage.HomePageState.constructor` | app/app/page.tsx:31-33 | no family info and no lists, and the load is pending |
| `HomePage.HomePageState.CheckAuthAndLoadData` | app/app/page.tsx:40-114 | no user redirects to sign-in and no member row to onboarding, both leaving lists and family info unchanged; otherwise the family info is recorded and, when the lists query answered, the lists become the lists with counts; `loading` is false on every path; count consistency is preserved |
| `HomePage.HomePageState.CreateNewList` | app/app/page.tsx:116-148 | the insert is requested iff there is a user, family info and a member row, and it carries the name, family and user; only an answered row without error is put at index 0 with zero counts, with the previous lists following in order; otherwise nothing changes; count consistency is preserved |
| `HomePage.LoadedCountsConsistent` | app/app/page.tsx:93-106 | every loaded list carries both counts with `checkedItems <= items` |
| `HomePage.NewListShownFirst` | app/app/page.tsx:138-146 | after a create, the home view shows the new list first, followed by the first two lists shown before |
| `HomePage.RecentProgressDefined` | app/app/page.tsx:240-241 | on consistent lists, every recent card's percentage is defined and between 0 and 100 |

## Left out

- Backend calls (auth, selects, inserts, RPCs, channel subscribe and `removeChannel`) are not modelled; their answers are method parameters.
- Subscription teardown (`hooks/useRealtimeList.ts:64-66`) is left out. Whether events stop arriving afterwards depends on the external channel library.
- Exceptions thrown by the client library inside `checkAuthAndLoadData` (the `catch` that redirects to sign-in) are left out. Only the returned answers are modelled.
- Floating point is not modelled. The percentages are exact rationals, so rounding, `toFixed`, `Math.round` and the store-mode progress `completedItems / totalItems` (NaN for an empty list) are left out. The date arithmetic of `getDaysLeft` is left out too.
- Scores, prices and quantities are Dafny `real`, so JavaScript's NaN and infinities are not modelled.
- `PromoManager.SortByScore`: does not state stability. ECMAScript requires `Array.prototype.sort` to be stable, but the model proves only order and permutation.
- `PromoManager.PromoScreen.SortedPromos`: does not model React re-rendering. A later render sorts the already reordered state array again.
- `StoreMode.GroupItems`: is stated for the fixed department list. JavaScript puts integer-like record keys first, and no department name is integer-like.
- JSX rendering, styling, routing and auth-gating pages, the barcode scanner, the quick-add modal, the invite and product-lookup wrappers, and the service worker are left out. They hold no list logic.
- The hard-coded demo arrays (store items, promotions, the initially checked id `"2"`) are left out. They are constructor parameters instead.
