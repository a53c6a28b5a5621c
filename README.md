# iExpense in Dafny

A model of the logic under the iExpense app's SwiftUI screens, with proofs of
what that logic guarantees. The app is a small expense tracker.

- **Store.** `Expenses` keeps an ordered list of `ExpenseItem`s (identifier,
  name, type, amount). It loads the list from `UserDefaults` under the key
  "Items" when it is created. After every assignment to the list it saves the
  whole list again. The class is `@Observable`, so the assignment in `init`
  also runs the save: creating the store writes back what it loaded, or the
  empty list.
- **Main screen.** A segmented picker chooses between "Business" and every
  other category. Each amount gets a colour tier. Swipe-to-delete maps rows of
  the filtered list back to stored items and removes those items by
  identifier.
- **"Add new expense" sheet.** Its Save button appends an item built from the
  form, with no validation.

Files, one module each:

- `sequences.dfy` (`Sequences`): an order-preserving `Filter`. It is the
  meaning of Swift's `filter` and, with the test negated, of
  `removeAll(where:)`. The file also holds its concatenation, congruence and
  partition lemmas.
- `expense_item.dfy` (`ExpenseItems`): the record and the unique-identifier
  invariant.
- `persistence.dfy` (`Persistence`): stored data and its encoding and
  decoding, the `UserDefaults` store as a class over a map, and what a load
  finds.
- `expenses.dfy` (`ExpenseStore`): the `Expenses` class. Its constructor
  loads, and `SetItems` is an assignment to `items` together with its
  `didSet` save.
- `content_view.dfy` (`ContentViewModel`) holds:
  - the category filter;
  - `expenseStyle`;
  - the meaning of a deletion, `AfterRemoval`, and its lemmas;
  - the `ContentView` class with `removeItems(at:)`.
- `add_view.dfy` (`AddViewModel`): the form state and the Save action.
- `scenarios.dfy` (`Scenarios`): short client walk-throughs, such as two
  saves then a relaunch, corrupt saved data, and deleting a middle row. The
  verifier checks them against the contracts.

The Swift stored property `type` is named `category` in the model, because
`type` is a Dafny keyword. The same goes for the parameter of
`filterExpenses(by:)`. Swift's `Double` amounts are `real`s.

## Model

| member | source | states |
|---|---|---|
| Sequences.Filter | iExpense/ContentView.swift:50 | the result holds exactly the elements of the input that pass the test, and is no longer than the input |
| Sequences.FilterKeepsOrder | iExpense/ContentView.swift:50-53 | two elements that both pass the test appear in the result in the order they had in the input |
| Sequences.FilterAppend | iExpense/ContentView.swift:48-54 | filtering a concatenation is the concatenation of the filtered parts, so relative order is preserved |
| Sequences.FilterPartition | iExpense/ContentView.swift:50-53 | a test and its complement split a list: the lengths add up to the list's length and the multisets add up to the list's multiset |
| ExpenseItems.DistinctItemsDistinctIds | iExpense/ContentView.swift:10-11 | in a list with unique identifiers, two different items have different identifiers |
| ExpenseItems.UniqueIdsCons | iExpense/ContentView.swift:11 | a list has unique identifiers iff its tail does and the head's identifier is not in the tail |
| ExpenseItems.FilterKeepsUniqueIds | iExpense/ContentView.swift:50-53 | filtering a list with unique identifiers gives a list with unique identifiers |
| ExpenseItems.AppendFreshKeepsUniqueIds | iExpense/AddView.swift:41-42 | appending an item whose identifier is absent from the list keeps identifiers unique |
| Persistence.Encode | iExpense/ContentView.swift:21 | decoding the encoding of a list gives back that list |
| Persistence.Decode | iExpense/ContentView.swift:29 | in the model's abstraction of stored data, a decode fails exactly on data that is not an encoded list |
| Persistence.LoadedItems | iExpense/ContentView.swift:28-35 | a load finds the last list saved; missing or undecodable data loads as the empty list |
| Persistence.UserDefaults.DataFor | iExpense/ContentView.swift:28 | `data(forKey:)` gives the stored data when the key is present, and nothing exactly when it is absent |
| Persistence.UserDefaults.Set | iExpense/ContentView.swift:22 | writing one key replaces that entry and leaves every other entry as it was |
| ExpenseStore.Expenses.constructor | iExpense/ContentView.swift:17-36 | `items` is the decoded saved list when data under "Items" exists and decodes, else empty; the assignment runs `didSet`, so "Items" then holds the encoding of that list, other entries are unchanged, and a fresh load finds the same list |
| ExpenseStore.Expenses.SetItems | iExpense/ContentView.swift:19-25 | after an assignment to `items`, the "Items" entry holds the encoding of the whole new list, other entries are unchanged, and a fresh load would find the current list |
| ExpenseStore.Expenses.Append | iExpense/AddView.swift:42 | the list grows by exactly one, the new item is last, earlier items are unchanged and in order, and the full new list is saved |
| ContentViewModel.SelectedExpenses | iExpense/ContentView.swift:48-54 | with "Business" selected, exactly the items of type "Business"; with any other selection, exactly the items whose type is not "Business" |
| ContentViewModel.SelectedExpensesKeepOrder | iExpense/ContentView.swift:48-54 | the filtered rows keep the items' relative order |
| ContentViewModel.SelectionsPartitionItems | iExpense/ContentView.swift:48-53 | the "Business" view and any other view are disjoint, their lengths sum to the list's length, and together they hold each item exactly as often as the list |
| ContentViewModel.ExpenseStyle | iExpense/ContentView.swift:106-115 | blue iff the amount is in [0, 10), yellow iff in [10, 100), red iff negative or at least 100 |
| ContentViewModel.ExpenseStyleMonotone | iExpense/ContentView.swift:106-115 | among non-negative amounts, a larger amount never gets a lower tier |
| ContentViewModel.ExpenseStyleBoundaries | iExpense/ContentView.swift:108-113 | 0 and 9.99 are blue, 10 and 99.99 yellow, 100 and -5 red |
| ContentViewModel.RowsAt | iExpense/ContentView.swift:99 | exactly the rows at the offsets are taken: each row at an offset is in the result, and each item of the result is the row at some offset |
| ContentViewModel.RowsAtMatchIds | iExpense/ContentView.swift:99-102 | an identifier matches one of the rows picked by `offsets` exactly when it is the identifier at one of the offsets |
| ContentViewModel.RowsAtIds | iExpense/ContentView.swift:99-102 | the rows picked by `offsets` carry exactly the identifiers at those offsets |
| ContentViewModel.RemoveMatching | iExpense/ContentView.swift:101-103 | `removeAll` with the id-match test keeps, in order, exactly the items whose identifier no removed row has |
| ContentViewModel.RowMatchesIds | iExpense/ContentView.swift:101-102 | the closure's test, some removed row has the item's identifier, holds exactly when that identifier is among the removed rows' identifiers |
| ContentViewModel.AfterRemoval | iExpense/ContentView.swift:98-104 | an item survives a deletion iff it was stored and no selected row has its identifier; every selected row is gone |
| ContentViewModel.AfterRemovalKeepsOrder | iExpense/ContentView.swift:101-103 | two stored items whose identifiers are on no selected row both survive a deletion and appear in the new list in their old order |
| ContentViewModel.AfterRemovalOfNothing | iExpense/ContentView.swift:98-104 | deleting no rows leaves the list unchanged |
| ContentViewModel.AfterRemovalKeepsHidden | iExpense/ContentView.swift:99-102 | with unique identifiers, an item the current view does not show is never deleted |
| ContentViewModel.IdsAtOffsetsCount | iExpense/ContentView.swift:99 | with unique identifiers, k distinct rows carry k distinct identifiers |
| ContentViewModel.RemovingIdsCount | iExpense/ContentView.swift:101-103 | with unique identifiers, removing k identifiers that all occur removes exactly k items |
| ContentViewModel.AfterRemovalCount | iExpense/ContentView.swift:98-104 | with unique identifiers, deleting k rows shortens the list by exactly k |
| ContentViewModel.ContentView.constructor | iExpense/ContentView.swift:40-42 | the screen's new store holds the loaded list, which its `init` has written back under "Items", and the selection starts at "Business" |
| ContentViewModel.ContentView.FilteredExpenses | iExpense/ContentView.swift:48-54 | with "Business" selected, the rows shown are exactly the stored business items; otherwise exactly the stored items whose type is not "Business" |
| ContentViewModel.ContentView.FilterExpenses | iExpense/ContentView.swift:117-123 | for every argument, the result equals `filteredExpenses`, because the argument is never read |
| ContentViewModel.ContentView.RemoveItems | iExpense/ContentView.swift:98-104 | with every offset inside the filtered list, `items` becomes the old list without every item whose identifier is at one of the offsets, and that list is saved |
| AddViewModel.AddView.constructor | iExpense/AddView.swift:13-15 | the form starts with an empty name, type "Personal" and amount 0 |
| AddViewModel.AddView.Save | iExpense/AddView.swift:40-45 | with no check of the form, exactly one item is appended, holding the form's name, type and amount, with earlier items unchanged; the whole list is saved; a fresh identifier keeps identifiers unique |
| Scenarios.PersonalTabShowsAll | iExpense/ContentView.swift:53 | three personal expenses all appear under the non-"Business" selection |
| Scenarios.DeleteMiddleRowOnValues | iExpense/ContentView.swift:98-104 | deleting the middle one of three shown rows leaves the first and third |

## Left out

- The SwiftUI views: view bodies, `NavigationStack`, `Picker`, `List`, the sheet, the toolbar, `dismiss()` and `#Preview`. They are presentation only. The picker is represented by assignments to `ContentView.expenseTypeSelected`.
- Currency formatting and the `Locale` lookup. These depend on the platform locale and are display-only.
- JSON. `Encode` and `Decode` abstract `JSONEncoder` and `JSONDecoder`: stored data either encodes a list or is undecodable bytes.
- Persistence.Decode: real `JSONDecoder` also accepts data that is not byte-for-byte what `JSONEncoder` writes (other whitespace or key order, extra keys). In the model, every decodable value is the encoding of its list, so nothing is promised about such data.
- The failure branch of `try? JSONEncoder().encode(items)` in `didSet`. With `real` amounts there is no NaN or infinity to make encoding fail, so the model always saves.
- IEEE `Double` behaviour, meaning rounding and NaN, in amounts and in `expenseStyle`. Amounts are `real`s.
- `UUID()` generation. The identifier is a parameter of `AddView.Save`, and its freshness is the hypothesis of the uniqueness clause.
- `UserDefaults.standard` as a process-wide singleton. The model passes one `UserDefaults` object to the store explicitly.
- `@Observable` and `@State` change tracking. Only the explicit save after each assignment is modelled.
- The order of `offsets.map`. `IndexSet` is a `set<int>`, because the mapped rows are only searched with `contains(where:)`, so their order has no effect.
- Swift's `removeAll(where:)` is modelled by `RemoveMatching` as a loop that builds the kept list. Whether the array storage is reused in place is not modelled. The outcome is assigned to `items` once, just as the one `didSet` in Swift sees it.
