/** The logic of the main screen (iExpense/ContentView.swift): the category
    filter behind the segmented picker, the colour tier of an amount, and the
    swipe-to-delete action, which maps rows of the filtered list back to
    stored items. */
module ContentViewModel {

  import opened Sequences
  import opened ExpenseItems
  import opened Persistence
  import opened ExpenseStore

  predicate IsBusiness(item: ExpenseItem) { item.category == "Business" }

  predicate NotBusiness(item: ExpenseItem) { item.category != "Business" }

  /** `filteredExpenses`: with "Business" selected, the business expenses;
      with any other selection, every expense whose category is not
      "Business" (also categories other than "Personal"). */
  function SelectedExpenses(items: seq<ExpenseItem>, selection: string): (r: seq<ExpenseItem>)
    ensures selection == "Business" ==> forall x :: x in r <==> x in items && x.category == "Business"
    ensures selection != "Business" ==> forall x :: x in r <==> x in items && x.category != "Business"
  {
    if selection == "Business" then Filter(items, IsBusiness) else Filter(items, NotBusiness)
  }

  /** The filter keeps relative order: the shown rows of a list split in two
      are the shown rows of the first part followed by those of the second. */
  lemma SelectedExpensesKeepOrder(a: seq<ExpenseItem>, b: seq<ExpenseItem>, selection: string)
    ensures SelectedExpenses(a + b, selection) == SelectedExpenses(a, selection) + SelectedExpenses(b, selection)
  {
    if selection == "Business" {
      FilterAppend(a, b, IsBusiness);
    } else {
      FilterAppend(a, b, NotBusiness);
    }
  }

  /** The "Business" view and any other view split the list: nothing is in
      both, and together they hold every item exactly once. */
  lemma SelectionsPartitionItems(items: seq<ExpenseItem>, other: string)
    requires other != "Business"
    ensures forall x :: !(x in SelectedExpenses(items, "Business") && x in SelectedExpenses(items, other))
    ensures |SelectedExpenses(items, "Business")| + |SelectedExpenses(items, other)| == |items|
    ensures multiset(SelectedExpenses(items, "Business")) + multiset(SelectedExpenses(items, other))
              == multiset(items)
  {
    FilterPartition(items, IsBusiness, NotBusiness);
  }

  /** Colours of the amount label. */
  datatype Color = Blue | Yellow | Red

  /** `expenseStyle(value:)`: a total classification on half-open ranges. */
  function ExpenseStyle(value: real): (c: Color)
    ensures c == Blue <==> 0.0 <= value < 10.0
    ensures c == Yellow <==> 10.0 <= value < 100.0
    ensures c == Red <==> value < 0.0 || 100.0 <= value
  {
    if 0.0 <= value < 10.0 then Blue
    else if 10.0 <= value < 100.0 then Yellow
    else Red
  }

  /** Position of a colour in the order blue, yellow, red. */
  function Tier(c: Color): nat
  {
    match c
    case Blue => 0
    case Yellow => 1
    case Red => 2
  }

  /** Among non-negative amounts, a larger amount never gets a lower tier. */
  lemma ExpenseStyleMonotone(a: real, b: real)
    requires 0.0 <= a <= b
    ensures Tier(ExpenseStyle(a)) <= Tier(ExpenseStyle(b))
  {
  }

  /** The boundary amounts: 0 and 9.99 are blue, 10 and 99.99 yellow, 100
      and -5 red. */
  lemma ExpenseStyleBoundaries()
    ensures ExpenseStyle(0.0) == Blue && ExpenseStyle(9.99) == Blue
    ensures ExpenseStyle(10.0) == Yellow && ExpenseStyle(99.99) == Yellow
    ensures ExpenseStyle(100.0) == Red && ExpenseStyle(-5.0) == Red
  {
  }

  /** The identifiers of the rows at `offsets` of the shown list. */
  function IdsAtOffsets(shown: seq<ExpenseItem>, offsets: set<int>): set<Uuid>
    requires forall o :: o in offsets ==> 0 <= o < |shown|
  {
    set o | o in offsets :: shown[o].id
  }

  /** `offsets.map { filteredExpenses[$0] }`: exactly the items on the
      selected rows. */
  function RowsAt(shown: seq<ExpenseItem>, offsets: set<int>): (r: set<ExpenseItem>)
    requires forall o :: o in offsets ==> 0 <= o < |shown|
    ensures forall o :: o in offsets ==> shown[o] in r
    ensures forall e :: e in r ==> exists o :: o in offsets && shown[o] == e
  {
    set o | o in offsets :: shown[o]
  }

  /** An identifier matches one of the selected items exactly when it is the
      identifier of a selected row. */
  lemma RowsAtMatchIds(shown: seq<ExpenseItem>, offsets: set<int>, id: Uuid)
    requires forall o :: o in offsets ==> 0 <= o < |shown|
    ensures (exists e :: e in RowsAt(shown, offsets) && e.id == id) <==> id in IdsAtOffsets(shown, offsets)
  {
    if id in IdsAtOffsets(shown, offsets) {
      var o :| o in offsets && shown[o].id == id;
      assert shown[o] in RowsAt(shown, offsets);
    }
  }

  /** The test of the `removeAll` closure, `rows.contains { $0.id == item.id }`,
      holds exactly when the item's identifier is among the identifiers of
      `rows`; so the closure removes exactly what `IdNotIn(IdsOfRows(rows))`
      rejects. */
  lemma RowMatchesIds(rows: set<ExpenseItem>, id: Uuid)
    ensures (exists e :: e in rows && e.id == id) <==> id in IdsOfRows(rows)
  {
  }

  /** The rows at `offsets` carry exactly the identifiers at `offsets`. */
  lemma RowsAtIds(shown: seq<ExpenseItem>, offsets: set<int>)
    requires forall o :: o in offsets ==> 0 <= o < |shown|
    ensures IdsOfRows(RowsAt(shown, offsets)) == IdsAtOffsets(shown, offsets)
  {
    forall id
      ensures id in IdsOfRows(RowsAt(shown, offsets)) <==> id in IdsAtOffsets(shown, offsets)
    {
      RowsAtMatchIds(shown, offsets, id);
    }
  }

  /** `items.removeAll { item in rows.contains { $0.id == item.id } }`: walks
      `items` once and keeps, in order, each item that no row of `rows`
      matches by identifier. */
  method RemoveMatching(items: seq<ExpenseItem>, rows: set<ExpenseItem>) returns (kept: seq<ExpenseItem>)
    ensures kept == Filter(items, IdNotIn(IdsOfRows(rows)))
  {
    ghost var ids := IdsOfRows(rows);
    kept := [];
    var i := 0;
    while i < |items|
      invariant 0 <= i <= |items|
      invariant kept == Filter(items[..i], IdNotIn(ids))
    {
      var item := items[i];
      var matched := exists e :: e in rows && e.id == item.id;
      RowMatchesIds(rows, item.id);
      FilterPrefixStep(items, i, IdNotIn(ids));
      assert IdNotIn(ids)(item) == !matched;
      if !matched {
        kept := kept + [item];
      }
      i := i + 1;
    }
    assert items[..i] == items;
  }

  /** The survivor test of the `removeAll` closure: the item's identifier is
      not one of those to remove. */
  function IdNotIn(ids: set<Uuid>): (r: ExpenseItem -> bool)
    ensures forall x :: r(x) <==> x.id !in ids
  {
    (x: ExpenseItem) => x.id !in ids
  }

  /** `items` after `removeItems(at: offsets)` with `selection` chosen: an
      item survives exactly when no selected row has its identifier; in
      particular every selected row is gone. */
  function AfterRemoval(items: seq<ExpenseItem>, selection: string, offsets: set<int>): (r: seq<ExpenseItem>)
    requires forall o :: o in offsets ==> 0 <= o < |SelectedExpenses(items, selection)|
    ensures forall x :: x in r <==>
              x in items && !(exists o :: o in offsets && SelectedExpenses(items, selection)[o].id == x.id)
    ensures forall o :: o in offsets ==> SelectedExpenses(items, selection)[o] !in r
  {
    Filter(items, IdNotIn(IdsAtOffsets(SelectedExpenses(items, selection), offsets)))
  }

  /** Survivors keep their relative order: two stored items whose
      identifiers are on no selected row appear in the new list in the order
      they had before. */
  lemma AfterRemovalKeepsOrder(items: seq<ExpenseItem>, selection: string, offsets: set<int>, i: int, j: int)
    requires forall o :: o in offsets ==> 0 <= o < |SelectedExpenses(items, selection)|
    requires 0 <= i < j < |items|
    requires items[i].id !in IdsAtOffsets(SelectedExpenses(items, selection), offsets)
    requires items[j].id !in IdsAtOffsets(SelectedExpenses(items, selection), offsets)
    ensures exists k, l :: 0 <= k < l < |AfterRemoval(items, selection, offsets)|
              && AfterRemoval(items, selection, offsets)[k] == items[i]
              && AfterRemoval(items, selection, offsets)[l] == items[j]
  {
    var keep := IdNotIn(IdsAtOffsets(SelectedExpenses(items, selection), offsets));
    assert keep(items[i]) && keep(items[j]);
    FilterKeepsOrder(items, keep, i, j);
    assert AfterRemoval(items, selection, offsets) == Filter(items, keep);
  }

  /** Deleting no rows leaves the list as it is. */
  lemma AfterRemovalOfNothing(items: seq<ExpenseItem>, selection: string)
    ensures AfterRemoval(items, selection, {}) == items
  {
    assert IdsAtOffsets(SelectedExpenses(items, selection), {}) == {};
    FilterKeepsAll(items, IdNotIn({}));
  }

  /** With unique identifiers, an item the current view does not show is
      never deleted. */
  lemma AfterRemovalKeepsHidden(items: seq<ExpenseItem>, selection: string, offsets: set<int>, x: ExpenseItem)
    requires UniqueIds(items)
    requires forall o :: o in offsets ==> 0 <= o < |SelectedExpenses(items, selection)|
    requires x in items && x !in SelectedExpenses(items, selection)
    ensures x in AfterRemoval(items, selection, offsets)
  {
    var shown := SelectedExpenses(items, selection);
    forall o | o in offsets ensures shown[o].id != x.id {
      assert shown[o] in shown;
      DistinctItemsDistinctIds(items, shown[o], x);
    }
  }

  /** The identifiers at `offsets` are those at the offsets other than `n`,
      plus the one at `n` when `n` is selected. */
  lemma IdsAtOffsetsSplit(shown: seq<ExpenseItem>, offsets: set<int>, n: int)
    requires forall o :: o in offsets ==> 0 <= o < |shown|
    requires 0 <= n < |shown|
    ensures IdsAtOffsets(shown, offsets)
              == IdsAtOffsets(shown, offsets - {n}) + (if n in offsets then {shown[n].id} else {})
  {
  }

  /** Rows before the last one have the same identifiers in the list and in
      the list without its last row. */
  lemma IdsAtOffsetsFront(shown: seq<ExpenseItem>, offsets: set<int>)
    requires shown != []
    requires forall o :: o in offsets ==> 0 <= o < |shown| - 1
    ensures IdsAtOffsets(shown, offsets) == IdsAtOffsets(shown[..|shown| - 1], offsets)
  {
  }

  /** With unique identifiers, the last row's identifier is not that of
      any earlier row. */
  lemma LastIdNotAtEarlierOffsets(shown: seq<ExpenseItem>, offsets: set<int>)
    requires UniqueIds(shown) && shown != []
    requires forall o :: o in offsets ==> 0 <= o < |shown| - 1
    ensures shown[|shown| - 1].id !in IdsAtOffsets(shown, offsets)
  {
    forall o | o in offsets ensures shown[o].id != shown[|shown| - 1].id {
      assert o < |shown| - 1;
    }
  }

  /** An empty list has no rows to select. */
  lemma NoOffsetsOfEmpty(offsets: set<int>)
    requires forall o :: o in offsets ==> 0 <= o < 0
    ensures offsets == {}
  {
    assert forall o :: o !in offsets;
  }

  /** Distinct rows of a list with unique identifiers have distinct
      identifiers. */
  lemma {:induction false} IdsAtOffsetsCount(shown: seq<ExpenseItem>, offsets: set<int>)
    requires UniqueIds(shown)
    requires forall o :: o in offsets ==> 0 <= o < |shown|
    ensures |IdsAtOffsets(shown, offsets)| == |offsets|
  {
    if shown == [] {
      NoOffsetsOfEmpty(offsets);
    } else {
      var n := |shown| - 1;
      var rest := offsets - {n};
      var others := IdsAtOffsets(shown, rest);
      assert |others| == |rest| by {
        UniqueIdsPrefix(shown, n);
        IdsAtOffsetsCount(shown[..n], rest);
        IdsAtOffsetsFront(shown, rest);
      }
      if n in offsets {
        assert IdsAtOffsets(shown, offsets) == others + {shown[n].id} by {
          IdsAtOffsetsSplit(shown, offsets, n);
        }
        assert shown[n].id !in others by {
          LastIdNotAtEarlierOffsets(shown, rest);
        }
        AddFreshCount(others, shown[n].id, offsets, n);
      } else {
        assert IdsAtOffsets(shown, offsets) == others by {
          IdsAtOffsetsSplit(shown, offsets, n);
        }
        assert rest == offsets by {
          assert forall o :: o in rest <==> o in offsets;
        }
      }
    }
  }

  /** Adding a fresh identifier to a set as large as `offsets` without `o`
      gives a set as large as `offsets`. */
  lemma AddFreshCount(ids: set<Uuid>, id: Uuid, offsets: set<int>, o: int)
    requires |ids| == |offsets - {o}| && id !in ids && o in offsets
    ensures |ids + {id}| == |offsets|
  {
    assert offsets == (offsets - {o}) + {o};
  }

  /** With unique identifiers, removing a set of identifiers that all occur
      removes exactly that many items. */
  lemma {:induction false} RemovingIdsCount(items: seq<ExpenseItem>, ids: set<Uuid>)
    requires UniqueIds(items)
    requires ids <= IdsOf(items)
    ensures |Filter(items, IdNotIn(ids))| == |items| - |ids|
  {
    if items == [] {
      assert ids == {};
    } else {
      var h, t := items[0], items[1..];
      assert items == [h] + t;
      UniqueIdsCons(h, t);
      if h.id in ids {
        var rest := ids - {h.id};
        forall id | id in rest ensures id in IdsOf(t) {
          var x :| x in items && x.id == id;
          assert x != h;
        }
        RemovingIdsCount(t, rest);
        FilterCongruent(t, IdNotIn(ids), IdNotIn(rest));
      } else {
        forall id | id in ids ensures id in IdsOf(t) {
          var x :| x in items && x.id == id;
          assert x != h;
        }
        RemovingIdsCount(t, ids);
      }
    }
  }

  /** With unique identifiers, deleting the rows at `offsets` shortens the
      list by exactly the number of rows selected. */
  lemma AfterRemovalCount(items: seq<ExpenseItem>, selection: string, offsets: set<int>)
    requires UniqueIds(items)
    requires forall o :: o in offsets ==> 0 <= o < |SelectedExpenses(items, selection)|
    ensures |AfterRemoval(items, selection, offsets)| == |items| - |offsets|
  {
    var shown := SelectedExpenses(items, selection);
    if selection == "Business" {
      FilterKeepsUniqueIds(items, IsBusiness);
    } else {
      FilterKeepsUniqueIds(items, NotBusiness);
    }
    IdsAtOffsetsCount(shown, offsets);
    var ids := IdsAtOffsets(shown, offsets);
    forall id | id in ids ensures id in IdsOf(items) {
      var o :| o in offsets && shown[o].id == id;
      assert shown[o] in items;
    }
    RemovingIdsCount(items, ids);
  }

  /** The main screen's state: the store it owns and the picker's selection. */
  class ContentView {
    const expenses: Expenses
    var expenseTypeSelected: string

    /** A new screen makes its store, which loads the saved list and writes
        it back, and starts on "Business". */
    constructor (defaults: UserDefaults)
      modifies defaults
      ensures fresh(expenses) && expenses.defaults == defaults
      ensures expenses.items == LoadedItems(old(defaults.DataFor(ITEMS_KEY)))
      ensures defaults.entries == old(defaults.entries)[ITEMS_KEY := Encode(expenses.items)]
      ensures expenses.Persisted()
      ensures expenseTypeSelected == "Business"
    {
      expenses := new Expenses(defaults);
      expenseTypeSelected := "Business";
    }

    /** `filteredExpenses`: the rows currently shown, which are the business
        expenses when "Business" is selected and every other expense
        otherwise. */
    function FilteredExpenses(): (r: seq<ExpenseItem>)
      reads this, expenses
      ensures expenseTypeSelected == "Business" ==>
                forall x :: x in r <==> x in expenses.items && x.category == "Business"
      ensures expenseTypeSelected != "Business" ==>
                forall x :: x in r <==> x in expenses.items && x.category != "Business"
    {
      SelectedExpenses(expenses.items, expenseTypeSelected)
    }

    /** `filterExpenses(by:)` never reads its argument: whatever it is
        given, the result is the list for the picker's selection. */
    function FilterExpenses(category: string): (r: seq<ExpenseItem>)
      reads this, expenses
      ensures r == FilteredExpenses()
    {
      if expenseTypeSelected == "Business" then Filter(expenses.items, IsBusiness)
      else Filter(expenses.items, NotBusiness)
    }

    /** `removeItems(at:)`: take the shown rows at `offsets`, then remove from
        the store every item whose identifier one of them has, keeping the
        order of the rest, and save. */
    method RemoveItems(offsets: set<int>)
      requires forall o :: o in offsets ==> 0 <= o < |SelectedExpenses(expenses.items, expenseTypeSelected)|
      modifies expenses, expenses.defaults
      ensures expenses.items == AfterRemoval(old(expenses.items), old(expenseTypeSelected), offsets)
      ensures expenses.defaults.entries == old(expenses.defaults.entries)[ITEMS_KEY := Encode(expenses.items)]
      ensures expenses.Persisted()
    {
      var shown := FilteredExpenses();
      var expensesToRemove := RowsAt(shown, offsets);
      var kept := RemoveMatching(expenses.items, expensesToRemove);
      RowsAtIds(shown, offsets);
      expenses.SetItems(kept);
    }
  }
}
