/** Client walk-throughs of the store and the two screens, checked by the
    verifier from the contracts above: a restart after two saves, a restart
    over corrupt data, the category split, and a swipe-to-delete. */
module Scenarios {

  import opened Sequences
  import opened ExpenseItems
  import opened Persistence
  import opened ExpenseStore
  import opened ContentViewModel
  import opened AddViewModel

  /** Two expenses entered through the form are found, in entry order, by a
      store created later on the same defaults. */
  method SaveThenRelaunch()
  {
    var defaults := new UserDefaults(map[]);
    var expenses := new Expenses(defaults);
    assert expenses.items == [];

    var form := new AddView(expenses);
    form.name, form.category, form.amount := "Coffee", "Personal", 3.50;
    form.Save(1);
    assert expenses.items == [ExpenseItem(1, "Coffee", "Personal", 3.50)];
    form := new AddView(expenses);
    form.name, form.category, form.amount := "Flight", "Business", 450.00;
    form.Save(2);

    var relaunched := new Expenses(defaults);
    assert relaunched.items == [ExpenseItem(1, "Coffee", "Personal", 3.50),
                                ExpenseItem(2, "Flight", "Business", 450.00)];
  }

  /** The form's untouched defaults and a negative amount are saved as they
      are. */
  method SaveWithoutValidation()
  {
    var defaults := new UserDefaults(map[]);
    var expenses := new Expenses(defaults);
    var form := new AddView(expenses);
    form.Save(7);
    assert expenses.items == [ExpenseItem(7, "", "Personal", 0.0)];
    form.amount := -12.0;
    form.Save(8);
    assert expenses.items[1].amount == -12.0;
  }

  /** Data under "Items" that does not decode starts the app empty and is
      overwritten at once with the saved empty list; other entries stay. */
  method CorruptDataLoadsEmpty()
  {
    var defaults := new UserDefaults(map[ITEMS_KEY := Undecodable([0x7b, 0x22]), "Other" := Undecodable([1])]);
    var expenses := new Expenses(defaults);
    assert expenses.items == [];
    assert defaults.entries[ITEMS_KEY] == Encode([]);
    assert defaults.entries["Other"] == Undecodable([1]);
  }

  /** With nothing saved yet, creating the store writes an "Items" entry
      holding the empty list. */
  method FirstLaunchWritesEmptyList()
  {
    var defaults := new UserDefaults(map[]);
    var expenses := new Expenses(defaults);
    assert ITEMS_KEY in defaults.entries && defaults.entries[ITEMS_KEY] == Encode([]);
  }

  /** Business, personal, business: the "Business" tab shows the first and
      the third in that order, the other tab the second. */
  method CategorySplit()
  {
    var x := ExpenseItem(1, "x", "Business", 5.0);
    var y := ExpenseItem(2, "y", "Personal", 6.0);
    var z := ExpenseItem(3, "z", "Business", 7.0);
    var business := SelectedExpenses([x, y, z], "Business");
    var personal := SelectedExpenses([x, y, z], "Personal");
    SelectedExpensesKeepOrder([x], [y, z], "Business");
    SelectedExpensesKeepOrder([y], [z], "Business");
    SelectedExpensesKeepOrder([x], [y, z], "Personal");
    SelectedExpensesKeepOrder([y], [z], "Personal");
    assert [x] + [y, z] == [x, y, z] && [y] + [z] == [y, z];
    assert business == [x, z];
    assert personal == [y];
  }

  /** On three personal expenses A, B, C, the "Personal" tab shows all
      three. */
  lemma PersonalTabShowsAll(a: ExpenseItem, b: ExpenseItem, c: ExpenseItem)
    requires a.category == b.category == c.category == "Personal"
    ensures SelectedExpenses([a, b, c], "Personal") == [a, b, c]
  {
    assert "Personal"[0] != "Business"[0];
    FilterKeepsAll([a, b, c], NotBusiness);
  }

  /** Deleting the second of the rows A, B, C leaves A, C. */
  lemma DeleteMiddleRowOnValues(a: ExpenseItem, b: ExpenseItem, c: ExpenseItem)
    requires a.category == b.category == c.category == "Personal"
    requires a.id == 1 && b.id == 2 && c.id == 3
    ensures AfterRemoval([a, b, c], "Personal", {1}) == [a, c]
  {
    PersonalTabShowsAll(a, b, c);
    assert IdsAtOffsets([a, b, c], {1}) == {2} by {
      assert [a, b, c][1] == b;
    }
    KeepAllButSecond(a, b, c);
  }

  /** Dropping the identifier 2 from A, B, C with identifiers 1, 2, 3 leaves
      A, C. */
  lemma KeepAllButSecond(a: ExpenseItem, b: ExpenseItem, c: ExpenseItem)
    requires a.id == 1 && b.id == 2 && c.id == 3
    ensures Filter([a, b, c], IdNotIn({2})) == [a, c]
  {
    var keep := IdNotIn({2});
    assert keep(a) && !keep(b) && keep(c);
    FilterKeepsAll([a], keep);
    FilterSnoc([a], b, keep);
    assert [a] + [b] == [a, b];
    FilterSnoc([a, b], c, keep);
    assert [a, b] + [c] == [a, b, c];
  }

  /** Deleting the second row of A, B, C leaves A, C, and the saved copy
      follows. */
  method DeleteMiddleRow()
  {
    var a := ExpenseItem(1, "A", "Personal", 1.0);
    var b := ExpenseItem(2, "B", "Personal", 2.0);
    var c := ExpenseItem(3, "C", "Personal", 3.0);
    PersonalTabShowsAll(a, b, c);
    DeleteMiddleRowOnValues(a, b, c);
    var defaults := new UserDefaults(map[ITEMS_KEY := Encode([a, b, c])]);
    var view := new ContentView(defaults);
    view.expenseTypeSelected := "Personal";
    assert view.expenses.items == [a, b, c];
    view.RemoveItems({1});
    assert view.expenses.items == [a, c];
    var relaunched := new Expenses(defaults);
    assert relaunched.items == [a, c];
  }
}
