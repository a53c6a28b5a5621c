/** The "Add new expense" sheet (iExpense/AddView.swift): its form state and
    the Save action. */
module AddViewModel {

  import opened ExpenseItems
  import opened Persistence
  import opened ExpenseStore

  class AddView {
    var name: string
    var category: string
    var amount: real
    /** The store shared with the main screen. */
    const expenses: Expenses

    /** The form starts with an empty name, "Personal" and an amount of 0. */
    constructor (expenses: Expenses)
      ensures this.expenses == expenses
      ensures name == "" && category == "Personal" && amount == 0.0
    {
      this.expenses := expenses;
      name, category, amount := "", "Personal", 0.0;
    }

    /** The Save button: build an item from the form as it stands, with no
        check of any field, and append it to the store, which saves the whole
        new list. `id` stands for the `UUID()` the item is created with. */
    method Save(id: Uuid)
      modifies expenses, expenses.defaults
      ensures expenses.items == old(expenses.items) + [ExpenseItem(id, name, category, amount)]
      ensures expenses.items[..|old(expenses.items)|] == old(expenses.items)
      ensures expenses.items[|expenses.items| - 1] == ExpenseItem(id, name, category, amount)
      ensures expenses.defaults.entries == old(expenses.defaults.entries)[ITEMS_KEY := Encode(expenses.items)]
      ensures expenses.Persisted()
      ensures UniqueIds(old(expenses.items)) && id !in IdsOf(old(expenses.items)) ==> UniqueIds(expenses.items)
    {
      var item := ExpenseItem(id, name, category, amount);
      if UniqueIds(expenses.items) && id !in IdsOf(expenses.items) {
        AppendFreshKeepsUniqueIds(expenses.items, item);
      }
      expenses.Append(item);
    }
  }
}
