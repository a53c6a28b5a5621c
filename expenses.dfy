/** The `Expenses` store (iExpense/ContentView.swift): the ordered list of
    expenses, loaded once when the store is made and saved in full after
    every assignment to the list. */
module ExpenseStore {

  import opened ExpenseItems
  import opened Persistence

  class Expenses {
    /** The list the views show, in insertion order. */
    var items: seq<ExpenseItem>
    /** The `UserDefaults.standard` the store reads and writes. */
    const defaults: UserDefaults

    /** After a save, what a new store would load from `defaults` is exactly
        the current list. */
    ghost predicate Persisted()
      reads this, defaults
    {
      LoadedItems(defaults.DataFor(ITEMS_KEY)) == items
    }

    /** `init()`: the saved list when one is stored under "Items" and
        decodes, otherwise the empty list. `items` already holds its default
        value (the empty list) when `init` runs, and the class is
        `@Observable`, so `init`'s assignment goes through the setter and runs
        `didSet`: the loaded list is written back under "Items", and data that
        did not decode is overwritten with the encoding of the empty list. */
    constructor (defaults: UserDefaults)
      modifies defaults
      ensures this.defaults == defaults
      ensures items == LoadedItems(old(defaults.DataFor(ITEMS_KEY)))
      ensures (old(defaults.DataFor(ITEMS_KEY)).Some? && Decode(old(defaults.DataFor(ITEMS_KEY)).value).Some?)
                ==> items == Decode(old(defaults.DataFor(ITEMS_KEY)).value).value
      ensures (old(defaults.DataFor(ITEMS_KEY)).None? || Decode(old(defaults.DataFor(ITEMS_KEY)).value).None?)
                ==> items == []
      ensures defaults.entries == old(defaults.entries)[ITEMS_KEY := Encode(items)]
      ensures Persisted()
    {
      this.defaults := defaults;
      items := [];
      new;
      var saved := defaults.DataFor(ITEMS_KEY);
      if saved.Some? {
        var decoded := Decode(saved.value);
        if decoded.Some? {
          SetItems(decoded.value);
          return;
        }
      }
      SetItems([]);
    }

    /** An assignment to `items`: the new list replaces the old one, and then
        `didSet` encodes the whole list and overwrites the "Items" entry,
        leaving every other entry alone. */
    method SetItems(newItems: seq<ExpenseItem>)
      modifies this, defaults
      ensures items == newItems
      ensures defaults.entries == old(defaults.entries)[ITEMS_KEY := Encode(newItems)]
      ensures Persisted()
    {
      items := newItems;
      defaults.Set(Encode(items), ITEMS_KEY);
    }

    /** `items.append(item)`: one item more, at the end, earlier items as they
        were; being an assignment to `items`, it saves the whole new list. */
    method Append(item: ExpenseItem)
      modifies this, defaults
      ensures items == old(items) + [item]
      ensures |items| == |old(items)| + 1 && items[|items| - 1] == item
      ensures items[..|old(items)|] == old(items)
      ensures defaults.entries == old(defaults.entries)[ITEMS_KEY := Encode(items)]
      ensures Persisted()
    {
      SetItems(items + [item]);
    }
  }
}
