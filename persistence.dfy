/** The saved copy of the expense list: one entry of the app's `UserDefaults`
    under the key "Items", written with `JSONEncoder` and read back with
    `JSONDecoder` (iExpense/ContentView.swift). The JSON format is not
    modelled; only whether stored data decodes, and to what. */
module Persistence {

  import opened ExpenseItems

  datatype Option<T> = None | Some(value: T)

  /** Data held in `UserDefaults`: either the encoding of an expense list, or
      bytes that do not decode as `[ExpenseItem]` (corrupt data, another
      schema). */
  datatype Data = EncodedItems(items: seq<ExpenseItem>) | Undecodable(bytes: seq<bv8>)

  /** The key under which the list is saved. */
  const ITEMS_KEY: string := "Items"

  /** `JSONEncoder().encode(items)`. Decoding what was encoded gives the list back. */
  function Encode(items: seq<ExpenseItem>): (d: Data)
    ensures Decode(d) == Some(items)
  {
    EncodedItems(items)
  }

  /** `try? JSONDecoder().decode([ExpenseItem].self, from: data)`: fails
      exactly on data that is not an encoded list. */
  function Decode(d: Data): (r: Option<seq<ExpenseItem>>)
    ensures r.None? <==> d.Undecodable?
  {
    match d
    case EncodedItems(items) => Some(items)
    case Undecodable(_) => None
  }

  /** The standard `UserDefaults` store, reduced to a map from keys to data. */
  class UserDefaults {
    var entries: map<string, Data>

    constructor (entries: map<string, Data>)
      ensures this.entries == entries
    {
      this.entries := entries;
    }

    /** `data(forKey:)`: the stored data, or nothing when the key is
        absent. */
    function DataFor(key: string): (r: Option<Data>)
      reads this
      ensures r.Some? <==> key in entries
      ensures key in entries ==> r == Some(entries[key])
    {
      if key in entries then Some(entries[key]) else None
    }

    /** `set(_:forKey:)`: overwrite one entry. */
    method Set(value: Data, key: string)
      modifies this
      ensures entries == old(entries)[key := value]
    {
      entries := entries[key := value];
    }
  }

  /** What `Expenses.init` puts in `items`, given what is saved under
      "Items": the last list saved, or the empty list when nothing is saved
      or the data does not decode. */
  function LoadedItems(saved: Option<Data>): (r: seq<ExpenseItem>)
    ensures forall items :: saved == Some(Encode(items)) ==> r == items
    ensures saved.None? ==> r == []
    ensures saved.Some? && saved.value.Undecodable? ==> r == []
  {
    if saved.Some? && Decode(saved.value).Some? then Decode(saved.value).value else []
  }
}
