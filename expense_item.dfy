/** The persisted expense record, `ExpenseItem` (iExpense/ContentView.swift). */
module ExpenseItems {

  import opened Sequences

  /** A UUID, seen only as an identity value that can be compared. */
  type Uuid = nat

  /** One expense. Swift's stored property `type` is called `category` here,
      since `type` is a keyword of Dafny; the amount, a `Double` in Swift, is a
      `real`. */
  datatype ExpenseItem = ExpenseItem(id: Uuid, name: string, category: string, amount: real)

  /** The identifiers that occur in the list `items`; `IdsOfRows` is the
      same for a set of items. */
  function IdsOf(items: seq<ExpenseItem>): set<Uuid>
  {
    set x | x in items :: x.id
  }

  /** The identifiers that occur in the set `rows`; `IdsOf` is the same for
      a list. */
  function IdsOfRows(rows: set<ExpenseItem>): set<Uuid>
  {
    set e | e in rows :: e.id
  }

  /** No two positions of `items` hold the same identifier. */
  predicate UniqueIds(items: seq<ExpenseItem>)
  {
    forall i, j :: 0 <= i < j < |items| ==> items[i].id != items[j].id
  }

  /** With unique identifiers, two different items of the list have
      different identifiers. */
  lemma DistinctItemsDistinctIds(items: seq<ExpenseItem>, a: ExpenseItem, b: ExpenseItem)
    requires UniqueIds(items)
    requires a in items && b in items && a != b
    ensures a.id != b.id
  {
    var i :| 0 <= i < |items| && items[i] == a;
    var j :| 0 <= j < |items| && items[j] == b;
    if i < j {
      assert items[i].id != items[j].id;
    } else {
      assert items[j].id != items[i].id;
    }
  }

  /** A prefix of a list with unique identifiers has unique identifiers. */
  lemma UniqueIdsPrefix(items: seq<ExpenseItem>, n: nat)
    requires UniqueIds(items) && n <= |items|
    ensures UniqueIds(items[..n])
  {
    var front := items[..n];
    forall i, j | 0 <= i < j < |front| ensures front[i].id != front[j].id {
      assert front[i] == items[i] && front[j] == items[j];
    }
  }

  /** Identifiers are unique in a non-empty list exactly when they are unique
      in its tail and the head's identifier does not occur in the tail. */
  lemma UniqueIdsCons(h: ExpenseItem, t: seq<ExpenseItem>)
    ensures UniqueIds([h] + t) <==> UniqueIds(t) && h.id !in IdsOf(t)
  {
    var s := [h] + t;
    if UniqueIds(s) {
      forall i, j | 0 <= i < j < |t| ensures t[i].id != t[j].id {
        assert s[i + 1] == t[i] && s[j + 1] == t[j];
      }
      forall k | 0 <= k < |t| ensures t[k].id != h.id {
        assert s[0] == h && s[k + 1] == t[k];
      }
    }
    if UniqueIds(t) && h.id !in IdsOf(t) {
      forall i, j | 0 <= i < j < |s| ensures s[i].id != s[j].id {
        if i == 0 {
          assert s[j] in t;
        } else {
          assert s[i] == t[i - 1] && s[j] == t[j - 1];
        }
      }
    }
  }

  /** Filtering never introduces a repeated identifier. */
  lemma {:induction false} FilterKeepsUniqueIds(items: seq<ExpenseItem>, p: ExpenseItem -> bool)
    requires UniqueIds(items)
    ensures UniqueIds(Filter(items, p))
  {
    if items != [] {
      var h, t := items[0], items[1..];
      assert items == [h] + t;
      UniqueIdsCons(h, t);
      FilterKeepsUniqueIds(t, p);
      if p(h) {
        assert h.id !in IdsOf(Filter(t, p));
        UniqueIdsCons(h, Filter(t, p));
      }
    }
  }

  /** Appending an item whose identifier is fresh keeps identifiers unique. */
  lemma AppendFreshKeepsUniqueIds(items: seq<ExpenseItem>, item: ExpenseItem)
    requires UniqueIds(items)
    requires item.id !in IdsOf(items)
    ensures UniqueIds(items + [item])
  {
    var s := items + [item];
    forall i, j | 0 <= i < j < |s| ensures s[i].id != s[j].id {
      if j == |items| {
        assert s[i] in items;
      } else {
        assert s[i] == items[i] && s[j] == items[j];
      }
    }
  }
}
