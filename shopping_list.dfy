/** ShoppingList from shopping_list.py: a named list of items without
    duplicates, changed in place by add_items and remove_item. */
module Shopping {
  import opened Seqs

  class ShoppingList {
    var listName: string
    var items: seq<string>

    /** add_items never lets an item in twice. */
    ghost predicate Valid()
      reads this
    {
      NoDup(items)
    }

    constructor (listName: string)
      ensures Valid()
      ensures this.listName == listName && items == []
    {
      this.listName := listName;
      items := [];
    }

    /** Appends the item unless it is already on the list. */
    method AddItems(item: string)
      requires Valid()
      modifies this
      ensures Valid()
      ensures item in old(items) ==> items == old(items)
      ensures item !in old(items) ==> items == old(items) + [item]
      ensures listName == old(listName)
    {
      if item !in items {
        items := items + [item];
      }
    }

    /** list.remove: deletes the first occurrence and keeps the others in
        order. On an absent item Python raises ValueError; here ok is false
        and the list is left as it was. */
    method RemoveItem(item: string) returns (ok: bool)
      requires Valid()
      modifies this
      ensures Valid()
      ensures ok <==> item in old(items)
      ensures ok ==> items == old(items)[..FirstIndex(old(items), item)]
                              + old(items)[FirstIndex(old(items), item) + 1..]
      ensures !ok ==> items == old(items)
      ensures item !in items
      ensures listName == old(listName)
    {
      ok := item in items;
      if ok {
        RemoveFirstSlice(items, item);
        RemoveFirstNoDup(items, item);
        items := RemoveFirst(items, item);
      }
    }
  }

  /** The items of the script are different strings. */
  lemma PetItemsDistinct()
    ensures NoDup(["dog food", "frisbee", "bowl", "collars", "flea collars"])
  {
    assert "frisbee"[0] != "collars"[0];
  }

  /** The script's run: five additions, one removal, one repeated addition. */
  method PetStoreScenario() returns (final: seq<string>)
    ensures final == ["dog food", "frisbee", "bowl", "collars"]
  {
    var all := ["dog food", "frisbee", "bowl", "collars", "flea collars"];
    PetItemsDistinct();
    var petStore := new ShoppingList("Pet Store Shopping List");
    NoDupPrefixAbsent(all, 0);
    petStore.AddItems(all[0]);
    assert petStore.items == all[..1];
    NoDupPrefixAbsent(all, 1);
    petStore.AddItems(all[1]);
    assert petStore.items == all[..2];
    NoDupPrefixAbsent(all, 2);
    petStore.AddItems(all[2]);
    assert petStore.items == all[..3];
    NoDupPrefixAbsent(all, 3);
    petStore.AddItems(all[3]);
    assert petStore.items == all[..4];
    NoDupPrefixAbsent(all, 4);
    petStore.AddItems(all[4]);
    assert petStore.items == all[..5];
    assert all[..5] == all;
    var removed := petStore.RemoveItem(all[4]);
    NoDupFirstIndex(all, 4);
    assert petStore.items == all[..4];
    petStore.AddItems(all[1]);
    final := petStore.items;
  }
}
