/**
 * The shared menu store of the app: the ordered list of menu items held by
 * `MenuProvider`, its two updates `addMenuItem` and `removeMenuItem`, and the
 * `useMenu` accessor that refuses to run outside a provider.
 */
module MenuContext {
  import opened Subsequences

  /** One dish on the menu. The price is only stored, never computed on. */
  datatype MenuItem = MenuItem(id: string, dishName: string, description: string, course: string, price: real)

  /** The fields a caller hands to `addMenuItem`: a menu item without its id. */
  datatype Draft = Draft(dishName: string, description: string, course: string, price: real)

  /** A value, or the message of the error thrown instead. */
  datatype Result<+T> = Ok(value: T) | Err(error: string)

  /** Message of the error `useMenu` throws outside a provider. */
  const UseMenuError := "useMenu must be used within a MenuProvider"

  /** The draft part of an item: every field but the id. */
  function DraftOf(item: MenuItem): Draft
  {
    Draft(item.dishName, item.description, item.course, item.price)
  }

  /** The draft spread into a new item that carries `id`. */
  function WithId(d: Draft, id: string): (item: MenuItem)
    ensures item.id == id && DraftOf(item) == d
  {
    MenuItem(id, d.dishName, d.description, d.course, d.price)
  }

  /** Splitting an item into its draft and id, and joining them again, gives the item back. */
  lemma WithIdDraftOf(item: MenuItem)
    ensures WithId(DraftOf(item), item.id) == item
  {
  }

  /** The list after an add: the old list followed by the new item. */
  function Appended(items: seq<MenuItem>, d: Draft, id: string): (r: seq<MenuItem>)
    ensures |r| == |items| + 1
    ensures r[..|items|] == items
    ensures r[|items|].id == id && DraftOf(r[|items|]) == d
  {
    items + [WithId(d, id)]
  }

  /** The list after a remove: every item whose id differs from `id`, in order. */
  function WithoutId(items: seq<MenuItem>, id: string): (r: seq<MenuItem>)
    ensures forall x :: x in r ==> x.id != id
    ensures |r| <= |items|
  {
    if items == [] then []
    else if items[0].id != id then [items[0]] + WithoutId(items[1..], id)
    else WithoutId(items[1..], id)
  }

  /** Some item of `items` carries `id`. */
  predicate HasId(items: seq<MenuItem>, id: string)
  {
    exists x :: x in items && x.id == id
  }

  /** How many items of `items` carry `id`. */
  function CountId(items: seq<MenuItem>, id: string): nat
  {
    if items == [] then 0
    else (if items[0].id == id then 1 else 0) + CountId(items[1..], id)
  }

  /** No two positions of `items` carry the same id. */
  predicate DistinctIds(items: seq<MenuItem>)
  {
    forall i, j :: 0 <= i < j < |items| ==> items[i].id != items[j].id
  }

  /** An id occurs at least once exactly when its count is positive. */
  lemma {:induction false} CountIdPositive(items: seq<MenuItem>, id: string)
    ensures CountId(items, id) > 0 <==> HasId(items, id)
  {
    if items != [] {
      CountIdPositive(items[1..], id);
      assert items == [items[0]] + items[1..];
      if items[0].id != id && HasId(items, id) {
        var x :| x in items && x.id == id;
        assert x in items[1..];
      }
    }
  }

  /** Removal keeps the other items in their relative order. */
  lemma {:induction false} WithoutIdSubsequence(items: seq<MenuItem>, id: string)
    ensures IsSubsequence(WithoutId(items, id), items)
  {
    if items != [] {
      var rest := WithoutId(items[1..], id);
      WithoutIdSubsequence(items[1..], id);
      if items[0].id != id {
        assert ([items[0]] + rest)[1..] == rest;
      } else {
        SubsequencePrepend(rest, items[1..], items[0]);
        assert [items[0]] + items[1..] == items;
      }
    }
  }

  /** Removal takes every copy of an item carrying `id` and keeps every copy of any other item. */
  lemma {:induction false} WithoutIdMultiset(items: seq<MenuItem>, id: string, x: MenuItem)
    ensures multiset(WithoutId(items, id))[x] == if x.id == id then 0 else multiset(items)[x]
  {
    if items != [] {
      WithoutIdMultiset(items[1..], id, x);
      assert items == [items[0]] + items[1..];
      if x.id == id {
        assert x !in WithoutId(items, id);
      }
    }
  }

  /** An item is in the list after removal exactly when it was there before and carries another id. */
  lemma {:induction false} WithoutIdMembers(items: seq<MenuItem>, id: string, x: MenuItem)
    ensures x in WithoutId(items, id) <==> x in items && x.id != id
  {
    WithoutIdMultiset(items, id, x);
  }

  /** Removal shortens the list by exactly the number of items carrying `id`. */
  lemma {:induction false} WithoutIdLength(items: seq<MenuItem>, id: string)
    ensures |WithoutId(items, id)| == |items| - CountId(items, id)
  {
    if items != [] {
      WithoutIdLength(items[1..], id);
    }
  }

  /** Removal leaves the list as it was exactly when no item carries `id`; it never fails. */
  lemma {:induction false} WithoutIdUnchanged(items: seq<MenuItem>, id: string)
    ensures WithoutId(items, id) == items <==> !HasId(items, id)
  {
    WithoutIdLength(items, id);
    CountIdPositive(items, id);
    if !HasId(items, id) {
      WithoutIdAbsent(items, id);
    }
  }

  /** Removing an id no item carries changes nothing. */
  lemma {:induction false} WithoutIdAbsent(items: seq<MenuItem>, id: string)
    requires !HasId(items, id)
    ensures WithoutId(items, id) == items
  {
    if items != [] {
      assert items[0] in items;
      assert !HasId(items[1..], id) by {
        forall x | x in items[1..] ensures x.id != id {
          assert x in items;
        }
      }
      WithoutIdAbsent(items[1..], id);
      assert [items[0]] + items[1..] == items;
    }
  }

  /** Removing the same id twice is the same as removing it once. */
  lemma {:induction false} WithoutIdIdempotent(items: seq<MenuItem>, id: string)
    ensures WithoutId(WithoutId(items, id), id) == WithoutId(items, id)
  {
    WithoutIdAbsent(WithoutId(items, id), id);
  }

  /** Removal works on the two halves of a list independently. */
  lemma {:induction false} WithoutIdConcat(a: seq<MenuItem>, b: seq<MenuItem>, id: string)
    ensures WithoutId(a + b, id) == WithoutId(a, id) + WithoutId(b, id)
  {
    if a == [] {
      assert a + b == b;
    } else {
      assert (a + b)[0] == a[0];
      assert (a + b)[1..] == a[1..] + b;
      WithoutIdConcat(a[1..], b, id);
    }
  }

  /** Removing the id of an item just added with a fresh id gives back the list before the add. */
  lemma RemoveUndoesFreshAdd(items: seq<MenuItem>, d: Draft, id: string)
    requires !HasId(items, id)
    ensures WithoutId(Appended(items, d, id), id) == items
  {
    WithoutIdConcat(items, [WithId(d, id)], id);
    WithoutIdAbsent(items, id);
    assert WithoutId([WithId(d, id)], id) == [];
  }

  /** Two items added under the same id (two adds in one clock tick) are removed together. */
  lemma CollidingIdsRemovedTogether(a: Draft, b: Draft, id: string)
    ensures WithoutId(Appended(Appended([], a, id), b, id), id) == []
  {
    assert Appended(Appended([], a, id), b, id) == [WithId(a, id), WithId(b, id)];
  }

  /** Add A, add B under another id, remove A: only B is left. */
  lemma AddTwoRemoveFirst(a: Draft, b: Draft, idA: string, idB: string)
    requires idA != idB
    ensures WithoutId(Appended(Appended([], a, idA), b, idB), idA) == [WithId(b, idB)]
  {
    assert Appended(Appended([], a, idA), b, idB) == [WithId(a, idA), WithId(b, idB)];
    assert [WithId(a, idA), WithId(b, idB)][1..] == [WithId(b, idB)];
  }

  /** Adding under a fresh id keeps the ids distinct. */
  lemma AppendFreshKeepsDistinct(items: seq<MenuItem>, d: Draft, id: string)
    requires DistinctIds(items) && !HasId(items, id)
    ensures DistinctIds(Appended(items, d, id))
  {
    var r := Appended(items, d, id);
    forall i, j | 0 <= i < j < |r| ensures r[i].id != r[j].id {
      if j == |items| {
        assert r[i] == items[i] && items[i] in items;
      } else {
        assert r[i] == items[i] && r[j] == items[j];
      }
    }
  }

  /** Removal keeps distinct ids distinct. */
  lemma {:induction false} WithoutIdKeepsDistinct(items: seq<MenuItem>, id: string)
    requires DistinctIds(items)
    ensures DistinctIds(WithoutId(items, id))
  {
    if items != [] {
      var rest := WithoutId(items[1..], id);
      assert DistinctIds(items[1..]) by {
        forall i, j | 0 <= i < j < |items[1..]| ensures items[1..][i].id != items[1..][j].id {
          assert items[1..][i] == items[i + 1] && items[1..][j] == items[j + 1];
        }
      }
      WithoutIdKeepsDistinct(items[1..], id);
      if items[0].id != id {
        var r := [items[0]] + rest;
        forall i, j | 0 <= i < j < |r| ensures r[i].id != r[j].id {
          if i == 0 {
            assert r[j] == rest[j - 1] && rest[j - 1] in rest;
            WithoutIdMembers(items[1..], id, rest[j - 1]);
            var k :| 0 <= k < |items[1..]| && items[1..][k] == rest[j - 1];
            assert items[k + 1] == rest[j - 1];
          } else {
            assert r[i] == rest[i - 1] && r[j] == rest[j - 1];
          }
        }
      }
    }
  }

  /** With distinct ids, a removal drops at most one item. */
  lemma DistinctRemovesAtMostOne(items: seq<MenuItem>, id: string)
    requires DistinctIds(items)
    ensures |WithoutId(items, id)| >= |items| - 1
  {
    WithoutIdLength(items, id);
    DistinctCountAtMostOne(items, id);
  }

  /** With distinct ids, every id is carried by at most one item. */
  lemma {:induction false} DistinctCountAtMostOne(items: seq<MenuItem>, id: string)
    requires DistinctIds(items)
    ensures CountId(items, id) <= 1
  {
    if items != [] {
      assert DistinctIds(items[1..]) by {
        forall i, j | 0 <= i < j < |items[1..]| ensures items[1..][i].id != items[1..][j].id {
          assert items[1..][i] == items[i + 1] && items[1..][j] == items[j + 1];
        }
      }
      DistinctCountAtMostOne(items[1..], id);
      if items[0].id == id {
        assert !HasId(items[1..], id) by {
          forall k | 0 <= k < |items[1..]| ensures items[1..][k].id != id {
            assert items[1..][k] == items[k + 1];
          }
        }
        CountIdPositive(items[1..], id);
      }
    }
  }

  /** `useMenu`: the store of the enclosing provider, or an error when there is none (`null`). */
  function UseMenu(context: MenuStore?): (r: Result<MenuStore>)
    ensures r.Err? <==> context == null
    ensures r.Ok? ==> r.value == context
    ensures r.Err? ==> r.error == UseMenuError
  {
    if context == null then Err(UseMenuError) else Ok(context)
  }

  /** The state of `MenuProvider`: the list of menu items, and its two updates. */
  class MenuStore {
    var menuItems: seq<MenuItem>

    /** A provider starts with no items. */
    constructor ()
      ensures menuItems == []
    {
      menuItems := [];
    }

    /** `addMenuItem`: append the draft with the id the caller's clock supplied. */
    method AddMenuItem(item: Draft, id: string)
      modifies this
      ensures menuItems == Appended(old(menuItems), item, id)
      ensures DistinctIds(old(menuItems)) && !HasId(old(menuItems), id) ==> DistinctIds(menuItems)
    {
      menuItems := Appended(menuItems, item, id);
      if DistinctIds(old(menuItems)) && !HasId(old(menuItems), id) {
        AppendFreshKeepsDistinct(old(menuItems), item, id);
      }
    }

    /** `removeMenuItem`: keep every item whose id differs from `id`. */
    method RemoveMenuItem(id: string)
      modifies this
      ensures menuItems == WithoutId(old(menuItems), id)
      ensures !HasId(menuItems, id)
      ensures IsSubsequence(menuItems, old(menuItems))
      ensures multiset(menuItems) <= multiset(old(menuItems))
      ensures |menuItems| == |old(menuItems)| - CountId(old(menuItems), id)
    {
      menuItems := WithoutId(menuItems, id);
      WithoutIdSubsequence(old(menuItems), id);
      SubsequenceMultiset(menuItems, old(menuItems));
      WithoutIdLength(old(menuItems), id);
    }
  }
}
