/**
 * The filter screen: a view of the store's items that a button narrows to one
 * course and "Clear Filter" widens to the whole list again.
 */
module FilterMenu {
  import opened Subsequences
  import opened MenuContext

  /** The items whose course is `course`, in their order in `items`. */
  function ByCourse(items: seq<MenuItem>, course: string): (r: seq<MenuItem>)
    ensures forall x :: x in r ==> x.course == course
    ensures |r| <= |items|
  {
    if items == [] then []
    else if items[0].course == course then [items[0]] + ByCourse(items[1..], course)
    else ByCourse(items[1..], course)
  }

  /** The filtered view keeps the relative order of the full list. */
  lemma {:induction false} ByCourseSubsequence(items: seq<MenuItem>, course: string)
    ensures IsSubsequence(ByCourse(items, course), items)
  {
    if items != [] {
      var rest := ByCourse(items[1..], course);
      ByCourseSubsequence(items[1..], course);
      if items[0].course == course {
        assert ([items[0]] + rest)[1..] == rest;
      } else {
        SubsequencePrepend(rest, items[1..], items[0]);
        assert [items[0]] + items[1..] == items;
      }
    }
  }

  /** The filtered view holds every copy of an item of that course and nothing else. */
  lemma {:induction false} ByCourseMultiset(items: seq<MenuItem>, course: string, x: MenuItem)
    ensures multiset(ByCourse(items, course))[x] == if x.course == course then multiset(items)[x] else 0
  {
    if items != [] {
      ByCourseMultiset(items[1..], course, x);
      assert items == [items[0]] + items[1..];
      if x.course != course {
        assert x !in ByCourse(items, course);
      }
    }
  }

  /** An item is in the filtered view exactly when it is in the full list with that course. */
  lemma {:induction false} ByCourseMembers(items: seq<MenuItem>, course: string, x: MenuItem)
    ensures x in ByCourse(items, course) <==> x in items && x.course == course
  {
    ByCourseMultiset(items, course, x);
  }

  /** The filtered view is empty exactly when no item has that course. */
  lemma {:induction false} ByCourseEmpty(items: seq<MenuItem>, course: string)
    ensures ByCourse(items, course) == [] <==> forall x :: x in items ==> x.course != course
  {
    if items != [] {
      ByCourseEmpty(items[1..], course);
      assert items == [items[0]] + items[1..];
    }
  }

  /** Filtering a list whose items all have that course changes nothing. */
  lemma {:induction false} ByCourseAllMatch(items: seq<MenuItem>, course: string)
    requires forall x :: x in items ==> x.course == course
    ensures ByCourse(items, course) == items
  {
    if items != [] {
      assert items[0] in items;
      assert forall x :: x in items[1..] ==> x in items;
      ByCourseAllMatch(items[1..], course);
      assert [items[0]] + items[1..] == items;
    }
  }

  /**
   * Why a handler filters the full list and not the current view: filtering
   * an already filtered view again would give the same view for the same
   * course and an empty one for any other course.
   */
  lemma {:induction false} ByCourseTwice(items: seq<MenuItem>, c1: string, c2: string)
    ensures ByCourse(ByCourse(items, c1), c2) == if c1 == c2 then ByCourse(items, c1) else []
  {
    if c1 == c2 {
      ByCourseAllMatch(ByCourse(items, c1), c1);
    } else {
      ByCourseEmpty(ByCourse(items, c1), c2);
    }
  }

  /**
   * `FilterMenuScreen`: `filteredItems` is screen state, set from the store's
   * list when the screen mounts and then only by the buttons; a later change
   * of the store does not reach it until a button is pressed.
   */
  class FilterMenuScreen {
    const store: MenuStore
    var filteredItems: seq<MenuItem>

    /** Mounting shows the full list. */
    constructor (store: MenuStore)
      ensures this.store == store
      ensures filteredItems == store.menuItems
      ensures IsSubsequence(filteredItems, store.menuItems)
    {
      this.store := store;
      filteredItems := store.menuItems;
      SubsequenceReflexive(store.menuItems);
    }

    /** A course button: the view becomes the full list's items of that course. */
    method FilterByCourse(course: string)
      modifies this
      ensures filteredItems == ByCourse(store.menuItems, course)
      ensures IsSubsequence(filteredItems, store.menuItems)
      ensures multiset(filteredItems) <= multiset(store.menuItems)
      ensures forall x :: x in store.menuItems && x.course == course <==> x in filteredItems
    {
      filteredItems := ByCourse(store.menuItems, course);
      ByCourseSubsequence(store.menuItems, course);
      SubsequenceMultiset(filteredItems, store.menuItems);
      forall x | x in store.menuItems || x in filteredItems
        ensures x in store.menuItems && x.course == course <==> x in filteredItems
      {
        ByCourseMembers(store.menuItems, course, x);
      }
    }

    /** "Clear Filter": the view becomes the full list again. */
    method ClearFilter()
      modifies this
      ensures filteredItems == store.menuItems
      ensures IsSubsequence(filteredItems, store.menuItems)
    {
      filteredItems := store.menuItems;
      SubsequenceReflexive(store.menuItems);
    }
  }

  /** Pressing one course button and then another shows the same view as pressing only the second. */
  method SelectTwoCourses(screen: FilterMenuScreen, c1: string, c2: string)
    modifies screen
    ensures screen.filteredItems == ByCourse(screen.store.menuItems, c2)
    ensures screen.store.menuItems == old(screen.store.menuItems)
  {
    screen.FilterByCourse(c1);
    screen.FilterByCourse(c2);
  }
}
