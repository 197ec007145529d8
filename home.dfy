/**
 * The home screen's own item list, separate from the store: an effect keyed on
 * the route's `newItem` appends that item whenever a different one arrives,
 * and the screen shows how many items the list holds.
 */
module Home {
  import opened MenuContext

  /**
   * The object the add screen sends as the route's `newItem`. It is a
   * reference: the effect compares it by identity, so a new object with the
   * same fields is a different value, and the same object delivered again is not.
   */
  class RouteItem {
    const draft: Draft

    constructor (draft: Draft)
      ensures this.draft == draft
    {
      this.draft := draft;
    }
  }

  /**
   * One run of the render-and-effect step: the list after `newItem` is seen
   * when `lastSeen` was the value the effect last ran for (`null` for none).
   */
  function AfterEffect(items: seq<Draft>, lastSeen: RouteItem?, newItem: RouteItem?): (r: seq<Draft>)
    ensures newItem == null || newItem == lastSeen ==> r == items
    ensures newItem != null && newItem != lastSeen ==>
      |r| == |items| + 1 && r[..|items|] == items && r[|items|] == newItem.draft
  {
    if newItem != null && newItem != lastSeen then items + [newItem.draft] else items
  }

  /** The list after a run of renders, each with the route's `newItem` at that time. */
  function AfterRenders(items: seq<Draft>, lastSeen: RouteItem?, route: seq<RouteItem?>): seq<Draft>
    decreases |route|
  {
    if route == [] then items
    else AfterRenders(AfterEffect(items, lastSeen, route[0]), route[0], route[1..])
  }

  /** The drafts a run of renders appends: each present `newItem` that differs from the one before it. */
  function Arrivals(lastSeen: RouteItem?, route: seq<RouteItem?>): seq<Draft>
    decreases |route|
  {
    if route == [] then []
    else if route[0] != null && route[0] != lastSeen then [route[0].draft] + Arrivals(route[0], route[1..])
    else Arrivals(route[0], route[1..])
  }

  /** A run of renders only appends, and what it appends is exactly the arrivals, in order. */
  lemma {:induction false} AfterRendersAppendsArrivals(items: seq<Draft>, lastSeen: RouteItem?, route: seq<RouteItem?>)
    ensures AfterRenders(items, lastSeen, route) == items + Arrivals(lastSeen, route)
    decreases |route|
  {
    if route != [] {
      var next := AfterEffect(items, lastSeen, route[0]);
      AfterRendersAppendsArrivals(next, route[0], route[1..]);
      if route[0] != null && route[0] != lastSeen {
        assert items + [route[0].draft] + Arrivals(route[0], route[1..])
            == items + ([route[0].draft] + Arrivals(route[0], route[1..]));
      }
    }
  }

  /** The same `newItem` delivered on any number of renders is appended once. */
  lemma {:induction false} RedeliveredOnce(items: seq<Draft>, lastSeen: RouteItem?, item: RouteItem, n: nat)
    requires item != lastSeen
    ensures AfterRenders(items, lastSeen, seq(n + 1, _ => item)) == items + [item.draft]
  {
    var route := seq(n + 1, _ => item);
    assert route[0] == item;
    assert route[1..] == seq(n, _ => item);
    RepeatedUnchanged(items + [item.draft], item, n);
  }

  /** Renders that keep delivering the last seen `newItem` leave the list alone. */
  lemma {:induction false} RepeatedUnchanged(items: seq<Draft>, item: RouteItem, n: nat)
    ensures AfterRenders(items, item, seq(n, _ => item)) == items
  {
    if n > 0 {
      var route := seq(n, _ => item);
      assert route[0] == item;
      assert route[1..] == seq(n - 1, _ => item);
      RepeatedUnchanged(items, item, n - 1);
    }
  }

  /** `HomeScreen`: its local list of drafts and the `newItem` its effect last ran for. */
  class HomeScreen {
    var menuItems: seq<Draft>
    var lastSeen: RouteItem?

    /** The list starts empty and no effect has run yet. */
    constructor ()
      ensures menuItems == [] && lastSeen == null
    {
      menuItems := [];
      lastSeen := null;
    }

    /** A render with the route's current `newItem`, followed by the effect when that value changed. */
    method Render(newItem: RouteItem?)
      modifies this
      ensures menuItems == AfterEffect(old(menuItems), old(lastSeen), newItem)
      ensures lastSeen == newItem
    {
      if newItem != lastSeen {
        if newItem != null {
          menuItems := menuItems + [newItem.draft];
        }
      }
      lastSeen := newItem;
    }

    /** The "Total Items" count the screen shows. */
    method TotalItems() returns (n: nat)
      ensures n == |menuItems|
    {
      n := |menuItems|;
    }
  }
}
