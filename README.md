# Menu app: the menu store, the course filter and the home list

A model in Dafny of the logic of a small React Native app in which a chef keeps
a menu of dishes. Three pieces of state are modelled, each as one class:

- **The shared menu store** (`MenuContext.MenuStore`, file `menu_context.dfy`).
  `MenuProvider` holds an ordered list of `MenuItem` records that starts empty.
  `addMenuItem` gives a draft an id and appends it. `removeMenuItem` keeps every
  item whose id differs from its argument. `useMenu` returns the store, or
  throws when no provider encloses the caller. The list updates are the pure
  functions `Appended` and `WithoutId`. The lemmas beside them state what the
  updates promise: removal keeps order, removes every copy of the id, shrinks
  the list by exactly that count, is idempotent, changes nothing for an absent
  id, and undoes an add made with a fresh id.
- **The course filter screen** (`FilterMenu.FilterMenuScreen`, file
  `filter_menu.dfy`). The screen's `filteredItems` starts as the store's list.
  A course button sets it to the store's items of that course (`ByCourse`), and
  "Clear Filter" sets it back to the whole list. The screen holds the store by
  reference and only the handlers write `filteredItems`. So the model keeps the
  app's behaviour that a later change to the store is not shown until a button
  is pressed.
- **The home screen's own list** (`Home.HomeScreen`, file `home.dfy`). This
  list of drafts is separate from the store and starts empty. An effect keyed
  on the route's `newItem` appends that item when a new one arrives. The screen
  shows the list's length as its item count. `newItem` is an object compared
  by identity, so it is modelled as a reference (`RouteItem?`, where `null`
  stands for "no item").

`subsequences.dfy` defines `IsSubsequence`, the order-preserving
"taken from, by deleting" relation. Both filters are stated in its terms.

Ids are strings. The app takes them from the wall clock, and the model takes
them as a parameter of `AddMenuItem`. Nothing in the code makes ids unique, so
the store has no uniqueness invariant. Distinct ids are a hypothesis of the
lemmas that need them (`AppendFreshKeepsDistinct`, `RemoveUndoesFreshAdd`,
`DistinctRemovesAtMostOne`). `CollidingIdsRemovedTogether` shows what happens
when two adds share an id: one remove takes both items.

Three facts about the code shape the model:

- `course` is any string (Screens/MenuContext.tsx:9), not a closed set of courses.
- Nothing makes ids unique: each id is the clock reading at the add (Screens/MenuContext.tsx:30).
- The code has no change subscription, no grouping by course and no average price.

Only the home screen receives the items the add-item form builds: the form
sends its object to Home as the route's `newItem` (Screens/AddMenuScreen.tsx:19-20).
No screen calls `addMenuItem` or `removeMenuItem`, so in the app as written the
store that the filter screen reads stays empty. The store's operations are
modelled as the provider defines them, for any caller.

## Model

| member | source | states |
|---|---|---|
| `MenuContext.WithId` | Screens/MenuContext.tsx:30 | the new item carries the supplied id, and its other fields are exactly the draft's |
| `MenuContext.WithIdDraftOf` | Screens/MenuContext.tsx:16 | an item is its id plus its id-less draft: splitting and re-joining gives the item back |
| `MenuContext.Appended` | Screens/MenuContext.tsx:32 | an add grows the list by exactly one; every earlier item stays at its position; the new item is last, with the given id and the draft's fields |
| `MenuContext.WithoutId` | Screens/MenuContext.tsx:38 | after a remove, no item carries the id, and the list is no longer than before |
| `MenuContext.WithoutIdSubsequence` | Screens/MenuContext.tsx:38 | the items left after a remove keep their relative order from the old list |
| `MenuContext.WithoutIdMultiset` | Screens/MenuContext.tsx:38 | a remove deletes every copy of an item with that id and keeps every copy of every other item |
| `MenuContext.WithoutIdMembers` | Screens/MenuContext.tsx:38 | an item is present after a remove if and only if it was present before and carries a different id |
| `MenuContext.WithoutIdLength` | Screens/MenuContext.tsx:38 | a remove shortens the list by exactly the number of items that carry the id |
| `MenuContext.WithoutIdUnchanged` | Screens/MenuContext.tsx:38 | a remove leaves the list unchanged if and only if no item carries the id |
| `MenuContext.WithoutIdAbsent` | Screens/MenuContext.tsx:38 | removing an id that no item carries returns the same list, with no error |
| `MenuContext.WithoutIdIdempotent` | Screens/MenuContext.tsx:38 | removing an id twice gives the same list as removing it once |
| `MenuContext.RemoveUndoesFreshAdd` | Screens/MenuContext.tsx:28-39 | removing the id of an item just added under an unused id restores the list from before the add |
| `MenuContext.CollidingIdsRemovedTogether` | Screens/MenuContext.tsx:28-39 | two items added under the same id are both gone after one remove of that id |
| `MenuContext.AddTwoRemoveFirst` | Screens/MenuContext.tsx:28-39 | add A, add B under another id, remove A's id: the list is exactly [B] |
| `MenuContext.AppendFreshKeepsDistinct` | Screens/MenuContext.tsx:30-32 | if the ids were distinct and the new id is unused, the ids stay distinct after the add |
| `MenuContext.WithoutIdKeepsDistinct` | Screens/MenuContext.tsx:38 | a remove keeps distinct ids distinct |
| `MenuContext.DistinctRemovesAtMostOne` | Screens/MenuContext.tsx:38 | when ids are distinct, a remove drops at most one item |
| `MenuContext.UseMenu` | Screens/MenuContext.tsx:50-57 | outside a provider the result is the error "useMenu must be used within a MenuProvider", never a missing store; inside one it is the provider's store |
| `MenuContext.MenuStore.constructor` | Screens/MenuContext.tsx:25 | the store starts with an empty item list |
| `MenuContext.MenuStore.AddMenuItem` | Screens/MenuContext.tsx:28-33 | the new list is the old list followed by the draft with the supplied id; if that id is unused, distinct ids stay distinct |
| `MenuContext.MenuStore.RemoveMenuItem` | Screens/MenuContext.tsx:36-39 | the new list is the old list without the items carrying the id: none remains; the rest keep their order and take no item more often than before; the length drops by their count |
| `FilterMenu.ByCourse` | Screens/FilterMenuScreen.tsx:12 | every item of the filtered view has the selected course, and the view is no longer than the full list |
| `FilterMenu.ByCourseSubsequence` | Screens/FilterMenuScreen.tsx:12 | the filtered view is an order-preserving subsequence of the full list |
| `FilterMenu.ByCourseMultiset` | Screens/FilterMenuScreen.tsx:12 | the view holds every copy of each full-list item with that course, and nothing else |
| `FilterMenu.ByCourseMembers` | Screens/FilterMenuScreen.tsx:12 | an item is in the view if and only if it is in the full list with the selected course |
| `FilterMenu.ByCourseEmpty` | Screens/FilterMenuScreen.tsx:12 | the view is empty if and only if no item of the full list has that course |
| `FilterMenu.ByCourseAllMatch` | Screens/FilterMenuScreen.tsx:12 | filtering a list whose items all have that course returns it unchanged |
| `FilterMenu.ByCourseTwice` | Screens/FilterMenuScreen.tsx:11-13 | filtering an already filtered view again gives the same view for the same course and nothing for another; this is why each handler filters the full list |
| `FilterMenu.FilterMenuScreen.constructor` | Screens/FilterMenuScreen.tsx:9 | the view starts as the store's full list, so it is a subsequence of that list |
| `FilterMenu.FilterMenuScreen.FilterByCourse` | Screens/FilterMenuScreen.tsx:11-13 | the view becomes the full list's items of that course, as an order-preserving subsequence that takes no item more often than the full list holds it, and holds exactly the full list's items with that course |
| `FilterMenu.FilterMenuScreen.ClearFilter` | Screens/FilterMenuScreen.tsx:21 | "Clear Filter" makes the view the full list again, a subsequence of itself |
| `FilterMenu.SelectTwoCourses` | Screens/FilterMenuScreen.tsx:18-20 | pressing one course button and then another gives the same view as pressing only the second |
| `Home.AfterEffect` | Screens/HomeScreen.tsx:11-15 | with no new item, or the same item the effect last ran for, the list is unchanged; with a different present item, the list grows by one, that item is last and earlier items keep their order |
| `Home.AfterRendersAppendsArrivals` | Screens/HomeScreen.tsx:11-15 | over any run of renders, the list only grows at its end, by exactly the present items that differ from the value seen before them, in order |
| `Home.RedeliveredOnce` | Screens/HomeScreen.tsx:15 | the same `newItem` object delivered on any number of consecutive renders is appended exactly once |
| `Home.RepeatedUnchanged` | Screens/HomeScreen.tsx:15 | renders that keep delivering the value the effect last ran for leave the list unchanged |
| `Home.HomeScreen.constructor` | Screens/HomeScreen.tsx:9 | the home list starts empty |
| `Home.HomeScreen.Render` | Screens/HomeScreen.tsx:11-15 | one render changes the list as `AfterEffect` says, and records the `newItem` the effect ran for |
| `Home.HomeScreen.TotalItems` | Screens/HomeScreen.tsx:21 | the displayed total is the length of the home list |

## Left out

- The add-item form (Screens/AddMenuScreen.tsx). It is text inputs, a course picker and a float parse of the price. The object it builds reaches only the home screen, as the route's `newItem`; it is modelled there as a `RouteItem`. The `Draft` passed to `AddMenuItem` is a free input, because no screen calls the store's add.
- App.tsx only composes the provider and the navigator. It has no logic.
- Rendering, styles, list keys, navigation calls and the two-decimal price formatting are presentation.
- Navigation by screen name is not modelled. Screens/HomeScreen.tsx:36 navigates to `'AddMenu'`, while App.tsx:18 registers that screen as `'AddMenuItem'`.
- The clock that makes ids (`Date.now().toString()`) is a foreign, nondeterministic call. The id is a parameter of `AddMenuItem`.
- React's scheduling is left out. Each `setMenuItems`/`setFilteredItems` update is one atomic step. A render together with its effect is one `Render` call. Context lookup is reduced to `UseMenu` on a possibly-null store.
- Prices are `real` values that are only stored and copied. JavaScript's floating-point numbers, including a NaN from a failed parse, are not modelled, because no modelled path computes on a price.
- Grouping by course, average prices and change subscriptions do not appear in the code, so they are not modelled.
