# Nox item catalog — a verified model

`NoxItemCatalog` is the per-position cache behind the Nox gallery view. It is built over a
fixed list of `NoxItem`s and a target size. For every position it keeps four things:

- a weakly held decoded bitmap;
- a weakly held per-position placeholder;
- an in-flight flag;
- a completion listener, created lazily.

It also keeps one global placeholder. `load(p)` sends a request to the external
`ImageLoader`, but only when position p has no live bitmap and no request already in flight.
The request carries item p's resource id, url and placeholder id, the target size, the
circular transform and p's listener. The listener comes back into the catalog through
`setBitmap`, `setLoading`, `setPlaceholder(p, …)` and `notifyNoxItemReady`.

The project has three files:

- `wrappers.dfy`: `Option` (Java's nullable references) and `Result` (a thrown exception).
- `nox_item_catalog.dfy`, module `Nox`: the model of `NoxItemCatalog.java`.
  - The class `NoxItemCatalog<Bitmap, Drawable>` keeps the source's four arrays and its
    global placeholder.
  - Its ghost `State()` gives the catalog's abstract value, a `CatalogState`.
  - Each mutator is specified by a function on `CatalogState`, of the form
    `State() == old(State()).Op(…)`. These functions state what changes at p, that nothing
    else changes, and that the invariant `WellFormed` is kept. `WellFormed` says:
    - every array has one slot per item;
    - a listener answers for the position it is stored at;
    - every submitted request carries its item's data and that position's one listener.
  - A weak reference is a `Slot`: `Empty` is a null array element, and `Ref(r)` is a
    reference whose referent `r` becomes `None` once the garbage collector reclaims it.
  - The image loader is a small class that records the calls made to it. The loader may be
    shared with other clients, so the catalog also keeps `loaderCalls`, its own record of the
    calls it has made; `WellFormed` speaks of that record only.
  - The `Observable` channel is the log `notifications`.
- `nox_properties.dfy`, module `NoxProperties`: runs of operations (`Step`, `Run`) and the
  lemmas about them. The lemmas cover:
  - exactly one submission per eligible `load`;
  - no second submission while a position is in flight;
  - retry after a failure or a reclamation;
  - one listener per position for good;
  - a bitmap stays ready until it is replaced or reclaimed.

Two facts about the code shape the model:

- The constructor (NoxItemCatalog.java:43-52) checks only that the item list is non-null,
  and throws a `NullPointerException` when it is null (line 141). It does not check that
  `noxItemSize` is positive, so the target size is any `int`.
- What `NoxItemCatalogImageLoaderListener` does on completion is not modelled. Completion
  appears only as calls of the public mutators: `CompletionMakesReady` shows the success
  path and `RetryAfterFailure` the failure path.

## Model

| member | source | states |
|---|---|---|
| `Nox.NewCatalog` | nox/src/main/java/com/github/pedrovgs/nox/NoxItemCatalog.java:139-143 | a null item list fails with the NullPointerException message of the source; otherwise a fresh valid catalog whose size is the list's length and whose state is the initial one |
| `Nox.NoxItemCatalog.constructor` | nox/src/main/java/com/github/pedrovgs/nox/NoxItemCatalog.java:43-52 | allocates four fresh arrays of the item count; the catalog keeps the given loader and starts valid in the initial state, with an empty record of its own loader calls |
| `Nox.InitialState` | nox/src/main/java/com/github/pedrovgs/nox/NoxItemCatalog.java:43-52 | a new catalog is well formed; at every position no bitmap is ready, nothing is in flight, there is no listener and no placeholder; nothing has been submitted or notified |
| `Nox.NoxItemCatalog.IsBitmapReady` | nox/src/main/java/com/github/pedrovgs/nox/NoxItemCatalog.java:58-60 | line 59's null-and-referent test is exactly the abstract `BitmapReady(p)` of the catalog's state, the predicate that `SetBitmap`, `ReclaimBitmap` and `ReadyUntilReclaimed` are stated about |
| `Nox.NoxItemCatalog.IsDownloading` | nox/src/main/java/com/github/pedrovgs/nox/NoxItemCatalog.java:135-137 | p is neither ready nor downloading exactly when the abstract guard `ShouldLoad(p)` of `load` holds |
| `Nox.NoxItemCatalog.Size` | nox/src/main/java/com/github/pedrovgs/nox/NoxItemCatalog.java:54-56 | the item count equals the length of each of the bitmap, placeholder, loading and listener arrays |
| `Nox.Get` | nox/src/main/java/com/github/pedrovgs/nox/NoxItemCatalog.java:67-69 | dereferencing a weak-reference slot gives a value exactly when the slot holds a reference whose referent is live, and then gives that referent |
| `Nox.NoxItemCatalog.GetBitmap` | nox/src/main/java/com/github/pedrovgs/nox/NoxItemCatalog.java:67-69 | `getBitmap(p)` is the abstract `Bitmap(p)` of the catalog's state; it is non-null exactly when `isBitmapReady(p)`, and then it is the referent of slot p |
| `Nox.ChoosePlaceholder` | nox/src/main/java/com/github/pedrovgs/nox/NoxItemCatalog.java:71-80 | placeholder precedence: the live per-position placeholder if there is one, otherwise the global one (possibly null) |
| `Nox.NoxItemCatalog.GetPlaceholder` | nox/src/main/java/com/github/pedrovgs/nox/NoxItemCatalog.java:71-80 | `getPlaceholder(p)` is the referent of slot p when it is live, and the global placeholder otherwise; it is the abstract `Placeholder(p)` of the catalog's state |
| `Nox.PlaceholderAvailable` | nox/src/main/java/com/github/pedrovgs/nox/NoxItemCatalog.java:62-65 | the readiness test (live slot, or global set) holds exactly when the chosen placeholder is non-null |
| `Nox.NoxItemCatalog.IsPlaceholderReady` | nox/src/main/java/com/github/pedrovgs/nox/NoxItemCatalog.java:62-65 | `isPlaceholderReady(p)` holds exactly when `getPlaceholder(p)` is non-null |
| `Nox.CatalogState.SetPlaceholder` | nox/src/main/java/com/github/pedrovgs/nox/NoxItemCatalog.java:82-84 | setting the global placeholder keeps the result at positions with a live placeholder of their own, shows the new one everywhere else, and changes nothing but the global field |
| `Nox.NoxItemCatalog.SetPlaceholder` | nox/src/main/java/com/github/pedrovgs/nox/NoxItemCatalog.java:82-84 | the new state is `SetPlaceholder` of the old one; the catalog stays valid |
| `Nox.CatalogState.Load` | nox/src/main/java/com/github/pedrovgs/nox/NoxItemCatalog.java:86-92 | `load(p)` is a no-op when p is ready or in flight; it changes only index p of the loading and listener arrays, keeps the earlier loader calls as a prefix and appends at most one; it keeps `WellFormed` |
| `Nox.NoxItemCatalog.Load` | nox/src/main/java/com/github/pedrovgs/nox/NoxItemCatalog.java:86-92 | when p is ready or in flight, nothing changes; otherwise the new state is `Load` of the old one with p's listener, which is freshly allocated if p had none; the loader receives exactly the calls appended to the catalog's record |
| `Nox.NoxItemCatalog.LoadNoxItem` | nox/src/main/java/com/github/pedrovgs/nox/NoxItemCatalog.java:119-126 | appends exactly one submission, item p's request at the catalog's size with the circular transform, with p's listener, both to the catalog's record and to the loader; only `listeners[p]` may change |
| `Nox.NoxItemCatalog.GetImageLoaderListener` | nox/src/main/java/com/github/pedrovgs/nox/NoxItemCatalog.java:128-133 | returns the stored listener of p if there is one, else a fresh listener for p and this catalog, which is stored at p; the other slots are untouched |
| `Nox.CatalogState.PauseLoader` | nox/src/main/java/com/github/pedrovgs/nox/NoxItemCatalog.java:98-100 | `pause()` is passed to the loader and changes no catalog state |
| `Nox.NoxItemCatalog.Pause` | nox/src/main/java/com/github/pedrovgs/nox/NoxItemCatalog.java:98-100 | the new state is `PauseLoader` of the old one, and the loader receives exactly one `pause` call |
| `Nox.CatalogState.ResumeLoader` | nox/src/main/java/com/github/pedrovgs/nox/NoxItemCatalog.java:94-96 | `resume()` is passed to the loader and changes no catalog state |
| `Nox.NoxItemCatalog.Resume` | nox/src/main/java/com/github/pedrovgs/nox/NoxItemCatalog.java:94-96 | the new state is `ResumeLoader` of the old one, and the loader receives exactly one `resume` call |
| `Nox.CatalogState.NotifyReady` | nox/src/main/java/com/github/pedrovgs/nox/NoxItemCatalog.java:102-105 | appends exactly one notification, carrying p, and changes nothing else |
| `Nox.NoxItemCatalog.NotifyNoxItemReady` | nox/src/main/java/com/github/pedrovgs/nox/NoxItemCatalog.java:102-105 | the new state is `NotifyReady` of the old one; p is not bounds-checked, as in the source |
| `Nox.CatalogState.SetBitmap` | nox/src/main/java/com/github/pedrovgs/nox/NoxItemCatalog.java:107-109 | afterwards `getBitmap(p)` is the given image and p is ready exactly when the image is non-null; only index p of the bitmaps changes |
| `Nox.NoxItemCatalog.SetBitmap` | nox/src/main/java/com/github/pedrovgs/nox/NoxItemCatalog.java:107-109 | the new state is `SetBitmap` of the old one |
| `Nox.CatalogState.SetLoading` | nox/src/main/java/com/github/pedrovgs/nox/NoxItemCatalog.java:111-113 | sets the in-flight flag of p and changes no other flag and nothing else |
| `Nox.NoxItemCatalog.SetLoading` | nox/src/main/java/com/github/pedrovgs/nox/NoxItemCatalog.java:111-113 | the new state is `SetLoading` of the old one |
| `Nox.CatalogState.SetPositionPlaceholder` | nox/src/main/java/com/github/pedrovgs/nox/NoxItemCatalog.java:115-117 | afterwards p shows the given placeholder, or the global one if the given one is null; only index p of the placeholders changes |
| `Nox.NoxItemCatalog.SetPositionPlaceholder` | nox/src/main/java/com/github/pedrovgs/nox/NoxItemCatalog.java:115-117 | the new state is `SetPositionPlaceholder` of the old one |
| `Nox.CatalogState.ReclaimBitmap` | nox/src/main/java/com/github/pedrovgs/nox/NoxItemCatalog.java:58-60 | after the collector reclaims the bitmap at p, p is not ready and `getBitmap(p)` is null; the reference itself stays, and no other slot changes |
| `Nox.NoxItemCatalog.ReclaimBitmap` | nox/src/main/java/com/github/pedrovgs/nox/NoxItemCatalog.java:37 | the collector's step on the weak bitmap array: the new state is `ReclaimBitmap` of the old one |
| `Nox.CatalogState.ReclaimPlaceholder` | nox/src/main/java/com/github/pedrovgs/nox/NoxItemCatalog.java:71-80 | after the collector reclaims the placeholder at p, p falls back to the global placeholder; no other slot changes |
| `Nox.NoxItemCatalog.ReclaimPlaceholder` | nox/src/main/java/com/github/pedrovgs/nox/NoxItemCatalog.java:38 | the collector's step on the weak placeholder array: the new state is `ReclaimPlaceholder` of the old one |
| `NoxProperties.Run` | nox/src/main/java/com/github/pedrovgs/nox/NoxItemCatalog.java:34-41 | over any run of operations, the item list and the target size, and so the size, never change, and the state stays well formed |
| `NoxProperties.LoadSubmitsOnce` | nox/src/main/java/com/github/pedrovgs/nox/NoxItemCatalog.java:86-133 | when p is neither ready nor in flight, `load(p)` sets `loading[p]` and appends exactly one submission. The submission is for p and for no other position. It carries item p's resource id, url and placeholder id, the catalog's size and the circular transform. It goes with p's existing listener, or with the new one when p had none |
| `NoxProperties.LoadTwiceSubmitsOnce` | nox/src/main/java/com/github/pedrovgs/nox/NoxItemCatalog.java:86-92 | two `load(p)` in a row: the second changes nothing, and the pair submits once for p exactly when p was neither ready nor in flight |
| `NoxProperties.NoResubmitWhileLoading` | nox/src/main/java/com/github/pedrovgs/nox/NoxItemCatalog.java:135-137 | once p is in flight, any run of operations without `setLoading(p, false)` keeps p in flight and submits nothing more for p |
| `NoxProperties.RetryAfterFailure` | nox/src/main/java/com/github/pedrovgs/nox/NoxItemCatalog.java:86-113 | with no live bitmap at p (a failure or a reclamation), `setLoading(p, false)` then `load(p)` submits one new request for p with p's existing listener |
| `NoxProperties.CompletionMakesReady` | nox/src/main/java/com/github/pedrovgs/nox/NoxItemCatalog.java:102-113 | `load(p)`, then `setBitmap(p, b)`, `setLoading(p, false)` and `notifyNoxItemReady(p)`: afterwards p is ready with b, p is not in flight, and observers got exactly one notification, carrying p. The run submitted once for p if p needed it, and a further `load(p)` is a no-op |
| `NoxProperties.BitmapSlotKept` | nox/src/main/java/com/github/pedrovgs/nox/NoxItemCatalog.java:107-109 | only `setBitmap(p, _)` and reclamation at p change the bitmap slot of p |
| `NoxProperties.ReadyUntilReclaimed` | nox/src/main/java/com/github/pedrovgs/nox/NoxItemCatalog.java:58-69 | after `setBitmap(p, b)`, p stays ready and `getBitmap(p)` stays b through any run of operations without a reclamation or a new `setBitmap` at p |
| `NoxProperties.ListenerKept` | nox/src/main/java/com/github/pedrovgs/nox/NoxItemCatalog.java:128-133 | once p has a listener, no run of operations replaces it |
| `NoxProperties.SubmissionsShareListener` | nox/src/main/java/com/github/pedrovgs/nox/NoxItemCatalog.java:119-133 | once p has a listener, every submission for p, earlier or later, goes with that listener and carries item p's request |
| `NoxProperties.GlobalPlaceholderOnFreshCatalog` | nox/src/main/java/com/github/pedrovgs/nox/NoxItemCatalog.java:71-84 | a fresh catalog shows no placeholder at p, and after the global placeholder is set to x it shows x |

## Left out

- Bitmap and Drawable contents are opaque type parameters. The `ImageLoader` builder chain is
  modelled as one `Request` value that is submitted with the listener. What the loader does
  with a request (fetching, decoding, its own pause semantics) is outside the model. The
  loader is a class that records the calls it receives.
- Garbage-collector timing is not modelled. Reclamation is an explicit step,
  `ReclaimBitmap` / `ReclaimPlaceholder`, that may happen between any two operations.
  Memory pressure is not modelled.
- `java.util.Observable` (`setChanged`, the observer registry, delivery to each observer) is
  not modelled. It is replaced by the `notifications` log.
- Threading and background decoding are not modelled. The catalog is used from one thread.
- `NoxItemCatalogImageLoaderListener` and `NoxItem` are not part of this model.
  - The listener is modelled only by its construction, from a position and the catalog.
  - An item is a record of an optional resource id, url and placeholder id.
- Null items in the list and a null `imageLoader` are not modelled: `NoxItem` and the loader
  are non-null types here. In the source, `load(p)` on a null item sets `loading[p]` (line 88)
  and then throws at line 120, so p stays in flight and every later `load(p)` is a no-op. A
  null loader throws in `loadNoxItem` (line 120), `resume` (line 95) and `pause` (line 99).
- Out-of-range positions are excluded by preconditions. In the source, the Java array bounds
  check is the only guard.
- `listeners` is a non-final field in the source but is never reassigned. It is a `const`
  array here, like the other three arrays.
- The item `List` is captured as an immutable sequence. Changes to the list made by a caller
  after construction are not modelled.
