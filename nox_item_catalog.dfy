/**
 * The per-position image cache and load tracker of the Nox gallery view.
 *
 * A catalog is built over a fixed list of items. For every position it keeps
 * a weakly held decoded bitmap, a weakly held per-position placeholder, an
 * in-flight flag and a lazily created completion listener; it also keeps one
 * global placeholder. Loading is delegated to an external image loader, and
 * the loader's listener re-enters the catalog through the public mutators.
 *
 * The class `NoxItemCatalog` is the imperative model; `CatalogState` is its
 * abstract value, and every mutator is specified by a function on it.
 */
module Nox {
  import opened Wrappers

  // ---------------------------------------------------------------------------
  // Items, weak references and loader requests
  // ---------------------------------------------------------------------------

  /** One gallery item: its image sources and the placeholder to show meanwhile. */
  datatype NoxItem = NoxItem(resourceId: Option<int>, url: Option<string>, placeholderId: Option<int>)

  /**
   * One element of a `WeakReference` array: `Empty` is a null element, and
   * `Ref(r)` a weak reference whose referent `r` is `None` once the garbage
   * collector has reclaimed it (or when it was created over null).
   */
  datatype Slot<T> = Empty | Ref(referent: Option<T>)

  /** The slot holds a reference whose referent is still alive. */
  predicate Live<T>(slot: Slot<T>) {
    slot.Ref? && slot.referent.Some?
  }

  /** Dereferences a slot as `slot != null ? slot.get() : null` does. */
  function Get<T>(slot: Slot<T>): (r: Option<T>)
    ensures r.Some? <==> Live(slot)
    ensures r.Some? ==> slot == Ref(r)
  {
    if slot.Ref? then slot.referent else None
  }

  /** The same reference after the collector has reclaimed its referent. */
  function Cleared<T>(slot: Slot<T>): Slot<T> {
    if slot.Ref? then Ref(None) else Empty
  }

  /**
   * The placeholder shown for a position: the live per-position one if
   * there is one, otherwise the global one (which may be null).
   */
  function ChoosePlaceholder<Drawable>(local: Slot<Drawable>, global: Option<Drawable>): (r: Option<Drawable>)
    ensures Live(local) ==> r == local.referent
    ensures !Live(local) ==> r == global
  {
    var fromSlot := if local.Ref? then local.referent else None;
    if fromSlot.None? then global else fromSlot
  }

  /** Whether a placeholder can be shown, decided without resolving it. */
  predicate PlaceholderAvailable<Drawable>(local: Slot<Drawable>, global: Option<Drawable>)
    ensures PlaceholderAvailable(local, global) <==> ChoosePlaceholder(local, global).Some?
  {
    (local.Ref? && local.referent.Some?) || global.Some?
  }

  /**
   * What the loader's builder chain is given for one item: the resource id,
   * the url, the placeholder id, the target size and the circular transform.
   */
  datatype Request = Request(resourceId: Option<int>, url: Option<string>, placeholderId: Option<int>,
                             size: int, circular: bool)

  /** The builder chain `load(resourceId).load(url).withPlaceholder(..).size(..).useCircularTransformation()`. */
  function RequestFor(item: NoxItem, size: int): Request {
    Request(item.resourceId, item.url, item.placeholderId, size, true)
  }

  /** One call the catalog makes on the external image loader. */
  datatype LoaderCall<Bitmap, Drawable> =
    | Submitted(request: Request, listener: ImageLoaderListener<Bitmap, Drawable>)
    | Paused
    | Resumed

  /** The number of requests in `calls` whose listener answers for position `p`. */
  ghost function SubmissionCount<Bitmap, Drawable>(calls: seq<LoaderCall<Bitmap, Drawable>>, p: int): nat {
    if calls == [] then 0
    else (if calls[0].Submitted? && calls[0].listener.position == p then 1 else 0)
         + SubmissionCount(calls[1..], p)
  }

  // ---------------------------------------------------------------------------
  // External collaborators
  // ---------------------------------------------------------------------------

  /**
   * The external image loader, seen only through the calls the catalog makes
   * on it; what it does with them (fetching, decoding, pausing) is its own.
   */
  class ImageLoader<Bitmap, Drawable> {
    var calls: seq<LoaderCall<Bitmap, Drawable>>

    constructor ()
      ensures calls == []
    {
      calls := [];
    }

    /** `notify(listener)` at the end of the builder chain: submits the request. */
    method Submit(request: Request, listener: ImageLoaderListener<Bitmap, Drawable>)
      modifies this
      ensures calls == old(calls) + [Submitted(request, listener)]
    {
      calls := calls + [Submitted(request, listener)];
    }

    method Pause()
      modifies this
      ensures calls == old(calls) + [Paused]
    {
      calls := calls + [Paused];
    }

    method Resume()
      modifies this
      ensures calls == old(calls) + [Resumed]
    {
      calls := calls + [Resumed];
    }
  }

  /**
   * The completion listener of one position. Only its construction is
   * modelled: it remembers its position and its catalog, and re-enters the
   * catalog through `SetBitmap`, `SetLoading`, `SetPositionPlaceholder` and
   * `NotifyNoxItemReady`.
   */
  class ImageLoaderListener<Bitmap, Drawable> {
    const position: int
    const catalog: NoxItemCatalog<Bitmap, Drawable>

    constructor (position: int, catalog: NoxItemCatalog<Bitmap, Drawable>)
      ensures this.position == position && this.catalog == catalog
    {
      this.position := position;
      this.catalog := catalog;
    }
  }

  // ---------------------------------------------------------------------------
  // The abstract state of a catalog and its operations
  // ---------------------------------------------------------------------------

  /**
   * The value of a catalog: its items and target size, the four per-position
   * arrays as sequences, the global placeholder, the loader calls it has made
   * since construction and the positions it has announced to its observers.
   */
  datatype CatalogState<Bitmap, Drawable> = CatalogState(
    items: seq<NoxItem>,
    itemSize: int,
    bitmaps: seq<Slot<Bitmap>>,
    placeholders: seq<Slot<Drawable>>,
    loading: seq<bool>,
    listeners: seq<Option<ImageLoaderListener<Bitmap, Drawable>>>,
    placeholder: Option<Drawable>,
    loaderCalls: seq<LoaderCall<Bitmap, Drawable>>,
    notifications: seq<int>)
  {
    ghost function Size(): nat {
      |items|
    }

    /**
     * Every array has one slot per item; a listener answers for the position
     * it is stored at; and every request submitted carries the data of its
     * listener's item and is handed that position's one listener.
     */
    ghost predicate WellFormed() {
      |bitmaps| == |items| && |placeholders| == |items| &&
      |loading| == |items| && |listeners| == |items| &&
      (forall q :: 0 <= q < |listeners| && listeners[q].Some? ==> listeners[q].value.position == q) &&
      (forall i :: 0 <= i < |loaderCalls| && loaderCalls[i].Submitted? ==> IssuedHere(loaderCalls[i]))
    }

    /** `c` was issued by this catalog for the position of its listener. */
    ghost predicate IssuedHere(c: LoaderCall<Bitmap, Drawable>)
      requires c.Submitted?
    {
      var p := c.listener.position;
      0 <= p < |items| && p < |listeners| &&
      listeners[p] == Some(c.listener) && c.request == RequestFor(items[p], itemSize)
    }

    ghost predicate BitmapReady(p: int)
      requires 0 <= p < |bitmaps|
    {
      Live(bitmaps[p])
    }

    ghost function Bitmap(p: int): Option<Bitmap>
      requires 0 <= p < |bitmaps|
    {
      Get(bitmaps[p])
    }

    ghost function Placeholder(p: int): Option<Drawable>
      requires 0 <= p < |placeholders|
    {
      ChoosePlaceholder(placeholders[p], placeholder)
    }

    /** `load(p)` goes to the loader only when p has no live bitmap and no request in flight. */
    ghost predicate ShouldLoad(p: int)
      requires 0 <= p < |bitmaps| && p < |loading|
    {
      !BitmapReady(p) && !loading[p]
    }

    /** The listener `load(p)` hands to the loader: the stored one, else `created`. */
    ghost function ListenerFor(p: int, created: ImageLoaderListener<Bitmap, Drawable>): ImageLoaderListener<Bitmap, Drawable>
      requires 0 <= p < |listeners|
    {
      if listeners[p].Some? then listeners[p].value else created
    }

    /** `setBitmap(p, image)`: a fresh weak reference to `image` at p. */
    ghost function SetBitmap(p: int, image: Option<Bitmap>): (t: CatalogState<Bitmap, Drawable>)
      requires WellFormed() && 0 <= p < Size()
      ensures t.WellFormed() && t.Size() == Size()
      ensures t.Bitmap(p) == image && (t.BitmapReady(p) <==> image.Some?)
      ensures forall q :: 0 <= q < Size() && q != p ==> t.bitmaps[q] == bitmaps[q]
      ensures t.(bitmaps := bitmaps) == this
    {
      this.(bitmaps := bitmaps[p := Ref(image)])
    }

    /** `setLoading(p, isLoading)`. */
    ghost function SetLoading(p: int, isLoading: bool): (t: CatalogState<Bitmap, Drawable>)
      requires WellFormed() && 0 <= p < Size()
      ensures t.WellFormed() && t.Size() == Size()
      ensures t.loading[p] == isLoading
      ensures forall q :: 0 <= q < Size() && q != p ==> t.loading[q] == loading[q]
      ensures t.(loading := loading) == this
    {
      this.(loading := loading[p := isLoading])
    }

    /** `setPlaceholder(p, d)`: a fresh weak reference to `d` at p. */
    ghost function SetPositionPlaceholder(p: int, d: Option<Drawable>): (t: CatalogState<Bitmap, Drawable>)
      requires WellFormed() && 0 <= p < Size()
      ensures t.WellFormed() && t.Size() == Size()
      ensures t.Placeholder(p) == if d.Some? then d else placeholder
      ensures forall q :: 0 <= q < Size() && q != p ==> t.placeholders[q] == placeholders[q]
      ensures t.(placeholders := placeholders) == this
    {
      this.(placeholders := placeholders[p := Ref(d)])
    }

    /**
     * `setPlaceholder(d)`: replaces the global placeholder, which changes
     * what is shown only at positions without a live placeholder of their own.
     */
    ghost function SetPlaceholder(d: Option<Drawable>): (t: CatalogState<Bitmap, Drawable>)
      requires WellFormed()
      ensures t.WellFormed() && t.Size() == Size()
      ensures forall q :: 0 <= q < Size() ==>
                t.Placeholder(q) == if Live(placeholders[q]) then Placeholder(q) else d
      ensures t.(placeholder := placeholder) == this
    {
      this.(placeholder := d)
    }

    /** The collector reclaims the bitmap at p: the reference stays, its referent is gone. */
    ghost function ReclaimBitmap(p: int): (t: CatalogState<Bitmap, Drawable>)
      requires WellFormed() && 0 <= p < Size()
      ensures t.WellFormed() && t.Size() == Size()
      ensures !t.BitmapReady(p) && t.Bitmap(p) == None
      ensures t.bitmaps[p].Ref? <==> bitmaps[p].Ref?
      ensures forall q :: 0 <= q < Size() && q != p ==> t.bitmaps[q] == bitmaps[q]
      ensures t.(bitmaps := bitmaps) == this
    {
      this.(bitmaps := bitmaps[p := Cleared(bitmaps[p])])
    }

    /** The collector reclaims the placeholder at p: p falls back to the global one. */
    ghost function ReclaimPlaceholder(p: int): (t: CatalogState<Bitmap, Drawable>)
      requires WellFormed() && 0 <= p < Size()
      ensures t.WellFormed() && t.Size() == Size()
      ensures t.Placeholder(p) == placeholder
      ensures forall q :: 0 <= q < Size() && q != p ==> t.placeholders[q] == placeholders[q]
      ensures t.(placeholders := placeholders) == this
    {
      this.(placeholders := placeholders[p := Cleared(placeholders[p])])
    }

    /** `notifyNoxItemReady(p)`: one notification carrying p, nothing else. */
    ghost function NotifyReady(p: int): (t: CatalogState<Bitmap, Drawable>)
      requires WellFormed()
      ensures t.WellFormed() && t.Size() == Size()
      ensures |t.notifications| == |notifications| + 1 && t.notifications[|notifications|] == p
      ensures t.notifications[..|notifications|] == notifications
      ensures t.(notifications := notifications) == this
    {
      this.(notifications := notifications + [p])
    }

    /** `pause()`: passed to the loader; no catalog state changes. */
    ghost function PauseLoader(): (t: CatalogState<Bitmap, Drawable>)
      requires WellFormed()
      ensures t.WellFormed() && t.Size() == Size()
      ensures t.loaderCalls == loaderCalls + [Paused]
      ensures t.(loaderCalls := loaderCalls) == this
    {
      this.(loaderCalls := loaderCalls + [Paused])
    }

    /** `resume()`: passed to the loader; no catalog state changes. */
    ghost function ResumeLoader(): (t: CatalogState<Bitmap, Drawable>)
      requires WellFormed()
      ensures t.WellFormed() && t.Size() == Size()
      ensures t.loaderCalls == loaderCalls + [Resumed]
      ensures t.(loaderCalls := loaderCalls) == this
    {
      this.(loaderCalls := loaderCalls + [Resumed])
    }

    /**
     * `load(p)`: when p has neither a live bitmap nor a request in flight,
     * marks p in flight and submits item p's request with p's listener,
     * creating that listener (`created`) if p has none yet.
     */
    ghost function Load(p: int, created: ImageLoaderListener<Bitmap, Drawable>): (t: CatalogState<Bitmap, Drawable>)
      requires WellFormed() && 0 <= p < Size() && created.position == p
      ensures t.WellFormed() && t.Size() == Size()
      ensures !ShouldLoad(p) ==> t == this
      ensures |loaderCalls| <= |t.loaderCalls| <= |loaderCalls| + 1 && t.loaderCalls[..|loaderCalls|] == loaderCalls
      ensures forall q :: 0 <= q < Size() && q != p ==> t.loading[q] == loading[q] && t.listeners[q] == listeners[q]
      ensures t.(loading := loading, listeners := listeners, loaderCalls := loaderCalls) == this
    {
      if !ShouldLoad(p) then this
      else
        var l := ListenerFor(p, created);
        var t := this.(loading := loading[p := true],
                       listeners := listeners[p := Some(l)],
                       loaderCalls := loaderCalls + [Submitted(RequestFor(items[p], itemSize), l)]);
        assert forall i :: 0 <= i < |t.loaderCalls| && t.loaderCalls[i].Submitted? ==> t.IssuedHere(t.loaderCalls[i]) by {
          forall i | 0 <= i < |t.loaderCalls| && t.loaderCalls[i].Submitted?
            ensures t.IssuedHere(t.loaderCalls[i])
          {
            if i < |loaderCalls| {
              assert IssuedHere(loaderCalls[i]);
            }
          }
        }
        t
    }
  }

  /** The state of a freshly built catalog: nothing cached, nothing in flight. */
  ghost function InitialState<Bitmap, Drawable>(items: seq<NoxItem>, itemSize: int): (s: CatalogState<Bitmap, Drawable>)
    ensures s.WellFormed() && s.items == items && s.itemSize == itemSize
    ensures forall p :: 0 <= p < |items| ==>
              !s.BitmapReady(p) && !s.loading[p] && s.listeners[p].None? && s.Placeholder(p).None?
    ensures s.loaderCalls == [] && s.notifications == []
  {
    CatalogState(items, itemSize, seq(|items|, _ => Empty), seq(|items|, _ => Empty),
                 seq(|items|, _ => false), seq(|items|, _ => None), None, [], [])
  }

  // ---------------------------------------------------------------------------
  // The catalog
  // ---------------------------------------------------------------------------

  /** Thrown by the constructor when it is given no item list. */
  datatype CatalogError = NullPointerException(message: string)

  class NoxItemCatalog<Bitmap, Drawable> {
    const noxItems: seq<NoxItem>
    const noxItemSize: int
    const imageLoader: ImageLoader<Bitmap, Drawable>
    const bitmaps: array<Slot<Bitmap>>
    const placeholders: array<Slot<Drawable>>
    const loading: array<bool>
    const listeners: array<Option<ImageLoaderListener<Bitmap, Drawable>>>
    var placeholder: Option<Drawable>
    /** The positions delivered to observers, in order (the `Observable` channel). */
    var notifications: seq<int>
    /**
     * The calls this catalog has made on `imageLoader`, in order. The loader
     * may be shared, so its own record can hold calls of other clients too.
     */
    var loaderCalls: seq<LoaderCall<Bitmap, Drawable>>

    ghost function State(): CatalogState<Bitmap, Drawable>
      reads this, bitmaps, placeholders, loading, listeners
    {
      CatalogState(noxItems, noxItemSize, bitmaps[..], placeholders[..], loading[..], listeners[..],
                   placeholder, loaderCalls, notifications)
    }

    ghost predicate Valid()
      reads this, bitmaps, placeholders, loading, listeners
    {
      State().WellFormed() &&
      bitmaps as object != placeholders as object &&
      (forall q :: 0 <= q < listeners.Length && listeners[q].Some? ==> listeners[q].value.catalog == this)
    }

    /** Allocates the four per-position arrays; nothing is loaded yet. */
    constructor (noxItems: seq<NoxItem>, noxItemSize: int, imageLoader: ImageLoader<Bitmap, Drawable>)
      ensures Valid() && fresh(bitmaps) && fresh(placeholders) && fresh(loading) && fresh(listeners)
      ensures this.imageLoader == imageLoader
      ensures State() == InitialState(noxItems, noxItemSize)
    {
      this.noxItems := noxItems;
      this.noxItemSize := noxItemSize;
      this.imageLoader := imageLoader;
      bitmaps := new Slot<Bitmap>[|noxItems|](_ => Empty);
      placeholders := new Slot<Drawable>[|noxItems|](_ => Empty);
      loading := new bool[|noxItems|](_ => false);
      listeners := new Option<ImageLoaderListener<Bitmap, Drawable>>[|noxItems|](_ => None);
      placeholder := None;
      notifications := [];
      loaderCalls := [];
    }

    /** The number of items, which is the length of every per-position array. */
    function Size(): (n: int)
      requires Valid()
      reads this, bitmaps, placeholders, loading, listeners
      ensures n == bitmaps.Length == placeholders.Length == loading.Length == listeners.Length
    {
      |noxItems|
    }

    /** Slot p holds a live reference: the abstract `BitmapReady` that the lemmas are stated about. */
    predicate IsBitmapReady(p: int)
      requires 0 <= p < bitmaps.Length
      reads this, bitmaps, placeholders, loading, listeners
      ensures IsBitmapReady(p) <==> State().BitmapReady(p)
    {
      Live(bitmaps[p])
    }

    /** The cached bitmap, present exactly when p is ready. */
    function GetBitmap(p: int): (r: Option<Bitmap>)
      requires 0 <= p < bitmaps.Length
      reads this, bitmaps, placeholders, loading, listeners
      ensures r == State().Bitmap(p)
      ensures r.Some? <==> IsBitmapReady(p)
      ensures r.Some? ==> bitmaps[p] == Ref(r)
    {
      Get(bitmaps[p])
    }

    /** The live per-position placeholder, else the global one (possibly absent). */
    function GetPlaceholder(p: int): (r: Option<Drawable>)
      requires 0 <= p < placeholders.Length
      reads this, placeholders
      ensures Live(placeholders[p]) ==> r.Some? && placeholders[p] == Ref(r)
      ensures !Live(placeholders[p]) ==> r == placeholder
      ensures r == State().Placeholder(p)
    {
      ChoosePlaceholder(placeholders[p], placeholder)
    }

    predicate IsPlaceholderReady(p: int)
      requires 0 <= p < placeholders.Length
      reads this, placeholders
      ensures IsPlaceholderReady(p) <==> GetPlaceholder(p).Some?
    {
      PlaceholderAvailable(placeholders[p], placeholder)
    }

    /** A request for p is in flight; with `IsBitmapReady` it decides whether `load(p)` submits. */
    predicate IsDownloading(p: int)
      requires 0 <= p < loading.Length && p < bitmaps.Length
      reads this, bitmaps, placeholders, loading, listeners
      ensures State().ShouldLoad(p) <==> !IsBitmapReady(p) && !IsDownloading(p)
    {
      loading[p]
    }

    method SetPlaceholder(d: Option<Drawable>)
      requires Valid()
      modifies this`placeholder
      ensures Valid() && State() == old(State()).SetPlaceholder(d)
    {
      placeholder := d;
    }

    method Load(p: int)
      requires Valid() && 0 <= p < Size()
      modifies loading, listeners, imageLoader, this`loaderCalls
      ensures Valid()
      ensures !old(State()).ShouldLoad(p) ==> State() == old(State())
      ensures old(State()).ShouldLoad(p) ==>
                listeners[p].Some? && State() == old(State()).Load(p, listeners[p].value)
      ensures old(listeners[p]).None? && listeners[p].Some? ==> fresh(listeners[p].value)
      ensures |old(loaderCalls)| <= |loaderCalls| && loaderCalls[..|old(loaderCalls)|] == old(loaderCalls)
      ensures imageLoader.calls == old(imageLoader.calls) + loaderCalls[|old(loaderCalls)|..]
    {
      if !IsBitmapReady(p) && !IsDownloading(p) {
        loading[p] := true;
        var noxItem := noxItems[p];
        LoadNoxItem(p, noxItem);
      }
    }

    method Resume()
      requires Valid()
      modifies imageLoader, this`loaderCalls
      ensures Valid() && State() == old(State()).ResumeLoader()
      ensures imageLoader.calls == old(imageLoader.calls) + [Resumed]
    {
      imageLoader.Resume();
      loaderCalls := loaderCalls + [Resumed];
    }

    method Pause()
      requires Valid()
      modifies imageLoader, this`loaderCalls
      ensures Valid() && State() == old(State()).PauseLoader()
      ensures imageLoader.calls == old(imageLoader.calls) + [Paused]
    {
      imageLoader.Pause();
      loaderCalls := loaderCalls + [Paused];
    }

    /** Announces to the observers that the bitmap of position p is ready. */
    method NotifyNoxItemReady(p: int)
      requires Valid()
      modifies this`notifications
      ensures Valid() && State() == old(State()).NotifyReady(p)
    {
      notifications := notifications + [p];
    }

    method SetBitmap(p: int, image: Option<Bitmap>)
      requires Valid() && 0 <= p < Size()
      modifies bitmaps
      ensures Valid() && State() == old(State()).SetBitmap(p, image)
    {
      bitmaps[p] := Ref(image);
    }

    method SetLoading(p: int, isLoading: bool)
      requires Valid() && 0 <= p < Size()
      modifies loading
      ensures Valid() && State() == old(State()).SetLoading(p, isLoading)
    {
      loading[p] := isLoading;
    }

    method SetPositionPlaceholder(p: int, d: Option<Drawable>)
      requires Valid() && 0 <= p < Size()
      modifies placeholders
      ensures Valid() && State() == old(State()).SetPositionPlaceholder(p, d)
    {
      placeholders[p] := Ref(d);
    }

    /** Stands in for the garbage collector clearing the weak reference to the bitmap at p. */
    method ReclaimBitmap(p: int)
      requires Valid() && 0 <= p < Size()
      modifies bitmaps
      ensures Valid() && State() == old(State()).ReclaimBitmap(p)
    {
      bitmaps[p] := Cleared(bitmaps[p]);
    }

    /** Stands in for the garbage collector clearing the weak reference to the placeholder at p. */
    method ReclaimPlaceholder(p: int)
      requires Valid() && 0 <= p < Size()
      modifies placeholders
      ensures Valid() && State() == old(State()).ReclaimPlaceholder(p)
    {
      placeholders[p] := Cleared(placeholders[p]);
    }

    /** Builds item p's request and hands it to the loader with p's listener. */
    method LoadNoxItem(p: int, noxItem: NoxItem)
      requires Valid() && 0 <= p < Size() && noxItem == noxItems[p]
      modifies listeners, imageLoader, this`loaderCalls
      ensures Valid()
      ensures listeners[p].Some?
      ensures old(listeners[p]).Some? ==> listeners[p] == old(listeners[p])
      ensures old(listeners[p]).None? ==> fresh(listeners[p].value)
      ensures listeners[..] == old(listeners[..])[p := listeners[p]]
      ensures loaderCalls == old(loaderCalls) + [Submitted(RequestFor(noxItem, noxItemSize), listeners[p].value)]
      ensures imageLoader.calls == old(imageLoader.calls) + [Submitted(RequestFor(noxItem, noxItemSize), listeners[p].value)]
    {
      var request := RequestFor(noxItem, noxItemSize);
      var listener := GetImageLoaderListener(p);
      ghost var before := State();
      imageLoader.Submit(request, listener);
      loaderCalls := loaderCalls + [Submitted(request, listener)];
      assert State() == before.(loaderCalls := before.loaderCalls + [Submitted(request, listener)]);
      assert State().WellFormed() by {
        var t := State();
        forall i | 0 <= i < |t.loaderCalls| && t.loaderCalls[i].Submitted?
          ensures t.IssuedHere(t.loaderCalls[i])
        {
          if i < |before.loaderCalls| {
            assert before.IssuedHere(before.loaderCalls[i]);
          }
        }
      }
    }

    /** p's listener, created on first use and reused afterwards. */
    method GetImageLoaderListener(p: int) returns (l: ImageLoaderListener<Bitmap, Drawable>)
      requires Valid() && 0 <= p < Size()
      modifies listeners
      ensures Valid()
      ensures listeners[p] == Some(l) && l.position == p && l.catalog == this
      ensures old(listeners[p]).Some? ==> l == old(listeners[p]).value
      ensures old(listeners[p]).None? ==> fresh(l)
      ensures listeners[..] == old(listeners[..])[p := Some(l)]
    {
      if listeners[p].None? {
        ghost var before := State();
        var created := new ImageLoaderListener(p, this);
        listeners[p] := Some(created);
        assert State().WellFormed() by {
          var t := State();
          forall i | 0 <= i < |t.loaderCalls| && t.loaderCalls[i].Submitted?
            ensures t.IssuedHere(t.loaderCalls[i])
          {
            assert t.loaderCalls[i] == before.loaderCalls[i];
            assert before.IssuedHere(before.loaderCalls[i]);
          }
        }
      }
      l := listeners[p].value;
    }
  }

  /**
   * `new NoxItemCatalog(noxItems, noxItemSize, imageLoader)`: fails when the
   * item list is null, and otherwise builds a catalog sized to the list.
   */
  method NewCatalog<Bitmap, Drawable>(noxItems: Option<seq<NoxItem>>, noxItemSize: int,
                                      imageLoader: ImageLoader<Bitmap, Drawable>)
    returns (r: Result<NoxItemCatalog<Bitmap, Drawable>, CatalogError>)
    ensures r.Failure? <==> noxItems.None?
    ensures r.Failure? ==> r.error == NullPointerException("The list of NoxItem can't be null")
    ensures r.Success? ==> fresh(r.value) && r.value.Valid() && r.value.imageLoader == imageLoader
    ensures r.Success? ==> r.value.Size() == |noxItems.value|
    ensures r.Success? ==> r.value.State() == InitialState(noxItems.value, noxItemSize)
  {
    if noxItems.None? {
      return Failure(NullPointerException("The list of NoxItem can't be null"));
    }
    var catalog := new NoxItemCatalog(noxItems.value, noxItemSize, imageLoader);
    r := Success(catalog);
  }
}
