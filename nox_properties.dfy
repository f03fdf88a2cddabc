/**
 * Properties of the catalog over sequences of operations: at most one
 * request per position while one is in flight, retry after a failed or
 * reclaimed load, one listener per position for good, and a bitmap that
 * stays ready until it is replaced or reclaimed.
 */
module NoxProperties {
  import opened Wrappers
  import opened Nox

  /** One public operation of the catalog, or one reclamation by the collector. */
  datatype Step<Bitmap, Drawable> =
    | Load(p: int, created: ImageLoaderListener<Bitmap, Drawable>)
    | SetBitmap(p: int, image: Option<Bitmap>)
    | SetLoading(p: int, isLoading: bool)
    | SetPositionPlaceholder(p: int, d: Option<Drawable>)
    | SetPlaceholder(d: Option<Drawable>)
    | NotifyReady(p: int)
    | Pause
    | Resume
    | ReclaimBitmap(p: int)
    | ReclaimPlaceholder(p: int)

  /**
   * The step may be taken in a catalog of `n` items: its position is in
   * range (notification has no bounds check), and a listener offered to
   * `Load` answers for the position it is offered for.
   */
  ghost predicate Allowed<Bitmap, Drawable>(n: nat, step: Step<Bitmap, Drawable>) {
    match step
    case Load(p, created) => 0 <= p < n && created.position == p
    case SetPlaceholder(_) => true
    case NotifyReady(_) => true
    case Pause => true
    case Resume => true
    case _ => 0 <= step.p < n
  }

  ghost predicate AllAllowed<Bitmap, Drawable>(n: nat, steps: seq<Step<Bitmap, Drawable>>) {
    forall i :: 0 <= i < |steps| ==> Allowed(n, steps[i])
  }

  ghost function Apply<Bitmap, Drawable>(s: CatalogState<Bitmap, Drawable>, step: Step<Bitmap, Drawable>): (t: CatalogState<Bitmap, Drawable>)
    requires s.WellFormed() && Allowed(s.Size(), step)
    ensures t.WellFormed() && t.items == s.items && t.itemSize == s.itemSize
  {
    match step
    case Load(p, created) => s.Load(p, created)
    case SetBitmap(p, image) => s.SetBitmap(p, image)
    case SetLoading(p, isLoading) => s.SetLoading(p, isLoading)
    case SetPositionPlaceholder(p, d) => s.SetPositionPlaceholder(p, d)
    case SetPlaceholder(d) => s.SetPlaceholder(d)
    case NotifyReady(p) => s.NotifyReady(p)
    case Pause => s.PauseLoader()
    case Resume => s.ResumeLoader()
    case ReclaimBitmap(p) => s.ReclaimBitmap(p)
    case ReclaimPlaceholder(p) => s.ReclaimPlaceholder(p)
  }

  /**
   * The state after taking `steps` in order. The item list, the target size
   * and so the number of positions never change, and the state stays well formed.
   */
  ghost function Run<Bitmap, Drawable>(s: CatalogState<Bitmap, Drawable>, steps: seq<Step<Bitmap, Drawable>>): (t: CatalogState<Bitmap, Drawable>)
    requires s.WellFormed() && AllAllowed(s.Size(), steps)
    ensures t.WellFormed() && t.items == s.items && t.itemSize == s.itemSize
    decreases |steps|
  {
    if steps == [] then s
    else
      var s1 := Apply(s, steps[0]);
      Run(s1, steps[1..])
  }

  // ---------------------------------------------------------------------------
  // Counting submissions
  // ---------------------------------------------------------------------------

  lemma {:induction false} SubmissionCountAppend<Bitmap, Drawable>(a: seq<LoaderCall<Bitmap, Drawable>>, b: seq<LoaderCall<Bitmap, Drawable>>, p: int)
    ensures SubmissionCount(a + b, p) == SubmissionCount(a, p) + SubmissionCount(b, p)
    decreases |a|
  {
    if a == [] {
      assert a + b == b;
    } else {
      assert (a + b)[1..] == a[1..] + b;
      SubmissionCountAppend(a[1..], b, p);
    }
  }

  /**
   * When p has no live bitmap and no request in flight, `load(p)` marks p in
   * flight and submits exactly one request, for p and no other position. The
   * request carries item p's resource id, url and placeholder id, the
   * catalog's target size and the circular transform, and goes with p's
   * existing listener, or with the newly created one when p had none.
   */
  lemma LoadSubmitsOnce<Bitmap, Drawable>(s: CatalogState<Bitmap, Drawable>, p: int, created: ImageLoaderListener<Bitmap, Drawable>)
    requires s.WellFormed() && 0 <= p < s.Size() && created.position == p
    requires s.ShouldLoad(p)
    ensures var t := s.Load(p, created);
            t.loading[p] &&
            SubmissionCount(t.loaderCalls, p) == SubmissionCount(s.loaderCalls, p) + 1 &&
            (forall q :: q != p ==> SubmissionCount(t.loaderCalls, q) == SubmissionCount(s.loaderCalls, q))
    ensures var t := s.Load(p, created);
            |t.loaderCalls| == |s.loaderCalls| + 1 && t.loaderCalls[..|s.loaderCalls|] == s.loaderCalls
    ensures var t := s.Load(p, created);
            var c := t.loaderCalls[|s.loaderCalls|];
            c.Submitted? && t.listeners[p] == Some(c.listener) &&
            c.listener == (if s.listeners[p].Some? then s.listeners[p].value else created) &&
            c.request == Request(s.items[p].resourceId, s.items[p].url, s.items[p].placeholderId, s.itemSize, true)
  {
    var t := s.Load(p, created);
    var c := t.loaderCalls[|s.loaderCalls|];
    assert t.loaderCalls == s.loaderCalls + [c];
    assert c.listener.position == p;
    forall q
      ensures SubmissionCount(t.loaderCalls, q) == SubmissionCount(s.loaderCalls, q) + (if q == p then 1 else 0)
    {
      SubmissionCountAppend(s.loaderCalls, [c], q);
      assert [c][1..] == [];
    }
  }

  /**
   * Two `load(p)` calls in a row submit at most one request for p: the second
   * changes nothing, and the pair submits one request exactly when the first
   * found p neither ready nor in flight.
   */
  lemma LoadTwiceSubmitsOnce<Bitmap, Drawable>(s: CatalogState<Bitmap, Drawable>, p: int,
                                               first: ImageLoaderListener<Bitmap, Drawable>,
                                               second: ImageLoaderListener<Bitmap, Drawable>)
    requires s.WellFormed() && 0 <= p < s.Size() && first.position == p && second.position == p
    ensures s.Load(p, first).Load(p, second) == s.Load(p, first)
    ensures SubmissionCount(s.Load(p, first).Load(p, second).loaderCalls, p)
            == SubmissionCount(s.loaderCalls, p) + (if s.ShouldLoad(p) then 1 else 0)
  {
    if s.ShouldLoad(p) {
      LoadSubmitsOnce(s, p, first);
    }
  }

  /** The step is `setLoading(p, false)`, the only step that clears p's in-flight flag. */
  ghost predicate ClearsLoading<Bitmap, Drawable>(step: Step<Bitmap, Drawable>, p: int) {
    step.SetLoading? && step.p == p && !step.isLoading
  }

  /** While p is in flight, one step submits nothing for p and leaves p in flight. */
  lemma StepKeepsInFlight<Bitmap, Drawable>(s: CatalogState<Bitmap, Drawable>, step: Step<Bitmap, Drawable>, p: int)
    requires s.WellFormed() && Allowed(s.Size(), step) && 0 <= p < s.Size()
    requires s.loading[p] && !ClearsLoading(step, p)
    ensures var t := Apply(s, step);
            t.loading[p] && SubmissionCount(t.loaderCalls, p) == SubmissionCount(s.loaderCalls, p)
  {
    match step
    case Load(q, created) =>
      if q != p && s.ShouldLoad(q) {
        LoadSubmitsOnce(s, q, created);
      }
    case SetBitmap(q, image) =>
    case SetLoading(q, isLoading) =>
    case SetPositionPlaceholder(q, d) =>
    case SetPlaceholder(d) =>
    case NotifyReady(q) =>
    case Pause =>
      SubmissionCountAppend(s.loaderCalls, [Paused], p);
    case Resume =>
      SubmissionCountAppend(s.loaderCalls, [Resumed], p);
    case ReclaimBitmap(q) =>
    case ReclaimPlaceholder(q) =>
  }

  /**
   * At most one request in flight per position: once p is in flight, no
   * sequence of operations without `setLoading(p, false)` submits another
   * request for p, whatever it does to other positions, to p's bitmap or to
   * the loader.
   */
  lemma {:induction false} NoResubmitWhileLoading<Bitmap, Drawable>(s: CatalogState<Bitmap, Drawable>, steps: seq<Step<Bitmap, Drawable>>, p: int)
    requires s.WellFormed() && AllAllowed(s.Size(), steps) && 0 <= p < s.Size()
    requires s.loading[p]
    requires forall i :: 0 <= i < |steps| ==> !ClearsLoading(steps[i], p)
    ensures var t := Run(s, steps);
            t.loading[p] && SubmissionCount(t.loaderCalls, p) == SubmissionCount(s.loaderCalls, p)
    decreases |steps|
  {
    if steps != [] {
      assert !ClearsLoading(steps[0], p);
      StepKeepsInFlight(s, steps[0], p);
      var s1 := Apply(s, steps[0]);
      assert Run(s, steps) == Run(s1, steps[1..]);
      NoResubmitWhileLoading(s1, steps[1..], p);
    }
  }

  /**
   * Retry: when p has no live bitmap (its load failed, or the collector took
   * the bitmap), `setLoading(p, false)` followed by `load(p)` submits a fresh
   * request for p, with the listener p already had.
   */
  lemma RetryAfterFailure<Bitmap, Drawable>(s: CatalogState<Bitmap, Drawable>, p: int, created: ImageLoaderListener<Bitmap, Drawable>)
    requires s.WellFormed() && 0 <= p < s.Size() && created.position == p
    requires !s.BitmapReady(p)
    ensures var t := s.SetLoading(p, false).Load(p, created);
            t.loading[p] && SubmissionCount(t.loaderCalls, p) == SubmissionCount(s.loaderCalls, p) + 1
    ensures s.listeners[p].Some? ==> s.SetLoading(p, false).Load(p, created).listeners[p] == s.listeners[p]
  {
    var u := s.SetLoading(p, false);
    assert u.ShouldLoad(p);
    LoadSubmitsOnce(u, p, created);
  }

  /**
   * A completed load: if the listener re-enters with `setBitmap(p, b)`,
   * `setLoading(p, false)` and `notifyNoxItemReady(p)`, then p is ready with
   * bitmap b, no longer in flight, observers got exactly one notification
   * carrying p, and a further `load(p)` changes nothing.
   */
  lemma CompletionMakesReady<Bitmap, Drawable>(s: CatalogState<Bitmap, Drawable>, p: int,
                                               created: ImageLoaderListener<Bitmap, Drawable>, b: Bitmap,
                                               again: ImageLoaderListener<Bitmap, Drawable>)
    requires s.WellFormed() && 0 <= p < s.Size() && created.position == p && again.position == p
    ensures var u := s.Load(p, created).SetBitmap(p, Some(b)).SetLoading(p, false).NotifyReady(p);
            u.BitmapReady(p) && u.Bitmap(p) == Some(b) && !u.loading[p] &&
            u.notifications == s.notifications + [p] &&
            SubmissionCount(u.loaderCalls, p) == SubmissionCount(s.loaderCalls, p) + (if s.ShouldLoad(p) then 1 else 0) &&
            u.Load(p, again) == u
  {
    if s.ShouldLoad(p) {
      LoadSubmitsOnce(s, p, created);
    }
    var u := s.Load(p, created).SetBitmap(p, Some(b)).SetLoading(p, false).NotifyReady(p);
    assert u.notifications == u.notifications[..|s.notifications|] + [p];
  }

  // ---------------------------------------------------------------------------
  // What survives a run of operations
  // ---------------------------------------------------------------------------

  /** The step writes the bitmap slot of p: `setBitmap(p, _)` or a reclamation at p. */
  ghost predicate TouchesBitmap<Bitmap, Drawable>(step: Step<Bitmap, Drawable>, p: int) {
    (step.SetBitmap? || step.ReclaimBitmap?) && step.p == p
  }

  /** Only `setBitmap(p, _)` and the collector change the bitmap slot of p. */
  lemma {:induction false} BitmapSlotKept<Bitmap, Drawable>(s: CatalogState<Bitmap, Drawable>, steps: seq<Step<Bitmap, Drawable>>, p: int)
    requires s.WellFormed() && AllAllowed(s.Size(), steps) && 0 <= p < s.Size()
    requires forall i :: 0 <= i < |steps| ==> !TouchesBitmap(steps[i], p)
    ensures Run(s, steps).bitmaps[p] == s.bitmaps[p]
    decreases |steps|
  {
    if steps != [] {
      assert !TouchesBitmap(steps[0], p);
      var s1 := Apply(s, steps[0]);
      assert s1.bitmaps[p] == s.bitmaps[p] by {
        match steps[0]
        case Load(q, created) =>
        case SetBitmap(q, image) =>
        case SetLoading(q, isLoading) =>
        case SetPositionPlaceholder(q, d) =>
        case SetPlaceholder(d) =>
        case NotifyReady(q) =>
        case Pause =>
        case Resume =>
        case ReclaimBitmap(q) =>
        case ReclaimPlaceholder(q) =>
      }
      assert Run(s, steps) == Run(s1, steps[1..]);
      BitmapSlotKept(s1, steps[1..], p);
    }
  }

  /**
   * After `setBitmap(p, b)`, p is ready and `getBitmap(p)` is b until the
   * collector reclaims it or another `setBitmap(p, _)` replaces it.
   */
  lemma ReadyUntilReclaimed<Bitmap, Drawable>(s: CatalogState<Bitmap, Drawable>, p: int, b: Bitmap, steps: seq<Step<Bitmap, Drawable>>)
    requires s.WellFormed() && 0 <= p < s.Size() && AllAllowed(s.Size(), steps)
    requires forall i :: 0 <= i < |steps| ==> !TouchesBitmap(steps[i], p)
    ensures var t := Run(s.SetBitmap(p, Some(b)), steps);
            t.BitmapReady(p) && t.Bitmap(p) == Some(b)
  {
    BitmapSlotKept(s.SetBitmap(p, Some(b)), steps, p);
  }

  /** Once created, the listener of p is never replaced. */
  lemma {:induction false} ListenerKept<Bitmap, Drawable>(s: CatalogState<Bitmap, Drawable>, steps: seq<Step<Bitmap, Drawable>>, p: int)
    requires s.WellFormed() && AllAllowed(s.Size(), steps) && 0 <= p < s.Size()
    requires s.listeners[p].Some?
    ensures Run(s, steps).listeners[p] == s.listeners[p]
    decreases |steps|
  {
    if steps != [] {
      var s1 := Apply(s, steps[0]);
      assert s1.listeners[p] == s.listeners[p] by {
        match steps[0]
        case Load(q, created) =>
        case SetBitmap(q, image) =>
        case SetLoading(q, isLoading) =>
        case SetPositionPlaceholder(q, d) =>
        case SetPlaceholder(d) =>
        case NotifyReady(q) =>
        case Pause =>
        case Resume =>
        case ReclaimBitmap(q) =>
        case ReclaimPlaceholder(q) =>
      }
      assert Run(s, steps) == Run(s1, steps[1..]);
      ListenerKept(s1, steps[1..], p);
    }
  }

  /**
   * One listener per position for good: once p has a listener, every request
   * ever submitted for p, before or after, goes with that same listener and
   * carries item p's data.
   */
  lemma SubmissionsShareListener<Bitmap, Drawable>(s: CatalogState<Bitmap, Drawable>, steps: seq<Step<Bitmap, Drawable>>, p: int)
    requires s.WellFormed() && AllAllowed(s.Size(), steps) && 0 <= p < s.Size()
    requires s.listeners[p].Some?
    ensures var t := Run(s, steps);
            forall i :: 0 <= i < |t.loaderCalls| && t.loaderCalls[i].Submitted? && t.loaderCalls[i].listener.position == p ==>
              t.loaderCalls[i].listener == s.listeners[p].value &&
              t.loaderCalls[i].request == RequestFor(s.items[p], s.itemSize)
  {
    ListenerKept(s, steps, p);
    var t := Run(s, steps);
    forall i | 0 <= i < |t.loaderCalls| && t.loaderCalls[i].Submitted? && t.loaderCalls[i].listener.position == p
      ensures t.loaderCalls[i].listener == s.listeners[p].value
    {
      assert t.IssuedHere(t.loaderCalls[i]);
    }
  }

  /**
   * Placeholder precedence on a fresh catalog: no placeholder at all until
   * the global one is set, which then shows at every position.
   */
  lemma GlobalPlaceholderOnFreshCatalog<Bitmap, Drawable>(items: seq<NoxItem>, itemSize: int, p: int, x: Drawable)
    requires 0 <= p < |items|
    ensures InitialState<Bitmap, Drawable>(items, itemSize).Placeholder(p) == None
    ensures InitialState<Bitmap, Drawable>(items, itemSize).SetPlaceholder(Some(x)).Placeholder(p) == Some(x)
  {
  }
}
