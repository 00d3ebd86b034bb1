/**
 * The cached wrapper of cachedchecker.go: a composite checker whose Start
 * fills the cache with one real evaluation before it returns, whose ticker
 * replaces the cache with a fresh evaluation, and whose Check only ever reads
 * the cache.
 */
module Cached {
  import opened Wrappers
  import opened HealthRecord
  import opened Composite

  /** Go's CachedChecker. */
  class CachedChecker {
    var compositeChecker: CompositeChecker
    /** The cached record; None while the lastState pointer is nil. */
    var lastState: Option<Snapshot>
    /**
     * Whether the background loop started by the latest Start is running.
     * Only that loop writes the cell `lastState` points to; a loop of an
     * earlier Start writes the cell that Start created, which nothing reads.
     */
    ghost var ticking: bool
    /** How many background loops are running, the latest one included. */
    ghost var loops: nat

    /**
     * The wrapped checker is private to the wrapper and is never started, so
     * its Check is always a live evaluation.
     */
    ghost predicate Valid()
      reads this, compositeChecker
    {
      && compositeChecker.Valid()
      && !compositeChecker.useCachedLastState
      && (ticking ==> lastState.Some? && loops >= 1)
    }

    /** NewCachedChecker: a fresh composite checker, no cache and no loop yet. */
    constructor ()
      ensures Valid() && fresh(compositeChecker)
      ensures compositeChecker.checkers == [] && compositeChecker.info == map[]
      ensures !compositeChecker.infoAllocated && !compositeChecker.useCachedLastState
      ensures compositeChecker.lastState == None
      ensures lastState == None && !ticking && loops == 0
    {
      compositeChecker := new CompositeChecker();
      lastState := None;
      ticking := false;
      loops := 0;
    }

    /**
     * Seeds the cache with one composite Check() made before returning, then
     * starts one more background loop, which becomes the one that writes the
     * cache. There is no guard: a loop of an earlier Start keeps running.
     */
    method Start(results: seq<State>)
      requires Valid()
      requires ResultsFor(results, compositeChecker.checkers)
      modifies this
      ensures Valid() && ticking && loops == old(loops) + 1
      ensures compositeChecker == old(compositeChecker)
      ensures lastState == Some(Combined(results, compositeChecker.info))
    {
      var seed := compositeChecker.Check(results);
      lastState := Some(seed);
      ticking := true;
      loops := loops + 1;
    }

    /**
     * One tick of the loop of the latest Start: the cache is replaced by a
     * fresh composite Check(), and nothing else changes. (A tick of an older
     * loop writes an orphaned cell and changes nothing observable.)
     */
    method Tick(results: seq<State>)
      requires Valid() && ticking
      requires ResultsFor(results, compositeChecker.checkers)
      modifies this
      ensures Valid() && ticking && loops == old(loops)
      ensures compositeChecker == old(compositeChecker)
      ensures lastState == Some(Combined(results, compositeChecker.info))
    {
      var currentHealth := compositeChecker.Check(results);
      lastState := Some(currentHealth);
    }

    /**
     * Ends one running loop: whichever receives the done signal, the loop of
     * the latest Start when `stopsLatest` holds and an older one otherwise.
     * The cached record stays as it is; if an older loop was ended, the
     * latest one keeps refreshing the cache.
     */
    method Stop(stopsLatest: bool)
      requires Valid() && loops > 0
      requires stopsLatest ==> ticking
      requires !stopsLatest ==> loops > (if ticking then 1 else 0)  // a loop of an earlier Start runs
      modifies this
      ensures Valid() && loops == old(loops) - 1
      ensures ticking == (old(ticking) && !stopsLatest)
      ensures compositeChecker == old(compositeChecker) && lastState == old(lastState)
    {
      loops := loops - 1;
      if stopsLatest {
        ticking := false;
      }
    }

    /** Sets the key in the wrapped checker's static info and returns the receiver. */
    method AddInfo(key: string, value: Value) returns (self: CachedChecker)
      requires Valid()
      modifies this, compositeChecker
      ensures Valid() && self == this
      ensures compositeChecker == old(compositeChecker)
      ensures compositeChecker.info == old(compositeChecker.info)[key := value]
      ensures compositeChecker.checkers == old(compositeChecker.checkers)
      ensures compositeChecker.lastState == old(compositeChecker.lastState)
      ensures lastState == old(lastState) && ticking == old(ticking) && loops == old(loops)
    {
      compositeChecker := compositeChecker.AddInfo(key, value);
      self := this;
    }

    /** Appends exactly one registration to the wrapped checker. */
    method AddChecker(name: string, checker: Probe)
      requires Valid()
      modifies compositeChecker
      ensures Valid()
      ensures compositeChecker.checkers == old(compositeChecker.checkers) + [CheckerItem(name, checker)]
      ensures compositeChecker.info == old(compositeChecker.info)
      ensures compositeChecker.infoAllocated == old(compositeChecker.infoAllocated)
      ensures compositeChecker.lastState == old(compositeChecker.lastState)
    {
      compositeChecker.AddChecker(name, checker);
    }

    /**
     * The cached record, with no probe evaluated (there are no probe results
     * to consult). None stands for the nil-pointer panic of a Check before
     * any Start.
     */
    method Check() returns (r: Option<Snapshot>)
      requires Valid()
      ensures r.Some? <==> lastState.Some?
      ensures r.Some? ==> r.value == lastState.value
    {
      if lastState.None? {
        return None;
      }
      r := Some(lastState.value);
    }
  }

  /** Two UP probes under one name plus an info key: Check right after Start, and after a tick, is UP. */
  method UpCheckersScenario() returns (first: Option<Snapshot>, later: Option<Snapshot>)
    ensures first.Some? && first.value.status == Up
    ensures later.Some? && later.value.status == Up
    ensures "key" in first.value.info && first.value.info["key"] == Str("value")
    ensures "key" in later.value.info && later.value.info["key"] == Str("value")
  {
    var c := new CachedChecker();
    c.AddChecker("upTestChecker", Probe(0));
    c.AddChecker("upTestChecker", Probe(0));
    var _ := c.AddInfo("key", Str("value"));
    var up := Snapshot(Up, map[]);
    var results := [State("upTestChecker", up), State("upTestChecker", up)];
    assert ResultNames(results) == CheckerNames(c.compositeChecker.checkers);
    c.Start(results);
    first := c.Check();
    CombinedMeaning(results, c.compositeChecker.info);
    c.Tick(results);
    later := c.Check();
    c.Stop(true);
  }

  /** A DOWN and an UP probe: Check right after Start is DOWN. */
  method DownCombinedScenario() returns (r: Option<Snapshot>)
    ensures r.Some? && r.value.status == Down
  {
    var c := new CachedChecker();
    c.AddChecker("downTestChecker", Probe(0));
    c.AddChecker("upTestChecker", Probe(1));
    var results := [State("upTestChecker", Snapshot(Up, map[])), State("downTestChecker", Snapshot(Down, map[]))];
    assert multiset(ResultNames(results)) == multiset(CheckerNames(c.compositeChecker.checkers)) by {
      assert ResultNames(results) == ["upTestChecker", "downTestChecker"];
      assert CheckerNames(c.compositeChecker.checkers) == ["downTestChecker", "upTestChecker"];
    }
    c.Start(results);
    r := c.Check();
    CombinedMeaning(results, c.compositeChecker.info);
    assert !AllUp(results) by {
      assert results[1].h.status == Down;
    }
  }

  /** Check before Start reaches the nil cache pointer. */
  method CheckBeforeStartScenario() returns (r: Option<Snapshot>)
    ensures r == None
  {
    var c := new CachedChecker();
    r := c.Check();
  }

  /**
   * Two Starts run two loops. A Stop that ends the older loop leaves the
   * latest one refreshing the cache (a tick after it lands DOWN), and a
   * second Stop still returns because one loop is left to receive it.
   */
  method DoubleStartScenario() returns (afterStop: Option<Snapshot>, afterTick: Option<Snapshot>)
    ensures afterStop.Some? && afterStop.value.status == Up
    ensures afterTick.Some? && afterTick.value.status == Down
  {
    var c := new CachedChecker();
    c.AddChecker("web", Probe(0));
    var upResults := [State("web", Snapshot(Up, map[]))];
    var downResults := [State("web", Snapshot(Down, map[]))];
    assert ResultNames(upResults) == CheckerNames(c.compositeChecker.checkers);
    assert ResultNames(downResults) == CheckerNames(c.compositeChecker.checkers);
    c.Start(upResults);
    c.Start(upResults);
    c.Stop(false);
    afterStop := c.Check();
    CombinedMeaning(upResults, c.compositeChecker.info);
    c.Tick(downResults);
    afterTick := c.Check();
    CombinedMeaning(downResults, c.compositeChecker.info);
    c.Stop(true);
  }
}
