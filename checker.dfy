/**
 * The composite checker of checker.go: a registry of named probes plus static
 * info, the rule that combines probe results into one record, and the
 * Start/Stop switch between live evaluation and a cached record that the
 * background ticker refreshes.
 *
 * The probes run concurrently and their results reach the combining loop in
 * whatever order they finish; here that order is a parameter: a sequence of
 * results holding exactly one result per registered entry, in any order.
 */
module Composite {
  import opened Wrappers
  import opened HealthRecord

  /** Stands for a registered Checker implementation; what it reports is supplied from outside. */
  datatype Probe = Probe(id: nat)

  /** One registration (Go's checkerItem). */
  datatype CheckerItem = CheckerItem(name: string, checker: Probe)

  /** One probe result as it arrives on the result channel (the local type `state` of check()). */
  datatype State = State(name: string, h: Snapshot)

  /** The names the results arrived under, in arrival order. */
  function ResultNames(rs: seq<State>): seq<string>
  {
    seq(|rs|, i requires 0 <= i < |rs| => rs[i].name)
  }

  /** The registered names, in registration order. */
  function CheckerNames(cs: seq<CheckerItem>): seq<string>
  {
    seq(|cs|, i requires 0 <= i < |cs| => cs[i].name)
  }

  /** The fan-out delivers one result per registered entry: the names agree with multiplicity. */
  predicate ResultsFor(rs: seq<State>, cs: seq<CheckerItem>)
  {
    multiset(ResultNames(rs)) == multiset(CheckerNames(cs))
  }

  /** Every result reports UP. */
  predicate AllUp(rs: seq<State>)
  {
    forall i :: 0 <= i < |rs| ==> rs[i].h.status == Up
  }

  /** One pass of the status rule: a result that is not UP turns a combined status that is not yet DOWN into DOWN. */
  function StatusStep(acc: Status, s: State): (next: Status)
    ensures next == acc || next == Down
    ensures next == Up <==> acc == Up && s.h.status == Up
  {
    if s.h.status != Up && acc != Down then Down else acc
  }

  /** The combined status after folding the results in the given order, starting from UP. */
  function FoldStatus(rs: seq<State>): (st: Status)
    ensures st == Up || st == Down
  {
    if rs == [] then Up else StatusStep(FoldStatus(rs[..|rs| - 1]), rs[|rs| - 1])
  }

  /**
   * The folded status is UP exactly when every result is UP and DOWN
   * otherwise: an OUT OF SERVICE or UNKNOWN result demotes it to DOWN, and
   * no other combined status arises.
   */
  lemma {:induction false} FoldStatusIsAllUp(rs: seq<State>)
    ensures FoldStatus(rs) == Up || FoldStatus(rs) == Down
    ensures FoldStatus(rs) == Up <==> AllUp(rs)
  {
    if rs != [] {
      var prefix := rs[..|rs| - 1];
      FoldStatusIsAllUp(prefix);
      assert AllUp(rs) <==> AllUp(prefix) && rs[|rs| - 1].h.status == Up;
    }
  }

  /** The map of nested results after folding in the given order: each result stored under its name. */
  function NestResults(rs: seq<State>): (m: map<string, Value>)
  {
    if rs == [] then map[]
    else NestResults(rs[..|rs| - 1])[rs[|rs| - 1].name := Nested(rs[|rs| - 1].h)]
  }

  /** The nested keys are exactly the names the results were reported under. */
  lemma {:induction false} NestResultsKeys(rs: seq<State>)
    ensures NestResults(rs).Keys == set s | s in rs :: s.name
  {
    if rs != [] {
      var prefix := rs[..|rs| - 1];
      NestResultsKeys(prefix);
      assert rs == prefix + [rs[|rs| - 1]];
    }
  }

  /** The record check() builds: the folded status, the nested results, then the static info laid over them. */
  function Combined(rs: seq<State>, extra: map<string, Value>): (r: Snapshot)
    ensures r.status == Up || r.status == Down
    ensures extra.Keys <= r.info.Keys
  {
    Snapshot(FoldStatus(rs), NestResults(rs) + extra)
  }

  /**
   * The combined record is UP iff every result is UP and DOWN otherwise; its
   * keys are the result names and the static keys; a static entry replaces a
   * nested entry of the same name, and every other key keeps its nested result.
   */
  lemma CombinedMeaning(rs: seq<State>, extra: map<string, Value>)
    ensures Combined(rs, extra).status == Up <==> AllUp(rs)
    ensures Combined(rs, extra).status == Down <==> !AllUp(rs)
    ensures Combined(rs, extra).info.Keys == (set s | s in rs :: s.name) + extra.Keys
    ensures forall k :: k in extra ==> Combined(rs, extra).info[k] == extra[k]
    ensures forall k :: k in Combined(rs, extra).info && k !in extra ==>
              Combined(rs, extra).info[k] == NestResults(rs)[k]
  {
    FoldStatusIsAllUp(rs);
    NestResultsKeys(rs);
  }

  /** When no later result has the same name, a result is the one stored under its name. */
  lemma {:induction false} NestResultsLastWins(rs: seq<State>, i: nat)
    requires i < |rs|
    requires forall j :: i < j < |rs| ==> rs[j].name != rs[i].name
    ensures rs[i].name in NestResults(rs)
    ensures NestResults(rs)[rs[i].name] == Nested(rs[i].h)
  {
    if i < |rs| - 1 {
      NestResultsLastWins(rs[..|rs| - 1], i);
    }
  }

  /** No two results share a name unless they are the same result. */
  predicate NamesDetermineResults(rs: seq<State>)
  {
    forall x, y :: x in rs && y in rs && x.name == y.name ==> x == y
  }

  /** With names that determine results, every result is the one stored under its name. */
  lemma {:induction false} NestResultsFunctional(rs: seq<State>, x: State)
    requires NamesDetermineResults(rs)
    requires x in rs
    ensures x.name in NestResults(rs) && NestResults(rs)[x.name] == Nested(x.h)
  {
    var last := rs[|rs| - 1];
    var prefix := rs[..|rs| - 1];
    assert rs == prefix + [last];
    if x != last && x.name != last.name {
      assert x in prefix;
      NestResultsFunctional(prefix, x);
    }
  }

  /** The combined status does not depend on the order in which the results arrive. */
  lemma FoldStatusOrderIndependent(a: seq<State>, b: seq<State>)
    requires multiset(a) == multiset(b)
    ensures FoldStatus(a) == FoldStatus(b)
  {
    FoldStatusIsAllUp(a);
    FoldStatusIsAllUp(b);
    if AllUp(a) {
      forall i | 0 <= i < |b| ensures b[i].h.status == Up {
        assert b[i] in multiset(a);
      }
    } else {
      var i :| 0 <= i < |a| && a[i].h.status != Up;
      assert a[i] in multiset(b);
    }
  }

  /**
   * When no two results share a name with different records, the whole
   * combined record, nested entries included, does not depend on arrival order.
   */
  lemma CombinedOrderIndependent(a: seq<State>, b: seq<State>, extra: map<string, Value>)
    requires multiset(a) == multiset(b)
    requires NamesDetermineResults(a)
    ensures Combined(a, extra) == Combined(b, extra)
  {
    FoldStatusOrderIndependent(a, b);
    assert forall x :: x in a <==> x in b by {
      forall x ensures x in a <==> x in b {
        assert x in a <==> x in multiset(a);
        assert x in b <==> x in multiset(b);
      }
    }
    var na, nb := NestResults(a), NestResults(b);
    NestResultsKeys(a);
    NestResultsKeys(b);
    forall k | k in na ensures k in nb && na[k] == nb[k] {
      var x :| x in a && x.name == k;
      NestResultsFunctional(a, x);
      NestResultsFunctional(b, x);
    }
    assert na == nb;
  }

  /** With duplicate names the nested entry depends on arrival order: two orders, two records. */
  lemma DuplicateNamesOrderMatters()
    ensures var a := State("db", Snapshot(Up, map[]));
            var b := State("db", Snapshot(Down, map[]));
            Combined([a, b], map[]) != Combined([b, a], map[])
  {
    var a := State("db", Snapshot(Up, map[]));
    var b := State("db", Snapshot(Down, map[]));
    NestResultsLastWins([a, b], 1);
    NestResultsLastWins([b, a], 1);
    assert Combined([a, b], map[]).info["db"] != Combined([b, a], map[]).info["db"];
  }

  /** The probe keys of the combined record are exactly the registered names. */
  lemma CombinedKeysAreRegisteredNames(rs: seq<State>, cs: seq<CheckerItem>, extra: map<string, Value>)
    requires ResultsFor(rs, cs)
    ensures Combined(rs, extra).info.Keys == (set c | c in cs :: c.name) + extra.Keys
  {
    CombinedMeaning(rs, extra);
    var rn, cn := ResultNames(rs), CheckerNames(cs);
    var rset, cset := set s | s in rs :: s.name, set c | c in cs :: c.name;
    forall n | n in rset ensures n in cset {
      var s :| s in rs && s.name == n;
      var i :| 0 <= i < |rs| && rs[i] == s;
      assert rn[i] in multiset(cn);
      var j :| 0 <= j < |cn| && cn[j] == n;
      assert cs[j] in cs;
    }
    forall n | n in cset ensures n in rset {
      var c :| c in cs && c.name == n;
      var j :| 0 <= j < |cs| && cs[j] == c;
      assert cn[j] in multiset(rn);
      var i :| 0 <= i < |rn| && rn[i] == n;
      assert rs[i] in rs;
    }
  }

  /** Adding one more static entry to a partial overlay extends the overlay by that key. */
  lemma OverlayStep(nested: map<string, Value>, extra: map<string, Value>, pending: set<string>, k: string)
    requires k in pending && k in extra
    ensures (nested + (extra - pending))[k := extra[k]] == nested + (extra - (pending - {k}))
  {
  }

  /** Go's CompositeChecker. */
  class CompositeChecker {
    var checkers: seq<CheckerItem>
    var info: map<string, Value>
    /** False while `info` is Go's nil map. */
    var infoAllocated: bool
    var useCachedLastState: bool
    /** The cached record; None while the lastState pointer is nil. */
    var lastState: Option<Snapshot>

    ghost predicate Valid()
      reads this
    {
      && (!infoAllocated ==> info == map[])
      && (useCachedLastState ==> lastState.Some?)
    }

    /** NewCompositeChecker: no probes, nil info map, live mode. */
    constructor ()
      ensures Valid()
      ensures checkers == [] && info == map[] && !infoAllocated
      ensures !useCachedLastState && lastState == None
    {
      checkers := [];
      info := map[];
      infoAllocated := false;
      useCachedLastState := false;
      lastState := None;
    }

    /**
     * Enters cached mode with the cache seeded by a fresh UNKNOWN record; no
     * probe is evaluated. A no-op while already cached.
     */
    method Start()
      requires Valid()
      modifies this
      ensures Valid() && useCachedLastState
      ensures old(useCachedLastState) ==> lastState == old(lastState)
      ensures !old(useCachedLastState) ==> lastState == Some(Snapshot(Unknown, map[]))
      ensures checkers == old(checkers) && info == old(info) && infoAllocated == old(infoAllocated)
    {
      if useCachedLastState {
        return;
      }
      useCachedLastState := true;
      var seed := new Health.New();
      lastState := Some(seed.View());
    }

    /** Leaves cached mode, keeping the last cached record. A no-op while not cached. */
    method Stop()
      requires Valid()
      modifies this
      ensures Valid() && !useCachedLastState
      ensures lastState == old(lastState)
      ensures checkers == old(checkers) && info == old(info) && infoAllocated == old(infoAllocated)
    {
      if !useCachedLastState {
        return;
      }
      useCachedLastState := false;
    }

    /** Sets one extra info entry, allocating the map first if it is nil; returns the receiver. */
    method AddInfo(key: string, value: Value) returns (self: CompositeChecker)
      requires Valid()
      modifies this
      ensures Valid() && self == this && infoAllocated
      ensures info == old(info)[key := value]
      ensures checkers == old(checkers)
      ensures useCachedLastState == old(useCachedLastState) && lastState == old(lastState)
    {
      if !infoAllocated {
        info := map[];
        infoAllocated := true;
      }
      info := info[key := value];
      self := this;
    }

    /** Appends exactly one registration, keeping the earlier ones in order. */
    method AddChecker(name: string, checker: Probe)
      requires Valid()
      modifies this
      ensures Valid()
      ensures checkers == old(checkers) + [CheckerItem(name, checker)]
      ensures info == old(info) && infoAllocated == old(infoAllocated)
      ensures useCachedLastState == old(useCachedLastState) && lastState == old(lastState)
    {
      checkers := checkers + [CheckerItem(name, checker)];
    }

    /**
     * check(): folds the results in their arrival order into an UP record,
     * nests each under its name, then adds the static info.
     */
    method Evaluate(results: seq<State>) returns (r: Snapshot)
      requires ResultsFor(results, checkers)
      ensures r == Combined(results, info)
    {
      var health := new Health.New();
      var _ := health.Up();
      var healths: map<string, Value> := map[];
      var i := 0;
      while i < |results|
        invariant 0 <= i <= |results|
        invariant health.status == FoldStatus(results[..i])
        invariant healths == NestResults(results[..i])
        invariant health.infoAllocated
      {
        var s := results[i];
        assert results[..i + 1] == results[..i] + [s];
        if s.h.status != Up && !health.IsDown() {
          var _ := health.Down();
        }
        healths := healths[s.name := Nested(s.h)];
        i := i + 1;
      }
      assert results[..i] == results;
      health.info := healths;
      // Extra info
      var keys := info.Keys;
      while keys != {}
        invariant keys <= info.Keys
        invariant health.Valid()
        invariant health.status == FoldStatus(results)
        invariant health.info == healths + (info - keys)
        decreases keys
      {
        var k :| k in keys;
        OverlayStep(healths, info, keys, k);
        var _ := health.AddInfo(k, info[k]);
        keys := keys - {k};
      }
      assert info - keys == info;
      r := health.View();
      assert r == Snapshot(FoldStatus(results), NestResults(results) + info);
    }

    /** In cached mode the cached record, without evaluating any probe; otherwise a live check(). */
    method Check(results: seq<State>) returns (r: Snapshot)
      requires Valid()
      requires !useCachedLastState ==> ResultsFor(results, checkers)
      ensures useCachedLastState ==> r == lastState.value
      ensures !useCachedLastState ==> r == Combined(results, info)
    {
      if useCachedLastState {
        r := lastState.value;
        return;
      }
      r := Evaluate(results);
    }

    /** One tick of the background ticker: the cache is replaced by a fresh check(). */
    method Tick(results: seq<State>)
      requires Valid() && useCachedLastState
      requires ResultsFor(results, checkers)
      modifies this
      ensures Valid() && useCachedLastState
      ensures lastState == Some(Combined(results, info))
      ensures checkers == old(checkers) && info == old(info) && infoAllocated == old(infoAllocated)
    {
      var currentHealth := Evaluate(results);
      lastState := Some(currentHealth);
    }
  }

  /**
   * The Start/Stop cycle with one probe. While cached, Check ignores what the
   * probe would report (DOWN): right after Start it is the UNKNOWN seed, after
   * a tick that saw UP it is UP. After Stop, Check is live again and reports
   * the probe's DOWN, nested under its name.
   */
  method StartTickStopScenario() returns (seeded: Snapshot, ticked: Snapshot, live: Snapshot)
    ensures seeded == Snapshot(Unknown, map[])
    ensures ticked.status == Up && live.status == Down
    ensures "web" in live.info && live.info["web"] == Nested(Snapshot(Down, map[]))
  {
    var c := new CompositeChecker();
    c.AddChecker("web", Probe(0));
    var upResults := [State("web", Snapshot(Up, map[]))];
    var downResults := [State("web", Snapshot(Down, map[]))];
    assert ResultNames(upResults) == CheckerNames(c.checkers);
    assert ResultNames(downResults) == CheckerNames(c.checkers);
    c.Start();
    seeded := c.Check(downResults);
    c.Tick(upResults);
    CombinedMeaning(upResults, c.info);
    ticked := c.Check(downResults);
    c.Stop();
    live := c.Check(downResults);
    NestResultsLastWins(downResults, 0);
    CombinedMeaning(downResults, c.info);
  }

  /** Static info replaces a nested probe entry of the same name. */
  method StaticInfoOverridesProbeScenario() returns (r: Snapshot)
    ensures r.status == Down && "db" in r.info && r.info["db"] == Str("static")
  {
    var c := new CompositeChecker();
    c.AddChecker("db", Probe(0));
    var _ := c.AddInfo("db", Str("static"));
    var results := [State("db", Snapshot(Down, map[]))];
    assert ResultNames(results) == CheckerNames(c.checkers);
    assert "db" in c.info;
    r := c.Check(results);
    CombinedMeaning(results, c.info);
  }
}
