/** `sharedInformerFactory`: each method as it runs between taking and releasing the lock. */
module Informers {
  import opened InformerState

  class SharedInformerFactory {
    var informers: map<Kind, Informer>
    var startedInformers: set<Kind>
    var wg: int
    var shuttingDown: bool
    var defaultResync: int
    var customResync: map<Kind, int>
    /** The goroutines launched so far, and those that have called `wg.Done`. */
    ghost var launched: seq<Run>
    ghost var finished: set<nat>

    ghost function State(): Shared
      reads this
    {
      Shared(informers, startedInformers, wg, shuttingDown, launched, finished)
    }

    /** The factory with its options applied: no informers yet. */
    constructor (defaultResync: int, customResync: map<Kind, int>)
      ensures Quiet(State()) && State() == Shared(map[], {}, 0, false, [], {})
      ensures this.defaultResync == defaultResync && this.customResync == customResync
    {
      this.defaultResync, this.customResync := defaultResync, customResync;
      informers, startedInformers, wg, shuttingDown := map[], {}, 0, false;
      launched, finished := [], {};
    }

    /** Starts every informer that has not been started, in any order. */
    method Start()
      requires Quiet(State())
      modifies this`startedInformers, this`wg, this`launched
      ensures Quiet(State()) && StartedAll(old(State()), State()) && finished == old(finished)
    {
      if shuttingDown {
        return;
      }
      var todo := informers.Keys;
      while todo != {}
        invariant todo <= informers.Keys && informers.Keys - todo <= startedInformers
        invariant Quiet(State())
        invariant old(launched) <= launched && old(startedInformers) <= startedInformers
        decreases todo
      {
        var kind :| kind in todo;
        if kind !in startedInformers {
          wg := wg + 1;
          ghost var before := launched;
          launched := launched + [Run(kind, informers[kind])];
          startedInformers := startedInformers + {kind};
          RunsExtended(before, launched[|before|]);
        }
        todo := todo - {kind};
      }
      NewRuns(old(State()), State());
    }

    /** The locked half of `Shutdown`; it then waits until the wait group's count is zero. */
    method BeginShutdown()
      modifies this`shuttingDown
      ensures State() == old(State()).(shuttingDown := true)
    {
      shuttingDown := true;
    }

    /** The locked half of `WaitForCacheSync`: the started informers. */
    method StartedSnapshot() returns (taken: map<Kind, Informer>)
      requires Quiet(State())
      ensures taken.Keys == startedInformers && forall k :: k in taken ==> taken[k] == informers[k]
    {
      taken := map[];
      var todo := informers.Keys;
      while todo != {}
        invariant todo <= informers.Keys && taken.Keys == startedInformers - todo
        invariant forall k :: k in taken ==> taken[k] == informers[k]
        decreases todo
      {
        var kind :| kind in todo;
        if kind in startedInformers {
          taken := taken[kind := informers[kind]];
        }
        todo := todo - {kind};
      }
    }

    /** The unlocked half of `WaitForCacheSync`: one answer for each informer of the snapshot. */
    method WaitAll(taken: map<Kind, Informer>, hasSynced: Informer -> bool) returns (res: map<Kind, bool>)
      ensures res.Keys == taken.Keys && forall k :: k in taken ==> res[k] == hasSynced(taken[k])
    {
      res := map[];
      var todo := taken.Keys;
      while todo != {}
        invariant todo <= taken.Keys && res.Keys == taken.Keys - todo
        invariant forall k :: k in res ==> res[k] == hasSynced(taken[k])
        decreases todo
      {
        var kind :| kind in todo;
        res := res[kind := hasSynced(taken[kind])];
        todo := todo - {kind};
      }
    }

    /** The kind's informer: the one it has, or a new one with the kind's resync period. */
    method InformerFor(kind: Kind, newFunc: int -> Informer) returns (informer: Informer)
      requires Quiet(State())
      modifies this`informers
      ensures Quiet(State()) && Grows(old(State()), State())
      ensures informers == old(informers)[kind := informer]
      ensures kind !in old(informers) ==>
                informer == newFunc(if kind in customResync then customResync[kind] else defaultResync)
    {
      if kind in informers {
        return informers[kind];
      }
      var resync := defaultResync;
      if kind in customResync {
        resync := customResync[kind];
      }
      informer := newFunc(resync);
      informers := informers[kind := informer];
    }
  }

  lemma RunsExtended(runs: seq<Run>, r: Run)
    ensures forall k :: RunOf(runs + [r], k) <==> RunOf(runs, k) || k == r.kind
  {
    forall k ensures RunOf(runs + [r], k) <==> RunOf(runs, k) || k == r.kind {
      if RunOf(runs, k) {
        var i :| 0 <= i < |runs| && runs[i].kind == k;
        assert (runs + [r])[i].kind == k;
      }
      assert (runs + [r])[|runs|] == r;
    }
  }

  /** Between two quiet states the goroutines launched are those of the newly started kinds. */
  lemma NewRuns(h: Shared, g: Shared)
    requires Quiet(h) && Quiet(g) && h.launched <= g.launched && h.started <= g.started
    ensures DistinctRuns(g.launched[|h.launched|..])
    ensures forall k :: RunOf(g.launched[|h.launched|..], k) <==> k in g.started && k !in h.started
  {
    var n, more := |h.launched|, g.launched[|h.launched|..];
    assert forall i :: 0 <= i < |more| ==> more[i] == g.launched[n + i];
    assert forall i :: 0 <= i < n ==> h.launched[i] == g.launched[i];
    forall k ensures RunOf(more, k) <==> k in g.started && k !in h.started {
      if k in g.started && k !in h.started {
        var i :| 0 <= i < |g.launched| && g.launched[i].kind == k;
        assert i >= n;
        assert more[i - n].kind == k;
      }
      if RunOf(more, k) {
        var i :| 0 <= i < |more| && more[i].kind == k;
        assert g.launched[n + i].kind == k;
        assert k in h.started ==> RunOf(h.launched, k);
      }
    }
  }
}
