/** Safety of the informer factory over every interleaving of its callers and goroutines. */
module FactoryTheorems {
  import opened InformerState
  import opened Wrappers
  import opened FactoryProtocol
  import Informers

  // ----- every step keeps the invariant -----

  lemma MoveKeeps(h: Shared, p: Place, m: Move)
    requires Consistent(h, p) && Local(h, p) && CanMove(h, p, m)
    ensures Consistent(Effect(h, p, m), Target(h, p, m)) && Local(Effect(h, p, m), Target(h, p, m))
    ensures Locked(Target(h, p, m)) && Grows(h, Effect(h, p, m))
    ensures h.shuttingDown ==> Effect(h, p, m).(informers := h.informers) == h
  {
    if m.Go? {
      Informers.RunsExtended(h.launched, Run(p.kind, h.informers[p.kind]));
    }
  }

  /** What a caller outside the lock relies on survives everything others do. */
  lemma LocalStable(h: Shared, g: Shared, p: Place)
    requires Grows(h, g) && !Locked(p) && Local(h, p)
    ensures Local(g, p)
  {
  }

  lemma InsideKeeps(s: State, c: nat, m: Move)
    requires Inv(s) && Enabled(s, Inside(c, m))
    ensures Inv(After(s, Inside(c, m))) && Grows(s.shared, After(s, Inside(c, m)).shared)
  {
    var p := s.callers[c];
    MoveKeeps(s.shared, p, m);
    var t := After(s, Inside(c, m));
    forall d | 0 <= d < |t.callers| ensures Local(t.shared, t.callers[d]) {
      if d != c {
        LocalStable(s.shared, t.shared, s.callers[d]);
      }
    }
  }

  lemma DoneKeeps(s: State, g: nat)
    requires Inv(s) && Enabled(s, Done(g))
    ensures Inv(After(s, Done(g))) && Grows(s.shared, After(s, Done(g)).shared)
  {
    SubsetSize(s.shared.finished, |s.shared.launched|);
  }

  lemma AcquireKeeps(s: State, c: nat, call: Call)
    requires Inv(s) && Enabled(s, Acquire(c, call))
    ensures Inv(After(s, Acquire(c, call)))
  {
    assert Local(s.shared, Entry(s.shared, call));
  }

  lemma ReleaseKeeps(s: State, c: nat)
    requires Inv(s) && Enabled(s, Release(c))
    ensures Inv(After(s, Release(c)))
  {
    assert Local(s.shared, s.callers[c]);
  }

  /** The steps callers take without the lock. */
  lemma UnlockedKeeps(s: State, step: Step)
    requires step.WaitReturns? || step.Synced? || step.SyncReturns?
    requires Inv(s) && Enabled(s, step)
    ensures Inv(After(s, step))
  {
    assert Local(s.shared, s.callers[step.caller]);
  }

  lemma StepKeeps(s: State, step: Step)
    requires Inv(s) && Enabled(s, step)
    ensures Inv(After(s, step)) && Grows(s.shared, After(s, step).shared)
  {
    match step {
      case Inside(c, m) => InsideKeeps(s, c, m);
      case Done(g) => DoneKeeps(s, g);
      case Acquire(c, call) => AcquireKeeps(s, c, call);
      case Release(c) => ReleaseKeeps(s, c);
      case _ => UnlockedKeeps(s, step);
    }
  }

  lemma NextKeeps(s: State, t: State)
    requires Inv(s) && Next(s, t)
    ensures Inv(t) && Grows(s.shared, t.shared)
  {
    var step :| Enabled(s, step) && t == After(s, step);
    StepKeeps(s, step);
  }

  lemma InitKeeps(s: State)
    requires Init(s)
    ensures Inv(s)
  {
    assert forall k :: !RunOf(s.shared.launched, k);
  }

  /** The invariant holds throughout every run. */
  lemma {:induction false} Invariant(run: seq<State>, i: nat)
    requires IsRun(run) && i < |run|
    ensures Inv(run[i])
  {
    if i == 0 {
      InitKeeps(run[0]);
    } else {
      Invariant(run, i - 1);
      assert StepsTo(run, i);
      NextKeeps(run[i - 1], run[i]);
    }
  }

  /** The step that leads to state `j`. */
  lemma StepAt(run: seq<State>, j: nat)
    requires IsRun(run) && 0 < j < |run|
    ensures Inv(run[j - 1]) && Inv(run[j]) && Next(run[j - 1], run[j]) && Grows(run[j - 1].shared, run[j].shared)
  {
    Invariant(run, j - 1);
    assert StepsTo(run, j);
    NextKeeps(run[j - 1], run[j]);
  }

  lemma GrowsTransitive(a: Shared, b: Shared, c: Shared)
    requires Grows(a, b) && Grows(b, c)
    ensures Grows(a, c)
  {
  }

  /** The factory only ever grows. */
  lemma {:induction false} Growth(run: seq<State>, i: nat, j: nat)
    requires IsRun(run) && i <= j < |run|
    ensures Grows(run[i].shared, run[j].shared)
    decreases j
  {
    if i < j {
      Growth(run, i, j - 1);
      StepAt(run, j);
      GrowsTransitive(run[i].shared, run[j - 1].shared, run[j].shared);
    }
  }

  // ----- informers -----

  /** A kind has one informer forever: whatever two calls of InformerFor return for it, at any
      time in a run, is the same informer, and it is the one that goroutines run. */
  lemma OneInformerPerKind(run: seq<State>, i: nat, j: nat, c: nat, d: nat)
    requires IsRun(run) && i <= j < |run|
    requires c < |run[i].callers| && d < |run[j].callers|
    requires run[i].callers[c].Found? && run[j].callers[d].Found?
    requires run[i].callers[c].kind == run[j].callers[d].kind
    ensures run[i].callers[c].informer == run[j].callers[d].informer
    ensures forall r :: r in run[j].shared.launched && r.kind == run[i].callers[c].kind ==>
              r.informer == run[i].callers[c].informer
  {
    Invariant(run, i);
    Invariant(run, j);
    Growth(run, i, j);
    assert Local(run[i].shared, run[i].callers[c]) && Local(run[j].shared, run[j].callers[d]);
  }

  ghost predicate DistinctInformers(m: map<Kind, Informer>) {
    forall k, l :: k in m && l in m && k != l ==> m[k] != m[l]
  }

  /** Each kind is run at most once, by its own informer, only if it was created, and, while the
      lock is free, exactly the started kinds have been run. If the constructors never hand out one informer for two
      kinds, each informer is run at most once. */
  lemma RunAtMostOnce(run: seq<State>, i: nat)
    requires IsRun(run) && i < |run|
    ensures var h := run[i].shared;
            && DistinctRuns(h.launched)
            && (forall r :: r in h.launched ==> r.kind in h.informers && h.informers[r.kind] == r.informer)
            && h.started <= h.informers.Keys
            && (run[i].lock.None? ==> forall k :: RunOf(h.launched, k) <==> k in h.started)
            && (DistinctInformers(h.informers) ==>
                  forall a, b :: 0 <= a < b < |h.launched| ==> h.launched[a].informer != h.launched[b].informer)
  {
    Invariant(run, i);
  }

  // ----- the wait group -----

  /** While no Start is between its Add and its go statement the count is the number of
      goroutines still running; it is never negative, and it is zero exactly when all have
      finished. */
  lemma CountIsRunning(run: seq<State>, i: nat)
    requires IsRun(run) && i < |run| && !Holder(run[i]).Counted?
    ensures var h := run[i].shared;
            && h.wg == |h.launched| - |h.finished| >= 0
            && (h.wg == 0 <==> forall g :: 0 <= g < |h.launched| ==> g in h.finished)
  {
    Invariant(run, i);
    SubsetSize(run[i].shared.finished, |run[i].shared.launched|);
  }

  /** Once shutting down: no Add, no launch and no mark, ever. */
  lemma FrozenStep(s: State, step: Step)
    requires Inv(s) && s.shared.shuttingDown && Enabled(s, step)
    ensures var h, g := s.shared, After(s, step).shared;
            g.launched == h.launched && g.started == h.started && g.wg <= h.wg
    ensures step.Inside? ==> !step.move.Add? && !step.move.Go? && !step.move.Mark?
  {
    if step.Inside? {
      assert Local(s.shared, s.callers[step.caller]);
      MoveKeeps(s.shared, s.callers[step.caller], step.move);
    }
  }

  lemma FrozenNext(run: seq<State>, j: nat)
    requires IsRun(run) && 0 < j < |run| && run[j - 1].shared.shuttingDown
    ensures var h, g := run[j - 1].shared, run[j].shared;
            g.shuttingDown && g.launched == h.launched && g.started == h.started && g.wg <= h.wg
  {
    StepAt(run, j);
    var step :| Enabled(run[j - 1], step) && run[j] == After(run[j - 1], step);
    FrozenStep(run[j - 1], step);
  }

  /** After a Shutdown has set its flag nothing is started any more and the count never rises. */
  lemma {:induction false} NothingStartsAfterShutdown(run: seq<State>, i: nat, j: nat)
    requires IsRun(run) && i <= j < |run| && run[i].shared.shuttingDown
    ensures var h, g := run[i].shared, run[j].shared;
            g.shuttingDown && g.launched == h.launched && g.started == h.started && g.wg <= h.wg
    decreases j
  {
    if i < j {
      NothingStartsAfterShutdown(run, i, j - 1);
      FrozenNext(run, j);
    }
  }

  lemma {:induction false} ReturnedStays(run: seq<State>, i: nat, j: nat)
    requires IsRun(run) && i <= j < |run| && run[i].returned
    ensures run[j].returned
    decreases j
  {
    if i < j {
      ReturnedStays(run, i, j - 1);
      assert StepsTo(run, j);
    }
  }

  /** When a Shutdown returns, and ever after, every goroutine launched has finished. */
  lemma ShutdownIsFinal(run: seq<State>, i: nat, j: nat)
    requires IsRun(run) && i <= j < |run| && run[i].returned
    ensures run[j].shared.wg == 0 && run[j].shared.launched == run[i].shared.launched
    ensures forall g :: 0 <= g < |run[j].shared.launched| ==> g in run[j].shared.finished
  {
    Invariant(run, i);
    Invariant(run, j);
    ReturnedStays(run, i, j);
    NothingStartsAfterShutdown(run, i, j);
    SubsetSize(run[j].shared.finished, |run[j].shared.launched|);
  }

  /** A waiting Shutdown can return exactly when every goroutine has finished. */
  lemma ShutdownWaitsForAll(run: seq<State>, i: nat, c: nat)
    requires IsRun(run) && i < |run| && c < |run[i].callers| && run[i].callers[c].Waiting?
    ensures Enabled(run[i], WaitReturns(c)) <==>
            forall g :: 0 <= g < |run[i].shared.launched| ==> g in run[i].shared.finished
  {
    Invariant(run, i);
    assert Local(run[i].shared, run[i].callers[c]);
    assert Local(run[i].shared, Holder(run[i]));
    CountIsRunning(run, i);
  }

  // ----- progress -----

  /** The caller that has the lock is never stuck: it can always take a step or release it. */
  lemma HolderCanStep(run: seq<State>, i: nat)
    requires IsRun(run) && i < |run| && run[i].lock.Some?
    ensures exists m :: Enabled(run[i], Inside(run[i].lock.value, m)) || Enabled(run[i], Release(run[i].lock.value))
  {
    Invariant(run, i);
    var s, c := run[i], run[i].lock.value;
    var p, h := s.callers[c], s.shared;
    assert Local(h, p);
    var m: Move := SetFlag;
    match p {
      case Starting(todo) =>
        if todo != {} {
          var kind :| kind in todo;
          m := if kind in h.started then Skip(kind) else Add(kind);
        }
      case Copying(todo, _) =>
        if todo != {} {
          var kind :| kind in todo;
          m := Copy(kind);
        }
      case Counted(_, _) => m := Go;
      case Launched(_, _) => m := Mark;
      case Finding(kind) => m := if kind in h.informers then Get else Make(0);
      case _ =>
    }
    assert Enabled(s, Inside(c, m)) || Enabled(s, Release(c));
  }

  // ----- waiting for the caches -----

  predicate InSync(p: Place) {
    p.Copying? || p.Syncing?
  }

  /** A snapshot is the started informers at the moment the lock is released. */
  lemma SnapshotIsStarted(run: seq<State>, i: nat, c: nat)
    requires IsRun(run) && i < |run| && c < |run[i].callers|
    requires run[i].callers[c].Copying? && Enabled(run[i], Release(c))
    ensures var h, p := run[i].shared, After(run[i], Release(c)).callers[c];
            && p.Syncing? && p.taken.Keys == h.started
            && forall k :: k in p.taken ==> k in h.informers && p.taken[k] == h.informers[k]
  {
    Invariant(run, i);
    assert Local(run[i].shared, run[i].callers[c]);
  }

  /** One state later in the same call: the snapshot, once taken, stays. */
  lemma SyncStep(s: State, t: State, c: nat)
    requires Inv(s) && Next(s, t) && c < |s.callers| && c < |t.callers|
    requires InSync(s.callers[c]) && t.callers[c].Syncing?
    ensures s.callers[c].Syncing? ==> t.callers[c].taken == s.callers[c].taken
    ensures s.callers[c].Copying? ==> t.callers[c].taken.Keys == s.shared.started
  {
    assert Local(s.shared, s.callers[c]);
    var step :| Enabled(s, step) && t == After(s, step);
    if step.Done? || step.caller != c {
      assert t.callers[c] == s.callers[c];
    }
  }

  lemma SyncAt(run: seq<State>, j: nat, c: nat)
    requires IsRun(run) && 0 < j < |run| && c < |run[j - 1].callers| && c < |run[j].callers|
    requires InSync(run[j - 1].callers[c]) && run[j].callers[c].Syncing?
    ensures run[j - 1].callers[c].Syncing? ==> run[j].callers[c].taken == run[j - 1].callers[c].taken
    ensures run[j - 1].callers[c].Copying? ==> run[j].callers[c].taken.Keys == run[j - 1].shared.started
  {
    StepAt(run, j);
    SyncStep(run[j - 1], run[j], c);
  }

  /** Whatever was started when a caller was taking its snapshot is in its answer when
      WaitForCacheSync returns, with the informer the kind has. */
  lemma {:induction false} SyncAnswersForStarted(run: seq<State>, i: nat, j: nat, c: nat)
    requires IsRun(run) && i < j < |run| && c < |run[i].callers|
    requires forall m :: i <= m <= j ==> c < |run[m].callers| && InSync(run[m].callers[c])
    requires run[i].callers[c].Copying? && Enabled(run[j], SyncReturns(c))
    ensures run[i].shared.started <= run[j].callers[c].synced.Keys <= run[j].shared.started
    ensures forall k :: k in run[j].callers[c].taken ==>
                          k in run[j].shared.informers && run[j].callers[c].taken[k] == run[j].shared.informers[k]
  {
    SnapshotKeeps(run, i, j, c);
    Invariant(run, j);
    assert Local(run[j].shared, run[j].callers[c]);
  }

  lemma {:induction false} SnapshotKeeps(run: seq<State>, i: nat, j: nat, c: nat)
    requires IsRun(run) && i <= j < |run| && c < |run[i].callers|
    requires forall m :: i <= m <= j ==> c < |run[m].callers| && InSync(run[m].callers[c])
    requires run[i].callers[c].Copying?
    ensures run[j].callers[c].Syncing? ==> run[i].shared.started <= run[j].callers[c].taken.Keys
    decreases j
  {
    if i < j {
      SnapshotKeeps(run, i, j - 1, c);
      Growth(run, i, j - 1);
      assert InSync(run[j - 1].callers[c]) && InSync(run[j].callers[c]);
      if run[j].callers[c].Syncing? {
        SyncAt(run, j, c);
      }
    }
  }

  // ----- whole calls -----

  predicate InStart(p: Place) {
    p.Starting? || p.Counted? || p.Launched?
  }

  /** While a caller is inside Start nobody creates an informer or sets the flag. */
  lemma StartStep(s: State, step: Step, c: nat)
    requires Inv(s) && Enabled(s, step) && s.lock == After(s, step).lock == Some(c) && InStart(s.callers[c])
    ensures c < |After(s, step).callers| && InStart(After(s, step).callers[c])
    ensures var g := After(s, step).shared; g.informers == s.shared.informers && g.shuttingDown == s.shared.shuttingDown
  {
  }

  lemma StartAt(run: seq<State>, j: nat, c: nat)
    requires IsRun(run) && 0 < j < |run|
    requires run[j - 1].lock == run[j].lock == Some(c) && c < |run[j - 1].callers| && InStart(run[j - 1].callers[c])
    ensures c < |run[j].callers| && InStart(run[j].callers[c])
    ensures run[j].shared.informers == run[j - 1].shared.informers
              && run[j].shared.shuttingDown == run[j - 1].shared.shuttingDown
  {
    StepAt(run, j);
    var step :| Enabled(run[j - 1], step) && run[j] == After(run[j - 1], step);
    StartStep(run[j - 1], step, c);
  }

  lemma {:induction false} StartKeeps(run: seq<State>, i: nat, j: nat, c: nat)
    requires IsRun(run) && i <= j < |run| && c < |run[i].callers| && InStart(run[i].callers[c])
    requires forall m :: i <= m <= j ==> run[m].lock == Some(c)
    ensures c < |run[j].callers| && InStart(run[j].callers[c])
    ensures run[j].shared.informers == run[i].shared.informers
              && run[j].shared.shuttingDown == run[i].shared.shuttingDown
    decreases j
  {
    if i < j {
      StartKeeps(run, i, j - 1, c);
      StartAt(run, j, c);
    }
  }

  /** A whole Start, whatever others do meanwhile: between taking the lock and releasing it the
      factory goes exactly where the sequential method takes it. */
  lemma StartIsAtomic(run: seq<State>, i: nat, j: nat, c: nat)
    requires IsRun(run) && i < j < |run| && c < |run[i].callers|
    requires Enabled(run[i], Acquire(c, Start)) && run[i + 1] == After(run[i], Acquire(c, Start))
    requires forall m :: i < m <= j ==> run[m].lock == Some(c)
    requires Enabled(run[j], Release(c))
    ensures StartedAll(run[i].shared, run[j].shared)
  {
    var h, g := run[i].shared, run[j].shared;
    Invariant(run, i);
    Invariant(run, j);
    StartKeeps(run, i + 1, j, c);
    Growth(run, i, j);
    assert Local(g, run[j].callers[c]) && run[j].callers[c].Starting?;
    if h.shuttingDown {
      NothingStartsAfterShutdown(run, i, j);
    }
    Informers.NewRuns(h, g);
  }
}
