/** The factory's methods as concurrent calls: any number of callers interleave, one statement at
    a time, with each other and with the goroutines, under the factory's lock. */
module FactoryProtocol {
  import opened InformerState
  import opened Wrappers

  /** Where a caller is. Every place but the first and the last two is inside the lock. */
  datatype Place =
    | Outside
    | Starting(todo: set<Kind>)                // Start: in its loop
    | Counted(kind: Kind, todo: set<Kind>)     // Start: after wg.Add
    | Launched(kind: Kind, todo: set<Kind>)    // Start: after the go statement
    | Stopping                                 // Shutdown: before the flag is set
    | Stopped                                  // Shutdown: after the flag is set
    | Finding(kind: Kind)                      // InformerFor
    | Found(kind: Kind, informer: Informer)    // InformerFor: about to return
    | Copying(todo: set<Kind>, taken: map<Kind, Informer>)  // WaitForCacheSync: taking the snapshot
    | Waiting                                  // Shutdown: in wg.Wait
    | Syncing(taken: map<Kind, Informer>, synced: map<Kind, bool>)  // WaitForCacheSync: unlocked

  predicate Locked(p: Place) {
    !p.Outside? && !p.Waiting? && !p.Syncing?
  }

  datatype Call = Start | Shutdown | InformerFor(kind: Kind) | WaitForCacheSync

  /** The statements executed inside the lock; the kinds name the order a map is iterated in. */
  datatype Move =
    | Skip(kind: Kind) | Add(kind: Kind) | Go | Mark
    | SetFlag
    | Get | Make(informer: Informer)
    | Copy(kind: Kind)

  datatype Step =
    | Acquire(caller: nat, call: Call)
    | Inside(caller: nat, move: Move)
    | Release(caller: nat)
    | WaitReturns(caller: nat)
    | Synced(caller: nat, kind: Kind, ok: bool)
    | SyncReturns(caller: nat)
    | Done(goroutine: nat)

  /** `returned` records that some Shutdown has returned. */
  datatype State = State(shared: Shared, lock: Option<nat>, callers: seq<Place>, returned: bool)

  function Entry(h: Shared, call: Call): Place {
    match call
    case Start => Starting(if h.shuttingDown then {} else h.informers.Keys)
    case Shutdown => Stopping
    case InformerFor(kind) => Finding(kind)
    case WaitForCacheSync => Copying(h.informers.Keys, map[])
  }

  predicate CanMove(h: Shared, p: Place, m: Move) {
    match m
    case Skip(kind) => p.Starting? && kind in p.todo && kind in h.started
    case Add(kind) => p.Starting? && kind in p.todo && kind !in h.started
    case Go => p.Counted? && p.kind in h.informers
    case Mark => p.Launched?
    case SetFlag => p.Stopping?
    case Get => p.Finding? && p.kind in h.informers
    case Make(_) => p.Finding? && p.kind !in h.informers
    case Copy(kind) => p.Copying? && kind in p.todo && kind in h.informers
  }

  function Effect(h: Shared, p: Place, m: Move): Shared
    requires CanMove(h, p, m)
  {
    match m
    case Skip(_) | Get | Copy(_) => h
    case Add(_) => h.(wg := h.wg + 1)
    case Go => h.(launched := h.launched + [Run(p.kind, h.informers[p.kind])])
    case Mark => h.(started := h.started + {p.kind})
    case SetFlag => h.(shuttingDown := true)
    case Make(informer) => h.(informers := h.informers[p.kind := informer])
  }

  function Target(h: Shared, p: Place, m: Move): Place
    requires CanMove(h, p, m)
  {
    match m
    case Skip(kind) => Starting(p.todo - {kind})
    case Add(kind) => Counted(kind, p.todo - {kind})
    case Go => Launched(p.kind, p.todo)
    case Mark => Starting(p.todo)
    case SetFlag => Stopped
    case Get => Found(p.kind, h.informers[p.kind])
    case Make(informer) => Found(p.kind, informer)
    case Copy(kind) =>
      Copying(p.todo - {kind}, if kind in h.started then p.taken[kind := h.informers[kind]] else p.taken)
  }

  predicate CanRelease(p: Place) {
    p.Stopped? || p.Found? || (p.Starting? && p.todo == {}) || (p.Copying? && p.todo == {})
  }

  function Exit(p: Place): Place {
    match p
    case Stopped => Waiting
    case Copying(_, taken) => Syncing(taken, map[])
    case _ => Outside
  }

  predicate Enabled(s: State, step: Step) {
    && (!step.Done? ==> step.caller < |s.callers|)
    && match step
       case Acquire(c, _) => s.callers[c].Outside? && s.lock.None?
       case Inside(c, m) => s.lock == Some(c) && CanMove(s.shared, s.callers[c], m)
       case Release(c) => s.lock == Some(c) && CanRelease(s.callers[c])
       case WaitReturns(c) => s.callers[c].Waiting? && s.shared.wg == 0
       case Synced(c, kind, _) => s.callers[c].Syncing? && kind in s.callers[c].taken && kind !in s.callers[c].synced
       case SyncReturns(c) => s.callers[c].Syncing? && s.callers[c].taken.Keys == s.callers[c].synced.Keys
       case Done(g) => g < |s.shared.launched| && g !in s.shared.finished
  }

  function After(s: State, step: Step): State
    requires Enabled(s, step)
  {
    match step
    case Acquire(c, call) => s.(lock := Some(c), callers := s.callers[c := Entry(s.shared, call)])
    case Inside(c, m) =>
      var p := s.callers[c];
      s.(shared := Effect(s.shared, p, m), callers := s.callers[c := Target(s.shared, p, m)])
    case Release(c) => s.(lock := None, callers := s.callers[c := Exit(s.callers[c])])
    case WaitReturns(c) => s.(callers := s.callers[c := Outside], returned := true)
    case Synced(c, kind, ok) =>
      var p := s.callers[c];
      s.(callers := s.callers[c := p.(synced := p.synced[kind := ok])])
    case SyncReturns(c) => s.(callers := s.callers[c := Outside])
    case Done(g) => s.(shared := s.shared.(wg := s.shared.wg - 1, finished := s.shared.finished + {g}))
  }

  ghost predicate Next(s: State, t: State) {
    exists step :: Enabled(s, step) && t == After(s, step)
  }

  predicate Init(s: State) {
    && s.shared == Shared(map[], {}, 0, false, [], {})
    && s.lock == None && !s.returned
    && forall c :: 0 <= c < |s.callers| ==> s.callers[c] == Outside
  }

  ghost predicate StepsTo(run: seq<State>, j: nat) {
    0 < j < |run| && Next(run[j - 1], run[j])
  }

  ghost predicate IsRun(run: seq<State>) {
    && |run| > 0 && Init(run[0])
    && forall j :: 0 < j < |run| ==> StepsTo(run, j)
  }

  // ----- the invariant -----

  /** The place of the caller that has the lock. */
  function Holder(s: State): Place {
    if s.lock.Some? && s.lock.value < |s.callers| then s.callers[s.lock.value] else Outside
  }

  /** The factory, given where the caller that has the lock is: a goroutine is counted before it
      is launched and launched before its kind is marked. */
  ghost predicate Consistent(h: Shared, p: Place) {
    && h.started <= h.informers.Keys
    && DistinctRuns(h.launched)
    && (forall i :: 0 <= i < |h.launched| ==>
        h.launched[i].kind in h.informers && h.informers[h.launched[i].kind] == h.launched[i].informer)
    && (forall k :: RunOf(h.launched, k) <==> k in h.started || (p.Launched? && k == p.kind))
    && (forall g :: g in h.finished ==> g < |h.launched|)
    && h.wg == |h.launched| - |h.finished| + (if p.Counted? then 1 else 0)
  }

  /** What a caller relies on at its place. */
  ghost predicate Local(h: Shared, p: Place) {
    match p
    case Starting(todo) =>
      if h.shuttingDown then todo == {} else todo <= h.informers.Keys && h.informers.Keys - todo <= h.started
    case Counted(kind, todo) =>
      && !h.shuttingDown && todo <= h.informers.Keys && kind in h.informers && kind !in h.started
      && h.informers.Keys - todo - {kind} <= h.started
    case Launched(kind, todo) =>
      && !h.shuttingDown && todo <= h.informers.Keys && kind in h.informers && kind !in h.started
      && h.informers.Keys - todo - {kind} <= h.started
    case Stopped | Waiting => h.shuttingDown
    case Found(kind, informer) => kind in h.informers && h.informers[kind] == informer
    case Copying(todo, taken) =>
      && todo <= h.informers.Keys && taken.Keys == h.started - todo
      && forall k :: k in taken ==> k in h.informers && taken[k] == h.informers[k]
    case Syncing(taken, synced) =>
      && taken.Keys <= h.started && synced.Keys <= taken.Keys
      && forall k :: k in taken ==> k in h.informers && taken[k] == h.informers[k]
    case _ => true
  }

  ghost predicate Inv(s: State) {
    && (forall c :: 0 <= c < |s.callers| ==> (Locked(s.callers[c]) <==> s.lock == Some(c)))
    && (s.lock.Some? ==> s.lock.value < |s.callers|)
    && Consistent(s.shared, Holder(s))
    && (forall c :: 0 <= c < |s.callers| ==> Local(s.shared, s.callers[c]))
    && (s.returned ==> s.shared.shuttingDown && s.shared.wg == 0)
  }
}
