/** The state of a shared informer factory (client/informers/externalversions/factory.go). */
module InformerState {
  /** An object type, and the identity of an informer. */
  type Kind = string
  type Informer = nat

  /** A goroutine that runs the informer of a kind. */
  datatype Run = Run(kind: Kind, informer: Informer)

  /** The factory's fields, the goroutines launched so far, and which of them have called
      `wg.Done`. `startedInformers` is only ever set to true: it is the set of its keys. */
  datatype Shared = Shared(
    informers: map<Kind, Informer>, started: set<Kind>, wg: int, shuttingDown: bool,
    launched: seq<Run>, finished: set<nat>)

  /** Informers are only added, what is started stays started, goroutines are only added and
      only finish, and shutting down is final. */
  ghost predicate Grows(h: Shared, g: Shared) {
    && h.informers.Keys <= g.informers.Keys
    && (forall k :: k in h.informers ==> g.informers[k] == h.informers[k])
    && h.started <= g.started
    && h.launched <= g.launched
    && h.finished <= g.finished
    && (h.shuttingDown ==> g.shuttingDown)
  }

  predicate RunOf(runs: seq<Run>, kind: Kind) {
    exists i :: 0 <= i < |runs| && runs[i].kind == kind
  }

  predicate DistinctRuns(runs: seq<Run>) {
    forall i, j :: 0 <= i < j < |runs| ==> runs[i].kind != runs[j].kind
  }

  /** What holds of the factory whenever its lock is free. */
  ghost predicate Quiet(h: Shared) {
    && h.started <= h.informers.Keys
    && DistinctRuns(h.launched)
    && (forall i :: 0 <= i < |h.launched| ==>
        h.launched[i].kind in h.informers && h.informers[h.launched[i].kind] == h.launched[i].informer)
    && (forall k :: RunOf(h.launched, k) <==> k in h.started)
    && (forall g :: g in h.finished ==> g < |h.launched|)
    && h.wg == |h.launched| - |h.finished|
  }

  /** What a whole `Start` amounts to: unless the factory is shutting down, every informer is
      now started, and exactly those that were not have been launched, each once. */
  ghost predicate StartedAll(h: Shared, g: Shared) {
    && g.informers == h.informers && g.shuttingDown == h.shuttingDown
    && h.launched <= g.launched
    && (h.shuttingDown ==> g.launched == h.launched && g.started == h.started)
    && (!h.shuttingDown ==> g.started == h.informers.Keys)
    && DistinctRuns(g.launched[|h.launched|..])
    && (forall k :: RunOf(g.launched[|h.launched|..], k) <==> k in g.started && k !in h.started)
  }

  // ----- counting goroutines -----

  lemma {:induction false} SubsetSize(s: set<nat>, n: nat)
    requires forall g :: g in s ==> g < n
    ensures |s| <= n
    ensures |s| == n <==> forall g :: 0 <= g < n ==> g in s
  {
    if n == 0 {
      assert s == {};
    } else {
      SubsetSize(s - {n - 1}, n - 1);
      if n - 1 in s {
        assert s == (s - {n - 1}) + {n - 1};
      } else {
        assert s == s - {n - 1};
      }
    }
  }
}
