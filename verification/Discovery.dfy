/** `awaitDiscovery` (conformance/suite.go): a call without a context, made cancellable by a
    goroutine that delivers its answer over a buffered channel. Caller, goroutine and
    cancellation interleave freely. */
module Discovery {
  import opened Wrappers

  datatype Reply<T> = Cancelled | Answer(value: T)

  datatype Caller<T> = Checking | Launching | Selecting | Returned(reply: Reply<T>)
  datatype Worker<T> = NotLaunched | Observing | Sending(value: T) | Finished

  /** `observed` records what the observation answered. */
  datatype State<T> = State(
    cancelled: bool, caller: Caller<T>, worker: Worker<T>, channel: seq<T>, observed: Option<T>)

  /** The capacity the channel is made with. */
  const CAPACITY := 1

  datatype Step<T> = Cancel | Check | Launch | Observe(value: T) | Send | PickCancellation | PickAnswer

  predicate Init<T>(s: State<T>) {
    s.caller == Checking && s.worker == NotLaunched && s.channel == [] && s.observed == None
  }

  predicate Enabled<T(==)>(s: State<T>, step: Step<T>) {
    match step
    case Cancel => true
    case Check => s.caller.Checking?
    case Launch => s.caller.Launching?
    case Observe(_) => s.worker.Observing?
    case Send => s.worker.Sending? && |s.channel| < CAPACITY
    case PickCancellation => s.caller.Selecting? && s.cancelled
    case PickAnswer => s.caller.Selecting? && s.channel != []
  }

  function After<T(==)>(s: State<T>, step: Step<T>): State<T>
    requires Enabled(s, step)
  {
    match step
    case Cancel => s.(cancelled := true)
    case Check => s.(caller := if s.cancelled then Returned(Cancelled) else Launching)
    case Launch => s.(caller := Selecting, worker := Observing)
    case Observe(v) => s.(worker := Sending(v), observed := Some(v))
    case Send => s.(worker := Finished, channel := s.channel + [s.worker.value])
    case PickCancellation => s.(caller := Returned(Cancelled))
    case PickAnswer => s.(caller := Returned(Answer(s.channel[0])), channel := s.channel[1..])
  }

  ghost predicate Reachable<T(!new)>(s: State<T>, start: State<T>, steps: seq<Step<T>>)
    decreases |steps|
  {
    if steps == [] then s == start
    else
      var n := |steps| - 1;
      exists before :: Reachable(before, start, steps[..n]) && Enabled(before, steps[n]) && s == After(before, steps[n])
  }

  ghost predicate Inv<T>(s: State<T>) {
    && (s.caller.Checking? || s.caller.Launching? ==> s.worker.NotLaunched?)
    && (s.caller.Selecting? ==> !s.worker.NotLaunched?)
    && (s.worker.NotLaunched? && s.caller.Returned? ==> s.caller.reply.Cancelled?)
    && (s.worker.NotLaunched? || s.worker.Observing? ==> s.observed == None && s.channel == [])
    && (s.worker.Sending? ==> s.observed == Some(s.worker.value) && s.channel == [])
    && (s.worker.Finished? ==> s.observed.Some?)
    && (s.worker.Finished? && !s.caller.Returned? ==> s.channel == [s.observed.value])
    && (s.channel == [] || (s.observed.Some? && s.channel == [s.observed.value]))
    && (s.caller.Returned? && s.caller.reply.Answer? ==> s.observed == Some(s.caller.reply.value) && s.worker.Finished?)
    && (s.caller.Returned? && s.caller.reply.Cancelled? ==> s.cancelled)
  }

  lemma {:induction false} Invariant<T(!new)>(s: State<T>, start: State<T>, steps: seq<Step<T>>)
    requires Init(start) && Reachable(s, start, steps)
    ensures Inv(s)
    decreases |steps|
  {
    if steps != [] {
      var n := |steps| - 1;
      var before :| Reachable(before, start, steps[..n]) && Enabled(before, steps[n]) && s == After(before, steps[n]);
      Invariant(before, start, steps[..n]);
    }
  }

  /** An answer is what was observed; a cancellation is reported only if there was one. */
  lemma ReplyMeaning<T(!new)>(s: State<T>, start: State<T>, steps: seq<Step<T>>)
    requires Init(start) && Reachable(s, start, steps) && s.caller.Returned?
    ensures match s.caller.reply
            case Answer(v) => s.observed == Some(v)
            case Cancelled => s.cancelled
  {
    Invariant(s, start, steps);
  }

  /** A context cancelled before the call: the observation is never made. */
  lemma {:induction false} CancelledOnEntry<T(!new)>(s: State<T>, start: State<T>, steps: seq<Step<T>>)
    requires Init(start) && start.cancelled && Reachable(s, start, steps)
    ensures s.cancelled && s.worker == NotLaunched && s.observed == None
    ensures s.caller == Checking || s.caller == Returned(Cancelled)
    decreases |steps|
  {
    if steps != [] {
      var n := |steps| - 1;
      var before :| Reachable(before, start, steps[..n]) && Enabled(before, steps[n]) && s == After(before, steps[n]);
      CancelledOnEntry(before, start, steps[..n]);
    }
  }

  /** Sending never blocks, whether or not the caller is still there: the goroutine can always
      finish once the observation answers. */
  lemma SendNeverBlocks<T(!new)>(s: State<T>, start: State<T>, steps: seq<Step<T>>)
    requires Init(start) && Reachable(s, start, steps) && s.worker.Sending?
    ensures Enabled(s, Send) && After(s, Send).worker == Finished
  {
    Invariant(s, start, steps);
  }

  /** The caller can leave the select exactly when the context is cancelled or the answer is in
      the channel, and until then the goroutine is still at work. */
  lemma SelectReady<T(!new)>(s: State<T>, start: State<T>, steps: seq<Step<T>>)
    requires Init(start) && Reachable(s, start, steps) && s.caller.Selecting?
    ensures Enabled(s, PickCancellation) || Enabled(s, PickAnswer) <==> s.cancelled || s.worker.Finished?
    ensures s.worker.Finished? ==> Enabled(s, PickAnswer) && Some(s.channel[0]) == s.observed
    ensures !s.worker.NotLaunched?
  {
    Invariant(s, start, steps);
  }
}
