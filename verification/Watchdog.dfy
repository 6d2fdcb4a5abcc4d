/**
 * The attest watchdog of the liveness keeper: its cycles, its timer, the anti-grief baseline, and
 * what honest readings make of it.
 */
module Watchdog {
  import opened Options

  const MIN_ONCHAIN_WINDOW: nat := 100
  const MAX_ONCHAIN_WINDOW: nat := 10000000
  const WINDOW_SAFETY_DIVISOR: nat := 3
  const WATCHDOG_MIN_MS: int := 5000
  const WATCHDOG_MAX_MS: int := 60000
  const WATCHDOG_FALLBACK_MS: int := 30000

  /** The watchdog's part of a window, in blocks. */
  function BudgetOf(window: nat): nat {
    window / WINDOW_SAFETY_DIVISOR
  }

  predicate Plausible(window: nat, lastLive: nat, head: nat) {
    MIN_ONCHAIN_WINDOW <= window <= MAX_ONCHAIN_WINDOW && lastLive <= head
  }

  /** The blocks spent since the last attest; never attested counts as overspent. */
  function Spent(head: nat, lastLive: nat, window: nat): nat
    requires lastLive <= head
  {
    if lastLive == 0 then BudgetOf(window) + 1 else head - lastLive
  }

  /** Whether a cycle attests, given the head of the last attest it saw confirmed (0 for none). */
  predicate Due(head: nat, lastLive: nat, window: nat, confirmedAt: nat)
    requires lastLive <= head
  {
    Spent(head, lastLive, window) > BudgetOf(window) && (confirmedAt == 0 || head - confirmedAt > BudgetOf(window))
  }

  /** More than a third of the window has passed since a block, 0 meaning that there is none. */
  predicate ThirdPassed(since: nat, head: nat, window: nat) {
    since == 0 || 3 * (head - since) > window
  }

  /** An attest is due exactly once a third of the window has passed, for the registry and for the own record. */
  lemma DueAfterAThird(head: nat, lastLive: nat, window: nat, confirmedAt: nat)
    requires lastLive <= head
    ensures Due(head, lastLive, window, confirmedAt) <==>
              ThirdPassed(lastLive, head, window) && ThirdPassed(confirmedAt, head, window)
  {
    assert window == 3 * BudgetOf(window) + window % 3;
  }

  /** watchdogPeriodMs; a block time of 0 means none was measured. */
  function PeriodMs(window: nat, blockTimeMs: real): (r: int)
    ensures WATCHDOG_MIN_MS <= r <= WATCHDOG_MAX_MS
    ensures blockTimeMs == 0.0 ==> r == WATCHDOG_FALLBACK_MS
    ensures blockTimeMs != 0.0 && r > WATCHDOG_MIN_MS ==> r as real <= window as real * blockTimeMs / 6.0
    ensures blockTimeMs != 0.0 && r < WATCHDOG_MAX_MS ==> window as real * blockTimeMs / 6.0 < r as real + 1.0
  {
    if blockTimeMs == 0.0 then WATCHDOG_FALLBACK_MS
    else
      var sixth := (window as real * blockTimeMs / 6.0).Floor;
      if sixth < WATCHDOG_MIN_MS then WATCHDOG_MIN_MS else if sixth > WATCHDOG_MAX_MS then WATCHDOG_MAX_MS else sixth
  }

  // ---- The cycle as a state machine ------------------------------------------------------------

  /** Where the one cycle in flight is waiting. */
  datatype Phase =
    | Idle
    | ReadingHead
    | ReadingRegistry(head: nat)
    | Attesting(head: nat, budget: nat, window: nat, own: bool)
    | Measuring(window: nat)

  /** A head recorded after a confirmed watchdog attest, with the budget sampled for it. */
  datatype Recorded = Recorded(head: nat, budget: nat)

  /** Recorded heads are more than the sampled budget apart, unless the earlier one is genesis. */
  ghost predicate FarApart(recorded: seq<Recorded>) {
    && (forall i | 0 <= i < |recorded| :: recorded[i].budget >= 33)
    && (forall i | 0 < i < |recorded| ::
          recorded[i - 1].head != 0 ==> recorded[i].head - recorded[i - 1].head > recorded[i].budget)
  }

  /**
   * A sample that a cycle acted on: what it read, the baseline it compared with, and the block of the
   * attest it saw confirmed, if any.
   */
  datatype Sample = Sample(head: nat, window: nat, lastLive: nat, baseline: nat, confirmed: Option<nat>)

  /** Whether the cycle of a sample attested. */
  predicate DueAt(s: Sample) {
    s.lastLive <= s.head && Due(s.head, s.lastLive, s.window, s.baseline)
  }

  /** The baseline of the next cycle. */
  function NextBaseline(s: Sample): nat {
    if s.confirmed.Some? then s.head else s.baseline
  }

  /** The baseline starts at none and moves exactly to the head of a due cycle whose attest confirmed. */
  ghost predicate TraceOk(trace: seq<Sample>) {
    && (trace != [] ==> trace[0].baseline == 0)
    && (forall i | 0 <= i < |trace| ::
          Plausible(trace[i].window, trace[i].lastLive, trace[i].head) && (trace[i].confirmed.Some? ==> DueAt(trace[i])))
    && (forall i | 0 < i < |trace| :: trace[i].baseline == NextBaseline(trace[i - 1]))
  }

  lemma TraceAppend(trace: seq<Sample>, s: Sample)
    requires TraceOk(trace) && s.confirmed.None? && s.baseline == Baseline(trace)
    requires Plausible(s.window, s.lastLive, s.head)
    ensures TraceOk(trace + [s]) && Baseline(trace + [s]) == Baseline(trace)
  {
  }

  lemma TraceConfirm(trace: seq<Sample>, at: nat)
    requires TraceOk(trace) && trace != [] && DueAt(trace[|trace| - 1])
    ensures var n := |trace| - 1; TraceOk(trace[n := trace[n].(confirmed := Some(at))])
    ensures var n := |trace| - 1; Baseline(trace[n := trace[n].(confirmed := Some(at))]) == trace[n].head
  {
  }

  function Baseline(trace: seq<Sample>): nat {
    if trace == [] then 0 else NextBaseline(trace[|trace| - 1])
  }

  function LastHead(recorded: seq<Recorded>): nat {
    if recorded == [] then 0 else recorded[|recorded| - 1].head
  }

  /** A due cycle's head is far enough from the last recorded one. */
  lemma RecordedFarApart(recorded: seq<Recorded>, trace: seq<Sample>, head: nat, budget: nat)
    requires FarApart(recorded) && trace != [] && LastHead(recorded) == Baseline(trace)
    requires var s := trace[|trace| - 1];
             DueAt(s) && s.confirmed.None? && s.head == head && budget == BudgetOf(s.window) >= 33
    ensures FarApart(recorded + [Recorded(head, budget)])
  {
  }

  class LivenessKeeper {
    var stopping: bool
    var inFlight: bool
    var watchdogInFlight: bool
    var confirmedAtBlock: nat
    var watchdogFailures: nat
    var lastBlockTimeMs: real
    var watchdog: Option<nat>      // the timer handle last assigned
    var timers: map<nat, int>      // watchdog timers not yet fired, with their delays
    var nextHandle: nat
    var phase: Phase

    ghost var recorded: seq<Recorded>
    ghost var trace: seq<Sample>
    ghost var running: nat         // attests in flight

    ghost predicate TimerOk()
      reads this
    {
      && (forall t | t in timers :: watchdog == Some(t) && t < nextHandle)
      && (stopping <==> timers == map[])
    }

    ghost predicate Valid()
      reads this
    {
      && TimerOk()
      && (watchdogInFlight <==> !phase.Idle?)
      && running <= 1 && (inFlight <==> running == 1)
      && confirmedAtBlock == LastHead(recorded) && FarApart(recorded)
      && confirmedAtBlock == Baseline(trace) && TraceOk(trace)
      && (phase.Attesting? ==> AttestingOk(phase, trace))
    }

    /** A cycle attests for its own sample, which is the last one. */
    ghost predicate AttestingOk(p: Phase, trace: seq<Sample>)
      requires p.Attesting?
    {
      && trace != []
      && var s := trace[|trace| - 1];
      && DueAt(s) && s.confirmed.None? && p.head == s.head && p.budget == BudgetOf(s.window) >= 33
    }

    /** Bootstrap arms the watchdog at once. */
    constructor ()
      ensures Valid() && !stopping && phase.Idle? && |timers| == 1 && recorded == []
      ensures !inFlight && confirmedAtBlock == 0 && trace == []
    {
      stopping, inFlight, watchdogInFlight, confirmedAtBlock, watchdogFailures := false, false, false, 0, 0;
      lastBlockTimeMs, watchdog, timers, nextHandle, phase := 0.0, Some(0), map[0 := 0], 1, Idle;
      recorded, trace, running := [], [], 0;
    }

    /** armWatchdog: one timer at most, none after shutdown. */
    method ArmWatchdog(delayMs: int)
      requires forall t | t in timers :: watchdog == Some(t) && t < nextHandle
      requires stopping ==> timers == map[]
      modifies this`watchdog, this`timers, this`nextHandle
      ensures TimerOk()
      ensures !stopping ==> |timers| == 1 && watchdog.Some? && watchdog.value in timers
                            && timers[watchdog.value] == delayMs
    {
      if stopping {
        return;
      }
      if watchdog.Some? {
        timers := timers - {watchdog.value};
      }
      assert timers == map[];
      watchdog := Some(nextHandle);
      timers := map[nextHandle := delayMs];
      nextHandle := nextHandle + 1;
    }

    /** onApplicationShutdown. */
    method Shutdown()
      requires Valid()
      modifies this`stopping, this`watchdog, this`timers
      ensures Valid() && stopping && timers == map[] && watchdog.None?
    {
      stopping := true;
      if watchdog.Some? {
        timers := timers - {watchdog.value};
        watchdog := None;
      }
      assert timers == map[];
    }

    /** The timer fires: watchdogCycle up to its first await, which arms the next timer first. */
    method TimerFires(t: nat)
      requires Valid() && t in timers
      modifies this`timers, this`watchdog, this`nextHandle, this`watchdogInFlight, this`phase
      ensures Valid()
      ensures phase == if old(phase).Idle? then ReadingHead else old(phase)
      ensures !stopping ==> |timers| == 1 && watchdog.Some? && watchdog.value in timers
                            && timers[watchdog.value] == WATCHDOG_FALLBACK_MS
    {
      timers := timers - {t};
      assert timers == map[];
      if watchdogInFlight {
        ArmWatchdog(WATCHDOG_FALLBACK_MS);
        return;
      }
      watchdogInFlight := true;
      ArmWatchdog(WATCHDOG_FALLBACK_MS);
      phase := ReadingHead;
    }

    /** The `finally` of a cycle: whatever happened, the next one is armed. */
    method EndCycle(next: int)
      requires Valid() && !phase.Idle?
      modifies this`phase, this`watchdogInFlight, this`timers, this`watchdog, this`nextHandle
      ensures Valid() && phase.Idle?
      ensures !stopping ==> |timers| == 1 && watchdog.Some? && watchdog.value in timers
                            && timers[watchdog.value] == next
    {
      phase, watchdogInFlight := Idle, false;
      ArmWatchdog(next);
    }

    /** The `catch` of a cycle. */
    method FailCycle()
      requires Valid() && !phase.Idle?
      modifies this`phase, this`watchdogInFlight, this`timers, this`watchdog, this`nextHandle, this`watchdogFailures
      ensures Valid() && phase.Idle? && watchdogFailures == old(watchdogFailures) + 1
      ensures !stopping ==> |timers| == 1 && watchdog.Some? && watchdog.value in timers
                            && timers[watchdog.value] == WATCHDOG_FALLBACK_MS
    {
      watchdogFailures := watchdogFailures + 1;
      EndCycle(WATCHDOG_FALLBACK_MS);
    }

    /** The head is read, or the read fails or times out. */
    method HeadAnswers(head: Option<nat>)
      requires Valid() && phase.ReadingHead?
      modifies this`phase, this`watchdogInFlight, this`timers, this`watchdog, this`nextHandle, this`watchdogFailures
      ensures Valid()
      ensures watchdogFailures == old(watchdogFailures) + if head.None? then 1 else 0
      ensures phase == if head.Some? && !stopping then ReadingRegistry(head.value) else Idle
    {
      if head.None? {
        FailCycle();
      } else if stopping {
        EndCycle(WATCHDOG_FALLBACK_MS);
      } else {
        phase := ReadingRegistry(head.value);
      }
    }

    /** tick, up to its first await: it begins only if no attest is in flight, from either timer. */
    method TickBegins() returns (own: bool)
      requires Valid()
      modifies this`inFlight, this`running
      ensures Valid()
      ensures own <==> !stopping && old(running) == 0
      ensures running == old(running) + (if own then 1 else 0) <= 1
    {
      own := !stopping && !inFlight;
      if own {
        inFlight, running := true, running + 1;
      }
    }

    /** An attest ends: the `finally` of its tick. */
    method TickEnds()
      requires Valid() && running > 0
      modifies this`inFlight, this`running
      ensures Valid() && running == old(running) - 1
    {
      inFlight, running := false, running - 1;
    }

    /** The window and lastLive pinned to the head, whatever they claim. */
    method RegistryAnswers(reading: Option<(nat, nat)>)
      requires Valid() && phase.ReadingRegistry?
      modifies this`phase, this`watchdogInFlight, this`timers, this`watchdog, this`nextHandle,
               this`watchdogFailures, this`inFlight, this`running, this`trace
      ensures Valid()
      ensures var used := reading.Some? && !stopping && Plausible(reading.value.0, reading.value.1, old(phase).head);
              && (used ==> Decided(old(phase).head, reading.value.0, reading.value.1, old(trace), old(running)))
              && (!used ==> phase.Idle? && trace == old(trace) && running == old(running))
      ensures watchdogFailures == old(watchdogFailures) + if reading.None? then 1 else 0
    {
      if reading.None? {
        FailCycle();
        return;
      }
      var (window, lastLive) := reading.value;
      if stopping || !Plausible(window, lastLive, phase.head) {
        EndCycle(WATCHDOG_FALLBACK_MS);
      } else {
        UseSample(window, lastLive);
      }
    }

    /** What a plausible sample leads to: an attest exactly if it is due, which is its own unless one is in flight. */
    ghost predicate Decided(head: nat, window: nat, lastLive: nat, before: seq<Sample>, running0: nat)
      requires lastLive <= head
      reads this
    {
      && trace == before + [Sample(head, window, lastLive, confirmedAtBlock, None)]
      && (if Due(head, lastLive, window, confirmedAtBlock)
          then phase == Attesting(head, BudgetOf(window), window, running0 == 0) && running == 1
          else phase == Measuring(window) && running == running0)
    }

    method UseSample(window: nat, lastLive: nat)
      requires Valid() && phase.ReadingRegistry? && !stopping && Plausible(window, lastLive, phase.head)
      modifies this`phase, this`inFlight, this`running, this`trace
      ensures Valid() && Decided(old(phase).head, window, lastLive, old(trace), old(running))
    {
      TraceAppend(trace, Sample(phase.head, window, lastLive, confirmedAtBlock, None));
      trace := trace + [Sample(phase.head, window, lastLive, confirmedAtBlock, None)];
      if Due(phase.head, lastLive, window, confirmedAtBlock) {
        var own := TickBegins();
        phase := Attesting(phase.head, BudgetOf(window), window, own);
      } else {
        phase := Measuring(window);
      }
    }

    /**
     * The attest confirms, does not, or outlasts its deadline; a skipped tick never confirms.  `at` is
     * the block of the receipt, which the code does not read.
     */
    method AttestAnswers(confirmed: Option<bool>, ghost at: nat)
      requires Valid() && phase.Attesting? && (confirmed == Some(true) ==> phase.own)
      modifies this`phase, this`watchdogInFlight, this`timers, this`watchdog, this`nextHandle,
               this`watchdogFailures, this`confirmedAtBlock, this`recorded, this`trace
      ensures Valid()
      ensures trace == if confirmed == Some(true) && !stopping
                       then old(trace)[|old(trace)| - 1 := old(trace)[|old(trace)| - 1].(confirmed := Some(at))]
                       else old(trace)
      ensures phase == if confirmed.None? || stopping then Idle else Measuring(old(phase).window)
      ensures recorded == if confirmed == Some(true) && !stopping
                          then old(recorded) + [Recorded(old(phase).head, old(phase).budget)] else old(recorded)
      ensures confirmedAtBlock == if confirmed == Some(true) && !stopping then old(phase).head else old(confirmedAtBlock)
    {
      if confirmed.None? {
        FailCycle();
      } else if stopping {
        EndCycle(WATCHDOG_FALLBACK_MS);
      } else if confirmed.value {
        RecordConfirmed(at);
      } else {
        phase := Measuring(phase.window);
      }
    }

    /** The head becomes the baseline. */
    method RecordConfirmed(ghost at: nat)
      requires Valid() && phase.Attesting?
      modifies this`phase, this`confirmedAtBlock, this`recorded, this`trace
      ensures Valid() && phase == Measuring(old(phase).window)
      ensures confirmedAtBlock == old(phase).head
      ensures recorded == old(recorded) + [Recorded(old(phase).head, old(phase).budget)]
      ensures trace == old(trace)[|old(trace)| - 1 := old(trace)[|old(trace)| - 1].(confirmed := Some(at))]
    {
      RecordedFarApart(recorded, trace, phase.head, phase.budget);
      TraceConfirm(trace, at);
      confirmedAtBlock := phase.head;
      recorded := recorded + [Recorded(phase.head, phase.budget)];
      trace := trace[|trace| - 1 := trace[|trace| - 1].(confirmed := Some(at))];
      phase := Measuring(phase.window);
    }

    /** The advisory block-time measurement ends the cycle; None when it could not be made. */
    method MeasureAnswers(blockTimeMs: Option<real>)
      requires Valid() && phase.Measuring?
      modifies this`phase, this`watchdogInFlight, this`timers, this`watchdog, this`nextHandle,
               this`watchdogFailures, this`lastBlockTimeMs
      ensures Valid() && phase.Idle? && watchdogFailures == 0
      ensures lastBlockTimeMs == if blockTimeMs.Some? && blockTimeMs.value > 0.0 && !stopping
                                 then blockTimeMs.value else old(lastBlockTimeMs)
      ensures !stopping ==> |timers| == 1 && watchdog.Some? && watchdog.value in timers
                            && timers[watchdog.value] == PeriodMs(old(phase).window, lastBlockTimeMs)
    {
      if blockTimeMs.Some? && blockTimeMs.value > 0.0 && !stopping {
        lastBlockTimeMs := blockTimeMs.value;
      }
      watchdogFailures := 0;
      var next := PeriodMs(phase.window, lastBlockTimeMs);
      EndCycle(next);
    }
  }

  /**
   * Every interleaving of timers, answers, ticks and a shutdown, whatever is read: recorded heads stay
   * more than the sampled budget apart, at most one attest is in flight, and until shutdown exactly one
   * watchdog timer is pending.  In every run whose reads were honest and whose attests landed promptly,
   * the last attest is never further back than the bound.
   */
  method AnyRun(k: LivenessKeeper, steps: nat)
    requires k.Valid()
    modifies k
    ensures k.Valid() && FarApart(k.recorded) && k.running <= 1
    ensures forall landings: set<nat>, window: nat, g: nat, d: nat, block: nat
              | LiveRun(k.trace, landings, window, g, d, block) ::
              block - LastLive(landings, block) <= BudgetOf(window) + g + d
    ensures !k.stopping ==> exists t :: k.timers.Keys == {t}
  {
    for n := 0 to steps
      invariant k.Valid()
    {
      if {
        case k.timers != map[] => var t :| t in k.timers; k.TimerFires(t);
        case k.phase.ReadingHead? =>
          var head: Option<nat> :| head.None? || head.value >= 0;
          k.HeadAnswers(head);
        case k.phase.ReadingRegistry? =>
          var window, lastLive :| window >= 0 && lastLive >= 0;
          var fails: bool := *;
          k.RegistryAnswers(if fails then None else Some((window, lastLive)));
        case k.phase.Attesting? =>
          var confirmed: Option<bool> := *;
          if confirmed == Some(true) && !k.phase.own {
            confirmed := Some(false);
          }
          ghost var at: nat :| at >= 0;
          k.AttestAnswers(confirmed, at);
        case k.phase.Measuring? => var bt: Option<real> := *; k.MeasureAnswers(bt);
        case true => var _ := k.TickBegins();
        case k.inFlight => k.TickEnds();
        case true => k.Shutdown();
      }
    }
    forall landings: set<nat>, window: nat, g: nat, d: nat, block: nat
      | LiveRun(k.trace, landings, window, g, d, block)
      ensures block - LastLive(landings, block) <= BudgetOf(window) + g + d
    {
      StaysLive(k.trace, landings, window, g, d, block);
    }
    if !k.stopping {
      assert k.timers.Keys == {k.watchdog.value} by {
        var t :| t in k.timers;
        assert t in k.timers.Keys && k.watchdog == Some(t);
      }
    }
  }

  method ReadGenesis(k: LivenessKeeper)
    requires k.Valid() && !k.stopping && k.phase.Idle? && !k.inFlight && k.confirmedAtBlock == 0
    modifies k`phase, k`watchdogInFlight, k`timers, k`watchdog, k`nextHandle, k`watchdogFailures, k`inFlight,
             k`running, k`trace
    ensures k.Valid() && k.phase.Attesting? && k.phase.head == 0 && k.phase.budget == 33 && k.phase.own && k.inFlight
  {
    var t :| t in k.timers;
    k.TimerFires(t);
    k.HeadAnswers(Some(0));
    assert Due(0, 0, 100, 0);
    k.RegistryAnswers(Some((100, 0)));
  }

  /** A full cycle at block 0, never attested, whose attest confirms. */
  method CycleAtGenesis(k: LivenessKeeper)
    requires k.Valid() && !k.stopping && k.phase.Idle? && !k.inFlight && k.confirmedAtBlock == 0
    modifies k
    ensures k.Valid() && !k.stopping && k.phase.Idle? && !k.inFlight && k.confirmedAtBlock == 0
    ensures k.recorded == old(k.recorded) + [Recorded(0, 33)]
  {
    ReadGenesis(k);
    ConfirmGenesis(k);
  }

  method ConfirmGenesis(k: LivenessKeeper)
    requires k.Valid() && !k.stopping && k.phase.Attesting? && k.phase.own && k.running == 1
    modifies k
    ensures k.Valid() && !k.stopping && k.phase.Idle? && k.running == 0
    ensures k.confirmedAtBlock == old(k.phase).head
    ensures k.recorded == old(k.recorded) + [Recorded(old(k.phase).head, old(k.phase).budget)]
  {
    k.AttestAnswers(Some(true), 1);
    k.MeasureAnswers(None);
    k.TickEnds();
  }

  /** The baseline 0 means none, so two confirmed attests at block 0 are not held apart. */
  method GenesisRepeats() returns (k: LivenessKeeper)
    ensures k.recorded == [Recorded(0, 33), Recorded(0, 33)]
  {
    k := new LivenessKeeper();
    CycleAtGenesis(k);
    CycleAtGenesis(k);
  }

  // ---- Honest readings ---------------------------------------------------------------------------

  /** The registry's lastLive at a block: the latest attest landed by then, 0 if there is none. */
  function LastLive(landings: set<nat>, block: nat): nat {
    if block == 0 || block in landings then block else LastLive(landings, block - 1)
  }

  lemma {:induction false} LastLiveIsLatest(landings: set<nat>, block: nat)
    ensures LastLive(landings, block) <= block
    ensures LastLive(landings, block) == 0 || LastLive(landings, block) in landings
    ensures forall l | l in landings && l <= block :: l <= LastLive(landings, block)
  {
    if block != 0 && block !in landings {
      LastLiveIsLatest(landings, block - 1);
    }
  }

  /** A landing in (from, to]. */
  predicate LandedIn(landings: set<nat>, from: nat, to: nat) {
    exists l :: l in landings && from < l <= to
  }

  /**
   * Honest reads of a fixed window: every sample holds the registry's values, heads do not go back and
   * are at most g apart, and a confirmed attest landed after its head and is seen by the next one.
   */
  ghost predicate Honest(trace: seq<Sample>, landings: set<nat>, window: nat, g: nat) {
    && (forall i | 0 <= i < |trace| ::
          trace[i].window == window && trace[i].lastLive == LastLive(landings, trace[i].head))
    && (forall i | 0 < i < |trace| :: trace[i - 1].head <= trace[i].head <= trace[i - 1].head + g)
    && (forall i | 0 <= i < |trace| && trace[i].confirmed.Some? ::
          trace[i].confirmed.value in landings && trace[i].head < trace[i].confirmed.value)
    && (forall i | 0 < i < |trace| && trace[i - 1].confirmed.Some? :: trace[i - 1].confirmed.value <= trace[i].head)
  }

  /** An attest that a cycle sends lands within d blocks, as far as the run goes. */
  ghost predicate Prompt(trace: seq<Sample>, landings: set<nat>, d: nat) {
    forall i | 0 <= i < |trace| && DueAt(trace[i]) && trace[i].head + d <= trace[|trace| - 1].head ::
      LandedIn(landings, trace[i].head, trace[i].head + d)
  }

  /** A baseline in force is older than the last attest. */
  lemma {:induction false} BaselineIsOlder(trace: seq<Sample>, landings: set<nat>, window: nat, g: nat, i: nat)
    requires TraceOk(trace) && Honest(trace, landings, window, g) && i < |trace|
    ensures trace[i].baseline == 0 || trace[i].baseline < trace[i].lastLive
  {
    if i > 0 {
      BaselineIsOlder(trace, landings, window, g, i - 1);
      LastLiveIsLatest(landings, trace[i].head);
      LastLiveIsLatest(landings, trace[i - 1].head);
    }
  }

  /** Suppression never blocks an attest that is due by the registry's own count. */
  lemma NeverSuppressed(trace: seq<Sample>, landings: set<nat>, window: nat, g: nat, i: nat)
    requires TraceOk(trace) && Honest(trace, landings, window, g) && i < |trace|
    requires trace[i].lastLive == 0 || trace[i].head - trace[i].lastLive > BudgetOf(window)
    ensures DueAt(trace[i])
  {
    BaselineIsOlder(trace, landings, window, g, i);
    LastLiveIsLatest(landings, trace[i].head);
  }

  /** The first cycle past a block, if the run goes that far. */
  lemma {:induction false} FirstPast(trace: seq<Sample>, block: nat, n: nat) returns (i: nat)
    requires n < |trace| && trace[n].head > block
    ensures i <= n && trace[i].head > block && (i == 0 || trace[i - 1].head <= block)
  {
    if n == 0 || trace[n - 1].head <= block {
      return n;
    }
    i := FirstPast(trace, block, n - 1);
  }

  /** An honest and prompt run, and a block of it past the first attest, or past a recent one. */
  ghost predicate LiveRun(trace: seq<Sample>, landings: set<nat>, window: nat, g: nat, d: nat, block: nat) {
    && Honest(trace, landings, window, g) && Prompt(trace, landings, d)
    && trace != [] && trace[0].head <= block <= trace[|trace| - 1].head
    && (trace[0].head + d <= block || trace[0].head - trace[0].lastLive <= BudgetOf(window) + g)
  }

  /**
   * The last attest is never further back than a third of the window plus the two delays, once the
   * first cycle had time to attest, or from its head on if the last attest was recent then.
   */
  lemma StaysLive(trace: seq<Sample>, landings: set<nat>, window: nat, g: nat, d: nat, block: nat)
    requires TraceOk(trace) && LiveRun(trace, landings, window, g, d, block)
    ensures block - LastLive(landings, block) <= BudgetOf(window) + g + d
  {
    var l, budget := LastLive(landings, block), BudgetOf(window);
    LastLiveIsLatest(landings, block);
    LastLiveIsLatest(landings, trace[0].head);
    if block > l + budget + g + d {
      var i := FirstPast(trace, l + budget, |trace| - 1);
      var head := trace[i].head;
      LastLiveIsLatest(landings, head);
      assert trace[i].lastLive <= l;
      NeverSuppressed(trace, landings, window, g, i);
    }
  }
}
