/**
 The guardrail that pauses a training when the machine is short of memory, on battery or hot,
 together with manual pause and resume. The locked state is a class whose methods are the code's
 critical sections; everything that runs between two of them is a step of a state machine, so the
 runs below contain every interleaving of the loops, the commands and the training's own end.
 */
module Guardrails {
  import opened Common

  type Pid = nat

  datatype Cause = MemoryPressure | Battery | Thermal

  datatype Status = Running | Paused | PausedFor(cause: Cause) | Done | Error | Killed

  datatype Level = Normal | Warn | Critical | Unknown

  datatype ThermalState = Nominal | Fair | Serious | ThermalCritical

  datatype Training = Training(pid: Pid, status: Status)

  type Slot = Option<Training>

  type Overrides = Option<(Pid, set<Cause>)>

  predicate IsTerminal(status: Status) {
    status == Done || status == Error || status == Killed
  }

  // ---- deciding to pause ----

  function MemoryShouldPause(level: Level, overridden: bool): bool {
    level == Critical || (level == Warn && !overridden)
  }

  function BatteryShouldPause(onBattery: bool, enabled: bool, overridden: bool): bool {
    enabled && onBattery && !overridden
  }

  function ThermalShouldPause(state: Option<ThermalState>, enabled: bool, overridden: bool): bool {
    enabled && (state == Some(Serious) || state == Some(ThermalCritical)) && !overridden
  }

  /** What one tick measures and reads after it has taken its copy of the overrides. */
  datatype Reading = Reading(
    level: Level,
    onBattery: bool,
    batteryEnabled: bool,
    thermal: Option<ThermalState>,
    thermalEnabled: bool)

  function Decide(r: Reading, overrides: set<Cause>): Option<Cause> {
    if MemoryShouldPause(r.level, MemoryPressure in overrides) then Some(MemoryPressure)
    else if BatteryShouldPause(r.onBattery, r.batteryEnabled, Battery in overrides) then Some(Battery)
    else if ThermalShouldPause(r.thermal, r.thermalEnabled, Thermal in overrides) then Some(Thermal)
    else None
  }

  // ---- critical sections ----

  function Signalled(slot: Slot, pid: Pid, status: Status): Slot {
    if slot.Some? && slot.value.pid == pid && !IsTerminal(slot.value.status) then Some(Training(pid, status))
    else slot
  }

  function WithOverride(overrides: Overrides, pid: Pid, cause: Cause): Overrides {
    if overrides.Some? && overrides.value.0 == pid then Some((pid, overrides.value.1 + {cause}))
    else Some((pid, {cause}))
  }

  function ClearedFor(overrides: Overrides, pid: Pid): Overrides {
    if overrides.Some? && overrides.value.0 == pid then None else overrides
  }

  function ClearedUnless(overrides: Overrides, pid: Pid): Overrides {
    if overrides.Some? && overrides.value.0 != pid then None else overrides
  }

  function Active(overrides: Overrides, pid: Pid): set<Cause> {
    if overrides.Some? && overrides.value.0 == pid then overrides.value.1 else {}
  }

  /** The state behind the locks. */
  class GuardrailState {
    var training: Slot
    var resumeOverrides: Overrides

    constructor ()
      ensures training == None && resumeOverrides == None
    {
      training, resumeOverrides := None, None;
    }

    method ApplySignalTransition(pid: Pid, status: Status)
      modifies this`training
      ensures training == Signalled(old(training), pid, status)
    {
      match training {
        case Some(t) =>
          if t.pid == pid && !IsTerminal(t.status) {
            training := Some(t.(status := status));
          }
        case None =>
      }
    }

    /** The slot read and the override insert of a manual resume. */
    method BeginResume() returns (pid: Option<Pid>)
      modifies this`resumeOverrides
      ensures pid == (if training.Some? && (training.value.status.Paused? || training.value.status.PausedFor?)
                      then Some(training.value.pid) else None)
      ensures resumeOverrides ==
              if training.Some? && training.value.status.PausedFor?
              then WithOverride(old(resumeOverrides), training.value.pid, training.value.status.cause)
              else old(resumeOverrides)
    {
      if training.None? || !(training.value.status.Paused? || training.value.status.PausedFor?) {
        return None;
      }
      var t := training.value;
      if t.status.PausedFor? {
        match resumeOverrides {
          case Some((stored, causes)) =>
            if stored == t.pid {
              resumeOverrides := Some((stored, causes + {t.status.cause}));
            } else {
              resumeOverrides := Some((t.pid, {t.status.cause}));
            }
          case None => resumeOverrides := Some((t.pid, {t.status.cause}));
        }
      }
      return Some(t.pid);
    }

    method ClearOverridesFor(pid: Pid)
      modifies this`resumeOverrides
      ensures resumeOverrides == ClearedFor(old(resumeOverrides), pid)
    {
      if resumeOverrides.Some? && resumeOverrides.value.0 == pid {
        resumeOverrides := None;
      }
    }

    method ClearOverridesIfNot(pid: Pid)
      modifies this`resumeOverrides
      ensures resumeOverrides == ClearedUnless(old(resumeOverrides), pid)
    {
      if resumeOverrides.Some? && resumeOverrides.value.0 != pid {
        resumeOverrides := None;
      }
    }

    method ActiveOverrides(pid: Pid) returns (causes: set<Cause>)
      ensures causes == Active(resumeOverrides, pid)
    {
      if resumeOverrides.Some? && resumeOverrides.value.0 == pid {
        return resumeOverrides.value.1;
      }
      return {};
    }
  }

  // ---- runs ----

  /** Where a training's guardrail loop stands. */
  datatype Phase =
    | Starting
    | Ticking
    | SawRunning
    | Copied(overrides: set<Cause>)
    | Stopped(cause: Cause, level: Level)
    | Ended

  datatype Event = Resumed(pid: Pid, cause: Cause) | AutoPaused(pid: Pid, cause: Cause, level: Level)

  datatype State = State(
    slot: Slot,
    before: Option<Slot>,
    overrides: Overrides,
    loops: map<Pid, Phase>,
    pausing: multiset<Pid>,
    resuming: multiset<Pid>,
    log: seq<Event>)

  const INITIAL := State(None, None, None, map[], multiset{}, multiset{}, [])

  datatype Step =
    | Reserve
    | Commit(pid: Pid)
    | Abort
    | Finish(outcome: Status)
    | LoopStart(pid: Pid)
    | LoopTick(pid: Pid)
    | LoopCopy(pid: Pid)
    | LoopMeasure(pid: Pid, reading: Reading, signalled: bool)
    | LoopApply(pid: Pid)
    | BeginPause(signalled: bool)
    | EndPause(pid: Pid)
    | StartResume(signalled: bool)
    | EndResume(pid: Pid)

  predicate SlotIs(s: State, pid: Pid) {
    s.slot.Some? && s.slot.value.pid == pid
  }

  predicate Live(s: State, pid: Pid) {
    SlotIs(s, pid) && !IsTerminal(s.slot.value.status)
  }

  predicate CanTake(s: State, step: Step) {
    match step
    // A start takes the slot with pid 0 unless a training is in progress, then fills in the child's
    // pid or puts back what was there. The operating system hands out pids not used before.
    case Reserve => s.before.None? && (s.slot.None? || IsTerminal(s.slot.value.status))
    case Commit(pid) => s.before.Some? && pid != 0 && pid !in s.loops
    case Abort => s.before.Some?
    // The training ends, is killed or fails, at any time.
    case Finish(outcome) => s.slot.Some? && s.slot.value.pid != 0 && IsTerminal(outcome)
    case LoopStart(pid) => pid in s.loops && s.loops[pid].Starting?
    case LoopTick(pid) => pid in s.loops && s.loops[pid].Ticking?
    case LoopCopy(pid) => pid in s.loops && s.loops[pid].SawRunning?
    case LoopMeasure(pid, _, _) => pid in s.loops && s.loops[pid].Copied?
    case LoopApply(pid) => pid in s.loops && s.loops[pid].Stopped?
    case BeginPause(_) => s.slot.Some? && s.slot.value.status == Running
    case EndPause(pid) => pid in s.pausing
    case StartResume(_) => s.slot.Some? && (s.slot.value.status.Paused? || s.slot.value.status.PausedFor?)
    case EndResume(pid) => pid in s.resuming
  }

  function Tick(s: State, pid: Pid): State {
    if !SlotIs(s, pid) || IsTerminal(s.slot.value.status) then
      s.(loops := s.loops[pid := Ended], overrides := ClearedFor(s.overrides, pid))
    else if s.slot.value.status == Running then s.(loops := s.loops[pid := SawRunning])
    else s
  }

  function Measure(s: State, pid: Pid, r: Reading, signalled: bool): State
    requires pid in s.loops && s.loops[pid].Copied?
  {
    match Decide(r, s.loops[pid].overrides)
    case Some(cause) => s.(loops := s.loops[pid := if signalled then Stopped(cause, r.level) else Ticking])
    case None => s.(loops := s.loops[pid := Ticking])
  }

  function ApplyPause(s: State, pid: Pid): State
    requires pid in s.loops && s.loops[pid].Stopped?
  {
    var phase := s.loops[pid];
    s.(slot := Signalled(s.slot, pid, PausedFor(phase.cause)),
       loops := s.loops[pid := Ticking],
       log := if Live(s, pid) then s.log + [AutoPaused(pid, phase.cause, phase.level)] else s.log)
  }

  function Resume(s: State, signalled: bool): State
    requires s.slot.Some?
  {
    var t := s.slot.value;
    var recorded := if t.status.PausedFor?
                    then s.(overrides := WithOverride(s.overrides, t.pid, t.status.cause),
                            log := s.log + [Resumed(t.pid, t.status.cause)])
                    else s;
    if signalled && t.pid != 0 then recorded.(resuming := s.resuming + multiset{t.pid}) else recorded
  }

  function Take(s: State, step: Step): State
    requires CanTake(s, step)
  {
    match step
    case Reserve => s.(before := Some(s.slot), slot := Some(Training(0, Running)))
    case Commit(pid) => s.(before := None, slot := Some(Training(pid, Running)), loops := s.loops[pid := Starting])
    case Abort => s.(before := None, slot := s.before.value)
    case Finish(outcome) => s.(slot := Some(s.slot.value.(status := outcome)))
    case LoopStart(pid) => s.(loops := s.loops[pid := Ticking], overrides := ClearedUnless(s.overrides, pid))
    case LoopTick(pid) => Tick(s, pid)
    case LoopCopy(pid) => s.(loops := s.loops[pid := Copied(Active(s.overrides, pid))])
    case LoopMeasure(pid, reading, signalled) => Measure(s, pid, reading, signalled)
    case LoopApply(pid) => ApplyPause(s, pid)
    case BeginPause(signalled) =>
      if signalled && s.slot.value.pid != 0 then s.(pausing := s.pausing + multiset{s.slot.value.pid}) else s
    case EndPause(pid) => s.(pausing := s.pausing - multiset{pid}, slot := Signalled(s.slot, pid, Paused))
    case StartResume(signalled) => Resume(s, signalled)
    case EndResume(pid) => s.(resuming := s.resuming - multiset{pid}, slot := Signalled(s.slot, pid, Running))
  }

  /** A loop's first step, run late, would wipe the overrides of another training in progress. */
  predicate WipesOverrides(s: State, step: Step) {
    && step.LoopStart?
    && s.overrides.Some? && s.overrides.value.0 != step.pid && Live(s, s.overrides.value.0)
  }

  /** Nothing on the way can set the slot running but a manual resume, which records this very cause. */
  predicate Excused(s: State, cause: Cause) {
    && s.slot.Some? && s.slot.value.status == PausedFor(cause)
    && s.slot.value.pid !in s.pausing && s.slot.value.pid !in s.resuming
  }

  /** It does harm when it wipes a cause that the next resume would not record again. */
  predicate Harmful(s: State, step: Step) {
    WipesOverrides(s, step) && exists cause :: cause in s.overrides.value.1 && !Excused(s, cause)
  }

  /** The state after some steps, when each can be taken in turn. */
  function Run(s: State, steps: seq<Step>): Option<State>
    decreases |steps|
  {
    if steps == [] then Some(s)
    else if CanTake(s, steps[0]) then Run(Take(s, steps[0]), steps[1..])
    else None
  }

  /** Whether these steps can be taken in turn and none of them does harm. */
  predicate Harmless(s: State, steps: seq<Step>)
    decreases |steps|
  {
    steps == []
    || (CanTake(s, steps[0]) && !Harmful(s, steps[0]) && Harmless(Take(s, steps[0]), steps[1..]))
  }

  // ---- the invariant ----

  predicate WasResumed(log: seq<Event>, pid: Pid, cause: Cause) {
    Resumed(pid, cause) in log
  }

  /** Slot and pids: pid 0 only while a start is under way, over a slot that was free. */
  ghost predicate SlotsOk(s: State) {
    && (s.before.Some? ==> s.slot == Some(Training(0, Running))
                           && (s.before.value.Some? ==> IsTerminal(s.before.value.value.status)
                                                        && s.before.value.value.pid in s.loops))
    && (s.before.None? && s.slot.Some? ==> s.slot.value.pid in s.loops)
    && 0 !in s.loops && 0 !in s.pausing && 0 !in s.resuming
    && forall e :: e in s.log ==> e.pid in s.loops
  }

  /** The overrides of the training in progress hold every cause it was manually resumed from, but an excused one. */
  ghost predicate OverridesKept(s: State) {
    s.slot.Some? && !IsTerminal(s.slot.value.status) ==>
      forall cause :: WasResumed(s.log, s.slot.value.pid, cause) ==>
        cause in Active(s.overrides, s.slot.value.pid) || Excused(s, cause)
  }

  /** The loop of a training in progress still runs. */
  ghost predicate LoopsAlive(s: State) {
    forall pid :: pid in s.loops && s.loops[pid].Ended? ==> !Live(s, pid)
  }

  /** Overrides, stored or copied, come only from that pid's own manual resumes. */
  ghost predicate OverridesEarned(s: State) {
    && (s.overrides.Some? ==>
          forall cause :: cause in s.overrides.value.1 ==> WasResumed(s.log, s.overrides.value.0, cause))
    && forall pid, cause :: pid in s.loops && s.loops[pid].Copied? && cause in s.loops[pid].overrides ==>
         WasResumed(s.log, pid, cause)
  }

  /** While a loop is past its check, nobody else marks its training paused for a cause. */
  ghost predicate MidTickNotPaused(s: State) {
    forall pid :: pid in s.loops && (s.loops[pid].SawRunning? || s.loops[pid].Copied? || s.loops[pid].Stopped?) ==>
      !(SlotIs(s, pid) && s.slot.value.status.PausedFor?)
  }

  ghost predicate CopiesKept(s: State) {
    forall pid, cause :: pid in s.loops && s.loops[pid].Copied? && WasResumed(s.log, pid, cause) && Live(s, pid) ==>
      cause in s.loops[pid].overrides
  }

  predicate Allowed(cause: Cause, level: Level) {
    cause == MemoryPressure && level == Critical
  }

  ghost predicate StopsAllowed(s: State) {
    forall pid ::
      pid in s.loops && s.loops[pid].Stopped? && WasResumed(s.log, pid, s.loops[pid].cause) && Live(s, pid) ==>
      Allowed(s.loops[pid].cause, s.loops[pid].level)
  }

  /** An auto-pause for a cause its training was resumed from before, other than critical memory pressure. */
  predicate Wronged(earlier: Event, later: Event) {
    earlier.Resumed? && later.AutoPaused? && earlier.pid == later.pid && earlier.cause == later.cause
    && !Allowed(later.cause, later.level)
  }

  /** No training is auto-paused for a cause it was resumed from before, but for critical memory pressure. */
  ghost predicate LogOk(log: seq<Event>) {
    forall i, j :: 0 <= i < j < |log| ==> !Wronged(log[i], log[j])
  }

  ghost predicate Inv(s: State) {
    && SlotsOk(s) && LoopsAlive(s) && OverridesKept(s) && OverridesEarned(s)
    && MidTickNotPaused(s) && CopiesKept(s) && StopsAllowed(s) && LogOk(s.log)
  }

  lemma StepKeepsInv(s: State, step: Step)
    requires Inv(s) && CanTake(s, step) && !Harmful(s, step)
    ensures Inv(Take(s, step))
  {
    match step {
      case Reserve | Commit(_) | Abort | Finish(_) => SlotStep(s, step);
      case LoopStart(pid) => StartStep(s, pid);
      case LoopTick(pid) => TickStep(s, pid);
      case LoopCopy(_) | LoopMeasure(_, _, _) => LoopStep(s, step);
      case LoopApply(pid) => ApplyStep(s, pid);
      case StartResume(signalled) => ResumeStep(s, signalled);
      case BeginPause(_) | EndPause(_) | EndResume(_) => SignalStep(s, step);
    }
  }

  lemma SlotStep(s: State, step: Step)
    requires Inv(s) && CanTake(s, step) && (step.Reserve? || step.Commit? || step.Abort? || step.Finish?)
    ensures Inv(Take(s, step))
  {
    hide LogOk;
  }

  lemma StartStep(s: State, pid: Pid)
    requires Inv(s) && CanTake(s, LoopStart(pid)) && !Harmful(s, LoopStart(pid))
    ensures Inv(Take(s, LoopStart(pid)))
  {
    hide LogOk;
  }

  lemma TickStep(s: State, pid: Pid)
    requires Inv(s) && CanTake(s, LoopTick(pid))
    ensures Inv(Take(s, LoopTick(pid)))
  {
    hide LogOk;
  }

  lemma LoopStep(s: State, step: Step)
    requires Inv(s) && CanTake(s, step) && (step.LoopCopy? || step.LoopMeasure?)
    ensures Inv(Take(s, step))
  {
    hide LogOk;
  }

  lemma ApplyStep(s: State, pid: Pid)
    requires Inv(s) && CanTake(s, LoopApply(pid))
    ensures Inv(Take(s, LoopApply(pid)))
  {
  }

  lemma ResumeStep(s: State, signalled: bool)
    requires Inv(s) && CanTake(s, StartResume(signalled))
    ensures Inv(Take(s, StartResume(signalled)))
  {
    var t := s.slot.value;
    if t.status.PausedFor? {
      var log := s.log + [Resumed(t.pid, t.status.cause)];
      assert forall pid, cause :: WasResumed(log, pid, cause) <==>
               WasResumed(s.log, pid, cause) || (pid == t.pid && cause == t.status.cause);
    }
  }

  lemma SignalStep(s: State, step: Step)
    requires Inv(s) && CanTake(s, step) && (step.BeginPause? || step.EndPause? || step.EndResume?)
    ensures Inv(Take(s, step))
  {
    hide LogOk, WasResumed, Active;
    var s' := Take(s, step);
    assert SlotsOk(s');
    assert forall cause :: Excused(s, cause) ==> Excused(s', cause);
    OnlySignalled(s, s');
  }

  /** Marking the live training running or paused by hand, and nothing else, keeps the invariant. */
  lemma OnlySignalled(s: State, s': State)
    requires Inv(s) && SlotsOk(s')
    requires s'.log == s.log && s'.loops == s.loops && s'.overrides == s.overrides
    requires s'.slot == s.slot
             || (s.slot.Some? && s'.slot.Some? && s'.slot.value.pid == s.slot.value.pid
                 && !IsTerminal(s.slot.value.status) && !s'.slot.value.status.PausedFor?)
    requires forall cause :: Excused(s, cause) ==> Excused(s', cause)
    ensures Inv(s')
  {
    hide LogOk, WasResumed, Active, SlotsOk, Allowed, Excused;
    assert forall pid :: SlotIs(s', pid) <==> SlotIs(s, pid);
    assert forall pid :: Live(s', pid) ==> Live(s, pid);
  }

  // ---- what holds over every run ----

  lemma {:induction false} RunKeepsInv(s: State, steps: seq<Step>)
    requires Inv(s) && Harmless(s, steps)
    ensures Run(s, steps).Some? && Inv(Run(s, steps).value)
    decreases |steps|
  {
    hide Inv, Take, CanTake, Harmful;
    if steps != [] {
      StepKeepsInv(s, steps[0]);
      RunKeepsInv(Take(s, steps[0]), steps[1..]);
    }
  }

  /**
   In every run without a harmful step, once a training was manually resumed from a battery or thermal
   pause it is not auto-paused for that cause again, and after a memory pause only critical pressure
   pauses it again.
   */
  lemma NoRepeatedPause(steps: seq<Step>, s: State, i: nat, j: nat)
    requires Harmless(INITIAL, steps) && Run(INITIAL, steps) == Some(s)
    requires i < j < |s.log| && s.log[i].Resumed? && s.log[j].AutoPaused?
    requires s.log[i].pid == s.log[j].pid && s.log[i].cause == s.log[j].cause
    ensures s.log[j].cause == MemoryPressure && s.log[j].level == Critical
  {
    RunKeepsInv(INITIAL, steps);
    hide Run, Harmless;
    assert !Wronged(s.log[i], s.log[j]);
  }

  lemma EarnedKept(s: State, step: Step)
    requires OverridesEarned(s) && CanTake(s, step)
    ensures OverridesEarned(Take(s, step))
  {
    match step {
      case LoopStart(_) | LoopTick(_) | LoopCopy(_) | LoopMeasure(_, _, _) | LoopApply(_) => LoopKeepsEarned(s, step);
      case _ => OthersKeepEarned(s, step);
    }
  }

  lemma LoopKeepsEarned(s: State, step: Step)
    requires OverridesEarned(s) && CanTake(s, step)
    requires step.LoopStart? || step.LoopTick? || step.LoopCopy? || step.LoopMeasure? || step.LoopApply?
    ensures OverridesEarned(Take(s, step))
  {
    LogGrows(s, step);
    hide WasResumed, Decide, Signalled, Live, SlotIs, WithOverride;
  }

  lemma OthersKeepEarned(s: State, step: Step)
    requires OverridesEarned(s) && CanTake(s, step)
    requires !step.LoopStart? && !step.LoopTick? && !step.LoopCopy? && !step.LoopMeasure? && !step.LoopApply?
    ensures OverridesEarned(Take(s, step))
  {
    LogGrows(s, step);
    hide WasResumed, Decide, Signalled, Live, SlotIs;
    if step.StartResume? {
      ResumeEarns(s, step.signalled);
    }
  }

  lemma LogGrows(s: State, step: Step)
    requires CanTake(s, step)
    ensures forall pid, cause :: WasResumed(s.log, pid, cause) ==> WasResumed(Take(s, step).log, pid, cause)
  {
    hide Decide;
  }

  lemma ResumeEarns(s: State, signalled: bool)
    requires CanTake(s, StartResume(signalled))
    ensures var status := s.slot.value.status;
            status.PausedFor? ==> WasResumed(Take(s, StartResume(signalled)).log, s.slot.value.pid, status.cause)
  {
    if s.slot.value.status.PausedFor? {
      assert Take(s, StartResume(signalled)).log[|s.log|] == Resumed(s.slot.value.pid, s.slot.value.status.cause);
    }
  }

  lemma {:induction false} RunKeepsEarned(s: State, steps: seq<Step>)
    requires OverridesEarned(s) && Run(s, steps).Some?
    ensures OverridesEarned(Run(s, steps).value)
    decreases |steps|
  {
    hide OverridesEarned, Take, CanTake;
    if steps != [] {
      EarnedKept(s, steps[0]);
      RunKeepsEarned(Take(s, steps[0]), steps[1..]);
    }
  }

  /**
   In every run, harmful or not, a pause is held back only by a manual resume of that very training from
   that cause.
   */
  lemma OverridesStayWithTheirTraining(steps: seq<Step>, s: State, pid: Pid, r: Reading)
    requires Run(INITIAL, steps) == Some(s)
    requires pid in s.loops && s.loops[pid].Copied?
    requires Decide(r, s.loops[pid].overrides) != Decide(r, {})
    ensures Decide(r, {}).Some? && WasResumed(s.log, pid, Decide(r, {}).value)
  {
    RunKeepsEarned(INITIAL, steps);
    hide Run;
  }

  /** The steps of pausing, resuming and the loops: all but a training's start and end. */
  predicate IsGuardrailStep(step: Step) {
    !step.Reserve? && !step.Commit? && !step.Abort? && !step.Finish?
  }

  /** No run of pauses, resumes and loop steps touches a slot whose training is done, failed or was killed. */
  lemma {:induction false} TerminalStatusStays(s: State, steps: seq<Step>)
    requires s.slot.Some? && Run(s, steps).Some?
    requires s.slot.value.status == Done || s.slot.value.status == Error || s.slot.value.status == Killed
    requires forall i :: 0 <= i < |steps| ==> IsGuardrailStep(steps[i])
    ensures Run(s, steps).value.slot == s.slot
    decreases |steps|
  {
    if steps != [] {
      assert IsGuardrailStep(steps[0]);
      TerminalStatusStays(Take(s, steps[0]), steps[1..]);
    }
  }

  /** Through the same steps a live slot keeps its pid and stays live. */
  lemma {:induction false} LiveSlotStaysLive(s: State, steps: seq<Step>, pid: Pid)
    requires Live(s, pid) && Run(s, steps).Some?
    requires forall i :: 0 <= i < |steps| ==> IsGuardrailStep(steps[i])
    ensures Live(Run(s, steps).value, pid)
    decreases |steps|
  {
    hide Take, CanTake, Live, IsGuardrailStep;
    if steps != [] {
      assert IsGuardrailStep(steps[0]);
      LiveAfterStep(s, steps[0], pid);
      LiveSlotStaysLive(Take(s, steps[0]), steps[1..], pid);
    }
  }

  lemma LiveAfterStep(s: State, step: Step, pid: Pid)
    requires CanTake(s, step) && Live(s, pid) && IsGuardrailStep(step)
    ensures Live(Take(s, step), pid)
  {
    hide Decide, Active, WithOverride, ClearedFor, ClearedUnless;
  }

  // ---- what a tick does ----

  /** The state after one undisturbed tick whose stop signal, if any, reaches the process. */
  function AfterTick(s: State, pid: Pid, r: Reading): State
    requires s.slot == Some(Training(pid, Running)) && pid in s.loops && s.loops[pid].Ticking?
  {
    var seen := Take(s, LoopTick(pid));
    var copied := Take(seen, LoopCopy(pid));
    var measured := Take(copied, LoopMeasure(pid, r, true));
    if CanTake(measured, LoopApply(pid)) then Take(measured, LoopApply(pid)) else measured
  }

  /** At critical memory pressure a tick pauses, whatever was resumed before. */
  lemma CriticalPauses(s: State, pid: Pid, r: Reading)
    requires s.slot == Some(Training(pid, Running)) && pid in s.loops && s.loops[pid].Ticking?
    requires r.level == Critical
    ensures var steps := [LoopTick(pid), LoopCopy(pid), LoopMeasure(pid, r, true), LoopApply(pid)];
            Run(s, steps).Some? && Run(s, steps).value.slot == Some(Training(pid, PausedFor(MemoryPressure)))
  {
    TickDecided(s, pid, r);
    hide Run, Decide, Active;
    var s1 := Take(s, LoopTick(pid));
    var s2 := Take(s1, LoopCopy(pid));
    var s3 := Take(s2, LoopMeasure(pid, r, true));
    var s4 := Take(s3, LoopApply(pid));
    hide Take, CanTake;
    EmptyRun(s4);
    RunFirst(s3, LoopApply(pid), []);
    RunFirst(s2, LoopMeasure(pid, r, true), [LoopApply(pid)] + []);
    RunFirst(s1, LoopCopy(pid), [LoopMeasure(pid, r, true)] + ([LoopApply(pid)] + []));
    RunFirst(s, LoopTick(pid), [LoopCopy(pid)] + ([LoopMeasure(pid, r, true)] + ([LoopApply(pid)] + [])));
    assert [LoopTick(pid)] + ([LoopCopy(pid)] + ([LoopMeasure(pid, r, true)] + ([LoopApply(pid)] + [])))
        == [LoopTick(pid), LoopCopy(pid), LoopMeasure(pid, r, true), LoopApply(pid)];
  }

  lemma TickDecided(s: State, pid: Pid, r: Reading)
    requires s.slot == Some(Training(pid, Running)) && pid in s.loops && s.loops[pid].Ticking?
    ensures var decision := Decide(r, Active(s.overrides, pid));
            var t := AfterTick(s, pid, r);
            && t.slot == Some(Training(pid, if decision.Some? then PausedFor(decision.value) else Running))
            && t.loops == s.loops
            && (decision.Some? ==> CanTake(Take(Take(Take(s, LoopTick(pid)), LoopCopy(pid)), LoopMeasure(pid, r, true)),
                                           LoopApply(pid)))
    ensures r.level == Critical ==> Decide(r, Active(s.overrides, pid)) == Some(MemoryPressure)
  {
    assert r.level == Critical ==> Decide(r, Active(s.overrides, pid)) == Some(MemoryPressure);
    hide Decide, Active;
    assert AfterTick(s, pid, r).loops == s.loops;
  }

  /**
   A tick of a running training pauses it for memory pressure at a critical level, or at a warning unless
   it was resumed from such a pause; else on battery, when that pause is switched on, unless it was resumed
   from it; else at a serious or critical heat under the same two conditions; and else it runs on.
   */
  lemma TickPausesIff(s: State, pid: Pid, r: Reading)
    requires Inv(s) && s.slot == Some(Training(pid, Running)) && pid in s.loops && s.loops[pid].Ticking?
    ensures var memory := r.level == Critical || (r.level == Warn && Resumed(pid, MemoryPressure) !in s.log);
            var battery := r.batteryEnabled && r.onBattery && Resumed(pid, Battery) !in s.log;
            var hot := r.thermal == Some(Serious) || r.thermal == Some(ThermalCritical);
            var thermal := r.thermalEnabled && hot && Resumed(pid, Thermal) !in s.log;
            var t := AfterTick(s, pid, r);
            && t.slot.Some? && t.slot.value.pid == pid && t.loops == s.loops
            && (t.slot.value.status == PausedFor(MemoryPressure) <==> memory)
            && (t.slot.value.status == PausedFor(Battery) <==> !memory && battery)
            && (t.slot.value.status == PausedFor(Thermal) <==> !memory && !battery && thermal)
            && (t.slot.value.status == Running <==> !memory && !battery && !thermal)
  {
    ResumedAreActive(s, pid);
    TickDecided(s, pid, r);
    hide Inv, Active, AfterTick, Take, CanTake;
  }

  /** The overrides of a running training are exactly the causes it was manually resumed from. */
  lemma ResumedAreActive(s: State, pid: Pid)
    requires Inv(s) && s.slot == Some(Training(pid, Running))
    ensures forall cause :: cause in Active(s.overrides, pid) <==> Resumed(pid, cause) in s.log
  {
    hide LogOk, CopiesKept, MidTickNotPaused, StopsAllowed, LoopsAlive, SlotsOk;
    assert forall cause :: WasResumed(s.log, pid, cause) <==> Resumed(pid, cause) in s.log;
  }

  /** A tick of a loop whose training has ended or was replaced ends the loop and drops its own overrides only. */
  lemma TickEndsLoop(s: State, pid: Pid)
    requires CanTake(s, LoopTick(pid)) && !Live(s, pid)
    ensures var t := Take(s, LoopTick(pid));
            && t == s.(loops := s.loops[pid := Ended], overrides := t.overrides)
            && Active(t.overrides, pid) == {}
            && forall other :: other != pid ==> Active(t.overrides, other) == Active(s.overrides, other)
  {
  }

  /** A signal that does not reach the process changes no status, whoever wanted to send it. */
  lemma MissedSignals(s: State, pid: Pid, r: Reading)
    ensures CanTake(s, LoopMeasure(pid, r, false)) ==>
              Take(s, LoopMeasure(pid, r, false)) == s.(loops := s.loops[pid := Ticking])
    ensures CanTake(s, BeginPause(false)) ==> Take(s, BeginPause(false)) == s
    ensures CanTake(s, StartResume(false)) ==>
              var t := Take(s, StartResume(false)); t == s.(overrides := t.overrides, log := t.log)
  {
    hide Decide;
  }

  /** A start over an ended training either runs under its child's pid or leaves the slot as it was. */
  lemma StartOrAbort(s: State, pid: Pid)
    requires s.before.None? && pid != 0 && pid !in s.loops
    ensures Run(s, [Reserve, Abort]) == (if s.slot.Some? && Live(s, s.slot.value.pid) then None else Some(s))
    ensures Run(s, [Reserve, Commit(pid)])
         == (if s.slot.Some? && Live(s, s.slot.value.pid) then None
             else Some(s.(slot := Some(Training(pid, Running)), loops := s.loops[pid := Starting])))
  {
    RunTwo(s, Reserve, Abort);
    RunTwo(s, Reserve, Commit(pid));
    hide Run;
  }

  /** A pause by hand is for a running training alone, and stops it. */
  lemma PauseByHand(s: State, pid: Pid)
    requires s.slot.Some? && s.slot.value.pid == pid != 0
    ensures var t := Run(s, [BeginPause(true), EndPause(pid)]);
            if s.slot.value.status == Running then t == Some(s.(slot := Some(Training(pid, Paused)))) else t == None
  {
    RunTwo(s, BeginPause(true), EndPause(pid));
    hide Run;
    if CanTake(s, BeginPause(true)) {
      assert Take(Take(s, BeginPause(true)), EndPause(pid)).pausing == s.pausing;
    }
  }

  /** A resume by hand is for a paused training alone, and sets it running. */
  lemma ResumeByHand(s: State, pid: Pid)
    requires s.slot.Some? && s.slot.value.pid == pid != 0
    ensures var t := Run(s, [StartResume(true), EndResume(pid)]);
            if s.slot.value.status.Paused? || s.slot.value.status.PausedFor?
            then t.Some? && t.value.slot == Some(Training(pid, Running)) && t.value.loops == s.loops
            else t == None
  {
    RunTwo(s, StartResume(true), EndResume(pid));
    hide Run, WithOverride;
  }

  lemma RunTwo(s: State, a: Step, b: Step)
    ensures Run(s, [a, b]) ==
            if CanTake(s, a) && CanTake(Take(s, a), b) then Some(Take(Take(s, a), b)) else None
  {
    hide CanTake, Take;
    assert [a, b][1..] == [b] && [b][1..] == [];
    if CanTake(s, a) {
      assert Run(s, [a, b]) == Run(Take(s, a), [b]);
    }
  }

  // ---- exactly which first steps do harm ----

  /** These steps can be taken, do no harm, and lead there. */
  ghost predicate Leads(s: State, steps: seq<Step>, t: State) {
    Harmless(s, steps) && Run(s, steps) == Some(t)
  }

  lemma LeadsOne(s: State, step: Step)
    requires CanTake(s, step) && !Harmful(s, step)
    ensures Leads(s, [step], Take(s, step))
  {
    hide Take, CanTake, Harmful;
    assert [step][1..] == [];
    LeadsNowhere(Take(s, step));
  }

  lemma LeadsNowhere(s: State)
    ensures Leads(s, [], s)
  {
  }

  lemma {:induction false} LeadsOn(s: State, a: seq<Step>, t: State, b: seq<Step>, u: State)
    requires Leads(s, a, t) && Leads(t, b, u)
    ensures Leads(s, a + b, u)
    decreases |a|
  {
    hide Take, CanTake, Harmful;
    if a == [] {
      assert a + b == b;
    } else {
      assert (a + b)[1..] == a[1..] + b && (a + b)[0] == a[0];
      LeadsOn(Take(s, a[0]), a[1..], t, b, u);
    }
  }

  /** One more step at the end of a way. */
  lemma ThenStep(s: State, steps: seq<Step>, t: State, step: Step) returns (more: seq<Step>, u: State)
    requires Leads(s, steps, t) && CanTake(t, step) && !Harmful(t, step)
    ensures u == Take(t, step) && more == steps + [step] && Leads(s, more, u)
  {
    hide *;
    u, more := Take(t, step), steps + [step];
    LeadsOne(t, step);
    LeadsOn(s, steps, t, [step], u);
  }

  /** A training in progress whose resume from a cause is on record but not among the overrides. */
  ghost predicate Forgotten(s: State, pid: Pid, cause: Cause) {
    && Live(s, pid) && pid != 0 && pid in s.loops && !s.loops[pid].Ended?
    && WasResumed(s.log, pid, cause)
    && (s.overrides.None? || (s.overrides.value.0 == pid && cause !in s.overrides.value.1))
    && (s.loops[pid].SawRunning? || s.loops[pid].Copied? || s.loops[pid].Stopped? ==>
          !s.slot.value.status.PausedFor?)
  }

  /** After a harmful first step some resume of the training in progress is forgotten. */
  lemma HarmForgets(s: State, pid: Pid) returns (other: Pid, cause: Cause)
    requires Inv(s) && CanTake(s, LoopStart(pid)) && Harmful(s, LoopStart(pid))
    ensures var t := Take(s, LoopStart(pid)); Forgotten(t, other, cause) && !Excused(t, cause)
  {
    hide LogOk, OverridesKept, CopiesKept, StopsAllowed;
    cause :| cause in s.overrides.value.1 && !Excused(s, cause);
    other := s.overrides.value.0;
    assert Resumed(other, cause) in s.log;
  }

  lemma EndsPause(s: State, pid: Pid, cause: Cause)
    requires Forgotten(s, pid, cause) && pid in s.pausing
    ensures CanTake(s, EndPause(pid)) && !Harmful(s, EndPause(pid))
    ensures var t := Take(s, EndPause(pid));
            Forgotten(t, pid, cause) && t.slot.value.status == Paused && t.loops == s.loops && t.log == s.log
  {
    hide WasResumed;
  }

  lemma StartsResume(s: State, pid: Pid, cause: Cause)
    requires Forgotten(s, pid, cause) && s.slot.value.status != Running && s.slot.value.status != PausedFor(cause)
    ensures CanTake(s, StartResume(true)) && !Harmful(s, StartResume(true))
    ensures var t := Take(s, StartResume(true));
            Forgotten(t, pid, cause) && pid in t.resuming && t.loops == s.loops && s.log <= t.log
  {
    assert IsTerminal(s.slot.value.status) || s.slot.value.status.Paused? || s.slot.value.status.PausedFor?;
  }

  lemma EndsResume(s: State, pid: Pid, cause: Cause)
    requires Forgotten(s, pid, cause) && pid in s.resuming
    ensures CanTake(s, EndResume(pid)) && !Harmful(s, EndResume(pid))
    ensures var t := Take(s, EndResume(pid));
            Forgotten(t, pid, cause) && t.slot.value.status == Running && t.loops == s.loops && t.log == s.log
  {
    hide WasResumed;
  }

  /** Resumed by hand and running again. */
  lemma ResumesForgotten(s: State, pid: Pid, cause: Cause) returns (steps: seq<Step>, t: State)
    requires Forgotten(s, pid, cause) && s.slot.Some?
    requires s.slot.value.status != Running && s.slot.value.status != PausedFor(cause)
    ensures Leads(s, steps, t) && Forgotten(t, pid, cause) && t.loops == s.loops && s.log <= t.log
    ensures t.slot.Some? && t.slot.value.status == Running
  {
    hide *;
    LeadsNowhere(s);
    StartsResume(s, pid, cause);
    steps, t := ThenStep(s, [], s, StartResume(true));
    EndsResume(t, pid, cause);
    steps, t := ThenStep(s, steps, t, EndResume(pid));
    IsThere(t, pid, cause);
  }

  lemma IsThere(s: State, pid: Pid, cause: Cause)
    requires Forgotten(s, pid, cause)
    ensures s.slot.Some? && pid in s.loops
  {
  }

  /** A way to the same training, running, with the resume still forgotten. */
  lemma RunsForgotten(s: State, pid: Pid, cause: Cause) returns (steps: seq<Step>, t: State)
    requires Forgotten(s, pid, cause) && !Excused(s, cause)
    ensures Leads(s, steps, t) && Forgotten(t, pid, cause) && s.log <= t.log
    ensures t.slot.Some? && t.slot.value.status == Running
  {
    hide Run, Harmless, Leads, Take, CanTake, Harmful;
    LeadsNowhere(s);
    steps, t := [], s;
    var status := s.slot.value.status;
    if status == PausedFor(cause) {
      if pid in s.resuming {
        EndsResume(s, pid, cause);
        steps, t := ThenStep(s, steps, t, EndResume(pid));
        return;
      }
      EndsPause(s, pid, cause);
      steps, t := ThenStep(s, steps, t, EndPause(pid));
    }
    if t.slot.value.status != Running {
      var more, u := ResumesForgotten(t, pid, cause);
      LeadsOn(s, steps, t, more, u);
      steps, t := steps + more, u;
    }
  }

  /** A pause signal that is still under way turns an automatic pause into a manual one. */
  lemma PauseOvertaken(s: State, pid: Pid, cause: Cause) returns (steps: seq<Step>, t: State)
    requires Forgotten(s, pid, cause) && s.slot.value.status == Running && s.loops[pid].Stopped?
    ensures Leads(s, steps, t) && Forgotten(t, pid, cause) && s.log <= t.log
    ensures t.slot.value.status == Paused && t.loops[pid].Ticking?
  {
    hide Run, Harmless, Leads, Decide;
    LeadsNowhere(s);
    steps, t := ThenStep(s, [], s, BeginPause(true));
    assert Forgotten(t, pid, cause) && t.loops == s.loops && pid in t.pausing;
    steps, t := ThenStep(s, steps, t, LoopApply(pid));
    assert Forgotten(t, pid, cause) && pid in t.pausing;
    EndsPause(t, pid, cause);
    hide Take, CanTake;
    steps, t := ThenStep(s, steps, t, EndPause(pid));
  }

  /** A way to the same with the loop between two ticks. */
  lemma TicksForgotten(s: State, pid: Pid, cause: Cause) returns (steps: seq<Step>, t: State)
    requires Forgotten(s, pid, cause) && s.slot.Some? && s.slot.value.status == Running
    ensures Leads(s, steps, t) && Forgotten(t, pid, cause) && s.log <= t.log
    ensures t.slot.Some? && t.slot.value.status == Running && pid in t.loops && t.loops[pid].Ticking?
  {
    hide Run, Harmless, Leads, Decide;
    LeadsNowhere(s);
    steps, t := [], s;
    if s.loops[pid].Starting? {
      steps, t := ThenStep(s, steps, t, LoopStart(pid));
    } else if s.loops[pid].Stopped? {
      steps, t := PauseOvertaken(s, pid, cause);
      var more, u := ResumesForgotten(t, pid, cause);
      LeadsOn(s, steps, t, more, u);
      steps, t := steps + more, u;
    } else if !s.loops[pid].Ticking? {
      steps, t := EndsTick(s, pid, cause);
    }
  }

  lemma EndsTick(s: State, pid: Pid, cause: Cause) returns (steps: seq<Step>, t: State)
    requires Forgotten(s, pid, cause) && s.slot.value.status == Running
    requires s.loops[pid].SawRunning? || s.loops[pid].Copied?
    ensures Leads(s, steps, t) && Forgotten(t, pid, cause) && s.log <= t.log
    ensures t.slot.value.status == Running && t.loops[pid].Ticking?
  {
    hide Run, Harmless, Leads, Decide, WasResumed;
    LeadsNowhere(s);
    steps, t := [], s;
    if s.loops[pid].SawRunning? {
      steps, t := ThenStep(s, steps, t, LoopCopy(pid));
    }
    steps, t := ThenStep(s, steps, t, LoopMeasure(pid, ON_BATTERY, false));
  }

  /** What a tick measures when this cause, short of critical pressure, is the only reason to pause. */
  function ReasonFor(cause: Cause): (r: Reading)
    ensures Decide(r, {}) == Some(cause) && r.level != Critical
    ensures forall overrides: set<Cause> :: cause !in overrides ==> Decide(r, overrides) == Some(cause)
  {
    match cause
    case MemoryPressure => Reading(Warn, false, false, None, false)
    case Battery => ON_BATTERY
    case Thermal => Reading(Normal, false, false, Some(Serious), true)
  }

  /** The next tick pauses for the forgotten cause. */
  lemma PausesForgotten(s: State, pid: Pid, cause: Cause) returns (steps: seq<Step>, t: State)
    requires Forgotten(s, pid, cause) && s.slot.Some? && s.slot.value.status == Running
    requires pid in s.loops && s.loops[pid].Ticking?
    ensures Leads(s, steps, t) && !LogOk(t.log)
  {
    hide Run, Harmless, Leads, Decide;
    LeadsNowhere(s);
    steps, t := [], s;
    steps, t := ThenStep(s, steps, t, LoopTick(pid));
    steps, t := ThenStep(s, steps, t, LoopCopy(pid));
    steps, t := ThenStep(s, steps, t, LoopMeasure(pid, ReasonFor(cause), true));
    assert t.loops[pid] == Stopped(cause, ReasonFor(cause).level);
    steps, t := ThenStep(s, steps, t, LoopApply(pid));
    var i :| 0 <= i < |s.log| && s.log[i] == Resumed(pid, cause);
    assert t.log == s.log + [AutoPaused(pid, cause, ReasonFor(cause).level)];
    assert Wronged(t.log[i], t.log[|s.log|]);
  }

  /** From a state with a forgotten resume there is a way, without further harm, to a repeated pause. */
  lemma ForgottenRepeats(s: State, pid: Pid, cause: Cause) returns (steps: seq<Step>, t: State)
    requires Forgotten(s, pid, cause) && !Excused(s, cause)
    ensures Leads(s, steps, t) && !LogOk(t.log)
  {
    hide *;
    var a, s1 := RunsForgotten(s, pid, cause);
    var b, s2 := TicksForgotten(s1, pid, cause);
    var c, s3 := PausesForgotten(s2, pid, cause);
    LeadsOn(s, a, s1, b, s2);
    LeadsOn(s, a + b, s2, c, s3);
    steps, t := a + b + c, s3;
  }

  /**
   A loop's first step, from any state reached without harm: no run that goes on from it without further
   harm repeats a pause if and only if the step does no harm.
   */
  lemma RepeatedPauseIffHarmful(s: State, pid: Pid)
    requires Inv(s) && CanTake(s, LoopStart(pid))
    ensures var t := Take(s, LoopStart(pid));
            (forall steps :: Harmless(t, steps) ==> Run(t, steps).Some? && LogOk(Run(t, steps).value.log))
            <==> !Harmful(s, LoopStart(pid))
  {
    hide *;
    var t := Take(s, LoopStart(pid));
    if Harmful(s, LoopStart(pid)) {
      var other, cause := HarmForgets(s, pid);
      var steps, u := ForgottenRepeats(t, other, cause);
      LeadsThere(t, steps, u);
    } else {
      StepKeepsInv(s, LoopStart(pid));
      forall steps | Harmless(t, steps)
        ensures Run(t, steps).Some? && LogOk(Run(t, steps).value.log)
      {
        RunKeepsInv(t, steps);
        InvLog(Run(t, steps).value);
      }
    }
  }

  lemma LeadsThere(s: State, steps: seq<Step>, t: State)
    requires Leads(s, steps, t)
    ensures Harmless(s, steps) && Run(s, steps) == Some(t)
  {
  }

  lemma InvLog(s: State)
    requires Inv(s)
    ensures LogOk(s.log)
  {
  }

  /** Every state reached without a harmful step is one that the lemma above speaks of. */
  lemma ReachedWithoutHarm(steps: seq<Step>, s: State)
    requires Harmless(INITIAL, steps) && Run(INITIAL, steps) == Some(s)
    ensures Inv(s)
  {
    RunKeepsInv(INITIAL, steps);
  }

  // ---- the failing run ----

  /** A tick that finds the training running, on battery with the battery pause switched on. */
  const ON_BATTERY := Reading(Normal, true, true, None, false)

  lemma RunFirst(s: State, step: Step, rest: seq<Step>)
    requires CanTake(s, step)
    ensures Run(s, [step] + rest) == Run(Take(s, step), rest)
  {
    assert ([step] + rest)[1..] == rest;
  }

  /** Check, copy, measure, apply. */
  function PauseSteps(pid: Pid, rest: seq<Step>): seq<Step> {
    [LoopTick(pid)] + ([LoopCopy(pid)] + ([LoopMeasure(pid, ON_BATTERY, true)] + ([LoopApply(pid)] + rest)))
  }

  /** One auto-pause for battery. */
  lemma BatteryPause(s: State, pid: Pid, rest: seq<Step>) returns (t: State)
    requires s.slot == Some(Training(pid, Running)) && pid in s.loops && s.loops[pid] == Ticking
    requires Battery !in Active(s.overrides, pid)
    ensures t == s.(slot := Some(Training(pid, PausedFor(Battery))), log := s.log + [AutoPaused(pid, Battery, Normal)])
    ensures Run(s, PauseSteps(pid, rest)) == Run(t, rest)
  {
    var s1 := Take(s, LoopTick(pid));
    var s2 := Take(s1, LoopCopy(pid));
    var s3 := Take(s2, LoopMeasure(pid, ON_BATTERY, true));
    t := Take(s3, LoopApply(pid));
    assert t.loops == s.loops;
    var r3 := [LoopApply(pid)] + rest;
    var r2 := [LoopMeasure(pid, ON_BATTERY, true)] + r3;
    RunFirst(s3, LoopApply(pid), rest);
    RunFirst(s2, LoopMeasure(pid, ON_BATTERY, true), r3);
    RunFirst(s1, LoopCopy(pid), r2);
    RunFirst(s, LoopTick(pid), [LoopCopy(pid)] + r2);
  }

  /** Resumed from battery, then training 1's loop takes its first step, then the next tick. */
  function ResumeThenLateStart(): seq<Step> {
    [StartResume(true)] + ([EndResume(2)] + ([LoopStart(1)] + PauseSteps(2, [])))
  }

  lemma ResumedThenPausedAgain(s: State) returns (t: State)
    requires s.slot == Some(Training(2, PausedFor(Battery))) && s.overrides == None
    requires s.loops == map[1 := Starting, 2 := Ticking] && s.resuming == multiset{}
    ensures Run(s, ResumeThenLateStart()) == Some(t)
    ensures t.log == s.log + [Resumed(2, Battery)] + [AutoPaused(2, Battery, Normal)]
  {
    hide Run;
    var s1 := Take(s, StartResume(true));
    var s2 := Take(s1, EndResume(2));
    var s3 := Take(s2, LoopStart(1));
    t := BatteryPause(s3, 2, []);
    RunFirst(s2, LoopStart(1), PauseSteps(2, []));
    RunFirst(s1, EndResume(2), [LoopStart(1)] + PauseSteps(2, []));
    RunFirst(s, StartResume(true), [EndResume(2)] + ([LoopStart(1)] + PauseSteps(2, [])));
    EmptyRun(t);
  }

  /** Training 1 starts and ends before its loop runs; training 2 starts, and its loop with it. */
  lemma SecondTrainingStarts(rest: seq<Step>) returns (steps: seq<Step>, t: State)
    ensures t.slot == Some(Training(2, Running)) && t.before == None && t.overrides == None
    ensures t.loops == map[1 := Starting, 2 := Ticking] && t.resuming == multiset{} && t.log == []
    ensures Run(INITIAL, steps) == Run(t, rest)
  {
    hide Run;
    var s1 := Take(INITIAL, Reserve);
    var s2 := Take(s1, Commit(1));
    var s3 := Take(s2, Finish(Done));
    var s4 := Take(s3, Reserve);
    var s5 := Take(s4, Commit(2));
    t := Take(s5, LoopStart(2));
    assert t.loops == map[1 := Starting, 2 := Ticking];
    var r5 := [LoopStart(2)] + rest;
    var r4 := [Commit(2)] + r5;
    var r3 := [Reserve] + r4;
    var r2 := [Finish(Done)] + r3;
    var r1 := [Commit(1)] + r2;
    steps := [Reserve] + r1;
    RunFirst(INITIAL, Reserve, r1);
    RunFirst(s1, Commit(1), r2);
    RunFirst(s2, Finish(Done), r3);
    RunFirst(s3, Reserve, r4);
    RunFirst(s4, Commit(2), r5);
    RunFirst(s5, LoopStart(2), rest);
  }

  /**
   The condition is needed: a loop whose first step runs only after its training ended and another
   one was paused for battery and resumed lets that other training be paused for battery again.
   */
  lemma LateFirstStepRepeatsPause()
    ensures exists steps :: Run(INITIAL, steps).Some? && !LogOk(Run(INITIAL, steps).value.log)
  {
    var steps, s := SecondTrainingStarts(PauseSteps(2, ResumeThenLateStart()));
    var paused := BatteryPause(s, 2, ResumeThenLateStart());
    var end := ResumedThenPausedAgain(paused);
    hide Run, ResumeThenLateStart;
    assert Run(INITIAL, steps) == Some(end);
    assert Wronged(end.log[1], end.log[2]);
  }

  lemma EmptyRun(s: State)
    ensures Run(s, []) == Some(s)
  {
  }
}
