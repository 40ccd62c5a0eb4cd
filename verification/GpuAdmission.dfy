/**
 Who may use the GPU: a benchmark claims a flag and then looks at the training and serving slots; a
 training or serving start locks its slot and then looks at the flag. The class holds the atomic
 actions; the state machine below interleaves them for any number of threads, with the flag outside
 every lock, as in the program.
 */
module GpuAdmission {
  import opened Common

  type Tid = int
  type Pid = nat

  /** `live` stands for every status that is not done, error or killed. */
  datatype Training = Training(pid: Pid, live: bool)

  type Slot = Option<Training>

  predicate Busy(slot: Slot) {
    slot.Some? && slot.value.live
  }

  /** The benchmark's test on its copies of the two slots. */
  function CheckWorkloads(training: Slot, serving: Option<Pid>): Result<()> {
    if training.Some? && training.value.live then Err("Cannot run GPU benchmark while training is in progress")
    else if serving.Some? then Err("Cannot run GPU benchmark while model serving occupies the slot")
    else Ok(())
  }

  // ---- the atomic actions ----

  /** The slot after a training start has tried to take it; a training in progress keeps it. */
  function TrainingPlaced(slot: Slot): Slot {
    if Busy(slot) then slot else Some(Training(0, true))
  }

  /** The child's pid is filled in, or, when there is no child, the slot goes back to what it held. */
  function TrainingSettled(child: Option<Pid>, previous: Slot): Slot {
    if child.Some? then Some(Training(child.value, true)) else previous
  }

  function ServingPlaced(serving: Option<Pid>): Option<Pid> {
    if serving.Some? then serving else Some(0)
  }

  function ServingClearedFor(serving: Option<Pid>, pid: Pid): Option<Pid> {
    if serving == Some(pid) then None else serving
  }

  /** The shared state; each method is one atomic action that the state machine below takes as a step. */
  class MlxState {
    var benchmarkActive: bool
    var training: Slot
    var serving: Option<Pid>

    constructor ()
      ensures !benchmarkActive && training == None && serving == None
    {
      benchmarkActive, training, serving := false, None, None;
    }

    /** The compare-and-exchange that hands out the reservation guard. */
    method ClaimBenchmarkReservation() returns (r: Result<()>)
      modifies this`benchmarkActive
      ensures benchmarkActive && r.Ok? == !old(benchmarkActive)
    {
      if benchmarkActive {
        return Err("GPU benchmark is already in progress.");
      }
      benchmarkActive := true;
      return Ok(());
    }

    method DropReservation()
      modifies this`benchmarkActive
      ensures !benchmarkActive
    {
      benchmarkActive := false;
    }

    /** A training start's slot step, once it has seen the flag clear under the slot's lock. */
    method PlaceTraining() returns (previous: Result<Slot>)
      modifies this`training
      ensures previous.Ok? == !Busy(old(training)) && (previous.Ok? ==> previous.value == old(training))
      ensures training == TrainingPlaced(old(training))
    {
      if training.Some? && training.value.live {
        return Err("Training is already in progress");
      }
      previous := Ok(training);
      training := Some(Training(0, true));
    }

    /** Fills in the child's pid, or puts the slot back when there is no child. */
    method SettleTraining(child: Option<Pid>, previous: Slot)
      modifies this`training
      ensures training == TrainingSettled(child, previous)
    {
      if child.Some? {
        training := Some(Training(child.value, true));
      } else {
        training := previous;
      }
    }

    method PlaceServing() returns (r: Result<()>)
      modifies this`serving
      ensures r.Ok? == old(serving).None?
      ensures serving == ServingPlaced(old(serving))
    {
      if serving.Some? {
        return Err("Model serving is already in progress.");
      }
      serving := Some(0);
      return Ok(());
    }

    /** Empties the serving slot if it still belongs to `pid`: stop, kill and the exit reader. */
    method ClearServing(pid: Pid)
      modifies this`serving
      ensures serving == ServingClearedFor(old(serving), pid)
    {
      if serving == Some(pid) {
        serving := None;
      }
    }
  }

  // ---- the state machine ----

  /** Where a thread stands; `Out` is outside all three operations. */
  datatype Phase =
    | Out
    // benchmark: holding the guard
    | Claimed
    | ReadTraining(training: Slot)
    | ReadBoth(training: Slot, serving: Option<Pid>)
    | Admitted
    // training start
    | WantsTraining
    | LockedTraining
    | ClearedTraining
    | PlacedTraining(previous: Slot)
    // serving start
    | WantsServing
    | LockedServing
    | ClearedServing
    | PlacedServing

  datatype State = State(
    flag: bool,
    training: Slot,
    serving: Option<Pid>,
    trainingLock: Option<Tid>,
    servingLock: Option<Tid>,
    threads: map<Tid, Phase>)

  const INITIAL := State(false, None, None, None, None, map[])

  datatype Step =
    | Claim(t: Tid)
    | LookAtTraining(t: Tid)
    | LookAtServing(t: Tid)
    | Check(t: Tid)
    | Drop(t: Tid)
    | BeginTraining(t: Tid)
    | LockTraining(t: Tid)
    | CheckFlagForTraining(t: Tid)
    | PlaceTraining(t: Tid)
    | SettleTraining(t: Tid, child: Option<Pid>)
    | BeginServing(t: Tid)
    | LockServing(t: Tid)
    | CheckFlagForServing(t: Tid)
    | PlaceServing(t: Tid)
    | SettleServing(t: Tid, child: Option<Pid>)
    | TrainingChanges(live: bool)
    | ServingCleared(pid: Pid)

  function At(s: State, t: Tid): Phase {
    if t in s.threads then s.threads[t] else Out
  }

  predicate CanTake(s: State, step: Step) {
    match step
    case Claim(t) => At(s, t).Out?
    case LookAtTraining(t) => At(s, t).Claimed? && s.trainingLock.None?
    case LookAtServing(t) => At(s, t).ReadTraining? && s.servingLock.None?
    case Check(t) => At(s, t).ReadBoth?
    // The guard drops on every way out, at any time after the claim.
    case Drop(t) => At(s, t).Claimed? || At(s, t).ReadTraining? || At(s, t).ReadBoth? || At(s, t).Admitted?
    case BeginTraining(t) => At(s, t).Out?
    case LockTraining(t) => At(s, t).WantsTraining? && s.trainingLock.None?
    case CheckFlagForTraining(t) => At(s, t).LockedTraining?
    case PlaceTraining(t) => At(s, t).ClearedTraining?
    case SettleTraining(t, child) => At(s, t).PlacedTraining? && s.trainingLock.None? && child != Some(0)
    case BeginServing(t) => At(s, t).Out?
    case LockServing(t) => At(s, t).WantsServing? && s.servingLock.None?
    case CheckFlagForServing(t) => At(s, t).LockedServing?
    case PlaceServing(t) => At(s, t).ClearedServing?
    case SettleServing(t, child) => At(s, t).PlacedServing? && s.servingLock.None? && child != Some(0)
    // Pauses, resumes, the end, a kill: a tracked training changes status, and never comes back to life.
    case TrainingChanges(live) =>
      s.trainingLock.None? && s.training.Some? && s.training.value.pid != 0 && (s.training.value.live || !live)
    // Stop, kill or exit of a server, by the pid it had when that began.
    case ServingCleared(pid) => s.servingLock.None? && pid != 0
  }

  function Take(s: State, step: Step): State
    requires CanTake(s, step)
  {
    match step
    case Claim(t) => if s.flag then s else s.(flag := true, threads := s.threads[t := Claimed])
    case LookAtTraining(t) => s.(threads := s.threads[t := ReadTraining(s.training)])
    case LookAtServing(t) => s.(threads := s.threads[t := ReadBoth(At(s, t).training, s.serving)])
    case Check(t) =>
      if CheckWorkloads(At(s, t).training, At(s, t).serving).Ok? then s.(threads := s.threads[t := Admitted])
      else s.(flag := false, threads := s.threads[t := Out])
    case Drop(t) => s.(flag := false, threads := s.threads[t := Out])
    case BeginTraining(t) => if s.flag then s else s.(threads := s.threads[t := WantsTraining])
    case LockTraining(t) => s.(trainingLock := Some(t), threads := s.threads[t := LockedTraining])
    case CheckFlagForTraining(t) =>
      if s.flag then s.(trainingLock := None, threads := s.threads[t := Out])
      else s.(threads := s.threads[t := ClearedTraining])
    case PlaceTraining(t) =>
      s.(training := TrainingPlaced(s.training), trainingLock := None,
         threads := s.threads[t := if Busy(s.training) then Out else PlacedTraining(s.training)])
    case SettleTraining(t, child) =>
      s.(training := TrainingSettled(child, At(s, t).previous), threads := s.threads[t := Out])
    case BeginServing(t) => if s.flag then s else s.(threads := s.threads[t := WantsServing])
    case LockServing(t) => s.(servingLock := Some(t), threads := s.threads[t := LockedServing])
    case CheckFlagForServing(t) =>
      if s.flag then s.(servingLock := None, threads := s.threads[t := Out])
      else s.(threads := s.threads[t := ClearedServing])
    case PlaceServing(t) =>
      s.(serving := ServingPlaced(s.serving), servingLock := None,
         threads := s.threads[t := if s.serving.Some? then Out else PlacedServing])
    case SettleServing(t, child) => s.(serving := child, threads := s.threads[t := Out])
    case TrainingChanges(live) => s.(training := Some(Training(s.training.value.pid, live)))
    case ServingCleared(pid) => s.(serving := ServingClearedFor(s.serving, pid))
  }

  // ---- the invariant ----

  predicate HoldsGuard(p: Phase) {
    p.Claimed? || p.ReadTraining? || p.ReadBoth? || p.Admitted?
  }

  /** The guard's holder has looked at the training slot, or at both. */
  predicate PastTraining(p: Phase) {
    p.ReadTraining? || p.ReadBoth? || p.Admitted?
  }

  predicate PastServing(p: Phase) {
    p.ReadBoth? || p.Admitted?
  }

  ghost predicate OneGuard(s: State) {
    && (forall t :: HoldsGuard(At(s, t)) ==> s.flag)
    && forall t, u :: HoldsGuard(At(s, t)) && HoldsGuard(At(s, u)) ==> t == u
  }

  /** The reservation never leaks: while the flag is up somebody holds the guard. */
  ghost predicate FlagHeld(s: State) {
    s.flag ==> exists t :: HoldsGuard(At(s, t))
  }

  ghost predicate LocksHeld(s: State) {
    && (forall t :: At(s, t).LockedTraining? || At(s, t).ClearedTraining? ==> s.trainingLock == Some(t))
    && forall t :: At(s, t).LockedServing? || At(s, t).ClearedServing? ==> s.servingLock == Some(t)
  }

  /** A placed training start owns its slot: the placeholder is its own, what it may put back is not busy. */
  ghost predicate TrainingOwned(s: State) {
    && (forall t :: At(s, t).PlacedTraining? ==> s.training == Some(Training(0, true)) && !Busy(At(s, t).previous))
    && forall t, u :: At(s, t).PlacedTraining? && At(s, u).PlacedTraining? ==> t == u
  }

  ghost predicate ServingOwned(s: State) {
    && (forall t :: At(s, t).PlacedServing? ==> s.serving == Some(0))
    && forall t, u :: At(s, t).PlacedServing? && At(s, u).PlacedServing? ==> t == u
  }

  /** Once a benchmark has looked at a slot, no start that saw the flag clear is still about to take it. */
  ghost predicate NoTrainingSlipsBy(s: State) {
    forall t, u :: PastTraining(At(s, t)) ==> !At(s, u).ClearedTraining?
  }

  ghost predicate NoServingSlipsBy(s: State) {
    forall t, u :: PastServing(At(s, t)) ==> !At(s, u).ClearedServing?
  }

  /** What a benchmark saw free is still free. */
  ghost predicate TrainingStaysFree(s: State) {
    && (forall t :: (At(s, t).ReadTraining? || At(s, t).ReadBoth?) && !Busy(At(s, t).training) ==> !Busy(s.training))
    && forall t :: At(s, t).Admitted? ==> !Busy(s.training)
  }

  ghost predicate ServingStaysFree(s: State) {
    && (forall t :: At(s, t).ReadBoth? && At(s, t).serving.None? ==> s.serving.None?)
    && forall t :: At(s, t).Admitted? ==> s.serving.None?
  }

  ghost predicate Inv(s: State) {
    && OneGuard(s) && FlagHeld(s) && LocksHeld(s)
    && TrainingOwned(s) && ServingOwned(s)
    && NoTrainingSlipsBy(s) && NoServingSlipsBy(s)
    && TrainingStaysFree(s) && ServingStaysFree(s)
  }

  function Actor(step: Step): Option<Tid> {
    match step
    case TrainingChanges(_) | ServingCleared(_) => None
    case _ => Some(step.t)
  }

  lemma OthersStay(s: State, step: Step)
    requires CanTake(s, step)
    ensures forall u :: Actor(step) != Some(u) ==> At(Take(s, step), u) == At(s, u)
  {
  }

  lemma StepKeepsInv(s: State, step: Step)
    requires Inv(s) && CanTake(s, step)
    ensures Inv(Take(s, step))
  {
    hide Take, CanTake;
    GuardKept(s, step);
    LocksKept(s, step);
    TrainingOwnerKept(s, step);
    ServingOwnerKept(s, step);
    FlagHeldKept(s, step);
    TrainingShutOut(s, step);
    ServingShutOut(s, step);
    TrainingSightKept(s, step);
    ServingSightKept(s, step);
  }

  lemma GuardKept(s: State, step: Step)
    requires Inv(s) && CanTake(s, step)
    ensures OneGuard(Take(s, step))
  {
    hide LocksHeld, TrainingOwned, ServingOwned, NoTrainingSlipsBy, NoServingSlipsBy;
    hide TrainingStaysFree, ServingStaysFree, FlagHeld, CheckWorkloads;
    OthersStay(s, step);
  }

  lemma LocksKept(s: State, step: Step)
    requires Inv(s) && CanTake(s, step)
    ensures LocksHeld(Take(s, step))
  {
    hide OneGuard, TrainingOwned, ServingOwned, NoTrainingSlipsBy, NoServingSlipsBy;
    hide TrainingStaysFree, ServingStaysFree, FlagHeld, CheckWorkloads;
    OthersStay(s, step);
  }

  lemma TrainingOwnerKept(s: State, step: Step)
    requires Inv(s) && CanTake(s, step)
    ensures TrainingOwned(Take(s, step))
  {
    hide OneGuard, ServingOwned, NoTrainingSlipsBy, NoServingSlipsBy, TrainingStaysFree, ServingStaysFree;
    hide FlagHeld, CheckWorkloads, ServingPlaced, ServingClearedFor;
    OthersStay(s, step);
  }

  lemma ServingOwnerKept(s: State, step: Step)
    requires Inv(s) && CanTake(s, step)
    ensures ServingOwned(Take(s, step))
  {
    hide OneGuard, TrainingOwned, NoTrainingSlipsBy, NoServingSlipsBy, TrainingStaysFree, ServingStaysFree;
    hide FlagHeld, CheckWorkloads, TrainingPlaced, TrainingSettled;
    OthersStay(s, step);
  }

  lemma FlagHeldKept(s: State, step: Step)
    requires Inv(s) && CanTake(s, step)
    ensures FlagHeld(Take(s, step))
  {
    var s' := Take(s, step);
    OthersStay(s, step);
    if s.flag && s'.flag {
      var t :| HoldsGuard(At(s, t));
      assert HoldsGuard(At(s', t));
    } else if s'.flag {
      assert HoldsGuard(At(s', step.t));
    }
  }

  lemma TrainingShutOut(s: State, step: Step)
    requires Inv(s) && CanTake(s, step)
    ensures NoTrainingSlipsBy(Take(s, step))
  {
    hide TrainingOwned, ServingOwned, NoServingSlipsBy, TrainingStaysFree, ServingStaysFree, FlagHeld, CheckWorkloads;
    OthersStay(s, step);
  }

  lemma ServingShutOut(s: State, step: Step)
    requires Inv(s) && CanTake(s, step)
    ensures NoServingSlipsBy(Take(s, step))
  {
    hide TrainingOwned, ServingOwned, NoTrainingSlipsBy, TrainingStaysFree;
    hide ServingStaysFree, FlagHeld, CheckWorkloads;
    OthersStay(s, step);
  }

  lemma TrainingSightKept(s: State, step: Step)
    requires Inv(s) && CanTake(s, step)
    ensures TrainingStaysFree(Take(s, step))
  {
    hide LocksHeld, FlagHeld, ServingOwned, NoServingSlipsBy, ServingStaysFree, ServingPlaced, ServingClearedFor;
    OthersStay(s, step);
  }

  lemma ServingSightKept(s: State, step: Step)
    requires Inv(s) && CanTake(s, step)
    ensures ServingStaysFree(Take(s, step))
  {
    hide LocksHeld, FlagHeld, TrainingOwned, NoTrainingSlipsBy, TrainingStaysFree, TrainingPlaced, TrainingSettled;
    OthersStay(s, step);
  }

  // ---- what holds over every run ----

  function Run(s: State, steps: seq<Step>): Option<State>
    decreases |steps|
  {
    if steps == [] then Some(s)
    else if CanTake(s, steps[0]) then Run(Take(s, steps[0]), steps[1..])
    else None
  }

  lemma {:induction false} RunKeepsInv(s: State, steps: seq<Step>)
    requires Inv(s) && Run(s, steps).Some?
    ensures Inv(Run(s, steps).value)
    decreases |steps|
  {
    hide Inv, Take, CanTake;
    if steps != [] {
      StepKeepsInv(s, steps[0]);
      RunKeepsInv(Take(s, steps[0]), steps[1..]);
    }
  }

  lemma InitialInv()
    ensures Inv(INITIAL)
  {
  }

  /**
   In every interleaving: from the moment a benchmark's check passes until its guard drops, no
   training is in progress and no server occupies its slot.
   */
  lemma BenchmarkRunsAlone(steps: seq<Step>, s: State, t: Tid)
    requires Run(INITIAL, steps) == Some(s) && At(s, t).Admitted?
    ensures !Busy(s.training) && s.serving.None?
  {
    InitialInv();
    RunKeepsInv(INITIAL, steps);
    hide Run;
  }

  /** In every interleaving: the reservation is taken exactly while one thread holds the guard. */
  lemma OneGuardAtATime(steps: seq<Step>, s: State)
    requires Run(INITIAL, steps) == Some(s)
    ensures s.flag <==> exists t :: HoldsGuard(At(s, t))
    ensures forall t, u :: HoldsGuard(At(s, t)) && HoldsGuard(At(s, u)) ==> t == u
  {
    InitialInv();
    RunKeepsInv(INITIAL, steps);
    hide Run;
  }

  /**
   In every interleaving: a start that has taken its slot keeps it until it settles it, so no
   second start, stop or kill gets in between.
   */
  lemma StartKeepsItsSlot(steps: seq<Step>, s: State, t: Tid, step: Step)
    requires Run(INITIAL, steps) == Some(s) && CanTake(s, step) && Actor(step) != Some(t)
    ensures At(s, t).PlacedTraining? ==> s.training == Some(Training(0, true)) == Take(s, step).training
    ensures At(s, t).PlacedServing? ==> s.serving == Some(0) == Take(s, step).serving
  {
    InitialInv();
    RunKeepsInv(INITIAL, steps);
    hide Run;
    OthersStay(s, step);
    StepKeepsInv(s, step);
    hide Take;
  }

  // ---- who is let in ----

  /** A benchmark that has looked at both slots is let in exactly when it saw no live training and no server. */
  lemma CheckAdmitsIff(s: State, t: Tid)
    requires At(s, t).ReadBoth?
    ensures CanTake(s, Check(t))
    ensures var seen, after := At(s, t), Take(s, Check(t));
            if (seen.training.None? || !seen.training.value.live) && seen.serving.None?
            then after == s.(threads := s.threads[t := Admitted])
            else after == s.(flag := false, threads := s.threads[t := Out])
  {
  }

  lemma RunFirst(s: State, steps: seq<Step>)
    requires steps != []
    ensures Run(s, steps) == if CanTake(s, steps[0]) then Run(Take(s, steps[0]), steps[1..]) else None
  {
  }

  /** The state after four steps, if they can be taken. */
  lemma RunFour(s: State, a: Step, b: Step, c: Step, d: Step)
    requires CanTake(s, a) && CanTake(Take(s, a), b) && CanTake(Take(Take(s, a), b), c)
    requires CanTake(Take(Take(Take(s, a), b), c), d)
    ensures Run(s, [a, b, c, d]) == Some(Take(Take(Take(Take(s, a), b), c), d))
  {
    hide CanTake, Take;
    var s1 := Take(s, a);
    var s2 := Take(s1, b);
    var s3 := Take(s2, c);
    var s4 := Take(s3, d);
    assert Run(s4, []) == Some(s4);
    hide Run;
    RunFirst(s3, [d]);
    RunFirst(s2, [c, d]);
    RunFirst(s1, [b, c, d]);
    RunFirst(s, [a, b, c, d]);
    assert [a, b, c, d][1..] == [b, c, d] && [b, c, d][1..] == [c, d] && [c, d][1..] == [d] && [d][1..] == [];
  }

  lemma Overwritten(m: map<Tid, Phase>, t: Tid, p: Phase, q: Phase)
    ensures m[t := p][t := q] == m[t := q]
  {
  }

  /** With both locks free a benchmark gets in exactly when the flag is down and neither slot is in use. */
  lemma BenchmarkGetsIn(s: State, t: Tid)
    requires At(s, t).Out? && s.trainingLock.None? && s.servingLock.None? && !s.flag
    ensures var r := Run(s, [Claim(t), LookAtTraining(t), LookAtServing(t), Check(t)]);
            r == Some(if (s.training.None? || !s.training.value.live) && s.serving.None?
                      then s.(flag := true, threads := s.threads[t := Admitted])
                      else s.(threads := s.threads[t := Out]))
  {
    var s1 := s.(flag := true, threads := s.threads[t := Claimed]);
    var s2 := s1.(threads := s.threads[t := ReadTraining(s.training)]);
    var s3 := s1.(threads := s.threads[t := ReadBoth(s.training, s.serving)]);
    Overwritten(s.threads, t, Claimed, ReadTraining(s.training));
    Overwritten(s.threads, t, ReadTraining(s.training), ReadBoth(s.training, s.serving));
    Overwritten(s.threads, t, ReadBoth(s.training, s.serving), Admitted);
    Overwritten(s.threads, t, ReadBoth(s.training, s.serving), Out);
    assert CanTake(s, Claim(t)) && Take(s, Claim(t)) == s1;
    assert CanTake(s1, LookAtTraining(t)) && Take(s1, LookAtTraining(t)) == s2;
    assert CanTake(s2, LookAtServing(t)) && Take(s2, LookAtServing(t)) == s3;
    CheckAdmitsIff(s3, t);
    RunFour(s, Claim(t), LookAtTraining(t), LookAtServing(t), Check(t));
    hide Run, Take, CanTake, CheckWorkloads;
  }

  /** While the flag is down and the lock free, a training start takes the slot unless a training is live in it. */
  lemma TrainingGetsIn(s: State, t: Tid)
    requires At(s, t).Out? && s.trainingLock.None? && !s.flag
    ensures var r := Run(s, [BeginTraining(t), LockTraining(t), CheckFlagForTraining(t), PlaceTraining(t)]);
            r == Some(if s.training.Some? && s.training.value.live then s.(threads := s.threads[t := Out])
                      else s.(training := Some(Training(0, true)),
                              threads := s.threads[t := PlacedTraining(s.training)]))
  {
    var s1 := s.(threads := s.threads[t := WantsTraining]);
    var s2 := s.(trainingLock := Some(t), threads := s.threads[t := LockedTraining]);
    var s3 := s.(trainingLock := Some(t), threads := s.threads[t := ClearedTraining]);
    Overwritten(s.threads, t, WantsTraining, LockedTraining);
    Overwritten(s.threads, t, LockedTraining, ClearedTraining);
    Overwritten(s.threads, t, ClearedTraining, PlacedTraining(s.training));
    Overwritten(s.threads, t, ClearedTraining, Out);
    assert CanTake(s, BeginTraining(t)) && Take(s, BeginTraining(t)) == s1;
    assert CanTake(s1, LockTraining(t)) && Take(s1, LockTraining(t)) == s2;
    assert CanTake(s2, CheckFlagForTraining(t)) && Take(s2, CheckFlagForTraining(t)) == s3;
    RunFour(s, BeginTraining(t), LockTraining(t), CheckFlagForTraining(t), PlaceTraining(t));
    hide Run;
  }

  /** A server start takes a free slot under the same conditions. */
  lemma ServingGetsIn(s: State, t: Tid)
    requires At(s, t).Out? && s.servingLock.None? && !s.flag
    ensures var r := Run(s, [BeginServing(t), LockServing(t), CheckFlagForServing(t), PlaceServing(t)]);
            r == Some(if s.serving.Some? then s.(threads := s.threads[t := Out])
                      else s.(serving := Some(0), threads := s.threads[t := PlacedServing]))
  {
    var s1 := s.(threads := s.threads[t := WantsServing]);
    var s2 := s.(servingLock := Some(t), threads := s.threads[t := LockedServing]);
    var s3 := s.(servingLock := Some(t), threads := s.threads[t := ClearedServing]);
    Overwritten(s.threads, t, WantsServing, LockedServing);
    Overwritten(s.threads, t, LockedServing, ClearedServing);
    Overwritten(s.threads, t, ClearedServing, PlacedServing);
    Overwritten(s.threads, t, ClearedServing, Out);
    assert CanTake(s, BeginServing(t)) && Take(s, BeginServing(t)) == s1;
    assert CanTake(s1, LockServing(t)) && Take(s1, LockServing(t)) == s2;
    assert CanTake(s2, CheckFlagForServing(t)) && Take(s2, CheckFlagForServing(t)) == s3;
    RunFour(s, BeginServing(t), LockServing(t), CheckFlagForServing(t), PlaceServing(t));
    hide Run;
  }

  /** A training start without a child leaves the slot as it found it; with a child its pid is in the slot. */
  lemma TrainingSettles(s: State, t: Tid, pid: Pid)
    requires At(s, t).Out? && s.trainingLock.None? && !s.flag && pid != 0
    requires s.training.None? || !s.training.value.live
    ensures var r := Run(s, [BeginTraining(t), LockTraining(t), CheckFlagForTraining(t), PlaceTraining(t)]);
            && r.Some? && CanTake(r.value, SettleTraining(t, None)) && CanTake(r.value, SettleTraining(t, Some(pid)))
            && Take(r.value, SettleTraining(t, None)) == s.(threads := s.threads[t := Out])
            && Take(r.value, SettleTraining(t, Some(pid))).training == Some(Training(pid, true))
  {
    TrainingGetsIn(s, t);
    hide Run;
    Overwritten(s.threads, t, PlacedTraining(s.training), Out);
  }

  lemma ServingSettles(s: State, t: Tid, pid: Pid)
    requires At(s, t).Out? && s.servingLock.None? && !s.flag && pid != 0 && s.serving.None?
    ensures var r := Run(s, [BeginServing(t), LockServing(t), CheckFlagForServing(t), PlaceServing(t)]);
            && r.Some? && CanTake(r.value, SettleServing(t, None)) && CanTake(r.value, SettleServing(t, Some(pid)))
            && Take(r.value, SettleServing(t, None)) == s.(threads := s.threads[t := Out])
            && Take(r.value, SettleServing(t, Some(pid))).serving == Some(pid)
  {
    ServingGetsIn(s, t);
    hide Run;
    Overwritten(s.threads, t, PlacedServing, Out);
  }

  /** While a benchmark holds the flag nobody else gets in: no claim, and no start before its own check. */
  lemma FlagShutsOut(s: State, t: Tid)
    requires s.flag && At(s, t).Out?
    ensures Take(s, Claim(t)) == Take(s, BeginTraining(t)) == Take(s, BeginServing(t)) == s
  {
  }
}
