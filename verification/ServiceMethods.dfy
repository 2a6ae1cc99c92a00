/**
 The service as a class. Each method is one critical section, called by a thread that stands where
 the source calls it: it is one step of the lifecycle, so it keeps everything that holds at every
 instant, and its contract says what that means for the caller.
 `ApplyConfig` strings several together.
 */
module ServiceMethods {
  import opened Text
  import opened Civil
  import opened Configuration
  import opened Schedule
  import opened ServiceState
  import opened Lifecycle
  import opened Cancellation
  import opened Occurrences
  import opened Unparsed

  /** Everything that holds at every instant of every execution. */
  ghost predicate Healthy(s: State) { Inv(s) && Records(s) && Spared(s) }

  lemma StepIsHealthy(s: State, m: Move, s': State)
    requires Healthy(s) && Step(s, m, s')
    ensures Healthy(s')
  {
    hide Inv, Records, Spared, Step;
    StepKeeps(s, m, s');
    StepKeepsRecords(s, m, s');
    StepSpares(s, m, s');
  }

  // ----- what the invariants say where the methods are called -----

  /** Nothing at work is in force any more, and all of it is canceled or on the list. */
  predicate HandedOver(s: State, list: seq<nat>) {
    forall w | w in s.workers && Cancelable(s.workers[w]) ::
      !InForce(s, s.workers[w].generation) && (w in s.canceled || w in list)
  }

  lemma SupersedingHandsOverAll(s: State, c: nat, s': State)
    requires Healthy(s) && Installs(s, c, s') && Healthy(s') && s'.callers[c].ConfigureCanceling?
    ensures HandedOver(s', s'.callers[c].todo) && s'.fields.generation == s.fields.generation + 1
  {
    hide Records, Spared, ConfigOk, SameConfig, Cancels, Numbered, Counted;
    InstallLeavesNothingInForce(s, c, s');
    forall w | w in s'.workers && Cancelable(s'.workers[w]) && w !in s'.canceled
      ensures w in s'.callers[c].todo
    {
      var d :| d in s'.callers && PendingIn(s', s'.callers[d], w, s'.workers[w].generation);
      assert d == c;
    }
  }

  lemma StoppingHandsOverAll(s: State, c: nat, s': State)
    requires Healthy(s) && Stops(s, c, s') && Healthy(s') && !s.fields.stopped
    ensures HandedOver(s', Cancels(s.fields))
  {
    hide Records, Spared, ConfigOk, Cancels, Numbered, Counted, Generations;
    forall w | w in s'.workers && Cancelable(s'.workers[w]) && w !in s'.canceled
      ensures w in Cancels(s.fields)
    {
      var d :| d in s'.callers && PendingIn(s', s'.callers[d], w, s'.workers[w].generation);
      assert d == c;
    }
  }

  /** A reconfiguration still finds the service running under its own generation when it starts its
      scheduler and its recovery. */
  lemma StillInForce(s: State, c: nat)
    requires Healthy(s) && c in s.callers && (s.callers[c].ConfigureCanceling? || s.callers[c].ConfigureStarting?)
    ensures InForce(s, s.callers[c].generation) && 0 < s.callers[c].generation
    ensures s.callers[c].ConfigureCanceling? ==>
              forall w | w in s.workers && IsScheduler(s.workers[w]) :: s.workers[w].generation < s.callers[c].generation
    ensures s.callers[c].ConfigureStarting? ==>
              forall w | w in s.workers && s.workers[w].RecoveryWorking? :: s.workers[w].generation < s.callers[c].generation
  {
    hide Records, Spared, Numbered, Counted, ConfigOk, Pending;
    assert CallerGeneration(s, s.callers[c]);
    forall w | w in s.workers
      ensures s.workers[w].generation <= s.fields.generation
      ensures s.callers[c].ConfigureCanceling? && IsScheduler(s.workers[w]) ==> s.workers[w].generation < s.callers[c].generation
      ensures s.callers[c].ConfigureStarting? && s.workers[w].RecoveryWorking? ==> s.workers[w].generation < s.callers[c].generation
    {
      WorkerGeneration(s, w);
    }
  }

  /** A run at work is the active one. */
  lemma WorkingRunIsActive(s: State, w: nat)
    requires Healthy(s) && w in s.workers && s.workers[w].RunWorking?
    ensures s.fields.active == Some(w) && s.fields.waitGroup > 0
  {
    hide Records, Spared, Superseding, Locked, Stopped, Generations, Numbered;
  }

  lemma LiveIsCounted(s: State, w: nat)
    requires Healthy(s) && w in s.workers
    ensures s.fields.waitGroup > 0 && 0 < s.workers[w].generation && s.fields.waitGroup == |s.workers|
  {
    hide Records, Spared, Superseding, Locked, Stopped, Numbered, ConfigOk;
    WorkerGeneration(s, w);
  }

  /** A recovery is the recorded one exactly while its configuration is in force. */
  lemma RecoveryIsRecorded(s: State, w: nat)
    requires Healthy(s) && w in s.workers && s.workers[w].RecoveryWorking?
    ensures InForce(s, s.workers[w].generation) <==> s.fields.recoveryGeneration == s.workers[w].generation
    ensures s.fields.waitGroup > 0
  {
    hide Records, Spared, Locked, Numbered, ConfigOk, Pending;
    WorkerGeneration(s, w);
  }

  // ----- the class -----

  /** Who starts a run: a caller, or a scheduler whose timer has fired. */
  datatype Starter = ByCaller(c: nat) | ByScheduler(w: nat)

  class Service {
    var config: Config
    var configGeneration: nat
    var configFailed: bool
    var next: Option<NextSchedule>
    var active: Option<nat>
    var running: bool
    var stopped: bool
    var schedulerCancel: Option<nat>
    var activeCancel: Option<nat>
    var recoveryCancel: Option<nat>
    var recoveryGeneration: nat
    var recoveryPending: bool
    var occurrences: set<string>
    var occurrenceOrder: seq<string>
    var waitGroup: nat
    /** The threads around the service, and where each stands. */
    ghost var state: State

    ghost function View(): Fields
      reads this
    {
      Fields(config, configGeneration, configFailed, next, active, running, stopped, schedulerCancel, activeCancel,
             recoveryCancel, recoveryGeneration, recoveryPending, occurrences, occurrenceOrder, waitGroup)
    }

    ghost predicate Valid()
      reads this
    {
      View() == state.fields && Healthy(state)
    }

    constructor ()
      ensures Valid() && Initial(state)
    {
      config, configGeneration, configFailed, next, active, running := ZERO_CONFIG, 0, false, None, None, false;
      stopped, schedulerCancel, activeCancel, recoveryCancel := false, None, None, None;
      recoveryGeneration, recoveryPending, occurrences, occurrenceOrder, waitGroup := 0, false, {}, [], 0;
      state := State(Fields(ZERO_CONFIG, 0, false, None, None, false, false, None, None, None, 0, false, {}, [], 0),
                     None, map[], map[], {}, map[], 0, [ZERO_CONFIG], [], []);
      new;
      InitialIsHealthy(state);
    }

    /** A step of a thread that this class does not perform. */
    ghost method Elsewhere(m: Move, s': State)
      requires Valid() && Step(state, m, s') && s'.fields == state.fields
      modifies `state
      ensures Valid() && state == s'
    {
      hide Healthy, Step;
      StepIsHealthy(state, m, s');
      state := s';
    }

    /** The locked part of ApplyConfig, for caller c. Refused exactly when stopped; unchanged exactly
        for a configuration equivalent to one that is in force without error; otherwise nothing at
        work is in force any more, and the caller is handed whatever is not yet canceled. */
    method ApplyConfigLocked(ghost c: nat, parsed: Option<Config>) returns (outcome: Installed)
      requires Valid() && c in state.callers && state.callers[c] == ConfigureHolding(parsed)
      modifies this
      ensures Valid()
      ensures outcome.Refused? <==> old(stopped)
      ensures outcome.Unchanged? <==>
                && !old(stopped) && parsed.Some? && old(configGeneration) > 0 && !old(configFailed)
                && SameConfig(old(config), parsed.value)
      ensures !outcome.Superseded? ==> View() == old(View())
      ensures outcome.Superseded? ==>
                && configGeneration == outcome.generation == old(configGeneration) + 1
                && NothingRecorded(View()) && SameRunAndMemory(old(View()), View())
                && (configFailed <==> parsed.None?) && (parsed.Some? ==> config == parsed.value)
                && (parsed.None? ==> config.hostEnabled && Blank(config.model) && Blank(config.message))
                && HandedOver(state, outcome.cancels)
                && c in state.callers
                && state.callers[c] == ConfigureCanceling(parsed, outcome.generation, outcome.cancels)
      ensures Step(old(state), InstallConfig(c), state)
    {
      hide SameConfig, Healthy, Cancels, HandedOver, Step;
      ghost var s := state;
      if stopped {
        outcome := Refused;
      } else {
        var same := false;
        if parsed.Some? && configGeneration > 0 && !configFailed {
          same := Equivalent(config, parsed.value);
        }
        if same {
          outcome := Unchanged;
        } else {
          var cancels := Outstanding();
          Supersede(parsed);
          SupersededBy(s.fields, parsed);
          outcome := Superseded(configGeneration, cancels);
        }
      }
      assert (View(), outcome) == Install(s.fields, parsed);
      state := AfterInstall(s, c, parsed);
      InstallStep(s, c, state);
      StepIsHealthy(s, InstallConfig(c), state);
      if outcome.Superseded? {
        SupersedingHandsOverAll(s, c, state);
      }
    }

    function Outstanding(): (cancels: seq<nat>)
      reads this
      ensures cancels == Cancels(View())
    {
      Present(schedulerCancel) + Present(activeCancel) + Present(recoveryCancel)
    }

    /** A superseded or stopped configuration announces nothing and has nothing recorded to cancel but
        the active run. */
    method ForgetConfiguration()
      modifies `schedulerCancel, `recoveryCancel, `recoveryGeneration, `recoveryPending, `next
      ensures View() == old(View()).(schedulerCancel := None, recoveryCancel := None, recoveryGeneration := 0,
                                     recoveryPending := false, next := None)
    {
      schedulerCancel, recoveryCancel, recoveryGeneration, recoveryPending := None, None, 0, false;
      next := None;
    }

    method Supersede(parsed: Option<Config>)
      modifies `schedulerCancel, `recoveryCancel, `recoveryGeneration, `recoveryPending, `configGeneration, `next,
               `config, `configFailed
      ensures View() == ServiceState.Supersede(old(View()), parsed)
    {
      ForgetConfiguration();
      configGeneration := configGeneration + 1;
      config, configFailed := if parsed.Some? then parsed.value else FAILED_CONFIG, parsed.None?;
    }

    /** startScheduler, for the reconfiguring caller c: it never finds the service stopped or moved on,
        so the scheduler always starts, and it is the only live one of its generation. */
    method StartSchedulerLocked(ghost c: nat, cfg: Config, generation: nat, context: nat) returns (started: bool)
      requires Valid() && c in state.callers && state.callers[c] == ConfigureCanceling(Some(cfg), generation, [])
      requires cfg.hostEnabled && cfg.scheduleEnabled && context == state.nextID
      modifies this
      ensures Valid()
      ensures started && schedulerCancel == Some(context) && InForce(state, generation)
      ensures context in state.workers && state.workers[context] == SchedulerIdle(cfg, generation, None)
      ensures forall w | w in state.workers && IsScheduler(state.workers[w]) && w != context ::
                state.workers[w].generation < generation
      ensures Step(old(state), LaunchScheduler(c), state)
    {
      hide Healthy, Step;
      ghost var s := state;
      StillInForce(s, c);
      if stopped || generation != configGeneration {
        started := false;
      } else {
        schedulerCancel := Some(context);
        waitGroup := waitGroup + 1;
        started := true;
      }
      assert (View(), started) == AddScheduler(s.fields, generation, context);
      state := AfterLaunchScheduler(s, c, Some(cfg), generation);
      LaunchSchedulerStep(s, c, state);
      StepIsHealthy(s, LaunchScheduler(c), state);
    }

    /** startPriorityRecovery, for the reconfiguring caller c: it always starts, and it is the only
        recovery at work of its generation. */
    method StartRecoveryLocked(ghost c: nat, cfg: Config, generation: nat, context: nat) returns (started: bool)
      requires Valid() && c in state.callers && state.callers[c] == ConfigureStarting(cfg, generation)
      requires cfg.hostEnabled && context == state.nextID
      modifies this
      ensures Valid()
      ensures started && recoveryPending && recoveryGeneration == generation && recoveryCancel == Some(context)
      ensures context in state.workers && state.workers[context] == RecoveryWorking(cfg, generation)
      ensures forall w | w in state.workers && state.workers[w].RecoveryWorking? && w != context ::
                state.workers[w].generation < generation
      ensures Step(old(state), LaunchRecovery(c), state)
    {
      hide Healthy, Step;
      ghost var s := state;
      StillInForce(s, c);
      if stopped || generation != configGeneration {
        started := false;
      } else {
        recoveryCancel, recoveryGeneration, recoveryPending := Some(context), generation, true;
        waitGroup := waitGroup + 1;
        started := true;
      }
      assert (View(), started) == AddRecovery(s.fields, generation, context);
      state := AfterLaunchRecovery(s, c, cfg, generation);
      LaunchRecoveryStep(s, c, state);
      StepIsHealthy(s, LaunchRecovery(c), state);
    }

    /** One whole ApplyConfig by a new caller whom nobody interrupts, with the contexts numbered from
        `context`, which is the caller's own number: when the configuration is superseded, everything
        that was at work is canceled and no longer in force, and what the new configuration asks for
        is at work. */
    method ApplyConfig(parsed: Option<Config>, context: nat) returns (outcome: Installed)
      requires Valid() && state.lock.None? && context == state.nextID
      requires parsed.Some? ==> ConfigOk(parsed.value)
      modifies this
      ensures Valid() && state.lock.None?
      ensures outcome.Refused? <==> old(stopped)
      ensures outcome.Unchanged? <==>
                && !old(stopped) && parsed.Some? && old(configGeneration) > 0 && !old(configFailed)
                && SameConfig(old(config), parsed.value)
      ensures !outcome.Superseded? ==> View() == old(View())
      ensures context in state.callers
      ensures state.callers[context] == ConfigureReturned(if outcome.Superseded? then Some(outcome.generation) else None)
      ensures outcome.Superseded? ==>
                && configGeneration == outcome.generation == old(configGeneration) + 1
                && (configFailed <==> parsed.None?) && (parsed.Some? ==> config == parsed.value)
                && (parsed.None? ==> config.hostEnabled && Blank(config.model) && Blank(config.message))
                && Replaced(old(state), state) && (parsed.Some? ==> Serves(state, parsed.value, outcome.generation))
    {
      hide Healthy, Step, SameConfig, HandedOver, ConfigOk, Serves;
      ghost var s := state;
      ghost var c := context;
      ghost var caller := ConfigureWaiting(parsed);
      ghost var arrived := ArriveStep(s, caller);
      Elsewhere(Arrive(caller), arrived);
      ghost var holding := TakeLockStep(arrived, c, parsed);
      Elsewhere(TakeLock(c), holding);
      outcome := ApplyConfigLocked(c, parsed);
      InstalledShape(holding, c, parsed, state);
      if outcome.Superseded? {
        ghost var installed := state;
        CancelAll(c, parsed, outcome.generation, outcome.cancels);
        StartAll(c, parsed, outcome.generation, context + 1);
        AllReplaced(s, installed, state, outcome.cancels);
      }
    }

    /** The cancel functions are called one after the other. */
    ghost method CancelAll(c: nat, parsed: Option<Config>, generation: nat, cancels: seq<nat>)
      requires Valid() && c in state.callers && state.callers[c] == ConfigureCanceling(parsed, generation, cancels)
      modifies `state
      ensures Valid() && state.fields == old(state).fields && state.nextID == old(state).nextID
      ensures c in state.callers && state.callers[c] == ConfigureCanceling(parsed, generation, [])
      ensures old(state).canceled <= state.canceled && forall x | x in cancels :: x in state.canceled
    {
      hide Healthy, Step;
      var i := 0;
      while i < |cancels|
        invariant 0 <= i <= |cancels| && Valid()
        invariant state.fields == old(state).fields && state.nextID == old(state).nextID
        invariant c in state.callers && state.callers[c] == ConfigureCanceling(parsed, generation, cancels[i..])
        invariant old(state).canceled <= state.canceled && forall x | x in cancels[..i] :: x in state.canceled
      {
        var s' := CancelStep(state, c, cancels[i..]);
        Elsewhere(CancelOne(c), s');
        i := i + 1;
      }
    }

    /** What ApplyConfig starts under its new configuration. */
    method StartAll(ghost c: nat, parsed: Option<Config>, generation: nat, context: nat)
      requires Valid() && c in state.callers && state.callers[c] == ConfigureCanceling(parsed, generation, [])
      requires context == state.nextID
      modifies this
      ensures Valid() && state.lock.None? && stopped == old(stopped)
      ensures configGeneration == old(configGeneration) && config == old(config) && configFailed == old(configFailed)
      ensures c in state.callers && state.callers[c] == ConfigureReturned(Some(generation))
      ensures state.canceled == old(state).canceled
      ensures parsed.Some? ==> Serves(state, parsed.value, generation)
    {
      hide Healthy, Step, AfterLaunchScheduler, AfterLaunchRecovery;
      ghost var s := state;
      if parsed.None? {
        NothingToLaunch(s, c, parsed, generation);
        Elsewhere(LaunchScheduler(c), AfterLaunchScheduler(s, c, parsed, generation));
        return;
      }
      var cfg, number := parsed.value, context;
      if cfg.hostEnabled && cfg.scheduleEnabled {
        var started := StartSchedulerLocked(c, cfg, generation, number);
        number := number + 1;
      } else {
        NothingToLaunch(s, c, parsed, generation);
        Elsewhere(LaunchScheduler(c), AfterLaunchScheduler(s, c, parsed, generation));
      }
      ghost var mid := state;
      SchedulerLaunched(s, c, cfg, generation, mid);
      if cfg.hostEnabled {
        var started := StartRecoveryLocked(c, cfg, generation, number);
      } else {
        LaunchRecoveryStep(mid, c, AfterLaunchRecovery(mid, c, cfg, generation));
        NothingToRecover(mid, c, cfg, generation);
        Elsewhere(LaunchRecovery(c), AfterLaunchRecovery(mid, c, cfg, generation));
      }
      RecoveryLaunched(mid, c, cfg, generation, state);
    }

    /** publishNext, by scheduler w for the next occurrence it has found: later than everything its
        generation announced before, under an ID of its own, and shown exactly while its
        configuration is in force. */
    method PublishNextLocked(ghost w: nat, generation: nat, ghost now: int, ghost time: DailyTime,
                             occurrenceID: string, at: int)
      requires Valid() && w in state.workers && state.workers[w].SchedulerIdle? && state.workers[w].generation == generation
      requires state.workers[w].floor.Some? ==> now >= state.workers[w].floor.value
      requires var cfg := state.workers[w].config;
        && cfg.zone.Some? && time in cfg.times && IsNext(cfg.zone.value, now, cfg.times, at, time.text)
        && occurrenceID == OccurrenceID(at, cfg.zone.value, time.text)
      modifies this
      ensures Valid()
      ensures forall p | p in old(state).publications && p.generation == generation :: p.at < at && p.id != occurrenceID
      ensures next == if InForce(state, generation) then Some(NextSchedule(occurrenceID, at, generation)) else old(next)
      ensures next.Some? ==> InForce(state, next.value.publisher)
      ensures Step(old(state), Arm(w, now, at, time), state)
    {
      hide Healthy, Step, IsNext, OccurrenceID;
      ghost var s := state;
      LiveIsCounted(s, w);
      if !stopped && generation == configGeneration {
        next := Some(NextSchedule(occurrenceID, at, generation));
      }
      assert View() == PublishNext(s.fields, generation, occurrenceID, at);
      state := AfterArm(s, w, s.workers[w].config, generation, at, time);
      ArmStep(s, w, now, at, time, state);
      StepIsHealthy(s, Arm(w, now, at, time), state);
      ArmedLater(s, w, now, at, time, state);
    }

    /** clearNext, by scheduler w as it ends: nothing of its generation is announced any more. */
    method ClearNextLocked(ghost w: nat, generation: nat, ghost now: int)
      requires Valid() && w in state.workers && state.workers[w].generation == generation
      requires match state.workers[w]
        case SchedulerIdle(cfg, _, floor) =>
          && (floor.Some? ==> now >= floor.value)
          && (cfg.zone.Some? ==> NoNext(cfg.zone.value, now, cfg.times))
        case SchedulerArmed(_, _, _) => w in state.canceled
        case _ => false
      modifies this
      ensures Valid()
      ensures next.Some? ==> next == old(next) && next.value.publisher > generation
      ensures Step(old(state), EndSchedule(w, now), state)
    {
      hide Healthy, Step, NoNext;
      ghost var s := state;
      LiveIsCounted(s, w);
      AnnouncedByCurrent(s, w);
      if generation == configGeneration {
        next := None;
      }
      assert View() == ClearNext(s.fields, generation);
      state := WorkerMoves(s.(fields := ClearNext(s.fields, generation)), w,
                           SchedulerEnded(s.workers[w].config, generation));
      EndScheduleStep(s, w, now, state);
      StepIsHealthy(s, EndSchedule(w, now), state);
    }

    /** The configuration a manual start goes by: the newest, with the generation it was installed under. */
    method ReadConfigLocked(ghost c: nat) returns (cfg: Config, generation: nat)
      requires Valid() && c in state.callers && state.callers[c] == ManualWaiting
      modifies `state
      ensures Valid()
      ensures c in state.callers && state.callers[c] == ManualHolding(cfg, generation)
      ensures generation < |state.installed| && cfg == state.installed[generation]
      ensures Step(old(state), ReadConfig(c), state)
    {
      hide Healthy, Step;
      ghost var s := state;
      cfg, generation := config, configGeneration;
      state := CallerMoves(s, c, ManualHolding(cfg, generation));
      ReadConfigStep(s, c, state);
      StepIsHealthy(s, ReadConfig(c), state);
      HeldIsInstalled(state, c);
    }

    /** Append, then evict the oldest while there are too many: what is left is the last 512. */
    method RememberOccurrenceLocked(occurrenceID: string)
      requires MemoryOk(occurrences, occurrenceOrder) && occurrenceID !in occurrences
      modifies `occurrences, `occurrenceOrder
      ensures View() == Remember(old(View()), occurrenceID)
      ensures occurrenceOrder == Last(old(occurrenceOrder) + [occurrenceID], MAX_REMEMBERED)
      ensures MemoryOk(occurrences, occurrenceOrder)
    {
      hide NoRepeats, Elements;
      RememberKeepsMemory(View(), occurrenceID);
      Appended(occurrenceOrder, occurrenceID);
      ghost var all := occurrenceOrder + [occurrenceID];
      occurrences := occurrences + {occurrenceID};
      occurrenceOrder := occurrenceOrder + [occurrenceID];
      ghost var dropped := 0;
      while |occurrenceOrder| > MAX_REMEMBERED
        invariant 0 <= dropped <= |all| && occurrenceOrder == all[dropped..]
        invariant dropped > 0 ==> |occurrenceOrder| >= MAX_REMEMBERED
        invariant NoRepeats(occurrenceOrder) && occurrences == Elements(occurrenceOrder)
      {
        DropOldest(occurrenceOrder);
        var oldest := occurrenceOrder[0];
        occurrenceOrder := occurrenceOrder[1..];
        occurrences := occurrences - {oldest};
        dropped := dropped + 1;
      }
    }

    /** The locked part of startRun. A run starts only under the configuration in force and is then the
        one run at work; it is busy exactly when some run is at work; a duplicate is among the last
        512 remembered, under an earlier configuration; and whatever was refused as busy or started
        is remembered as the newest. */
    method StartRunLocked(ghost who: Starter, cfg: Config, expectedGeneration: nat, occurrenceID: string, context: nat)
      returns (outcome: StartOutcome)
      requires Valid() && context == state.nextID && StandsBefore(state, who, cfg, expectedGeneration, occurrenceID)
      modifies this
      ensures Valid()
      ensures outcome == Expected(old(state), who, cfg, expectedGeneration, occurrenceID)
      ensures outcome.Started? ==>
                && active == Some(context) && context in state.workers
                && state.workers[context] == RunWorking(cfg, expectedGeneration)
                && InForce(state, expectedGeneration) && cfg == config && cfg.hostEnabled
                && !Blank(cfg.model) && !Blank(cfg.message)
                && (forall w | w in old(state).workers :: !old(state).workers[w].RunWorking?)
      ensures outcome.Busy? ==> exists w :: w in old(state).workers && old(state).workers[w].RunWorking?
      ensures outcome.Duplicate? ==> who.ByScheduler? && exists i ::
                && 0 <= i < |state.history| <= i + MAX_REMEMBERED && state.history[i].id == occurrenceID
                && state.history[i].generation < expectedGeneration
      ensures outcome.ErrStopped? ==> !InForce(state, expectedGeneration) || !cfg.hostEnabled
      ensures !outcome.Started? && !outcome.Busy? ==> View() == old(View())
      ensures who.ByScheduler? && (outcome.Started? || outcome.Busy?) ==>
                state.history == old(state).history + [old(state).workers[who.w].publication]
      ensures Step(old(state), StartMove(who), state)
    {
      hide Healthy, Step, StartRun, StartOf, MemoryOk, Trim, Expected;
      ghost var s := state;
      StartIsExpected(s, who, cfg, expectedGeneration, occurrenceID);
      StarterFacts(s, who, cfg, expectedGeneration, occurrenceID);
      outcome := CheckAndStart(cfg, expectedGeneration, occurrenceID, context);
      state := StartOf(s, who, cfg, expectedGeneration, occurrenceID);
      StartStep(s, who, cfg, expectedGeneration, occurrenceID);
      StepIsHealthy(s, StartMove(who), state);
      StartShape(s, who, cfg, expectedGeneration, occurrenceID);
      StartMeans(s, who, cfg, expectedGeneration, occurrenceID);
      if outcome.Duplicate? {
        ghost var i := DuplicateMeans(s, who, cfg, expectedGeneration, occurrenceID);
      }
    }

    /** The checks of startRun in their order, and the start. */
    method CheckAndStart(cfg: Config, expectedGeneration: nat, occurrenceID: string, context: nat)
      returns (outcome: StartOutcome)
      requires MemoryOk(occurrences, occurrenceOrder)
      modifies `running, `active, `activeCancel, `waitGroup, `occurrences, `occurrenceOrder
      ensures (View(), outcome) == StartRun(old(View()), cfg, expectedGeneration, occurrenceID, context)
    {
      hide Remember, MemoryOk, Trim;
      if Blank(cfg.model) || Blank(cfg.message) {
        return NotConfigured;
      }
      if stopped || expectedGeneration != configGeneration || !cfg.hostEnabled {
        return ErrStopped;
      }
      if occurrenceID != "" {
        if occurrenceID in occurrences {
          return Duplicate;
        }
        RememberOccurrenceLocked(occurrenceID);
      }
      if running {
        return Busy;
      }
      running, active, activeCancel := true, Some(context), Some(context);
      waitGroup := waitGroup + 1;
      outcome := Started;
    }

    /** finishRun, by the run at work: it is the active one, so no run is active any more. */
    method FinishRunLocked(ghost w: nat, run: nat)
      requires Valid() && run == w && w in state.workers && state.workers[w].RunWorking?
      modifies this
      ensures Valid()
      ensures !running && active.None? && activeCancel.None?
      ensures forall v | v in state.workers :: !state.workers[v].RunWorking?
      ensures Step(old(state), FinishRunning(w), state)
    {
      hide Healthy, Step;
      ghost var s := state;
      WorkingRunIsActive(s, w);
      if active == Some(run) {
        active, running, activeCancel := None, false, None;
      }
      assert View() == FinishRun(s.fields, w);
      state := WorkerMoves(s.(fields := FinishRun(s.fields, w)), w, RunFinished(s.workers[w].config, s.workers[w].generation));
      FinishRunStep(s, w, state);
      StepIsHealthy(s, FinishRunning(w), state);
      IdleMeansNoRun(state);
    }

    /** wg.Done, by a goroutine that has ended: the wait group is never negative and counts exactly
        the goroutines that are left. */
    method Done(ghost w: nat)
      requires Valid() && w in state.workers
      requires state.workers[w].SchedulerEnded? || state.workers[w].RunFinished? || state.workers[w].RecoveryEnded?
      modifies this
      ensures Valid()
      ensures old(waitGroup) > 0 && waitGroup == |state.workers| && state.workers == old(state).workers - {w}
      ensures Step(old(state), LeaveMove(w, old(state).workers[w]), state)
    {
      hide Healthy, Step;
      ghost var s := state;
      LiveIsCounted(s, w);
      waitGroup := waitGroup - 1;
      state := WorkerLeaves(if s.workers[w].SchedulerEnded? then s else CancelContext(s, w), w);
      LeaveStep(s, w, state);
      StepIsHealthy(s, LeaveMove(w, s.workers[w]), state);
      WaitGroupCounts(state);
    }

    /** priorityRecoveryStillCurrent, asked by recovery w: exactly whether its configuration is in force. */
    method RecoveryStillCurrent(ghost w: nat, generation: nat) returns (current: bool)
      requires Valid() && w in state.workers && state.workers[w].RecoveryWorking? && state.workers[w].generation == generation
      ensures current <==> InForce(state, generation)
    {
      hide Healthy;
      RecoveryIsRecorded(state, w);
      current := !stopped && generation == configGeneration && recoveryGeneration == generation;
    }

    /** setPriorityRecoveryResult, by recovery w: recovery is no longer pending if its configuration is
        in force, and nothing changes otherwise. */
    method SetRecoveryResultLocked(ghost w: nat, generation: nat)
      requires Valid() && w in state.workers && state.workers[w].RecoveryWorking? && state.workers[w].generation == generation
      modifies this
      ensures Valid()
      ensures View() == if InForce(state, generation) then old(View()).(recoveryPending := false) else old(View())
      ensures Step(old(state), ReportRecovery(w), state)
    {
      hide Healthy, Step;
      ghost var s := state;
      RecoveryIsRecorded(s, w);
      if !(stopped || generation != configGeneration || generation != recoveryGeneration) {
        recoveryPending := false;
      }
      assert View() == SetRecoveryResult(s.fields, generation);
      state := s.(fields := SetRecoveryResult(s.fields, generation));
      ReportStep(s, w, state);
      StepIsHealthy(s, ReportRecovery(w), state);
    }

    /** The end of recovery w: nothing is recorded any more if its configuration is in force, and
        nothing changes otherwise, so it never clears another recovery's record. */
    method EndRecoveryLocked(ghost w: nat, generation: nat)
      requires Valid() && w in state.workers && state.workers[w].RecoveryWorking? && state.workers[w].generation == generation
      modifies this
      ensures Valid()
      ensures if InForce(state, generation) then recoveryCancel.None? && recoveryGeneration == 0 && !recoveryPending
              else View() == old(View())
      ensures Step(old(state), EndRecovering(w), state)
    {
      hide Healthy, Step;
      ghost var s := state;
      RecoveryIsRecorded(s, w);
      if recoveryGeneration == generation {
        recoveryCancel, recoveryGeneration, recoveryPending := None, 0, false;
      }
      assert View() == EndRecovery(s.fields, generation);
      state := WorkerMoves(s.(fields := EndRecovery(s.fields, generation)), w, RecoveryEnded(s.workers[w].config, generation));
      EndRecoveryStep(s, w, state);
      StepIsHealthy(s, EndRecovering(w), state);
    }

    /** The locked part of Shutdown, for caller c. Only the first stops the service; it then has
        nothing in force, and is handed whatever is not yet canceled. */
    method ShutdownLocked(ghost c: nat) returns (cancels: Option<seq<nat>>)
      requires Valid() && c in state.callers && state.callers[c] == ShutdownHolding
      modifies this
      ensures Valid()
      ensures stopped && next.None? && (cancels.None? <==> old(stopped))
      ensures (old(stopped) || NothingRecorded(View())) && SameRunAndMemory(old(View()), View())
      ensures configGeneration == old(configGeneration) && config == old(config) && configFailed == old(configFailed)
      ensures c in state.callers
      ensures cancels.None? ==> View() == old(View()) && state.callers[c] == ShutdownReturned(false)
      ensures cancels.Some? ==> HandedOver(state, cancels.value) && state.callers[c] == ShutdownCanceling(cancels.value)
      ensures Step(old(state), StopService(c), state)
    {
      hide Healthy, Step, Cancels, HandedOver;
      ghost var s := state;
      StoppedAnnouncesNothing(s);
      StoppedAs(s.fields);
      if stopped {
        cancels := None;
      } else {
        cancels := Some(Outstanding());
        ForgetConfiguration();
        stopped := true;
      }
      assert (View(), cancels) == Stop(s.fields);
      state := AfterStop(s, c);
      StopStep(s, c, state);
      StepIsHealthy(s, StopService(c), state);
      if cancels.Some? {
        StoppingHandsOverAll(s, c, state);
      }
    }
  }

  lemma InitialIsHealthy(s: State)
    requires Initial(s)
    ensures Healthy(s)
  {
    InitialInv(s);
    InitialSpared(s);
    hide Inv, Spared;
  }

  // ----- each critical section is its step -----

  lemma InstallStep(s: State, c: nat, s': State)
    requires c in s.callers && s.callers[c].ConfigureHolding? && s' == AfterInstall(s, c, s.callers[c].parsed)
    ensures Step(s, InstallConfig(c), s') && Installs(s, c, s')
  {
    hide AfterInstall;
  }

  lemma LaunchSchedulerStep(s: State, c: nat, s': State)
    requires c in s.callers && s.callers[c].ConfigureCanceling? && s.callers[c].todo == []
    requires s' == AfterLaunchScheduler(s, c, s.callers[c].parsed, s.callers[c].generation)
    ensures Step(s, LaunchScheduler(c), s')
  {
    hide AfterLaunchScheduler;
  }

  lemma LaunchRecoveryStep(s: State, c: nat, s': State)
    requires c in s.callers && s.callers[c].ConfigureStarting?
    requires s' == AfterLaunchRecovery(s, c, s.callers[c].config, s.callers[c].generation)
    ensures Step(s, LaunchRecovery(c), s')
  {
    hide AfterLaunchRecovery;
  }

  // ----- one whole reconfiguration -----

  /** Everything at work before is canceled and no longer in force. */
  predicate Replaced(s: State, s': State) {
    forall w | w in s.workers && Cancelable(s.workers[w]) :: w in s'.canceled && !InForce(s', s.workers[w].generation)
  }

  ghost predicate SameInstalled(f: Fields, f': Fields) {
    && f'.generation == f.generation && f'.stopped == f.stopped
    && f'.config == f.config && f'.configFailed == f.configFailed
  }

  /** What is recorded as at work is exactly what the configuration asks for. */
  ghost predicate Serves(s: State, cfg: Config, generation: nat) {
    InForce(s, generation) && SchedulerServes(s, cfg, generation) && RecoveryServes(s, cfg, generation)
  }

  ghost predicate SchedulerServes(s: State, cfg: Config, generation: nat) {
    match s.fields.schedulerCancel
    case Some(w) =>
      cfg.hostEnabled && cfg.scheduleEnabled && w in s.workers && s.workers[w] == SchedulerIdle(cfg, generation, None)
    case None => !cfg.hostEnabled || !cfg.scheduleEnabled
  }

  ghost predicate RecoveryServes(s: State, cfg: Config, generation: nat) {
    match s.fields.recoveryCancel
    case Some(w) =>
      && cfg.hostEnabled && s.fields.recoveryPending && s.fields.recoveryGeneration == generation
      && w in s.workers && s.workers[w] == RecoveryWorking(cfg, generation)
    case None => !cfg.hostEnabled
  }

  lemma ArriveStep(s: State, caller: Caller) returns (s': State)
    requires Healthy(s) && caller.ConfigureWaiting? && (caller.parsed.Some? ==> ConfigOk(caller.parsed.value))
    ensures Step(s, Arrive(caller), s')
    ensures s' == s.(callers := s.callers[s.nextID := caller], nextID := s.nextID + 1)
  {
    hide Healthy, ConfigOk;
    s' := s.(callers := s.callers[s.nextID := caller], nextID := s.nextID + 1);
  }

  lemma TakeLockStep(s: State, c: nat, parsed: Option<Config>) returns (s': State)
    requires c in s.callers && s.callers[c] == ConfigureWaiting(parsed) && s.lock.None?
    ensures Step(s, TakeLock(c), s')
    ensures s' == CallerMoves(s.(lock := Some(c)), c, ConfigureHolding(parsed))
  {
    s' := CallerMoves(s.(lock := Some(c)), c, ConfigureHolding(parsed));
  }

  lemma CancelStep(s: State, c: nat, list: seq<nat>) returns (s': State)
    requires c in s.callers && s.callers[c].ConfigureCanceling? && s.callers[c].todo == list != []
    ensures Step(s, CancelOne(c), s')
    ensures s'.fields == s.fields && s'.nextID == s.nextID && s.canceled + {list[0]} <= s'.canceled
    ensures s'.callers == s.callers[c := s.callers[c].(todo := list[1..])]
  {
    s' := CallerMoves(CancelContext(s, list[0]), c, s.callers[c].(todo := list[1..]));
  }

  /** Installing moves the caller on and leaves the threads alone. */
  lemma InstalledShape(s: State, c: nat, parsed: Option<Config>, s': State)
    requires c in s.callers && s.callers[c] == ConfigureHolding(parsed) && Step(s, InstallConfig(c), s')
    ensures s'.workers == s.workers && s'.nextID == s.nextID && c in s'.callers
    ensures s'.fields == s.fields ==> s'.lock.None? && s'.callers[c] == ConfigureReturned(None)
  {
    hide SameConfig, Cancels;
  }

  lemma AllReplaced(s: State, installed: State, s': State, list: seq<nat>)
    requires installed.workers == s.workers && HandedOver(installed, list)
    requires installed.canceled <= s'.canceled && forall x | x in list :: x in s'.canceled
    requires s'.fields.generation == installed.fields.generation && s'.fields.stopped == installed.fields.stopped
    ensures Replaced(s, s')
  {
  }

  /** Without a configuration the caller is done; without a schedule it goes on without a scheduler. */
  lemma NothingToLaunch(s: State, c: nat, parsed: Option<Config>, generation: nat)
    requires c in s.callers && s.callers[c] == ConfigureCanceling(parsed, generation, [])
    requires parsed.Some? ==> !parsed.value.hostEnabled || !parsed.value.scheduleEnabled
    ensures var s' := AfterLaunchScheduler(s, c, parsed, generation);
      && Step(s, LaunchScheduler(c), s') && s'.fields == s.fields && s'.canceled == s.canceled
      && (parsed.None? ==> s'.lock.None? && c in s'.callers && s'.callers[c] == ConfigureReturned(Some(generation)))
  {
  }

  lemma NothingToRecover(s: State, c: nat, cfg: Config, generation: nat)
    requires !cfg.hostEnabled
    ensures AfterLaunchRecovery(s, c, cfg, generation).fields == s.fields
  {
  }

  lemma SchedulerLaunched(s: State, c: nat, cfg: Config, generation: nat, s': State)
    requires Healthy(s) && c in s.callers && s.callers[c] == ConfigureCanceling(Some(cfg), generation, [])
    requires Step(s, LaunchScheduler(c), s')
    ensures c in s'.callers && s'.callers[c] == ConfigureStarting(cfg, generation)
    ensures SameInstalled(s.fields, s'.fields)
    ensures SchedulerServes(s', cfg, generation) && s'.fields.recoveryCancel.None? && s'.canceled == s.canceled
    ensures s'.nextID == s.nextID + if cfg.hostEnabled && cfg.scheduleEnabled then 1 else 0
  {
    hide Healthy;
    StillInForce(s, c);
    NothingRecordedYet(s, c);
    assert s' == AfterLaunchScheduler(s, c, Some(cfg), generation);
    hide Step;
  }

  lemma NothingRecordedYet(s: State, c: nat)
    requires Healthy(s) && c in s.callers && s.callers[c].ConfigureCanceling?
    ensures s.fields.schedulerCancel.None? && s.fields.recoveryCancel.None?
  {
    hide Records, Spared, Superseding, Counted, Numbered, Generations, Stopped;
  }

  lemma RecoveryLaunched(s: State, c: nat, cfg: Config, generation: nat, s': State)
    requires Healthy(s) && c in s.callers && s.callers[c] == ConfigureStarting(cfg, generation)
    requires Step(s, LaunchRecovery(c), s') && s.fields.recoveryCancel.None? && SchedulerServes(s, cfg, generation)
    ensures Serves(s', cfg, generation) && s'.lock.None? && s'.canceled == s.canceled
    ensures SameInstalled(s.fields, s'.fields)
    ensures c in s'.callers && s'.callers[c] == ConfigureReturned(Some(generation))
  {
    hide Healthy;
    StillInForce(s, c);
    NumberedBelow(s);
    assert s' == AfterLaunchRecovery(s, c, cfg, generation);
    hide Step;
    RecoveryShape(s, c, cfg, generation);
    hide AfterLaunchRecovery, SchedulerServes, RecoveryServes;
  }

  lemma RecoveryShape(s: State, c: nat, cfg: Config, generation: nat)
    requires InForce(s, generation) && s.fields.recoveryCancel.None? && s.nextID !in s.workers
    ensures var s' := AfterLaunchRecovery(s, c, cfg, generation);
      && s'.lock.None? && s'.canceled == s.canceled && s'.callers == s.callers[c := ConfigureReturned(Some(generation))]
      && SameInstalled(s.fields, s'.fields)
      && RecoveryServes(s', cfg, generation)
      && (SchedulerServes(s, cfg, generation) ==> SchedulerServes(s', cfg, generation))
  {
  }

  lemma NumberedBelow(s: State)
    requires Healthy(s)
    ensures s.nextID !in s.workers
  {
    hide Records, Spared, Superseding, Counted, Locked, Generations, Stopped;
  }

  lemma ArmStep(s: State, w: nat, now: int, at: int, time: DailyTime, s': State)
    requires w in s.workers && s.workers[w].SchedulerIdle? && s.fields.waitGroup > 0
    requires s.workers[w].floor.Some? ==> now >= s.workers[w].floor.value
    requires var cfg := s.workers[w].config;
      && cfg.zone.Some? && time in cfg.times && IsNext(cfg.zone.value, now, cfg.times, at, time.text)
      && s' == AfterArm(s, w, cfg, s.workers[w].generation, at, time)
    ensures Step(s, Arm(w, now, at, time), s')
  {
    hide AfterArm, IsNext;
  }

  /** The announcement is later than everything its generation announced, under another ID. */
  lemma ArmedLater(s: State, w: nat, now: int, at: int, time: DailyTime, s': State)
    requires Healthy(s) && Healthy(s') && Step(s, Arm(w, now, at, time), s')
    ensures w in s.workers && s.workers[w].SchedulerIdle? && s.workers[w].config.zone.Some?
    ensures forall p | p in s.publications && p.generation == s.workers[w].generation ::
              p.at < at && p.id != OccurrenceID(at, s.workers[w].config.zone.value, time.text)
    ensures s'.fields.next.Some? ==> InForce(s', s'.fields.next.value.publisher)
  {
    hide Superseding, Locked, Stopped, Counted, Numbered, Spared, Scheduling, Memory, IsNext, Scheduled, OccurrenceID,
         PublicationOk, ConfigOk;
    var q := s'.publications[|s.publications|];
    forall p | p in s.publications && p.generation == s.workers[w].generation
      ensures p.at < at && p.id != q.id
    {
      var i :| 0 <= i < |s.publications| && s.publications[i] == p;
      assert s'.publications[i] == p;
      DistinctIDs(s', p, q);
    }
  }

  lemma EndScheduleStep(s: State, w: nat, now: int, s': State)
    requires w in s.workers && s.fields.waitGroup > 0
    requires match s.workers[w]
      case SchedulerIdle(cfg, _, floor) =>
        && (floor.Some? ==> now >= floor.value)
        && (cfg.zone.Some? ==> NoNext(cfg.zone.value, now, cfg.times))
      case SchedulerArmed(_, _, _) => w in s.canceled
      case _ => false
    requires s' == WorkerMoves(s.(fields := ClearNext(s.fields, s.workers[w].generation)), w,
                               SchedulerEnded(s.workers[w].config, s.workers[w].generation))
    ensures Step(s, EndSchedule(w, now), s')
  {
    hide NoNext, WorkerMoves, ClearNext;
  }

  lemma AnnouncedByCurrent(s: State, w: nat)
    requires Healthy(s) && w in s.workers
    ensures s.fields.next.Some? ==> s.fields.next.value.publisher == s.fields.generation
    ensures s.workers[w].generation <= s.fields.generation
  {
    hide Records, Spared, Superseding, Locked, Stopped, Counted, Numbered, ConfigOk;
    WorkerGeneration(s, w);
  }

  lemma ReadConfigStep(s: State, c: nat, s': State)
    requires c in s.callers && s.callers[c].ManualWaiting?
    requires s' == CallerMoves(s, c, ManualHolding(s.fields.config, s.fields.generation))
    ensures Step(s, ReadConfig(c), s')
  {
  }

  lemma HeldIsInstalled(s: State, c: nat)
    requires Healthy(s) && c in s.callers && s.callers[c].ManualHolding?
    ensures s.callers[c].generation < |s.installed| && s.callers[c].config == s.installed[s.callers[c].generation]
  {
    hide Records, Spared, Superseding, Locked, Stopped, Counted, Numbered, ConfigOk;
    assert CallerGeneration(s, s.callers[c]);
  }

  // ----- starting a run -----

  /** The thread has come to startRun with these arguments. */
  ghost predicate StandsBefore(s: State, who: Starter, cfg: Config, generation: nat, id: string) {
    match who
    case ByCaller(c) => c in s.callers && s.callers[c] == ManualHolding(cfg, generation) && id == ""
    case ByScheduler(w) =>
      && w in s.workers && s.workers[w].SchedulerFiring?
      && s.workers[w].config == cfg && s.workers[w].generation == generation && s.workers[w].publication.id == id
  }

  function StartMove(who: Starter): Move {
    match who
    case ByCaller(c) => StartManual(c)
    case ByScheduler(w) => StartScheduled(w)
  }

  ghost function StartOf(s: State, who: Starter, cfg: Config, generation: nat, id: string): State
    requires StandsBefore(s, who, cfg, generation, id)
  {
    match who
    case ByCaller(c) => AfterStartManual(s, c, cfg, generation)
    case ByScheduler(w) => AfterStartScheduled(s, w, cfg, generation, s.workers[w].publication)
  }

  lemma StarterFacts(s: State, who: Starter, cfg: Config, generation: nat, id: string)
    requires Healthy(s) && StandsBefore(s, who, cfg, generation, id)
    ensures MemoryOk(s.fields.occurrences, s.fields.occurrenceOrder)
    ensures who.ByScheduler? ==> s.fields.waitGroup > 0 && id != ""
    ensures generation < |s.installed| && cfg == s.installed[generation]
  {
    hide Spared, Superseding, Locked, Stopped, Counted, Numbered, ConfigOk, MemoryOk, PublicationOk;
    match who {
      case ByCaller(c) =>
        assert CallerGeneration(s, s.callers[c]);
      case ByScheduler(w) =>
        LiveIsCounted(s, w);
        assert SchedulerOk(s, s.workers[w]);
        assert PublicationOk(s.installed, s.workers[w].publication);
        PublicationIsNamed(s.installed, s.workers[w].publication);
    }
  }

  lemma PublicationIsNamed(installed: seq<Config>, p: Publication)
    requires PublicationOk(installed, p)
    ensures p.id != ""
  {
  }

  lemma StartStep(s: State, who: Starter, cfg: Config, generation: nat, id: string)
    requires StandsBefore(s, who, cfg, generation, id) && (who.ByScheduler? ==> s.fields.waitGroup > 0)
    ensures Step(s, StartMove(who), StartOf(s, who, cfg, generation, id))
    ensures StartOf(s, who, cfg, generation, id).fields == StartRun(s.fields, cfg, generation, id, s.nextID).0
  {
    hide StartRun;
  }

  /** What a start does to the threads. */
  lemma StartShape(s: State, who: Starter, cfg: Config, generation: nat, id: string)
    requires StandsBefore(s, who, cfg, generation, id)
    ensures var s', outcome := StartOf(s, who, cfg, generation, id), StartRun(s.fields, cfg, generation, id, s.nextID).1;
      && (outcome.Started? ==> s.nextID in s'.workers && s'.workers[s.nextID] == RunWorking(cfg, generation))
      && (who.ByScheduler? && (outcome.Started? || outcome.Busy?) ==>
            s'.history == s.history + [s.workers[who.w].publication])
  {
    hide StartRun;
  }

  /** Some run is at work. */
  predicate AtWork(s: State) { exists w :: w in s.workers && s.workers[w].RunWorking? }

  /** The occurrence is among the last 512 remembered. */
  predicate Recent(s: State, id: string) {
    exists i :: 0 <= i < |s.history| <= i + 512 && s.history[i].id == id
  }

  /** What a start comes to, from the threads and the history: refused without a model and a message,
      or under a configuration that is not in force or not enabled; a duplicate if it was remembered
      lately; busy if a run is at work; and otherwise started. */
  ghost function Expected(s: State, who: Starter, cfg: Config, generation: nat, id: string): StartOutcome {
    if Blank(cfg.model) || Blank(cfg.message) then NotConfigured
    else if !InForce(s, generation) || !cfg.hostEnabled then ErrStopped
    else if who.ByScheduler? && Recent(s, id) then Duplicate
    else if AtWork(s) then Busy
    else Started
  }

  lemma StartIsExpected(s: State, who: Starter, cfg: Config, generation: nat, id: string)
    requires Healthy(s) && StandsBefore(s, who, cfg, generation, id)
    ensures StartRun(s.fields, cfg, generation, id, s.nextID).1 == Expected(s, who, cfg, generation, id)
  {
    hide Healthy, Last, Elements, Trim;
    StarterFacts(s, who, cfg, generation, id);
    InForceIsInstalled(s);
    if s.fields.running {
      WorkingRunExists(s);
    }
    RecentIsRemembered(s, id);
    assert s.fields.running <==> AtWork(s);
    hide AtWork, Recent;
  }

  lemma RecentIsRemembered(s: State, id: string)
    requires Healthy(s)
    ensures id in s.fields.occurrences <==> Recent(s, id)
  {
    HealthyMemory(s);
    hide Healthy, Memory;
    MemoryIsWindow(s, id);
  }

  lemma HealthyMemory(s: State)
    requires Healthy(s)
    ensures Memory(s)
  {
    hide Inv, Spared, Memory, Published, Scheduling;
  }

  /** What each outcome means. */
  lemma StartMeans(s: State, who: Starter, cfg: Config, generation: nat, id: string)
    requires Healthy(s) && StandsBefore(s, who, cfg, generation, id)
    ensures var (f, outcome) := StartRun(s.fields, cfg, generation, id, s.nextID);
      && (outcome.Started? ==>
            && f.active == Some(s.nextID) && !f.stopped && generation == f.generation && cfg == f.config
            && cfg.hostEnabled && !Blank(cfg.model) && !Blank(cfg.message)
            && (forall w | w in s.workers :: !s.workers[w].RunWorking?))
      && (outcome.Busy? ==> exists w :: w in s.workers && s.workers[w].RunWorking?)
      && (outcome.ErrStopped? ==> f.stopped || generation != f.generation || !cfg.hostEnabled)
      && (!outcome.Started? && !outcome.Busy? ==> f == s.fields)
  {
    hide Healthy, Remember, Trim, StandsBefore;
    StarterFacts(s, who, cfg, generation, id);
    InForceIsInstalled(s);
    StartRunTouches(s.fields, cfg, generation, id, s.nextID);
    if StartRun(s.fields, cfg, generation, id, s.nextID).1.Busy? {
      WorkingRunExists(s);
    }
  }

  lemma InForceIsInstalled(s: State)
    requires Healthy(s)
    ensures s.fields.generation < |s.installed| && s.fields.config == s.installed[s.fields.generation]
    ensures !s.fields.running ==> forall w | w in s.workers :: !s.workers[w].RunWorking?
  {
    hide Records, Spared, Superseding, Locked, Stopped, Numbered, ConfigOk;
  }

  lemma WorkingRunExists(s: State)
    requires Healthy(s) && s.fields.running
    ensures exists w :: w in s.workers && s.workers[w].RunWorking?
  {
    hide Records, Spared, Superseding, Locked, Stopped, Generations, Numbered;
    assert s.fields.active.value in s.workers;
  }

  lemma DuplicateMeans(s: State, who: Starter, cfg: Config, generation: nat, id: string) returns (i: nat)
    requires Healthy(s) && StandsBefore(s, who, cfg, generation, id)
    requires StartRun(s.fields, cfg, generation, id, s.nextID).1.Duplicate?
    ensures who.ByScheduler? && StartOf(s, who, cfg, generation, id).history == s.history
    ensures i < |s.history| <= i + MAX_REMEMBERED && s.history[i].id == id && s.history[i].generation < generation
  {
    hide Spared, Superseding, Locked, Stopped, Numbered, Counted, Trim, Remember, Records;
    i := DuplicateIsOlder(s, who.w);
  }

  // ----- ending -----

  lemma FinishRunStep(s: State, w: nat, s': State)
    requires w in s.workers && s.workers[w].RunWorking? && s.fields.waitGroup > 0
    requires s' == WorkerMoves(s.(fields := FinishRun(s.fields, w)), w,
                               RunFinished(s.workers[w].config, s.workers[w].generation))
    ensures Step(s, FinishRunning(w), s')
  {
    hide WorkerMoves, FinishRun;
  }

  lemma IdleMeansNoRun(s: State)
    requires Healthy(s) && s.fields.active.None?
    ensures forall w | w in s.workers :: !s.workers[w].RunWorking?
  {
    hide Records, Spared, Superseding, Locked, Stopped, Generations, Numbered;
  }

  function LeaveMove(w: nat, worker: Worker): Move {
    if worker.SchedulerEnded? then LeaveSchedule(w) else if worker.RunFinished? then LeaveRun(w) else LeaveRecovery(w)
  }

  lemma LeaveStep(s: State, w: nat, s': State)
    requires w in s.workers && s.fields.waitGroup > 0
    requires s.workers[w].SchedulerEnded? || s.workers[w].RunFinished? || s.workers[w].RecoveryEnded?
    requires s' == WorkerLeaves(if s.workers[w].SchedulerEnded? then s else CancelContext(s, w), w)
    ensures Step(s, LeaveMove(w, s.workers[w]), s')
  {
    hide WorkerLeaves, CancelContext;
  }

  lemma WaitGroupCounts(s: State)
    requires Healthy(s)
    ensures s.fields.waitGroup == |s.workers|
  {
    hide Records, Spared, Superseding, Locked, Stopped, Generations, Numbered;
  }

  lemma ReportStep(s: State, w: nat, s': State)
    requires w in s.workers && s.workers[w].RecoveryWorking? && s.fields.waitGroup > 0
    requires s' == s.(fields := SetRecoveryResult(s.fields, s.workers[w].generation))
    ensures Step(s, ReportRecovery(w), s')
  {
    hide SetRecoveryResult;
  }

  lemma EndRecoveryStep(s: State, w: nat, s': State)
    requires w in s.workers && s.workers[w].RecoveryWorking? && s.fields.waitGroup > 0
    requires s' == WorkerMoves(s.(fields := EndRecovery(s.fields, s.workers[w].generation)), w,
                               RecoveryEnded(s.workers[w].config, s.workers[w].generation))
    ensures Step(s, EndRecovering(w), s')
  {
    hide WorkerMoves, EndRecovery;
  }

  lemma StopStep(s: State, c: nat, s': State)
    requires c in s.callers && s.callers[c].ShutdownHolding? && s' == AfterStop(s, c)
    ensures Step(s, StopService(c), s') && Stops(s, c, s')
  {
    hide AfterStop;
  }

  lemma StoppedAnnouncesNothing(s: State)
    requires Healthy(s)
    ensures s.fields.stopped ==> s.fields.next.None?
  {
    hide Records, Spared, Superseding, Locked, Counted, Generations, Numbered;
  }
}
