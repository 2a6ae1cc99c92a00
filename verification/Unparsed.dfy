/**
 What becomes of a configuration that does not parse: it takes the place of the one before, so that
 nothing goes on under that, and nothing is ever started under it.
 */
module Unparsed {
  import opened Text
  import opened Configuration
  import opened Schedule
  import opened ServiceState
  import opened Lifecycle

  // ----- the configuration that a failure leaves in force -----

  predicate NothingRecorded(f: Fields) {
    && f.next.None? && f.schedulerCancel.None?
    && f.recoveryCancel.None? && f.recoveryGeneration == 0 && !f.recoveryPending
  }

  predicate SameRunAndMemory(f: Fields, f': Fields) {
    && f'.running == f.running && f'.active == f.active && f'.activeCancel == f.activeCancel
    && f'.waitGroup == f.waitGroup && f'.occurrences == f.occurrences && f'.occurrenceOrder == f.occurrenceOrder
  }

  /** Whatever is superseded gives way to the configuration that was parsed, or else to one with the
      host enabled and nothing to send. Nothing is announced and no scheduler or recovery recorded any
      more; the run at work and the memory stay. */
  lemma SupersededBy(f: Fields, parsed: Option<Config>)
    ensures var f' := Supersede(f, parsed);
      && f'.generation == f.generation + 1 && (f'.configFailed <==> parsed.None?)
      && NothingRecorded(f') && SameRunAndMemory(f, f')
      && match parsed
         case Some(cfg) => f'.config == cfg
         case None =>
           && f'.config.hostEnabled && !f'.config.scheduleEnabled
           && Blank(f'.config.model) && Blank(f'.config.message)
  {
  }

  /** A service that is stopped keeps its configuration, its run and its memory. */
  lemma StoppedAs(f: Fields)
    ensures var (f', cancels) := Stop(f);
      && f'.stopped && (cancels.None? <==> f.stopped) && SameRunAndMemory(f, f')
      && f'.generation == f.generation && f'.config == f.config && f'.configFailed == f.configFailed
      && (if f.stopped then f' == f else NothingRecorded(f'))
  {
  }

  // ----- nothing starts under it -----

  /** Generation g is of a configuration that did not parse, no goroutine belongs to it, and no caller
      is about to start one. */
  ghost predicate Vacant(s: State, g: nat) {
    && g <= s.fields.generation && g < |s.installed| && Blank(s.installed[g].model)
    && (g == s.fields.generation ==> s.fields.configFailed)
    && (forall w | w in s.workers :: s.workers[w].generation != g)
    && (forall c | c in s.callers :: StartsNothing(s.callers[c], g))
  }

  predicate StartsNothing(c: Caller, g: nat) {
    match c
    case ConfigureCanceling(parsed, generation, _) => generation == g ==> parsed.None?
    case ConfigureStarting(_, generation) => generation != g
    case _ => true
  }

  /** A step that brings in no goroutine of generation g and no caller that would start one. */
  ghost predicate AddsNothing(s: State, g: nat, s': State) {
    && s.installed <= s'.installed && s.fields.generation <= s'.fields.generation
    && (s'.fields.generation == s.fields.generation ==> s'.fields.configFailed == s.fields.configFailed)
    && (forall w | w in s'.workers ::
          s'.workers[w].generation != g || (w in s.workers && s'.workers[w].generation == s.workers[w].generation))
    && (forall c | c in s'.callers :: StartsNothing(s'.callers[c], g) || (c in s.callers && s'.callers[c] == s.callers[c]))
  }

  lemma StaysVacant(s: State, g: nat, s': State)
    requires Vacant(s, g) && AddsNothing(s, g, s')
    ensures Vacant(s', g)
  {
    hide Trim;
  }

  lemma InstallAddsNothing(s: State, c: nat, g: nat, s': State)
    requires Vacant(s, g) && Installs(s, c, s')
    ensures AddsNothing(s, g, s')
  {
    hide SameConfig, Cancels, Trim;
  }

  lemma SchedulerAddsNothing(s: State, c: nat, g: nat, s': State)
    requires Vacant(s, g) && LaunchesScheduler(s, c, s')
    ensures AddsNothing(s, g, s')
  {
    hide Trim;
    assert StartsNothing(s.callers[c], g);
  }

  lemma RecoveryAddsNothing(s: State, c: nat, g: nat, s': State)
    requires Vacant(s, g) && LaunchesRecovery(s, c, s')
    ensures AddsNothing(s, g, s')
  {
    hide Trim;
    assert StartsNothing(s.callers[c], g);
  }

  lemma CancelAddsNothing(s: State, c: nat, g: nat, s': State)
    requires Vacant(s, g) && CancelsOne(s, c, s')
    ensures AddsNothing(s, g, s')
  {
    hide Trim;
    assert StartsNothing(s.callers[c], g);
  }

  /** A manual start under generation g is refused as not configured. */
  lemma ManualIsRefused(s: State, cfg: Config, g: nat, id: string, context: nat)
    requires Blank(cfg.model)
    ensures StartRun(s.fields, cfg, g, id, context) == (s.fields, NotConfigured)
  {
  }

  lemma ManualAddsNothing(s: State, c: nat, g: nat, s': State)
    requires Generations(s) && Vacant(s, g) && StartsManual(s, c, s')
    ensures AddsNothing(s, g, s')
  {
    hide ConfigOk, Trim, StartRun;
    assert CallerGeneration(s, s.callers[c]);
    var cfg, generation := s.callers[c].config, s.callers[c].generation;
    hide CallerGeneration;
    StartRunTouches(s.fields, cfg, generation, "", s.nextID);
    if generation == g {
      ManualIsRefused(s, cfg, g, "", s.nextID);
    }
    hide Generations, Vacant;
  }

  lemma ScheduledAddsNothing(s: State, v: nat, g: nat, s': State)
    requires Vacant(s, g) && StartsScheduled(s, v, s')
    ensures AddsNothing(s, g, s')
  {
    hide Trim, StartRun;
    StartRunTouches(s.fields, s.workers[v].config, s.workers[v].generation, s.workers[v].publication.id, s.nextID);
  }

  lemma CallingAddsNothing(s: State, m: Move, g: nat, s': State)
    requires Step(s, m, s') && (m.Arrive? || m.TakeLock? || m.ReadConfig? || m.StopService? || m.FinishWaiting?)
    ensures AddsNothing(s, g, s')
  {
    hide ConfigOk, Cancels;
  }

  lemma SchedulingAddsNothing(s: State, m: Move, g: nat, s': State)
    requires Step(s, m, s') && (m.Arm? || m.EndSchedule? || m.LeaveSchedule? || m.Fire?)
    ensures AddsNothing(s, g, s')
  {
    hide IsNext, NoNext, OccurrenceID;
  }

  lemma WorkingAddsNothing(s: State, m: Move, g: nat, s': State)
    requires Step(s, m, s')
    requires m.FinishRunning? || m.LeaveRun? || m.ReportRecovery? || m.ExpireRecovery? || m.EndRecovering? || m.LeaveRecovery?
    ensures AddsNothing(s, g, s')
  {
  }

  lemma StepStaysVacant(s: State, m: Move, g: nat, s': State)
    requires Inv(s) && Vacant(s, g) && Step(s, m, s')
    ensures Vacant(s', g)
  {
    hide Vacant, AddsNothing, Numbered, Counted, Generations, Locked, Stopped, Superseding,
         Arrives, TakesLock, Installs, CancelsOne, LaunchesScheduler, LaunchesRecovery, ReadsConfig,
         StartsManual, Stops, FinishesWaiting, Arms, EndsSchedule, LeavesSchedule, Fires, StartsScheduled, FinishesRunning,
         LeavesRun, ReportsRecovery, RecoveryExpires, EndsRecovering, LeavesRecovery;
    match m {
      case InstallConfig(c) => InstallAddsNothing(s, c, g, s');
      case LaunchScheduler(c) => SchedulerAddsNothing(s, c, g, s');
      case LaunchRecovery(c) => RecoveryAddsNothing(s, c, g, s');
      case CancelOne(c) => CancelAddsNothing(s, c, g, s');
      case StartManual(c) => ManualAddsNothing(s, c, g, s');
      case StartScheduled(v) => ScheduledAddsNothing(s, v, g, s');
      case _ =>
        hide Step;
        if m.Arrive? || m.TakeLock? || m.ReadConfig? || m.StopService? || m.FinishWaiting? {
          CallingAddsNothing(s, m, g, s');
        } else if m.Arm? || m.EndSchedule? || m.LeaveSchedule? || m.Fire? {
          SchedulingAddsNothing(s, m, g, s');
        } else {
          WorkingAddsNothing(s, m, g, s');
        }
    }
    StaysVacant(s, g, s');
  }

  /** The moment a configuration that does not parse is installed. */
  lemma InstalledVacant(s: State, c: nat, s': State)
    requires Inv(s) && Installs(s, c, s') && s.callers[c] == ConfigureHolding(None) && !s.fields.stopped
    ensures s'.fields.generation == s.fields.generation + 1 && Vacant(s', s'.fields.generation)
  {
    SupersededBy(s.fields, None);
    hide Numbered, Counted, Locked, Stopped, Superseding, SameConfig, Cancels, ConfigOk, Trim;
    forall w | w in s.workers
      ensures s.workers[w].generation <= s.fields.generation
    {
    }
    forall d | d in s.callers
      ensures s.callers[d].ConfigureCanceling? || s.callers[d].ConfigureStarting? ==>
                s.callers[d].generation <= s.fields.generation
    {
      assert CallerGeneration(s, s.callers[d]);
    }
  }

  /** Once a configuration that does not parse is installed, no goroutine is ever started under its
      generation, whatever happens, and every start under it is refused as not configured. */
  lemma NothingRunsUnparsed(states: seq<State>, moves: seq<Move>, i: nat, c: nat, k: nat)
    requires Execution(states, moves) && i < |moves| && i < k < |states|
    requires moves[i] == InstallConfig(c) && c in states[i].callers && states[i].callers[c] == ConfigureHolding(None)
    requires !states[i].fields.stopped
    ensures var s, g := states[k], states[i].fields.generation + 1;
      && g <= s.fields.generation && (g == s.fields.generation ==> s.fields.configFailed)
      && (forall w | w in s.workers :: s.workers[w].generation != g)
      && (forall d, context | d in s.callers && s.callers[d].ManualHolding? && s.callers[d].generation == g ::
            StartRun(s.fields, s.callers[d].config, g, "", context) == (s.fields, NotConfigured))
  {
    hide Step, Initial, Inv, Vacant, StartRun;
    var s, g := states[k], states[i].fields.generation + 1;
    StaysUnparsed(states, moves, i, c, k);
    AlwaysInv(states, moves, k);
    StartsAreRefused(s, g);
  }

  lemma {:induction false} StaysUnparsed(states: seq<State>, moves: seq<Move>, i: nat, c: nat, k: nat)
    requires Execution(states, moves) && i < |moves| && i < k < |states|
    requires moves[i] == InstallConfig(c) && c in states[i].callers && states[i].callers[c] == ConfigureHolding(None)
    requires !states[i].fields.stopped
    ensures Vacant(states[k], states[i].fields.generation + 1)
    decreases k
  {
    hide Initial, Inv, Vacant, Installs;
    if k == i + 1 {
      AlwaysInv(states, moves, i);
      assert Step(states[i], moves[i], states[i + 1]);
      InstalledVacant(states[i], c, states[i + 1]);
    } else {
      hide Step;
      StaysUnparsed(states, moves, i, c, k - 1);
      AlwaysInv(states, moves, k - 1);
      StepStaysVacant(states[k - 1], moves[k - 1], states[i].fields.generation + 1, states[k]);
    }
  }

  lemma StartsAreRefused(s: State, g: nat)
    requires Inv(s) && Vacant(s, g)
    ensures g <= s.fields.generation && (g == s.fields.generation ==> s.fields.configFailed)
    ensures forall w | w in s.workers :: s.workers[w].generation != g
    ensures forall d, context | d in s.callers && s.callers[d].ManualHolding? && s.callers[d].generation == g ::
              StartRun(s.fields, s.callers[d].config, g, "", context) == (s.fields, NotConfigured)
  {
    hide Numbered, Counted, Locked, Stopped, Superseding, ConfigOk, Trim, StartRun;
    forall d, context | d in s.callers && s.callers[d].ManualHolding? && s.callers[d].generation == g
      ensures StartRun(s.fields, s.callers[d].config, g, "", context) == (s.fields, NotConfigured)
    {
      assert CallerGeneration(s, s.callers[d]);
      ManualIsRefused(s, s.callers[d].config, g, "", context);
    }
  }
}
