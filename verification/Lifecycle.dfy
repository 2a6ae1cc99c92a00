/**
 The service lifecycle as a step system. Callers (configure, manual start, shutdown) and the
 goroutines they leave behind (schedulers, runs, startup recoveries) interleave freely; every
 critical section, every cancel and every wait is one step. A goroutine is known by the context
 it runs under.
 */
module Lifecycle {
  import opened Text
  import opened Civil
  import opened Configuration
  import opened Schedule
  import opened ServiceState

  /** A caller and where it stands. `todo` are the contexts it has still to cancel. */
  datatype Caller =
    | ConfigureWaiting(parsed: Option<Config>)
    | ConfigureHolding(parsed: Option<Config>)
    | ConfigureCanceling(parsed: Option<Config>, generation: nat, todo: seq<nat>)
    | ConfigureStarting(config: Config, generation: nat)
    | ConfigureReturned(installed: Option<nat>)
    | ManualWaiting
    | ManualHolding(config: Config, generation: nat)
    | ManualReturned
    | ShutdownWaiting
    | ShutdownHolding
    | ShutdownCanceling(todo: seq<nat>)
    | ShutdownReturned(first: bool)

  /** An occurrence a scheduler has computed and announced. */
  datatype Publication = Publication(generation: nat, at: int, time: DailyTime, id: string)

  /** A counted goroutine, the configuration it was given, and where it stands. `floor` is the
      last instant a scheduler's timer fired at. */
  datatype Worker =
    | SchedulerIdle(config: Config, generation: nat, floor: Option<int>)
    | SchedulerArmed(config: Config, generation: nat, publication: Publication)
    | SchedulerFiring(config: Config, generation: nat, publication: Publication)
    | SchedulerEnded(config: Config, generation: nat)
    | RunWorking(config: Config, generation: nat)
    | RunFinished(config: Config, generation: nat)
    | RecoveryWorking(config: Config, generation: nat)
    | RecoveryEnded(config: Config, generation: nat)

  predicate IsScheduler(w: Worker) { w.SchedulerIdle? || w.SchedulerArmed? || w.SchedulerFiring? }

  /** `installed[g]` is the configuration of generation g; `publications` and `history` record
      what schedulers announced and which of it was remembered, in order. */
  datatype State = State(
    fields: Fields,
    lock: Option<nat>,
    callers: map<nat, Caller>,
    workers: map<nat, Worker>,
    canceled: set<nat>,
    parent: map<nat, nat>,
    nextID: nat,
    installed: seq<Config>,
    publications: seq<Publication>,
    history: seq<Publication>)

  function Todo(c: Caller): seq<nat> {
    if c.ConfigureCanceling? || c.ShutdownCanceling? then c.todo else []
  }

  /** The callers that hold configureMu. */
  predicate HoldsLock(c: Caller) {
    c.ConfigureHolding? || c.ConfigureCanceling? || c.ConfigureStarting? || c.ShutdownHolding?
  }

  ghost predicate ConfigOk(cfg: Config) {
    (cfg.zone.Some? ==> ZoneOk(cfg.zone.value)) && (forall t | t in cfg.times :: Canonical(t))
  }

  // ----- steps -----

  datatype Move =
    | Arrive(caller: Caller)
    | TakeLock(c: nat)
    | InstallConfig(c: nat)
    | CancelOne(c: nat)
    | LaunchScheduler(c: nat)
    | LaunchRecovery(c: nat)
    | ReadConfig(c: nat)
    | StartManual(c: nat)
    | StopService(c: nat)
    | FinishWaiting(c: nat)
    | Arm(w: nat, now: int, at: int, time: DailyTime)
    | EndSchedule(w: nat, now: int)
    | LeaveSchedule(w: nat)
    | Fire(w: nat)
    | StartScheduled(w: nat)
    | FinishRunning(w: nat)
    | LeaveRun(w: nat)
    | ReportRecovery(w: nat)
    | ExpireRecovery(w: nat)
    | EndRecovering(w: nat)
    | LeaveRecovery(w: nat)

  function CallerMoves(s: State, c: nat, to: Caller): State { s.(callers := s.callers[c := to]) }

  function WorkerMoves(s: State, w: nat, to: Worker): State { s.(workers := s.workers[w := to]) }

  /** The goroutine returns: its deferred wg.Done takes it off the books. */
  function WorkerLeaves(s: State, w: nat): State
    requires s.fields.waitGroup > 0
  {
    s.(workers := s.workers - {w}, fields := s.fields.(waitGroup := s.fields.waitGroup - 1))
  }

  /** Canceling a context cancels its children. */
  function CancelContext(s: State, x: nat): State {
    s.(canceled := s.canceled + {x} + set y | y in s.parent && s.parent[y] == x)
  }

  function Unlock(s: State): State { s.(lock := None) }

  function Spawn(s: State, w: Worker): State { s.(workers := s.workers[s.nextID := w], nextID := s.nextID + 1) }

  predicate CallerAt(s: State, c: nat) { c in s.callers }

  predicate WorkerAt(s: State, w: nat) { w in s.workers && s.fields.waitGroup > 0 }

  ghost predicate Arrives(s: State, caller: Caller, s': State) {
    && (caller.ConfigureWaiting? || caller.ManualWaiting? || caller.ShutdownWaiting?)
    && (caller.ConfigureWaiting? && caller.parsed.Some? ==> ConfigOk(caller.parsed.value))
    && s' == s.(callers := s.callers[s.nextID := caller], nextID := s.nextID + 1)
  }

  ghost predicate TakesLock(s: State, c: nat, s': State) {
    && CallerAt(s, c) && s.lock.None? && (s.callers[c].ConfigureWaiting? || s.callers[c].ShutdownWaiting?)
    && s' == CallerMoves(s.(lock := Some(c)), c,
                         if s.callers[c].ConfigureWaiting? then ConfigureHolding(s.callers[c].parsed) else ShutdownHolding)
  }

  ghost predicate Installs(s: State, c: nat, s': State) {
    && CallerAt(s, c) && s.callers[c].ConfigureHolding?
    && s' == AfterInstall(s, c, s.callers[c].parsed)
  }

  ghost predicate CancelsOne(s: State, c: nat, s': State) {
    && CallerAt(s, c) && Todo(s.callers[c]) != []
    && s' == CallerMoves(CancelContext(s, s.callers[c].todo[0]), c, s.callers[c].(todo := s.callers[c].todo[1..]))
  }

  ghost predicate LaunchesScheduler(s: State, c: nat, s': State) {
    && CallerAt(s, c) && s.callers[c].ConfigureCanceling? && s.callers[c].todo == []
    && s' == AfterLaunchScheduler(s, c, s.callers[c].parsed, s.callers[c].generation)
  }

  ghost predicate LaunchesRecovery(s: State, c: nat, s': State) {
    && CallerAt(s, c) && s.callers[c].ConfigureStarting?
    && s' == AfterLaunchRecovery(s, c, s.callers[c].config, s.callers[c].generation)
  }

  ghost predicate ReadsConfig(s: State, c: nat, s': State) {
    && CallerAt(s, c) && s.callers[c].ManualWaiting?
    && s' == CallerMoves(s, c, ManualHolding(s.fields.config, s.fields.generation))
  }

  ghost predicate StartsManual(s: State, c: nat, s': State) {
    && CallerAt(s, c) && s.callers[c].ManualHolding?
    && s' == AfterStartManual(s, c, s.callers[c].config, s.callers[c].generation)
  }

  ghost predicate Stops(s: State, c: nat, s': State) {
    && CallerAt(s, c) && s.callers[c].ShutdownHolding?
    && s' == AfterStop(s, c)
  }

  ghost predicate FinishesWaiting(s: State, c: nat, s': State) {
    && CallerAt(s, c) && s.callers[c].ShutdownCanceling? && s.callers[c].todo == [] && s.fields.waitGroup == 0
    && s' == CallerMoves(s, c, ShutdownReturned(true))
  }

  ghost predicate Arms(s: State, w: nat, now: int, at: int, time: DailyTime, s': State) {
    && WorkerAt(s, w) && s.workers[w].SchedulerIdle?
    && (s.workers[w].floor.Some? ==> now >= s.workers[w].floor.value)
    && s.workers[w].config.zone.Some? && time in s.workers[w].config.times
    && IsNext(s.workers[w].config.zone.value, now, s.workers[w].config.times, at, time.text)
    && s' == AfterArm(s, w, s.workers[w].config, s.workers[w].generation, at, time)
  }

  /** A scheduler ends when there is no next occurrence, or when it is canceled while it waits. */
  ghost predicate EndsSchedule(s: State, w: nat, now: int, s': State) {
    && WorkerAt(s, w)
    && (match s.workers[w]
        case SchedulerIdle(config, _, floor) =>
          && (floor.Some? ==> now >= floor.value)
          && (config.zone.Some? ==> NoNext(config.zone.value, now, config.times))
        case SchedulerArmed(_, _, _) => w in s.canceled
        case _ => false)
    && s' == WorkerMoves(s.(fields := ClearNext(s.fields, s.workers[w].generation)), w,
                         SchedulerEnded(s.workers[w].config, s.workers[w].generation))
  }

  ghost predicate LeavesSchedule(s: State, w: nat, s': State) {
    && WorkerAt(s, w) && s.workers[w].SchedulerEnded?
    && s' == WorkerLeaves(s, w)
  }

  ghost predicate Fires(s: State, w: nat, s': State) {
    && WorkerAt(s, w) && s.workers[w].SchedulerArmed?
    && s' == WorkerMoves(s, w, SchedulerFiring(s.workers[w].config, s.workers[w].generation, s.workers[w].publication))
  }

  ghost predicate StartsScheduled(s: State, w: nat, s': State) {
    && WorkerAt(s, w) && s.workers[w].SchedulerFiring?
    && s' == AfterStartScheduled(s, w, s.workers[w].config, s.workers[w].generation, s.workers[w].publication)
  }

  ghost predicate FinishesRunning(s: State, w: nat, s': State) {
    && WorkerAt(s, w) && s.workers[w].RunWorking?
    && s' == WorkerMoves(s.(fields := FinishRun(s.fields, w)), w, RunFinished(s.workers[w].config, s.workers[w].generation))
  }

  ghost predicate LeavesRun(s: State, w: nat, s': State) {
    && WorkerAt(s, w) && s.workers[w].RunFinished?
    && s' == WorkerLeaves(CancelContext(s, w), w)
  }

  ghost predicate ReportsRecovery(s: State, w: nat, s': State) {
    && WorkerAt(s, w) && s.workers[w].RecoveryWorking?
    && s' == s.(fields := SetRecoveryResult(s.fields, s.workers[w].generation))
  }

  ghost predicate RecoveryExpires(s: State, w: nat, s': State) {
    && WorkerAt(s, w) && s.workers[w].RecoveryWorking?
    && s' == CancelContext(s, w)
  }

  ghost predicate EndsRecovering(s: State, w: nat, s': State) {
    && WorkerAt(s, w) && s.workers[w].RecoveryWorking?
    && s' == WorkerMoves(s.(fields := EndRecovery(s.fields, s.workers[w].generation)), w,
                         RecoveryEnded(s.workers[w].config, s.workers[w].generation))
  }

  ghost predicate LeavesRecovery(s: State, w: nat, s': State) {
    && WorkerAt(s, w) && s.workers[w].RecoveryEnded?
    && s' == WorkerLeaves(CancelContext(s, w), w)
  }

  ghost predicate Step(s: State, m: Move, s': State) {
    match m
    case Arrive(caller) => Arrives(s, caller, s')
    case TakeLock(c) => TakesLock(s, c, s')
    case InstallConfig(c) => Installs(s, c, s')
    case CancelOne(c) => CancelsOne(s, c, s')
    case LaunchScheduler(c) => LaunchesScheduler(s, c, s')
    case LaunchRecovery(c) => LaunchesRecovery(s, c, s')
    case ReadConfig(c) => ReadsConfig(s, c, s')
    case StartManual(c) => StartsManual(s, c, s')
    case StopService(c) => Stops(s, c, s')
    case FinishWaiting(c) => FinishesWaiting(s, c, s')
    case Arm(w, now, at, time) => Arms(s, w, now, at, time, s')
    case EndSchedule(w, now) => EndsSchedule(s, w, now, s')
    case LeaveSchedule(w) => LeavesSchedule(s, w, s')
    case Fire(w) => Fires(s, w, s')
    case StartScheduled(w) => StartsScheduled(s, w, s')
    case FinishRunning(w) => FinishesRunning(s, w, s')
    case LeaveRun(w) => LeavesRun(s, w, s')
    case ReportRecovery(w) => ReportsRecovery(s, w, s')
    case ExpireRecovery(w) => RecoveryExpires(s, w, s')
    case EndRecovering(w) => EndsRecovering(s, w, s')
    case LeaveRecovery(w) => LeavesRecovery(s, w, s')
  }

  ghost function AfterInstall(s: State, c: nat, parsed: Option<Config>): State {
    var (f, outcome) := Install(s.fields, parsed);
    match outcome
    case Superseded(generation, todo) =>
      CallerMoves(s.(fields := f, installed := s.installed + [f.config]), c, ConfigureCanceling(parsed, generation, todo))
    case _ => Unlock(CallerMoves(s, c, ConfigureReturned(None)))
  }

  function AfterLaunchScheduler(s: State, c: nat, parsed: Option<Config>, generation: nat): State {
    if parsed.None? then Unlock(CallerMoves(s, c, ConfigureReturned(Some(generation))))
    else
      var (f, started) := AddScheduler(s.fields, generation, s.nextID);
      if parsed.value.hostEnabled && parsed.value.scheduleEnabled && started then
        Spawn(CallerMoves(s.(fields := f), c, ConfigureStarting(parsed.value, generation)),
              SchedulerIdle(parsed.value, generation, None))
      else
        CallerMoves(s, c, ConfigureStarting(parsed.value, generation))
  }

  function AfterLaunchRecovery(s: State, c: nat, config: Config, generation: nat): State {
    var (f, started) := AddRecovery(s.fields, generation, s.nextID);
    if config.hostEnabled && started then
      Spawn(Unlock(CallerMoves(s.(fields := f), c, ConfigureReturned(Some(generation)))),
            RecoveryWorking(config, generation))
    else
      Unlock(CallerMoves(s, c, ConfigureReturned(Some(generation))))
  }

  function AfterStartManual(s: State, c: nat, config: Config, generation: nat): State {
    var (f, outcome) := StartRun(s.fields, config, generation, "", s.nextID);
    var s' := CallerMoves(s.(fields := f), c, ManualReturned);
    if outcome.Started? then Spawn(s', RunWorking(config, generation)) else s'
  }

  function AfterStop(s: State, c: nat): State {
    var (f, cancels) := Stop(s.fields);
    Unlock(CallerMoves(s.(fields := f), c,
                       if cancels.Some? then ShutdownCanceling(cancels.value) else ShutdownReturned(false)))
  }

  function AfterArm(s: State, w: nat, config: Config, generation: nat, at: int, time: DailyTime): State
    requires config.zone.Some?
  {
    var p := Publication(generation, at, time, OccurrenceID(at, config.zone.value, time.text));
    WorkerMoves(s.(fields := PublishNext(s.fields, generation, p.id, at), publications := s.publications + [p]), w,
                SchedulerArmed(config, generation, p))
  }

  /** The run's context is a child of the scheduler's. */
  function AfterStartScheduled(s: State, w: nat, config: Config, generation: nat, p: Publication): State {
    var (f, outcome) := StartRun(s.fields, config, generation, p.id, s.nextID);
    var s' := WorkerMoves(s.(fields := f), w, SchedulerIdle(config, generation, Some(p.at)));
    var s'' := if outcome.Started? || outcome.Busy?
               then s'.(history := s.history + [p]) else s';
    if outcome.Started? then
      Spawn(s''.(parent := s.parent[s.nextID := w], canceled := if w in s.canceled then s.canceled + {s.nextID} else s.canceled),
            RunWorking(config, generation))
    else s''
  }

  ghost predicate Initial(s: State) {
    && s.fields == Fields(ZERO_CONFIG, 0, false, None, None, false, false, None, None, None, 0, false, {}, [], 0)
    && s.lock.None? && s.callers == map[] && s.workers == map[] && s.canceled == {} && s.parent == map[]
    && s.installed == [ZERO_CONFIG] && s.publications == [] && s.history == []
  }

  ghost predicate Execution(states: seq<State>, moves: seq<Move>) {
    && |states| == |moves| + 1 && Initial(states[0])
    && forall i | 0 <= i < |moves| :: Step(states[i], moves[i], states[i + 1])
  }

  // ----- the invariant -----

  predicate InForce(s: State, generation: nat) { generation == s.fields.generation && !s.fields.stopped }

  predicate Below(o: Option<nat>, n: nat) { o.Some? ==> o.value < n }

  /** Numbers are handed out once. */
  predicate Numbered(s: State) {
    && (forall c | c in s.callers :: c < s.nextID)
    && (forall w | w in s.workers :: w < s.nextID)
    && (forall x | x in s.canceled :: x < s.nextID)
    && (forall c | c in s.callers :: forall x | x in Todo(s.callers[c]) :: x < s.nextID)
    && Below(s.fields.schedulerCancel, s.nextID) && Below(s.fields.activeCancel, s.nextID)
    && Below(s.fields.recoveryCancel, s.nextID)
    && (forall y | y in s.parent :: y < s.nextID)
  }

  /** The wait group counts the live goroutines, and the three ways to say that a run is active
      agree and name the one run that is working. */
  ghost predicate Counted(s: State) {
    && s.fields.waitGroup == |s.workers|
    && (s.fields.running <==> s.fields.active.Some?)
    && s.fields.activeCancel == s.fields.active
    && (s.fields.active.Some? ==> s.fields.active.value in s.workers && s.workers[s.fields.active.value].RunWorking?)
    && (forall w | w in s.workers && s.workers[w].RunWorking? :: s.fields.active == Some(w))
  }

  /** Everything that carries a generation carries the configuration installed under it. */
  ghost predicate Generations(s: State) {
    && |s.installed| == s.fields.generation + 1 && s.installed[s.fields.generation] == s.fields.config
    && s.installed[0] == ZERO_CONFIG
    && (forall cfg | cfg in s.installed :: ConfigOk(cfg))
    && (forall p | p in s.publications :: p.generation <= s.fields.generation)
    && (forall w | w in s.workers ::
          0 < s.workers[w].generation < |s.installed| && s.workers[w].config == s.installed[s.workers[w].generation])
    && (forall c | c in s.callers :: CallerGeneration(s, s.callers[c]))
    && s.fields.recoveryGeneration in {0, s.fields.generation}
    && (s.fields.next.Some? ==> s.fields.next.value.publisher == s.fields.generation && !s.fields.stopped)
  }

  ghost predicate CallerGeneration(s: State, c: Caller) {
    match c
    case ConfigureWaiting(parsed) => parsed.Some? ==> ConfigOk(parsed.value)
    case ConfigureHolding(parsed) => parsed.Some? ==> ConfigOk(parsed.value)
    case ConfigureCanceling(parsed, generation, _) =>
      && 0 < generation == s.fields.generation < |s.installed|
      && (parsed.Some? ==> parsed.value == s.installed[generation])
    case ConfigureStarting(config, generation) =>
      0 < generation == s.fields.generation < |s.installed| && config == s.installed[generation]
    case ConfigureReturned(installed) => installed.Some? ==> installed.value <= s.fields.generation
    case ManualHolding(config, generation) => generation < |s.installed| && config == s.installed[generation]
    case _ => true
  }

  /** configureMu has one holder; a reconfiguration under way is the newest one. */
  predicate Locked(s: State) {
    && (forall c | c in s.callers && HoldsLock(s.callers[c]) :: s.lock == Some(c))
    && (s.lock.Some? ==> s.lock.value in s.callers && HoldsLock(s.callers[s.lock.value]))
    && (forall c | c in s.callers && s.callers[c].ConfigureCanceling? ::
          && s.fields.schedulerCancel.None? && s.fields.recoveryCancel.None? && s.fields.recoveryGeneration == 0
          && !s.fields.stopped
          && (forall p | p in s.publications :: p.generation < s.callers[c].generation)
          && (forall d | d in s.callers :: s.callers[d] != ConfigureReturned(Some(s.callers[c].generation))))
    && (forall c | c in s.callers && s.callers[c].ConfigureStarting? ::
          && s.fields.recoveryCancel.None? && s.fields.recoveryGeneration == 0 && !s.fields.stopped)
  }

  /** After the first shutdown has closed the service. */
  predicate Stopped(s: State) {
    && (s.fields.stopped ==>
          && s.fields.next.None? && s.fields.schedulerCancel.None? && s.fields.recoveryCancel.None?
          && s.fields.recoveryGeneration == 0)
    && (forall c | c in s.callers :: s.callers[c].ShutdownCanceling? ==> s.fields.stopped)
    && (forall c | c in s.callers :: s.callers[c] == ShutdownReturned(true) ==> s.fields.stopped && s.workers == map[])
  }

  /** Somebody is about to cancel x: the reconfiguration that superseded the generation, or the
      shutdown. */
  predicate Pending(s: State, x: nat, generation: nat) {
    exists c :: c in s.callers && PendingIn(s, s.callers[c], x, generation)
  }

  predicate PendingIn(s: State, c: Caller, x: nat, generation: nat) {
    && x in Todo(c)
    && (c.ConfigureCanceling? ==> c.generation == generation + 1 == s.fields.generation)
    && (c.ShutdownCanceling? ==> generation == s.fields.generation)
  }

  predicate Recorded(s: State, w: nat)
    requires w in s.workers
  {
    var worker := s.workers[w];
    && (IsScheduler(worker) ==> s.fields.schedulerCancel == Some(w))
    && (worker.RecoveryWorking? ==> s.fields.recoveryCancel == Some(w) && s.fields.recoveryGeneration == worker.generation)
  }

  predicate Cancelable(w: Worker) { IsScheduler(w) || w.RunWorking? || w.RecoveryWorking? }

  /** A goroutine whose configuration is in force can be reached to be canceled; one whose
      configuration is not has been canceled or is about to be. */
  predicate Superseding(s: State) {
    forall w | w in s.workers && Cancelable(s.workers[w]) ::
      if InForce(s, s.workers[w].generation) then Recorded(s, w)
      else w in s.canceled || Pending(s, w, s.workers[w].generation)
  }

  ghost predicate Basics(s: State) {
    Numbered(s) && Counted(s) && Generations(s) && Locked(s) && Stopped(s)
  }

  ghost predicate Inv(s: State) { Basics(s) && Superseding(s) }

  // ----- facts about single critical sections -----

  lemma CancelsAre(f: Fields)
    ensures forall x :: x in Cancels(f) <==>
              f.schedulerCancel == Some(x) || f.activeCancel == Some(x) || f.recoveryCancel == Some(x)
  {
  }

  /** The fields that starting and finishing runs leave alone. */
  ghost predicate SameSettings(f: Fields, f': Fields) {
    && f'.config == f.config && f'.generation == f.generation && f'.configFailed == f.configFailed
    && f'.next == f.next && f'.stopped == f.stopped && f'.schedulerCancel == f.schedulerCancel
    && f'.recoveryCancel == f.recoveryCancel && f'.recoveryGeneration == f.recoveryGeneration
  }

  predicate SameActivity(f: Fields, f': Fields) {
    && f'.running == f.running && f'.active == f.active && f'.activeCancel == f.activeCancel
    && f'.waitGroup == f.waitGroup
  }

  /** Starting a run touches the run and the memory, nothing else, and starts only the
      configuration that is in force. */
  lemma StartRunTouches(f: Fields, cfg: Config, generation: nat, id: string, context: nat)
    ensures var (f', outcome) := StartRun(f, cfg, generation, id, context);
      && SameSettings(f, f')
      && (if outcome.Started? then
            && !f.running && !f.stopped && generation == f.generation && cfg.hostEnabled
            && !Blank(cfg.model) && !Blank(cfg.message)
            && f'.running && f'.active == f'.activeCancel == Some(context) && f'.waitGroup == f.waitGroup + 1
          else SameActivity(f, f'))
  {
  }

  // ----- superseded goroutines -----

  predicate SameStage(c: Caller, d: Caller) {
    c.ConfigureCanceling? == d.ConfigureCanceling? && (c.ConfigureCanceling? ==> c.generation == d.generation)
  }

  /** Whoever was about to cancel x has done so or still is. */
  predicate PendingCarried(s: State, s': State) {
    forall c | c in s.callers :: forall x | x in Todo(s.callers[c]) ::
      x in s'.canceled || (c in s'.callers && x in Todo(s'.callers[c]) && SameStage(s.callers[c], s'.callers[c]))
  }

  predicate SameKind(a: Worker, b: Worker) {
    && a.generation == b.generation && IsScheduler(a) == IsScheduler(b)
    && a.RunWorking? == b.RunWorking? && a.RecoveryWorking? == b.RecoveryWorking?
  }

  /** Steps that neither supersede nor stop: cancelable goroutines are old ones, or new ones that
      are recorded. */
  lemma SupersedingFrame(s: State, s': State)
    requires Superseding(s) && PendingCarried(s, s') && s.canceled <= s'.canceled
    requires s.fields.generation == s'.fields.generation && s.fields.stopped == s'.fields.stopped
    requires forall w | w in s'.workers && Cancelable(s'.workers[w]) ::
               || (w in s.workers && SameKind(s.workers[w], s'.workers[w]) && (Recorded(s, w) ==> Recorded(s', w)))
               || (InForce(s', s'.workers[w].generation) && Recorded(s', w))
    ensures Superseding(s')
  {
  }

  /** Superseding and stopping: whatever was in force goes on the new list; whatever was not has
      been canceled, because no other list is being worked off. */
  lemma SupersedingHandsOver(s: State, s': State, c: nat, list: seq<nat>)
    requires Inv(s) && c in s.callers && HoldsLock(s.callers[c]) && Todo(s.callers[c]) == [] && !s.fields.stopped
    requires list == Cancels(s.fields) && s'.workers == s.workers && s'.canceled == s.canceled
    requires c in s'.callers && Todo(s'.callers[c]) == list
    requires || (s'.fields.generation == s.fields.generation + 1
                 && s'.callers[c].ConfigureCanceling? && s'.callers[c].generation == s'.fields.generation)
             || (s'.fields.generation == s.fields.generation && s'.fields.stopped && s'.callers[c].ShutdownCanceling?)
    ensures Superseding(s')
  {
  }

  lemma WorkerGeneration(s: State, w: nat)
    requires Generations(s) && w in s.workers
    ensures 0 < s.workers[w].generation <= s.fields.generation
  {
  }

  // ----- steps of a goroutine -----

  /** What a step of goroutine w may do, short of starting another. */
  ghost predicate WorkerStep(s: State, w: nat, s': State) {
    var f, f' := s.fields, s'.fields;
    && w in s.workers
    && s'.callers == s.callers && s'.lock == s.lock && s'.installed == s.installed
    && s'.nextID == s.nextID && s'.parent == s.parent
    && f'.generation == f.generation && f'.config == f.config && f'.stopped == f.stopped
    && f'.schedulerCancel == f.schedulerCancel
    && (f'.next == f.next || f'.next.None? || InForce(s, f'.next.value.publisher))
    && (|| (f'.recoveryCancel == f.recoveryCancel && f'.recoveryGeneration == f.recoveryGeneration)
        || (f'.recoveryCancel.None? && f'.recoveryGeneration == 0
            && forall v | v in s'.workers && s'.workers[v].RecoveryWorking? :: !InForce(s, s'.workers[v].generation)))
    && s.canceled <= s'.canceled && (forall x | x in s'.canceled :: x < s.nextID)
    && (forall v | v in s'.workers ::
          && v in s.workers && s'.workers[v].config == s.workers[v].config
          && s'.workers[v].generation == s.workers[v].generation
          && (Cancelable(s'.workers[v]) ==> SameKind(s.workers[v], s'.workers[v])))
    && (s'.publications == s.publications || PublishesOne(s, s'))
  }

  ghost predicate PublishesOne(s: State, s': State) {
    && |s'.publications| == |s.publications| + 1 && s.publications <= s'.publications
    && var p := s'.publications[|s.publications|];
    && p.generation <= s.fields.generation
    && (forall c | c in s.callers && s.callers[c].ConfigureCanceling? :: p.generation < s.callers[c].generation)
  }

  lemma WorkerStepNumbered(s: State, w: nat, s': State)
    requires Numbered(s) && WorkerStep(s, w, s') && Below(s'.fields.activeCancel, s.nextID)
    ensures Numbered(s')
  {
  }

  lemma WorkerStepGenerations(s: State, w: nat, s': State)
    requires Generations(s) && WorkerStep(s, w, s')
    ensures Generations(s')
  {
  }

  lemma WorkerStepLocked(s: State, w: nat, s': State)
    requires Locked(s) && WorkerStep(s, w, s')
    ensures Locked(s')
  {
  }

  lemma WorkerStepStopped(s: State, w: nat, s': State)
    requires Stopped(s) && WorkerStep(s, w, s')
    ensures Stopped(s')
  {
  }

  lemma WorkerStepSuperseding(s: State, w: nat, s': State)
    requires Superseding(s) && WorkerStep(s, w, s')
    ensures Superseding(s')
  {
  }

  lemma WorkerStepKeeps(s: State, w: nat, s': State)
    requires Inv(s) && WorkerStep(s, w, s') && Counted(s')
    ensures Inv(s')
  {
    hide Numbered, Generations, Locked, Stopped, Superseding, WorkerStep;
    ActiveIsNumbered(s, w, s');
    WorkerStepNumbered(s, w, s');
    WorkerStepGenerations(s, w, s');
    WorkerStepLocked(s, w, s');
    WorkerStepStopped(s, w, s');
    WorkerStepSuperseding(s, w, s');
  }

  lemma ActiveIsNumbered(s: State, w: nat, s': State)
    requires Numbered(s) && WorkerStep(s, w, s') && Counted(s')
    ensures Below(s'.fields.activeCancel, s.nextID)
  {
  }

  // ----- steps of a caller -----

  /** What a step of caller c may do that leaves the service's fields and goroutines alone. */
  ghost predicate CallerStep(s: State, c: nat, to: Caller, s': State) {
    && s'.callers == s.callers[c := to] && s'.fields == s.fields && s'.workers == s.workers
    && s'.installed == s.installed && s'.publications == s.publications && s'.parent == s.parent
    && s.nextID <= s'.nextID && c < s'.nextID
    && s.canceled <= s'.canceled && (forall x | x in s'.canceled :: x < s.nextID)
    && (c in s.callers || (c == s.nextID && Todo(to) == [] && !HoldsLock(to)))
    && CallerGeneration(s, to)
    && (if HoldsLock(to) then s'.lock == Some(c) && s.lock in {None, Some(c)}
        else s'.lock == if s.lock == Some(c) then None else s.lock)
    && (c in s.callers ==>
          && (forall x | x in Todo(s.callers[c]) :: x in s'.canceled || (x in Todo(to) && SameStage(s.callers[c], to)))
          && (forall x | x in Todo(to) :: x in Todo(s.callers[c])))
    && (to.ConfigureCanceling? ==>
          c in s.callers && s.callers[c].ConfigureCanceling? && s.callers[c].generation == to.generation)
    && (to.ConfigureStarting? ==> c in s.callers && s.callers[c].ConfigureCanceling?)
    && (to.ConfigureReturned? ==> c in s.callers && HoldsLock(s.callers[c]))
    && (to.ShutdownCanceling? ==> c in s.callers && s.callers[c].ShutdownCanceling?)
    && (to == ShutdownReturned(true) ==> c in s.callers && s.callers[c].ShutdownCanceling? && s.workers == map[])
  }

  lemma CallerStepNumbered(s: State, c: nat, to: Caller, s': State)
    requires Numbered(s) && CallerStep(s, c, to, s')
    ensures Numbered(s')
  {
  }

  lemma CallerStepGenerations(s: State, c: nat, to: Caller, s': State)
    requires Generations(s) && CallerStep(s, c, to, s')
    ensures Generations(s')
  {
  }

  lemma CallerStepLocked(s: State, c: nat, to: Caller, s': State)
    requires Locked(s) && CallerStep(s, c, to, s')
    ensures Locked(s')
  {
  }

  lemma CallerStepStopped(s: State, c: nat, to: Caller, s': State)
    requires Stopped(s) && CallerStep(s, c, to, s')
    ensures Stopped(s')
  {
  }

  lemma CallerStepSuperseding(s: State, c: nat, to: Caller, s': State)
    requires Superseding(s) && CallerStep(s, c, to, s')
    ensures Superseding(s')
  {
    hide CallerGeneration;
    SupersedingFrame(s, s');
  }

  lemma CallerStepKeeps(s: State, c: nat, to: Caller, s': State)
    requires Inv(s) && CallerStep(s, c, to, s')
    ensures Inv(s')
  {
    hide Numbered, Generations, Locked, Stopped, Superseding;
    CallerStepNumbered(s, c, to, s');
    CallerStepGenerations(s, c, to, s');
    CallerStepLocked(s, c, to, s');
    CallerStepStopped(s, c, to, s');
    CallerStepSuperseding(s, c, to, s');
  }

  // ----- starting a goroutine -----

  /** A goroutine starts under the newest configuration, is counted, and is recorded where the
      next reconfiguration will look for it. */
  ghost predicate Starts(s: State, worker: Worker, s': State) {
    var f, f' := s.fields, s'.fields;
    && s'.callers == s.callers && s'.lock == s.lock && s'.installed == s.installed
    && s'.publications == s.publications
    && s'.nextID == s.nextID + 1 && s'.workers == s.workers[s.nextID := worker]
    && s.canceled <= s'.canceled <= s.canceled + {s.nextID}
    && (forall y | y in s'.parent :: y in s.parent || y == s.nextID)
    && InForce(s, worker.generation) && 0 < worker.generation && worker.config == f.config
    && f'.generation == f.generation && f'.config == f.config && f'.stopped == f.stopped && f'.next == f.next
    && f'.waitGroup == f.waitGroup + 1
    && match worker
       case RunWorking(_, _) =>
         && !f.running && f'.running && f'.active == f'.activeCancel == Some(s.nextID)
         && f'.schedulerCancel == f.schedulerCancel && f'.recoveryCancel == f.recoveryCancel
         && f'.recoveryGeneration == f.recoveryGeneration
       case SchedulerIdle(_, _, floor) =>
         && SameRun(f, f') && f.schedulerCancel.None? && f'.schedulerCancel == Some(s.nextID)
         && f'.recoveryCancel == f.recoveryCancel && f'.recoveryGeneration == f.recoveryGeneration
         && (forall c | c in s.callers :: !s.callers[c].ConfigureCanceling?)
       case RecoveryWorking(_, _) =>
         && SameRun(f, f') && f'.schedulerCancel == f.schedulerCancel
         && f.recoveryCancel.None? && f'.recoveryCancel == Some(s.nextID) && f'.recoveryGeneration == worker.generation
         && (forall c | c in s.callers :: !s.callers[c].ConfigureCanceling? && !s.callers[c].ConfigureStarting?)
       case _ => false
  }

  predicate SameRun(f: Fields, f': Fields) {
    f'.running == f.running && f'.active == f.active && f'.activeCancel == f.activeCancel
  }

  lemma StartsNumbered(s: State, worker: Worker, s': State)
    requires Numbered(s) && Starts(s, worker, s')
    ensures Numbered(s')
  {
  }

  lemma StartsCounted(s: State, worker: Worker, s': State)
    requires Numbered(s) && Counted(s) && Starts(s, worker, s')
    ensures Counted(s')
  {
  }

  lemma StartsGenerations(s: State, worker: Worker, s': State)
    requires Generations(s) && Starts(s, worker, s')
    ensures Generations(s')
  {
  }

  lemma StartsLocked(s: State, worker: Worker, s': State)
    requires Locked(s) && Stopped(s) && Starts(s, worker, s')
    ensures Locked(s') && Stopped(s')
  {
  }

  lemma StartsSuperseding(s: State, worker: Worker, s': State)
    requires Numbered(s) && Superseding(s) && Starts(s, worker, s')
    ensures Superseding(s')
  {
  }

  lemma StartsKeeps(s: State, worker: Worker, s': State)
    requires Inv(s) && Starts(s, worker, s')
    ensures Inv(s')
  {
    hide Numbered, Counted, Generations, Locked, Stopped, Superseding, Starts;
    StartsNumbered(s, worker, s');
    StartsCounted(s, worker, s');
    StartsGenerations(s, worker, s');
    StartsLocked(s, worker, s');
    StartsSuperseding(s, worker, s');
  }

  // ----- superseding and stopping -----

  /** A new configuration takes over: the caller now holds everything there is to cancel. */
  ghost predicate Supersedes(s: State, c: nat, parsed: Option<Config>, s': State) {
    && c in s.callers && s.callers[c] == ConfigureHolding(parsed) && !s.fields.stopped
    && s' == s.(fields := Supersede(s.fields, parsed), installed := s.installed + [Supersede(s.fields, parsed).config],
                callers := s.callers[c := ConfigureCanceling(parsed, s.fields.generation + 1, Cancels(s.fields))])
  }

  lemma SupersedesNumbered(s: State, c: nat, parsed: Option<Config>, s': State)
    requires Numbered(s) && Supersedes(s, c, parsed, s')
    ensures Numbered(s')
  {
    CancelsAre(s.fields);
    hide Cancels;
  }

  lemma SupersedesCounted(s: State, c: nat, parsed: Option<Config>, s': State)
    requires Counted(s) && Stopped(s) && Supersedes(s, c, parsed, s')
    ensures Counted(s') && Stopped(s')
  {
  }

  lemma SupersedesGenerations(s: State, c: nat, parsed: Option<Config>, s': State)
    requires Generations(s) && Locked(s) && Supersedes(s, c, parsed, s')
    ensures Generations(s')
  {
  }

  lemma SupersedesLocked(s: State, c: nat, parsed: Option<Config>, s': State)
    requires Generations(s) && Locked(s) && Supersedes(s, c, parsed, s')
    ensures Locked(s')
  {
  }

  lemma SupersedesKeeps(s: State, c: nat, parsed: Option<Config>, s': State)
    requires Inv(s) && Supersedes(s, c, parsed, s')
    ensures Inv(s')
  {
    SupersedesNumbered(s, c, parsed, s');
    SupersedesCounted(s, c, parsed, s');
    SupersedesGenerations(s, c, parsed, s');
    SupersedesLocked(s, c, parsed, s');
    hide Numbered, Counted, Generations, Locked, Stopped, Superseding, Cancels;
    SupersedingHandsOver(s, s', c, Cancels(s.fields));
  }

  /** The first shutdown closes the service and holds everything there is to cancel. */
  ghost predicate Closes(s: State, c: nat, s': State) {
    && c in s.callers && s.callers[c] == ShutdownHolding && !s.fields.stopped
    && s' == s.(fields := Stop(s.fields).0, lock := None, callers := s.callers[c := ShutdownCanceling(Cancels(s.fields))])
  }

  lemma ClosesNumbered(s: State, c: nat, s': State)
    requires Numbered(s) && Closes(s, c, s')
    ensures Numbered(s')
  {
    CancelsAre(s.fields);
    hide Cancels;
  }

  lemma ClosesGenerations(s: State, c: nat, s': State)
    requires Generations(s) && Locked(s) && Closes(s, c, s')
    ensures Generations(s')
  {
  }

  lemma ClosesRest(s: State, c: nat, s': State)
    requires Counted(s) && Locked(s) && Stopped(s) && Closes(s, c, s')
    ensures Counted(s') && Locked(s') && Stopped(s')
  {
  }

  lemma ClosesKeeps(s: State, c: nat, s': State)
    requires Inv(s) && Closes(s, c, s')
    ensures Inv(s')
  {
    ClosesNumbered(s, c, s');
    ClosesGenerations(s, c, s');
    ClosesRest(s, c, s');
    hide Numbered, Counted, Generations, Locked, Stopped, Superseding, Cancels;
    SupersedingHandsOver(s, s', c, Cancels(s.fields));
  }

  // ----- every step keeps the invariant -----

  lemma ArrivesKeeps(s: State, caller: Caller, s': State)
    requires Inv(s) && Arrives(s, caller, s')
    ensures Inv(s')
  {
    assert CallerStep(s, s.nextID, caller, s') by { hide Generations, Stopped, Superseding, ConfigOk; }
    CallerStepKeeps(s, s.nextID, caller, s');
  }

  lemma TakesLockKeeps(s: State, c: nat, s': State)
    requires Inv(s) && TakesLock(s, c, s')
    ensures Inv(s')
  {
    assert CallerStep(s, c, s'.callers[c], s') by { hide Stopped, Superseding, ConfigOk; }
    CallerStepKeeps(s, c, s'.callers[c], s');
  }

  lemma InstallsKeeps(s: State, c: nat, s': State)
    requires Inv(s) && Installs(s, c, s')
    ensures Inv(s')
  {
    if s'.callers[c].ConfigureCanceling? {
      InstallingIsSuperseding(s, c, s');
      hide *;
      SupersedesKeeps(s, c, s.callers[c].parsed, s');
    } else {
      assert Numbered(s) && Locked(s);
      InstallingNothing(s, c, s');
      hide *;
      CallerStepKeeps(s, c, ConfigureReturned(None), s');
    }
  }

  lemma InstallingIsSuperseding(s: State, c: nat, s': State)
    requires Installs(s, c, s') && s'.callers[c].ConfigureCanceling?
    ensures Supersedes(s, c, s.callers[c].parsed, s')
  {
    hide ConfigOk, SameConfig, Cancels;
  }

  lemma InstallingNothing(s: State, c: nat, s': State)
    requires Numbered(s) && Locked(s) && Installs(s, c, s') && !s'.callers[c].ConfigureCanceling?
    ensures CallerStep(s, c, ConfigureReturned(None), s')
  {
  }

  lemma CancelsOneKeeps(s: State, c: nat, s': State)
    requires Inv(s) && CancelsOne(s, c, s')
    ensures Inv(s')
  {
    CancelsOneIsCallerStep(s, c, s');
    CallerStepKeeps(s, c, s'.callers[c], s');
  }

  lemma CancelsOneIsCallerStep(s: State, c: nat, s': State)
    requires Numbered(s) && Generations(s) && Locked(s) && CancelsOne(s, c, s')
    ensures c in s'.callers && CallerStep(s, c, s'.callers[c], s')
  {
    hide ConfigOk;
    var todo := s.callers[c].todo;
    assert todo[0] in Todo(s.callers[c]) && todo == [todo[0]] + todo[1..];
  }

  lemma LaunchesSchedulerKeeps(s: State, c: nat, s': State)
    requires Inv(s) && LaunchesScheduler(s, c, s')
    ensures Inv(s')
  {
    hide Stopped, Superseding, ConfigOk;
    var ConfigureCanceling(parsed, generation, _) := s.callers[c];
    if parsed.None? {
      assert CallerStep(s, c, ConfigureReturned(Some(generation)), s');
      CallerStepKeeps(s, c, ConfigureReturned(Some(generation)), s');
    } else {
      var mid := LaunchingScheduler(s, c);
      if s' != mid {
        LaunchIsStart(s, c, mid, s');
        hide Numbered, Generations, Locked, Counted, CallerGeneration, Starts;
        StartsKeeps(mid, SchedulerIdle(parsed.value, generation, None), s');
      }
    }
  }

  lemma LaunchIsStart(s: State, c: nat, mid: State, s': State)
    requires Generations(s) && Locked(s) && LaunchesScheduler(s, c, s') && s.callers[c].parsed.Some? && s' != mid
    requires mid == CallerMoves(s, c, ConfigureStarting(s.callers[c].parsed.value, s.callers[c].generation))
    ensures Starts(mid, SchedulerIdle(s.callers[c].parsed.value, s.callers[c].generation, None), s')
  {
  }

  lemma LaunchingScheduler(s: State, c: nat) returns (mid: State)
    requires Inv(s) && CallerAt(s, c) && s.callers[c].ConfigureCanceling? && s.callers[c].todo == []
    requires s.callers[c].parsed.Some?
    ensures Inv(mid)
    ensures mid == CallerMoves(s, c, ConfigureStarting(s.callers[c].parsed.value, s.callers[c].generation))
  {
    hide Stopped, Superseding, ConfigOk;
    var to := ConfigureStarting(s.callers[c].parsed.value, s.callers[c].generation);
    mid := CallerMoves(s, c, to);
    assert CallerStep(s, c, to, mid);
    CallerStepKeeps(s, c, to, mid);
  }

  lemma LaunchesRecoveryKeeps(s: State, c: nat, s': State)
    requires Inv(s) && LaunchesRecovery(s, c, s')
    ensures Inv(s')
  {
    hide Stopped, Superseding, ConfigOk;
    var ConfigureStarting(config, generation) := s.callers[c];
    var mid := LaunchingRecovery(s, c);
    if s' != mid {
      RecoveryIsStart(s, c, mid, s');
      hide Numbered, Generations, Locked, Counted, CallerGeneration, Starts;
      StartsKeeps(mid, RecoveryWorking(config, generation), s');
    }
  }

  lemma RecoveryIsStart(s: State, c: nat, mid: State, s': State)
    requires Generations(s) && Locked(s) && LaunchesRecovery(s, c, s') && s' != mid
    requires mid == Unlock(CallerMoves(s, c, ConfigureReturned(Some(s.callers[c].generation))))
    ensures Starts(mid, RecoveryWorking(s.callers[c].config, s.callers[c].generation), s')
  {
    hide ConfigOk, Todo;
    assert CallerGeneration(s, s.callers[c]);
    forall d | d in mid.callers
      ensures !mid.callers[d].ConfigureCanceling? && !mid.callers[d].ConfigureStarting?
    {
      assert d != c ==> s.callers[d] == mid.callers[d];
    }
  }

  lemma LaunchingRecovery(s: State, c: nat) returns (mid: State)
    requires Inv(s) && CallerAt(s, c) && s.callers[c].ConfigureStarting?
    ensures Inv(mid)
    ensures mid == Unlock(CallerMoves(s, c, ConfigureReturned(Some(s.callers[c].generation))))
  {
    hide Stopped, Superseding, ConfigOk;
    var to := ConfigureReturned(Some(s.callers[c].generation));
    mid := Unlock(CallerMoves(s, c, to));
    assert CallerStep(s, c, to, mid);
    CallerStepKeeps(s, c, to, mid);
  }

  lemma ReadsConfigKeeps(s: State, c: nat, s': State)
    requires Inv(s) && ReadsConfig(s, c, s')
    ensures Inv(s')
  {
    hide Stopped, Superseding, ConfigOk;
    assert CallerStep(s, c, s'.callers[c], s');
    CallerStepKeeps(s, c, s'.callers[c], s');
  }

  lemma StartsManualKeeps(s: State, c: nat, s': State)
    requires Inv(s) && StartsManual(s, c, s')
    ensures Inv(s')
  {
    hide Stopped, Superseding, ConfigOk, StartRun;
    var ManualHolding(config, generation) := s.callers[c];
    var mid := ReturningManual(s, c);
    if s' != mid {
      ManualIsStart(s, c, mid, s');
      hide Numbered, Generations, Locked, Counted, CallerGeneration, Starts;
      StartsKeeps(mid, RunWorking(config, generation), s');
    }
  }

  lemma ReturningManual(s: State, c: nat) returns (mid: State)
    requires Inv(s) && CallerAt(s, c) && s.callers[c].ManualHolding?
    ensures Inv(mid) && mid == CallerMoves(s, c, ManualReturned)
  {
    hide Stopped, Superseding, ConfigOk;
    mid := CallerMoves(s, c, ManualReturned);
    assert CallerStep(s, c, ManualReturned, mid);
    CallerStepKeeps(s, c, ManualReturned, mid);
  }

  lemma ManualIsStart(s: State, c: nat, mid: State, s': State)
    requires Generations(s) && StartsManual(s, c, s') && mid == CallerMoves(s, c, ManualReturned) && s' != mid
    ensures Starts(mid, RunWorking(s.callers[c].config, s.callers[c].generation), s')
  {
  }

  lemma StopsKeeps(s: State, c: nat, s': State)
    requires Inv(s) && Stops(s, c, s')
    ensures Inv(s')
  {
    hide Stopped, Superseding, ConfigOk, Cancels;
    if s.fields.stopped {
      assert CallerStep(s, c, ShutdownReturned(false), s');
      CallerStepKeeps(s, c, ShutdownReturned(false), s');
    } else {
      ClosesKeeps(s, c, s');
    }
  }

  lemma FinishesWaitingKeeps(s: State, c: nat, s': State)
    requires Inv(s) && FinishesWaiting(s, c, s')
    ensures Inv(s')
  {
  }

  lemma ArmsKeeps(s: State, w: nat, now: int, at: int, time: DailyTime, s': State)
    requires Inv(s) && Arms(s, w, now, at, time, s')
    ensures Inv(s')
  {
    ArmedGeneration(s, w);
    ArmsIsWorkerStep(s, w, now, at, time, s');
    ArmsStaysCounted(s, w, now, at, time, s');
    hide Numbered, Generations, Locked, Stopped, Superseding, Arms, WorkerStep, Counted;
    WorkerStepKeeps(s, w, s');
  }

  lemma ArmsIsWorkerStep(s: State, w: nat, now: int, at: int, time: DailyTime, s': State)
    requires Numbered(s) && Arms(s, w, now, at, time, s')
    requires s.workers[w].generation <= s.fields.generation
    requires forall c | c in s.callers && s.callers[c].ConfigureCanceling? ::
               s.workers[w].generation < s.callers[c].generation
    ensures WorkerStep(s, w, s')
  {
    hide IsNext, Scheduled, OccurrenceID, Todo, Below;
    assert PublishesOne(s, s');
    hide PublishesOne;
  }

  lemma ArmsStaysCounted(s: State, w: nat, now: int, at: int, time: DailyTime, s': State)
    requires Counted(s) && Arms(s, w, now, at, time, s')
    ensures Counted(s')
  {
  }

  /** While a reconfiguration is still canceling, every live scheduler belongs to an older one. */
  lemma ArmedGeneration(s: State, w: nat)
    requires Generations(s) && Locked(s) && Superseding(s) && w in s.workers && IsScheduler(s.workers[w])
    ensures s.workers[w].generation <= s.fields.generation
    ensures forall c | c in s.callers && s.callers[c].ConfigureCanceling? ::
              s.workers[w].generation < s.callers[c].generation
  {
  }

  lemma EndsScheduleKeeps(s: State, w: nat, now: int, s': State)
    requires Inv(s) && EndsSchedule(s, w, now, s')
    ensures Inv(s')
  {
    EndsScheduleIsWorkerStep(s, w, now, s');
    hide Locked, Stopped, Superseding, Generations, WorkerStep, NoNext;
    EndedStaysCounted(s, w, s');
    hide *;
    WorkerStepKeeps(s, w, s');
  }

  lemma EndsScheduleIsWorkerStep(s: State, w: nat, now: int, s': State)
    requires Numbered(s) && EndsSchedule(s, w, now, s')
    ensures WorkerStep(s, w, s')
  {
    assert forall x | x in s.canceled :: x < s.nextID;
    hide Numbered, PublishesOne, NoNext;
  }

  lemma LeavesScheduleKeeps(s: State, w: nat, s': State)
    requires Inv(s) && LeavesSchedule(s, w, s')
    ensures Inv(s')
  {
    hide Locked, Stopped, Superseding, Generations;
    assert WorkerStep(s, w, s');
    WorkerStepKeeps(s, w, s');
  }

  lemma FiresKeeps(s: State, w: nat, s': State)
    requires Inv(s) && Fires(s, w, s')
    ensures Inv(s')
  {
    FiresIsWorkerStep(s, w, s');
    FiresStaysCounted(s, w, s');
    hide Numbered, Counted, Locked, Stopped, Superseding, Generations, Fires, WorkerStep;
    WorkerStepKeeps(s, w, s');
  }

  lemma FiresIsWorkerStep(s: State, w: nat, s': State)
    requires Numbered(s) && Fires(s, w, s')
    ensures WorkerStep(s, w, s')
  {
  }

  lemma FiresStaysCounted(s: State, w: nat, s': State)
    requires Counted(s) && Fires(s, w, s')
    ensures Counted(s')
  {
  }

  lemma StartsScheduledKeeps(s: State, w: nat, s': State)
    requires Inv(s) && StartsScheduled(s, w, s')
    ensures Inv(s')
  {
    BackToIdleKeeps(s, w, s');
    if StartRun(s.fields, s.workers[w].config, s.workers[w].generation, s.workers[w].publication.id, s.nextID).1.Started? {
      ScheduledIsStart(s, w, s');
      hide Inv, Starts, StartRun, StartsScheduled, BackToIdle;
      StartsKeeps(BackToIdle(s, w, s'), RunWorking(s.workers[w].config, s.workers[w].generation), s');
    }
  }

  /** The state in which the scheduler is idle again and the run, if any, has not yet started. */
  function BackToIdle(s: State, w: nat, s': State): State
    requires w in s.workers && s.workers[w].SchedulerFiring?
  {
    var SchedulerFiring(config, generation, p) := s.workers[w];
    if StartRun(s.fields, config, generation, p.id, s.nextID).1.Started? then
      s.(workers := s.workers[w := SchedulerIdle(config, generation, Some(p.at))])
    else s'
  }

  lemma BackToIdleKeeps(s: State, w: nat, s': State)
    requires Inv(s) && StartsScheduled(s, w, s')
    ensures Inv(BackToIdle(s, w, s'))
  {
    BackToIdleIsWorkerStep(s, w, s');
    BackToIdleStaysCounted(s, w, s');
    hide Numbered, Counted, Locked, Stopped, Superseding, Generations, StartsScheduled, BackToIdle, WorkerStep;
    WorkerStepKeeps(s, w, BackToIdle(s, w, s'));
  }

  lemma BackToIdleIsWorkerStep(s: State, w: nat, s': State)
    requires Numbered(s) && StartsScheduled(s, w, s')
    ensures WorkerStep(s, w, BackToIdle(s, w, s'))
  {
    BackToIdleOnlyMoves(s, w, s');
    hide StartsScheduled, BackToIdle;
    assert forall x | x in s.canceled :: x < s.nextID;
    hide Numbered, PublishesOne;
  }

  lemma BackToIdleOnlyMoves(s: State, w: nat, s': State)
    requires StartsScheduled(s, w, s')
    ensures var t, worker := BackToIdle(s, w, s'), s.workers[w];
      && SameSettings(s.fields, t.fields)
      && t.workers == s.workers[w := SchedulerIdle(worker.config, worker.generation, Some(worker.publication.at))]
      && t == s.(fields := t.fields, workers := t.workers, history := t.history)
  {
    hide StartRun, Trim;
    StartRunTouches(s.fields, s.workers[w].config, s.workers[w].generation, s.workers[w].publication.id, s.nextID);
  }

  lemma BackToIdleStaysCounted(s: State, w: nat, s': State)
    requires Counted(s) && StartsScheduled(s, w, s')
    ensures Counted(BackToIdle(s, w, s'))
  {
    hide StartRun, Trim;
    StartRunTouches(s.fields, s.workers[w].config, s.workers[w].generation, s.workers[w].publication.id, s.nextID);
  }

  lemma ScheduledIsStart(s: State, w: nat, s': State)
    requires Generations(s) && StartsScheduled(s, w, s')
    requires StartRun(s.fields, s.workers[w].config, s.workers[w].generation, s.workers[w].publication.id,
                      s.nextID).1.Started?
    ensures Starts(BackToIdle(s, w, s'), RunWorking(s.workers[w].config, s.workers[w].generation), s')
  {
  }

  lemma FinishesRunningKeeps(s: State, w: nat, s': State)
    requires Inv(s) && FinishesRunning(s, w, s')
    ensures Inv(s')
  {
    hide Locked, Stopped, Superseding, Generations;
    assert WorkerStep(s, w, s');
    WorkerStepKeeps(s, w, s');
  }

  lemma LeavesRunKeeps(s: State, w: nat, s': State)
    requires Inv(s) && LeavesRun(s, w, s')
    ensures Inv(s')
  {
    hide Locked, Stopped, Superseding, Generations;
    assert WorkerStep(s, w, s');
    WorkerStepKeeps(s, w, s');
  }

  lemma ReportsRecoveryKeeps(s: State, w: nat, s': State)
    requires Inv(s) && ReportsRecovery(s, w, s')
    ensures Inv(s')
  {
    hide Locked, Stopped, Superseding, Generations;
    assert WorkerStep(s, w, s');
    WorkerStepKeeps(s, w, s');
  }

  lemma RecoveryExpiresKeeps(s: State, w: nat, s': State)
    requires Inv(s) && RecoveryExpires(s, w, s')
    ensures Inv(s')
  {
    hide Locked, Stopped, Superseding, Generations;
    assert WorkerStep(s, w, s');
    WorkerStepKeeps(s, w, s');
  }

  lemma EndsRecoveringKeeps(s: State, w: nat, s': State)
    requires Inv(s) && EndsRecovering(s, w, s')
    ensures Inv(s')
  {
    EndsRecoveringIsWorkerStep(s, w, s');
    hide Locked, Stopped, Superseding, Generations, WorkerStep;
    EndedStaysCounted(s, w, s');
    hide *;
    WorkerStepKeeps(s, w, s');
  }

  /** A goroutine that moves on counts as before, unless it starts or stops being a run at work. */
  lemma EndedStaysCounted(s: State, w: nat, s': State)
    requires Counted(s) && w in s.workers && !s.workers[w].RunWorking?
    requires w in s'.workers && !s'.workers[w].RunWorking? && s'.workers == s.workers[w := s'.workers[w]]
    requires SameActivity(s.fields, s'.fields)
    ensures Counted(s')
  {
  }

  lemma EndsRecoveringIsWorkerStep(s: State, w: nat, s': State)
    requires Numbered(s) && Superseding(s) && EndsRecovering(s, w, s')
    ensures WorkerStep(s, w, s')
  {
  }

  lemma LeavesRecoveryKeeps(s: State, w: nat, s': State)
    requires Inv(s) && LeavesRecovery(s, w, s')
    ensures Inv(s')
  {
    hide Locked, Stopped, Superseding, Generations;
    assert WorkerStep(s, w, s');
    WorkerStepKeeps(s, w, s');
  }

  lemma StepKeeps(s: State, m: Move, s': State)
    requires Inv(s) && Step(s, m, s')
    ensures Inv(s')
  {
    hide Inv, Arrives, TakesLock, Installs, CancelsOne, LaunchesScheduler, LaunchesRecovery, ReadsConfig, StartsManual,
         Stops, FinishesWaiting, Arms, EndsSchedule, LeavesSchedule, Fires, StartsScheduled, FinishesRunning, LeavesRun,
         ReportsRecovery, RecoveryExpires, EndsRecovering, LeavesRecovery;
    match m {
      case Arrive(caller) => ArrivesKeeps(s, caller, s');
      case TakeLock(c) => TakesLockKeeps(s, c, s');
      case InstallConfig(c) => InstallsKeeps(s, c, s');
      case CancelOne(c) => CancelsOneKeeps(s, c, s');
      case LaunchScheduler(c) => LaunchesSchedulerKeeps(s, c, s');
      case LaunchRecovery(c) => LaunchesRecoveryKeeps(s, c, s');
      case ReadConfig(c) => ReadsConfigKeeps(s, c, s');
      case StartManual(c) => StartsManualKeeps(s, c, s');
      case StopService(c) => StopsKeeps(s, c, s');
      case FinishWaiting(c) => FinishesWaitingKeeps(s, c, s');
      case Arm(w, now, at, time) => ArmsKeeps(s, w, now, at, time, s');
      case EndSchedule(w, now) => EndsScheduleKeeps(s, w, now, s');
      case LeaveSchedule(w) => LeavesScheduleKeeps(s, w, s');
      case Fire(w) => FiresKeeps(s, w, s');
      case StartScheduled(w) => StartsScheduledKeeps(s, w, s');
      case FinishRunning(w) => FinishesRunningKeeps(s, w, s');
      case LeaveRun(w) => LeavesRunKeeps(s, w, s');
      case ReportRecovery(w) => ReportsRecoveryKeeps(s, w, s');
      case ExpireRecovery(w) => RecoveryExpiresKeeps(s, w, s');
      case EndRecovering(w) => EndsRecoveringKeeps(s, w, s');
      case LeaveRecovery(w) => LeavesRecoveryKeeps(s, w, s');
    }
  }

  lemma InitialInv(s: State)
    requires Initial(s)
    ensures Inv(s)
  {
  }

  /** The invariant holds at every instant of every execution. */
  lemma {:induction false} AlwaysInv(states: seq<State>, moves: seq<Move>, k: nat)
    requires Execution(states, moves) && k < |states|
    ensures Inv(states[k])
    decreases k
  {
    hide Inv, Step, Initial;
    if k == 0 {
      InitialInv(states[0]);
    } else {
      AlwaysInv(states, moves, k - 1);
      StepKeeps(states[k - 1], moves[k - 1], states[k]);
    }
  }

  // ----- what the invariant says -----

  /** At every instant: the three signs of an active run agree and point to the one run at work;
      what is announced next comes from the current generation; recovery belongs to it or to
      nobody; every goroutine has the configuration installed under its generation. */
  lemma GenerationSafety(states: seq<State>, moves: seq<Move>, k: nat)
    requires Execution(states, moves) && k < |states|
    ensures var f := states[k].fields;
      && (f.running <==> f.active.Some?) && (f.running <==> f.activeCancel.Some?)
      && (f.running <==> exists w :: w in states[k].workers && states[k].workers[w].RunWorking?)
      && (forall v, w | v in states[k].workers && w in states[k].workers
                        && states[k].workers[v].RunWorking? && states[k].workers[w].RunWorking? :: v == w)
      && (f.next.Some? ==> f.next.value.publisher == f.generation && !f.stopped)
      && f.recoveryGeneration in {0, f.generation}
    ensures forall w | w in states[k].workers ::
              states[k].workers[w].generation < |states[k].installed|
              && states[k].workers[w].config == states[k].installed[states[k].workers[w].generation]
  {
    AlwaysInv(states, moves, k);
    hide Superseding, Locked, ConfigOk, Execution;
  }

  lemma OnlyStartsStart(s: State, m: Move, s': State, w: nat)
    requires Step(s, m, s') && w in s'.workers && w !in s.workers && s'.workers[w].RunWorking?
    ensures m.StartManual? || m.StartScheduled?
  {
  }

  /** A run starts under exactly the configuration then in force, and only when none is active. */
  lemma RunsStartInForce(states: seq<State>, moves: seq<Move>, k: nat, w: nat)
    requires Execution(states, moves) && k < |moves|
    requires w in states[k + 1].workers && w !in states[k].workers && states[k + 1].workers[w].RunWorking?
    ensures var f, run := states[k].fields, states[k + 1].workers[w];
      && InForce(states[k], run.generation) && run.config == f.config
      && f.config.hostEnabled && !Blank(f.config.model) && !Blank(f.config.message) && !f.running
  {
    hide Initial, Superseding, Locked, Stopped, Counted, Numbered;
    var s, m, s' := states[k], moves[k], states[k + 1];
    AlwaysInv(states, moves, k);
    assert Step(s, m, s');
    OnlyStartsStart(s, m, s', w);
    if m.StartManual? {
      ManualStartsInForce(s, m.c, s', w);
    } else {
      ScheduledStartsInForce(s, m.w, s', w);
    }
  }

  lemma ManualStartsInForce(s: State, c: nat, s': State, w: nat)
    requires Generations(s) && StartsManual(s, c, s') && w in s'.workers && w !in s.workers
    ensures InForce(s, s'.workers[w].generation) && s'.workers[w].config == s.fields.config
    ensures s.fields.config.hostEnabled && !s.fields.running
    ensures !Blank(s.fields.config.model) && !Blank(s.fields.config.message)
  {
  }

  lemma ScheduledStartsInForce(s: State, v: nat, s': State, w: nat)
    requires Generations(s) && StartsScheduled(s, v, s') && w in s'.workers && w !in s.workers
    ensures InForce(s, s'.workers[w].generation) && s'.workers[w].config == s.fields.config
    ensures s.fields.config.hostEnabled && !s.fields.running
    ensures !Blank(s.fields.config.model) && !Blank(s.fields.config.message)
  {
  }

  /** Once the reconfiguration that superseded a run, or any later one, has returned, the run's
      context is canceled. */
  lemma SupersededRunsAreCanceled(states: seq<State>, moves: seq<Move>, k: nat, w: nat, c: nat, newer: nat)
    requires Execution(states, moves) && k < |states|
    requires w in states[k].workers && states[k].workers[w].RunWorking? && newer > states[k].workers[w].generation
    requires c in states[k].callers && states[k].callers[c] == ConfigureReturned(Some(newer))
    ensures w in states[k].canceled
  {
    AlwaysInv(states, moves, k);
    hide Execution;
    SupersededIsCanceled(states[k], w, c, newer);
  }

  lemma SupersededIsCanceled(s: State, w: nat, c: nat, newer: nat)
    requires Inv(s) && w in s.workers && s.workers[w].RunWorking?
    requires c in s.callers && s.callers[c] == ConfigureReturned(Some(newer)) && newer > s.workers[w].generation
    ensures w in s.canceled
  {
  }

  /** Applying a configuration equivalent to the one in force leaves everything as it is. */
  lemma EquivalentReconfigureIsNoOp(s: State, c: nat, cfg: Config, s': State)
    requires Installs(s, c, s') && s.callers[c] == ConfigureHolding(Some(cfg)) && !s.fields.stopped
    requires s.fields.generation > 0 && !s.fields.configFailed && SameConfig(s.fields.config, cfg)
    ensures s' == s.(callers := s.callers[c := ConfigureReturned(None)], lock := None)
  {
  }

  /** Once the service is stopped the wait group never rises and no goroutine is added. */
  lemma {:induction false} StoppedOnlyDrains(states: seq<State>, moves: seq<Move>, k: nat, j: nat)
    requires Execution(states, moves) && k <= j < |states| && states[k].fields.stopped
    ensures states[j].fields.stopped && states[j].fields.waitGroup <= states[k].fields.waitGroup
    ensures states[j].workers.Keys <= states[k].workers.Keys
    decreases j
  {
    hide Step, Initial, Inv;
    if k < j {
      StoppedOnlyDrains(states, moves, k, j - 1);
      AlwaysInv(states, moves, j - 1);
      NothingStartsWhenStopped(states[j - 1], moves[j - 1], states[j]);
    }
  }

  lemma NothingStartsWhenStopped(s: State, m: Move, s': State)
    requires Inv(s) && Step(s, m, s') && s.fields.stopped
    ensures s'.fields.stopped && s'.fields.waitGroup <= s.fields.waitGroup
    ensures s'.workers.Keys <= s.workers.Keys
  {
    hide Numbered, Counted, Generations, Locked, Stopped, Superseding, ConfigOk, OccurrenceID, IsNext, NoNext, StartRun;
    match m {
      case StartManual(c) =>
        StartRunTouches(s.fields, s.callers[c].config, s.callers[c].generation, "", s.nextID);
      case StartScheduled(v) =>
        StartRunTouches(s.fields, s.workers[v].config, s.workers[v].generation, s.workers[v].publication.id, s.nextID);
      case _ =>
        OthersStartNothing(s, m, s');
    }
  }

  lemma OthersStartNothing(s: State, m: Move, s': State)
    requires Step(s, m, s') && s.fields.stopped && !m.StartManual? && !m.StartScheduled?
    ensures s'.fields.stopped && s'.fields.waitGroup <= s.fields.waitGroup
    ensures s'.workers.Keys <= s.workers.Keys
  {
    hide ConfigOk, OccurrenceID, IsNext, NoNext, SameConfig, Cancels, Todo, StartsManual, StartsScheduled;
    if m.InstallConfig? || m.LaunchScheduler? || m.LaunchRecovery? {
      ConfiguresStartNothing(s, m, s');
    }
    hide Install, AddScheduler, AddRecovery;
  }

  lemma ConfiguresStartNothing(s: State, m: Move, s': State)
    requires Step(s, m, s') && s.fields.stopped && (m.InstallConfig? || m.LaunchScheduler? || m.LaunchRecovery?)
    ensures s'.fields == s.fields && s'.workers == s.workers
  {
    hide SameConfig, Cancels;
  }

  lemma ShutdownStaysReturned(s: State, m: Move, s': State, c: nat)
    requires Inv(s) && Step(s, m, s') && c in s.callers && s.callers[c] == ShutdownReturned(true)
    ensures c in s'.callers && s'.callers[c] == ShutdownReturned(true)
  {
    hide Counted, Generations, Locked, Superseding, ConfigOk, OccurrenceID, IsNext, NoNext, StartRun, Install, Cancels;
  }

  lemma QuietNow(s: State, c: nat)
    requires Inv(s) && c in s.callers && s.callers[c] == ShutdownReturned(true)
    ensures s.fields.stopped && s.workers == map[] && !s.fields.running
    ensures s.fields.next.None? && s.fields.waitGroup == 0
  {
  }

  /** When the first shutdown has returned, nothing is running, nothing is announced, and nothing
      ever runs again. */
  lemma {:induction false} ShutdownIsQuiet(states: seq<State>, moves: seq<Move>, k: nat, c: nat, j: nat)
    requires Execution(states, moves) && k <= j < |states|
    requires c in states[k].callers && states[k].callers[c] == ShutdownReturned(true)
    ensures c in states[j].callers && states[j].callers[c] == ShutdownReturned(true)
    ensures states[j].fields.stopped && states[j].workers == map[] && !states[j].fields.running
    ensures states[j].fields.next.None? && states[j].fields.waitGroup == 0
    decreases j
  {
    hide Step, Initial, Inv;
    if k < j {
      ShutdownIsQuiet(states, moves, k, c, j - 1);
      AlwaysInv(states, moves, j - 1);
      ShutdownStaysReturned(states[j - 1], moves[j - 1], states[j], c);
    }
    AlwaysInv(states, moves, j);
    QuietNow(states[j], c);
  }
}
