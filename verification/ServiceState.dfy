/**
 The service's fields under its mutex. Each critical section of service.go is one function from
 the fields before it to the fields after it. Contexts are numbers; a run, scheduler or recovery
 is known by the context it runs under.
 */
module ServiceState {
  import opened Text
  import opened Configuration

  const MAX_REMEMBERED := 512

  /** `publisher` is the generation of the scheduler that published it. */
  datatype NextSchedule = NextSchedule(occurrenceID: string, at: int, publisher: nat)

  datatype Fields = Fields(
    config: Config,
    generation: nat,
    configFailed: bool,
    next: Option<NextSchedule>,
    active: Option<nat>,
    running: bool,
    stopped: bool,
    schedulerCancel: Option<nat>,
    activeCancel: Option<nat>,
    recoveryCancel: Option<nat>,
    recoveryGeneration: nat,
    recoveryPending: bool,
    occurrences: set<string>,
    occurrenceOrder: seq<string>,
    waitGroup: nat)

  /** The zero configuration; a configuration that fails to parse leaves it with the host enabled. */
  const ZERO_CONFIG := Config(false, false, "", None, [], "", "", "", "", 0, [], [], [], false, false, 0, false, 0, 0)
  const FAILED_CONFIG := ZERO_CONFIG.(hostEnabled := true)

  // ----- occurrence memory -----

  predicate NoRepeats(order: seq<string>) {
    forall i, j | 0 <= i < j < |order| :: order[i] != order[j]
  }

  function Elements(order: seq<string>): set<string> { set id | id in order }

  /** The last n of a sequence. */
  function Last<T>(s: seq<T>, n: nat): seq<T> {
    if |s| <= n then s else s[|s| - n..]
  }

  predicate MemoryOk(occurrences: set<string>, order: seq<string>) {
    NoRepeats(order) && |order| <= MAX_REMEMBERED && occurrences == Elements(order)
  }

  function Remember(f: Fields, id: string): Fields {
    var order := Last(f.occurrenceOrder + [id], MAX_REMEMBERED);
    f.(occurrenceOrder := order, occurrences := Elements(order))
  }

  lemma RememberKeepsMemory(f: Fields, id: string)
    requires MemoryOk(f.occurrences, f.occurrenceOrder) && id !in f.occurrences
    ensures MemoryOk(Remember(f, id).occurrences, Remember(f, id).occurrenceOrder)
  {
  }

  lemma Appended(order: seq<string>, id: string)
    requires NoRepeats(order) && id !in Elements(order)
    ensures NoRepeats(order + [id]) && Elements(order + [id]) == Elements(order) + {id}
  {
  }

  lemma DropOldest(order: seq<string>)
    requires NoRepeats(order) && order != []
    ensures NoRepeats(order[1..]) && Elements(order[1..]) == Elements(order) - {order[0]}
  {
  }

  /** The memory is a window on the plain history of everything ever remembered. */
  lemma RememberExtendsHistory(f: Fields, id: string, history: seq<string>)
    requires f.occurrenceOrder == Last(history, MAX_REMEMBERED)
    ensures Remember(f, id).occurrenceOrder == Last(history + [id], MAX_REMEMBERED)
  {
  }

  // ----- critical sections -----

  datatype Installed = Refused | Unchanged | Superseded(generation: nat, cancels: seq<nat>)

  function Present(o: Option<nat>): seq<nat> {
    if o.Some? then [o.value] else []
  }

  /** The cancel functions a superseded or stopped service leaves to be called. */
  function Cancels(f: Fields): seq<nat> {
    Present(f.schedulerCancel) + Present(f.activeCancel) + Present(f.recoveryCancel)
  }

  function Supersede(f: Fields, parsed: Option<Config>): Fields {
    f.(schedulerCancel := None, recoveryCancel := None, recoveryGeneration := 0, recoveryPending := false,
       generation := f.generation + 1, next := None,
       config := if parsed.Some? then parsed.value else FAILED_CONFIG, configFailed := parsed.None?)
  }

  /** The locked part of ApplyConfig; None is a configuration that does not parse. */
  ghost function Install(f: Fields, parsed: Option<Config>): (Fields, Installed) {
    if f.stopped then (f, Refused)
    else if parsed.Some? && f.generation > 0 && !f.configFailed && SameConfig(f.config, parsed.value) then (f, Unchanged)
    else (Supersede(f, parsed), Superseded(f.generation + 1, Cancels(f)))
  }

  function AddScheduler(f: Fields, generation: nat, context: nat): (Fields, bool) {
    if f.stopped || generation != f.generation then (f, false)
    else (f.(schedulerCancel := Some(context), waitGroup := f.waitGroup + 1), true)
  }

  function AddRecovery(f: Fields, generation: nat, context: nat): (Fields, bool) {
    if f.stopped || generation != f.generation then (f, false)
    else
      (f.(recoveryCancel := Some(context), recoveryGeneration := generation, recoveryPending := true,
          waitGroup := f.waitGroup + 1), true)
  }

  function PublishNext(f: Fields, generation: nat, occurrenceID: string, at: int): Fields {
    if f.stopped || generation != f.generation then f
    else f.(next := Some(NextSchedule(occurrenceID, at, generation)))
  }

  function ClearNext(f: Fields, generation: nat): Fields {
    if generation == f.generation then f.(next := None) else f
  }

  datatype StartOutcome = Started | NotConfigured | ErrStopped | Duplicate | Busy

  function StartRun(f: Fields, cfg: Config, expectedGeneration: nat, occurrenceID: string, context: nat)
    : (Fields, StartOutcome)
  {
    if Blank(cfg.model) || Blank(cfg.message) then (f, NotConfigured)
    else if f.stopped || expectedGeneration != f.generation || !cfg.hostEnabled then (f, ErrStopped)
    else if occurrenceID != "" && occurrenceID in f.occurrences then (f, Duplicate)
    else
      var f' := if occurrenceID != "" then Remember(f, occurrenceID) else f;
      if f'.running then (f', Busy)
      else
        (f'.(running := true, active := Some(context), activeCancel := Some(context), waitGroup := f'.waitGroup + 1),
         Started)
  }

  function FinishRun(f: Fields, run: nat): Fields {
    if f.active == Some(run) then f.(active := None, running := false, activeCancel := None) else f
  }

  predicate RecoveryStillCurrent(f: Fields, generation: nat) {
    !f.stopped && generation == f.generation && f.recoveryGeneration == generation
  }

  function SetRecoveryResult(f: Fields, generation: nat): Fields {
    if RecoveryStillCurrent(f, generation) then f.(recoveryPending := false) else f
  }

  function EndRecovery(f: Fields, generation: nat): Fields {
    if f.recoveryGeneration == generation then
      f.(recoveryCancel := None, recoveryGeneration := 0, recoveryPending := false)
    else f
  }

  function Stop(f: Fields): (Fields, Option<seq<nat>>) {
    if f.stopped then (f, None)
    else
      (f.(stopped := true, next := None, schedulerCancel := None, recoveryCancel := None, recoveryGeneration := 0,
          recoveryPending := false),
       Some(Cancels(f)))
  }
}
