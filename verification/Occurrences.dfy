/**
 What schedulers announce and what the service remembers, over whole executions: the records kept
 in the state agree with the memory, grow in order, and say when an occurrence can be refused.
 */
module Occurrences {
  import opened Text
  import opened Civil
  import opened Configuration
  import opened Schedule
  import opened ServiceState
  import opened Lifecycle

  ghost predicate PublicationOk(installed: seq<Config>, p: Publication) {
    && p.generation < |installed| && installed[p.generation].zone.Some?
    && Scheduled(installed[p.generation].zone.value, p.at, p.time)
    && p.id == OccurrenceID(p.at, installed[p.generation].zone.value, p.time.text)
  }

  /** Within a generation, instants strictly increase. */
  predicate Increasing(ps: seq<Publication>) {
    forall i, j | 0 <= i < j < |ps| && ps[i].generation == ps[j].generation :: ps[i].at < ps[j].at
  }

  /** Where a scheduler stands in the records of its generation. */
  predicate SchedulerOk(s: State, w: Worker) {
    match w
    case SchedulerIdle(_, generation, floor) =>
      forall p | p in s.publications && p.generation == generation :: floor.Some? && p.at <= floor.value
    case SchedulerArmed(_, generation, q) => Newest(s, generation, q)
    case SchedulerFiring(_, generation, q) => Newest(s, generation, q)
    case _ => true
  }

  predicate Newest(s: State, generation: nat, q: Publication) {
    && q in s.publications && q.generation == generation
    && (forall p | p in s.publications && p.generation == generation :: p.at <= q.at)
    && (forall h | h in s.history && h.generation == generation :: h.at < q.at)
  }

  predicate OneScheduler(s: State) {
    forall v, w | v in s.workers && w in s.workers && v != w && IsScheduler(s.workers[v]) && IsScheduler(s.workers[w]) ::
      s.workers[v].generation != s.workers[w].generation
  }

  function IDs(ps: seq<Publication>): (ids: seq<string>)
    ensures |ids| == |ps| && forall i | 0 <= i < |ps| :: ids[i] == ps[i].id
  {
    seq(|ps|, i requires 0 <= i < |ps| => ps[i].id)
  }

  /** The same ID never comes back before 512 others. */
  predicate Spaced(ids: seq<string>) {
    forall i, j | 0 <= i < j < |ids| && j <= i + MAX_REMEMBERED :: ids[i] != ids[j]
  }

  ghost predicate Published(s: State) {
    && (forall p | p in s.publications :: PublicationOk(s.installed, p))
    && Increasing(s.publications)
    && (forall h | h in s.history :: h in s.publications)
    && Increasing(s.history)
  }

  predicate Scheduling(s: State) {
    OneScheduler(s) && forall w | w in s.workers :: SchedulerOk(s, s.workers[w])
  }

  predicate Memory(s: State) {
    && MemoryOk(s.fields.occurrences, s.fields.occurrenceOrder)
    && s.fields.occurrenceOrder == Last(IDs(s.history), MAX_REMEMBERED)
    && Spaced(IDs(s.history))
  }

  ghost predicate Records(s: State) { Published(s) && Scheduling(s) && Memory(s) }

  // ----- steps that leave the records alone -----

  /** Nothing is announced or remembered, and no scheduler starts or looks for a new occurrence. */
  ghost predicate RecordsUntouched(s: State, s': State) {
    && s'.publications == s.publications && s'.history == s.history && s.installed <= s'.installed
    && s'.fields.occurrences == s.fields.occurrences && s'.fields.occurrenceOrder == s.fields.occurrenceOrder
    && forall w | w in s'.workers && IsScheduler(s'.workers[w]) :: w in s.workers && SameSchedule(s.workers[w], s'.workers[w])
  }

  ghost predicate SameSchedule(a: Worker, b: Worker) {
    a == b || (a.SchedulerArmed? && b == SchedulerFiring(a.config, a.generation, a.publication))
  }

  lemma UntouchedKeeps(s: State, s': State)
    requires Records(s) && RecordsUntouched(s, s')
    ensures Records(s')
  {
    assert Published(s') by {
      hide Scheduling, Memory, Scheduled, OccurrenceID;
      forall p | p in s'.publications
        ensures PublicationOk(s'.installed, p)
      {
        assert PublicationOk(s.installed, p);
      }
    }
    assert Scheduling(s') by {
      hide Published, Memory;
      forall w | w in s'.workers
        ensures SchedulerOk(s', s'.workers[w])
      {
        if IsScheduler(s'.workers[w]) {
          assert SchedulerOk(s, s.workers[w]);
        }
      }
    }
  }

  predicate Touching(m: Move) { m.Arm? || m.StartScheduled? || m.LaunchScheduler? }

  lemma ManualUntouched(s: State, c: nat, s': State)
    requires StartsManual(s, c, s')
    ensures RecordsUntouched(s, s')
  {
    hide Remember, Trim;
  }

  lemma SupersedingUntouched(s: State, m: Move, s': State)
    requires Step(s, m, s') && (m.InstallConfig? || m.StopService?)
    ensures RecordsUntouched(s, s')
  {
    hide ConfigOk, SameConfig, Cancels;
  }

  lemma RecoveringUntouched(s: State, m: Move, s': State)
    requires Step(s, m, s') && m.LaunchRecovery?
    ensures RecordsUntouched(s, s')
  {
  }

  lemma SchedulingUntouched(s: State, m: Move, s': State)
    requires Step(s, m, s') && (m.EndSchedule? || m.Fire?)
    ensures RecordsUntouched(s, s')
  {
    hide NoNext;
  }

  lemma MovingUntouched(s: State, m: Move, s': State)
    requires Step(s, m, s') && !Touching(m) && !m.StartManual? && !m.InstallConfig? && !m.StopService?
    requires !m.LaunchRecovery? && !m.EndSchedule? && !m.Fire?
    ensures RecordsUntouched(s, s')
  {
    hide ConfigOk, StartRun, Installs, Stops, StartsManual, LaunchesScheduler, LaunchesRecovery, Arms, Fires, EndsSchedule,
         StartsScheduled;
  }

  lemma OthersUntouched(s: State, m: Move, s': State)
    requires Step(s, m, s') && !Touching(m)
    ensures RecordsUntouched(s, s')
  {
    hide RecordsUntouched, StartRun;
    if m.StartManual? {
      ManualUntouched(s, m.c, s');
    } else if m.InstallConfig? || m.StopService? {
      SupersedingUntouched(s, m, s');
    } else if m.LaunchRecovery? {
      RecoveringUntouched(s, m, s');
    } else if m.EndSchedule? || m.Fire? {
      SchedulingUntouched(s, m, s');
    } else {
      MovingUntouched(s, m, s');
    }
  }

  // ----- steps that extend them -----

  /** At most one scheduler starts, the first of its generation, and nothing else changes. */
  ghost predicate LaunchesFirst(s: State, generation: nat, s': State) {
    && s'.publications == s.publications && s'.history == s.history && s'.installed == s.installed
    && s'.fields.occurrences == s.fields.occurrences && s'.fields.occurrenceOrder == s.fields.occurrenceOrder
    && (forall v | v in s'.workers :: (v in s.workers && s'.workers[v] == s.workers[v])
          || (v == s.nextID && s'.workers[v].SchedulerIdle? && s'.workers[v].generation == generation))
    && (forall w | w in s.workers && IsScheduler(s.workers[w]) :: s.workers[w].generation < generation)
    && (forall p | p in s.publications :: p.generation < generation)
  }

  /** A reconfiguration about to start its scheduler finds nothing of its generation. */
  lemma NothingOfTheNewGeneration(s: State, c: nat)
    requires Inv(s) && c in s.callers && s.callers[c].ConfigureCanceling?
    ensures forall w | w in s.workers && IsScheduler(s.workers[w]) :: s.workers[w].generation < s.callers[c].generation
    ensures forall p | p in s.publications :: p.generation < s.callers[c].generation
  {
    hide Numbered, Counted, Stopped, ConfigOk, Pending;
    forall w | w in s.workers && IsScheduler(s.workers[w])
      ensures s.workers[w].generation < s.callers[c].generation
    {
      ArmedGeneration(s, w);
    }
  }

  lemma LaunchIsFirst(s: State, c: nat, s': State)
    requires Inv(s) && LaunchesScheduler(s, c, s')
    ensures LaunchesFirst(s, s.callers[c].generation, s')
  {
    NothingOfTheNewGeneration(s, c);
    hide Inv, AfterLaunchScheduler;
    LaunchAddsOne(s, c, s.callers[c].parsed, s.callers[c].generation);
  }

  lemma LaunchAddsOne(s: State, c: nat, parsed: Option<Config>, generation: nat)
    ensures var s' := AfterLaunchScheduler(s, c, parsed, generation);
      && s'.publications == s.publications && s'.history == s.history && s'.installed == s.installed
      && s'.fields.occurrences == s.fields.occurrences && s'.fields.occurrenceOrder == s.fields.occurrenceOrder
      && forall v | v in s'.workers :: (v in s.workers && s'.workers[v] == s.workers[v])
           || (v == s.nextID && s'.workers[v].SchedulerIdle? && s'.workers[v].generation == generation)
  {
  }

  lemma LaunchKeepsRecords(s: State, c: nat, s': State)
    requires Inv(s) && Records(s) && LaunchesScheduler(s, c, s')
    ensures Records(s')
  {
    LaunchIsFirst(s, c, s');
    hide Inv, LaunchesScheduler;
    assert Published(s') by { hide Scheduling, Memory, PublicationOk; }
    assert Memory(s') by { hide Scheduling, Published, Spaced, MemoryOk; }
    hide Published, Memory;
    FirstKeepsScheduling(s, s.callers[c].generation, s');
  }

  lemma FirstKeepsScheduling(s: State, generation: nat, s': State)
    requires Scheduling(s) && LaunchesFirst(s, generation, s')
    ensures Scheduling(s')
  {
  }

  /** A scheduler announces an occurrence later than everything its generation announced. */
  ghost predicate Announces(s: State, w: nat, p: Publication, s': State) {
    && w in s.workers && s.workers[w].SchedulerIdle? && s.workers[w].generation == p.generation
    && PublicationOk(s.installed, p) && (s.workers[w].floor.Some? ==> s.workers[w].floor.value < p.at)
    && s'.publications == s.publications + [p] && s'.history == s.history && s'.installed == s.installed
    && s'.fields.occurrences == s.fields.occurrences && s'.fields.occurrenceOrder == s.fields.occurrenceOrder
    && s'.workers == s.workers[w := SchedulerArmed(s.workers[w].config, p.generation, p)]
  }

  lemma ArmAnnounces(s: State, w: nat, now: int, at: int, time: DailyTime, s': State)
    requires Inv(s) && Arms(s, w, now, at, time, s')
    ensures Announces(s, w, s'.publications[|s.publications|], s')
  {
    ArmedIsOk(s, w, now, at, time, s');
    hide Inv, IsNext, OccurrenceID, PublicationOk;
  }

  lemma ArmKeepsRecords(s: State, w: nat, now: int, at: int, time: DailyTime, s': State)
    requires Inv(s) && Records(s) && Arms(s, w, now, at, time, s')
    ensures Records(s')
  {
    ArmAnnounces(s, w, now, at, time, s');
    hide Inv, Arms;
    AnnouncedKeepsPublished(s, w, s'.publications[|s.publications|], s');
    AnnouncedKeepsScheduling(s, w, s'.publications[|s.publications|], s');
    assert Memory(s') by { hide Published, Scheduling, Spaced, MemoryOk; }
  }

  lemma AnnouncedKeepsPublished(s: State, w: nat, p: Publication, s': State)
    requires Published(s) && Scheduling(s) && Announces(s, w, p, s')
    ensures Published(s')
  {
  }

  lemma AnnouncedKeepsScheduling(s: State, w: nat, p: Publication, s': State)
    requires Published(s) && Scheduling(s) && Announces(s, w, p, s')
    ensures Scheduling(s')
  {
    hide PublicationOk;
    assert SchedulerOk(s, s.workers[w]);
    forall v | v in s'.workers
      ensures SchedulerOk(s', s'.workers[v])
    {
      if v != w && IsScheduler(s.workers[v]) {
        assert SchedulerOk(s, s.workers[v]) && s.workers[v].generation != p.generation;
      }
    }
  }

  lemma ArmedIsOk(s: State, w: nat, now: int, at: int, time: DailyTime, s': State)
    requires Inv(s) && Arms(s, w, now, at, time, s')
    ensures at > now && PublicationOk(s'.installed, s'.publications[|s.publications|])
  {
    hide Numbered, Counted, Locked, Stopped, Superseding, OccurrenceID;
    var config := s.workers[w].config;
    assert config in s.installed;
    var t := NextIsScheduled(config.zone.value, now, config.times, at, time.text);
    CanonicalTimeIsDetermined(t, time);
  }

  /** What starting a run for the announced occurrence does to the records. */
  ghost predicate Answers(s: State, w: nat, p: Publication, s': State) {
    && w in s.workers && s.workers[w].SchedulerFiring? && s.workers[w].publication == p
    && s'.publications == s.publications && s'.installed == s.installed
    && (if Outcome(s, w).Started? || Outcome(s, w).Busy? then
          && s'.history == s.history + [p] && p.id !in s.fields.occurrences
          && s'.fields.occurrences == Remember(s.fields, p.id).occurrences
          && s'.fields.occurrenceOrder == Remember(s.fields, p.id).occurrenceOrder
        else
          && s'.history == s.history
          && s'.fields.occurrences == s.fields.occurrences && s'.fields.occurrenceOrder == s.fields.occurrenceOrder)
    && w in s'.workers && s'.workers[w] == SchedulerIdle(s.workers[w].config, s.workers[w].generation, Some(p.at))
    && (forall v | v in s'.workers && v != w ::
          s'.workers[v].RunWorking? || (v in s.workers && s'.workers[v] == s.workers[v]))
  }

  lemma StartAnswers(s: State, w: nat, s': State)
    requires Numbered(s) && StartsScheduled(s, w, s') && s.workers[w].publication.id != ""
    ensures Answers(s, w, s.workers[w].publication, s')
  {
  }

  lemma StartKeepsRecords(s: State, w: nat, s': State)
    requires Inv(s) && Records(s) && StartsScheduled(s, w, s')
    ensures Records(s')
  {
    var p := s.workers[w].publication;
    assert p in s.publications && PublicationOk(s.installed, p) by {
      hide Inv, Memory;
      assert SchedulerOk(s, s.workers[w]);
    }
    assert p.id != "" by { hide Records, Inv; }
    StartAnswers(s, w, s');
    hide Inv, StartsScheduled;
    AnswerKeepsPublished(s, w, p, s');
    AnswerKeepsScheduling(s, w, p, s');
    AnswerKeepsMemory(s, w, p, s');
  }

  lemma AnswerKeepsPublished(s: State, w: nat, p: Publication, s': State)
    requires Published(s) && Scheduling(s) && Answers(s, w, p, s')
    ensures Published(s')
  {
    hide PublicationOk, Outcome, Remember, OneScheduler;
    assert SchedulerOk(s, s.workers[w]);
  }

  lemma AnswerKeepsScheduling(s: State, w: nat, p: Publication, s': State)
    requires Scheduling(s) && Answers(s, w, p, s')
    ensures Scheduling(s')
  {
  }

  lemma AnswerKeepsMemory(s: State, w: nat, p: Publication, s': State)
    requires Memory(s) && Answers(s, w, p, s')
    ensures Memory(s')
  {
    hide Remember, StartRun;
    if s'.history == s.history + [p] {
      RememberingKeepsMemory(s, p, s');
    }
  }

  function Outcome(s: State, w: nat): StartOutcome
    requires w in s.workers && s.workers[w].SchedulerFiring?
  {
    StartRun(s.fields, s.workers[w].config, s.workers[w].generation, s.workers[w].publication.id, s.nextID).1
  }

  lemma RememberingKeepsMemory(s: State, p: Publication, s': State)
    requires Memory(s) && p.id !in s.fields.occurrences && s'.history == s.history + [p]
    requires s'.fields.occurrences == Remember(s.fields, p.id).occurrences
    requires s'.fields.occurrenceOrder == Remember(s.fields, p.id).occurrenceOrder
    ensures Memory(s')
  {
    hide Remember, Last, IDs, Spaced, NoRepeats, Elements;
    RememberKeepsMemory(s.fields, p.id);
    RememberExtendsHistory(s.fields, p.id, IDs(s.history));
    SpacingGrows(IDs(s.history), p.id);
    assert IDs(s'.history) == IDs(s.history) + [p.id];
  }

  lemma SpacingGrows(ids: seq<string>, id: string)
    requires Spaced(ids) && id !in Elements(Last(ids, MAX_REMEMBERED))
    ensures Spaced(ids + [id])
  {
    var last := Last(ids, MAX_REMEMBERED);
    forall i | 0 <= i < |ids| <= i + MAX_REMEMBERED
      ensures ids[i] != id
    {
      assert last[i - (|ids| - |last|)] == ids[i];
    }
  }

  // ----- every step keeps the records -----

  lemma StepKeepsRecords(s: State, m: Move, s': State)
    requires Inv(s) && Records(s) && Step(s, m, s')
    ensures Records(s')
  {
    hide Inv, Records, LaunchesScheduler, Arms, StartsScheduled, RecordsUntouched;
    match m {
      case LaunchScheduler(c) => LaunchKeepsRecords(s, c, s');
      case Arm(w, now, at, time) => ArmKeepsRecords(s, w, now, at, time, s');
      case StartScheduled(w) => StartKeepsRecords(s, w, s');
      case _ =>
        OthersUntouched(s, m, s');
        UntouchedKeeps(s, s');
    }
  }

  /** The records are in order at every instant of every execution. */
  lemma {:induction false} AlwaysRecords(states: seq<State>, moves: seq<Move>, k: nat)
    requires Execution(states, moves) && k < |states|
    ensures Records(states[k])
    decreases k
  {
    hide Inv, Step;
    if k == 0 {
      assert states[0].history == [];
    } else {
      hide Records, Initial;
      AlwaysInv(states, moves, k - 1);
      AlwaysRecords(states, moves, k - 1);
      StepKeepsRecords(states[k - 1], moves[k - 1], states[k]);
    }
  }

  // ----- what the records say -----

  /** One generation announces strictly increasing instants with pairwise distinct IDs. */
  lemma AnnouncementsIncrease(states: seq<State>, moves: seq<Move>, k: nat, i: nat, j: nat)
    requires Execution(states, moves) && k < |states|
    requires i < j < |states[k].publications|
    requires states[k].publications[i].generation == states[k].publications[j].generation
    ensures states[k].publications[i].at < states[k].publications[j].at
    ensures states[k].publications[i].id != states[k].publications[j].id
  {
    AlwaysRecords(states, moves, k);
    AlwaysInv(states, moves, k);
    var s := states[k];
    hide Execution, Memory, Scheduling;
    DistinctIDs(s, s.publications[i], s.publications[j]);
  }

  lemma DistinctIDs(s: State, p: Publication, q: Publication)
    requires Generations(s) && PublicationOk(s.installed, p) && PublicationOk(s.installed, q)
    requires p.generation == q.generation && p.at != q.at
    ensures p.id != q.id
  {
    var config := s.installed[p.generation];
    assert ConfigOk(config);
    hide Generations, Scheduled, OccurrenceID;
    if p.id == q.id {
      OccurrenceIDsDistinct(config.zone.value, p.at, p.time, q.at, q.time);
    }
  }

  lemma LastAre(ids: seq<string>, n: nat)
    ensures |Last(ids, n)| == if |ids| <= n then |ids| else n
    ensures forall j | 0 <= j < |Last(ids, n)| :: Last(ids, n)[j] == ids[|ids| - |Last(ids, n)| + j]
  {
  }

  /** An ID is in the memory exactly when it is among the last 512 of the history. */
  lemma MemoryIsWindow(s: State, id: string)
    requires Memory(s)
    ensures id in s.fields.occurrences <==>
              exists i :: 0 <= i < |s.history| <= i + MAX_REMEMBERED && s.history[i].id == id
  {
    hide Last, IDs, Spaced, NoRepeats;
    var ids, order := IDs(s.history), s.fields.occurrenceOrder;
    LastAre(ids, MAX_REMEMBERED);
    var first := |ids| - |order|;
    if id in s.fields.occurrences {
      var j :| 0 <= j < |order| && order[j] == id;
      assert s.history[first + j].id == id;
    }
    forall i | 0 <= i < |s.history| <= i + MAX_REMEMBERED && s.history[i].id == id
      ensures id in s.fields.occurrences
    {
      assert order[i - first] == ids[i];
    }
  }

  /** What is refused as a duplicate is exactly what is among the last 512 remembered. */
  lemma MemoryIsRecent(states: seq<State>, moves: seq<Move>, k: nat, id: string)
    requires Execution(states, moves) && k < |states|
    ensures var s := states[k];
      id in s.fields.occurrences <==>
        exists i :: 0 <= i < |s.history| <= i + MAX_REMEMBERED && s.history[i].id == id
  {
    AlwaysRecords(states, moves, k);
    hide Execution, Published, Scheduling;
    MemoryIsWindow(states[k], id);
  }

  /** What a firing scheduler is refused as a duplicate was remembered under an earlier generation. */
  lemma DuplicateIsOlder(s: State, w: nat) returns (i: nat)
    requires Generations(s) && Records(s) && w in s.workers && s.workers[w].SchedulerFiring? && Outcome(s, w).Duplicate?
    ensures i < |s.history| <= i + MAX_REMEMBERED && s.history[i].id == s.workers[w].publication.id
    ensures s.history[i].generation < s.workers[w].generation
  {
    var p := s.workers[w].publication;
    DuplicateIsRemembered(s, w);
    MemoryIsWindow(s, p.id);
    i :| 0 <= i < |s.history| <= i + MAX_REMEMBERED && s.history[i].id == p.id;
    hide Generations, Records, Outcome;
    FiringIsNewest(s, w, i);
  }

  lemma DuplicateIsRemembered(s: State, w: nat)
    requires w in s.workers && s.workers[w].SchedulerFiring? && Outcome(s, w).Duplicate?
    ensures s.workers[w].publication.id in s.fields.occurrences && s.workers[w].generation == s.fields.generation
  {
    hide Trim, Remember;
  }

  /** Whatever was remembered under the ID of the occurrence of a firing scheduler, which is of the
      newest generation, is of an earlier one. */
  lemma FiringIsNewest(s: State, w: nat, i: nat)
    requires Generations(s) && Records(s) && w in s.workers && s.workers[w].SchedulerFiring?
    requires i < |s.history| && s.history[i].id == s.workers[w].publication.id
    requires s.workers[w].generation == s.fields.generation
    ensures s.history[i].generation < s.workers[w].generation
  {
    hide Memory, PublicationOk, ConfigOk, Increasing, OneScheduler;
    var p, h := s.workers[w].publication, s.history[i];
    assert SchedulerOk(s, s.workers[w]);
    assert h in s.history && h in s.publications;
    if h.generation == p.generation {
      DistinctIDs(s, h, p);
    }
  }

  /** An occurrence is refused as a duplicate only if an earlier configuration's scheduler had it
      remembered. */
  lemma DuplicatesComeFromEarlierConfigurations(states: seq<State>, moves: seq<Move>, k: nat, w: nat)
    returns (earlier: Publication)
    requires Execution(states, moves) && k < |moves|
    requires moves[k] == StartScheduled(w) && w in states[k].workers && states[k].workers[w].SchedulerFiring?
    requires Outcome(states[k], w).Duplicate?
    ensures earlier in states[k].history && earlier.id == states[k].workers[w].publication.id
    ensures earlier.generation < states[k].workers[w].generation
  {
    AlwaysRecords(states, moves, k);
    AlwaysInv(states, moves, k);
    hide Execution, Records;
    var i := DuplicateIsOlder(states[k], w);
    earlier := states[k].history[i];
  }

  /** An occurrence that started a run, or was refused because one was active, starts again only
      after 512 others have been remembered. */
  lemma OccurrencesStaySpaced(states: seq<State>, moves: seq<Move>, k: nat, i: nat, j: nat)
    requires Execution(states, moves) && k < |states|
    requires i < j < |states[k].history| && states[k].history[i].id == states[k].history[j].id
    ensures j > i + MAX_REMEMBERED
    ensures states[k].history[i].generation != states[k].history[j].generation
  {
    AlwaysRecords(states, moves, k);
    AlwaysInv(states, moves, k);
    var s := states[k];
    hide Execution;
    var ids := IDs(s.history);
    assert ids[i] == ids[j];
    if s.history[i].generation == s.history[j].generation {
      DistinctIDs(s, s.history[i], s.history[j]);
    }
  }
}
