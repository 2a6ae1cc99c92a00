/**
 Who may be canceled. A run is canceled by the reconfiguration that supersedes its configuration
 or by the shutdown, directly or through the scheduler that started it, and by nothing else.
 */
module Cancellation {
  import opened Text
  import opened Configuration
  import opened Schedule
  import opened ServiceState
  import opened Lifecycle

  predicate Threatened(s: State, x: nat) { exists c :: c in s.callers && x in Todo(s.callers[c]) }

  predicate Exposed(w: Worker) { IsScheduler(w) || w.RunWorking? }

  predicate Schedules(w: Worker) { IsScheduler(w) || w.SchedulerEnded? }

  /** Runs have schedulers for parents, of their own generation, and nothing else has a parent. */
  predicate Kin(s: State) {
    && (forall y | y in s.parent :: y < s.nextID && s.parent[y] < s.nextID && s.parent[y] !in s.parent)
    && (forall y | y in s.parent && y in s.workers :: s.workers[y].RunWorking? || s.workers[y].RunFinished?)
    && (forall y | y in s.parent && s.parent[y] in s.workers :: Schedules(s.workers[s.parent[y]]))
  }

  predicate Untouched(s: State, x: nat) { x !in s.canceled && !Threatened(s, x) }

  /** A scheduler or run whose configuration is in force is not canceled, is on nobody's list, and
      neither is its parent. */
  predicate Safe(s: State) {
    forall w | w in s.workers && Exposed(s.workers[w]) && InForce(s, s.workers[w].generation) ::
      Untouched(s, w) && (w in s.parent ==> Untouched(s, s.parent[w]))
  }

  predicate Spared(s: State) { Kin(s) && Safe(s) }

  // ----- steps that cancel nothing and start nothing -----

  ghost predicate Quiet(s: State, s': State) {
    && s'.canceled == s.canceled && s'.parent == s.parent && s.nextID <= s'.nextID
    && (s'.fields.stopped || (s'.fields.generation == s.fields.generation && s'.fields.stopped == s.fields.stopped))
    && (s'.fields.stopped || forall x | Threatened(s', x) :: Threatened(s, x))
    && (forall w | w in s'.workers :: w in s.workers && Descends(s.workers[w], s'.workers[w]))
  }

  /** A goroutine further on: it keeps its generation, and stays what it is or finishes. */
  predicate Descends(a: Worker, b: Worker) {
    && a.generation == b.generation && Schedules(a) == Schedules(b)
    && (IsScheduler(b) ==> IsScheduler(a)) && (b.RunWorking? ==> a.RunWorking?)
    && (b.RunWorking? || b.RunFinished? <==> a.RunWorking? || a.RunFinished?)
  }

  lemma QuietSpares(s: State, s': State)
    requires Spared(s) && Quiet(s, s')
    ensures Spared(s')
  {
  }

  // ----- cancellations -----

  /** Something whose turn it is: on a caller's list, or a goroutine past its work. */
  predicate Due(s: State, z: nat) {
    Threatened(s, z) || (z in s.workers && !Schedules(s.workers[z]) && !s.workers[z].RunWorking?)
  }

  lemma CancelSpares(s: State, z: nat)
    requires Spared(s) && Due(s, z)
    ensures Spared(CancelContext(s, z))
  {
  }

  // ----- starts -----

  /** One goroutine starts, and if it has a parent, that is a scheduler in force. */
  ghost predicate Begins(s: State, worker: Worker, parent: Option<nat>, s': State) {
    && s'.canceled == s.canceled && s'.nextID == s.nextID + 1
    && s'.workers == s.workers[s.nextID := worker] && s.nextID !in s.workers
    && s'.fields.generation == s.fields.generation && s'.fields.stopped == s.fields.stopped
    && (forall x | Threatened(s', x) :: Threatened(s, x))
    && Untouched(s, s.nextID)
    && (match parent
        case None => s'.parent == s.parent
        case Some(p) =>
          && s'.parent == s.parent[s.nextID := p] && worker.RunWorking?
          && p in s.workers && p < s.nextID && IsScheduler(s.workers[p]) && InForce(s, s.workers[p].generation))
  }

  lemma BeginsSpares(s: State, worker: Worker, parent: Option<nat>, s': State)
    requires Spared(s) && Begins(s, worker, parent, s')
    requires forall y | y in s.parent :: y < s.nextID && s.parent[y] < s.nextID
    ensures Spared(s')
  {
  }

  // ----- every step -----

  predicate QuietMove(m: Move) {
    || m.Arrive? || m.TakeLock? || m.ReadConfig? || m.FinishWaiting? || m.StopService?
    || m.Arm? || m.EndSchedule? || m.LeaveSchedule? || m.Fire? || m.FinishRunning? || m.ReportRecovery? || m.EndRecovering?
  }

  lemma QuietMoves(s: State, m: Move, s': State)
    requires Step(s, m, s') && QuietMove(m)
    ensures Quiet(s, s')
  {
    if m.Arrive? || m.TakeLock? || m.ReadConfig? || m.FinishWaiting? || m.StopService? {
      QuietCallers(s, m, s');
    } else {
      QuietWorkers(s, m, s');
    }
  }

  lemma QuietCallers(s: State, m: Move, s': State)
    requires Step(s, m, s') && (m.Arrive? || m.TakeLock? || m.ReadConfig? || m.FinishWaiting? || m.StopService?)
    ensures Quiet(s, s')
  {
    hide ConfigOk, Cancels;
  }

  lemma QuietWorkers(s: State, m: Move, s': State)
    requires Step(s, m, s') && QuietMove(m)
    requires !m.Arrive? && !m.TakeLock? && !m.ReadConfig? && !m.FinishWaiting? && !m.StopService?
    ensures Quiet(s, s')
  {
    hide IsNext, NoNext, OccurrenceID, Todo;
  }

  lemma InstallSpares(s: State, c: nat, s': State)
    requires Generations(s) && Spared(s) && Installs(s, c, s')
    ensures Spared(s')
  {
    if s'.fields.generation == s.fields.generation {
      NoInstallIsQuiet(s, c, s');
      hide *;
      QuietSpares(s, s');
    } else {
      InstallLeavesNothingInForce(s, c, s');
      hide Installs, Generations;
    }
  }

  lemma NoInstallIsQuiet(s: State, c: nat, s': State)
    requires Installs(s, c, s') && s'.fields.generation == s.fields.generation
    ensures Quiet(s, s')
  {
    hide ConfigOk, Cancels, SameConfig;
  }

  lemma InstallLeavesNothingInForce(s: State, c: nat, s': State)
    requires Generations(s) && Installs(s, c, s') && s'.fields.generation != s.fields.generation
    ensures s'.workers == s.workers && s'.parent == s.parent && s'.nextID == s.nextID
    ensures forall w | w in s'.workers :: !InForce(s', s'.workers[w].generation)
  {
    hide ConfigOk, Cancels, SameConfig;
  }

  lemma CancelOneSpares(s: State, c: nat, s': State)
    requires Spared(s) && CancelsOne(s, c, s')
    ensures Spared(s')
  {
  }

  /** A number not yet handed out has nothing to do with anyone. */
  lemma FreshIsUntouched(s: State)
    requires Numbered(s)
    ensures Untouched(s, s.nextID) && s.nextID !in s.workers
  {
  }

  /** A caller moves on, having nothing left to cancel, and perhaps leaves a goroutine behind. */
  ghost predicate CallerLeaves(s: State, c: nat, to: Caller, worker: Worker, s': State) {
    && c in s.callers && Todo(to) == []
    && s'.callers == s.callers[c := to] && s'.canceled == s.canceled && s'.parent == s.parent
    && s'.fields.generation == s.fields.generation && s'.fields.stopped == s.fields.stopped
    && (|| (s'.workers == s.workers && s'.nextID == s.nextID)
        || (s'.workers == s.workers[s.nextID := worker] && s'.nextID == s.nextID + 1))
  }

  lemma CallerLeavesSpares(s: State, c: nat, to: Caller, worker: Worker, s': State)
    requires Numbered(s) && Spared(s) && CallerLeaves(s, c, to, worker, s')
    ensures Spared(s')
  {
  }

  lemma LaunchesSpare(s: State, m: Move, s': State)
    requires Numbered(s) && Spared(s) && Step(s, m, s')
    requires m.LaunchScheduler? || m.LaunchRecovery? || m.StartManual?
    ensures Spared(s')
  {
    var to, worker := LaunchIsLeaving(s, m, s');
    hide *;
    CallerLeavesSpares(s, m.c, to, worker, s');
  }

  lemma LaunchIsLeaving(s: State, m: Move, s': State) returns (to: Caller, worker: Worker)
    requires Step(s, m, s') && (m.LaunchScheduler? || m.LaunchRecovery? || m.StartManual?)
    ensures CallerLeaves(s, m.c, to, worker, s')
  {
    worker := if s.nextID in s'.workers then s'.workers[s.nextID] else RunFinished(ZERO_CONFIG, 0);
    to := if m.c in s'.callers then s'.callers[m.c] else ManualWaiting;
    if m.StartManual? {
      ManualIsLeaving(s, m.c, worker, s');
    } else {
      hide StartsManual, ConfigOk;
    }
  }

  lemma ManualIsLeaving(s: State, c: nat, worker: Worker, s': State)
    requires StartsManual(s, c, s') && (s.nextID in s'.workers ==> worker == s'.workers[s.nextID])
    ensures c in s'.callers && CallerLeaves(s, c, s'.callers[c], worker, s')
  {
    hide StartRun;
    StartRunTouches(s.fields, s.callers[c].config, s.callers[c].generation, "", s.nextID);
  }

  lemma StartsScheduledSpares(s: State, w: nat, s': State)
    requires Numbered(s) && Spared(s) && StartsScheduled(s, w, s')
    ensures Spared(s')
  {
    var mid := BackToIdle(s, w, s');
    BackToIdleOnlyMoves(s, w, s');
    assert Quiet(s, mid) by { hide Numbered, Spared, StartRun, BackToIdle, StartsScheduled; }
    QuietSpares(s, mid);
    FreshIsUntouched(s);
    StartRunTouches(s.fields, s.workers[w].config, s.workers[w].generation, s.workers[w].publication.id, s.nextID);
    if s' != mid {
      assert w !in s.canceled by { hide StartRun, BackToIdle; }
      assert Begins(mid, RunWorking(s.workers[w].config, s.workers[w].generation), Some(w), s') by {
        hide StartRun, Spared;
      }
      BeginsSpares(mid, RunWorking(s.workers[w].config, s.workers[w].generation), Some(w), s');
    }
  }

  lemma LeavingSpares(s: State, m: Move, w: nat, s': State)
    requires Spared(s) && Step(s, m, s') && m in {LeaveRun(w), LeaveRecovery(w), ExpireRecovery(w)}
    ensures Spared(s')
  {
    assert Due(s, w);
    CancelSpares(s, w);
    var mid := CancelContext(s, w);
    assert Quiet(mid, s') by { hide Spared; }
    QuietSpares(mid, s');
  }

  lemma StepSpares(s: State, m: Move, s': State)
    requires Inv(s) && Spared(s) && Step(s, m, s')
    ensures Spared(s')
  {
    hide Numbered, Counted, Generations, Locked, Stopped, Superseding, Spared, Quiet,
         Arrives, TakesLock, Installs, CancelsOne, LaunchesScheduler, LaunchesRecovery, ReadsConfig, StartsManual,
         Stops, FinishesWaiting, Arms, EndsSchedule, LeavesSchedule, Fires, StartsScheduled, FinishesRunning, LeavesRun,
         ReportsRecovery, RecoveryExpires, EndsRecovering, LeavesRecovery;
    match m {
      case InstallConfig(c) => InstallSpares(s, c, s');
      case CancelOne(c) => CancelOneSpares(s, c, s');
      case LaunchScheduler(_) => LaunchesSpare(s, m, s');
      case LaunchRecovery(_) => LaunchesSpare(s, m, s');
      case StartManual(_) => LaunchesSpare(s, m, s');
      case StartScheduled(w) => StartsScheduledSpares(s, w, s');
      case LeaveRun(w) => LeavingSpares(s, m, w, s');
      case LeaveRecovery(w) => LeavingSpares(s, m, w, s');
      case ExpireRecovery(w) => LeavingSpares(s, m, w, s');
      case _ =>
        QuietMoves(s, m, s');
        QuietSpares(s, s');
    }
  }

  lemma {:induction false} AlwaysSpared(states: seq<State>, moves: seq<Move>, k: nat)
    requires Execution(states, moves) && k < |states|
    ensures Spared(states[k])
    decreases k
  {
    hide Inv, Step, Spared;
    if k == 0 {
      InitialSpared(states[0]);
    } else {
      AlwaysInv(states, moves, k - 1);
      AlwaysSpared(states, moves, k - 1);
      StepSpares(states[k - 1], moves[k - 1], states[k]);
    }
  }

  lemma InitialSpared(s: State)
    requires Initial(s)
    ensures Spared(s)
  {
  }

  /** While its configuration is in force, no run is canceled; once a later configuration has been
      installed and its caller has returned, every run that was left is. */
  lemma RunsAreCanceledOnlyWhenSuperseded(states: seq<State>, moves: seq<Move>, k: nat, w: nat)
    requires Execution(states, moves) && k < |states|
    requires w in states[k].workers && states[k].workers[w].RunWorking?
    ensures InForce(states[k], states[k].workers[w].generation) ==> w !in states[k].canceled
    ensures forall c | c in states[k].callers && states[k].callers[c].ConfigureReturned? ::
              var installed := states[k].callers[c].installed;
              installed.Some? && installed.value > states[k].workers[w].generation ==> w in states[k].canceled
  {
    AlwaysSpared(states, moves, k);
    forall c | c in states[k].callers && states[k].callers[c].ConfigureReturned?
               && states[k].callers[c].installed.Some?
               && states[k].callers[c].installed.value > states[k].workers[w].generation
      ensures w in states[k].canceled
    {
      SupersededRunsAreCanceled(states, moves, k, w, c, states[k].callers[c].installed.value);
    }
    hide Execution;
  }
}
