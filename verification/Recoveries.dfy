/** What the service says of its startup recovery: it is called pending only while it is at work. */
module Recoveries {
  import opened Text
  import opened Configuration
  import opened Schedule
  import opened ServiceState
  import opened Lifecycle

  /** A pending recovery is at work, recorded under its context and generation, and in force. */
  ghost predicate PendingIsAtWork(s: State) {
    s.fields.recoveryPending ==>
      && InForce(s, s.fields.recoveryGeneration) && s.fields.recoveryCancel.Some?
      && var w := s.fields.recoveryCancel.value;
      && w in s.workers && s.workers[w].RecoveryWorking? && s.workers[w].generation == s.fields.recoveryGeneration
  }

  predicate SameRecovery(f: Fields, f': Fields) {
    && f'.recoveryPending == f.recoveryPending && f'.recoveryGeneration == f.recoveryGeneration
    && f'.recoveryCancel == f.recoveryCancel && f'.generation == f.generation && f'.stopped == f.stopped
  }

  /** A step after which nothing is pending, or that leaves the fields and every recovery at work alone. */
  ghost predicate KeepsRecovery(s: State, s': State) {
    || !s'.fields.recoveryPending
    || (SameRecovery(s.fields, s'.fields)
        && forall w | w in s.workers && s.workers[w].RecoveryWorking? :: w in s'.workers && s'.workers[w] == s.workers[w])
  }

  lemma StartKeepsRecoveryFields(f: Fields, cfg: Config, generation: nat, id: string, context: nat)
    ensures SameRecovery(f, StartRun(f, cfg, generation, id, context).0)
  {
    hide Trim, Last, Elements;
  }

  lemma ConfiguresKeepRecovery(s: State, m: Move, s': State)
    requires Step(s, m, s') && (m.InstallConfig? || m.StopService?)
    ensures KeepsRecovery(s, s')
  {
    hide SameConfig, Cancels;
  }

  lemma LaunchKeepsRecovery(s: State, c: nat, s': State)
    requires Numbered(s) && LaunchesScheduler(s, c, s')
    ensures KeepsRecovery(s, s')
  {
  }

  lemma ManualKeepsRecovery(s: State, c: nat, s': State)
    requires Numbered(s) && StartsManual(s, c, s')
    ensures KeepsRecovery(s, s')
  {
    hide StartRun;
    StartKeepsRecoveryFields(s.fields, s.callers[c].config, s.callers[c].generation, "", s.nextID);
  }

  lemma CallersKeepRecovery(s: State, m: Move, s': State)
    requires Step(s, m, s') && (m.Arrive? || m.TakeLock? || m.CancelOne? || m.ReadConfig? || m.FinishWaiting?)
    ensures KeepsRecovery(s, s')
  {
    hide ConfigOk;
  }

  lemma LaunchIsAtWork(s: State, c: nat, s': State)
    requires PendingIsAtWork(s) && Numbered(s) && LaunchesRecovery(s, c, s')
    ensures PendingIsAtWork(s')
  {
  }

  lemma SchedulersKeepRecovery(s: State, m: Move, s': State)
    requires Step(s, m, s') && (m.Arm? || m.EndSchedule? || m.LeaveSchedule? || m.Fire?)
    ensures KeepsRecovery(s, s')
  {
    hide IsNext, NoNext, OccurrenceID;
  }

  lemma ScheduledKeepsRecovery(s: State, w: nat, s': State)
    requires Numbered(s) && StartsScheduled(s, w, s')
    ensures KeepsRecovery(s, s')
  {
    hide StartRun;
    StartKeepsRecoveryFields(s.fields, s.workers[w].config, s.workers[w].generation, s.workers[w].publication.id, s.nextID);
  }

  lemma RunsKeepRecovery(s: State, m: Move, s': State)
    requires Step(s, m, s') && (m.FinishRunning? || m.LeaveRun? || m.LeaveRecovery? || m.ExpireRecovery? || m.ReportRecovery?)
    ensures KeepsRecovery(s, s')
  {
  }

  /** The recovery that ends is either not the pending one or clears that it is pending. */
  lemma EndedIsNotPending(s: State, w: nat, s': State)
    requires PendingIsAtWork(s) && EndsRecovering(s, w, s')
    ensures PendingIsAtWork(s')
  {
  }

  lemma KeptIsAtWork(s: State, s': State)
    requires PendingIsAtWork(s) && KeepsRecovery(s, s')
    ensures PendingIsAtWork(s')
  {
  }

  lemma StepKeepsPending(s: State, m: Move, s': State)
    requires Numbered(s) && PendingIsAtWork(s) && Step(s, m, s')
    ensures PendingIsAtWork(s')
  {
    hide Numbered, PendingIsAtWork, KeepsRecovery, Arrives, TakesLock, Installs, CancelsOne, LaunchesScheduler, LaunchesRecovery,
         ReadsConfig, StartsManual, Stops, FinishesWaiting, Arms, EndsSchedule, LeavesSchedule, Fires, StartsScheduled, FinishesRunning,
         LeavesRun, ReportsRecovery, RecoveryExpires, EndsRecovering, LeavesRecovery;
    match m {
      case LaunchRecovery(c) => LaunchIsAtWork(s, c, s');
      case EndRecovering(w) => EndedIsNotPending(s, w, s');
      case _ =>
        hide Step;
        OthersKeepRecovery(s, m, s');
        KeptIsAtWork(s, s');
    }
  }

  lemma OthersKeepRecovery(s: State, m: Move, s': State)
    requires Numbered(s) && Step(s, m, s') && !m.LaunchRecovery? && !m.EndRecovering?
    ensures KeepsRecovery(s, s')
  {
    hide Numbered, KeepsRecovery, Arrives, TakesLock, Installs, CancelsOne, LaunchesScheduler, LaunchesRecovery, ReadsConfig,
         StartsManual, Stops, FinishesWaiting, Arms, EndsSchedule, LeavesSchedule, Fires, StartsScheduled, FinishesRunning,
         LeavesRun, ReportsRecovery, RecoveryExpires, EndsRecovering, LeavesRecovery;
    match m {
      case LaunchScheduler(c) => LaunchKeepsRecovery(s, c, s');
      case StartManual(c) => ManualKeepsRecovery(s, c, s');
      case StartScheduled(w) => ScheduledKeepsRecovery(s, w, s');
      case _ =>
        hide Step;
        if m.Arm? || m.EndSchedule? || m.LeaveSchedule? || m.Fire? {
          SchedulersKeepRecovery(s, m, s');
        } else if m.FinishRunning? || m.LeaveRun? || m.LeaveRecovery? || m.ExpireRecovery? || m.ReportRecovery? {
          RunsKeepRecovery(s, m, s');
        } else if m.InstallConfig? || m.StopService? {
          ConfiguresKeepRecovery(s, m, s');
        } else {
          CallersKeepRecovery(s, m, s');
        }
    }
  }

  /** At every instant of every interleaving, a recovery that the service calls pending is at work and
      belongs to the configuration in force. */
  lemma {:induction false} PendingMeansAtWork(states: seq<State>, moves: seq<Move>, k: nat)
    requires Execution(states, moves) && k < |states|
    ensures PendingIsAtWork(states[k])
    decreases k
  {
    hide Step, Inv;
    if k > 0 {
      hide Initial, PendingIsAtWork;
      PendingMeansAtWork(states, moves, k - 1);
      AlwaysInv(states, moves, k - 1);
      InvIsNumbered(states[k - 1]);
      StepKeepsPending(states[k - 1], moves[k - 1], states[k]);
    }
  }

  lemma InvIsNumbered(s: State)
    requires Inv(s)
    ensures Numbered(s)
  {
    hide Numbered, Counted, Generations, Locked, Stopped, Superseding;
  }
}
