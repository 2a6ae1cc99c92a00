/**
 One refresh run: executeRun's recovery, target selection, and the loop that raises, calls and
 restores one credential after another while keeping the report's books.
 */
module RunLoop {
  import opened Text
  import opened Credential
  import opened Override
  import opened Auths
  import opened Configuration
  import opened History
  import opened CredentialHost
  import opened PriorityService

  const LISTING_FAILED := "host auth listing failed"
  const RECOVERY_FAILED := "stale auth priority restoration failed"
  const RELISTING_FAILED := "host auth listing failed after priority recovery"
  const DUPLICATES := "host auth listing contains duplicate auth identities"
  const BODY_FAILED := "marshal OpenAI-compatible request body"
  const CHECK_FAILED := "runtime auth check failed"
  const OTHER_INDEX := "runtime auth index mismatch"
  const OTHER_ID := "runtime auth id mismatch"
  const RESTORE_FAILED := "auth priority restore failed; remaining credentials were not attempted"

  datatype AuthResult = AuthResult(
    authIndex: string,
    provider: string,
    priority: Int64,
    overrideRequired: bool,
    overrideTo: Int64,
    outcome: string,
    statusCode: Int64,
    error: string)

  const OUTCOMES := {"succeeded", "failed", "skipped"}

  function Count(results: seq<AuthResult>, outcome: string): nat {
    if results == [] then 0
    else
      Count(results[..|results| - 1], outcome) + if results[|results| - 1].outcome == outcome then 1 else 0
  }

  /** The three counts are the numbers of results with the three outcomes. */
  predicate Tallied(success: nat, failed: nat, skipped: nat, results: seq<AuthResult>) {
    success == Count(results, "succeeded") && failed == Count(results, "failed") && skipped == Count(results, "skipped")
  }

  datatype Snapshot = Snapshot(success: nat, failed: nat, skipped: nat, results: seq<AuthResult>)

  predicate Balanced(s: Snapshot) {
    Tallied(s.success, s.failed, s.skipped, s.results) && s.success + s.failed + s.skipped == |s.results|
  }

  predicate AllBalanced(published: seq<Snapshot>) { forall s | s in published :: Balanced(s) }

  lemma NothingCounted()
    ensures Balanced(Snapshot(0, 0, 0, []))
  {
  }

  lemma CountOneMore(results: seq<AuthResult>, result: AuthResult, outcome: string)
    ensures Count(results + [result], outcome) == Count(results, outcome) + if result.outcome == outcome then 1 else 0
  {
  }

  function OneIf(b: bool): nat { if b then 1 else 0 }

  lemma StaysBalanced(before: Snapshot, result: AuthResult, after: Snapshot)
    requires Balanced(before) && result.outcome in OUTCOMES && after.results == before.results + [result]
    requires after.success == before.success + OneIf(result.outcome == "succeeded")
    requires after.failed == before.failed + OneIf(result.outcome == "failed")
    requires after.skipped == before.skipped + OneIf(result.outcome == "skipped")
    ensures Balanced(after)
  {
    hide Count;
    CountOneMore(before.results, result, "succeeded");
    CountOneMore(before.results, result, "failed");
    CountOneMore(before.results, result, "skipped");
  }

  /** The report a run fills in. `published` is what status readers were shown on the way. */
  class RunReport {
    const runID: string
    const dryRun: bool
    var targetCount: nat
    var successCount: nat
    var failedCount: nat
    var skippedCount: nat
    var canceled: bool
    var error: string
    var results: seq<AuthResult>
    ghost var published: seq<Snapshot>

    constructor (runID: string, dryRun: bool)
      ensures this.runID == runID && this.dryRun == dryRun
      ensures targetCount == successCount == failedCount == skippedCount == 0
      ensures !canceled && error == "" && results == [] && published == []
    {
      this.runID, this.dryRun := runID, dryRun;
      targetCount, successCount, failedCount, skippedCount := 0, 0, 0, 0;
      canceled, error, results, published := false, "", [], [];
    }

    ghost function Counted(): nat
      reads this
    {
      successCount + failedCount + skippedCount
    }

    ghost predicate CountsResults()
      reads this
    {
      Balanced(Snapshot(successCount, failedCount, skippedCount, results))
    }

    /** The counts when `left` credentials were not looked at. */
    ghost predicate CountsTargets(left: nat)
      reads this
    {
      skippedCount >= left && Balanced(Snapshot(successCount, failedCount, skippedCount - left, results))
    }

    /** Append one result, count it under its outcome, and publish. */
    method Record(result: AuthResult)
      requires result.outcome in OUTCOMES && CountsResults()
      modifies `successCount, `failedCount, `skippedCount, `results, `published
      ensures results == old(results) + [result]
      ensures CountsResults() && Counted() == old(Counted()) + 1
      ensures published == old(published) + [Snapshot(successCount, failedCount, skippedCount, results)]
    {
      hide Balanced;
      ghost var before := Snapshot(successCount, failedCount, skippedCount, results);
      results := results + [result];
      if result.outcome == "succeeded" {
        successCount := successCount + 1;
      } else if result.outcome == "skipped" {
        skippedCount := skippedCount + 1;
      } else {
        failedCount := failedCount + 1;
      }
      StaysBalanced(before, result, Snapshot(successCount, failedCount, skippedCount, results));
      PublishActive();
    }

    /** The rest of the targets count as skipped, without results. */
    method LeaveOut(left: nat)
      requires CountsResults()
      modifies `skippedCount
      ensures CountsTargets(left) && Counted() == old(Counted()) + left
    {
      skippedCount := skippedCount + left;
    }

    method PublishActive()
      modifies `published
      ensures published == old(published) + [Snapshot(successCount, failedCount, skippedCount, results)]
    {
      published := published + [Snapshot(successCount, failedCount, skippedCount, results)];
    }
  }

  // ----- what a dry run announces and a real run does -----

  predicate OverrideRequired(cfg: Config, auth: Auth, highest: Option<Int64>) {
    cfg.temporaryPriority && auth.priority < DesiredPriority(auth, highest)
  }

  /** The result of a credential before anything is tried on it. */
  function Planned(cfg: Config, auth: Auth, highest: Option<Int64>, outcome: string): AuthResult {
    var required := OverrideRequired(cfg, auth, highest);
    AuthResult(auth.authIndex, auth.provider, auth.priority, required,
               if required then DesiredPriority(auth, highest) else 0, outcome, 0, "")
  }

  /** A credential that was attempted: where in the history its runtime read, its override and its
      call are, what the call replied, when its restore began, and when that saw the file unmarked. */
  datatype Attempt = Attempt(index: nat, auth: Auth, seen: nat, raise: Option<nat>, call: Option<nat>,
                             reply: Option<Int64>, until: nat, freed: Option<nat>, restoreFailed: bool)

  /** An override is written only where one is required, and to the desired priority. */
  predicate RaisesFor(e: Event, cfg: Config, highest: Option<Int64>, auth: Auth) {
    && IsRaise(e) && OverrideRequired(cfg, auth, highest)
    && e.cause.authIndex == auth.authIndex && e.cause.to == DesiredPriority(auth, highest)
  }

  predicate Succeeded(a: Attempt) { !a.restoreFailed && a.reply.Some? && 200 <= a.reply.value < 300 }

  /** The result of an attempt says what was required of it, and that it succeeded exactly when
      the call replied so and the credential is as it was before. */
  predicate Announces(result: AuthResult, cfg: Config, a: Attempt, highest: Option<Int64>) {
    && result == Planned(cfg, a.auth, highest, if Succeeded(a) then "succeeded" else "failed")
                   .(statusCode := if !a.restoreFailed && a.reply.Some? then a.reply.value else 0, error := result.error)
    && (result.error == "" <==> Succeeded(a))
  }

  /** Every attempt has its result, and nothing succeeds or required an override that was not
      attempted. */
  predicate AllAnnounced(results: seq<AuthResult>, cfg: Config, highest: Option<Int64>, attempts: seq<Attempt>) {
    && (forall a | a in attempts :: a.index < |results| && Announces(results[a.index], cfg, a, highest))
    && (forall i | 0 <= i < |results| && (results[i].outcome == "succeeded" || results[i].overrideRequired) ::
          exists a :: a in attempts && a.index == i)
  }

  // ----- the runtime re-check of one target -----

  datatype Verdict = Proceed(auth: Auth) | Refuse(result: AuthResult)

  /** The runtime read that makes the result of a target that is not attempted: denied, of another
      credential, or of one that is not eligible. */
  predicate DeclinedBy(e: Event, cfg: Config, listed: Auth, result: AuthResult) {
    if e.Observe? then
      if Trim(e.seen.authIndex) != Trim(listed.authIndex) then result.outcome == "failed" && result.error == OTHER_INDEX
      else if Trim(e.seen.id) != Trim(listed.id) then result.outcome == "failed" && result.error == OTHER_ID
      else result.outcome == "skipped" && Ineligible(cfg, e.seen) == Some(result.error)
    else
      e == Denied(ForRuntime(listed.authIndex)) && result.outcome == "failed" && result.error == CHECK_FAILED
  }

  /** Such a read since instant n accounts for the result, unless the plugin is down. */
  ghost predicate Declined(trace: seq<Event>, n: nat, cfg: Config, listed: Auth, result: AuthResult) {
    || (result.outcome == "failed" && result.error == CHECK_FAILED && IsDown(trace))
    || exists k :: n <= k < |trace| && DeclinedBy(trace[k], cfg, listed, result)
  }

  predicate SameCredential(a: Auth, b: Auth) {
    Trim(a.authIndex) == Trim(b.authIndex) && Trim(a.id) == Trim(b.id)
  }

  method CheckTarget(host: Host, cfg: Config, listed: Auth) returns (verdict: Verdict)
    requires host.Consistent()
    modifies host`files, host`trace, host`down
    ensures host.Consistent() && old(host.trace) <= host.trace && PassiveFrom(host.trace, |old(host.trace)|)
    ensures verdict.Proceed? ==> SameCredential(verdict.auth, listed) && Eligible(cfg, verdict.auth)
    ensures verdict.Proceed? ==>
              |host.trace| > |old(host.trace)| && host.trace[|host.trace| - 1] == Observe(verdict.auth)
    ensures verdict.Refuse? ==>
              && verdict.result.authIndex == listed.authIndex
              && verdict.result.outcome in {"failed", "skipped"}
              && !verdict.result.overrideRequired && verdict.result.overrideTo == 0
    ensures verdict.Proceed? ==> !host.down
    ensures verdict.Refuse? ==> Declined(host.trace, |old(host.trace)|, cfg, listed, verdict.result)
  {
    hide Ineligible, Trim, Valid, RaisesInPlace, After, IsDown;
    var plain := AuthResult(listed.authIndex, listed.provider, listed.priority, false, 0, "failed", 0, "");
    var r := host.GetRuntimeAuth(listed.authIndex);
    ghost var e := if host.down then Expired else host.trace[|host.trace| - 1];
    if r.Err? {
      assert host.down || DeclinedBy(e, cfg, listed, plain.(error := CHECK_FAILED));
      return Refuse(plain.(error := CHECK_FAILED));
    }
    var auth := r.value;
    if Trim(auth.authIndex) != Trim(listed.authIndex) {
      return Refuse(plain.(provider := auth.provider, error := OTHER_INDEX));
    }
    if Trim(auth.id) != Trim(listed.id) {
      return Refuse(plain.(provider := auth.provider, error := OTHER_ID));
    }
    match Ineligible(cfg, auth) {
      case Some(reason) =>
        return Refuse(plain.(provider := auth.provider, outcome := "skipped", error := reason));
      case None =>
        return Proceed(auth);
    }
  }

  // ----- the attempt on one target -----

  /** A runtime read of the credential, which the override and the call come after, in that order
      and with nothing of the plugin's in between, and then the restore. */
  predicate InOrder(trace: seq<Event>, a: Attempt) {
    && a.seen < a.until <= |trace| && trace[a.seen] == Observe(a.auth)
    && (a.raise.Some? ==> a.seen < a.raise.value < a.until)
    && (a.call.Some? ==> a.seen < a.call.value < a.until)
    && (a.raise.Some? && a.call.Some? ==>
          a.raise.value < a.call.value && PassiveBetween(trace, a.raise.value + 1, a.call.value))
  }

  /** The override is in the file, and a runtime read has shown it. */
  predicate RaiseConfirmed(trace: seq<Event>, a: Attempt, to: Int64) {
    && a.raise.Some?
    && exists k :: a.raise.value < k < |trace| && Confirms(trace[k], a.auth.authIndex, a.auth.id, to)
  }

  /** Something kept the plugin from writing an override since instant n. */
  ghost predicate BeginDenied(trace: seq<Event>, n: nat, authIndex: string) {
    exists why :: BeginRefused(trace, n, authIndex, why)
  }

  /** What the attempt did not do by the time its restore began has a reason. Unless the plugin went
      down, the credential is called if no override is required or one is confirmed; one that is
      written is confirmed unless time ran out; and one that is required is written unless the
      credential has no file or the file could not be edited. */
  ghost predicate Thorough(trace: seq<Event>, cfg: Config, highest: Option<Int64>, a: Attempt)
    requires a.until <= |trace|
  {
    var t := trace[..a.until];
    HaltedSince(t, a.seen + 1) ||
    (if a.raise.Some? then
       a.call.None? ==>
         !RaiseConfirmed(t, a, DesiredPriority(a.auth, highest)) && GaveUp(t, a.raise.value + 1)
     else if OverrideRequired(cfg, a.auth, highest) then
       !HasPhysicalFile(a.auth) || BeginDenied(t, a.seen + 1, a.auth.authIndex)
     else
       a.call.Some?)
  }

  /** The history of one attempt: at most one override, then at most one call, and besides them
      only passive events and, once its restore has begun, undo commits. A call that needed an override comes after a runtime
      read that showed it. */
  ghost predicate AttemptFrom(trace: seq<Event>, n: nat, cfg: Config, highest: Option<Int64>, a: Attempt) {
    && n <= |trace| && InOrder(trace, a) && Thorough(trace, cfg, highest, a)
    && (forall k | n <= k < |trace| ::
          Passive(trace[k]) || (IsUndo(trace[k]) && a.until <= k) || a.raise == Some(k) || a.call == Some(k))
    && (a.raise.Some? ==>
          && n <= a.raise.value < |trace| && PassiveBetween(trace, n, a.raise.value)
          && RaisesFor(trace[a.raise.value], cfg, highest, a.auth))
    && (a.call.Some? ==> n <= a.call.value < |trace| && trace[a.call.value] == Call(a.auth.id, a.reply))
    && (a.call.Some? && OverrideRequired(cfg, a.auth, highest) ==>
          a.raise.Some? &&
          exists k :: a.raise.value < k < a.call.value
                      && Confirms(trace[k], a.auth.authIndex, a.auth.id, DesiredPriority(a.auth, highest)))
    && (a.call.Some? && !OverrideRequired(cfg, a.auth, highest) ==> a.raise.None?)
  }

  /** Unless the restore failed, an attempt leaves no marker that was not there before. */
  ghost predicate NoNewMarkers(start: Files, trace: seq<Event>, n: nat) {
    n <= |trace| && (NeverMarksFrom(trace, n) ==> Marked(After(start, trace)) <= Marked(At(start, trace, n)))
  }

  /** What kept the attempt from undoing its override. */
  ghost predicate RestoreDenied(trace: seq<Event>, a: Attempt) {
    || HaltedSince(trace, a.seen)
    || (a.raise.Some? && a.raise.value < |trace| && IsRaise(trace[a.raise.value])
        && exists why :: RestoreRefused(trace, a.until, a.auth.authIndex, trace[a.raise.value].path,
                                        trace[a.raise.value].cause.marker, why))
  }

  predicate Raised(trace: seq<Event>, a: Attempt, path: string) {
    a.raise.Some? && a.raise.value < |trace| && IsRaise(trace[a.raise.value]) && trace[a.raise.value].path == path
  }

  /** Unless the restore failed, the file that was raised has since been unmarked. */
  predicate Freed(start: Files, trace: seq<Event>, a: Attempt) {
    a.raise.Some? && !a.restoreFailed ==>
      && a.raise.value < |trace| && IsRaise(trace[a.raise.value])
      && a.freed.Some? && a.raise.value < a.until <= a.freed.value
      && FreeAt(start, trace, trace[a.raise.value].path, a.freed.value)
  }

  lemma NoRaiseNoMarkers(start: Files, trace: seq<Event>, n: nat)
    requires Valid(start, trace) && n <= |trace|
    requires forall k | n <= k < |trace| :: !IsRaise(trace[k])
    ensures NoNewMarkers(start, trace, n)
  {
    WholeTrace(start, trace);
    if NeverMarksFrom(trace, n) {
      MarkersOnlyGo(start, trace, n, |trace|);
    }
  }

  /** The marker an override leaves is gone once its file has been seen without one. */
  lemma RaiseThenFree(start: Files, trace: seq<Event>, n: nat, raise: nat, free: nat)
    requires Valid(start, trace) && n <= raise < free <= |trace| && IsRaise(trace[raise])
    requires forall k | n <= k < |trace| && k != raise :: !IsRaise(trace[k])
    requires FreeAt(start, trace, trace[raise].path, free)
    ensures NoNewMarkers(start, trace, n)
    ensures NeverMarksFrom(trace, n) ==> trace[raise].path !in Marked(After(start, trace))
  {
    WholeTrace(start, trace);
    if NeverMarksFrom(trace, n) {
      MarkersOnlyGo(start, trace, n, raise);
      MarkedStep(start, trace, raise);
      MarkersOnlyGo(start, trace, raise + 1, |trace|);
      MarkersOnlyGo(start, trace, free, |trace|);
    }
  }

  lemma LeaseIsRemembered(start: Files, trace: seq<Event>, raise: nat, m: Marker)
    requires Valid(start, trace) && raise < |trace| && IsRaise(trace[raise]) && trace[raise].cause.marker == m
    requires QuietSince(trace, raise)
    ensures Remembers(start, trace, trace[raise].path, m)
  {
    StepAt(start, trace, raise);
    var e := trace[raise];
    BuiltMarker(e.before, e.cause.authIndex, e.cause.runID, e.cause.to, e.after, m);
    assert CarriedAt(start, trace, raise + 1, e.path, m);
    assert QuietSince(trace, raise + 1);
  }

  /** Begin and call (or begin alone, when it failed) are an attempt so far. */
  lemma BeginAndCall(t0: seq<Event>, t1: seq<Event>, t2: seq<Event>, cfg: Config, highest: Option<Int64>, a: Attempt)
    requires t0 <= t1 <= t2 && a.seen < |t0| && t0[a.seen] == Observe(a.auth) && a.until == |t2|
    requires OneCommitFrom(t1, |t0|, a.raise)
    requires a.raise.Some? ==> RaisesFor(t1[a.raise.value], cfg, highest, a.auth)
    requires if a.call.Some? then
               && |t1| <= a.call.value < |t2| && t2[a.call.value] == Call(a.auth.id, a.reply)
               && PassiveBetween(t2, |t1|, a.call.value) && PassiveFrom(t2, a.call.value + 1)
               && (a.raise.Some? <==> OverrideRequired(cfg, a.auth, highest))
               && (a.raise.Some? ==>
                     && a.raise.value < |t1| - 1
                     && Confirms(t1[|t1| - 1], a.auth.authIndex, a.auth.id, DesiredPriority(a.auth, highest)))
             else PassiveFrom(t2, |t1|)
    requires Thorough(t2, cfg, highest, a)
    ensures AttemptFrom(t2, |t0|, cfg, highest, a)
  {
    hide OverrideRequired, DesiredPriority, Confirms, Thorough;
  }

  /** Begin's promises and the call's make an attempt thorough. */
  lemma BegunThoroughly(t0: seq<Event>, t1: seq<Event>, t2: seq<Event>, cfg: Config, highest: Option<Int64>, a: Attempt,
                        failure: Option<Failure>)
    requires t0 <= t1 <= t2 && |t0| == a.seen + 1 && a.until == |t2| && OneCommitFrom(t1, |t0|, a.raise)
    requires !IsDown(t0) && (failure.Some? ==> t1 == t2) && (failure.None? && a.call.None? ==> IsDown(t2))
    requires a.raise.Some? && failure.Some? ==>
               && !ConfirmedSince(t1, a.raise.value + 1, a.auth.authIndex, a.auth.id, DesiredPriority(a.auth, highest))
               && (IsDown(t1) || GaveUp(t1, a.raise.value + 1))
    requires a.raise.None? && OverrideRequired(cfg, a.auth, highest) ==>
               && failure.Some?
               && (!HasPhysicalFile(a.auth) || IsDown(t1) || BeginRefused(t1, |t0|, a.auth.authIndex, failure.value))
    requires a.raise.None? && !OverrideRequired(cfg, a.auth, highest) ==> failure.None?
    ensures Thorough(t2, cfg, highest, a)
  {
    hide OverrideRequired, DesiredPriority, Confirms, HasPhysicalFile, IsDown, BeginRefused, GaveUp;
    assert t2[..a.until] == t2;
    if IsDown(t2) {
      WentDown(t0, t2);
    }
  }

  /** When an override is required, as Begin decides it. */
  lemma RequiredAsBegun(cfg: Config, auth: Auth, highest: Option<Int64>)
    ensures OverrideRequired(cfg, auth, highest)
            <==> cfg.temporaryPriority && auth.priority < DesiredPriority(auth, highest)
  {
  }

  /** Restoring goes on with the attempt. */
  lemma ThenRestore(trace: seq<Event>, more: seq<Event>, n: nat, cfg: Config, highest: Option<Int64>, a: Attempt,
                    undo: Option<nat>)
    requires AttemptFrom(trace, n, cfg, highest, a) && trace <= more
    requires OneCommitFrom(more, |trace|, undo) && (undo.Some? ==> IsUndo(more[undo.value]))
    ensures AttemptFrom(more, n, cfg, highest, a)
  {
    hide OverrideRequired, DesiredPriority, Confirms, Thorough;
    assert forall k | 0 <= k < |trace| :: more[k] == trace[k];
    ThoroughLater(trace, more, cfg, highest, a);
  }

  lemma ThoroughLater(trace: seq<Event>, more: seq<Event>, cfg: Config, highest: Option<Int64>, a: Attempt)
    requires a.until <= |trace| && trace <= more && Thorough(trace, cfg, highest, a)
    ensures Thorough(more, cfg, highest, a)
  {
    assert trace[..a.until] == more[..a.until];
  }

  /** The override and the call: the attempt up to its restore, with a lease exactly when something
      was raised, which the plugin still remembers. */
  method RaiseAndCall(host: Host, cfg: Config, runID: string, highest: Option<Int64>, index: nat, auth: Auth,
                      ghost seen: nat)
    returns (lease: Option<Lease>, beginFailed: bool, response: Result<Int64, HostError>, ghost a: Attempt)
    requires host.Consistent() && !host.down && |host.trace| == seen + 1 && host.trace[seen] == Observe(auth)
    modifies host`files, host`trace, host`down
    ensures host.Consistent() && old(host.trace) <= host.trace
    ensures AttemptFrom(host.trace, |old(host.trace)|, cfg, highest, a)
    ensures a == Attempt(index, auth, seen, a.raise, a.call, if response.Ok? then Some(response.value) else None,
                         |host.trace|, None, false)
    ensures (lease.Some? <==> a.raise.Some?) && (beginFailed ==> a.call.None?) && (response.Ok? ==> a.call.Some?)
    ensures lease.Some? ==>
              && a.raise.value < |host.trace| && IsRaise(host.trace[a.raise.value])
              && lease.value.authIndex == auth.authIndex && Trim(auth.authIndex) in host.pathOf
              && host.trace[a.raise.value].path == host.PathFor(auth.authIndex)
              && host.trace[a.raise.value].cause.marker == lease.value.marker
              && Remembers(host.start, host.trace, host.PathFor(lease.value.authIndex), lease.value.marker)
  {
    hide Valid, RaisesInPlace, After, At, Trim, Remembers, AttemptFrom, Confirms, PassiveFrom, Thorough, IsDown, BeginRefused,
         ConfirmedSince, GaveUp, HasPhysicalFile, OverrideRequired, DesiredPriority;
    ghost var t0 := host.trace;
    var to := DesiredPriority(auth, highest);
    var beginErr;
    ghost var raise;
    lease, beginErr, raise := BeginPriorityOverride(host, cfg, runID, auth, to);
    ghost var t1 := host.trace;
    NothingYet(t1);
    ghost var callAt: Option<nat> := None;
    beginFailed, response := beginErr.Some?, Err(Refused);
    if beginErr.None? {
      response, callAt := host.ExecutePinned(auth.id);
    }
    a := Attempt(index, auth, seen, raise, callAt, if response.Ok? then Some(response.value) else None,
                 |host.trace|, None, false);
    RequiredAsBegun(cfg, auth, highest);
    BegunThoroughly(t0, t1, host.trace, cfg, highest, a, beginErr);
    BeginAndCall(t0, t1, host.trace, cfg, highest, a);
    if lease.Some? {
      assert host.trace[raise.value] == t1[raise.value];
      LeaseStillRemembered(host.start, t0, t1, host.trace, raise.value, callAt, lease.value.marker);
    }
  }

  /** The attempt as a whole: the shape of its history; unless the restore failed, no new marker and
      none in the file that was raised; and a result that announces the override as a dry run
      would. */
  method AttemptTarget(host: Host, cfg: Config, runID: string, highest: Option<Int64>, index: nat, auth: Auth,
                       ghost seen: nat)
    returns (result: AuthResult, restoreFailed: bool, ghost a: Attempt)
    requires host.Consistent() && !host.down && |host.trace| == seen + 1 && host.trace[seen] == Observe(auth)
    modifies host`files, host`trace, host`down
    ensures host.Consistent() && old(host.trace) <= host.trace
    ensures AttemptFrom(host.trace, |old(host.trace)|, cfg, highest, a)
    ensures a.index == index && a.auth == auth && a.seen == seen && a.restoreFailed == restoreFailed
    ensures !restoreFailed ==> NoNewMarkers(host.start, host.trace, |old(host.trace)|)
    ensures !restoreFailed && NeverMarksFrom(host.trace, |old(host.trace)|) ==>
              forall path | Raised(host.trace, a, path) :: path !in Marked(host.files)
    ensures restoreFailed ==> a.raise.Some? && RestoreDenied(host.trace, a)
    ensures Freed(host.start, host.trace, a)
    ensures Announces(result, cfg, a, highest) && (a.reply.Some? ==> a.call.Some?)
  {
    hide Valid, RaisesInPlace, After, Trim, Remembers, AttemptFrom, NoNewMarkers, Restored, Announces, Planned, Freed,
         Marked, RestoreRefused, RestoreDenied, IsDown;
    ghost var n := |host.trace|;
    var lease, beginFailed, response;
    lease, beginFailed, response, a := RaiseAndCall(host, cfg, runID, highest, index, auth, seen);
    ghost var called := host.trace;
    var restoreErr;
    ghost var undo, free, source;
    restoreErr, undo, free, source := RestorePriorityOverride(host, lease);
    restoreFailed := restoreErr.Some?;
    if restoreFailed {
      DeniedRestore(old(host.trace), called, host.trace, a, lease.value.marker, restoreErr.value);
    }
    ThenRestore(called, host.trace, n, cfg, highest, a, undo);
    if !restoreFailed {
      AttemptLeavesNoMarker(host.start, called, host.trace, n, cfg, highest, a, lease, undo.Some?, free, source);
    }
    a := AsRestored(host.start, host.trace, n, cfg, highest, a, restoreFailed, free);
    var plan := PlannedFailure(cfg, auth, highest);
    result := Judge(plan, restoreFailed, beginFailed, response);
    JudgedIsAnnounced(result, cfg, a, highest, beginFailed, response);
  }

  lemma DeniedRestore(t0: seq<Event>, called: seq<Event>, trace: seq<Event>, a: Attempt, marker: Marker, why: Failure)
    requires t0 <= called <= trace && !IsDown(t0) && a.seen <= |t0|
    requires a.until == |called| && a.raise.Some? && a.raise.value < |called|
    requires IsRaise(called[a.raise.value]) && called[a.raise.value].cause.marker == marker
    requires IsDown(trace) || RestoreRefused(trace, |called|, a.auth.authIndex, called[a.raise.value].path, marker, why)
    ensures RestoreDenied(trace, a)
  {
    hide IsDown, RestoreRefused;
    assert trace[a.raise.value] == called[a.raise.value];
    if IsDown(trace) {
      WentDown(t0, trace);
    }
  }

  lemma AsRestored(start: Files, trace: seq<Event>, n: nat, cfg: Config, highest: Option<Int64>, a: Attempt, failed: bool,
                   free: nat)
    returns (a': Attempt)
    requires AttemptFrom(trace, n, cfg, highest, a)
    requires a.raise.Some? && !failed ==> a.until <= free && FreeAt(start, trace, trace[a.raise.value].path, free)
    ensures a' == a.(restoreFailed := failed, freed := a'.freed) && AttemptFrom(trace, n, cfg, highest, a')
    ensures Freed(start, trace, a') && (RestoreDenied(trace, a) ==> RestoreDenied(trace, a'))
  {
    hide FreeAt, Confirms, OverrideRequired, DesiredPriority, RestoreRefused, HaltedSince, BeginDenied, HasPhysicalFile,
         GaveUp;
    a' := a.(restoreFailed := failed, freed := Some(free));
  }

  function PlannedFailure(cfg: Config, auth: Auth, highest: Option<Int64>): (plan: AuthResult)
    ensures plan.outcome == "failed" && plan.statusCode == 0 && plan.error == ""
  {
    Planned(cfg, auth, highest, "failed")
  }

  /** What Judge promises of a result is what an attempt's result announces. */
  lemma JudgedIsAnnounced(result: AuthResult, cfg: Config, a: Attempt, highest: Option<Int64>, beginFailed: bool,
                          response: Result<Int64, HostError>)
    requires var replied := !a.restoreFailed && !beginFailed && response.Ok?;
      result == PlannedFailure(cfg, a.auth, highest)
                  .(outcome := if replied && 200 <= response.value < 300 then "succeeded" else "failed",
                    statusCode := if replied then response.value else 0, error := result.error)
    requires result.error == "" <==> result.outcome == "succeeded"
    requires a.reply == (if response.Ok? then Some(response.value) else None) && (beginFailed ==> response.Err?)
    ensures Announces(result, cfg, a, highest)
  {
  }

  /** The result of an attempt, from what became of its restore, its override and its call. A
      failed result says why. */
  method Judge(plan: AuthResult, restoreFailed: bool, beginFailed: bool, response: Result<Int64, HostError>)
    returns (result: AuthResult)
    requires plan.outcome == "failed" && plan.statusCode == 0 && plan.error == ""
    ensures var replied := !restoreFailed && !beginFailed && response.Ok?;
      result == plan.(outcome := if replied && 200 <= response.value < 300 then "succeeded" else "failed",
                      statusCode := if replied then response.value else 0, error := result.error)
    ensures result.error == "" <==> result.outcome == "succeeded"
  {
    hide Itoa;
    result := plan;
    if restoreFailed {
      result := result.(error := "auth priority restore failed");
    } else if beginFailed {
      result := result.(error := "temporary auth priority update failed");
    } else {
      match response {
        case Err(_) =>
          result := result.(error := "host model execution failed");
        case Ok(status) =>
          result := result.(statusCode := status);
          if 200 <= status < 300 {
            result := result.(outcome := "succeeded");
          } else {
            result := result.(error := "model callback returned HTTP " + Itoa(status));
          }
      }
    }
  }

  lemma LeaseStillRemembered(start: Files, t0: seq<Event>, t1: seq<Event>, t2: seq<Event>, raise: nat,
                             call: Option<nat>, m: Marker)
    requires t0 <= t1 <= t2 && Valid(start, t2)
    requires OneCommitFrom(t1, |t0|, Some(raise)) && IsRaise(t1[raise]) && t1[raise].cause.marker == m
    requires if call.Some? then
               && |t1| <= call.value < |t2| && t2[call.value].Call?
               && PassiveBetween(t2, |t1|, call.value) && PassiveFrom(t2, call.value + 1)
             else PassiveFrom(t2, |t1|)
    ensures Remembers(start, t2, t1[raise].path, m)
  {
    hide Valid, RaisesInPlace, Justified, Remembers;
    assert t2[raise] == t1[raise];
    forall k | raise <= k < |t2|
      ensures !t2[k].Crash?
    {
      if k < |t1| {
        assert t2[k] == t1[k];
      }
    }
    LeaseIsRemembered(start, t2, raise, m);
  }

  lemma AttemptLeavesNoMarker(start: Files, called: seq<Event>, trace: seq<Event>, n: nat, cfg: Config,
                              highest: Option<Int64>, a: Attempt, lease: Option<Lease>, saved: bool, free: nat, source: Raw)
    requires called <= trace && Valid(start, trace) && AttemptFrom(trace, n, cfg, highest, a)
    requires a.raise.Some? ==>
               && a.raise.value < |called| && a.until == |called| && lease.Some? && called[a.raise.value].Write?
               && Restored(start, trace, |called|, called[a.raise.value].path, lease.value.authIndex, lease.value.authID,
                           lease.value.marker, saved, free, source)
    ensures NoNewMarkers(start, trace, n)
    ensures NeverMarksFrom(trace, n) ==> forall path | Raised(trace, a, path) :: path !in Marked(After(start, trace))
    ensures a.raise.Some? ==> a.until <= free && FreeAt(start, trace, trace[a.raise.value].path, free)
  {
    if a.raise.Some? {
      assert trace[a.raise.value] == called[a.raise.value];
      RaiseThenFree(start, trace, n, a.raise.value, free);
    } else {
      NoRaiseNoMarkers(start, trace, n);
    }
  }

  // ----- one turn of the loop -----

  lemma PassiveBeforeAttempt(trace: seq<Event>, n: nat, m: nat, cfg: Config, highest: Option<Int64>, a: Attempt)
    requires AttemptFrom(trace, m, cfg, highest, a) && n <= m && PassiveBetween(trace, n, m)
    ensures AttemptFrom(trace, n, cfg, highest, a)
  {
  }

  lemma PassiveSoFar(trace: seq<Event>, more: seq<Event>, n: nat)
    requires trace <= more && PassiveFrom(trace, n)
    ensures PassiveBetween(more, n, |trace|) && PassiveBetween(more, n, |trace| - 1)
  {
    assert forall k | 0 <= k < |trace| :: more[k] == trace[k];
  }

  lemma PassiveThenNoNewMarkers(start: Files, trace: seq<Event>, n: nat, m: nat)
    requires Valid(start, trace) && n <= m <= |trace| && PassiveBetween(trace, n, m)
    requires NoNewMarkers(start, trace, m)
    ensures NoNewMarkers(start, trace, n)
  {
    if NeverMarksFrom(trace, n) {
      MarkersOnlyGo(start, trace, n, m);
    }
  }

  predicate NotAttempted(result: AuthResult) { result.outcome != "succeeded" && !result.overrideRequired }

  /** Re-check one target and, if it passes, attempt it: exactly one result, counted once and
      published; the error is set exactly when a restore failed. */
  method RefreshTarget(host: Host, cfg: Config, report: RunReport, highest: Option<Int64>, index: nat, listed: Auth)
    returns (restoreFailed: bool, ghost attempt: Option<Attempt>)
    requires host.Consistent() && report.CountsResults()
    modifies host`files, host`trace, host`down
    modifies report`successCount, report`failedCount, report`skippedCount, report`results, report`published, report`error
    ensures host.Consistent() && old(host.trace) <= host.trace
    ensures attempt.None? ==> PassiveFrom(host.trace, |old(host.trace)|) && !restoreFailed
    ensures attempt.Some? ==>
              && AttemptFrom(host.trace, |old(host.trace)|, cfg, highest, attempt.value)
              && attempt.value.index == index && attempt.value.restoreFailed == restoreFailed
              && |old(host.trace)| <= attempt.value.seen
              && PassiveBetween(host.trace, |old(host.trace)|, attempt.value.seen)
              && SameCredential(attempt.value.auth, listed) && Eligible(cfg, attempt.value.auth)
              && Freed(host.start, host.trace, attempt.value)
    ensures restoreFailed ==> RestoreDenied(host.trace, attempt.value)
    ensures !restoreFailed ==> NoNewMarkers(host.start, host.trace, |old(host.trace)|)
    ensures report.error == if restoreFailed then RESTORE_FAILED else old(report.error)
    ensures report.CountsResults() && report.Counted() == old(report.Counted()) + 1
    ensures |report.results| == |old(report.results)| + 1 && old(report.results) <= report.results
    ensures Trim(report.results[|old(report.results)|].authIndex) == Trim(listed.authIndex)
    ensures attempt.Some? ==> Announces(report.results[|old(report.results)|], cfg, attempt.value, highest)
    ensures attempt.None? ==>
              && NotAttempted(report.results[|old(report.results)|])
              && Declined(host.trace, |old(host.trace)|, cfg, listed, report.results[|old(report.results)|])
    ensures report.published
         == old(report.published)
            + [Snapshot(report.successCount, report.failedCount, report.skippedCount, report.results)]
    ensures AllBalanced(old(report.published)) ==> AllBalanced(report.published)
  {
    hide Valid, RaisesInPlace, After, At, Trim, AttemptFrom, NoNewMarkers, Ineligible, Planned, Announces, Freed, Marked,
         Raised, SameCredential, Eligible, Balanced, Declined, RestoreDenied, IsDown;
    restoreFailed, attempt := false, None;
    ghost var n := |host.trace|;
    var verdict := CheckTarget(host, cfg, listed);
    ghost var m := |host.trace|;
    ghost var checked := host.trace;
    match verdict {
      case Refuse(result) =>
        NoRaiseNoMarkers(host.start, host.trace, n);
        report.Record(result);
      case Proceed(auth) =>
        hide PassiveFrom, PassiveBetween;
        var result;
        ghost var a;
        result, restoreFailed, a := AttemptTarget(host, cfg, report.runID, highest, index, auth, m - 1);
        attempt := Some(a);
        PassiveSoFar(checked, host.trace, n);
        PassiveBeforeAttempt(host.trace, n, m, cfg, highest, a);
        if restoreFailed {
          report.error := RESTORE_FAILED;
        } else {
          PassiveThenNoNewMarkers(host.start, host.trace, n, m);
        }
        AnnouncedResult(result, cfg, a, highest, listed);
        report.Record(result);
    }
  }

  lemma AnnouncedResult(result: AuthResult, cfg: Config, a: Attempt, highest: Option<Int64>, listed: Auth)
    requires Announces(result, cfg, a, highest) && SameCredential(a.auth, listed)
    ensures Trim(result.authIndex) == Trim(listed.authIndex) && result.outcome in OUTCOMES
  {
  }

  // ----- the loop -----

  /** An attempt of the run's: on a listed target that is eligible when listed and when re-read, with
      the re-read first, then the override it needed, then a runtime read of that override, then
      the call. */
  ghost predicate LawfulAttempt(trace: seq<Event>, n: nat, cfg: Config, targets: seq<Auth>, highest: Option<Int64>, a: Attempt)
  {
    && a.index < |targets| && SameCredential(a.auth, targets[a.index]) && Eligible(cfg, a.auth)
    && n <= a.seen && InOrder(trace, a) && Thorough(trace, cfg, highest, a)
    && (a.raise.Some? ==> RaisesFor(trace[a.raise.value], cfg, highest, a.auth))
    && (a.call.Some? ==> trace[a.call.value] == Call(a.auth.id, a.reply))
    && (a.call.Some? && OverrideRequired(cfg, a.auth, highest) ==>
          a.raise.Some? &&
          exists k :: a.raise.value < k < a.call.value
                      && Confirms(trace[k], a.auth.authIndex, a.auth.id, DesiredPriority(a.auth, highest)))
  }

  predicate Accounted(attempts: seq<Attempt>, k: nat) {
    exists i :: 0 <= i < |attempts| && (attempts[i].raise == Some(k) || attempts[i].call == Some(k))
  }

  /** The history of the loop since instant n: every override and every call belongs to an
      attempt, attempts follow the targets and one another, and only the last one's restore may
      have failed. */
  ghost predicate LoopHistory(trace: seq<Event>, n: nat, cfg: Config, targets: seq<Auth>, highest: Option<Int64>,
                              attempts: seq<Attempt>)
  {
    && n <= |trace|
    && (forall k | n <= k < |trace| :: Passive(trace[k]) || IsUndo(trace[k]) || Accounted(attempts, k))
    && (forall a | a in attempts :: LawfulAttempt(trace, n, cfg, targets, highest, a))
    && (forall i, j | 0 <= i < j < |attempts| ::
          attempts[i].index < attempts[j].index && attempts[i].until <= attempts[j].seen)
    && (forall i | 0 <= i < |attempts| - 1 :: !attempts[i].restoreFailed)
  }

  /** Nothing is raised or called between two instants. */
  predicate Untouched(trace: seq<Event>, n: nat, k: nat) {
    k <= |trace| && forall i | n <= i < k :: Passive(trace[i]) || IsUndo(trace[i])
  }

  /** Once a restore that fails has begun, the loop raises and calls nothing any more. */
  lemma NothingFollowsAFailedRestore(trace: seq<Event>, n: nat, cfg: Config, targets: seq<Auth>, highest: Option<Int64>,
                                     attempts: seq<Attempt>, a: Attempt)
    requires LoopHistory(trace, n, cfg, targets, highest, attempts) && a in attempts && a.restoreFailed
    ensures n <= a.until && Untouched(trace, a.until, |trace|)
  {
    hide SameCredential, Eligible, OverrideRequired, Confirms, RaisesFor;
    var last :| 0 <= last < |attempts| && attempts[last] == a;
    assert LawfulAttempt(trace, n, cfg, targets, highest, a) && last == |attempts| - 1;
    forall k | n <= k < |trace| && !Passive(trace[k]) && !IsUndo(trace[k])
      ensures k < a.until
    {
      assert Accounted(attempts, k);
      var i :| 0 <= i < |attempts| && (attempts[i].raise == Some(k) || attempts[i].call == Some(k));
      assert LawfulAttempt(trace, n, cfg, targets, highest, attempts[i]);
    }
  }

  /** What was raised is unmarked again unless its restore failed. Whenever an attempt re-reads its
      credential, and whenever anything is raised, no file is marked that was not when the loop
      began. */
  ghost predicate MarksKept(start: Files, trace: seq<Event>, n: nat, attempts: seq<Attempt>) {
    && n <= |trace|
    && (forall a | a in attempts :: Freed(start, trace, a))
    && (NeverMarksFrom(trace, n) ==>
          && (forall k | n <= k < |trace| && IsRaise(trace[k]) :: Marked(At(start, trace, k)) <= Marked(At(start, trace, n)))
          && (forall a | a in attempts ::
                a.seen <= |trace| && Marked(At(start, trace, a.seen)) <= Marked(At(start, trace, n))))
  }

  /** An unmarked file stays so until it is raised. */
  lemma {:induction false} StaysUnmarked(start: Files, trace: seq<Event>, u: nat, k: nat, path: string)
    requires Valid(start, trace) && NeverMarksFrom(trace, u) && u <= k <= |trace| && path !in Marked(At(start, trace, u))
    requires forall i | u <= i < k && IsRaise(trace[i]) :: trace[i].path != path
    ensures path !in Marked(At(start, trace, k))
    decreases k
  {
    hide Valid, At, Marked;
    if u < k {
      StaysUnmarked(start, trace, u, k - 1, path);
      MarkedStep(start, trace, k - 1);
    }
  }

  /** Whenever a file is raised from instant n on, it is unmarked some time later. */
  ghost predicate RaisesEnd(start: Files, trace: seq<Event>, n: nat, path: string) {
    forall k | n <= k < |trace| && IsRaise(trace[k]) && trace[k].path == path ::
      exists f: nat :: k < f && FreeAt(start, trace, path, f)
  }

  lemma {:induction false} EndsUnmarked(start: Files, trace: seq<Event>, u: nat, path: string)
    requires Valid(start, trace) && NeverMarksFrom(trace, u) && FreeAt(start, trace, path, u)
    requires RaisesEnd(start, trace, u, path)
    ensures path !in Marked(After(start, trace))
    decreases |trace| - u
  {
    if k :| u <= k < |trace| && IsRaise(trace[k]) && trace[k].path == path {
      var f: nat :| k < f && FreeAt(start, trace, path, f);
      EndsUnmarked(start, trace, f, path);
    } else {
      StaysUnmarked(start, trace, u, |trace|, path);
      WholeTrace(start, trace);
    }
  }

  predicate RaisedSince(trace: seq<Event>, n: nat, path: string) {
    exists k :: n <= k < |trace| && IsRaise(trace[k]) && trace[k].path == path
  }

  /** The file's last restore failed. */
  predicate StillRaised(trace: seq<Event>, attempts: seq<Attempt>, path: string) {
    exists a :: a in attempts && a.restoreFailed && Raised(trace, a, path)
  }

  lemma AttemptsEnd(start: Files, trace: seq<Event>, n: nat, cfg: Config, targets: seq<Auth>, highest: Option<Int64>,
                    attempts: seq<Attempt>, path: string)
    requires LoopHistory(trace, n, cfg, targets, highest, attempts) && MarksKept(start, trace, n, attempts)
    requires !StillRaised(trace, attempts, path)
    ensures RaisesEnd(start, trace, n, path)
  {
    hide At, Marked, SameCredential, Eligible, OverrideRequired, Confirms, FreeAt;
    forall k | n <= k < |trace| && IsRaise(trace[k]) && trace[k].path == path
      ensures exists f: nat :: k < f && FreeAt(start, trace, path, f)
    {
      assert Accounted(attempts, k);
      var i :| 0 <= i < |attempts| && (attempts[i].raise == Some(k) || attempts[i].call == Some(k));
      var a := attempts[i];
      assert LawfulAttempt(trace, n, cfg, targets, highest, a);
      assert Raised(trace, a, path) && Freed(start, trace, a);
      assert k < a.freed.value;
    }
  }

  /** The loop leaves no marker in a file it has raised or found unmarked, unless the restore of
      that file failed. */
  lemma LoopUnmarks(start: Files, trace: seq<Event>, n: nat, cfg: Config, targets: seq<Auth>, highest: Option<Int64>,
                    attempts: seq<Attempt>, path: string)
    requires Valid(start, trace) && NeverMarksFrom(trace, n)
    requires LoopHistory(trace, n, cfg, targets, highest, attempts) && MarksKept(start, trace, n, attempts)
    requires RaisedSince(trace, n, path) || FreeAt(start, trace, path, n)
    ensures path in Marked(After(start, trace)) ==> StillRaised(trace, attempts, path)
  {
    hide Valid, LoopHistory, MarksKept, FreeAt, Marked, StillRaised;
    if !StillRaised(trace, attempts, path) {
      AttemptsEnd(start, trace, n, cfg, targets, highest, attempts, path);
      if k :| n <= k < |trace| && IsRaise(trace[k]) && trace[k].path == path {
        var f: nat :| k < f && FreeAt(start, trace, path, f);
        EndsUnmarked(start, trace, f, path);
      } else {
        EndsUnmarked(start, trace, n, path);
      }
    }
  }

  lemma LawfulLater(trace: seq<Event>, more: seq<Event>, n: nat, cfg: Config, targets: seq<Auth>,
                    highest: Option<Int64>, a: Attempt)
    requires LawfulAttempt(trace, n, cfg, targets, highest, a) && trace <= more
    ensures LawfulAttempt(more, n, cfg, targets, highest, a) && a.until <= |trace|
  {
    ThoroughLater(trace, more, cfg, highest, a);
    hide Thorough;
  }

  lemma AttemptIsLawful(trace: seq<Event>, n: nat, m: nat, cfg: Config, targets: seq<Auth>,
                        highest: Option<Int64>, a: Attempt)
    requires AttemptFrom(trace, m, cfg, highest, a) && n <= a.seen
    requires a.index < |targets| && SameCredential(a.auth, targets[a.index]) && Eligible(cfg, a.auth)
    ensures LawfulAttempt(trace, n, cfg, targets, highest, a)
  {
  }

  lemma LoopTurn(trace: seq<Event>, more: seq<Event>, n: nat, cfg: Config, targets: seq<Auth>,
                 highest: Option<Int64>, attempts: seq<Attempt>, a: Attempt)
    requires LoopHistory(trace, n, cfg, targets, highest, attempts) && trace <= more
    requires AttemptFrom(more, |trace|, cfg, highest, a) && |trace| <= a.seen
    requires a.index < |targets| && SameCredential(a.auth, targets[a.index]) && Eligible(cfg, a.auth)
    requires forall b | b in attempts :: b.index < a.index && !b.restoreFailed
    ensures LoopHistory(more, n, cfg, targets, highest, attempts + [a])
  {
    hide LawfulAttempt, SameCredential, Eligible, OverrideRequired, Confirms;
    var attempts' := attempts + [a];
    AttemptIsLawful(more, n, |trace|, cfg, targets, highest, a);
    forall b | b in attempts'
      ensures LawfulAttempt(more, n, cfg, targets, highest, b)
      ensures b in attempts ==> b.until <= |trace|
    {
      if b in attempts {
        LawfulLater(trace, more, n, cfg, targets, highest, b);
      }
    }
    forall k | n <= k < |more|
      ensures Passive(more[k]) || IsUndo(more[k]) || Accounted(attempts', k)
    {
      if k < |trace| {
        assert more[k] == trace[k];
        if Accounted(attempts, k) {
          var i :| 0 <= i < |attempts| && (attempts[i].raise == Some(k) || attempts[i].call == Some(k));
          assert attempts'[i] == attempts[i];
        }
      } else {
        assert attempts'[|attempts|] == a;
      }
    }
  }

  lemma LoopPassiveTurn(trace: seq<Event>, more: seq<Event>, n: nat, cfg: Config, targets: seq<Auth>,
                        highest: Option<Int64>, attempts: seq<Attempt>)
    requires LoopHistory(trace, n, cfg, targets, highest, attempts) && trace <= more && PassiveFrom(more, |trace|)
    ensures LoopHistory(more, n, cfg, targets, highest, attempts)
  {
    hide LawfulAttempt, Accounted;
    forall b | b in attempts
      ensures LawfulAttempt(more, n, cfg, targets, highest, b)
    {
      LawfulLater(trace, more, n, cfg, targets, highest, b);
    }
    assert forall k | n <= k < |trace| :: more[k] == trace[k];
  }

  lemma FreedStays(start: Files, trace: seq<Event>, more: seq<Event>, a: Attempt)
    requires Freed(start, trace, a) && trace <= more
    ensures Freed(start, more, a)
  {
    hide HasMarker, At;
    if a.raise.Some? && !a.restoreFailed {
      AtPrefix(start, trace, more, a.freed.value);
    }
  }

  lemma MarksTurn(start: Files, trace: seq<Event>, more: seq<Event>, n: nat, attempts: seq<Attempt>, a: Option<Attempt>)
    requires Valid(start, more) && trace <= more
    requires MarksKept(start, trace, n, attempts) && NoNewMarkers(start, trace, n)
    requires forall k | |trace| <= k < |more| && IsRaise(more[k]) :: a.Some? && a.value.raise == Some(k)
    requires a.Some? ==>
               && |trace| <= a.value.seen <= |more| && PassiveBetween(more, |trace|, a.value.seen)
               && Freed(start, more, a.value)
    ensures MarksKept(start, more, n, WithAttempt(attempts, a))
    ensures NoNewMarkers(start, more, |trace|) ==> NoNewMarkers(start, more, n)
  {
    forall b | b in WithAttempt(attempts, a)
      ensures Freed(start, more, b)
    {
      if b in attempts {
        FreedStays(start, trace, more, b);
      }
    }
    hide Freed;
    if NeverMarksFrom(more, n) {
      assert NeverMarksFrom(trace, n) by {
        assert forall k | n <= k < |trace| :: trace[k] == more[k];
      }
      AtPrefix(start, trace, more, n);
      AtPrefix(start, trace, more, |trace|);
      WholeTrace(start, trace);
      WholeTrace(start, more);
      forall k | n <= k < |more| && IsRaise(more[k])
        ensures Marked(At(start, more, k)) <= Marked(At(start, more, n))
      {
        if k < |trace| {
          assert trace[k] == more[k];
          AtPrefix(start, trace, more, k);
        } else {
          MarkersOnlyGo(start, more, |trace|, k);
        }
      }
      forall b | b in WithAttempt(attempts, a)
        ensures b.seen <= |more| && Marked(At(start, more, b.seen)) <= Marked(At(start, more, n))
      {
        if b in attempts {
          AtPrefix(start, trace, more, b.seen);
        } else {
          MarkersOnlyGo(start, more, |trace|, b.seen);
        }
      }
    }
  }

  /** The credential loop. On every exit the three counts add up to the number of targets, and
      at every publication in between to the number of results; results follow the targets; a
      loop that neither failed nor was canceled has a result for each. */
  method RefreshTargets(host: Host, cfg: Config, report: RunReport, targets: seq<Auth>, highest: Option<Int64>)
    returns (ghost attempts: seq<Attempt>)
    requires host.Consistent()
    requires report.Counted() == 0 && report.results == [] && report.error == "" && !report.canceled
    requires AllBalanced(report.published)
    modifies host`files, host`trace, host`down
    modifies report`successCount, report`failedCount, report`skippedCount, report`results, report`published,
             report`error, report`canceled
    ensures host.Consistent() && old(host.trace) <= host.trace
    ensures LoopHistory(host.trace, |old(host.trace)|, cfg, targets, highest, attempts)
    ensures MarksKept(host.start, host.trace, |old(host.trace)|, attempts)
    ensures report.error == "" ==> NoNewMarkers(host.start, host.trace, |old(host.trace)|)
    ensures report.error != "" <==> attempts != [] && attempts[|attempts| - 1].restoreFailed
    ensures report.error != "" ==>
              && Untouched(host.trace, attempts[|attempts| - 1].until, |host.trace|)
              && RestoreDenied(host.trace, attempts[|attempts| - 1])
    ensures report.canceled ==> ExpiredSince(host.trace, |old(host.trace)|)
    ensures report.error in {"", RESTORE_FAILED}
    ensures report.Counted() == |targets|
    ensures Follows(report.results, targets) && report.CountsTargets(|targets| - |report.results|)
    ensures !report.canceled && report.error == "" ==> |report.results| == |targets|
    ensures AllAnnounced(report.results, cfg, highest, attempts)
    ensures AllAccounted(host.trace, |old(host.trace)|, cfg, targets, report.results, attempts)
    ensures AllBalanced(report.published)
  {
    hide Valid, RaisesInPlace, After, At, Trim, AttemptFrom, NoNewMarkers, LoopHistory, MarksKept, SameCredential, Eligible,
         Announces, AllAnnounced, Balanced, AllBalanced, Follows, PassiveFrom, Freed, NotAttempted,
         AllAccounted, RestoreDenied, IsDown;
    NothingCounted();
    attempts := [];
    ghost var n := |host.trace|;
    LoopStarts(host.start, host.trace, cfg, targets, highest);
    var index := 0;
    while index < |targets|
      invariant 0 <= index <= |targets|
      invariant host.Consistent() && old(host.trace) <= host.trace
      invariant LoopKept(host.start, host.trace, n, cfg, targets, highest, attempts, report.results)
      invariant NoNewMarkers(host.start, host.trace, n) && AllRestoredBefore(attempts, index)
      invariant report.error == "" && !report.canceled && AllBalanced(report.published)
      invariant report.CountsResults() && report.Counted() == index == |report.results|
    {
      label before:
      var done := host.ContextDone();
      if done {
        KeptWhileWaiting(host.start, old@before(host.trace), host.trace, n, cfg, targets, highest, attempts, report.results);
        JustExpired(host.trace, n);
        report.canceled := true;
        report.LeaveOut(|targets| - index);
        return;
      }
      var stop;
      stop, attempts := TakeTurn(host, cfg, report, targets, highest, index, n, attempts);
      if stop {
        if report.error != "" {
          NothingFollowsAFailedRestore(host.trace, n, cfg, targets, highest, attempts, attempts[|attempts| - 1]);
        }
        return;
      }
      index := index + 1;
    }
  }

  /** One turn of the loop: on a failed restore or a cancellation the rest is left out. */
  method TakeTurn(host: Host, cfg: Config, report: RunReport, targets: seq<Auth>, highest: Option<Int64>, index: nat,
                  ghost n: nat, ghost attempts: seq<Attempt>)
    returns (stop: bool, ghost attempts': seq<Attempt>)
    requires host.Consistent() && index < |targets|
    requires LoopKept(host.start, host.trace, n, cfg, targets, highest, attempts, report.results)
    requires NoNewMarkers(host.start, host.trace, n) && AllRestoredBefore(attempts, index)
    requires report.error == "" && !report.canceled && AllBalanced(report.published)
    requires report.CountsResults() && report.Counted() == index == |report.results|
    modifies host`files, host`trace, host`down
    modifies report`successCount, report`failedCount, report`skippedCount, report`results, report`published,
             report`error, report`canceled
    ensures host.Consistent() && old(host.trace) <= host.trace
    ensures LoopKept(host.start, host.trace, n, cfg, targets, highest, attempts', report.results)
    ensures AllBalanced(report.published) && |report.results| == index + 1
    ensures report.error == "" ==> NoNewMarkers(host.start, host.trace, n) && AllRestoredBefore(attempts', index + 1)
    ensures report.error != "" ==>
              && attempts' != [] && attempts'[|attempts'| - 1].restoreFailed
              && RestoreDenied(host.trace, attempts'[|attempts'| - 1])
    ensures report.canceled ==> ExpiredSince(host.trace, n)
    ensures report.error in {"", RESTORE_FAILED} && (stop <==> report.error != "" || report.canceled)
    ensures !stop ==> report.CountsResults() && report.Counted() == index + 1
    ensures stop ==> report.CountsTargets(|targets| - index - 1) && report.Counted() == |targets|
  {
    hide Valid, RaisesInPlace, After, At, Trim, AttemptFrom, NoNewMarkers, LoopKept, SameCredential, Eligible, Announces,
         Balanced, AllBalanced, PassiveFrom, PassiveBetween, Freed, NotAttempted, WithAttempt, AllRestoredBefore, Declined,
         RestoreDenied, IsDown, ExpiredSince;
    var restoreFailed;
    ghost var attempt;
    restoreFailed, attempt := RefreshTarget(host, cfg, report, highest, index, targets[index]);
    TurnTaken(host.start, old(host.trace), host.trace, n, cfg, targets, highest, attempts, attempt, index,
              old(report.results), report.results);
    attempts' := WithAttempt(attempts, attempt);
    if restoreFailed {
      report.LeaveOut(|targets| - index - 1);
      return true, attempts';
    }
    label turned:
    stop := host.ContextDone();
    if stop {
      KeptWhileWaiting(host.start, old@turned(host.trace), host.trace, n, cfg, targets, highest, attempts', report.results);
      JustExpired(host.trace, n);
      report.canceled := true;
      report.LeaveOut(|targets| - index - 1);
    }
  }

  ghost function WithAttempt(attempts: seq<Attempt>, a: Option<Attempt>): seq<Attempt> {
    if a.Some? then attempts + [a.value] else attempts
  }

  /** The results so far, one for each target from the first on, in the targets' order. */
  predicate Follows(results: seq<AuthResult>, targets: seq<Auth>) {
    && |results| <= |targets|
    && forall i | 0 <= i < |results| :: Trim(results[i].authIndex) == Trim(targets[i].authIndex)
  }

  predicate AllRestoredBefore(attempts: seq<Attempt>, index: nat) {
    forall a | a in attempts :: a.index < index && !a.restoreFailed
  }

  /** Every target so far was attempted, or a runtime read since instant n accounts for its result. */
  ghost predicate AllAccounted(trace: seq<Event>, n: nat, cfg: Config, targets: seq<Auth>, results: seq<AuthResult>,
                               attempts: seq<Attempt>)
  {
    forall i | 0 <= i < |results| && i < |targets| ::
      (exists a :: a in attempts && a.index == i) || Declined(trace, n, cfg, targets[i], results[i])
  }

  lemma DeclinedLater(trace: seq<Event>, more: seq<Event>, n: nat, m: nat, cfg: Config, listed: Auth, result: AuthResult)
    requires Declined(trace, m, cfg, listed, result) && trace <= more && n <= m && QuietSince(more, |trace|)
    ensures Declined(more, n, cfg, listed, result)
  {
    StaysDown(trace, more);
    hide IsDown, DeclinedBy;
    assert forall k | 0 <= k < |trace| :: more[k] == trace[k];
  }

  lemma AccountedTurn(t: seq<Event>, more: seq<Event>, n: nat, cfg: Config, targets: seq<Auth>, results: seq<AuthResult>,
                      results': seq<AuthResult>, attempts: seq<Attempt>, attempts': seq<Attempt>)
    requires AllAccounted(t, n, cfg, targets, results, attempts) && n <= |t| && t <= more && QuietSince(more, |t|)
    requires results <= results' && |results'| <= |targets| && forall a | a in attempts :: a in attempts'
    requires |results'| <= |results| + 1
    requires |results'| == |results| + 1 ==>
               || (exists a :: a in attempts' && a.index == |results|)
               || Declined(more, |t|, cfg, targets[|results|], results'[|results|])
    ensures AllAccounted(more, n, cfg, targets, results', attempts')
  {
    hide Declined;
    forall i | 0 <= i < |results'|
      ensures (exists a :: a in attempts' && a.index == i) || Declined(more, n, cfg, targets[i], results'[i])
    {
      if i < |results| {
        assert results'[i] == results[i];
        if Declined(t, n, cfg, targets[i], results[i]) {
          DeclinedLater(t, more, n, n, cfg, targets[i], results[i]);
        }
      } else if Declined(more, |t|, cfg, targets[i], results'[i]) {
        DeclinedLater(more, more, n, |t|, cfg, targets[i], results'[i]);
      }
    }
  }

  lemma JustExpired(trace: seq<Event>, n: nat)
    requires n < |trace| && trace[|trace| - 1].Expired?
    ensures ExpiredSince(trace, n)
  {
  }

  /** Nothing but waiting happens between two turns. */
  lemma KeptWhileWaiting(start: Files, t: seq<Event>, more: seq<Event>, n: nat, cfg: Config, targets: seq<Auth>,
                         highest: Option<Int64>, attempts: seq<Attempt>, results: seq<AuthResult>)
    requires Valid(start, more) && more == t + [Expired]
    requires LoopKept(start, t, n, cfg, targets, highest, attempts, results) && NoNewMarkers(start, t, n)
    ensures LoopKept(start, more, n, cfg, targets, highest, attempts, results) && NoNewMarkers(start, more, n)
  {
    assert more[|t|].Expired?;
    LoopPassiveTurn(t, more, n, cfg, targets, highest, attempts);
    MarksTurn(start, t, more, n, attempts, None);
    NoRaiseNoMarkers(start, more, |t|);
    LoopIsAfter(t, n, cfg, targets, highest, attempts);
    AccountedTurn(t, more, n, cfg, targets, results, results, attempts, attempts);
    hide Valid, LoopHistory, MarksKept, AllAccounted, AllAnnounced, Follows, NoNewMarkers;
  }

  lemma LoopIsAfter(trace: seq<Event>, n: nat, cfg: Config, targets: seq<Auth>, highest: Option<Int64>,
                    attempts: seq<Attempt>)
    requires LoopHistory(trace, n, cfg, targets, highest, attempts)
    ensures n <= |trace|
  {
  }

  /** What is known of the loop's history, of the markers it leaves, and of its results so far. */
  ghost predicate LoopKept(start: Files, trace: seq<Event>, n: nat, cfg: Config, targets: seq<Auth>,
                           highest: Option<Int64>, attempts: seq<Attempt>, results: seq<AuthResult>)
  {
    && LoopHistory(trace, n, cfg, targets, highest, attempts) && MarksKept(start, trace, n, attempts)
    && AllAnnounced(results, cfg, highest, attempts) && Follows(results, targets)
    && AllAccounted(trace, n, cfg, targets, results, attempts)
  }

  /** One turn of the loop carries everything that is known of the history so far. */
  lemma TurnTaken(start: Files, t: seq<Event>, more: seq<Event>, n: nat, cfg: Config, targets: seq<Auth>,
                  highest: Option<Int64>, attempts: seq<Attempt>, a: Option<Attempt>, index: nat,
                  results: seq<AuthResult>, results': seq<AuthResult>)
    requires Valid(start, more) && t <= more && index < |targets|
    requires LoopKept(start, t, n, cfg, targets, highest, attempts, results)
    requires NoNewMarkers(start, t, n) && AllRestoredBefore(attempts, index)
    requires results <= results' && |results'| == |results| + 1 == index + 1
    requires Trim(results'[index].authIndex) == Trim(targets[index].authIndex)
    requires a.None? ==>
               && PassiveFrom(more, |t|) && NotAttempted(results'[index])
               && Declined(more, |t|, cfg, targets[index], results'[index])
    requires a.Some? ==>
               && AttemptFrom(more, |t|, cfg, highest, a.value) && a.value.index == index
               && |t| <= a.value.seen && PassiveBetween(more, |t|, a.value.seen)
               && SameCredential(a.value.auth, targets[index]) && Eligible(cfg, a.value.auth)
               && Announces(results'[index], cfg, a.value, highest) && Freed(start, more, a.value)
    ensures LoopKept(start, more, n, cfg, targets, highest, WithAttempt(attempts, a), results')
    ensures NoNewMarkers(start, more, |t|) ==> NoNewMarkers(start, more, n)
    ensures if a.Some? && a.value.restoreFailed then
              WithAttempt(attempts, a) != [] && WithAttempt(attempts, a)[|WithAttempt(attempts, a)| - 1].restoreFailed
            else AllRestoredBefore(WithAttempt(attempts, a), index + 1)
    ensures a.Some? ==> WithAttempt(attempts, a) != [] && WithAttempt(attempts, a)[|WithAttempt(attempts, a)| - 1] == a.value
    ensures n <= |t|
  {
    hide Valid, RaisesInPlace, After, At, Trim, AttemptFrom, NoNewMarkers, LoopHistory, MarksKept, SameCredential, Eligible,
         Announces, AllAnnounced, Freed, AllAccounted, Declined, NotAttempted;
    LoopIsAfter(t, n, cfg, targets, highest, attempts);
    if a.Some? {
      AttemptRaises(more, |t|, cfg, highest, a.value);
      assert a.value in WithAttempt(attempts, a);
    }
    AccountedTurn(t, more, n, cfg, targets, results, results', attempts, WithAttempt(attempts, a));
    AnnouncedTurn(results, results', cfg, highest, attempts, a);
    if a.Some? {
      LoopTurn(t, more, n, cfg, targets, highest, attempts, a.value);
      MarksTurn(start, t, more, n, attempts, a);
    } else {
      LoopPassiveTurn(t, more, n, cfg, targets, highest, attempts);
      MarksTurn(start, t, more, n, attempts, a);
    }
  }

  lemma LoopStarts(start: Files, trace: seq<Event>, cfg: Config, targets: seq<Auth>, highest: Option<Int64>)
    ensures LoopKept(start, trace, |trace|, cfg, targets, highest, [], []) && NoNewMarkers(start, trace, |trace|)
  {
    WholeTrace(start, trace);
  }

  lemma AnnouncedTurn(results: seq<AuthResult>, more: seq<AuthResult>, cfg: Config, highest: Option<Int64>,
                      attempts: seq<Attempt>, a: Option<Attempt>)
    requires results <= more && AllAnnounced(results, cfg, highest, attempts)
    requires |more| == |results| + 1
    requires if a.Some? then a.value.index == |results| && Announces(more[|results|], cfg, a.value, highest)
             else NotAttempted(more[|results|])
    ensures AllAnnounced(more, cfg, highest, WithAttempt(attempts, a))
  {
  }

  lemma AttemptRaises(trace: seq<Event>, n: nat, cfg: Config, highest: Option<Int64>, a: Attempt)
    requires AttemptFrom(trace, n, cfg, highest, a)
    ensures a.seen < |trace| && forall k | n <= k < |trace| && IsRaise(trace[k]) :: a.raise == Some(k)
    ensures QuietSince(trace, n)
  {
  }

  /** What can keep a run from calling a credential it attempts. */
  predicate Hinders(e: Event) {
    || e.Denied? || e.Expired? || e.Halted? || IsOutside(e)
    || (e.Fetched? && (BadFetch(e, e.authIndex) || HasMarker(e.json.doc)))
  }

  /** Every credential that an attempt of a run's is on is called, unless something hinders it or an
      override is required and the credential has no file. */
  lemma CalledUnlessHindered(trace: seq<Event>, n: nat, cfg: Config, targets: seq<Auth>, highest: Option<Int64>, a: Attempt)
    requires LawfulAttempt(trace, n, cfg, targets, highest, a)
    requires forall k | a.seen < k < a.until :: !Hinders(trace[k])
    requires OverrideRequired(cfg, a.auth, highest) ==> HasPhysicalFile(a.auth)
    ensures a.call.Some?
  {
    hide OverrideRequired, HasPhysicalFile, HasMarker, Trim, Ineligible, Confirms, RaisesFor;
    var t := trace[..a.until];
    assert forall k | 0 <= k < |t| :: t[k] == trace[k];
    if a.raise.None? && OverrideRequired(cfg, a.auth, highest) && BeginDenied(t, a.seen + 1, a.auth.authIndex) {
      NamedByEligibility(cfg, a.auth);
      var why :| BeginRefused(t, a.seen + 1, a.auth.authIndex, why);
      DenialHinders(t, a.seen + 1, a.auth.authIndex, why);
    }
  }

  lemma NamedByEligibility(cfg: Config, auth: Auth)
    requires Eligible(cfg, auth)
    ensures !Blank(auth.authIndex) && !Blank(auth.id)
  {
  }

  lemma DenialHinders(trace: seq<Event>, n: nat, authIndex: string, why: Failure)
    requires BeginRefused(trace, n, authIndex, why) && !Blank(authIndex)
    ensures exists k :: n <= k < |trace| && Hinders(trace[k])
  {
    hide Trim, HasMarker;
    if path :| FileRefused(trace, n, authIndex, path, why) {
      if why.Contended? {
        var at: seq<nat> :| |at| == 3 && RewrittenAt(trace, n, path, at);
        assert Hinders(trace[at[0]]);
      } else if why.NotRead? {
        var k :| n <= k < |trace| && (trace[k] == Denied(ForFile(authIndex)) || BadFetch(trace[k], authIndex));
        assert Hinders(trace[k]);
      } else {
        var k :| n <= k < |trace| && trace[k] == Denied(ForSave(path));
        assert Hinders(trace[k]);
      }
    } else {
      var k :| n <= k < |trace| && GoodFetch(trace[k], authIndex) && HasMarker(trace[k].json.doc);
      assert Hinders(trace[k]);
    }
  }

  /** No two calls of a run are for the same credential. */
  lemma CallsAreDistinct(trace: seq<Event>, n: nat, cfg: Config, targets: seq<Auth>, highest: Option<Int64>,
                         attempts: seq<Attempt>, k: nat, l: nat)
    requires LoopHistory(trace, n, cfg, targets, highest, attempts) && DistinctIdentities(targets)
    requires n <= k < l < |trace| && trace[k].Call? && trace[l].Call?
    ensures Trim(trace[k].authID) != Trim(trace[l].authID)
  {
    hide Trim, Eligible, OverrideRequired, Confirms;
    assert Accounted(attempts, k) && Accounted(attempts, l);
    var i :| 0 <= i < |attempts| && (attempts[i].raise == Some(k) || attempts[i].call == Some(k));
    var j :| 0 <= j < |attempts| && (attempts[j].raise == Some(l) || attempts[j].call == Some(l));
    var a, b := attempts[i], attempts[j];
    assert LawfulAttempt(trace, n, cfg, targets, highest, a) && LawfulAttempt(trace, n, cfg, targets, highest, b);
    assert a.call == Some(k) && b.call == Some(l);
    assert a.index != b.index;
    var ids := Identities(targets);
    assert ids[a.index].0 != ids[b.index].0;
  }

  // ----- the run -----

  /** A run: what it was asked for, the listing it recovered by, the listing it worked on and when
      that was taken, what it chose from it, and what it did once its loop had started. */
  datatype Run = Run(
    cfg: Config,
    requested: seq<string>,
    recovery: seq<Auth>,
    listing: seq<Auth>,
    listedAt: nat,
    targets: seq<Auth>,
    highest: Option<Int64>,
    loopStart: nat,
    attempts: seq<Attempt>)

  /** What can be said of a whole run, from instant n on. The part before `loopStart` recovers
      and selects; the part after it is the credential loop. */
  ghost predicate RunHistory(trace: seq<Event>, n: nat, run: Run) {
    && n <= run.loopStart && Untouched(trace, n, run.loopStart)
    && LoopHistory(trace, run.loopStart, run.cfg, run.targets, run.highest, run.attempts)
    && DistinctIdentities(run.targets) && (forall a | a in run.targets :: Eligible(run.cfg, a))
  }

  /** What a run works on: a listing to recover by; the wanted credentials of its last listing, each
      as often as listed and in order; and the highest priority in that listing. */
  ghost predicate Selection(trace: seq<Event>, n: nat, run: Run) {
    var requested := StringSet(run.requested, false);
    && n < run.listedAt <= |trace| && trace[run.listedAt - 1] == Listed(run.listing)
    && (exists k :: n <= k < run.listedAt && trace[k] == Listed(run.recovery))
    && multiset(run.targets) == multiset(Selected(run.cfg, requested, run.listing)) && Ordered(run.targets)
    && (forall a :: a in run.targets <==> a in run.listing && Wanted(run.cfg, requested, a))
    && run.highest == Highest(run.listing)
  }

  /** Between two instants an outside writer took the marker off a file. */
  predicate UnmarkedOutside(trace: seq<Event>, n: nat, m: nat, path: string) {
    exists k :: n <= k < m && k < |trace| && IsOutside(trace[k]) && trace[k].path == path
                && HasMarker(trace[k].before.doc) && !HasMarker(trace[k].after.doc)
  }

  /** While only outside writers that never mark are about, a file ends unmarked that was marked
      exactly when one of them took the marker away. */
  lemma OnlyOutsidersUnmark(start: Files, trace: seq<Event>, n: nat, m: nat, path: string)
    requires Valid(start, trace) && n <= m <= |trace| && PassiveBetween(trace, n, m) && NeverMarksFrom(trace, n)
    requires path !in Marked(At(start, trace, m))
    ensures path in Marked(At(start, trace, n)) <==> UnmarkedOutside(trace, n, m, path)
  {
    hide Valid, At, HasMarker;
    if path in Marked(At(start, trace, n)) {
      SomebodyUnmarks(start, trace, n, m, path);
    }
    if UnmarkedOutside(trace, n, m, path) {
      var k :| n <= k < m && IsOutside(trace[k]) && trace[k].path == path && HasMarker(trace[k].before.doc);
      StepAt(start, trace, k);
      MarkedBefore(start, trace, k);
      MarkersOnlyGo(start, trace, n, k);
    }
  }

  lemma MarkedBefore(start: Files, trace: seq<Event>, k: nat)
    requires Valid(start, trace) && k < |trace| && trace[k].Write? && HasMarker(trace[k].before.doc)
    ensures trace[k].path in Marked(At(start, trace, k))
  {
    hide Valid, HasMarker;
    StepAt(start, trace, k);
  }

  lemma {:induction false} SomebodyUnmarks(start: Files, trace: seq<Event>, n: nat, m: nat, path: string)
    requires Valid(start, trace) && n <= m <= |trace| && PassiveBetween(trace, n, m)
    requires path in Marked(At(start, trace, n)) && path !in Marked(At(start, trace, m))
    ensures UnmarkedOutside(trace, n, m, path)
    decreases m
  {
    if n < m {
      StepAt(start, trace, m - 1);
      if path !in Marked(At(start, trace, m - 1)) {
        SomebodyUnmarks(start, trace, n, m - 1, path);
      }
    }
  }

  /** No file is marked when the loop begins, when an attempt re-reads its credential, or when
      anything is raised; nor was one when the run listed, except those that outside writers then
      unmarked. */
  ghost predicate ClearRun(start: Files, trace: seq<Event>, run: Run) {
    && run.listedAt <= run.loopStart <= |trace|
    && (forall path :: path in Marked(At(start, trace, run.listedAt)) <==>
                       UnmarkedOutside(trace, run.listedAt, run.loopStart, path))
    && Marked(At(start, trace, run.loopStart)) == {}
    && (forall a | a in run.attempts :: a.seen <= |trace| && Marked(At(start, trace, a.seen)) == {})
    && (forall k | run.loopStart <= k < |trace| && IsRaise(trace[k]) :: Marked(At(start, trace, k)) == {})
  }

  /** A file that the run raised or was to recover. */
  predicate Handled(pathOf: map<string, string>, trace: seq<Event>, n: nat, run: Run, path: string) {
    RaisedSince(trace, n, path) || ListsFile(pathOf, run.recovery, path)
  }

  method DryRun(report: RunReport, cfg: Config, targets: seq<Auth>, highest: Option<Int64>)
    requires report.results == []
    modifies report`results
    ensures |report.results| == |targets|
    ensures forall i | 0 <= i < |targets| :: report.results[i] == Planned(cfg, targets[i], highest, "selected")
  {
    for i := 0 to |targets|
      invariant |report.results| == i
      invariant forall j | 0 <= j < i :: report.results[j] == Planned(cfg, targets[j], highest, "selected")
    {
      report.results := report.results + [Planned(cfg, targets[i], highest, "selected")];
    }
  }

  /** What kept a run from getting to its targets. */
  ghost predicate PrepareRefused(start: Files, trace: seq<Event>, n: nat, error: string) {
    if error == RECOVERY_FAILED then exists e :: Explained(start, trace, n, e)
    else error in {LISTING_FAILED, RELISTING_FAILED} && (IsDown(trace) || DeniedSince(trace, n, ForListing))
  }

  lemma PrepareRefusedLater(start: Files, trace: seq<Event>, more: seq<Event>, n: nat, error: string)
    requires PrepareRefused(start, trace, n, error) && trace <= more && QuietSince(more, |trace|)
    ensures PrepareRefused(start, more, n, error)
  {
    StaysDown(trace, more);
    hide Explained, IsDown;
    if error == RECOVERY_FAILED {
      var e :| Explained(start, trace, n, e);
      ExplainedLater(start, trace, more, n, e);
    }
    assert forall k | 0 <= k < |trace| :: more[k] == trace[k];
  }

  lemma RecoveryIsRefused(start: Files, trace: seq<Event>, n: nat, m: nat, errs: seq<RecoveryError>)
    requires errs != [] && n <= m && forall e | e in errs :: Explained(start, trace, m, e)
    ensures PrepareRefused(start, trace, n, RECOVERY_FAILED)
  {
    hide Explained;
    ExplainedEarlier(start, trace, n, m, errs[0]);
  }

  lemma ListingIsRefused(start: Files, trace: seq<Event>, n: nat, m: nat, error: string)
    requires error in {LISTING_FAILED, RELISTING_FAILED} && n <= m && (IsDown(trace) || DeniedSince(trace, m, ForListing))
    ensures PrepareRefused(start, trace, n, error)
  {
    hide IsDown, Explained;
    assert |RECOVERY_FAILED| != |LISTING_FAILED| && |RECOVERY_FAILED| != |RELISTING_FAILED|;
  }

  /** Recovery, listing and selection: nothing is raised or called, nothing of the plugin's happens
      after the listing the targets come from, and in the end no file that the recovery's listing
      names carries a marker, which with a complete listing is no file at all. */
  method PrepareRun(host: Host, cfg: Config, requested: seq<string>)
    returns (r: Result<(seq<Auth>, Option<Int64>), string>, ghost run: Run)
    requires host.Consistent()
    modifies host`files, host`trace, host`down
    ensures host.Consistent() && old(host.trace) <= host.trace
    ensures Untouched(host.trace, |old(host.trace)|, |host.trace|)
    ensures r.Ok? ==>
              && Selection(host.trace, |old(host.trace)|, run) && PassiveFrom(host.trace, run.listedAt)
              && run == Run(cfg, requested, run.recovery, run.listing, run.listedAt, r.value.0, r.value.1, |host.trace|, [])
    ensures r.Ok? && NeverMarksFrom(host.trace, |old(host.trace)|) ==>
              forall path | ListsFile(host.pathOf, run.recovery, path) :: path in host.files && path !in Marked(host.files)
    ensures r.Ok? && host.complete && NeverMarksFrom(host.trace, |old(host.trace)|) ==> Marked(host.files) == {}
    ensures r.Err? ==>
              && r.error in {LISTING_FAILED, RECOVERY_FAILED, RELISTING_FAILED}
              && PrepareRefused(host.start, host.trace, |old(host.trace)|, r.error)
  {
    hide Valid, RaisesInPlace, After, At, Trim, Ineligible, Marked, RecoveryFrom, FreedSince, Settled, ListsEveryFile,
         ListsFile, Highest, Selected, Ordered, StringSet, SavedAndConfirmed, SavesOf, AnyConfirmed, Explained,
         IsDown, DeniedSince;
    run := Run(cfg, requested, [], [], 0, [], None, 0, []);
    var listed := host.ListAuths();
    ghost var t1 := host.trace;
    if listed.Err? {
      ListingIsRefused(host.start, host.trace, |old(host.trace)|, |old(host.trace)|, LISTING_FAILED);
      return Err(LISTING_FAILED), run;
    }
    var auths := listed.value;
    ghost var listing, listedAt := auths, |host.trace|;
    var recovered, errs;
    ghost var seen, free, saves;
    recovered, errs, seen, free, saves := RecoverStalePriorityOverrides(host, auths);
    ghost var t2 := host.trace;
    RecoveryRaisesNothing(host.start, t2, |t1|, seen);
    UntouchedParts(t1, t2, |old(host.trace)|);
    if errs != [] {
      RecoveryIsRefused(host.start, t2, |old(host.trace)|, |t1|, errs);
      return Err(RECOVERY_FAILED), run;
    }
    if recovered {
      listed := host.ListAuths();
      UntouchedParts(t2, host.trace, |old(host.trace)|);
      if listed.Err? {
        ListingIsRefused(host.start, host.trace, |old(host.trace)|, |t2|, RELISTING_FAILED);
        return Err(RELISTING_FAILED), run;
      }
      listing, listedAt := listed.value, |host.trace|;
    } else {
      NothingRecovered(host.start, host.trace, |t1|, seen);
    }
    RecoveredRun(host, t1, t2, auths, seen, free);
    var targets := FilterAuths(cfg, listed.value, requested);
    var highest, found := HighestAvailablePriority(listed.value);
    assert host.trace[listedAt - 1] == Listed(listing);
    r := Ok((targets, if found then Some(highest) else None));
    assert t1[|t1| - 1] == host.trace[|t1| - 1];
    run := Run(cfg, requested, auths, listing, listedAt, targets, r.value.1, |host.trace|, []);
  }

  /** An error-free recovery that reports no change has written nothing. */
  lemma NothingRecovered(start: Files, trace: seq<Event>, n: nat, seen: set<string>)
    requires RecoveryFrom(start, trace, n, seen) && !SavedAndConfirmed(trace, n, [])
    ensures PassiveFrom(trace, n)
  {
  }

  method ExecuteRun(host: Host, cfg: Config, report: RunReport, requested: seq<string>)
    returns (ghost looped: bool, ghost run: Run)
    requires host.Consistent()
    requires report.Counted() == 0 && report.results == [] && report.error == "" && !report.canceled
    requires report.targetCount == 0 && report.published == []
    modifies host`files, host`trace, host`down, report
    ensures host.Consistent() && old(host.trace) <= host.trace && run.cfg == cfg && run.requested == requested
    // The history of the run: what it listed, raised and called, and for whom.
    ensures looped || (report.dryRun && report.error == "") ==> Selection(host.trace, |old(host.trace)|, run)
    ensures looped ==> RunHistory(host.trace, |old(host.trace)|, run)
    ensures !looped ==> Untouched(host.trace, |old(host.trace)|, |host.trace|)
    ensures looped ==> (report.error != "" <==> run.attempts != [] && run.attempts[|run.attempts| - 1].restoreFailed)
    ensures looped && report.error != "" ==>
              Untouched(host.trace, run.attempts[|run.attempts| - 1].until, |host.trace|)
    ensures looped && report.error != "" ==> RestoreDenied(host.trace, run.attempts[|run.attempts| - 1])
    ensures looped ==> AllAccounted(host.trace, run.loopStart, cfg, run.targets, report.results, run.attempts)
    // Why it stopped early or did not reach its loop.
    ensures !looped && report.error != "" ==>
              || (report.error == DUPLICATES && Selection(host.trace, |old(host.trace)|, run) && !DistinctIdentities(run.targets))
              || (report.error == BODY_FAILED && !report.dryRun && !host.encodes)
              || PrepareRefused(host.start, host.trace, |old(host.trace)|, report.error)
    ensures report.canceled ==> ExpiredSince(host.trace, |old(host.trace)|)
    // The markers it leaves.
    ensures looped && NeverMarksFrom(host.trace, |old(host.trace)|) ==>
              forall path | Handled(host.pathOf, host.trace, |old(host.trace)|, run, path) && path in Marked(host.files) ::
                StillRaised(host.trace, run.attempts, path)
    ensures report.error == "" && NeverMarksFrom(host.trace, |old(host.trace)|) ==>
              forall path | Handled(host.pathOf, host.trace, |old(host.trace)|, run, path) :: path !in Marked(host.files)
    ensures report.error == "" && NeverMarksFrom(host.trace, |old(host.trace)|) ==>
              && Marked(host.files) <= Marked(At(host.start, host.trace, |old(host.trace)|))
              && (host.complete ==> Marked(host.files) == {})
    ensures host.complete && NeverMarksFrom(host.trace, |old(host.trace)|) ==>
              && RaisesWhenClearFrom(host.start, host.trace, |old(host.trace)|)
              && (looped ==> ClearRun(host.start, host.trace, run))
    // Its report.
    ensures looped <==> !report.dryRun && report.error in {"", RESTORE_FAILED}
    ensures looped ==> report.Counted() == report.targetCount == |run.targets|
    ensures looped ==> Follows(report.results, run.targets) && report.CountsTargets(|run.targets| - |report.results|)
    ensures looped && !report.canceled && report.error == "" ==> |report.results| == |run.targets|
    ensures looped ==> AllAnnounced(report.results, cfg, run.highest, run.attempts)
    ensures AllBalanced(report.published)
    ensures report.dryRun && report.error == "" ==>
              && |report.results| == |run.targets| == report.targetCount && DistinctIdentities(run.targets)
              && forall i | 0 <= i < |run.targets| ::
                   report.results[i] == Planned(cfg, run.targets[i], run.highest, "selected")
  {
    hide Valid, RaisesInPlace, After, At, Trim, NoNewMarkers, LoopHistory, MarksKept, Ineligible, Marked, AllAnnounced,
         Selection, ClearRun, RaisesWhenClearFrom, Handled, StillRaised, ListsFile, PassiveFrom, Eligible, Follows,
         DistinctIdentities, NeverMarksFrom, Planned, Highest, PrepareRefused, IsDown, ExpiredSince, AllAccounted,
         RestoreDenied;
    looped := false;
    ghost var n := |host.trace|;
    var prepared;
    prepared, run := PrepareRun(host, cfg, requested);
    run := run.(cfg := cfg, requested := requested);
    if prepared.Err? {
      report.error := prepared.error;
      label failed:
      report.canceled := host.ContextDone();
      if report.canceled {
        ExpiredRun(host.start, old@failed(host.trace), host.trace, n, report.error);
      }
      FailedRun(host.start, host.trace, n);
      return;
    }
    FailedRun(host.start, host.trace, n);
    PreparedRun(host, n, run);
    var targets, highest := prepared.value.0, prepared.value.1;
    SelectionIs(host.trace, n, run);
    report.targetCount := |targets|;
    report.PublishActive();
    var duplicate := HasDuplicateAuthIdentity(targets);
    if duplicate {
      report.error := DUPLICATES;
      return;
    }
    if report.dryRun {
      DryRun(report, cfg, targets, highest);
      return;
    }
    if !host.encodes {
      report.error := BODY_FAILED;
      return;
    }
    looped := true;
    label loop:
    ghost var attempts := RefreshTargets(host, cfg, report, targets, highest);
    ExpiredEarlier(host.trace, n, run.loopStart);
    LoopedRun(host.start, old@loop(host.trace), host.trace, n, run, attempts, host.complete, report.error == "");
    RunUnmarks(host.pathOf, host.start, old@loop(host.trace), host.trace, n, run, attempts);
    run := run.(attempts := attempts);
  }

  lemma ExpiredRun(start: Files, trace: seq<Event>, more: seq<Event>, n: nat, error: string)
    requires more == trace + [Expired] && n <= |trace| && Untouched(trace, n, |trace|)
    requires PrepareRefused(start, trace, n, error)
    ensures PrepareRefused(start, more, n, error) && Untouched(more, n, |more|) && ExpiredSince(more, n)
  {
    assert more[|trace|].Expired?;
    PrepareRefusedLater(start, trace, more, n, error);
    hide PrepareRefused;
    assert forall k | 0 <= k < |trace| :: more[k] == trace[k];
  }

  lemma ExpiredEarlier(trace: seq<Event>, n: nat, m: nat)
    requires n <= m
    ensures ExpiredSince(trace, m) ==> ExpiredSince(trace, n)
  {
  }

  lemma SelectionIs(trace: seq<Event>, n: nat, run: Run)
    requires Selection(trace, n, run)
    ensures n < run.listedAt <= |trace| && forall a | a in run.targets :: a in run.listing && Eligible(run.cfg, a)
  {
  }

  lemma FailedRun(start: Files, trace: seq<Event>, n: nat)
    requires Valid(start, trace) && n <= |trace| && Untouched(trace, n, |trace|)
    ensures RaisesWhenClearFrom(start, trace, n)
    ensures NeverMarksFrom(trace, n) ==> Marked(After(start, trace)) <= Marked(At(start, trace, n))
  {
    NoRaiseNoMarkers(start, trace, n);
  }

  lemma PreparedRun(host: Host, n: nat, run: Run)
    requires Untouched(host.trace, n, |host.trace|)
    requires NeverMarksFrom(host.trace, n) ==>
               forall path | ListsFile(host.pathOf, run.recovery, path) :: path in host.files && path !in Marked(host.files)
    ensures NeverMarksFrom(host.trace, n) ==>
              forall path | Handled(host.pathOf, host.trace, n, run, path) :: path !in Marked(host.files)
  {
    hide ListsFile, Marked;
  }

  /** A run whose loop has ended has left a marker only where a restore failed. */
  lemma RunUnmarks(pathOf: map<string, string>, start: Files, t: seq<Event>, more: seq<Event>, n: nat, run: Run,
                   attempts: seq<Attempt>)
    requires Valid(start, more) && t <= more && n <= |t| && Untouched(t, n, |t|)
    requires NeverMarksFrom(t, n) ==>
               forall path | ListsFile(pathOf, run.recovery, path) :: path in After(start, t) && path !in Marked(After(start, t))
    requires LoopHistory(more, |t|, run.cfg, run.targets, run.highest, attempts) && MarksKept(start, more, |t|, attempts)
    ensures NeverMarksFrom(more, n) ==>
              forall path | Handled(pathOf, more, n, run.(attempts := attempts), path) && path in Marked(After(start, more)) ::
                StillRaised(more, attempts, path)
    ensures attempts == [] || !attempts[|attempts| - 1].restoreFailed ==>
              forall path :: !StillRaised(more, attempts, path)
  {
    hide Valid, ListsFile, HasMarker, LawfulAttempt, Accounted, MarksKept;
    if NeverMarksFrom(more, n) {
      assert forall i | 0 <= i < |t| :: t[i] == more[i];
      WholeTrace(start, t);
      AtPrefix(start, t, more, |t|);
      hide At, After;
      forall path | Handled(pathOf, more, n, run.(attempts := attempts), path) && path in Marked(After(start, more))
        ensures StillRaised(more, attempts, path)
      {
        assert ListsFile(pathOf, run.recovery, path) ==> FreeAt(start, more, path, |t|);
        LoopUnmarks(start, more, |t|, run.cfg, run.targets, run.highest, attempts, path);
      }
    }
  }

  lemma RecoveryRaisesNothing(start: Files, trace: seq<Event>, n: nat, seen: set<string>)
    requires RecoveryFrom(start, trace, n, seen)
    ensures Untouched(trace, n, |trace|)
  {
  }

  lemma UntouchedParts(t1: seq<Event>, t2: seq<Event>, n: nat)
    requires t1 <= t2 && n <= |t1| && Untouched(t1, n, |t1|) && Untouched(t2, |t1|, |t2|)
    ensures Untouched(t2, n, |t2|)
  {
  }

  /** After an error-free recovery no listed file carries a marker. */
  lemma RecoveredRun(host: Host, t1: seq<Event>, t2: seq<Event>, auths: seq<Auth>, seen: set<string>,
                     free: map<string, nat>)
    requires host.Consistent() && t1 <= t2 <= host.trace && PassiveFrom(host.trace, |t2|)
    requires RecoveryFrom(host.start, t2, |t1|, seen) && FreedSince(host.start, t2, |t1|, free)
    requires forall a | a in auths :: Settled(host, a, [], free)
    ensures NeverMarksFrom(host.trace, |t1|) ==>
              && (forall path | ListsFile(host.pathOf, auths, path) :: path in host.files && path !in Marked(host.files))
              && (ListsEveryFile(host.start.Keys, host.pathOf, auths) ==> Marked(host.files) == {})
  {
    hide Valid, RaisesInPlace, After, At, Settled, ListsFile, ListsEveryFile, Marked;
    if NeverMarksFrom(host.trace, |t1|) {
      var none: Option<nat> := None;
      RecoveryContinues(host.start, t2, host.trace, |t1|, seen, seen, none, 0);
      FreedLater(host.start, t2, host.trace, |t1|, free);
      RecoveryClearsListed(host, auths, |t1|, seen, free);
      if ListsEveryFile(host.start.Keys, host.pathOf, auths) {
        CompleteRecoveryClearsAll(host, auths, |t1|, seen, free);
      }
    }
  }

  lemma LoopedRun(start: Files, t: seq<Event>, more: seq<Event>, n: nat, run: Run, attempts: seq<Attempt>,
                  complete: bool, restored: bool)
    requires Valid(start, more) && t <= more && Selection(t, n, run) && run.loopStart == |t|
    requires n <= |t| && Untouched(t, n, |t|) && PassiveFrom(t, run.listedAt)
    requires NeverMarksFrom(t, n) ==> Marked(After(start, t)) <= Marked(At(start, t, n))
    requires complete && NeverMarksFrom(t, n) ==> Marked(After(start, t)) == {}
    requires MarksKept(start, more, |t|, attempts)
    requires restored ==> NoNewMarkers(start, more, |t|)
    ensures restored && NeverMarksFrom(more, n) ==>
              && Marked(After(start, more)) <= Marked(At(start, more, n))
              && (complete ==> Marked(After(start, more)) == {})
    ensures complete && NeverMarksFrom(more, n) ==>
              RaisesWhenClearFrom(start, more, n) && ClearRun(start, more, run.(attempts := attempts))
    ensures Untouched(more, n, |t|) && Selection(more, n, run.(attempts := attempts))
  {
    hide After, Valid, Marked, Selection, ClearRun;
    forall i | n <= i < |t|
      ensures more[i] == t[i]
    {
    }
    SelectionLater(t, more, n, run, attempts);
    if NeverMarksFrom(more, n) {
      AtPrefix(start, t, more, n);
      AtPrefix(start, t, more, |t|);
      WholeTrace(start, t);
      if complete {
        forall i | n <= i < |more| && IsRaise(more[i])
          ensures Marked(At(start, more, i)) == {}
        {
          assert i >= |t|;
        }
        LoopedClear(start, t, more, n, run, attempts);
      }
    }
  }

  lemma SelectionLater(t: seq<Event>, more: seq<Event>, n: nat, run: Run, attempts: seq<Attempt>)
    requires Selection(t, n, run) && t <= more
    ensures Selection(more, n, run.(attempts := attempts)) && n < run.listedAt <= |t|
  {
    hide Wanted, Ordered, Selected, Highest, StringSet;
  }

  lemma LoopedClear(start: Files, t: seq<Event>, more: seq<Event>, n: nat, run: Run, attempts: seq<Attempt>)
    requires Valid(start, more) && t <= more && n < run.listedAt <= |t| == run.loopStart && PassiveFrom(t, run.listedAt)
    requires NeverMarksFrom(more, n) && Marked(At(start, more, |t|)) == {} && MarksKept(start, more, |t|, attempts)
    ensures ClearRun(start, more, run.(attempts := attempts))
  {
    hide Valid, At, Marked, UnmarkedOutside;
    assert forall i | 0 <= i < |t| :: more[i] == t[i];
    forall path
      ensures path in Marked(At(start, more, run.listedAt)) <==> UnmarkedOutside(more, run.listedAt, |t|, path)
    {
      OnlyOutsidersUnmark(start, more, run.listedAt, |t|, path);
    }
  }

  /** A file can be marked when the run lists and the loop still find none marked: an outside writer
      drops the marker in between, so recovery restores nothing and the first listing is kept. */
  lemma ListedWhileMarked() returns (start: Files, trace: seq<Event>)
    ensures Valid(start, trace) && NeverMarksFrom(trace, 0) && |trace| == 2
    ensures trace[0].Listed? && ListsEveryFile(start.Keys, map["1" := "a.json"], trace[0].auths) && PassiveFrom(trace, 1)
    ensures Marked(At(start, trace, 1)) == {"a.json"} && Marked(At(start, trace, 2)) == {}
  {
    var a := ListedByIndex();
    hide Recovers;
    var marked, unmarked := Marshal(map[MARKER_KEY := Null]), Marshal(map[]);
    var list, write := Listed([a]), Write("a.json", marked, unmarked, Outside);
    start := map["a.json" := marked];
    assert ListsEveryFile(start.Keys, map["1" := "a.json"], [a]);
    hide ListsEveryFile;
    trace := OneMore(start, [], list);
    trace := OneMore(start, trace, write);
    StepAt(start, trace, 0);
    StepAt(start, trace, 1);
    assert HasMarker(marked.doc) && !HasMarker(unmarked.doc);
  }

  lemma OneMore(start: Files, trace: seq<Event>, e: Event) returns (more: seq<Event>)
    requires Valid(start, trace) && CanFollow(start, trace, e)
    ensures more == trace + [e] && Valid(start, more)
  {
    Extend(start, trace, e);
    more := trace + [e];
  }

  lemma ListedByIndex() returns (a: Auth)
    ensures Recovers(map["1" := "a.json"], a, "a.json")
  {
    a := Auth("id", "1", "", "", false, false, false, "file", 0);
    assert Trim("file") == "file" && Trim("1") == "1";
  }

  // ----- any number of runs, startup recoveries and restarts -----

  /** Runs and startup recoveries exclude one another, so whatever happens is a sequence of them. A
      startup recovery works on a listing taken some time before its turn came. The plugin may go
      down in the middle of anything, and then restarts. At most one file ever carries a marker,
      and with benign outside writers any error-free recovery or run that comes last leaves every
      file with its original priority and the latest outside content. */
  method Session(host: Host, configs: seq<Config>) returns (ghost clean: bool)
    requires host.Consistent() && host.complete && configs != []
    modifies host`files, host`trace, host`down
    ensures host.Consistent() && old(host.trace) <= host.trace
    ensures NeverMarksFrom(host.trace, |old(host.trace)|)
            && |Marked(At(host.start, host.trace, |old(host.trace)|))| <= 1 ==>
              forall k | |old(host.trace)| <= k <= |host.trace| :: |Marked(At(host.start, host.trace, k))| <= 1
    ensures clean && NeverMarksFrom(host.trace, |old(host.trace)|) ==> Marked(host.files) == {}
    ensures clean && CleanStart(host.start) && Benign(host.trace) ==>
              forall path | path in host.start ::
                && path in host.files && host.files[path].doc.Readable?
                && Rest(host.files[path].doc) == Rest(LatestOutside(host.start, host.trace, path))
                && Entry(host.files[path].doc, PRIORITY_KEY) == Entry(host.start[path].doc, PRIORITY_KEY)
  {
    hide Valid, RaisesInPlace, After, At, Marked, LoopHistory, Eligible, DistinctIdentities, AllAnnounced, Benign,
         CleanStart, Selection, ClearRun, ListsEveryFile;
    clean := false;
    var awaiting: Option<seq<Auth>> := None;
    ghost var n := |host.trace|;
    var operations: nat := *;
    while operations > 0
      invariant host.Consistent() && old(host.trace) <= host.trace
      invariant NeverMarksFrom(host.trace, n) ==> RaisesWhenClearFrom(host.start, host.trace, n)
      invariant clean && NeverMarksFrom(host.trace, n) ==> Marked(host.files) == {}
      invariant awaiting.Some? ==> ListsEveryFile(host.start.Keys, host.pathOf, awaiting.value)
    {
      var kind: int := *;
      label before:
      if host.down || kind == 0 {
        host.Restart();
        awaiting := None;
        PassiveKeepsClear(host.start, old@before(host.trace), host.trace);
      } else if kind == 1 {
        var listed := host.ListAuths();
        awaiting := if listed.Ok? then Some(listed.value) else None;
        PassiveKeepsClear(host.start, old@before(host.trace), host.trace);
      } else if kind == 2 && awaiting.Some? {
        clean := StartupRecovery(host, awaiting.value);
        awaiting := None;
      } else {
        var cfg := configs[0];
        var i: int := *;
        if 0 <= i < |configs| {
          cfg := configs[i];
        }
        var dryRun := host.Undecided();
        var requested: seq<string> := *;
        var runID: string := *;
        var report := new RunReport(runID, dryRun);
        ghost var looped, run;
        looped, run := ExecuteRun(host, cfg, report, requested);
        clean := report.error == "";
      }
      DisciplineContinues(host.start, old@before(host.trace), host.trace, n);
      operations := operations - 1;
    }
    SessionEnds(host.start, host.trace, n, clean);
  }

  /** Listings and restarts raise nothing and mark nothing. */
  lemma PassiveKeepsClear(start: Files, t: seq<Event>, more: seq<Event>)
    requires Valid(start, more) && t <= more && forall k | |t| <= k < |more| :: Passive(more[k]) || more[k].Crash?
    ensures RaisesWhenClearFrom(start, more, |t|)
    ensures NeverMarksFrom(more, |t|) && Marked(After(start, t)) == {} ==> Marked(After(start, more)) == {}
  {
    hide Valid, Marked;
    WholeTrace(start, t);
    WholeTrace(start, more);
    AtPrefix(start, t, more, |t|);
    if NeverMarksFrom(more, |t|) {
      MarkersOnlyGo(start, more, |t|, |more|);
    }
  }

  /** The recovery that a configuration starts: restore whatever is stale, by a listing it took
      before its turn came. */
  method StartupRecovery(host: Host, listed: seq<Auth>) returns (ok: bool)
    requires host.Consistent()
    modifies host`files, host`trace, host`down
    ensures host.Consistent() && old(host.trace) <= host.trace
    ensures Untouched(host.trace, |old(host.trace)|, |host.trace|)
    ensures RaisesWhenClearFrom(host.start, host.trace, |old(host.trace)|)
    ensures ok && ListsEveryFile(host.start.Keys, host.pathOf, listed) && NeverMarksFrom(host.trace, |old(host.trace)|) ==>
              Marked(host.files) == {}
    ensures !ok ==> PrepareRefused(host.start, host.trace, |old(host.trace)|, RECOVERY_FAILED)
  {
    hide Valid, RaisesInPlace, After, At, Marked, RecoveryFrom, FreedSince, Settled, ListsEveryFile, SavedAndConfirmed,
         Explained, IsDown;
    var changed, errs;
    ghost var seen, free, saves;
    changed, errs, seen, free, saves := RecoverStalePriorityOverrides(host, listed);
    RecoveryRaisesNothing(host.start, host.trace, |old(host.trace)|, seen);
    ok := errs == [];
    if !ok {
      RecoveryIsRefused(host.start, host.trace, |old(host.trace)|, |old(host.trace)|, errs);
    } else {
      RecoveredRun(host, old(host.trace), host.trace, listed, seen, free);
    }
  }

  lemma DisciplineContinues(start: Files, t: seq<Event>, more: seq<Event>, n: nat)
    requires Valid(start, more) && t <= more && n <= |t|
    requires NeverMarksFrom(t, n) ==> RaisesWhenClearFrom(start, t, n)
    requires NeverMarksFrom(more, |t|) ==> RaisesWhenClearFrom(start, more, |t|)
    ensures NeverMarksFrom(more, n) ==> RaisesWhenClearFrom(start, more, n)
  {
    hide Valid, RaisesInPlace, Marked;
    if NeverMarksFrom(more, n) {
      assert forall i | n <= i < |t| :: t[i] == more[i];
      forall i | n <= i < |more| && IsRaise(more[i])
        ensures Marked(At(start, more, i)) == {}
      {
        if i < |t| {
          assert t[i] == more[i];
          AtPrefix(start, t, more, i);
        }
      }
    }
  }

  lemma SessionEnds(start: Files, trace: seq<Event>, n: nat, clean: bool)
    requires Valid(start, trace) && n <= |trace|
    requires NeverMarksFrom(trace, n) ==> RaisesWhenClearFrom(start, trace, n)
    requires clean && NeverMarksFrom(trace, n) ==> Marked(After(start, trace)) == {}
    ensures NeverMarksFrom(trace, n) && |Marked(At(start, trace, n))| <= 1 ==>
              forall k | n <= k <= |trace| :: |Marked(At(start, trace, k))| <= 1
    ensures clean && CleanStart(start) && Benign(trace) ==>
              forall path | path in start ::
                && path in After(start, trace) && After(start, trace)[path].doc.Readable?
                && Rest(After(start, trace)[path].doc) == Rest(LatestOutside(start, trace, path))
                && Entry(After(start, trace)[path].doc, PRIORITY_KEY) == Entry(start[path].doc, PRIORITY_KEY)
  {
    hide Valid, RaisesInPlace, Marked, Benign, CleanStart;
    if NeverMarksFrom(trace, n) && |Marked(At(start, trace, n))| <= 1 {
      forall k | n <= k <= |trace|
        ensures |Marked(At(start, trace, k))| <= 1
      {
        AtMostOneMarker(start, trace, n, k);
      }
    }
    if clean && CleanStart(start) && Benign(trace) {
      BenignNeverMarks(trace);
      NoMarkersMeansAllRestored(start, trace);
    }
  }
}
