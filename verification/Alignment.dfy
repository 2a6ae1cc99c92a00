/**
 What a run's overrides do to the order of priorities, when the runtime and the listings show what
 is in the files: every credential is re-read as it was listed, so a dry run on that listing tells
 what the run requires; and while an override is in force, the top tier is the listed one plus the
 credential it is for.
 */
module Alignment {
  import opened Text
  import opened Credential
  import opened Override
  import opened Auths
  import opened Configuration
  import opened History
  import opened CredentialHost
  import opened PriorityService
  import opened RunLoop

  // ----- a runtime that follows the files -----

  predicate InFile(pathOf: map<string, string>, authIndex: string, path: string) {
    Trim(authIndex) in pathOf && pathOf[Trim(authIndex)] == path
  }

  /** The priority of a credential: the number in its file, or a fixed one if it has none. */
  function Shown(pathOf: map<string, string>, fixed: string -> Int64, files: Files, authIndex: string): Int64 {
    var i := Trim(authIndex);
    if i in pathOf && pathOf[i] in files then PriorityOf(Entry(files[pathOf[i]].doc, PRIORITY_KEY)) else fixed(i)
  }

  predicate ShowsFiles(pathOf: map<string, string>, fixed: string -> Int64, files: Files, e: Event) {
    match e
    case Listed(auths) => forall a | a in auths :: a.priority == Shown(pathOf, fixed, files, a.authIndex)
    case Observe(seen) => seen.priority == Shown(pathOf, fixed, files, seen.authIndex)
    case _ => true
  }

  ghost predicate RuntimeFollowsFiles(pathOf: map<string, string>, fixed: string -> Int64, start: Files, trace: seq<Event>) {
    forall k | 0 <= k < |trace| :: ShowsFiles(pathOf, fixed, At(start, trace, k), trace[k])
  }

  /** The circumstances: outside writers leave the override alone, and the runtime follows the files. */
  ghost predicate Undisturbed(pathOf: map<string, string>, fixed: string -> Int64, start: Files, trace: seq<Event>) {
    && Valid(start, trace) && CleanStart(start) && Benign(trace) && RaisesInPlace(pathOf, trace)
    && RuntimeFollowsFiles(pathOf, fixed, start, trace)
  }

  /** What ExecuteRun promises of a run that reached its loop, with a complete listing. */
  ghost predicate Ran(start: Files, trace: seq<Event>, n: nat, run: Run) {
    Selection(trace, n, run) && RunHistory(trace, n, run) && ClearRun(start, trace, run)
  }

  /** A credential whose file is unmarked at two instants has the same priority at both. */
  lemma UnmarkedIsUnmoved(pathOf: map<string, string>, fixed: string -> Int64, start: Files, trace: seq<Event>,
                          j: nat, k: nat, authIndex: string)
    requires Valid(start, trace) && CleanStart(start) && Benign(trace) && j <= |trace| && k <= |trace|
    requires Trim(authIndex) in pathOf ==>
               pathOf[Trim(authIndex)] !in Marked(At(start, trace, j)) + Marked(At(start, trace, k))
    ensures Shown(pathOf, fixed, At(start, trace, j), authIndex) == Shown(pathOf, fixed, At(start, trace, k), authIndex)
  {
    hide Valid, CleanStart, Benign, PriorityOf, Trim, HasMarker, At;
    SameFilesAt(start, trace, j);
    SameFilesAt(start, trace, k);
    var i := Trim(authIndex);
    if i in pathOf && pathOf[i] in start {
      AlwaysSound(start, trace, j, pathOf[i]);
      AlwaysSound(start, trace, k, pathOf[i]);
    }
  }

  lemma SameFilesAt(start: Files, trace: seq<Event>, k: nat)
    requires Valid(start, trace) && k <= |trace|
    ensures At(start, trace, k).Keys == start.Keys
  {
    ValidPrefix(start, trace, k);
    SameFiles(start, trace[..k]);
  }

  /** With benign outside writers no file is marked when the run lists. */
  lemma ListedClear(start: Files, trace: seq<Event>, n: nat, run: Run)
    requires Valid(start, trace) && Benign(trace) && ClearRun(start, trace, run) && Selection(trace, n, run)
    ensures Marked(At(start, trace, run.listedAt)) == {}
    ensures At(start, trace, run.listedAt - 1) == At(start, trace, run.listedAt)
  {
    hide Marked, Valid, At, Selected, Wanted, Ordered, Highest;
    StepAt(start, trace, run.listedAt - 1);
    NobodyUnmarks(trace, run.listedAt, run.loopStart);
    assert forall path :: path !in Marked(At(start, trace, run.listedAt));
  }

  lemma NobodyUnmarks(trace: seq<Event>, n: nat, m: nat)
    requires Benign(trace)
    ensures forall path :: !UnmarkedOutside(trace, n, m, path)
  {
  }

  // ----- dry run and real run -----

  /** Every credential the run attempts is re-read with the priority it was listed with. */
  lemma RereadAsListed(pathOf: map<string, string>, fixed: string -> Int64, start: Files, trace: seq<Event>, n: nat,
                       run: Run, a: Attempt)
    requires Undisturbed(pathOf, fixed, start, trace) && Ran(start, trace, n, run) && a in run.attempts
    ensures a.index < |run.targets| && a.auth.priority == run.targets[a.index].priority
  {
    hide Valid, At, Marked, Shown, Trim, Benign, CleanStart, Confirms, OverrideRequired, Wanted, Eligible, Selected;
    assert LawfulAttempt(trace, run.loopStart, run.cfg, run.targets, run.highest, a);
    var target, listed := run.targets[a.index], run.listedAt - 1;
    assert target in run.targets && target in run.listing;
    ListedClear(start, trace, n, run);
    UnmarkedIsUnmoved(pathOf, fixed, start, trace, listed, a.seen, target.authIndex);
    assert ShowsFiles(pathOf, fixed, At(start, trace, listed), trace[listed]);
    assert ShowsFiles(pathOf, fixed, At(start, trace, a.seen), trace[a.seen]);
    SameIndexSameShown(pathOf, fixed, At(start, trace, a.seen), target.authIndex, a.auth.authIndex);
  }

  lemma SameIndexSameShown(pathOf: map<string, string>, fixed: string -> Int64, files: Files, i: string, j: string)
    requires Trim(i) == Trim(j)
    ensures Shown(pathOf, fixed, files, i) == Shown(pathOf, fixed, files, j)
  {
  }

  /** For every credential the run attempts, whatever then becomes of it, its result requires the
      override that a dry run on the same listing announces; and no other result requires one. */
  lemma DryRunPredicts(pathOf: map<string, string>, fixed: string -> Int64, start: Files, trace: seq<Event>, n: nat,
                       run: Run, results: seq<AuthResult>)
    requires Undisturbed(pathOf, fixed, start, trace) && Ran(start, trace, n, run)
    requires AllAnnounced(results, run.cfg, run.highest, run.attempts)
    ensures forall a | a in run.attempts ::
      && a.index < |run.targets| && a.index < |results|
      && var announced := Planned(run.cfg, run.targets[a.index], run.highest, "selected");
      && results[a.index].overrideRequired == announced.overrideRequired
      && results[a.index].overrideTo == announced.overrideTo
    ensures forall i | 0 <= i < |results| && results[i].overrideRequired ::
      && i < |run.targets|
      && Planned(run.cfg, run.targets[i], run.highest, "selected").overrideRequired
      && Planned(run.cfg, run.targets[i], run.highest, "selected").overrideTo == results[i].overrideTo
  {
    hide Undisturbed, Ran;
    forall a | a in run.attempts
      ensures a.index < |run.targets| && a.auth.priority == run.targets[a.index].priority
    {
      RereadAsListed(pathOf, fixed, start, trace, n, run, a);
    }
  }

  // ----- the top tier under an override -----

  /** The listing with the priorities of another instant. */
  function Relisted(pathOf: map<string, string>, fixed: string -> Int64, files: Files, listing: seq<Auth>): (r: seq<Auth>)
    ensures |r| == |listing|
    ensures forall i | 0 <= i < |listing| ::
              r[i] == listing[i].(priority := Shown(pathOf, fixed, files, listing[i].authIndex))
  {
    seq(|listing|, i requires 0 <= i < |listing| =>
      listing[i].(priority := Shown(pathOf, fixed, files, listing[i].authIndex)))
  }

  /** The enabled credentials in a file; usually there is one. */
  function EnabledIn(pathOf: map<string, string>, listing: seq<Auth>, path: string): set<int> {
    set i | 0 <= i < |listing| && !IsDisabled(listing[i]) && InFile(pathOf, listing[i].authIndex, path)
  }

  /** While only outside writers are about, the priority a commit wrote stays. */
  lemma {:induction false} RaisedStays(start: Files, trace: seq<Event>, r: nat, k: nat)
    requires Valid(start, trace) && Benign(trace) && r < k <= |trace| && IsRaise(trace[r])
    requires PassiveBetween(trace, r + 1, k)
    ensures trace[r].path in At(start, trace, k)
    ensures PriorityOf(Entry(At(start, trace, k)[trace[r].path].doc, PRIORITY_KEY)) == trace[r].cause.to
    decreases k
  {
    if k == r + 1 {
      RaisedNow(start, trace, r);
    } else {
      RaisedStays(start, trace, r, k - 1);
      hide Valid, Justified, PriorityOf, HasMarker;
      StepAt(start, trace, k - 1);
    }
  }

  lemma RaisedNow(start: Files, trace: seq<Event>, r: nat)
    requires Valid(start, trace) && r < |trace| && IsRaise(trace[r])
    ensures trace[r].path in At(start, trace, r + 1)
    ensures PriorityOf(Entry(At(start, trace, r + 1)[trace[r].path].doc, PRIORITY_KEY)) == trace[r].cause.to
  {
    hide Valid, PriorityOf;
    StepAt(start, trace, r);
    var e := trace[r];
    BuiltDocument(e.before, e.cause.authIndex, e.cause.runID, e.cause.to, e.after, e.cause.marker);
    PriorityOfInteger(e.cause.to);
  }

  /** Only the file that was raised is marked while only outside writers are about. */
  lemma OnlyRaisedIsMarked(start: Files, trace: seq<Event>, r: nat, k: nat)
    requires Valid(start, trace) && Benign(trace) && r < k <= |trace| && IsRaise(trace[r])
    requires PassiveBetween(trace, r + 1, k) && Marked(At(start, trace, r)) == {}
    ensures Marked(At(start, trace, k)) <= {trace[r].path}
  {
    BenignNeverMarks(trace);
    MarkedStep(start, trace, r);
    MarkersOnlyGo(start, trace, r + 1, k);
  }

  /** Giving the credentials of a file, an enabled one among them, the highest priority adds the
      enabled ones to the top tier and moves nobody else. */
  lemma FileJoinsTheTop(pathOf: map<string, string>, listing: seq<Auth>, now: seq<Auth>, path: string, h: Int64, at: nat)
    requires Highest(listing) == Some(h) && |now| == |listing|
    requires forall i | 0 <= i < |now| ::
               now[i] == listing[i].(priority := if InFile(pathOf, listing[i].authIndex, path) then h else listing[i].priority)
    requires at in EnabledIn(pathOf, listing, path)
    ensures TopTier(now) == TopTier(listing) + EnabledIn(pathOf, listing, path)
  {
    hide Trim, Lower;
    HighestIsMaximum(listing);
    assert forall i | 0 <= i < |now| :: IsDisabled(now[i]) == IsDisabled(listing[i]);
    MaximumIsHighest(now, h, at);
    hide IsDisabled, InFile;
    SameTopSameTier(pathOf, listing, now, path, h);
  }

  lemma SameTopSameTier(pathOf: map<string, string>, listing: seq<Auth>, now: seq<Auth>, path: string, h: Int64)
    requires Highest(listing) == Some(h) == Highest(now) && |now| == |listing|
    requires forall i | 0 <= i < |now| :: IsDisabled(now[i]) == IsDisabled(listing[i])
    requires forall i | 0 <= i < |now| ::
               now[i].priority == if InFile(pathOf, listing[i].authIndex, path) then h else listing[i].priority
    ensures TopTier(now) == TopTier(listing) + EnabledIn(pathOf, listing, path)
  {
    hide Highest, IsDisabled, InFile;
  }

  /** From the moment an override is written until the plugin writes again, and so whenever the
      runtime confirms it, the top tier of the credentials listed is the listed top tier plus the
      enabled credentials of the file that was raised, of which the target is one. */
  lemma OverrideKeepsTopTier(pathOf: map<string, string>, fixed: string -> Int64, start: Files, trace: seq<Event>, n: nat,
                             run: Run, a: Attempt, k: nat)
    requires Undisturbed(pathOf, fixed, start, trace) && Ran(start, trace, n, run) && a in run.attempts
    requires a.raise.Some? && a.raise.value < k <= |trace| && PassiveBetween(trace, a.raise.value + 1, k)
    ensures TopTier(Relisted(pathOf, fixed, At(start, trace, k), run.listing))
         == TopTier(run.listing) + EnabledIn(pathOf, run.listing, trace[a.raise.value].path)
    ensures a.index < |run.targets|
    ensures exists i :: i in EnabledIn(pathOf, run.listing, trace[a.raise.value].path) && run.listing[i] == run.targets[a.index]
  {
    var at := TargetIsListed(pathOf, fixed, start, trace, n, run, a);
    PrioritiesUnderOverride(pathOf, fixed, start, trace, n, run, a, k);
    hide Undisturbed, Ran, TopTier, EnabledIn, Shown, InFile;
    FileJoinsTheTop(pathOf, run.listing, Relisted(pathOf, fixed, At(start, trace, k), run.listing),
                    trace[a.raise.value].path, run.highest.value, at);
  }

  lemma TargetIsListed(pathOf: map<string, string>, fixed: string -> Int64, start: Files, trace: seq<Event>, n: nat,
                       run: Run, a: Attempt)
    returns (at: nat)
    requires Undisturbed(pathOf, fixed, start, trace) && Ran(start, trace, n, run) && a in run.attempts && a.raise.Some?
    ensures a.raise.value < |trace| && IsRaise(trace[a.raise.value]) && a.index < |run.targets|
    ensures at < |run.listing| && run.listing[at] == run.targets[a.index]
    ensures at in EnabledIn(pathOf, run.listing, trace[a.raise.value].path)
  {
    hide Valid, Benign, CleanStart, RuntimeFollowsFiles, ClearRun, Trim;
    assert LawfulAttempt(trace, run.loopStart, run.cfg, run.targets, run.highest, a);
    var target := run.targets[a.index];
    assert target in run.targets;
    assert target in run.listing && Eligible(run.cfg, target);
    at :| 0 <= at < |run.listing| && run.listing[at] == target;
    assert InPlace(pathOf, trace[a.raise.value].path, trace[a.raise.value].cause);
  }

  /** Under an override, the raised file's credentials have the listed highest priority and all
      others the priority they were listed with. */
  lemma PrioritiesUnderOverride(pathOf: map<string, string>, fixed: string -> Int64, start: Files, trace: seq<Event>,
                                n: nat, run: Run, a: Attempt, k: nat)
    requires Undisturbed(pathOf, fixed, start, trace) && Ran(start, trace, n, run) && a in run.attempts
    requires a.raise.Some? && a.raise.value < k <= |trace| && PassiveBetween(trace, a.raise.value + 1, k)
    ensures IsRaise(trace[a.raise.value]) && run.highest.Some? && run.highest == Highest(run.listing)
    ensures forall i | 0 <= i < |run.listing| ::
              Shown(pathOf, fixed, At(start, trace, k), run.listing[i].authIndex)
              == if InFile(pathOf, run.listing[i].authIndex, trace[a.raise.value].path) then run.highest.value
                 else run.listing[i].priority
  {
    RaiseOfRun(start, trace, n, run, a);
    hide RunHistory, ClearRun, Valid, At, Marked, Trim, Benign, CleanStart, Selected, Wanted, Ordered, PriorityOf;
    var r, listed := a.raise.value, run.listedAt - 1;
    ListedClear(start, trace, n, run);
    RaisedStays(start, trace, r, k);
    OnlyRaisedIsMarked(start, trace, r, k);
    assert ShowsFiles(pathOf, fixed, At(start, trace, listed), trace[listed]);
    forall i | 0 <= i < |run.listing| && !InFile(pathOf, run.listing[i].authIndex, trace[r].path)
      ensures Shown(pathOf, fixed, At(start, trace, k), run.listing[i].authIndex) == run.listing[i].priority
    {
      assert run.listing[i] in run.listing;
      UnmarkedIsUnmoved(pathOf, fixed, start, trace, listed, k, run.listing[i].authIndex);
    }
  }

  /** An override of a run's is to the listed highest priority, and written while no file is marked. */
  lemma RaiseOfRun(start: Files, trace: seq<Event>, n: nat, run: Run, a: Attempt)
    requires Ran(start, trace, n, run) && a in run.attempts && a.raise.Some?
    ensures a.raise.value < |trace| && IsRaise(trace[a.raise.value]) && Marked(At(start, trace, a.raise.value)) == {}
    ensures run.highest.Some? && trace[a.raise.value].cause.to == run.highest.value
  {
    hide At, Marked, Trim, Eligible, Confirms, Selection;
    assert LawfulAttempt(trace, run.loopStart, run.cfg, run.targets, run.highest, a);
  }
}
