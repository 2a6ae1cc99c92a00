/**
 The temporary-priority transaction as a step system. A history lists everything that happens
 to the shared credential files: outside writes, the plugin's two kinds of compare-and-swap
 commit, and the crashes; and what happens in between: listings, runtime reads, file reads, model
 calls, requests that are denied, contexts that expire, and the plugin going down. The theorems hold of
 every valid history, that is of every interleaving, cut off by a crash at any point.
 */
module History {
  import opened Text
  import opened Credential
  import opened Override
  import opened Auths

  type Files = map<string, Raw>

  datatype Cause =
    | Outside
    | Raise(authIndex: string, runID: string, to: Int64, marker: Marker)
    | Undo(expectation: Marker)

  /** What the plugin asks of its host, which may deny it. */
  datatype Request = ForListing | ForRuntime(authIndex: string) | ForFile(authIndex: string) | ForSave(path: string)

  /** Between `Halted` and the restart, `Crash`, the plugin does nothing. */
  datatype Event =
    | Write(path: string, before: Raw, after: Raw, cause: Cause)
    | Listed(auths: seq<Auth>)
    | Observe(seen: Auth)
    | Fetched(authIndex: string, replied: string, name: string, path: string, json: Raw)
    | Denied(what: Request)
    | Expired
    | Call(authID: string, reply: Option<Int64>)
    | Halted
    | Crash

  predicate IsRaise(e: Event) { e.Write? && e.cause.Raise? }

  predicate IsUndo(e: Event) { e.Write? && e.cause.Undo? }

  predicate IsOutside(e: Event) { e.Write? && e.cause.Outside? }

  // ----- steps -----

  function Apply(files: Files, e: Event): Files {
    if e.Write? then files[e.path := e.after] else files
  }

  function After(start: Files, trace: seq<Event>): Files {
    if trace == [] then start else Apply(After(start, trace[..|trace| - 1]), trace[|trace| - 1])
  }

  function At(start: Files, trace: seq<Event>, k: nat): Files
    requires k <= |trace|
  {
    After(start, trace[..k])
  }

  /** A commit is computed from exactly the bytes it replaces. */
  predicate Justified(e: Event) {
    match e
    case Write(_, before, after, Raise(authIndex, runID, to, marker)) =>
      !Blank(authIndex) && BuildOverride(before, authIndex, runID, to) == Ok((after, marker))
    case Write(_, before, after, Undo(m)) =>
      var r := RestoreOverride(before, Some(m));
      r.Ok? && r.value.needsSave && r.value.raw == after
    case _ => true
  }

  predicate Carries(files: Files, path: string, m: Marker) {
    path in files && MarkerOf(files[path].doc) == Some(m)
  }

  predicate QuietSince(trace: seq<Event>, j: nat) {
    forall i | j <= i < |trace| :: !trace[i].Crash?
  }

  predicate CarriedAt(start: Files, trace: seq<Event>, j: nat, path: string, m: Marker) {
    j <= |trace| && Carries(At(start, trace, j), path, m)
  }

  /** What a restore may expect to find: a marker it has read from the file, or written to it
      (the lease), since the last crash. A crash loses both. */
  ghost predicate Remembers(start: Files, trace: seq<Event>, path: string, m: Marker) {
    exists j: nat :: CarriedAt(start, trace, j, path, m) && QuietSince(trace, j)
  }

  /** A read of a file is of what it holds, and a write replaces that. */
  ghost predicate CanFollow(start: Files, trace: seq<Event>, e: Event) {
    && (e.Fetched? ==> e.path in After(start, trace) && After(start, trace)[e.path] == e.json)
    && (e.Write? ==>
          && e.path in After(start, trace) && After(start, trace)[e.path] == e.before
          && Justified(e)
          && (e.cause.Undo? ==> Remembers(start, trace, e.path, e.cause.expectation)))
  }

  ghost predicate Valid(start: Files, trace: seq<Event>) {
    trace == [] ||
    (var init := trace[..|trace| - 1];
     Valid(start, init) && CanFollow(start, init, trace[|trace| - 1]))
  }

  /** Overrides go to the file of the credential they name. */
  predicate RaisesInPlace(pathOf: map<string, string>, trace: seq<Event>) {
    forall i | 0 <= i < |trace| && IsRaise(trace[i]) :: InPlace(pathOf, trace[i].path, trace[i].cause)
  }

  predicate InPlace(pathOf: map<string, string>, path: string, cause: Cause) {
    cause.Raise? ==> Trim(cause.authIndex) in pathOf && pathOf[Trim(cause.authIndex)] == path
  }

  // ----- prefixes -----

  lemma AtPrefix(start: Files, trace: seq<Event>, more: seq<Event>, k: nat)
    requires k <= |trace| && trace <= more
    ensures At(start, trace, k) == At(start, more, k)
  {
    assert trace[..k] == more[..k];
  }

  lemma {:induction false} ValidPrefix(start: Files, trace: seq<Event>, k: nat)
    requires Valid(start, trace) && k <= |trace|
    ensures Valid(start, trace[..k])
    decreases |trace|
  {
    if k < |trace| {
      var init := trace[..|trace| - 1];
      ValidPrefix(start, init, k);
      assert init[..k] == trace[..k];
    } else {
      assert trace[..k] == trace;
    }
  }

  lemma {:induction false} SameFiles(start: Files, trace: seq<Event>)
    requires Valid(start, trace)
    ensures After(start, trace).Keys == start.Keys
  {
    if trace != [] {
      SameFiles(start, trace[..|trace| - 1]);
    }
  }

  /** The k-th step, with the files before and after it. */
  lemma StepAt(start: Files, trace: seq<Event>, k: nat)
    requires Valid(start, trace) && k < |trace|
    ensures CanFollow(start, trace[..k], trace[k])
    ensures At(start, trace, k + 1) == Apply(At(start, trace, k), trace[k])
    ensures At(start, trace, k).Keys == start.Keys == At(start, trace, k + 1).Keys
  {
    ValidPrefix(start, trace, k);
    ValidPrefix(start, trace, k + 1);
    SameFiles(start, trace[..k]);
    SameFiles(start, trace[..k + 1]);
    assert trace[..k + 1][..k] == trace[..k];
  }

  lemma Extend(start: Files, trace: seq<Event>, e: Event)
    requires Valid(start, trace) && CanFollow(start, trace, e)
    ensures Valid(start, trace + [e])
    ensures After(start, trace + [e]) == Apply(After(start, trace), e)
  {
  }

  /** A crash can cut any history off anywhere, and what remains is again a history. */
  lemma CrashAnywhere(start: Files, trace: seq<Event>, k: nat)
    requires Valid(start, trace) && k <= |trace|
    ensures Valid(start, trace[..k] + [Crash])
    ensures After(start, trace[..k] + [Crash]) == At(start, trace, k)
    ensures forall path, m | !Carries(At(start, trace, k), path, m) ::
              !Remembers(start, trace[..k] + [Crash], path, m)
  {
    ValidPrefix(start, trace, k);
    Extend(start, trace[..k], Crash);
    var cut := trace[..k] + [Crash];
    forall path, m | !Carries(At(start, trace, k), path, m)
      ensures !Remembers(start, cut, path, m)
    {
      forall j: nat | CarriedAt(start, cut, j, path, m)
        ensures !QuietSince(cut, j)
      {
        assert cut[..|cut|] == cut;
        assert cut[k].Crash?;
      }
    }
  }

  lemma RememberedLater(start: Files, trace: seq<Event>, more: seq<Event>, path: string, m: Marker)
    requires Remembers(start, trace, path, m)
    requires trace <= more && QuietSince(more, |trace|)
    ensures Remembers(start, more, path, m)
  {
    var j: nat :| CarriedAt(start, trace, j, path, m) && QuietSince(trace, j);
    AtPrefix(start, trace, more, j);
    assert CarriedAt(start, more, j, path, m);
    forall i | j <= i < |more|
      ensures !more[i].Crash?
    {
      if i < |trace| {
        assert more[i] == trace[i];
      }
    }
  }

  lemma RememberedNow(start: Files, trace: seq<Event>, path: string, m: Marker)
    requires Carries(After(start, trace), path, m)
    ensures Remembers(start, trace, path, m)
  {
    assert trace[..|trace|] == trace;
    assert CarriedAt(start, trace, |trace|, path, m);
    assert QuietSince(trace, |trace|);
  }

  // ----- no lost update -----

  /** The document the last outside writer left at a path. */
  function LatestOutside(start: Files, trace: seq<Event>, path: string): Doc
    requires path in start
  {
    if trace == [] then start[path].doc
    else
      var e := trace[|trace| - 1];
      if IsOutside(e) && e.path == path then e.after.doc else LatestOutside(start, trace[..|trace| - 1], path)
  }

  lemma CommitKeepsRest(e: Event)
    requires e.Write? && !e.cause.Outside? && Justified(e)
    ensures Rest(e.after.doc) == Rest(e.before.doc)
    ensures e.after.doc.Readable? && e.before.doc.Readable?
    ensures HasMarker(e.after.doc) <==> e.cause.Raise?
    ensures e.cause.Raise? ==> !HasMarker(e.before.doc)
  {
  }

  /** Whatever outside writers do, and whenever the plugin commits: every field other than the
      priority and the marker is what the latest outside write made it. */
  lemma {:induction false} NoLostUpdate(start: Files, trace: seq<Event>, path: string)
    requires Valid(start, trace) && path in start
    ensures path in After(start, trace)
    ensures Rest(After(start, trace)[path].doc) == Rest(LatestOutside(start, trace, path))
  {
    SameFiles(start, trace);
    if trace != [] {
      var e := trace[|trace| - 1];
      NoLostUpdate(start, trace[..|trace| - 1], path);
      if e.Write? && e.path == path && !e.cause.Outside? {
        CommitKeepsRest(e);
      }
    }
  }

  // ----- markers the plugin cannot read -----

  predicate NoOutsideWrites(trace: seq<Event>, n: nat, k: nat, path: string) {
    forall i | n <= i < k && i < |trace| && IsOutside(trace[i]) :: trace[i].path != path
  }

  /** The plugin never writes a file whose marker does not decode. */
  lemma {:induction false} UndecodableStays(start: Files, trace: seq<Event>, n: nat, k: nat, path: string)
    requires Valid(start, trace) && n <= k <= |trace| && path in At(start, trace, n)
    requires HasMarker(At(start, trace, n)[path].doc) && MarkerOf(At(start, trace, n)[path].doc).None?
    requires NoOutsideWrites(trace, n, k, path)
    ensures path in At(start, trace, k) && At(start, trace, k)[path] == At(start, trace, n)[path]
    decreases k
  {
    if n < k {
      UndecodableStays(start, trace, n, k - 1, path);
      StepAt(start, trace, k - 1);
      var e := trace[k - 1];
      if IsUndo(e) && e.path == path {
        CarriesUnreadableMarker(e.before.doc, Some(e.cause.expectation));
      }
    }
  }

  // ----- the priority a file is owed -----

  /** The priority field that undoing the plugin's edit would leave: what the marker recorded while
      the override's number is still there, and otherwise the field as it stands. */
  function Owed(doc: Doc): Option<Json> {
    var m := MarkerOf(doc);
    if m.Some? && PriorityOf(Entry(doc, PRIORITY_KEY)) == m.value.overridePriority then OriginalEntry(m.value)
    else Entry(doc, PRIORITY_KEY)
  }

  /** An undo by the plugin's own memory of a marker that is no longer in the file. */
  predicate FromMemory(e: Event) { IsUndo(e) && !HasMarker(e.before.doc) }

  /** A commit keeps what the file is owed, except an undo from memory of another original: the
      marker is gone and the number in the file is the override's. */
  lemma CommitKeepsOwed(e: Event)
    requires e.Write? && !e.cause.Outside? && Justified(e)
    ensures Owed(e.after.doc) == Owed(e.before.doc)
            <==> !FromMemory(e) || OriginalEntry(e.cause.expectation) == Entry(e.before.doc, PRIORITY_KEY)
    ensures FromMemory(e) ==> PriorityOf(Entry(e.before.doc, PRIORITY_KEY)) == e.cause.expectation.overridePriority
  {
    match e.cause {
      case Raise(authIndex, runID, to, marker) =>
        BuiltDocument(e.before, authIndex, runID, to, e.after, marker);
        BuiltMarker(e.before, authIndex, runID, to, e.after, marker);
        PriorityOfInteger(to);
      case Undo(m) =>
        var acting := ActingMarker(e.before.doc, Some(m)).value.value;
        RestoreTouchesOnlyItsEdit(e.before, Some(m), acting);
    }
  }

  /** A history in which a priority an outside writer sets is undone from memory: a file without a
      priority is raised, the writer drops the marker and sets the override's own number, and the
      restore of the raise takes that away again. */
  lemma UndoneFromMemory() returns (start: Files, trace: seq<Event>)
    ensures Valid(start, trace) && |trace| == 3
    ensures IsRaise(trace[0]) && IsOutside(trace[1]) && FromMemory(trace[2])
    ensures trace[0].path == trace[1].path == trace[2].path && trace[2].before == trace[1].after
    ensures Owed(trace[1].after.doc) == Some(Integer(5)) && Owed(trace[2].after.doc) == None
  {
    var raw, edited := Marshal(map[]), Marshal(map[PRIORITY_KEY := Integer(5)]);
    var (built, m) := BuildOverride(raw, "1", "run", 5).value;
    var undone := UndoneRaw(raw, built, m, edited);
    start := map["a.json" := raw];
    trace := UndoAfterEdit("a.json", raw, built, edited, undone, Raise("1", "run", 5, m), m);
    hide *;
  }

  lemma UndoAfterEdit(path: string, raw: Raw, built: Raw, edited: Raw, undone: Raw, cause: Cause, m: Marker)
    returns (trace: seq<Event>)
    requires Justified(Write(path, raw, built, cause)) && cause.Raise? && MarkerOf(built.doc) == Some(m)
    requires Justified(Write(path, edited, undone, Undo(m)))
    ensures trace == [Write(path, raw, built, cause), Write(path, built, edited, Outside), Write(path, edited, undone, Undo(m))]
    ensures Valid(map[path := raw], trace)
  {
    hide BuildOverride, RestoreOverride, MarkerOf, Remembers, Valid, Justified;
    var start := map[path := raw];
    var raise := [Write(path, raw, built, cause)];
    var edit := raise + [Write(path, built, edited, Outside)];
    NothingHappened(start);
    Extend(start, [], raise[0]);
    assert [] + raise == raise;
    RememberedNow(start, raise, path, m);
    RememberedLater(start, raise, edit, path, m);
    EditIsJustified(edit[1]);
    Extend(start, raise, edit[1]);
    Extend(start, edit, Write(path, edited, undone, Undo(m)));
    trace := edit + [Write(path, edited, undone, Undo(m))];
  }

  lemma NothingHappened(start: Files)
    ensures Valid(start, []) && After(start, []) == start
  {
  }

  lemma EditIsJustified(e: Event)
    requires IsOutside(e)
    ensures Justified(e)
  {
  }

  lemma UndoneRaw(raw: Raw, built: Raw, m: Marker, edited: Raw) returns (undone: Raw)
    requires raw == Marshal(map[]) && edited == Marshal(map[PRIORITY_KEY := Integer(5)])
    requires BuildOverride(raw, "1", "run", 5) == Ok((built, m))
    ensures Justified(Write("a.json", raw, built, Raise("1", "run", 5, m))) && MarkerOf(built.doc) == Some(m)
    ensures Justified(Write("a.json", edited, undone, Undo(m))) && !HasMarker(edited.doc)
    ensures Owed(edited.doc) == Some(Integer(5)) && Owed(undone.doc) == None
  {
    assert Trim("1") == "1";
    KeysDiffer();
    BuiltDocument(raw, "1", "run", 5, built, m);
    BuiltMarker(raw, "1", "run", 5, built, m);
    PriorityOfInteger(5);
    undone := RestoreOverride(edited, Some(m)).value.raw;
    RestoreTouchesOnlyItsEdit(edited, Some(m), m);
    UnmarkedIsOwed(edited.doc);
    UnmarkedIsOwed(undone.doc);
  }

  /** A priority that an outside writer leaves owed survives every run, recovery and crash until the
      next outside write, whatever number it is, as long as no marker that the plugin remembers
      and the file has lost was for the same number. Whenever the file has no marker it is the
      priority field itself. */
  lemma {:induction false} OutsidePrioritySurvives(start: Files, trace: seq<Event>, n: nat, k: nat, path: string)
    requires Valid(start, trace) && n <= k <= |trace| && path in At(start, trace, n)
    requires NoOutsideWrites(trace, n, k, path)
    requires forall i | n <= i < k && trace[i].Write? && trace[i].path == path && FromMemory(trace[i]) ::
               trace[i].cause.expectation.overridePriority != PriorityOf(Owed(At(start, trace, n)[path].doc))
    ensures path in At(start, trace, k)
    ensures Owed(At(start, trace, k)[path].doc) == Owed(At(start, trace, n)[path].doc)
    ensures !HasMarker(At(start, trace, k)[path].doc) ==>
              Entry(At(start, trace, k)[path].doc, PRIORITY_KEY) == Owed(At(start, trace, n)[path].doc)
    decreases k
  {
    if n < k {
      OutsidePrioritySurvives(start, trace, n, k - 1, path);
      hide Valid, Justified, Remembers, PriorityOf, MarkerOf;
      StepAt(start, trace, k - 1);
      hide At;
      assert path in At(start, trace, k);
      var e := trace[k - 1];
      if e.Write? && e.path == path {
        assert CanFollow(start, trace[..k - 1], e);
        CommitKeepsOwed(e);
      }
    }
    UnmarkedIsOwed(At(start, trace, k)[path].doc);
    hide *;
  }

  lemma UnmarkedIsOwed(doc: Doc)
    ensures !HasMarker(doc) ==> Owed(doc) == Entry(doc, PRIORITY_KEY)
  {
  }

  // ----- the transaction invariant -----

  predicate Records(m: Marker, original: Doc) {
    && OriginalEntry(m) == Entry(original, PRIORITY_KEY)
    && m.originalFilePriority == PriorityOf(Entry(original, PRIORITY_KEY))
  }

  /** A file either has its original priority and no marker, or a readable marker recording
      exactly that original together with the override it announces. */
  predicate Sound(original: Doc, now: Doc) {
    && now.Readable?
    && if HasMarker(now) then
         && MarkerOf(now).Some?
         && Records(MarkerOf(now).value, original)
         && Entry(now, PRIORITY_KEY) == Some(Integer(MarkerOf(now).value.overridePriority))
       else
         Entry(now, PRIORITY_KEY) == Entry(original, PRIORITY_KEY)
  }

  predicate CleanStart(start: Files) {
    forall path | path in start :: start[path].doc.Readable? && !HasMarker(start[path].doc)
  }

  /** Outside writers that refresh tokens and the like. */
  predicate Benign(trace: seq<Event>) {
    forall i | 0 <= i < |trace| && IsOutside(trace[i]) :: LeavesOverride(trace[i].before.doc, trace[i].after.doc)
  }

  lemma RaiseKeepsSound(original: Doc, e: Event)
    requires IsRaise(e) && Justified(e) && Sound(original, e.before.doc)
    ensures Sound(original, e.after.doc)
  {
    var Raise(authIndex, runID, to, marker) := e.cause;
    BuiltDocument(e.before, authIndex, runID, to, e.after, marker);
    BuiltMarker(e.before, authIndex, runID, to, e.after, marker);
  }

  lemma UndoKeepsSound(original: Doc, e: Event)
    requires IsUndo(e) && Justified(e) && Sound(original, e.before.doc)
    requires Records(e.cause.expectation, original)
    ensures Sound(original, e.after.doc) && !HasMarker(e.after.doc)
  {
    var m := e.cause.expectation;
    var acting := ActingMarker(e.before.doc, Some(m)).value.value;
    RestoreTouchesOnlyItsEdit(e.before, Some(m), acting);
    if HasMarker(e.before.doc) {
      ActsOnCarriedMarker(e.before, Some(m), MarkerOf(e.before.doc).value);
      PriorityOfInteger(acting.overridePriority);
    }
  }

  /** The invariant holds at every instant of every history whose outside writers leave the
      priority and the marker alone. */
  lemma {:induction false} AlwaysSound(start: Files, trace: seq<Event>, k: nat, path: string)
    requires Valid(start, trace) && CleanStart(start) && Benign(trace)
    requires k <= |trace| && path in start
    ensures path in At(start, trace, k) && Sound(start[path].doc, At(start, trace, k)[path].doc)
    decreases k
  {
    if k > 0 {
      AlwaysSound(start, trace, k - 1, path);
      StepAt(start, trace, k - 1);
      var e := trace[k - 1];
      if e.Write? && e.path == path {
        match e.cause {
          case Outside =>
            SoundAfterBenign(start[path].doc, e.before.doc, e.after.doc);
          case Raise(_, _, _, _) =>
            RaiseKeepsSound(start[path].doc, e);
          case Undo(m) =>
            var init := trace[..k - 1];
            var j: nat :| CarriedAt(start, init, j, path, m) && QuietSince(init, j);
            AtPrefix(start, init, trace, j);
            AlwaysSound(start, trace, j, path);
            CarriedRecords(start[path].doc, At(start, trace, j)[path].doc, m);
            UndoKeepsSound(start[path].doc, e);
        }
      }
    }
  }

  lemma SoundAfterBenign(original: Doc, before: Doc, after: Doc)
    requires Sound(original, before) && LeavesOverride(before, after)
    ensures Sound(original, after)
  {
  }

  lemma CarriedRecords(original: Doc, now: Doc, m: Marker)
    requires Sound(original, now) && MarkerOf(now) == Some(m)
    ensures Records(m, original)
  {
  }

  /** A file without a marker, at any instant, is the latest outside document with the original
      priority field, or its absence. */
  lemma MarkerFreeMeansRestored(start: Files, trace: seq<Event>, path: string)
    requires Valid(start, trace) && CleanStart(start) && Benign(trace) && path in start
    requires path in After(start, trace) && !HasMarker(After(start, trace)[path].doc)
    ensures var now := After(start, trace)[path].doc;
      && now.Readable?
      && Rest(now) == Rest(LatestOutside(start, trace, path))
      && Entry(now, PRIORITY_KEY) == Entry(start[path].doc, PRIORITY_KEY)
  {
    assert trace[..|trace|] == trace;
    AlwaysSound(start, trace, |trace|, path);
    NoLostUpdate(start, trace, path);
  }

  /** Crash at any instant: the marker left in a file is enough to undo it. Recovery reads the
      marker, the restore is accepted, has something to save, and yields the latest outside
      content with the original priority and no marker. */
  lemma RecoverableAnywhere(start: Files, trace: seq<Event>, path: string)
    requires Valid(start, trace) && CleanStart(start) && Benign(trace) && path in start
    requires path in After(start, trace) && HasMarker(After(start, trace)[path].doc)
    ensures var now := After(start, trace)[path];
      && MarkerOf(now.doc).Some?
      && var r := RestoreOverride(now, MarkerOf(now.doc));
      && r.Ok? && r.value.needsSave && !r.value.external
      && r.value.raw.doc.Readable? && !HasMarker(r.value.raw.doc)
      && Rest(r.value.raw.doc) == Rest(LatestOutside(start, trace, path))
      && Entry(r.value.raw.doc, PRIORITY_KEY) == Entry(start[path].doc, PRIORITY_KEY)
      && r.value.expected == PriorityOf(Entry(r.value.raw.doc, PRIORITY_KEY))
      && CanFollow(start, trace, Write(path, now, r.value.raw, Undo(MarkerOf(now.doc).value)))
  {
    assert trace[..|trace|] == trace;
    AlwaysSound(start, trace, |trace|, path);
    NoLostUpdate(start, trace, path);
    var now := After(start, trace)[path];
    var m := MarkerOf(now.doc).value;
    ActsOnCarriedMarker(now, Some(m), m);
    PriorityOfInteger(m.overridePriority);
    RestoreTouchesOnlyItsEdit(now, Some(m), m);
    ExpectedPriorityIsWritten(now, Some(m), m);
    RememberedNow(start, trace, path, m);
  }

  // ----- one marker at a time -----

  function Marked(files: Files): set<string> {
    set path | path in files && HasMarker(files[path].doc)
  }

  /** Outside writers that never create a marker. */
  predicate NeverMarks(e: Event) {
    IsOutside(e) && HasMarker(e.after.doc) ==> HasMarker(e.before.doc)
  }

  predicate NeverMarksFrom(trace: seq<Event>, n: nat) {
    forall i | n <= i < |trace| :: NeverMarks(trace[i])
  }

  /** The discipline the lock and the recovery before each run keep: no override is written
      while any file carries a marker. */
  predicate RaisesWhenClearFrom(start: Files, trace: seq<Event>, n: nat) {
    forall i | n <= i < |trace| && IsRaise(trace[i]) :: Marked(At(start, trace, i)) == {}
  }

  lemma MarkedStep(start: Files, trace: seq<Event>, k: nat)
    requires Valid(start, trace) && k < |trace| && NeverMarks(trace[k])
    ensures var before, after := Marked(At(start, trace, k)), Marked(At(start, trace, k + 1));
      && (!IsRaise(trace[k]) ==> after <= before)
      && (IsRaise(trace[k]) ==> after == before + {trace[k].path})
      && (IsUndo(trace[k]) ==> after == before - {trace[k].path})
  {
    hide Justified, Valid, HasMarker, Remembers;
    StepAt(start, trace, k);
    var e := trace[k];
    if e.Write? && !e.cause.Outside? {
      CommitKeepsRest(e);
    }
  }

  /** Across any runs and recoveries that keep the discipline, at most one file carries a
      marker at any instant. */
  lemma {:induction false} AtMostOneMarker(start: Files, trace: seq<Event>, n: nat, k: nat)
    requires Valid(start, trace) && n <= k <= |trace|
    requires NeverMarksFrom(trace, n) && RaisesWhenClearFrom(start, trace, n)
    requires |Marked(At(start, trace, n))| <= 1
    ensures |Marked(At(start, trace, k))| <= 1
    decreases k
  {
    if n < k {
      AtMostOneMarker(start, trace, n, k - 1);
      MarkedStep(start, trace, k - 1);
      var before, after := Marked(At(start, trace, k - 1)), Marked(At(start, trace, k));
      if IsRaise(trace[k - 1]) {
        assert after == {trace[k - 1].path};
      } else {
        SubsetSize(after, before);
      }
    }
  }

  lemma SubsetSize(a: set<string>, b: set<string>)
    requires a <= b
    ensures |a| <= |b|
  {
    assert b == a + (b - a);
  }

  /** Between two instants without an override, markers only disappear. */
  lemma {:induction false} MarkersOnlyGo(start: Files, trace: seq<Event>, n: nat, k: nat)
    requires Valid(start, trace) && NeverMarksFrom(trace, n) && n <= k <= |trace|
    requires forall i | n <= i < k :: !IsRaise(trace[i])
    ensures Marked(At(start, trace, k)) <= Marked(At(start, trace, n))
    decreases k
  {
    if n < k {
      MarkersOnlyGo(start, trace, n, k - 1);
      MarkedStep(start, trace, k - 1);
    }
  }

  /** When no file carries a marker, every file is the latest outside content with its original
      priority. */
  lemma NoMarkersMeansAllRestored(start: Files, trace: seq<Event>)
    requires Valid(start, trace) && CleanStart(start) && Benign(trace)
    requires Marked(After(start, trace)) == {}
    ensures forall path | path in start ::
      && path in After(start, trace) && After(start, trace)[path].doc.Readable?
      && Rest(After(start, trace)[path].doc) == Rest(LatestOutside(start, trace, path))
      && Entry(After(start, trace)[path].doc, PRIORITY_KEY) == Entry(start[path].doc, PRIORITY_KEY)
  {
    SameFiles(start, trace);
    forall path | path in start
      ensures After(start, trace)[path].doc.Readable?
      ensures Rest(After(start, trace)[path].doc) == Rest(LatestOutside(start, trace, path))
      ensures Entry(After(start, trace)[path].doc, PRIORITY_KEY) == Entry(start[path].doc, PRIORITY_KEY)
    {
      assert path !in Marked(After(start, trace));
      MarkerFreeMeansRestored(start, trace, path);
    }
  }

  lemma BenignNeverMarks(trace: seq<Event>)
    requires Benign(trace)
    ensures NeverMarksFrom(trace, 0)
  {
  }
}
