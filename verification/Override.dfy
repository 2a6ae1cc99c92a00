/**
 The override algebra of priority.go: raising a credential's priority while recording the
 original in the file, and undoing only that edit later. The functions are the specification;
 the methods edit the decoded fields step by step and are proved against them.
 */
module Override {
  import opened Text
  import opened Credential

  datatype Restoration = Restoration(raw: Raw, expected: Int64, needsSave: bool, external: bool)

  lemma KeysDiffer()
    ensures PRIORITY_KEY != MARKER_KEY
  {
  }

  function SetEntry(fields: Fields, key: string, entry: Option<Json>): Fields {
    if entry.Some? then fields[key := entry.value] else fields - {key}
  }

  /** Everything in the file that the plugin has no business with. */
  function Rest(doc: Doc): Fields {
    if doc.Readable? then doc.fields - {PRIORITY_KEY, MARKER_KEY} else map[]
  }

  // ----- specification -----

  function MarkerFor(doc: Doc, authIndex: string, runID: string, to: Int64): Marker {
    var original := Entry(doc, PRIORITY_KEY);
    Marker(MARKER_VERSION, MARKER_OWNER, Trim(runID), Trim(authIndex), to,
           original.Some?, original, PriorityOf(original))
  }

  function BuildOverride(raw: Raw, authIndex: string, runID: string, to: Int64): Result<(Raw, Marker), Error> {
    if !raw.doc.Readable? then Err(UnreadableCredential)
    else if HasMarker(raw.doc) then Err(MarkerAlreadyPresent)
    else
      var m := MarkerFor(raw.doc, authIndex, runID, to);
      Ok((Marshal(raw.doc.fields[PRIORITY_KEY := Integer(to)][MARKER_KEY := EncodeMarker(m)]), m))
  }

  predicate SameTransaction(m: Marker, fallback: Marker) {
    && m.authIndex == fallback.authIndex
    && m.runID == fallback.runID
    && m.overridePriority == fallback.overridePriority
  }

  /** The marker a restore acts on: the one in the file, else the caller's, else none. */
  function ActingMarker(doc: Doc, fallback: Option<Marker>): Result<Option<Marker>, Error> {
    match Entry(doc, MARKER_KEY)
    case None => Ok(fallback)
    case Some(rawMarker) =>
      match DecodeMarker(rawMarker)
      case Err(e) => Err(e)
      case Ok(m) =>
        if fallback.Some? && !SameTransaction(m, fallback.value) then Err(AnotherTransaction) else Ok(Some(m))
  }

  /** The priority field a marker puts back. A raw message that is missing is written as null. */
  function OriginalEntry(m: Marker): Option<Json> {
    if !m.originalPresent then None
    else Some(if m.original.Some? then m.original.value else Null)
  }

  function RestoreOverride(raw: Raw, fallback: Option<Marker>): Result<Restoration, Error> {
    if !raw.doc.Readable? then Err(UnreadableCredential)
    else
      match ActingMarker(raw.doc, fallback)
      case Err(e) => Err(e)
      case Ok(None) => Ok(Restoration(raw, 0, false, false))
      case Ok(Some(m)) =>
        var current := PriorityOf(Entry(raw.doc, PRIORITY_KEY));
        if current == m.overridePriority then
          Ok(Restoration(Marshal(SetEntry(raw.doc.fields, PRIORITY_KEY, OriginalEntry(m)) - {MARKER_KEY}),
                         m.originalFilePriority, true, false))
        else if !HasMarker(raw.doc) then
          Ok(Restoration(raw, current, false, true))
        else
          Ok(Restoration(Marshal(raw.doc.fields - {MARKER_KEY}), current, true, true))
  }

  // ----- the in-place edits of the decoded fields -----

  method BuildPriorityOverrideJSON(raw: Raw, authIndex: string, runID: string, to: Int64)
    returns (r: Result<(Raw, Marker), Error>)
    ensures r == BuildOverride(raw, authIndex, runID, to)
  {
    if !raw.doc.Readable? {
      return Err(UnreadableCredential);
    }
    var fields := raw.doc.fields;
    if MARKER_KEY in fields {
      return Err(MarkerAlreadyPresent);
    }
    var originalPresent := PRIORITY_KEY in fields;
    var original := if originalPresent then Some(fields[PRIORITY_KEY]) else None;
    var marker := Marker(MARKER_VERSION, MARKER_OWNER, Trim(runID), Trim(authIndex), to,
                         originalPresent, original, PriorityOf(original));
    fields := fields[PRIORITY_KEY := Integer(to)];
    fields := fields[MARKER_KEY := EncodeMarker(marker)];
    r := Ok((Marshal(fields), marker));
  }

  method RestorePriorityOverrideJSON(raw: Raw, fallback: Option<Marker>)
    returns (r: Result<Restoration, Error>)
    ensures r == RestoreOverride(raw, fallback)
  {
    KeysDiffer();
    if !raw.doc.Readable? {
      return Err(UnreadableCredential);
    }
    var fields := raw.doc.fields;
    var markerPresent := MARKER_KEY in fields;
    var marker: Marker;
    if markerPresent {
      match DecodeMarker(fields[MARKER_KEY]) {
        case Err(e) => return Err(e);
        case Ok(m) => marker := m;
      }
      if fallback.Some? && !SameTransaction(marker, fallback.value) {
        return Err(AnotherTransaction);
      }
    } else if fallback.Some? {
      marker := fallback.value;
    } else {
      return Ok(Restoration(raw, 0, false, false));
    }
    var current := PriorityOf(if PRIORITY_KEY in fields then Some(fields[PRIORITY_KEY]) else None);
    var externalChange := current != marker.overridePriority;
    var expected := current;
    if !externalChange {
      expected := marker.originalFilePriority;
      if marker.originalPresent {
        fields := fields[PRIORITY_KEY := if marker.original.Some? then marker.original.value else Null];
      } else {
        fields := fields - {PRIORITY_KEY};
      }
    }
    fields := fields - {MARKER_KEY};
    if !markerPresent && externalChange {
      return Ok(Restoration(raw, expected, false, true));
    }
    r := Ok(Restoration(Marshal(fields), expected, true, externalChange));
  }

  // ----- what build accepts and leaves behind -----

  /** Build accepts exactly the JSON objects without a marker, whatever their priority is. */
  lemma BuildsUnmarked(raw: Raw, authIndex: string, runID: string, to: Int64)
    ensures BuildOverride(raw, authIndex, runID, to).Ok? <==> raw.doc.Readable? && !HasMarker(raw.doc)
    ensures raw.doc.Readable? && HasMarker(raw.doc) ==>
              BuildOverride(raw, authIndex, runID, to) == Err(MarkerAlreadyPresent)
  {
  }

  lemma BuiltDocument(raw: Raw, authIndex: string, runID: string, to: Int64, built: Raw, m: Marker)
    requires BuildOverride(raw, authIndex, runID, to) == Ok((built, m))
    ensures built.doc.Readable? && HasMarker(built.doc) && !HasMarker(raw.doc)
    ensures Entry(built.doc, PRIORITY_KEY) == Some(Integer(to))
    ensures Entry(built.doc, MARKER_KEY) == Some(EncodeMarker(m))
    ensures Rest(built.doc) == Rest(raw.doc)
    ensures m == MarkerFor(raw.doc, authIndex, runID, to)
    ensures OriginalEntry(m) == Entry(raw.doc, PRIORITY_KEY)
  {
  }

  /** The marker in a built file reads back as built, unless it names no credential. */
  lemma BuiltMarker(raw: Raw, authIndex: string, runID: string, to: Int64, built: Raw, m: Marker)
    requires BuildOverride(raw, authIndex, runID, to) == Ok((built, m))
    ensures MarkerOf(built.doc) == if Blank(authIndex) then None else Some(m)
  {
    BuiltDocument(raw, authIndex, runID, to, built, m);
    TrimIdempotent(authIndex);
    DecodeEncodedMarker(m);
  }

  /** An edit that leaves the priority and the marker alone, as a token refresh does. */
  predicate LeavesOverride(a: Doc, b: Doc) {
    && a.Readable? && b.Readable?
    && Entry(a, PRIORITY_KEY) == Entry(b, PRIORITY_KEY)
    && Entry(a, MARKER_KEY) == Entry(b, MARKER_KEY)
  }

  /** Restore undoes build: after any edits to other fields in between, and whether the caller
      still has the marker or only the file does, the result is the edited document with the
      original priority field (or its absence) and no marker. Without edits it is the original. */
  lemma RestoreUndoesBuild(raw: Raw, authIndex: string, runID: string, to: Int64, built: Raw, m: Marker,
                           edited: Raw, fallback: Option<Marker>)
    requires BuildOverride(raw, authIndex, runID, to) == Ok((built, m))
    requires !Blank(authIndex)
    requires LeavesOverride(built.doc, edited.doc)
    requires fallback == None || fallback == Some(m)
    ensures var r := RestoreOverride(edited, fallback);
      && r.Ok? && r.value.needsSave && !r.value.external
      && r.value.raw.doc.Readable?
      && !HasMarker(r.value.raw.doc)
      && Entry(r.value.raw.doc, PRIORITY_KEY) == Entry(raw.doc, PRIORITY_KEY)
      && Rest(r.value.raw.doc) == Rest(edited.doc)
      && r.value.expected == PriorityOf(Entry(raw.doc, PRIORITY_KEY))
      && (edited == built ==> r.value.raw.doc == raw.doc)
  {
    BuiltDocument(raw, authIndex, runID, to, built, m);
    BuiltMarker(raw, authIndex, runID, to, built, m);
    ActsOnCarriedMarker(edited, fallback, m);
    PriorityOfInteger(to);
    RestoreTouchesOnlyItsEdit(edited, fallback, m);
    if edited == built {
      SameEntriesSameDocument(raw.doc, RestoreOverride(edited, fallback).value.raw.doc);
    }
  }

  lemma ActsOnCarriedMarker(raw: Raw, fallback: Option<Marker>, m: Marker)
    requires MarkerOf(raw.doc) == Some(m)
    ensures ActingMarker(raw.doc, fallback)
         == if fallback.Some? && !SameTransaction(m, fallback.value) then Err(AnotherTransaction) else Ok(Some(m))
  {
  }

  /** A blank auth index is the one build whose result no restore accepts. */
  lemma BuiltIsRestorableIffNamed(raw: Raw, authIndex: string, runID: string, to: Int64, built: Raw, m: Marker,
                                  fallback: Option<Marker>)
    requires BuildOverride(raw, authIndex, runID, to) == Ok((built, m))
    requires fallback == None || fallback == Some(m)
    ensures RestoreOverride(built, fallback).Ok? <==> !Blank(authIndex)
  {
    BuiltDocument(raw, authIndex, runID, to, built, m);
    BuiltMarker(raw, authIndex, runID, to, built, m);
    if Blank(authIndex) {
      CarriesUnreadableMarker(built.doc, fallback);
    } else {
      ActsOnCarriedMarker(built, fallback, m);
    }
  }

  lemma CarriesUnreadableMarker(doc: Doc, fallback: Option<Marker>)
    requires HasMarker(doc) && MarkerOf(doc) == None
    ensures ActingMarker(doc, fallback).Err?
  {
  }

  // ----- outside changes -----

  /** What restore does with the priority field, for any file it acts on: the field survives
      exactly as it stands when its number is not the override's, and otherwise becomes what
      the marker recorded. The marker goes in both cases; nothing else changes in either. */
  lemma RestoreTouchesOnlyItsEdit(raw: Raw, fallback: Option<Marker>, m: Marker)
    requires RestoreOverride(raw, fallback).Ok?
    requires ActingMarker(raw.doc, fallback) == Ok(Some(m))
    ensures var r := RestoreOverride(raw, fallback).value;
      && r.raw.doc.Readable? && !HasMarker(r.raw.doc)
      && Rest(r.raw.doc) == Rest(raw.doc)
      && r.external == (PriorityOf(Entry(raw.doc, PRIORITY_KEY)) != m.overridePriority)
      && Entry(r.raw.doc, PRIORITY_KEY) == (if r.external then Entry(raw.doc, PRIORITY_KEY) else OriginalEntry(m))
      && (!r.needsSave ==> r.raw == raw)
      && (!r.needsSave <==> r.external && !HasMarker(raw.doc))
  {
  }

  /** The number the caller then waits for in the runtime is the number in the restored file
      exactly when the change was external or the marker's number agrees with its own record. */
  lemma ExpectedPriorityIsWritten(raw: Raw, fallback: Option<Marker>, m: Marker)
    requires RestoreOverride(raw, fallback).Ok?
    requires ActingMarker(raw.doc, fallback) == Ok(Some(m))
    ensures var r := RestoreOverride(raw, fallback).value;
      r.expected == PriorityOf(Entry(r.raw.doc, PRIORITY_KEY))
      <==> r.external || m.originalFilePriority == PriorityOf(OriginalEntry(m))
  {
  }

  /** Every marker that build makes agrees with its own record. */
  lemma BuiltMarkerAgrees(raw: Raw, authIndex: string, runID: string, to: Int64, built: Raw, m: Marker)
    requires BuildOverride(raw, authIndex, runID, to) == Ok((built, m))
    ensures m.originalFilePriority == PriorityOf(OriginalEntry(m))
  {
  }

  /** Restore accepts exactly the JSON objects whose marker, if they have one, decodes and is of the
      caller's transaction. */
  lemma RestoresItsOwn(raw: Raw, fallback: Option<Marker>)
    ensures RestoreOverride(raw, fallback).Ok? <==>
              && raw.doc.Readable?
              && (HasMarker(raw.doc) ==>
                    && MarkerOf(raw.doc).Some?
                    && (fallback.Some? ==> SameTransaction(MarkerOf(raw.doc).value, fallback.value)))
  {
  }

  // ----- repetition and strangers -----

  /** Two overrides are one transaction exactly if they are of the same credential, in the same run, and
      to the same number, whatever the files they were built from. */
  lemma OneTransactionIff(raw: Raw, authIndex: string, runID: string, to: Int64, built: Raw, m: Marker,
                          raw': Raw, authIndex': string, runID': string, to': Int64, built': Raw, m': Marker)
    requires BuildOverride(raw, authIndex, runID, to) == Ok((built, m))
    requires BuildOverride(raw', authIndex', runID', to') == Ok((built', m'))
    ensures SameTransaction(m, m') <==> Trim(authIndex) == Trim(authIndex') && Trim(runID) == Trim(runID') && to == to'
    ensures MarkerOf(built.doc).Some? && MarkerOf(built'.doc).Some? ==>
              (RestoreOverride(built, Some(m')).Ok? <==> SameTransaction(m, m'))
  {
    BuiltMarker(raw, authIndex, runID, to, built, m);
    BuiltMarker(raw', authIndex', runID', to', built', m');
    RestoresItsOwn(built, Some(m'));
    hide RestoreOverride, MarkerOf, Trim, EncodeMarker;
  }

  /** Restoring a second time with the same marker changes nothing, unless the marker in the
      file recorded another original than the caller's, and one that reads as the override. */
  lemma RestoreTwice(raw: Raw, m: Marker)
    requires RestoreOverride(raw, Some(m)).Ok?
    ensures var once := RestoreOverride(raw, Some(m)).value;
      var recorded := OriginalEntry(ActingMarker(raw.doc, Some(m)).value.value);
      && RestoreOverride(once.raw, Some(m)).Ok?
      && (RestoreOverride(once.raw, Some(m)).value.raw.doc == once.raw.doc <==>
            once.external || PriorityOf(recorded) != m.overridePriority || recorded == OriginalEntry(m))
  {
  }

  /** Restoring twice can differ from restoring once: the marker in the file recorded a 5 under an
      override to 5, and the caller's marker recorded no priority. */
  lemma RestoringTwiceCanDiffer() returns (raw: Raw, m: Marker)
    ensures RestoreOverride(raw, Some(m)).Ok?
    ensures var once := RestoreOverride(raw, Some(m)).value.raw;
      RestoreOverride(once, Some(m)).Ok? && RestoreOverride(once, Some(m)).value.raw.doc != once.doc
  {
    m := Marker(MARKER_VERSION, MARKER_OWNER, "run", "1", 5, false, None, 0);
    var recorded := m.(originalPresent := true, original := Some(Integer(5)), originalFilePriority := 5);
    var fields := map[PRIORITY_KEY := Integer(5), MARKER_KEY := EncodeMarker(recorded)];
    raw := Marshal(fields);
    KeysDiffer();
    assert Trim("1") == "1";
    DecodeEncodedMarker(recorded);
    PriorityOfInteger(5);
    ActsOnCarriedMarker(raw, Some(m), recorded);
    RestoreTwice(raw, m);
  }

  lemma SameEntriesSameDocument(a: Doc, b: Doc)
    requires a.Readable? && b.Readable?
    requires Rest(a) == Rest(b)
    requires Entry(a, PRIORITY_KEY) == Entry(b, PRIORITY_KEY)
    requires Entry(a, MARKER_KEY) == Entry(b, MARKER_KEY)
    ensures a == b
  {
    forall key
      ensures Entry(a, key) == Entry(b, key)
    {
      if key != PRIORITY_KEY && key != MARKER_KEY {
        assert key in a.fields <==> key in Rest(a);
        assert key in b.fields <==> key in Rest(b);
      }
    }
    assert forall key :: key in a.fields <==> Entry(a, key).Some?;
    assert forall key :: key in b.fields <==> Entry(b, key).Some?;
    assert forall key | key in a.fields :: a.fields[key] == Entry(a, key).value;
    assert forall key | key in b.fields :: b.fields[key] == Entry(b, key).value;
    assert a.fields == b.fields;
  }

  /** With a decodable marker in the file, a caller's own marker is accepted exactly when it
      names the same credential, run and override. */
  lemma StrangersAreRefused(raw: Raw, m: Marker, fallback: Marker)
    requires MarkerOf(raw.doc) == Some(m)
    ensures RestoreOverride(raw, Some(fallback)).Ok? <==> SameTransaction(m, fallback)
    ensures RestoreOverride(raw, Some(fallback)).Err? ==> RestoreOverride(raw, Some(fallback)) == Err(AnotherTransaction)
  {
  }
}
