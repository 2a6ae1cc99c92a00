/**
 The credential file: a JSON object that the plugin shares with outside writers, and the
 marker it embeds in that object while a temporary priority is in force.
 */
module Credential {
  import opened Text

  // ----- JSON documents -----

  /** A number keeps its literal. `float` is the literal read as float64 and truncated to an
      integer, when that conversion succeeds; IEEE rounding itself is not modelled. */
  datatype Json =
    | Null
    | Bool(b: bool)
    | Number(literal: string, float: Option<Int64>)
    | Str(s: string)
    | Array(items: seq<Json>)
    | Object(members: map<string, Json>)

  type Fields = map<string, Json>

  datatype Doc = Missing | Undecodable | Readable(fields: Fields)

  /** The bytes on disk: a document and everything about its spelling (spaces, escapes, key
      order) that two byte strings of one document can differ in. */
  datatype Raw = Raw(layout: nat, doc: Doc)

  /** json.Marshal always spells a document the same way. */
  function Marshal(fields: Fields): Raw { Raw(0, Readable(fields)) }

  function Integer(n: Int64): Json { Number(Itoa(n), Some(n)) }

  function Entry(doc: Doc, key: string): Option<Json> {
    if doc.Readable? && key in doc.fields then Some(doc.fields[key]) else None
  }

  // ----- the number in a priority field -----

  const PRIORITY_KEY := "priority"

  /** priorityFromRawJSON, where None is the absent field. */
  function PriorityOf(entry: Option<Json>): Int64 {
    match entry
    case Some(Number(literal, float)) =>
      (match ParseInt(literal)
       case Some(n) => n
       case None => if float.Some? then float.value else 0)
    case Some(Str(s)) => (match ParseInt(Trim(s)) case Some(n) => n case None => 0)
    case _ => 0
  }

  lemma PriorityOfInteger(n: Int64)
    ensures PriorityOf(Some(Integer(n))) == n
  {
    ParseItoa(n);
  }

  /** A priority written as a string counts as its number, with any white space around it. */
  lemma PriorityOfText(s: string, n: Int64)
    requires Trim(s) == Itoa(n)
    ensures PriorityOf(Some(Str(s))) == n && PriorityOf(Some(Str(Itoa(n)))) == n
  {
    ParseItoa(n);
    ItoaIsTrimmed(n);
  }

  /** A number with a fraction or an exponent counts as what it truncates to, if it converts, and
      everything else that is no number counts as nothing. */
  lemma PriorityOfOthers(entry: Json)
    ensures entry.Number? && ('.' in entry.literal || 'e' in entry.literal || 'E' in entry.literal) ==>
              PriorityOf(Some(entry)) == if entry.float.Some? then entry.float.value else 0
    ensures !entry.Number? && !entry.Str? ==> PriorityOf(Some(entry)) == 0
    ensures PriorityOf(None) == 0
  {
    if entry.Number? && ('.' in entry.literal || 'e' in entry.literal || 'E' in entry.literal) {
      NoInteger(entry.literal);
    }
  }

  lemma NoInteger(literal: string)
    requires '.' in literal || 'e' in literal || 'E' in literal
    ensures ParseInt(literal).None?
  {
    var i :| 0 <= i < |literal| && literal[i] in {'.', 'e', 'E'};
    assert literal[0] == '-' || literal[0] == '+' ==> i > 0 && literal[1..][i - 1] == literal[i];
  }

  // ----- the override marker -----

  const MARKER_KEY := "_cpa_auto_refresh_quota_priority_override"
  const MARKER_OWNER := "cpa-auto-refresh-quota"
  const MARKER_VERSION: Int64 := 1

  datatype Marker = Marker(
    version: Int64,
    owner: string,
    runID: string,
    authIndex: string,
    overridePriority: Int64,
    originalPresent: bool,
    original: Option<Json>,
    originalFilePriority: Int64)

  datatype Error =
    | UnreadableCredential
    | MarkerAlreadyPresent
    | UndecodableMarker
    | UnsupportedMarker
    | MissingOriginal
    | AnotherTransaction

  function EncodeMarker(m: Marker): Json {
    var always := map[
      "version" := Integer(m.version),
      "owner" := Str(m.owner),
      "run_id" := Str(m.runID),
      "auth_index" := Str(m.authIndex),
      "override_priority" := Integer(m.overridePriority),
      "original_priority_present" := Bool(m.originalPresent),
      "original_file_priority" := Integer(m.originalFilePriority)];
    Object(if m.original.Some? then always["original_priority" := m.original.value] else always)
  }

  function Member(members: Fields, key: string): Json {
    if key in members then members[key] else Null
  }

  /** A struct field of type int: an absent or null member leaves the zero value. */
  function IntMember(members: Fields, key: string): Option<Int64> {
    match Member(members, key)
    case Null => Some(0)
    case Number(literal, _) => ParseInt(literal)
    case _ => None
  }

  function StringMember(members: Fields, key: string): Option<string> {
    match Member(members, key)
    case Null => Some("")
    case Str(s) => Some(s)
    case _ => None
  }

  function BoolMember(members: Fields, key: string): Option<bool> {
    match Member(members, key)
    case Null => Some(false)
    case Bool(b) => Some(b)
    case _ => None
  }

  /** json.Unmarshal into the marker struct; a top-level null leaves the zero struct. */
  function ReadMarker(raw: Json): Option<Marker> {
    if raw.Null? then Some(Marker(0, "", "", "", 0, false, None, 0))
    else if !raw.Object? then None
    else
      var f := raw.members;
      var version := IntMember(f, "version");
      var owner := StringMember(f, "owner");
      var runID := StringMember(f, "run_id");
      var authIndex := StringMember(f, "auth_index");
      var overridePriority := IntMember(f, "override_priority");
      var present := BoolMember(f, "original_priority_present");
      var filePriority := IntMember(f, "original_file_priority");
      if version.None? || owner.None? || runID.None? || authIndex.None? || overridePriority.None?
         || present.None? || filePriority.None? then None
      else
        var original := if "original_priority" in f then Some(f["original_priority"]) else None;
        Some(Marker(version.value, owner.value, runID.value, authIndex.value, overridePriority.value,
                    present.value, original, filePriority.value))
  }

  predicate Supported(m: Marker) {
    m.version == MARKER_VERSION && m.owner == MARKER_OWNER && !Blank(m.authIndex)
  }

  /** decodePriorityOverrideMarker */
  function DecodeMarker(raw: Json): Result<Marker, Error> {
    match ReadMarker(raw)
    case None => Err(UndecodableMarker)
    case Some(m) =>
      if !Supported(m) then Err(UnsupportedMarker)
      else if m.originalPresent && m.original.None? then Err(MissingOriginal)
      else Ok(m)
  }

  /** Writing a marker out and reading it back loses nothing, for every marker. */
  lemma ReadEncodedMarker(m: Marker)
    ensures ReadMarker(EncodeMarker(m)) == Some(m)
  {
    MarkerMembers(m);
    ParseItoa(m.version);
    ParseItoa(m.overridePriority);
    ParseItoa(m.originalFilePriority);
  }

  /** The eight member names are different strings, so each is found as it was written. */
  lemma MarkerMembers(m: Marker)
    ensures var f := EncodeMarker(m).members;
      && Member(f, "version") == Integer(m.version)
      && Member(f, "owner") == Str(m.owner)
      && Member(f, "run_id") == Str(m.runID)
      && Member(f, "auth_index") == Str(m.authIndex)
      && Member(f, "override_priority") == Integer(m.overridePriority)
      && Member(f, "original_priority_present") == Bool(m.originalPresent)
      && Member(f, "original_file_priority") == Integer(m.originalFilePriority)
      && ("original_priority" in f <==> m.original.Some?)
      && (m.original.Some? ==> f["original_priority"] == m.original.value)
  {
    hide Integer;
    assert |"version"| == 7 && |"owner"| == 5 && |"run_id"| == 6 && |"auth_index"| == 10;
    assert |"override_priority"| == |"original_priority"| == 17;
    assert "override_priority"[1] == 'v' && "original_priority"[1] == 'r';
    assert |"original_priority_present"| == 25 && |"original_file_priority"| == 22;
  }

  const MARKER_MEMBERS := {"version", "owner", "run_id", "auth_index", "override_priority", "original_priority_present",
                           "original_priority", "original_file_priority"}

  /** Whatever else a marker object holds does not matter. */
  lemma OtherMembersAreIgnored(members: Fields, key: string, value: Json)
    requires key !in MARKER_MEMBERS
    ensures ReadMarker(Object(members[key := value])) == ReadMarker(Object(members))
  {
    hide ParseInt;
    assert forall k | k in MARKER_MEMBERS :: Member(members[key := value], k) == Member(members, k);
    hide Member;
  }

  /** What a marker object lacks is zero. */
  lemma LackingMembersAreZero()
    ensures ReadMarker(Object(map[])) == Some(Marker(0, "", "", "", 0, false, None, 0))
  {
  }

  /** An encoded marker is accepted exactly when it is ours, names a credential, and carries
      the original it promises. */
  lemma DecodeEncodedMarker(m: Marker)
    ensures DecodeMarker(EncodeMarker(m)) == Ok(m)
       <==> Supported(m) && (m.originalPresent ==> m.original.Some?)
    ensures DecodeMarker(EncodeMarker(m)).Ok? ==> DecodeMarker(EncodeMarker(m)) == Ok(m)
  {
    ReadEncodedMarker(m);
  }

  predicate HasMarker(doc: Doc) { Entry(doc, MARKER_KEY).Some? }

  /** The marker a document carries, when it carries one that decodes. */
  function MarkerOf(doc: Doc): Option<Marker> {
    match Entry(doc, MARKER_KEY)
    case None => None
    case Some(raw) => (match DecodeMarker(raw) case Ok(m) => Some(m) case Err(_) => None)
  }
}
