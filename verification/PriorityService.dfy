/**
 Beginning, undoing and recovering a temporary priority, as priority_service.go does it: read,
 compute, compare-and-swap, retry, and wait for the runtime to follow.
 */
module PriorityService {
  import opened Text
  import opened Credential
  import opened Override
  import opened Auths
  import opened Configuration
  import opened History
  import opened CredentialHost

  datatype Lease = Lease(authIndex: string, authID: string, name: string, marker: Marker)

  datatype Failure =
    | NoPhysicalFile
    | NotRead
    | IndexMismatch
    | NameMissing
    | Unsuitable(why: Error)
    | NotSaved
    | NotConfirmed
    | Contended

  /** A runtime read that shows the expected priority for the credential in question. */
  predicate Confirms(e: Event, authIndex: string, authID: string, expected: int) {
    && e.Observe?
    && Trim(e.seen.authIndex) == Trim(authIndex)
    && (Blank(authID) || Trim(e.seen.id) == Trim(authID))
    && e.seen.priority == expected
  }

  /** Some runtime read since instant n shows it. */
  predicate ConfirmedSince(trace: seq<Event>, n: nat, authIndex: string, authID: string, expected: int) {
    exists k :: n <= k < |trace| && Confirms(trace[k], authIndex, authID, expected)
  }

  /** The runtime was read, or denied to be, and then the time was up. */
  predicate GaveUp(trace: seq<Event>, n: nat) {
    exists j, k :: n <= j < k < |trace| && IsRead(trace[j]) && trace[k].Expired?
  }

  /** Confirms exactly when a runtime read during the wait shows the priority, and gives up only
      when the time is up after a read that does not. */
  method WaitForRuntimePriority(host: Host, authIndex: string, authID: string, expected: Int64)
    returns (confirmed: bool)
    requires host.Consistent()
    modifies host`files, host`trace, host`down
    ensures host.Consistent() && old(host.trace) <= host.trace && PassiveFrom(host.trace, |old(host.trace)|)
    ensures confirmed <==> ConfirmedSince(host.trace, |old(host.trace)|, authIndex, authID, expected)
    ensures !confirmed ==> host.down || GaveUp(host.trace, |old(host.trace)|)
    ensures confirmed ==>
              && |host.trace| > |old(host.trace)|
              && Confirms(host.trace[|host.trace| - 1], authIndex, authID, expected)
  {
    hide Valid, RaisesInPlace, After, Trim, IsDown;
    ghost var n := |host.trace|;
    var polls: nat := *;
    while true
      invariant host.Consistent() && old(host.trace) <= host.trace && PassiveFrom(host.trace, n)
      invariant !ConfirmedSince(host.trace, n, authIndex, authID, expected)
      decreases polls
    {
      var r := host.GetRuntimeAuth(authIndex);
      if r.Ok? {
        var auth := r.value;
        if Trim(auth.authIndex) == Trim(authIndex) && (Blank(authID) || Trim(auth.id) == Trim(authID))
           && auth.priority == expected {
          assert Confirms(host.trace[|host.trace| - 1], authIndex, authID, expected);
          return true;
        }
      }
      assert !host.down ==> IsRead(host.trace[|host.trace| - 1]);
      var again := host.WaitPriorityPoll(polls);
      if !again {
        assert host.trace[|host.trace| - 1].Expired?;
        return false;
      }
      polls := polls - 1;
    }
  }

  method GetAuthFileUntil(host: Host, authIndex: string) returns (r: Result<AuthFile, HostError>)
    requires host.Consistent()
    modifies host`files, host`trace, host`down
    ensures host.Consistent() && old(host.trace) <= host.trace && PassiveFrom(host.trace, |old(host.trace)|)
    ensures r.Ok? ==>
              && Trim(authIndex) in host.pathOf && r.value.path == host.PathFor(authIndex)
              && Trim(r.value.authIndex) == Trim(authIndex) && !Blank(r.value.name)
              && r.value.path in host.files && r.value.json == r.value.expected == host.files[r.value.path]
              && |host.trace| > |old(host.trace)| && GoodFetch(host.trace[|host.trace| - 1], authIndex)
              && host.trace[|host.trace| - 1].path == r.value.path && host.trace[|host.trace| - 1].json == r.value.json
    ensures r.Err? ==>
              host.down || (Unavailable(host.trace, |old(host.trace)|, authIndex)
                            && ExpiredSince(host.trace, |old(host.trace)|))
  {
    hide Valid, RaisesInPlace, After, Trim, IsDown;
    var polls: nat := *;
    while true
      invariant host.Consistent() && old(host.trace) <= host.trace && PassiveFrom(host.trace, |old(host.trace)|)
      decreases polls
    {
      label before:
      r := host.GetAuthFile(authIndex);
      if r.Ok? {
        return;
      }
      ghost var asked := host.trace;
      var again := host.WaitPriorityPoll(polls);
      if !again {
        if !host.down {
          UnavailableLater(asked, host.trace, |old(host.trace)|, |old@before(host.trace)|, authIndex);
        }
        return;
      }
      polls := polls - 1;
    }
  }

  // ----- why a file could not be edited -----

  lemma WholeTrace(start: Files, trace: seq<Event>)
    ensures At(start, trace, |trace|) == After(start, trace)
  {
    assert trace[..|trace|] == trace;
  }

  /** Outside writes to a file at these instants since n, one after the other. */
  predicate RewrittenAt(trace: seq<Event>, n: nat, path: string, at: seq<nat>) {
    && (forall i | 0 <= i < |at| :: n <= at[i] < |trace| && IsOutside(trace[at[i]]) && trace[at[i]].path == path)
    && (forall i, j | 0 <= i < j < |at| :: at[i] < at[j])
  }

  /** Since instant n outside writers have written a file that many times at least. */
  ghost predicate Rewritten(trace: seq<Event>, n: nat, path: string, times: nat) {
    exists at: seq<nat> :: |at| == times && RewrittenAt(trace, n, path, at)
  }

  /** While the plugin only looks, it is an outside writer who changes a file. */
  lemma {:induction false} ChangedByOutsider(start: Files, trace: seq<Event>, n: nat, m: nat, path: string)
    returns (k: nat)
    requires Valid(start, trace) && n <= m <= |trace| && PassiveBetween(trace, n, m)
    requires path in At(start, trace, n) && path in At(start, trace, m)
    requires At(start, trace, n)[path] != At(start, trace, m)[path]
    ensures n <= k < m && IsOutside(trace[k]) && trace[k].path == path
    decreases m
  {
    StepAt(start, trace, m - 1);
    hide Valid, At;
    if trace[m - 1].Write? && trace[m - 1].path == path {
      k := m - 1;
    } else {
      k := ChangedByOutsider(start, trace, n, m - 1, path);
    }
  }

  /** A save that finds the file changed since it was read: one more outside write. */
  lemma OneMoreRewrite(start: Files, read: seq<Event>, more: seq<Event>, n: nat, path: string, at: seq<nat>)
    returns (at': seq<nat>)
    requires Valid(start, more) && n <= |read| && read <= more && PassiveFrom(more, |read|)
    requires path in After(start, read) && path in After(start, more)
    requires After(start, read)[path] != After(start, more)[path]
    requires RewrittenAt(read, n, path, at)
    ensures |at'| == |at| + 1 && RewrittenAt(more, n, path, at')
  {
    WholeTrace(start, read);
    WholeTrace(start, more);
    AtPrefix(start, read, more, |read|);
    hide Valid, After, At;
    var k := ChangedByOutsider(start, more, |read|, |more|, path);
    at' := at + [k];
    assert forall i | 0 <= i < |at| :: more[at[i]] == read[at[i]];
  }

  /** Since instant n the credential's file has been read, at that path. */
  predicate ReadAs(trace: seq<Event>, n: nat, authIndex: string, path: string) {
    exists k :: n <= k < |trace| && GoodFetch(trace[k], authIndex) && trace[k].path == path
  }

  lemma ReadStays(trace: seq<Event>, more: seq<Event>, n: nat, authIndex: string, path: string)
    requires trace <= more && ReadAs(trace, n, authIndex, path)
    ensures ReadAs(more, n, authIndex, path)
  {
    hide Trim;
    var k :| n <= k < |trace| && GoodFetch(trace[k], authIndex) && trace[k].path == path;
    assert more[k] == trace[k];
  }

  /** What kept the plugin from editing a credential's file: the file could not be read; the save
      was denied; or outside writers changed the file three times in between. */
  ghost predicate FileRefused(trace: seq<Event>, n: nat, authIndex: string, path: string, why: Failure) {
    match why
    case NotRead => Unavailable(trace, n, authIndex)
    case NotSaved => ReadAs(trace, n, authIndex, path) && (Blank(authIndex) || DeniedSince(trace, n, ForSave(path)))
    case Contended => ReadAs(trace, n, authIndex, path) && Rewritten(trace, n, path, 3)
    case _ => false
  }

  /** A begin fails for one of those reasons or because the file already carries a marker. */
  ghost predicate BeginRefused(trace: seq<Event>, n: nat, authIndex: string, why: Failure) {
    || (exists path :: FileRefused(trace, n, authIndex, path, why))
    || (why == Unsuitable(MarkerAlreadyPresent)
        && exists k :: n <= k < |trace| && GoodFetch(trace[k], authIndex) && HasMarker(trace[k].json.doc))
  }

  /** The events from n on, of which the one at `at` (if any) is a commit and the rest passive. */
  predicate OneCommitFrom(trace: seq<Event>, n: nat, at: Option<nat>) {
    && (at.Some? ==> n <= at.value < |trace| && trace[at.value].Write? && !trace[at.value].cause.Outside?)
    && forall i | n <= i < |trace| && at != Some(i) :: Passive(trace[i])
  }

  // ----- begin -----

  /** A lease comes back exactly when the override was committed, exactly once, whether or not
      the runtime then confirmed it. Success without a lease means nothing had to be done. */
  method BeginPriorityOverride(host: Host, cfg: Config, runID: string, auth: Auth, to: Int64)
    returns (lease: Option<Lease>, err: Option<Failure>, ghost at: Option<nat>)
    requires host.Consistent()
    modifies host`files, host`trace, host`down
    ensures host.Consistent() && old(host.trace) <= host.trace
    ensures OneCommitFrom(host.trace, |old(host.trace)|, at)
    ensures lease.Some? <==> at.Some?
    ensures lease.Some? ==>
              && Trim(auth.authIndex) in host.pathOf
              && host.trace[at.value].path == host.PathFor(auth.authIndex)
              && host.trace[at.value].cause == Raise(auth.authIndex, runID, to, lease.value.marker)
              && lease.value.authIndex == auth.authIndex && lease.value.authID == auth.id
    ensures lease.Some? && err.None? ==>
              && at.value < |host.trace| - 1
              && Confirms(host.trace[|host.trace| - 1], auth.authIndex, auth.id, to)
    ensures lease.Some? ==>
              (err.None? <==> ConfirmedSince(host.trace, at.value + 1, auth.authIndex, auth.id, to))
    ensures lease.Some? && err.Some? ==>
              err == Some(NotConfirmed) && (host.down || GaveUp(host.trace, at.value + 1))
    ensures lease.None? && err.None? <==> !cfg.temporaryPriority || auth.priority >= to
    ensures lease.None? && err.None? ==> host.trace == old(host.trace)
    ensures err == Some(NoPhysicalFile) <==> cfg.temporaryPriority && auth.priority < to && !HasPhysicalFile(auth)
    ensures err == Some(NoPhysicalFile) ==> host.trace == old(host.trace)
    ensures lease.None? && err.Some? && err != Some(NoPhysicalFile) ==>
              host.down || BeginRefused(host.trace, |old(host.trace)|, auth.authIndex, err.value)
  {
    hide Justified, Valid, RaisesInPlace, After, Trim, HasPhysicalFile, Confirms, ConfirmedSince, IsDown, RewrittenAt,
         BeginRefused, GaveUp, ReadAs;
    at := None;
    if !cfg.temporaryPriority || auth.priority >= to {
      return None, None, None;
    }
    if !HasPhysicalFile(auth) {
      return None, Some(NoPhysicalFile), None;
    }
    ghost var n := |host.trace|;
    ghost var path: string, rewrites: seq<nat> := "", [];
    NeverRewritten(host.trace, n, path);
    var attempt := 0;
    while attempt < 3
      invariant host.Consistent() && old(host.trace) <= host.trace && PassiveFrom(host.trace, n)
      invariant at.None? && 0 <= attempt <= 3
      invariant |rewrites| == attempt && RewrittenAt(host.trace, n, path, rewrites)
      invariant attempt > 0 ==>
                  && ReadAs(host.trace, n, auth.authIndex, path)
                  && Trim(auth.authIndex) in host.pathOf && path == host.PathFor(auth.authIndex)
    {
      var failure;
      lease, failure, path, rewrites := TryOverride(host, runID, auth, to, n, path, rewrites);
      if lease.Some? {
        at := Some(|host.trace| - 1);
        label committed:
        var confirmed := WaitForRuntimePriority(host, auth.authIndex, auth.id, to);
        CommitThenWait(old@committed(host.trace), host.trace, n);
        err := if confirmed then None else Some(NotConfirmed);
        return;
      }
      if failure.Some? {
        return None, failure, None;
      }
      attempt := attempt + 1;
    }
    ContendedIsRefused(host.trace, n, auth.authIndex, path, rewrites);
    return None, Some(Contended), None;
  }

  /** One attempt: a lease if the override is committed; neither lease nor failure if an outside
      writer has changed the file since it was read. */
  method TryOverride(host: Host, runID: string, auth: Auth, to: Int64, ghost n: nat, ghost path: string,
                     ghost rewrites: seq<nat>)
    returns (lease: Option<Lease>, failure: Option<Failure>, ghost path': string, ghost rewrites': seq<nat>)
    requires host.Consistent() && n <= |host.trace| && PassiveFrom(host.trace, n)
    requires RewrittenAt(host.trace, n, path, rewrites)
    requires rewrites != [] ==> Trim(auth.authIndex) in host.pathOf && path == host.PathFor(auth.authIndex)
    modifies host`files, host`trace, host`down
    ensures host.Consistent() && old(host.trace) <= host.trace
    ensures lease.Some? ==>
              && failure.None? && n < |host.trace| && PassiveBetween(host.trace, n, |host.trace| - 1)
              && Trim(auth.authIndex) in host.pathOf && host.trace[|host.trace| - 1].Write?
              && host.trace[|host.trace| - 1].path == host.PathFor(auth.authIndex)
              && host.trace[|host.trace| - 1].cause == Raise(auth.authIndex, runID, to, lease.value.marker)
              && lease.value.authIndex == auth.authIndex && lease.value.authID == auth.id
    ensures lease.None? ==> PassiveFrom(host.trace, n)
    ensures failure.Some? ==>
              && lease.None? && failure != Some(NoPhysicalFile)
              && (host.down || BeginRefused(host.trace, n, auth.authIndex, failure.value))
    ensures lease.None? && failure.None? ==>
              && Trim(auth.authIndex) in host.pathOf && path' == host.PathFor(auth.authIndex)
              && ReadAs(host.trace, n, auth.authIndex, path')
              && |rewrites'| == |rewrites| + 1 && RewrittenAt(host.trace, n, path', rewrites')
  {
    hide BuildOverride, Justified, Valid, RaisesInPlace, After, Trim, IsDown, RewrittenAt, Unavailable, DeniedSince,
         HasMarker, BeginRefused, FileRefused, ReadAs, PassiveFrom, PassiveBetween, BadFetch, Blank, Passive;
    lease, failure, path', rewrites' := None, None, path, rewrites;
    ghost var before := host.trace;
    var got := host.GetAuthFile(auth.authIndex);
    if got.Err? {
      PassiveStays(before, host.trace, n);
      if !host.down {
        UnavailableIsRefused(host.trace, n, |before|, auth.authIndex);
      }
      failure := Some(NotRead);
      return;
    }
    var file := got.value;
    ghost var read := host.trace;
    path' := file.path;
    JustRead(before, read, n, auth.authIndex);
    if rewrites == [] {
      NeverRewritten(read, n, path');
    } else {
      RewrittenLater(before, read, n, path', rewrites);
    }
    if !Blank(file.authIndex) && Trim(file.authIndex) != Trim(auth.authIndex) {
      failure := Some(IndexMismatch);
      return;
    }
    if Blank(file.name) {
      failure := Some(NameMissing);
      return;
    }
    var built := BuildPriorityOverrideJSON(file.json, auth.authIndex, runID, to);
    if built.Err? {
      MarkedIsRefused(read, n, auth.authIndex, runID, to);
      failure := Some(Unsuitable(built.error));
      return;
    }
    var (modified, marker) := built.value;
    RaiseIsJustified(file.path, file.json, auth.authIndex, file.authIndex, runID, to, modified, marker);
    file := file.(json := modified);
    var errSave := host.SaveAuthFile(file, Raise(auth.authIndex, runID, to, marker));
    if errSave.None? {
      PassiveThenCommit(read, host.trace, n);
      lease := Some(Lease(auth.authIndex, auth.id, file.name, marker));
      return;
    }
    PassiveStays(read, host.trace, n);
    ReadStays(read, host.trace, n, auth.authIndex, path');
    if errSave.value == FileChanged {
      rewrites' := OneMoreRewrite(host.start, read, host.trace, n, path', rewrites);
      return;
    }
    if !host.down {
      SameBlank(file.authIndex, auth.authIndex);
      NotSavedIsRefused(host.trace, n, |read|, auth.authIndex, path');
    }
    failure := Some(NotSaved);
  }

  lemma PassiveStays(trace: seq<Event>, more: seq<Event>, n: nat)
    requires trace <= more && PassiveFrom(trace, n) && PassiveFrom(more, |trace|)
    ensures PassiveFrom(more, n)
  {
    forall i | n <= i < |more|
      ensures Passive(more[i])
    {
      if i < |trace| {
        assert more[i] == trace[i];
      }
    }
  }

  lemma PassiveThenCommit(trace: seq<Event>, more: seq<Event>, n: nat)
    requires trace <= more && |trace| < |more| && PassiveFrom(trace, n) && PassiveBetween(more, |trace|, |more| - 1)
    ensures PassiveBetween(more, n, |more| - 1)
  {
    forall i | n <= i < |more| - 1
      ensures Passive(more[i])
    {
      if i < |trace| {
        assert more[i] == trace[i];
      }
    }
  }

  lemma CommitThenWait(committed: seq<Event>, more: seq<Event>, n: nat)
    requires committed <= more && n < |committed| && PassiveBetween(committed, n, |committed| - 1)
    requires PassiveFrom(more, |committed|)
    ensures more[|committed| - 1] == committed[|committed| - 1]
    ensures forall i | n <= i < |more| && i != |committed| - 1 :: Passive(more[i])
  {
    forall i | n <= i < |more| && i != |committed| - 1
      ensures Passive(more[i])
    {
      if i < |committed| {
        assert more[i] == committed[i];
      }
    }
  }

  /** The file has just been read, and nothing else has happened. */
  lemma JustRead(trace: seq<Event>, more: seq<Event>, n: nat, authIndex: string)
    requires trace <= more && n <= |trace| < |more| && PassiveFrom(trace, n) && PassiveFrom(more, |trace|)
    requires GoodFetch(more[|more| - 1], authIndex)
    ensures PassiveFrom(more, n) && ReadAs(more, n, authIndex, more[|more| - 1].path)
  {
    PassiveStays(trace, more, n);
  }

  lemma UnavailableIsRefused(trace: seq<Event>, n: nat, m: nat, authIndex: string)
    requires Unavailable(trace, m, authIndex) && n <= m
    ensures BeginRefused(trace, n, authIndex, NotRead)
  {
    UnavailableEarlier(trace, n, m, authIndex);
    assert FileRefused(trace, n, authIndex, "", NotRead);
  }

  lemma MarkedIsRefused(trace: seq<Event>, n: nat, authIndex: string, runID: string, to: Int64)
    requires n < |trace| && GoodFetch(trace[|trace| - 1], authIndex)
    requires BuildOverride(trace[|trace| - 1].json, authIndex, runID, to).Err?
    ensures BeginRefused(trace, n, authIndex, Unsuitable(BuildOverride(trace[|trace| - 1].json, authIndex, runID, to).error))
  {
    BuildsUnmarked(trace[|trace| - 1].json, authIndex, runID, to);
  }

  lemma ContendedIsRefused(trace: seq<Event>, n: nat, authIndex: string, path: string, rewrites: seq<nat>)
    requires |rewrites| == 3 && RewrittenAt(trace, n, path, rewrites) && ReadAs(trace, n, authIndex, path)
    ensures FileRefused(trace, n, authIndex, path, Contended) && BeginRefused(trace, n, authIndex, Contended)
  {
    assert FileRefused(trace, n, authIndex, path, Contended);
  }

  lemma NeverRewritten(trace: seq<Event>, n: nat, path: string)
    ensures RewrittenAt(trace, n, path, [])
  {
  }

  lemma RewrittenLater(trace: seq<Event>, more: seq<Event>, n: nat, path: string, at: seq<nat>)
    requires RewrittenAt(trace, n, path, at) && trace <= more
    ensures RewrittenAt(more, n, path, at)
  {
    assert forall i | 0 <= i < |at| :: more[at[i]] == trace[at[i]];
  }

  lemma UnavailableLater(trace: seq<Event>, more: seq<Event>, n: nat, m: nat, authIndex: string)
    requires Unavailable(trace, m, authIndex) && n <= m && trace <= more && n <= |trace|
    requires |more| > |trace| && more[|more| - 1].Expired?
    ensures Unavailable(more, n, authIndex) && ExpiredSince(more, n)
  {
    hide BadFetch;
    assert forall k | 0 <= k < |trace| :: more[k] == trace[k];
  }

  lemma UnavailableEarlier(trace: seq<Event>, n: nat, m: nat, authIndex: string)
    requires Unavailable(trace, m, authIndex) && n <= m
    ensures Unavailable(trace, n, authIndex)
  {
    hide BadFetch;
  }

  lemma NotSavedIsRefused(trace: seq<Event>, n: nat, m: nat, authIndex: string, path: string)
    requires n <= m && ReadAs(trace, n, authIndex, path)
    requires Blank(authIndex) || DeniedSince(trace, m, ForSave(path))
    ensures FileRefused(trace, n, authIndex, path, NotSaved) && BeginRefused(trace, n, authIndex, NotSaved)
  {
    assert FileRefused(trace, n, authIndex, path, NotSaved);
  }

  lemma RaiseIsJustified(path: string, source: Raw, authIndex: string, fileIndex: string, runID: string, to: Int64,
                         modified: Raw, marker: Marker)
    requires BuildOverride(source, authIndex, runID, to) == Ok((modified, marker))
    requires Trim(fileIndex) == Trim(authIndex)
    ensures modified.doc.Readable?
    ensures !Blank(fileIndex) ==> Justified(Write(path, source, modified, Raise(authIndex, runID, to, marker)))
  {
  }

  // ----- restore -----

  /** The priority that the plugin waits for after an undo. */
  function Awaited(e: Event): Int64
    requires IsUndo(e)
  {
    var r := RestoreOverride(e.before, Some(e.cause.expectation));
    if r.Ok? then r.value.expected else 0
  }

  /** The undo at instant `at` was confirmed by a runtime read before instant `until`. */
  predicate Confirmed(trace: seq<Event>, at: nat, until: nat, authIndex: string, authID: string) {
    && at < |trace| && IsUndo(trace[at])
    && exists k :: at < k < until && k < |trace| && Confirms(trace[k], authIndex, authID, Awaited(trace[at]))
  }

  lemma ConfirmedInWait(trace: seq<Event>, at: nat, authIndex: string, authID: string)
    requires at < |trace| && IsUndo(trace[at])
    ensures Confirmed(trace, at, |trace|, authIndex, authID)
            <==> ConfirmedSince(trace, at + 1, authIndex, authID, Awaited(trace[at]))
  {
    hide Confirms, Awaited;
  }

  /** What a restore that succeeds has done since instant n: the file was seen without the marker
      at instant `free`, with the content the algebra prescribes for what was read, something was
      saved if that was needed, and the runtime then showed that priority. */
  ghost predicate Restored(start: Files, trace: seq<Event>, n: nat, path: string, authIndex: string, authID: string,
                           marker: Marker, saved: bool, free: nat, source: Raw)
  {
    && n <= free <= |trace| && n < |trace| && FreeAt(start, trace, path, free)
    && RestoreOverride(source, Some(marker)).Ok?
    && var r := RestoreOverride(source, Some(marker)).value;
    && At(start, trace, free)[path] == r.raw && saved == r.needsSave
    && Confirms(trace[|trace| - 1], authIndex, authID, r.expected)
  }

  lemma ConfirmedIsRestored(start: Files, done: seq<Event>, trace: seq<Event>, n: nat, path: string, authIndex: string,
                            authID: string, marker: Marker, r: Restoration, source: Raw)
    requires n <= |done| && done <= trace && n < |trace| && RestoreOverride(source, Some(marker)) == Ok(r)
    requires path in After(start, done) && After(start, done)[path] == r.raw
    requires Confirms(trace[|trace| - 1], authIndex, authID, r.expected)
    ensures Restored(start, trace, n, path, authIndex, authID, marker, r.needsSave, |done|, source)
  {
    hide After, Confirms, RestoreOverride, HasMarker;
    RestoredIsFree(source, marker, r);
    WholeTrace(start, done);
    AtPrefix(start, done, trace, |done|);
  }

  /** The wait that ends a restore, once the file has the content the algebra prescribes. */
  method AwaitRestored(host: Host, authIndex: string, authID: string, r: Restoration, ghost n: nat, ghost path: string,
                       ghost marker: Marker, ghost source: Raw)
    returns (err: Option<Failure>)
    requires host.Consistent() && n <= |host.trace| && RestoreOverride(source, Some(marker)) == Ok(r)
    requires path in host.files && host.files[path] == r.raw
    modifies host`files, host`trace, host`down
    ensures host.Consistent() && old(host.trace) <= host.trace && PassiveFrom(host.trace, |old(host.trace)|)
    ensures err.None? <==> ConfirmedSince(host.trace, |old(host.trace)|, authIndex, authID, r.expected)
    ensures err.None? ==>
              Restored(host.start, host.trace, n, path, authIndex, authID, marker, r.needsSave, |old(host.trace)|, source)
    ensures err.Some? ==>
              && err == Some(NotConfirmed)
              && (host.down || (GaveUp(host.trace, |old(host.trace)|) && GaveUp(host.trace, n)))
  {
    hide RestoreOverride, Valid, RaisesInPlace, After, Trim, Confirms, ConfirmedSince, Restored;
    var confirmed := WaitForRuntimePriority(host, authIndex, authID, r.expected);
    if confirmed {
      ConfirmedIsRestored(host.start, old(host.trace), host.trace, n, path, authIndex, authID, marker, r, source);
    }
    err := if confirmed then None else Some(NotConfirmed);
  }

  /** What kept the plugin from undoing: what kept it from editing the file, until the time was up
      if it could not be read; or no confirmation until the time was up. */
  ghost predicate UndoRefused(trace: seq<Event>, n: nat, authIndex: string, path: string, why: Failure) {
    || (FileRefused(trace, n, authIndex, path, why) && (why.NotRead? ==> ExpiredSince(trace, n)))
    || (why.NotConfirmed? && GaveUp(trace, n))
  }

  /** A restore fails for one of those reasons or because the file it read refuses the marker. */
  ghost predicate RestoreRefused(trace: seq<Event>, n: nat, authIndex: string, path: string, marker: Marker, why: Failure) {
    || UndoRefused(trace, n, authIndex, path, why)
    || (why.Unsuitable? && Unrestorable(trace, n, authIndex, path, marker, why.why))
  }

  predicate Unrestorable(trace: seq<Event>, n: nat, authIndex: string, path: string, marker: Marker, e: Error) {
    exists k :: n <= k < |trace| && GoodFetch(trace[k], authIndex) && trace[k].path == path
                && RestoreOverride(trace[k].json, Some(marker)) == Err(e)
  }

  /** At most one commit, an undo of the marker, and none when the attempts run out; success means
      the file is restored, and failure after a commit that the runtime did not confirm it. Every
      failure has its reason in the history, unless the plugin is down. */
  method RestorePriorityFile(host: Host, authIndex: string, authID: string, marker: Marker)
    returns (external: bool, saved: bool, err: Option<Failure>,
             ghost at: Option<nat>, ghost free: nat, ghost source: Raw)
    requires host.Consistent() && Trim(authIndex) in host.pathOf
    requires Remembers(host.start, host.trace, host.PathFor(authIndex), marker)
    modifies host`files, host`trace, host`down
    ensures host.Consistent() && old(host.trace) <= host.trace
    ensures OneCommitFrom(host.trace, |old(host.trace)|, at)
    ensures at.Some? ==>
              && host.trace[at.value].path == host.PathFor(authIndex)
              && host.trace[at.value].cause == Undo(marker)
    ensures err.None? ==>
              && (saved <==> at.Some?)
              && Restored(host.start, host.trace, |old(host.trace)|, host.PathFor(authIndex), authIndex, authID, marker,
                          saved, free, source)
              && external == RestoreOverride(source, Some(marker)).value.external
    ensures err.Some? && at.Some? ==>
              err == Some(NotConfirmed) && (host.down || GaveUp(host.trace, at.value + 1))
    ensures at.Some? ==> (err.None? <==> Confirmed(host.trace, at.value, |host.trace|, authIndex, authID))
    ensures err.Some? ==>
              || host.down
              || RestoreRefused(host.trace, |old(host.trace)|, authIndex, host.PathFor(authIndex), marker, err.value)
  {
    hide ConfirmedSince, Confirmed, RestoreOverride, Justified, Valid, RaisesInPlace, After, Remembers, Trim, HasMarker,
         Confirms, PassiveFrom, PassiveBetween, Restored, GaveUp, IsDown, RewrittenAt, RestoreRefused, ReadAs;
    external, saved, at, free := false, false, None, 0;
    ghost var path, n := host.PathFor(authIndex), |host.trace|;
    ghost var rewrites: seq<nat> := [];
    NeverRewritten(host.trace, n, path);
    NothingYet(host.trace);
    source := *;
    var attempt := 0;
    while attempt < 3
      invariant host.Consistent() && old(host.trace) <= host.trace && PassiveFrom(host.trace, n)
      invariant Remembers(host.start, host.trace, path, marker)
      invariant 0 <= attempt <= 3 && |rewrites| == attempt && RewrittenAt(host.trace, n, path, rewrites)
      invariant attempt > 0 ==> ReadAs(host.trace, n, authIndex, path)
    {
      var restoration, committed, failure;
      restoration, committed, failure, source, rewrites := TryUndo(host, authIndex, marker, n, rewrites);
      if failure.Some? {
        PassiveIsNoCommit(host.trace, n);
        return false, false, failure, None, 0, source;
      }
      if restoration.Some? {
        var r := restoration.value;
        free := |host.trace|;
        ghost var done := host.trace;
        err := AwaitRestored(host, authIndex, authID, r, n, path, marker, source);
        if committed {
          at := Some(|done| - 1);
          CommitThenWait(done, host.trace, n);
          ConfirmedInWait(host.trace, at.value, authIndex, authID);
        } else {
          PassiveStays(done, host.trace, n);
          PassiveIsNoCommit(host.trace, n);
        }
        if err.Some? && !host.down {
          UnconfirmedIsRefused(host.trace, n, authIndex, path, marker);
        }
        return r.external && err.None?, committed && err.None?, err, at, free, source;
      }
      attempt := attempt + 1;
    }
    ContendedIsRefused(host.trace, n, authIndex, path, rewrites);
    RefusedFile(host.trace, n, authIndex, path, marker, Contended);
    PassiveIsNoCommit(host.trace, n);
    return false, false, Some(Contended), None, 0, source;
  }

  /** One attempt: what the algebra prescribes for the file that was read, with the file in that
      state; or a failure; or neither, if an outside writer has changed the file since. */
  method TryUndo(host: Host, authIndex: string, marker: Marker, ghost n: nat, ghost rewrites: seq<nat>)
    returns (restoration: Option<Restoration>, committed: bool, failure: Option<Failure>,
             ghost source: Raw, ghost rewrites': seq<nat>)
    requires host.Consistent() && n <= |host.trace| && PassiveFrom(host.trace, n) && Trim(authIndex) in host.pathOf
    requires Remembers(host.start, host.trace, host.PathFor(authIndex), marker)
    requires RewrittenAt(host.trace, n, host.PathFor(authIndex), rewrites)
    modifies host`files, host`trace, host`down
    ensures host.Consistent() && old(host.trace) <= host.trace
    ensures restoration.Some? ==>
              && failure.None? && n < |host.trace|
              && RestoreOverride(source, Some(marker)) == Ok(restoration.value) && committed == restoration.value.needsSave
              && host.PathFor(authIndex) in host.files && host.files[host.PathFor(authIndex)] == restoration.value.raw
    ensures committed ==>
              && restoration.Some? && PassiveBetween(host.trace, n, |host.trace| - 1)
              && host.trace[|host.trace| - 1]
                 == Write(host.PathFor(authIndex), source, restoration.value.raw, Undo(marker))
    ensures !committed ==> PassiveFrom(host.trace, n)
    ensures failure.Some? ==>
              || host.down
              || RestoreRefused(host.trace, n, authIndex, host.PathFor(authIndex), marker, failure.value)
    ensures restoration.None? && failure.None? ==>
              && ReadAs(host.trace, n, authIndex, host.PathFor(authIndex))
              && Remembers(host.start, host.trace, host.PathFor(authIndex), marker)
              && |rewrites'| == |rewrites| + 1 && RewrittenAt(host.trace, n, host.PathFor(authIndex), rewrites')
  {
    hide RestoreOverride, Justified, Valid, RaisesInPlace, After, Remembers, Trim, HasMarker, PassiveFrom, PassiveBetween,
         IsDown, RewrittenAt, RestoreRefused, ReadAs, Unavailable, DeniedSince, ExpiredSince, FileRefused;
    restoration, committed, failure, rewrites' := None, false, None, rewrites;
    ghost var path, before := host.PathFor(authIndex), host.trace;
    source := *;
    var got := GetAuthFileUntil(host, authIndex);
    if got.Err? {
      PassiveStays(before, host.trace, n);
      if !host.down {
        UnavailableInTime(host.trace, n, |before|, authIndex, path);
        RefusedUndo(host.trace, n, authIndex, path, marker, NotRead);
      }
      failure := Some(NotRead);
      return;
    }
    var file := got.value;
    ghost var read := host.trace;
    source := file.json;
    JustRead(before, read, n, authIndex);
    RewrittenLater(before, read, n, path, rewrites);
    RememberedStill(host.start, before, read, path, marker);
    var computed := RestorePriorityOverrideJSON(file.json, Some(marker));
    if computed.Err? {
      UnrestorableIsRefused(read, n, authIndex, marker);
      failure := Some(Unsuitable(computed.error));
      return;
    }
    var r := computed.value;
    RestoredIsFree(source, marker, r);
    if !r.needsSave {
      restoration := Some(r);
      return;
    }
    UndoIsJustified(path, source, marker, r);
    file := file.(json := r.raw);
    var errSave := host.SaveAuthFile(file, Undo(marker));
    match errSave {
      case None =>
        PassiveThenCommit(read, host.trace, n);
        restoration, committed := Some(r), true;
      case Some(FileChanged) =>
        PassiveStays(read, host.trace, n);
        ReadStays(read, host.trace, n, authIndex, path);
        RememberedStill(host.start, read, host.trace, path, marker);
        rewrites' := OneMoreRewrite(host.start, read, host.trace, n, path, rewrites);
      case Some(_) =>
        PassiveStays(read, host.trace, n);
        ReadStays(read, host.trace, n, authIndex, path);
        if !host.down {
          SameBlank(file.authIndex, authIndex);
          NotSavedIsRefused(host.trace, n, |read|, authIndex, path);
          RefusedFile(host.trace, n, authIndex, path, marker, NotSaved);
        }
        failure := Some(NotSaved);
    }
  }

  lemma NothingYet(trace: seq<Event>)
    ensures PassiveFrom(trace, |trace|)
  {
  }

  lemma PassiveIsNoCommit(trace: seq<Event>, n: nat)
    requires PassiveFrom(trace, n)
    ensures OneCommitFrom(trace, n, None)
  {
  }

  lemma RememberedStill(start: Files, trace: seq<Event>, more: seq<Event>, path: string, m: Marker)
    requires Remembers(start, trace, path, m) && trace <= more && PassiveFrom(more, |trace|)
    ensures Remembers(start, more, path, m)
  {
    RememberedLater(start, trace, more, path, m);
  }

  lemma UnrestorableIsRefused(trace: seq<Event>, n: nat, authIndex: string, marker: Marker)
    requires n < |trace| && GoodFetch(trace[|trace| - 1], authIndex)
    requires RestoreOverride(trace[|trace| - 1].json, Some(marker)).Err?
    ensures RestoreRefused(trace, n, authIndex, trace[|trace| - 1].path, marker,
                           Unsuitable(RestoreOverride(trace[|trace| - 1].json, Some(marker)).error))
  {
    hide RestoreOverride;
  }

  lemma UnconfirmedIsRefused(trace: seq<Event>, n: nat, authIndex: string, path: string, marker: Marker)
    requires GaveUp(trace, n)
    ensures RestoreRefused(trace, n, authIndex, path, marker, NotConfirmed)
  {
  }

  lemma RefusedUndo(trace: seq<Event>, n: nat, authIndex: string, path: string, marker: Marker, why: Failure)
    requires UndoRefused(trace, n, authIndex, path, why)
    ensures RestoreRefused(trace, n, authIndex, path, marker, why)
  {
  }

  lemma RefusedFile(trace: seq<Event>, n: nat, authIndex: string, path: string, marker: Marker, why: Failure)
    requires FileRefused(trace, n, authIndex, path, why) && !why.NotRead?
    ensures RestoreRefused(trace, n, authIndex, path, marker, why)
  {
    hide FileRefused;
  }

  lemma UnavailableInTime(trace: seq<Event>, n: nat, m: nat, authIndex: string, path: string)
    requires n <= m && Unavailable(trace, m, authIndex) && ExpiredSince(trace, m)
    ensures UndoRefused(trace, n, authIndex, path, NotRead)
  {
    hide BadFetch;
  }

  lemma SameBlank(a: string, b: string)
    requires Trim(a) == Trim(b)
    ensures Blank(a) <==> Blank(b)
  {
  }

  predicate FreeAt(start: Files, trace: seq<Event>, path: string, k: nat) {
    k <= |trace| && path in At(start, trace, k) && !HasMarker(At(start, trace, k)[path].doc)
  }

  lemma RestoredIsFree(source: Raw, marker: Marker, r: Restoration)
    requires RestoreOverride(source, Some(marker)) == Ok(r)
    ensures !HasMarker(r.raw.doc) && r.raw.doc.Readable?
    ensures !r.needsSave ==> r.raw == source
  {
  }

  lemma UndoIsJustified(path: string, source: Raw, marker: Marker, r: Restoration)
    requires RestoreOverride(source, Some(marker)) == Ok(r) && r.needsSave
    ensures Justified(Write(path, source, r.raw, Undo(marker)))
  {
  }

  /** Undoing a lease, with everything that restoring its file promises. Nothing is done for the
      absent lease. */
  method RestorePriorityOverride(host: Host, lease: Option<Lease>)
    returns (err: Option<Failure>, ghost at: Option<nat>, ghost free: nat, ghost source: Raw)
    requires host.Consistent()
    requires lease.Some? ==>
               && Trim(lease.value.authIndex) in host.pathOf
               && Remembers(host.start, host.trace, host.PathFor(lease.value.authIndex), lease.value.marker)
    modifies host`files, host`trace, host`down
    ensures host.Consistent() && old(host.trace) <= host.trace
    ensures OneCommitFrom(host.trace, |old(host.trace)|, at)
    ensures lease.None? ==> err.None? && host.trace == old(host.trace) && at.None?
    ensures at.Some? ==>
              && host.trace[at.value].path == host.PathFor(lease.value.authIndex)
              && host.trace[at.value].cause == Undo(lease.value.marker)
    ensures lease.Some? && err.None? ==>
              Restored(host.start, host.trace, |old(host.trace)|, host.PathFor(lease.value.authIndex),
                       lease.value.authIndex, lease.value.authID, lease.value.marker, at.Some?, free, source)
    ensures err.Some? ==>
              || host.down
              || RestoreRefused(host.trace, |old(host.trace)|, lease.value.authIndex, host.PathFor(lease.value.authIndex),
                                lease.value.marker, err.value)
  {
    hide RestoreOverride, Restored, Trim, RestoreRefused, IsDown;
    source := *;
    if lease.None? {
      return None, None, 0, source;
    }
    var external, saved;
    external, saved, err, at, free, source :=
      RestorePriorityFile(host, lease.value.authIndex, lease.value.authID, lease.value.marker);
  }

  // ----- recovery of stale overrides -----

  datatype RecoveryError = Interrupted | Unread(authIndex: string) | Failed(path: string, why: Failure)

  /** priorityOverrideMarkerFromJSON */
  function InspectMarker(raw: Raw): Result<Option<Marker>, Error> {
    if !raw.doc.Readable? then Err(UnreadableCredential)
    else
      match Entry(raw.doc, MARKER_KEY)
      case None => Ok(None)
      case Some(rawMarker) => (match DecodeMarker(rawMarker) case Err(e) => Err(e) case Ok(m) => Ok(Some(m)))
  }

  /** At instant k the file carries a marker that does not decode, or one of another transaction than
      the marker it carried at some instant since n. */
  ghost predicate UnusableAt(start: Files, trace: seq<Event>, n: nat, path: string, k: nat) {
    && MarkedAt(start, trace, path, k)
    && match MarkerOf(At(start, trace, k)[path].doc)
       case None => true
       case Some(now) => exists j: nat, m :: n <= j <= k && CarriedAt(start, trace, j, path, m) && !SameTransaction(now, m)
  }

  ghost predicate Unusable(start: Files, trace: seq<Event>, n: nat, path: string) {
    exists k: nat :: n <= k && UnusableAt(start, trace, n, path, k)
  }

  /** What accounts for an error of a recovery since instant n. */
  ghost predicate Explained(start: Files, trace: seq<Event>, n: nat, e: RecoveryError) {
    match e
    case Interrupted => ExpiredSince(trace, n)
    case Unread(authIndex) => IsDown(trace) || Unavailable(trace, n, authIndex)
    case Failed(path, Unsuitable(_)) => IsDown(trace) || Unusable(start, trace, n, path)
    case Failed(path, why) => IsDown(trace) || exists authIndex :: UndoRefused(trace, n, authIndex, path, why)
  }

  predicate MarkedAt(start: Files, trace: seq<Event>, path: string, k: nat) {
    k <= |trace| && path in At(start, trace, k) && HasMarker(At(start, trace, k)[path].doc)
  }

  /** What recovery has done since instant n: undone overrides, each on a path it has looked at
      and found marked, and no path twice. */
  ghost predicate RecoveryFrom(start: Files, trace: seq<Event>, n: nat, seen: set<string>) {
    && n <= |trace|
    && (forall k | n <= k < |trace| :: Passive(trace[k]) || (IsUndo(trace[k]) && trace[k].path in seen))
    && (forall k | n <= k < |trace| && IsUndo(trace[k]) ::
          exists j: nat :: n <= j <= k && MarkedAt(start, trace, trace[k].path, j))
    && (forall k, l | n <= k < l < |trace| && IsUndo(trace[k]) && IsUndo(trace[l]) :: trace[k].path != trace[l].path)
  }

  predicate FreedSince(start: Files, trace: seq<Event>, n: nat, free: map<string, nat>) {
    forall path | path in free :: n <= free[path] && FreeAt(start, trace, path, free[path])
  }

  lemma FreedLater(start: Files, trace: seq<Event>, more: seq<Event>, n: nat, free: map<string, nat>)
    requires FreedSince(start, trace, n, free) && trace <= more
    ensures FreedSince(start, more, n, free)
  {
    forall path | path in free
      ensures FreeAt(start, more, path, free[path])
    {
      AtPrefix(start, trace, more, free[path]);
    }
  }

  lemma MarkedLater(start: Files, trace: seq<Event>, more: seq<Event>, path: string, k: nat)
    requires MarkedAt(start, trace, path, k) && trace <= more
    ensures MarkedAt(start, more, path, k)
  {
    AtPrefix(start, trace, more, k);
  }

  lemma RecoveryContinues(start: Files, trace: seq<Event>, more: seq<Event>, n: nat, seen: set<string>,
                          seen': set<string>, at: Option<nat>, found: nat)
    requires RecoveryFrom(start, trace, n, seen) && trace <= more && seen <= seen'
    requires OneCommitFrom(more, |trace|, at)
    requires at.Some? ==>
               && IsUndo(more[at.value]) && more[at.value].path in seen' - seen
               && |trace| <= found <= at.value && MarkedAt(start, more, more[at.value].path, found)
    ensures RecoveryFrom(start, more, n, seen')
  {
    hide MarkedAt;
    forall k | n <= k < |more| && IsUndo(more[k])
      ensures exists j: nat :: n <= j <= k && MarkedAt(start, more, more[k].path, j)
    {
      if k < |trace| {
        assert more[k] == trace[k];
        var j: nat :| n <= j <= k && MarkedAt(start, trace, trace[k].path, j);
        MarkedLater(start, trace, more, trace[k].path, j);
      } else {
        assert at == Some(k);
      }
    }
    forall k | n <= k < |more|
      ensures Passive(more[k]) || (IsUndo(more[k]) && more[k].path in seen')
    {
      if k < |trace| {
        assert more[k] == trace[k];
      }
    }
    forall k, l | n <= k < l < |more| && IsUndo(more[k]) && IsUndo(more[l])
      ensures more[k].path != more[l].path
    {
      assert more[k] == trace[k];
      if l < |trace| {
        assert more[l] == trace[l];
      } else {
        assert at == Some(l);
      }
    }
  }

  /** One listed credential. A path looked at before is not looked at again; a file without a
      marker is left alone; a marker that does not decode is an error and the file stays. */
  method RecoverOne(host: Host, auth: Auth, seen: set<string>)
    returns (seen': set<string>, saved: bool, err: Option<RecoveryError>,
             ghost at: Option<nat>, ghost found: nat, ghost free: nat)
    requires host.Consistent()
    modifies host`files, host`trace, host`down
    ensures host.Consistent() && old(host.trace) <= host.trace
    ensures OneCommitFrom(host.trace, |old(host.trace)|, at)
    ensures at.Some? ==>
              && IsUndo(host.trace[at.value]) && host.trace[at.value].path in seen' - seen
              && |old(host.trace)| <= found <= at.value
              && MarkedAt(host.start, host.trace, host.trace[at.value].path, found)
    ensures err.None? ==>
              && (saved <==> at.Some?)
              && Trim(auth.authIndex) in host.pathOf
              && seen' == seen + {host.PathFor(auth.authIndex)}
              && (host.PathFor(auth.authIndex) !in seen ==>
                    |old(host.trace)| <= free && FreeAt(host.start, host.trace, host.PathFor(auth.authIndex), free))
    ensures err.Some? ==>
              && !saved
              && ((err.value == Unread(auth.authIndex) && seen' == seen)
                  || (Trim(auth.authIndex) in host.pathOf && seen' == seen + {host.PathFor(auth.authIndex)}
                      && err.value.Failed? && err.value.path == host.PathFor(auth.authIndex) && err.value.path !in seen))
    ensures err.Some? && at.Some? ==> err == Some(Failed(host.trace[at.value].path, NotConfirmed))
    ensures at.Some? ==> (err.None? <==> Confirmed(host.trace, at.value, |host.trace|, auth.authIndex, auth.id))
    ensures err.Some? && at.Some? ==> host.down || GaveUp(host.trace, at.value + 1)
    ensures err.Some? ==> Explained(host.start, host.trace, |old(host.trace)|, err.value)
  {
    hide RestoreOverride, Valid, RaisesInPlace, After, At, DecodeMarker, Trim, HasPhysicalFile, Confirms, Confirmed,
         Explained, IsDown, Unavailable, RestoreRefused, GaveUp;
    seen', saved, err, at, found, free := seen, false, None, None, 0, 0;
    var got := host.GetAuthFile(auth.authIndex);
    if got.Err? {
      UnreadExplained(host.start, host.trace, |old(host.trace)|, auth.authIndex);
      err := Some(Unread(auth.authIndex));
      return;
    }
    var file := got.value;
    if file.path in seen {
      seen' := seen + {file.path};
      return;
    }
    seen' := seen + {file.path};
    found, free := |host.trace|, |host.trace|;
    WholeTrace(host.start, host.trace);
    var marker;
    match InspectMarker(file.json) {
      case Err(e) =>
        UnreadableMarkerExplained(host.start, host.trace, |old(host.trace)|, file.path, file.json, e);
        err := Some(Failed(file.path, Unsuitable(e)));
        return;
      case Ok(None) =>
        return;
      case Ok(Some(m)) =>
        marker := m;
    }
    RememberedNow(host.start, host.trace, file.path, marker);
    label read:
    var external, failure;
    ghost var source;
    external, saved, failure, at, free, source := RestorePriorityFile(host, auth.authIndex, auth.id, marker);
    AtPrefix(host.start, old@read(host.trace), host.trace, found);
    if failure.Some? {
      FailureExplained(host.start, old@read(host.trace), host.trace, |old(host.trace)|, auth.authIndex, file.path, marker,
                       failure.value);
      saved, err := false, Some(Failed(file.path, failure.value));
    }
  }

  lemma UnreadExplained(start: Files, trace: seq<Event>, n: nat, authIndex: string)
    requires IsDown(trace) || Unavailable(trace, n, authIndex)
    ensures Explained(start, trace, n, Unread(authIndex))
  {
  }

  /** What inspection refuses carries a marker that does not decode. */
  lemma UnreadableMarkerExplained(start: Files, trace: seq<Event>, n: nat, path: string, json: Raw, e: Error)
    requires n <= |trace| && path in After(start, trace) && After(start, trace)[path] == json && json.doc.Readable?
    requires InspectMarker(json) == Err(e)
    ensures Explained(start, trace, n, Failed(path, Unsuitable(e)))
  {
    hide After, DecodeMarker;
    WholeTrace(start, trace);
    assert UnusableAt(start, trace, n, path, |trace|);
  }

  /** A restore in a recovery fails for a reason that accounts for it. */
  lemma FailureExplained(start: Files, read: seq<Event>, trace: seq<Event>, n: nat, authIndex: string, path: string,
                         marker: Marker, why: Failure)
    requires Valid(start, trace) && n <= |read| && read <= trace && Carries(After(start, read), path, marker)
    requires IsDown(trace) || RestoreRefused(trace, |read|, authIndex, path, marker, why)
    ensures Explained(start, trace, n, Failed(path, why))
  {
    if !IsDown(trace) {
      if why.Unsuitable? {
        UnrestorableExplained(start, read, trace, n, authIndex, path, marker, why.why);
      } else {
        RefusedEarlier(trace, n, |read|, authIndex, path, why);
      }
    }
  }

  lemma RefusedEarlier(trace: seq<Event>, n: nat, m: nat, authIndex: string, path: string, why: Failure)
    requires n <= m && UndoRefused(trace, m, authIndex, path, why)
    ensures UndoRefused(trace, n, authIndex, path, why)
  {
    hide GoodFetch, BadFetch, IsRead;
    if why.Contended? {
      var at: seq<nat> :| |at| == 3 && RewrittenAt(trace, m, path, at);
      assert RewrittenAt(trace, n, path, at);
    }
  }

  lemma UnrestorableExplained(start: Files, read: seq<Event>, trace: seq<Event>, n: nat, authIndex: string, path: string,
                              marker: Marker, e: Error)
    requires Valid(start, trace) && n <= |read| && read <= trace && Carries(After(start, read), path, marker)
    requires Unrestorable(trace, |read|, authIndex, path, marker, e)
    ensures Unusable(start, trace, n, path)
  {
    hide Valid, After, At, RestoreOverride, MarkerOf, HasMarker;
    WholeTrace(start, read);
    AtPrefix(start, read, trace, |read|);
    assert CarriedAt(start, trace, |read|, path, marker);
    var k :| |read| <= k < |trace| && GoodFetch(trace[k], authIndex) && trace[k].path == path
             && RestoreOverride(trace[k].json, Some(marker)) == Err(e);
    FetchedIsThere(start, trace, k);
    RefusedMarker(trace[k].json, marker);
    assert UnusableAt(start, trace, n, path, k);
  }

  lemma FetchedIsThere(start: Files, trace: seq<Event>, k: nat)
    requires Valid(start, trace) && k < |trace| && trace[k].Fetched?
    ensures trace[k].path in At(start, trace, k) && At(start, trace, k)[trace[k].path] == trace[k].json
  {
    StepAt(start, trace, k);
  }

  /** A readable file that refuses to be restored carries a marker of its own. */
  lemma RefusedMarker(raw: Raw, m: Marker)
    requires raw.doc.Readable? && RestoreOverride(raw, Some(m)).Err?
    ensures HasMarker(raw.doc) && (MarkerOf(raw.doc).Some? ==> !SameTransaction(MarkerOf(raw.doc).value, m))
  {
    if MarkerOf(raw.doc).Some? {
      StrangersAreRefused(raw, MarkerOf(raw.doc).value, m);
    }
  }

  lemma ExplainedLater(start: Files, trace: seq<Event>, more: seq<Event>, n: nat, e: RecoveryError)
    requires Explained(start, trace, n, e) && trace <= more && QuietSince(more, |trace|)
    ensures Explained(start, more, n, e)
  {
    StaysDown(trace, more);
    assert forall k | 0 <= k < |trace| :: more[k] == trace[k];
    hide IsDown, At, MarkerOf, HasMarker, BadFetch, GoodFetch, IsRead;
    match e {
      case Failed(path, Unsuitable(_)) =>
        if !IsDown(trace) {
          UnusableLater(start, trace, more, n, path);
        }
      case Failed(path, why) =>
        if !IsDown(trace) {
          var authIndex :| UndoRefused(trace, n, authIndex, path, why);
          RefusedLater(trace, more, n, authIndex, path, why);
        }
      case _ =>
    }
  }

  lemma UnusableLater(start: Files, trace: seq<Event>, more: seq<Event>, n: nat, path: string)
    requires Unusable(start, trace, n, path) && trace <= more
    ensures Unusable(start, more, n, path)
  {
    hide At, MarkerOf, HasMarker, SameTransaction;
    var k: nat :| n <= k && UnusableAt(start, trace, n, path, k);
    AtPrefix(start, trace, more, k);
    if MarkerOf(At(start, trace, k)[path].doc).Some? {
      var now := MarkerOf(At(start, trace, k)[path].doc).value;
      var j: nat, m :| n <= j <= k && CarriedAt(start, trace, j, path, m) && !SameTransaction(now, m);
      AtPrefix(start, trace, more, j);
      assert CarriedAt(start, more, j, path, m);
    }
    assert UnusableAt(start, more, n, path, k);
  }

  lemma RefusedLater(trace: seq<Event>, more: seq<Event>, n: nat, authIndex: string, path: string, why: Failure)
    requires UndoRefused(trace, n, authIndex, path, why) && trace <= more
    ensures UndoRefused(more, n, authIndex, path, why)
  {
    hide GoodFetch, BadFetch, IsRead;
    assert forall k | 0 <= k < |trace| :: more[k] == trace[k];
    if why.Contended? {
      var at: seq<nat> :| |at| == 3 && RewrittenAt(trace, n, path, at);
      RewrittenLater(trace, more, n, path, at);
    }
  }

  // ----- what the plugin wrote, recovery accepts -----

  /** Between two instants of a recovery, a file that is still marked carries the same marker. */
  lemma {:induction false} MarkerKept(start: Files, trace: seq<Event>, j: nat, k: nat, path: string)
    requires Valid(start, trace) && Benign(trace) && j <= k <= |trace| && path in start
    requires forall i | j <= i < k :: !IsRaise(trace[i])
    ensures path in At(start, trace, j) && path in At(start, trace, k)
    ensures HasMarker(At(start, trace, k)[path].doc) ==>
              Entry(At(start, trace, k)[path].doc, MARKER_KEY) == Entry(At(start, trace, j)[path].doc, MARKER_KEY)
    decreases k
  {
    if j == k {
      ValidPrefix(start, trace, k);
      SameFiles(start, trace[..k]);
    } else {
      MarkerKept(start, trace, j, k - 1, path);
      StepAt(start, trace, k - 1);
      if IsUndo(trace[k - 1]) {
        CommitKeepsRest(trace[k - 1]);
      }
      hide Valid, Justified, Remembers, At;
    }
  }

  /** When outside writers leave the override alone and no file was marked at the start, recovery
      finds every marker decodable and of the transaction it has read. */
  lemma OwnMarkersAreUsable(start: Files, trace: seq<Event>, n: nat, path: string)
    requires Valid(start, trace) && CleanStart(start) && Benign(trace)
    requires forall i | n <= i < |trace| :: !IsRaise(trace[i])
    ensures !Unusable(start, trace, n, path)
  {
    hide Valid, At, CleanStart, Benign, MarkerOf, HasMarker, Sound;
    forall k: nat | n <= k && MarkedAt(start, trace, path, k)
      ensures !UnusableAt(start, trace, n, path, k)
    {
      ValidPrefix(start, trace, k);
      InStart(start, trace, k, path);
      AlwaysSound(start, trace, k, path);
      SoundIsDecodable(start[path].doc, At(start, trace, k)[path].doc);
      forall j: nat, m | n <= j <= k && CarriedAt(start, trace, j, path, m)
        ensures SameTransaction(MarkerOf(At(start, trace, k)[path].doc).value, m)
      {
        MarkerKept(start, trace, j, k, path);
        SameEntrySameMarker(At(start, trace, j)[path].doc, At(start, trace, k)[path].doc);
      }
    }
  }

  lemma InStart(start: Files, trace: seq<Event>, k: nat, path: string)
    requires Valid(start, trace) && k <= |trace| && path in At(start, trace, k)
    ensures path in start
  {
    ValidPrefix(start, trace, k);
    SameFiles(start, trace[..k]);
  }

  lemma SoundIsDecodable(original: Doc, now: Doc)
    requires Sound(original, now) && HasMarker(now)
    ensures MarkerOf(now).Some?
  {
  }

  lemma SameEntrySameMarker(a: Doc, b: Doc)
    requires Entry(a, MARKER_KEY) == Entry(b, MARKER_KEY)
    ensures MarkerOf(a) == MarkerOf(b)
  {
  }

  /** So nothing of the plugin's own is ever refused as unsuitable: a recovery fails only because the
      host denied something, a file kept changing, time ran out, or the plugin is down. */
  lemma OwnMarkersAreAccepted(start: Files, trace: seq<Event>, n: nat, e: RecoveryError)
    requires Valid(start, trace) && CleanStart(start) && Benign(trace) && Explained(start, trace, n, e)
    requires forall i | n <= i < |trace| :: !IsRaise(trace[i])
    ensures e.Failed? && e.why.Unsuitable? ==> IsDown(trace)
  {
    hide Valid, CleanStart, Benign, Unusable, IsDown;
    if e.Failed? {
      OwnMarkersAreUsable(start, trace, n, e.path);
    }
  }

  lemma NothingRecoveredYet(host: Host, trace: seq<Event>)
    ensures RecoveryKept(host.start, trace, |trace|, {}, [], map[], [], false)
    ensures LookedAt(host, [], {}, [], map[])
  {
  }

  lemma RecoveryUndoes(start: Files, trace: seq<Event>, n: nat, seen: set<string>)
    requires RecoveryFrom(start, trace, n, seen)
    ensures n <= |trace| && forall k | n <= k < |trace| && IsUndo(trace[k]) :: trace[k].path in seen
  {
  }

  lemma InterruptedConfirmsNothing(trace: seq<Event>, n: nat, errs: seq<RecoveryError>)
    ensures SavedAndConfirmed(trace, n, errs + [Interrupted]) <==> SavedAndConfirmed(trace, n, errs)
  {
    assert forall e :: e in errs + [Interrupted] <==> e in errs || e == Interrupted;
  }

  lemma OneMoreFreed(start: Files, trace: seq<Event>, n: nat, free: map<string, nat>, path: string, at: nat)
    requires FreedSince(start, trace, n, free) && n <= at && FreeAt(start, trace, path, at)
    ensures FreedSince(start, trace, n, free[path := at])
  {
  }

  /** A save of a recovery's, the credential it was for, and when the wait for it ended. */
  datatype Save = Save(at: nat, until: nat, authIndex: string, authID: string)

  predicate SaveAndWait(trace: seq<Event>, save: Save) {
    save.at < save.until <= |trace| && IsUndo(trace[save.at]) && PassiveBetween(trace, save.at + 1, save.until)
  }

  /** The saves since instant n, in order, each with its wait before the next. */
  predicate SavesOf(trace: seq<Event>, n: nat, saves: seq<Save>) {
    && (forall i | 0 <= i < |saves| :: n <= saves[i].at && SaveAndWait(trace, saves[i]))
    && (forall i, j | 0 <= i < j < |saves| :: saves[i].until <= saves[j].at)
    && (forall k | n <= k < |trace| && IsUndo(trace[k]) :: exists i :: 0 <= i < |saves| && saves[i].at == k)
  }

  /** A runtime read confirmed one of the saves during the wait for it. */
  predicate AnyConfirmed(trace: seq<Event>, saves: seq<Save>) {
    exists i :: 0 <= i < |saves| && Confirmed(trace, saves[i].at, saves[i].until, saves[i].authIndex, saves[i].authID)
  }

  function WithSave(saves: seq<Save>, at: Option<nat>, until: nat, auth: Auth): seq<Save> {
    if at.Some? then saves + [Save(at.value, until, auth.authIndex, auth.id)] else saves
  }

  lemma SavesContinue(trace: seq<Event>, more: seq<Event>, n: nat, saves: seq<Save>, at: Option<nat>, auth: Auth)
    requires n <= |trace| && SavesOf(trace, n, saves) && trace <= more && OneCommitFrom(more, |trace|, at)
    requires at.Some? ==> IsUndo(more[at.value])
    ensures var saves' := WithSave(saves, at, |more|, auth);
      && SavesOf(more, n, saves')
      && (AnyConfirmed(more, saves') <==>
            AnyConfirmed(trace, saves) || (at.Some? && Confirmed(more, at.value, |more|, auth.authIndex, auth.id)))
  {
    SavesCover(trace, more, n, saves, at, auth);
    hide Confirmed;
    var saves' := WithSave(saves, at, |more|, auth);
    forall i | 0 <= i < |saves|
      ensures saves'[i] == saves[i]
      ensures Confirmed(more, saves[i].at, saves[i].until, saves[i].authIndex, saves[i].authID)
              <==> Confirmed(trace, saves[i].at, saves[i].until, saves[i].authIndex, saves[i].authID)
    {
      ConfirmedAlready(trace, more, saves[i]);
    }
    hide SavesOf;
    if AnyConfirmed(trace, saves) {
      var i :| 0 <= i < |saves| && Confirmed(trace, saves[i].at, saves[i].until, saves[i].authIndex, saves[i].authID);
      assert Confirmed(more, saves'[i].at, saves'[i].until, saves'[i].authIndex, saves'[i].authID);
    }
    if at.Some? && Confirmed(more, at.value, |more|, auth.authIndex, auth.id) {
      assert saves'[|saves|] == Save(at.value, |more|, auth.authIndex, auth.id);
    }
  }

  lemma SaveAlready(trace: seq<Event>, more: seq<Event>, save: Save)
    requires trace <= more && SaveAndWait(trace, save)
    ensures SaveAndWait(more, save) && save.until <= |trace|
  {
    hide Passive;
    assert forall k | 0 <= k < |trace| :: more[k] == trace[k];
  }

  lemma OneMoreSave(trace: seq<Event>, more: seq<Event>, at: nat, auth: Auth)
    requires trace <= more && OneCommitFrom(more, |trace|, Some(at)) && IsUndo(more[at])
    ensures SaveAndWait(more, Save(at, |more|, auth.authIndex, auth.id)) && |trace| <= at
  {
    hide Passive;
  }

  lemma SavesCover(trace: seq<Event>, more: seq<Event>, n: nat, saves: seq<Save>, at: Option<nat>, auth: Auth)
    requires n <= |trace| && SavesOf(trace, n, saves) && trace <= more && OneCommitFrom(more, |trace|, at)
    requires at.Some? ==> IsUndo(more[at.value])
    ensures SavesOf(more, n, WithSave(saves, at, |more|, auth))
  {
    var saves' := WithSave(saves, at, |more|, auth);
    UndosAreSaved(trace, more, n, saves, at, auth);
    if at.Some? {
      OneMoreSave(trace, more, at.value, auth);
    }
    hide SaveAndWait, OneCommitFrom;
    forall i | 0 <= i < |saves|
      ensures saves'[i] == saves[i] && SaveAndWait(more, saves[i]) && saves[i].until <= |trace|
    {
      SaveAlready(trace, more, saves[i]);
    }
  }

  lemma UndosAreSaved(trace: seq<Event>, more: seq<Event>, n: nat, saves: seq<Save>, at: Option<nat>, auth: Auth)
    requires n <= |trace| && SavesOf(trace, n, saves) && trace <= more && OneCommitFrom(more, |trace|, at)
    ensures forall k | n <= k < |more| && IsUndo(more[k]) ::
              exists i :: 0 <= i < |WithSave(saves, at, |more|, auth)| && WithSave(saves, at, |more|, auth)[i].at == k
  {
    hide SaveAndWait;
    var saves' := WithSave(saves, at, |more|, auth);
    forall k | n <= k < |more| && IsUndo(more[k])
      ensures exists i :: 0 <= i < |saves'| && saves'[i].at == k
    {
      if k < |trace| {
        assert more[k] == trace[k];
        var i :| 0 <= i < |saves| && saves[i].at == k;
        assert saves'[i] == saves[i];
      } else {
        assert saves'[|saves|].at == k;
      }
    }
  }

  lemma ConfirmedAlready(trace: seq<Event>, more: seq<Event>, save: Save)
    requires trace <= more && save.at < save.until <= |trace|
    ensures Confirmed(more, save.at, save.until, save.authIndex, save.authID)
            <==> Confirmed(trace, save.at, save.until, save.authIndex, save.authID)
  {
    hide Confirms, Awaited;
    assert forall k | 0 <= k < |trace| :: more[k] == trace[k];
  }

  /** Something was saved on a path whose save is not reported unconfirmed. */
  predicate SavedAndConfirmed(trace: seq<Event>, n: nat, errs: seq<RecoveryError>) {
    exists k :: n <= k < |trace| && IsUndo(trace[k]) && Failed(trace[k].path, NotConfirmed) !in errs
  }

  lemma ConfirmedSoFar(trace: seq<Event>, more: seq<Event>, n: nat, seen: set<string>, errs: seq<RecoveryError>,
                       at: Option<nat>, err: Option<RecoveryError>)
    requires n <= |trace| && trace <= more && OneCommitFrom(more, |trace|, at)
    requires forall k | n <= k < |trace| && IsUndo(trace[k]) :: trace[k].path in seen
    requires forall path, why | Failed(path, why) in errs :: path in seen
    requires at.Some? ==> IsUndo(more[at.value]) && more[at.value].path !in seen
    requires at.Some? && err.Some? ==> err == Some(Failed(more[at.value].path, NotConfirmed))
    requires err.Some? && err.value.Failed? ==> err.value.path !in seen
    ensures var errs' := if err.Some? then errs + [err.value] else errs;
      SavedAndConfirmed(more, n, errs') <==> SavedAndConfirmed(trace, n, errs) || (at.Some? && err.None?)
  {
    var errs' := if err.Some? then errs + [err.value] else errs;
    forall k | n <= k < |more| && IsUndo(more[k])
      ensures if k < |trace| then Failed(more[k].path, NotConfirmed) in errs' <==> Failed(trace[k].path, NotConfirmed) in errs
              else at == Some(k) && (Failed(more[k].path, NotConfirmed) in errs' <==> err.Some?)
    {
      if k < |trace| {
        assert more[k] == trace[k];
      }
    }
    if SavedAndConfirmed(trace, n, errs) {
      var k :| n <= k < |trace| && IsUndo(trace[k]) && Failed(trace[k].path, NotConfirmed) !in errs;
      assert more[k] == trace[k];
    }
  }

  ghost predicate Settled(host: Host, auth: Auth, errs: seq<RecoveryError>, free: map<string, nat>) {
    Recoverable(auth) ==>
      || Unread(auth.authIndex) in errs
      || (Trim(auth.authIndex) in host.pathOf &&
          (host.PathFor(auth.authIndex) in free || exists why :: Failed(host.PathFor(auth.authIndex), why) in errs))
  }

  /** What is known of a recovery's history and of the saves in it. */
  ghost predicate RecoveryKept(start: Files, trace: seq<Event>, n: nat, seen: set<string>, errs: seq<RecoveryError>,
                               free: map<string, nat>, saves: seq<Save>, changed: bool)
  {
    && RecoveryFrom(start, trace, n, seen) && FreedSince(start, trace, n, free)
    && (forall e | e in errs :: Explained(start, trace, n, e))
    && (changed <==> SavedAndConfirmed(trace, n, errs))
    && SavesOf(trace, n, saves) && (changed <==> AnyConfirmed(trace, saves))
  }

  /** What has been found out about the credentials looked at so far. */
  ghost predicate LookedAt(host: Host, looked: seq<Auth>, seen: set<string>, errs: seq<RecoveryError>, free: map<string, nat>) {
    && (forall path | path in seen :: path in free || exists why :: Failed(path, why) in errs)
    && (forall path, why | Failed(path, why) in errs :: path in seen)
    && (forall a | a in looked :: Settled(host, a, errs, free))
  }

  function WithError(errs: seq<RecoveryError>, err: Option<RecoveryError>): seq<RecoveryError> {
    if err.Some? then errs + [err.value] else errs
  }

  /** One more credential: what RecoverOne says of it. */
  lemma LookedAtOne(host: Host, looked: seq<Auth>, auth: Auth, seen: set<string>, seen': set<string>,
                    errs: seq<RecoveryError>, err: Option<RecoveryError>, free: map<string, nat>, freeAt: nat)
    requires LookedAt(host, looked, seen, errs, free) && Recoverable(auth)
    requires err.None? ==> Trim(auth.authIndex) in host.pathOf && seen' == seen + {host.PathFor(auth.authIndex)}
    requires err.Some? ==>
               || (err.value == Unread(auth.authIndex) && seen' == seen)
               || (Trim(auth.authIndex) in host.pathOf && seen' == seen + {host.PathFor(auth.authIndex)}
                   && err.value.Failed? && err.value.path == host.PathFor(auth.authIndex))
    ensures LookedAt(host, looked + [auth], seen', WithError(errs, err), FreedBy(host, auth, seen, err, free, freeAt))
  {
    hide Trim, Recoverable;
    var errs' := WithError(errs, err);
    assert forall e | e in errs :: e in errs';
    assert err.Some? ==> err.value in errs' && forall e | e in errs' :: e in errs || e == err.value;
    assert err.Some? && err.value.Failed? ==> Failed(err.value.path, err.value.why) in errs';
  }

  ghost function FreedBy(host: Host, auth: Auth, seen: set<string>, err: Option<RecoveryError>, free: map<string, nat>,
                         freeAt: nat): map<string, nat>
    requires err.None? ==> Trim(auth.authIndex) in host.pathOf
  {
    if err.None? && host.PathFor(auth.authIndex) !in seen then free[host.PathFor(auth.authIndex) := freeAt] else free
  }

  lemma LookedPast(host: Host, looked: seq<Auth>, auth: Auth, seen: set<string>, errs: seq<RecoveryError>,
                   free: map<string, nat>)
    requires LookedAt(host, looked, seen, errs, free) && !Recoverable(auth)
    ensures LookedAt(host, looked + [auth], seen, errs, free)
  {
    hide Recoverable;
  }

  /** One more credential, in the history. */
  lemma KeptAfterOne(host: Host, trace: seq<Event>, more: seq<Event>, n: nat, seen: set<string>, seen': set<string>,
                     errs: seq<RecoveryError>, err: Option<RecoveryError>, free: map<string, nat>, freeAt: nat,
                     saves: seq<Save>, auth: Auth, at: Option<nat>, found: nat, changed: bool)
    requires RecoveryKept(host.start, trace, n, seen, errs, free, saves, changed) && trace <= more
    requires OneCommitFrom(more, |trace|, at) && seen <= seen'
    requires forall path, why | Failed(path, why) in errs :: path in seen
    requires at.Some? ==>
               && IsUndo(more[at.value]) && more[at.value].path in seen' - seen
               && |trace| <= found <= at.value && MarkedAt(host.start, more, more[at.value].path, found)
               && (err.None? <==> Confirmed(more, at.value, |more|, auth.authIndex, auth.id))
    requires at.Some? && err.Some? ==> err == Some(Failed(more[at.value].path, NotConfirmed))
    requires err.Some? ==> Explained(host.start, more, |trace|, err.value) && (err.value.Failed? ==> err.value.path !in seen)
    requires err.None? ==>
               && Trim(auth.authIndex) in host.pathOf
               && (host.PathFor(auth.authIndex) !in seen ==>
                     |trace| <= freeAt && FreeAt(host.start, more, host.PathFor(auth.authIndex), freeAt))
    ensures RecoveryKept(host.start, more, n, seen', WithError(errs, err), FreedBy(host, auth, seen, err, free, freeAt),
                         WithSave(saves, at, |more|, auth), changed || (err.None? && at.Some?))
  {
    hide MarkedAt, Trim, RecoveryFrom, FreedSince, SavedAndConfirmed, SavesOf, AnyConfirmed, Confirmed, Explained,
         OneCommitFrom, FreeAt;
    RecoveryUndoes(host.start, trace, n, seen);
    AllExplainedLater(host.start, trace, more, n, errs, at);
    if err.Some? {
      ExplainedEarlier(host.start, more, n, |trace|, err.value);
    }
    ConfirmedSoFar(trace, more, n, seen, errs, at, err);
    RecoveryContinues(host.start, trace, more, n, seen, seen', at, found);
    FreedLater(host.start, trace, more, n, free);
    SavesContinue(trace, more, n, saves, at, auth);
    if err.None? && host.PathFor(auth.authIndex) !in seen {
      OneMoreFreed(host.start, more, n, free, host.PathFor(auth.authIndex), freeAt);
    }
  }

  /** Every listed file is looked at, whatever happens to the others, unless the context ends.
      Without errors, every listed file has been seen without a marker. `changed` tells whether
      anything was saved and confirmed. */
  method RecoverStalePriorityOverrides(host: Host, auths: seq<Auth>)
    returns (changed: bool, errs: seq<RecoveryError>, ghost seen: set<string>, ghost free: map<string, nat>,
             ghost saves: seq<Save>)
    requires host.Consistent()
    modifies host`files, host`trace, host`down
    ensures host.Consistent() && old(host.trace) <= host.trace
    ensures RecoveryFrom(host.start, host.trace, |old(host.trace)|, seen)
    ensures FreedSince(host.start, host.trace, |old(host.trace)|, free)
    ensures Interrupted in errs || forall a | a in auths :: Settled(host, a, errs, free)
    ensures forall e | e in errs :: Explained(host.start, host.trace, |old(host.trace)|, e)
    ensures changed <==> SavedAndConfirmed(host.trace, |old(host.trace)|, errs)
    ensures SavesOf(host.trace, |old(host.trace)|, saves) && (changed <==> AnyConfirmed(host.trace, saves))
  {
    hide Valid, RaisesInPlace, After, At, MarkedAt, Trim, Recoverable, RecoveryFrom, FreedSince, SavedAndConfirmed, SavesOf,
         AnyConfirmed, Confirmed, Explained, IsDown, OneCommitFrom, RecoveryKept, LookedAt, Settled, GaveUp, FreeAt;
    changed, errs, seen, free, saves := false, [], {}, map[], [];
    var seenPaths: set<string> := {};
    ghost var n := |host.trace|;
    NothingRecoveredYet(host, host.trace);
    for i := 0 to |auths|
      invariant host.Consistent() && old(host.trace) <= host.trace
      invariant RecoveryKept(host.start, host.trace, n, seenPaths, errs, free, saves, changed)
      invariant LookedAt(host, auths[..i], seenPaths, errs, free)
    {
      label before:
      var done := host.ContextDone();
      if done {
        RecoveryExpires(host.start, old@before(host.trace), host.trace, n, seenPaths, errs, free, saves, changed);
        errs := errs + [Interrupted];
        assert Interrupted in errs;
        seen := seenPaths;
        RecoveryIsKept(host.start, host.trace, n, seen, errs, free, saves, changed);
        return;
      }
      assert auths[..i + 1] == auths[..i] + [auths[i]];
      if Recoverable(auths[i]) {
        var seen', saved, err;
        ghost var at, found, freeAt;
        seen', saved, err, at, found, freeAt := RecoverOne(host, auths[i], seenPaths);
        FailuresAreSeen(host, auths[..i], seenPaths, errs, free);
        KeptAfterOne(host, old@before(host.trace), host.trace, n, seenPaths, seen', errs, err, free, freeAt, saves,
                     auths[i], at, found, changed);
        LookedAtOne(host, auths[..i], auths[i], seenPaths, seen', errs, err, free, freeAt);
        saves := WithSave(saves, at, |host.trace|, auths[i]);
        free := FreedBy(host, auths[i], seenPaths, err, free, freeAt);
        if err.Some? {
          errs := errs + [err.value];
        } else {
          changed := changed || saved;
        }
        seenPaths := seen';
      } else {
        LookedPast(host, auths[..i], auths[i], seenPaths, errs, free);
      }
    }
    assert auths[..|auths|] == auths;
    seen := seenPaths;
    RecoveryIsKept(host.start, host.trace, n, seen, errs, free, saves, changed);
    AllSettled(host, auths, seen, errs, free);
  }

  lemma FailuresAreSeen(host: Host, looked: seq<Auth>, seen: set<string>, errs: seq<RecoveryError>, free: map<string, nat>)
    requires LookedAt(host, looked, seen, errs, free)
    ensures forall path, why | Failed(path, why) in errs :: path in seen
  {
    hide Settled;
  }

  lemma AllSettled(host: Host, looked: seq<Auth>, seen: set<string>, errs: seq<RecoveryError>, free: map<string, nat>)
    requires LookedAt(host, looked, seen, errs, free)
    ensures forall a | a in looked :: Settled(host, a, errs, free)
  {
    hide Settled;
  }

  lemma RecoveryIsKept(start: Files, trace: seq<Event>, n: nat, seen: set<string>, errs: seq<RecoveryError>,
                       free: map<string, nat>, saves: seq<Save>, changed: bool)
    requires RecoveryKept(start, trace, n, seen, errs, free, saves, changed)
    ensures RecoveryFrom(start, trace, n, seen) && FreedSince(start, trace, n, free)
    ensures forall e | e in errs :: Explained(start, trace, n, e)
    ensures changed <==> SavedAndConfirmed(trace, n, errs)
    ensures SavesOf(trace, n, saves) && (changed <==> AnyConfirmed(trace, saves))
  {
    hide RecoveryFrom, FreedSince, Explained, SavedAndConfirmed, SavesOf, AnyConfirmed;
  }

  lemma AllExplainedLater(start: Files, trace: seq<Event>, more: seq<Event>, n: nat, errs: seq<RecoveryError>,
                          at: Option<nat>)
    requires (forall e | e in errs :: Explained(start, trace, n, e)) && trace <= more && OneCommitFrom(more, |trace|, at)
    ensures forall e | e in errs :: Explained(start, more, n, e)
  {
    hide Explained;
    forall e | e in errs
      ensures Explained(start, more, n, e)
    {
      ExplainedLater(start, trace, more, n, e);
    }
  }

  lemma ExplainedEarlier(start: Files, trace: seq<Event>, n: nat, m: nat, e: RecoveryError)
    requires n <= m && Explained(start, trace, m, e)
    ensures Explained(start, trace, n, e)
  {
    hide IsDown, MarkedAt, MarkerOf, CarriedAt, BadFetch;
    match e {
      case Failed(path, Unsuitable(_)) =>
        if !IsDown(trace) {
          var k: nat :| m <= k && UnusableAt(start, trace, m, path, k);
          assert UnusableAt(start, trace, n, path, k);
        }
      case Failed(path, why) =>
        if !IsDown(trace) {
          var authIndex :| UndoRefused(trace, m, authIndex, path, why);
          RefusedEarlier(trace, n, m, authIndex, path, why);
        }
      case _ =>
    }
  }

  /** The context of a recovery ends: nothing else has happened. */
  lemma RecoveryExpires(start: Files, trace: seq<Event>, more: seq<Event>, n: nat, seen: set<string>,
                        errs: seq<RecoveryError>, free: map<string, nat>, saves: seq<Save>, changed: bool)
    requires more == trace + [Expired] && RecoveryKept(start, trace, n, seen, errs, free, saves, changed)
    ensures RecoveryKept(start, more, n, seen, errs + [Interrupted], free, saves, changed)
  {
    RecoveryIsKept(start, trace, n, seen, errs, free, saves, changed);
    var none: Option<nat> := None;
    assert OneCommitFrom(more, |trace|, none);
    RecoveryContinues(start, trace, more, n, seen, seen, none, 0);
    FreedLater(start, trace, more, n, free);
    AllExplainedLater(start, trace, more, n, errs, none);
    SavesContinue(trace, more, n, saves, none, Auth("", "", "", "", false, false, false, "", 0));
    assert more[|trace|].Expired?;
    assert Explained(start, more, n, Interrupted);
    InterruptedConfirmsNothing(trace, n, errs);
    assert forall k | 0 <= k < |trace| :: more[k] == trace[k];
    hide Explained, RecoveryFrom, FreedSince, SavesOf, AnyConfirmed;
  }

  /** After outside writers that never create markers: what recovery wrote had a marker when it
      began, and what it has seen free is still free. */
  lemma RecoveryClears(start: Files, trace: seq<Event>, n: nat, seen: set<string>, free: map<string, nat>)
    requires Valid(start, trace) && NeverMarksFrom(trace, n)
    requires RecoveryFrom(start, trace, n, seen) && FreedSince(start, trace, n, free)
    ensures Marked(After(start, trace)) <= Marked(At(start, trace, n)) - free.Keys
    ensures forall k | n <= k < |trace| && IsUndo(trace[k]) :: trace[k].path in Marked(At(start, trace, n))
  {
    WholeTrace(start, trace);
    MarkersOnlyGo(start, trace, n, |trace|);
    forall path | path in free
      ensures path !in Marked(After(start, trace))
    {
      MarkersOnlyGo(start, trace, free[path], |trace|);
    }
    forall k | n <= k < |trace| && IsUndo(trace[k])
      ensures trace[k].path in Marked(At(start, trace, n))
    {
      var j: nat :| n <= j <= k && MarkedAt(start, trace, trace[k].path, j);
      MarkersOnlyGo(start, trace, n, j);
    }
  }

  /** A listed file with a marker that does not decode is reported, unless an outside writer changed
      it meanwhile, and left as it is. */
  lemma UndecodableIsReported(host: Host, a: Auth, n: nat, errs: seq<RecoveryError>, free: map<string, nat>)
    requires host.Consistent() && n <= |host.trace| && FreedSince(host.start, host.trace, n, free)
    requires Recoverable(a) && Trim(a.authIndex) in host.pathOf && Settled(host, a, errs, free)
    requires var path := host.PathFor(a.authIndex);
      && NoOutsideWrites(host.trace, n, |host.trace|, path)
      && path in At(host.start, host.trace, n)
      && HasMarker(At(host.start, host.trace, n)[path].doc) && MarkerOf(At(host.start, host.trace, n)[path].doc).None?
    ensures Unread(a.authIndex) in errs || exists why :: Failed(host.PathFor(a.authIndex), why) in errs
    ensures host.PathFor(a.authIndex) in host.files
    ensures host.files[host.PathFor(a.authIndex)] == At(host.start, host.trace, n)[host.PathFor(a.authIndex)]
  {
    hide Valid, RaisesInPlace, After, At, Trim, Recoverable, HasMarker, MarkerOf;
    var path := host.PathFor(a.authIndex);
    WholeTrace(host.start, host.trace);
    UndecodableStays(host.start, host.trace, n, |host.trace|, path);
    if path in free {
      UndecodableStays(host.start, host.trace, n, free[path], path);
    }
  }

  /** Recovery can save a file and still report no change: one credential, raised and undone, whose
      wait ends with a runtime read that still shows the override. */
  lemma SavedButUnconfirmed() returns (start: Files, trace: seq<Event>, saves: seq<Save>)
    ensures Valid(start, trace) && |trace| == 2 && IsUndo(trace[0]) && trace[1].Observe?
    ensures RecoveryFrom(start, trace, 0, {"a.json"}) && SavesOf(trace, 0, saves) && !AnyConfirmed(trace, saves)
    ensures Confirms(trace[1], "1", "id", 5) && saves == [Save(0, 2, "1", "id")]
  {
    var built, undo := UndoOfOne();
    var observe := Observe(Auth("id", "1", "", "", false, false, false, "file", 5));
    ReadsAs(observe);
    hide Confirms, Awaited, HasMarker, Valid;
    start := map["a.json" := built];
    Extend(start, [undo], observe);
    trace, saves := [undo] + [observe], [Save(0, 2, "1", "id")];
    assert At(start, trace, 0) == start;
    assert MarkedAt(start, trace, "a.json", 0);
    assert saves[0].at == 0;
  }

  lemma ReadsAs(e: Event)
    requires e == Observe(Auth("id", "1", "", "", false, false, false, "file", 5))
    ensures forall expected :: Confirms(e, "1", "id", expected) <==> expected == 5
  {
    assert Trim("1") == "1" && Trim("id") == "id";
  }

  /** A credential without a priority, raised to 5, and the undo of that. */
  lemma UndoOfOne() returns (built: Raw, undo: Event)
    ensures Valid(map["a.json" := built], [undo]) && HasMarker(built.doc)
    ensures IsUndo(undo) && undo.path == "a.json" && Awaited(undo) == 0
  {
    var raw := Marshal(map[]);
    var pair := BuildOverride(raw, "1", "run", 5).value;
    built := pair.0;
    var m := pair.1;
    assert Trim("1") == "1";
    RestoreUndoesBuild(raw, "1", "run", 5, built, m, built, Some(m));
    BuiltMarker(raw, "1", "run", 5, built, m);
    BuiltDocument(raw, "1", "run", 5, built, m);
    undo := Write("a.json", built, RestoreOverride(built, Some(m)).value.raw, Undo(m));
    hide RestoreOverride, BuildOverride, Trim, Remembers, HasMarker;
    RememberedNow(map["a.json" := built], [], "a.json", m);
    Extend(map["a.json" := built], [], undo);
    assert [] + [undo] == [undo];
  }

  /** Without errors, no listed file is left with a marker. */
  lemma RecoveryClearsListed(host: Host, auths: seq<Auth>, n: nat, seen: set<string>, free: map<string, nat>)
    requires host.Consistent() && NeverMarksFrom(host.trace, n)
    requires RecoveryFrom(host.start, host.trace, n, seen) && FreedSince(host.start, host.trace, n, free)
    requires forall a | a in auths :: Settled(host, a, [], free)
    ensures forall path | ListsFile(host.pathOf, auths, path) :: path in host.files && path !in Marked(host.files)
  {
    hide Valid, RaisesInPlace, After, At, Trim, HasPhysicalFile, RecoveryFrom, FreedSince;
    RecoveryClears(host.start, host.trace, n, seen, free);
    SameFiles(host.start, host.trace);
    forall path | ListsFile(host.pathOf, auths, path)
      ensures path in host.files && path !in Marked(host.files)
    {
      var a :| a in auths && Recovers(host.pathOf, a, path);
      assert Settled(host, a, [], free) && path in free;
      assert path in host.pathOf.Values;
    }
  }

  /** With a complete listing and no errors, no file is left with a marker. */
  lemma CompleteRecoveryClearsAll(host: Host, auths: seq<Auth>, n: nat, seen: set<string>, free: map<string, nat>)
    requires host.Consistent() && NeverMarksFrom(host.trace, n)
    requires RecoveryFrom(host.start, host.trace, n, seen) && FreedSince(host.start, host.trace, n, free)
    requires ListsEveryFile(host.start.Keys, host.pathOf, auths)
    requires forall a | a in auths :: Settled(host, a, [], free)
    ensures Marked(host.files) == {}
  {
    hide Valid, RaisesInPlace, After, At, Trim, HasMarker, RecoveryFrom, FreedSince, ListsFile, Settled;
    RecoveryClearsListed(host, auths, n, seen, free);
    SameFiles(host.start, host.trace);
    assert forall path | path in host.files :: ListsFile(host.pathOf, auths, path);
  }
}
