/**
 The host as the plugin sees it. The credential files are shared: outside writers may change
 any of them before each thing the plugin does. Every answer that is not the content of a file
 is arbitrary, which covers every failure, timeout and cancellation pattern. The plugin may go
 down in the middle of anything; from then on it does nothing until it restarts. The ghost
 history records what happened, and every method keeps it a valid history of the step system.
 */
module CredentialHost {
  import opened Text
  import opened Credential
  import opened Override
  import opened Auths
  import opened History

  /** The digest a read carries stands for the bytes it was computed from. */
  datatype AuthFile = AuthFile(authIndex: string, name: string, path: string, json: Raw, expected: Raw)

  datatype HostError = Refused | Invalid | FileChanged

  /** A runtime read, or one that is denied. */
  predicate IsRead(e: Event) { e.Observe? || (e.Denied? && e.what.ForRuntime?) }

  /** Whatever is neither a commit nor a call of the plugin's, nor its restart. */
  predicate Passive(e: Event) { IsOutside(e) || !(e.Write? || e.Call? || e.Crash?) }

  /** The plugin is down at the end of the history. */
  ghost predicate IsDown(trace: seq<Event>) {
    exists k: nat :: k < |trace| && trace[k].Halted? && QuietSince(trace, k)
  }

  lemma StaysDown(trace: seq<Event>, more: seq<Event>)
    requires trace <= more && QuietSince(more, |trace|)
    ensures IsDown(trace) ==> IsDown(more)
  {
    if IsDown(trace) {
      var k: nat :| k < |trace| && trace[k].Halted? && QuietSince(trace, k);
      assert more[k].Halted?;
      forall i | k <= i < |more|
        ensures !more[i].Crash?
      {
        if i < |trace| {
          assert more[i] == trace[i];
        }
      }
    }
  }

  predicate HaltedSince(trace: seq<Event>, n: nat) {
    exists k :: n <= k < |trace| && trace[k].Halted?
  }

  lemma WentDown(trace: seq<Event>, more: seq<Event>)
    requires trace <= more && IsDown(more) && !IsDown(trace)
    ensures HaltedSince(more, |trace|)
  {
    assert forall i | 0 <= i < |trace| :: trace[i] == more[i];
    assert forall k: nat | k < |trace| && QuietSince(more, k) :: QuietSince(trace, k);
    var k: nat :| k < |more| && more[k].Halted? && QuietSince(more, k);
  }

  lemma DownAfter(trace: seq<Event>, e: Event)
    ensures IsDown(trace + [e]) <==> !e.Crash? && (e.Halted? || IsDown(trace))
  {
    var more := trace + [e];
    assert more[|trace|] == e && forall i | 0 <= i < |trace| :: more[i] == trace[i];
    if IsDown(more) && !e.Halted? {
      var k: nat :| k < |more| && more[k].Halted? && QuietSince(more, k);
      assert QuietSince(trace, k);
    } else if e.Halted? {
      assert QuietSince(more, |trace|);
    } else if IsDown(trace) && !e.Crash? {
      StaysDown(trace, more);
    }
  }

  predicate DeniedSince(trace: seq<Event>, n: nat, what: Request) {
    exists k :: n <= k < |trace| && trace[k] == Denied(what)
  }

  predicate ExpiredSince(trace: seq<Event>, n: nat) {
    exists k :: n <= k < |trace| && trace[k].Expired?
  }

  predicate PassiveFrom(trace: seq<Event>, n: nat) {
    forall i | n <= i < |trace| :: Passive(trace[i])
  }

  predicate PassiveBetween(trace: seq<Event>, n: nat, k: int) {
    forall i | n <= i < k && i < |trace| :: Passive(trace[i])
  }

  predicate OutsideFrom(trace: seq<Event>, n: nat) {
    forall i | n <= i < |trace| :: IsOutside(trace[i])
  }

  predicate OutsideBetween(trace: seq<Event>, n: nat, k: int) {
    forall i | n <= i < k && i < |trace| :: IsOutside(trace[i])
  }

  class Host {
    var files: Files
    const pathOf: map<string, string>
    /** The host lists every credential file it has. */
    const complete: bool
    /** Request bodies can be encoded. */
    const encodes: bool
    /** The plugin has crashed and not yet restarted. */
    var down: bool
    ghost const start: Files
    ghost var trace: seq<Event>

    ghost predicate Consistent()
      reads this
    {
      && Valid(start, trace) && files == After(start, trace) && pathOf.Values <= start.Keys
      && RaisesInPlace(pathOf, trace) && (down <==> IsDown(trace))
    }

    constructor (files: Files, pathOf: map<string, string>, complete: bool, encodes: bool)
      requires pathOf.Values <= files.Keys
      ensures Consistent() && trace == [] && start == files == this.files
      ensures this.pathOf == pathOf && this.complete == complete && this.encodes == encodes && !down
    {
      this.files, this.pathOf, this.complete, this.encodes, this.down := files, pathOf, complete, encodes, false;
      this.start, this.trace := files, [];
    }

    ghost function PathFor(authIndex: string): string
      requires Trim(authIndex) in pathOf
    {
      pathOf[Trim(authIndex)]
    }

    /** Something happens that changes no file. */
    ghost method Record(e: Event)
      requires Consistent() && !e.Write? && !e.Halted? && !e.Crash? && CanFollow(start, trace, e)
      modifies `trace
      ensures Consistent() && trace == old(trace) + [e]
    {
      Extend(start, trace, e);
      DownAfter(trace, e);
      trace := trace + [e];
    }

    /** The plugin restarts: the files stay, what was in memory is gone. */
    method Restart()
      requires Consistent()
      modifies `trace, `down
      ensures Consistent() && trace == old(trace) + [Crash] && !down
    {
      Extend(start, trace, Crash);
      DownAfter(trace, Crash);
      trace, down := trace + [Crash], false;
    }

    /** Whether the plugin is still up; it may go down here. */
    method StillUp() returns (up: bool)
      requires Consistent()
      modifies `trace, `down
      ensures Consistent() && up == !down && (old(down) ==> down)
      ensures trace == if down && !old(down) then old(trace) + [Halted] else old(trace)
    {
      if !down {
        var falls := Undecided();
        if falls {
          Extend(start, trace, Halted);
          DownAfter(trace, Halted);
          trace, down := trace + [Halted], true;
        }
      }
      up := !down;
    }

    /** Whether the context is done, or a wait outlives it. */
    method ContextDone() returns (done: bool)
      requires Consistent()
      modifies `trace
      ensures Consistent() && trace == if done then old(trace) + [Expired] else old(trace)
    {
      done := Undecided();
      if done {
        Record(Expired);
      }
    }

    /** waitPriorityPoll, when the context allows for that many more polls. */
    method WaitPriorityPoll(polls: nat) returns (again: bool)
      requires Consistent()
      modifies `trace
      ensures Consistent() && (again <==> polls > 0)
      ensures trace == if again then old(trace) else old(trace) + [Expired]
    {
      again := polls > 0;
      if !again {
        Record(Expired);
      }
    }

    /** Whether the host denies what it is asked for, for any reason. */
    method Denies(ghost what: Request) returns (denied: bool)
      requires Consistent()
      modifies `trace
      ensures Consistent() && trace == if denied then old(trace) + [Denied(what)] else old(trace)
    {
      denied := Undecided();
      if denied {
        Record(Denied(what));
      }
    }

    /** One file's content is replaced, by an outside writer or by the plugin's commit. */
    method Replace(path: string, json: Raw, ghost cause: Cause)
      requires Consistent() && path in files
      requires CanFollow(start, trace, Write(path, files[path], json, cause)) && InPlace(pathOf, path, cause)
      modifies `files, `trace
      ensures Consistent()
      ensures trace == old(trace) + [Write(path, old(files)[path], json, cause)]
      ensures files == old(files)[path := json]
    {
      ghost var e := Write(path, files[path], json, cause);
      Extend(start, trace, e);
      DownAfter(trace, e);
      files := files[path := json];
      trace := trace + [e];
    }

    /** Outside writers run: any number of writes, to any files, of anything. */
    method Interference()
      requires Consistent()
      modifies `files, `trace
      ensures Consistent() && old(trace) <= trace && OutsideFrom(trace, |old(trace)|)
      ensures files.Keys == old(files).Keys
    {
      var writes: nat := *;
      while writes > 0
        invariant Consistent() && old(trace) <= trace && OutsideFrom(trace, |old(trace)|)
        invariant files.Keys == old(files).Keys
      {
        if files.Keys != {} {
          var path :| path in files;
          var json: Raw := *;
          Replace(path, json, Outside);
        }
        writes := writes - 1;
      }
    }

    /** What is up to the environment. */
    method Undecided() returns (b: bool)
    {
      b := *;
    }

    method ListAuths() returns (r: Result<seq<Auth>, HostError>)
      requires Consistent()
      modifies `files, `trace, `down
      ensures Consistent() && old(trace) <= trace && PassiveFrom(trace, |old(trace)|)
      ensures old(down) ==> down && r.Err? && trace == old(trace)
      ensures r.Ok? ==> |trace| > |old(trace)| && trace[|trace| - 1] == Listed(r.value)
      ensures r.Ok? && complete ==> ListsEveryFile(start.Keys, pathOf, r.value)
      ensures r.Err? ==> down || DeniedSince(trace, |old(trace)|, ForListing)
    {
      hide Valid, After, RaisesInPlace, IsDown, ListsEveryFile;
      var up := StillUp();
      if !up {
        return Err(Refused);
      }
      Interference();
      SameFiles(start, trace);
      assert files.Keys == start.Keys;
      var auths: seq<Auth> := *;
      var denied := Undecided();
      if denied || (complete && !ListsEveryFile(files.Keys, pathOf, auths)) {
        Record(Denied(ForListing));
        assert trace[|trace| - 1] == Denied(ForListing);
        return Err(Refused);
      }
      Record(Listed(auths));
      r := Ok(auths);
    }

    method GetRuntimeAuth(authIndex: string) returns (r: Result<Auth, HostError>)
      requires Consistent()
      modifies `files, `trace, `down
      ensures Consistent() && old(trace) <= trace && PassiveFrom(trace, |old(trace)|)
      ensures old(down) ==> down && r.Err? && trace == old(trace)
      ensures r.Ok? ==>
                && !down && |trace| > |old(trace)| && trace[|trace| - 1] == Observe(r.value)
                && OutsideBetween(trace, |old(trace)|, |trace| - 1)
      ensures r.Err? && down && !old(down) ==> trace == old(trace) + [Halted]
      ensures r.Err? && !down ==>
                && |trace| > |old(trace)| && trace[|trace| - 1] == Denied(ForRuntime(authIndex))
                && OutsideBetween(trace, |old(trace)|, |trace| - 1)
    {
      hide Valid, After, RaisesInPlace, IsDown;
      var up := StillUp();
      if !up {
        return Err(Refused);
      }
      Interference();
      var denied := Denies(ForRuntime(authIndex));
      if denied {
        return Err(Refused);
      }
      var seen: Auth := *;
      Record(Observe(seen));
      r := Ok(seen);
    }

    /** The call itself, with the status it will reply with, and the refreshes and logins that
        happen before it and while it is under way. */
    method ExecutePinned(authID: string) returns (r: Result<Int64, HostError>, ghost called: Option<nat>)
      requires Consistent()
      modifies `files, `trace, `down
      ensures Consistent() && old(trace) <= trace
      ensures old(down) ==> called.None?
      ensures called.None? ==> down && r.Err? && PassiveFrom(trace, |old(trace)|)
      ensures called.Some? ==>
                && |old(trace)| <= called.value < |trace|
                && trace[called.value] == Call(authID, if r.Ok? then Some(r.value) else None)
                && PassiveBetween(trace, |old(trace)|, called.value) && PassiveFrom(trace, called.value + 1)
    {
      hide Valid, After, RaisesInPlace, IsDown;
      var up := StillUp();
      if !up {
        return Err(Refused), None;
      }
      Interference();
      var status: Int64 := *;
      var fails := Undecided();
      r, called := if fails then Err(Refused) else Ok(status), Some(|trace|);
      Record(Call(authID, if r.Ok? then Some(r.value) else None));
      label calling:
      Interference();
      assert trace[called.value] == old@calling(trace)[called.value];
      assert forall i | 0 <= i < called.value :: trace[i] == old@calling(trace)[i];
    }

    /** The host names a file, which is then read; what it names is checked. */
    method GetAuthFile(authIndex: string) returns (r: Result<AuthFile, HostError>)
      requires Consistent()
      modifies `files, `trace, `down
      ensures Consistent() && old(trace) <= trace && PassiveFrom(trace, |old(trace)|)
      ensures old(down) ==> down && r.Err? && trace == old(trace)
      ensures r.Ok? ==>
                && !down && Trim(authIndex) in pathOf && r.value.path == PathFor(authIndex)
                && Trim(r.value.authIndex) == Trim(authIndex) && !Blank(r.value.name)
                && r.value.path in files && r.value.json == r.value.expected == files[r.value.path]
                && |trace| > |old(trace)| && GoodFetch(trace[|trace| - 1], authIndex)
                && trace[|trace| - 1].path == r.value.path && trace[|trace| - 1].json == r.value.json
      ensures r.Err? ==> down || Unavailable(trace, |old(trace)|, authIndex)
    {
      hide Valid, After, RaisesInPlace, IsDown, Trim;
      var up := StillUp();
      if !up {
        return Err(Refused);
      }
      Interference();
      SameFiles(start, trace);
      var denied := Undecided();
      if denied || Trim(authIndex) !in pathOf {
        Record(Denied(ForFile(authIndex)));
        assert trace[|trace| - 1] == Denied(ForFile(authIndex));
        return Err(Refused);
      }
      var replied: string := *;
      var name: string := *;
      var path := pathOf[Trim(authIndex)];
      assert path in pathOf.Values;
      var raw := files[path];
      Record(Fetched(authIndex, replied, name, path, raw));
      if Trim(replied) != Trim(authIndex) || Blank(name) || !raw.doc.Readable? {
        assert BadFetch(trace[|trace| - 1], authIndex);
        return Err(Invalid);
      }
      TrimIdempotent(name);
      r := Ok(AuthFile(replied, Trim(name), path, raw, raw));
    }

    /** Success is one commit, as the last thing that happened, replacing exactly the bytes the
        caller had read. Every failure leaves the files to the outside writers, and is a denial or
        a change of the file, or else the request lacked a name or an object. */
    method SaveAuthFile(file: AuthFile, ghost cause: Cause) returns (err: Option<HostError>)
      requires Consistent() && file.path in files && !cause.Outside? && InPlace(pathOf, file.path, cause)
      requires !Blank(file.authIndex) ==> Justified(Write(file.path, file.expected, file.json, cause))
      requires cause.Undo? ==> Remembers(start, trace, file.path, cause.expectation)
      modifies `files, `trace, `down
      ensures Consistent() && old(trace) <= trace
      ensures err.Some? ==> PassiveFrom(trace, |old(trace)|)
      ensures old(down) ==> down && err.Some? && trace == old(trace)
      ensures err.None? ==>
                && |trace| > |old(trace)| && PassiveBetween(trace, |old(trace)|, |trace| - 1)
                && trace[|trace| - 1] == Write(file.path, file.expected, file.json, cause)
                && file.path in files && files[file.path] == file.json && !Blank(file.authIndex)
      ensures err == Some(FileChanged) ==> file.path in files && files[file.path] != file.expected
      ensures err == Some(Refused) ==> down || DeniedSince(trace, |old(trace)|, ForSave(file.path))
      ensures err == Some(Invalid) ==> Blank(file.authIndex) || Blank(file.name) || !file.json.doc.Readable?
    {
      hide Justified, Valid, After, Trim, Remembers, RaisesInPlace, InPlace, IsDown;
      var up := StillUp();
      if !up {
        return Some(Refused);
      }
      if Blank(file.authIndex) || Blank(file.name) || !file.json.doc.Readable? {
        return Some(Invalid);
      }
      Interference();
      var denied := Denies(ForSave(file.path));
      if denied {
        assert trace[|trace| - 1] == Denied(ForSave(file.path));
        return Some(Refused);
      }
      if files[file.path] != file.expected {
        return Some(FileChanged);
      }
      if cause.Undo? {
        RememberedLater(start, old(trace), trace, file.path, cause.expectation);
      }
      err := AtomicWriteAuthFile(file.path, file.json, file.expected, cause);
    }

    /** A temporary file is written beside the target, which takes time and may fail, and is
        then renamed over it if the target still holds the expected bytes. */
    method AtomicWriteAuthFile(path: string, json: Raw, expected: Raw, ghost cause: Cause)
      returns (err: Option<HostError>)
      requires Consistent() && path in files && !cause.Outside? && InPlace(pathOf, path, cause)
      requires Justified(Write(path, expected, json, cause))
      requires cause.Undo? ==> Remembers(start, trace, path, cause.expectation)
      modifies `files, `trace, `down
      ensures Consistent() && old(trace) <= trace
      ensures err.Some? ==> PassiveFrom(trace, |old(trace)|)
      ensures err.None? ==>
                && |trace| > |old(trace)| && PassiveBetween(trace, |old(trace)|, |trace| - 1)
                && trace[|trace| - 1] == Write(path, expected, json, cause)
                && path in files && files[path] == json
      ensures err == Some(FileChanged) ==> path in files && files[path] != expected
      ensures err == Some(Refused) ==> down || DeniedSince(trace, |old(trace)|, ForSave(path))
      ensures err != Some(Invalid)
    {
      hide Justified, Valid, After, Remembers, RaisesInPlace, InPlace, IsDown;
      Interference();
      var denied := Denies(ForSave(path));
      if denied {
        assert trace[|trace| - 1] == Denied(ForSave(path));
        return Some(Refused);
      }
      var up := StillUp();
      if !up {
        return Some(Refused);
      }
      if cause.Undo? {
        RememberedLater(start, old(trace), trace, path, cause.expectation);
      }
      err := ReplaceAuthFileCAS(path, json, expected, cause);
      assert err == Some(Refused) ==> trace[|trace| - 1] == Denied(ForSave(path));
    }

    /** The digest check and the rename, taken as one step. */
    method ReplaceAuthFileCAS(path: string, json: Raw, expected: Raw, ghost cause: Cause)
      returns (err: Option<HostError>)
      requires Consistent() && path in files && !cause.Outside? && InPlace(pathOf, path, cause)
      requires Justified(Write(path, expected, json, cause))
      requires cause.Undo? ==> Remembers(start, trace, path, cause.expectation)
      modifies `files, `trace
      ensures Consistent()
      ensures err.Some? ==>
                && files == old(files) && err != Some(Invalid)
                && trace == if err == Some(Refused) then old(trace) + [Denied(ForSave(path))] else old(trace)
      ensures err == Some(FileChanged) ==> old(files)[path] != expected
      ensures err.None? ==>
                && trace == old(trace) + [Write(path, expected, json, cause)]
                && files == old(files)[path := json] && old(files)[path] == expected
    {
      hide Justified, IsDown;
      var canceled := Denies(ForSave(path));
      if canceled {
        return Some(Refused);
      }
      if files[path] != expected {
        return Some(FileChanged);
      }
      var denied := Denies(ForSave(path));
      if denied {
        return Some(Refused);
      }
      Replace(path, json, cause);
      err := None;
    }
  }

  /** A read of a credential's file with a reply that is about another credential, names no file,
      or names one that is not a JSON object. */
  predicate BadFetch(e: Event, authIndex: string) {
    && e.Fetched? && e.authIndex == authIndex
    && (Trim(e.replied) != Trim(authIndex) || Blank(e.name) || !e.json.doc.Readable?)
  }

  predicate GoodFetch(e: Event, authIndex: string) {
    && e.Fetched? && e.authIndex == authIndex
    && Trim(e.replied) == Trim(authIndex) && !Blank(e.name) && e.json.doc.Readable?
  }

  /** The file of a credential could not be read. */
  predicate Unavailable(trace: seq<Event>, n: nat, authIndex: string) {
    exists k :: n <= k < |trace| && (trace[k] == Denied(ForFile(authIndex)) || BadFetch(trace[k], authIndex))
  }

  /** A file is listed under some index by which recovery will read it. */
  predicate ListsFile(pathOf: map<string, string>, auths: seq<Auth>, path: string) {
    exists a | a in auths :: Recovers(pathOf, a, path)
  }

  predicate ListsEveryFile(paths: set<string>, pathOf: map<string, string>, auths: seq<Auth>) {
    forall path | path in paths :: ListsFile(pathOf, auths, path)
  }

  predicate Recoverable(a: Auth) { HasPhysicalFile(a) && !Blank(a.authIndex) }

  /** An ordinary file credential is recoverable, however its source is spelled. */
  lemma FilesAreRecoverable(a: Auth)
    requires !a.runtimeOnly && !Blank(a.authIndex) && Lower(Trim(a.source)) == "file"
    ensures Recoverable(a)
  {
    hide Trim;
    forall i | 0 <= i < |"file"|
      ensures Lower("file")[i] == "file"[i]
    {
      LowerAt("file", i);
    }
  }

  predicate Recovers(pathOf: map<string, string>, a: Auth, path: string) {
    Recoverable(a) && Trim(a.authIndex) in pathOf && pathOf[Trim(a.authIndex)] == path
  }
}
