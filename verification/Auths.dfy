/**
 Credential metadata: which credentials a run may touch, in which order, and how high a
 priority must be for the scheduler to see one.
 */
module Auths {
  import opened Text
  import opened Configuration

  datatype Auth = Auth(
    id: string,
    authIndex: string,
    provider: string,
    status: string,
    disabled: bool,
    unavailable: bool,
    runtimeOnly: bool,
    source: string,
    priority: Int64)

  // ----- eligibility -----

  function Cleaned(value: string, lower: bool): string {
    if lower then Lower(Trim(value)) else Trim(value)
  }

  function StringSet(values: seq<string>, lower: bool): set<string> {
    set v | v in values && Cleaned(v, lower) != "" :: Cleaned(v, lower)
  }

  method CollectStrings(values: seq<string>, lower: bool) returns (out: set<string>)
    ensures out == StringSet(values, lower)
  {
    out := {};
    for i := 0 to |values|
      invariant out == StringSet(values[..i], lower)
    {
      var item := Cleaned(values[i], lower);
      assert values[..i + 1] == values[..i] + [values[i]];
      if item != "" {
        out := out + {item};
      }
    }
    assert values[..|values|] == values;
  }

  predicate IsDisabled(auth: Auth) { auth.disabled || Lower(Trim(auth.status)) == "disabled" }

  /** AuthEligible: None when eligible, otherwise the reason. */
  function Ineligible(cfg: Config, auth: Auth): Option<string> {
    var authIndex := Trim(auth.authIndex);
    var providers := StringSet(cfg.providers, true);
    var included := StringSet(cfg.includeAuthIndices, false);
    var excluded := StringSet(cfg.excludeAuthIndices, false);
    if Blank(auth.id) then Some("missing_auth_id")
    else if Blank(auth.authIndex) then Some("missing_auth_index")
    else if IsDisabled(auth) then Some("disabled")
    else if cfg.skipUnavailable && auth.unavailable then Some("unavailable")
    else if cfg.physicalFilesOnly && auth.runtimeOnly then Some("not_physical_file")
    else if providers != {} && Lower(Trim(auth.provider)) !in providers then Some("provider_not_selected")
    else if included != {} && authIndex !in included then Some("auth_not_included")
    else if authIndex in excluded then Some("auth_excluded")
    else None
  }

  predicate Eligible(cfg: Config, auth: Auth) { Ineligible(cfg, auth).None? }

  /** The configuration names some value, and the credential's is among those. */
  predicate NamesSome(values: seq<string>) { exists v :: v in values && !Blank(v) }

  predicate NamesProvider(values: seq<string>, provider: string) {
    exists v :: v in values && !Blank(v) && EqualFold(Trim(v), Trim(provider))
  }

  predicate NamesIndex(values: seq<string>, authIndex: string) {
    exists v :: v in values && !Blank(v) && Trim(v) == Trim(authIndex)
  }

  /** Exactly the credentials with an ID and an index that are enabled, available and in a file as far as
      that is asked for, of a chosen provider and an included index if any are named, and of no
      excluded index. */
  lemma EligibleMeans(cfg: Config, auth: Auth)
    ensures Eligible(cfg, auth) <==>
              && !Blank(auth.id) && !Blank(auth.authIndex)
              && !auth.disabled && !EqualFold(Trim(auth.status), "disabled")
              && (cfg.skipUnavailable ==> !auth.unavailable) && (cfg.physicalFilesOnly ==> !auth.runtimeOnly)
              && (NamesSome(cfg.providers) ==> NamesProvider(cfg.providers, auth.provider))
              && (NamesSome(cfg.includeAuthIndices) ==> NamesIndex(cfg.includeAuthIndices, auth.authIndex))
              && !NamesIndex(cfg.excludeAuthIndices, auth.authIndex)
  {
    DisabledIsLower();
    hide Trim, Lower;
    NamedAre(cfg.providers, true, auth.provider);
    NamedAre(cfg.includeAuthIndices, false, auth.authIndex);
    NamedAre(cfg.excludeAuthIndices, false, auth.authIndex);
    hide StringSet;
  }

  lemma DisabledIsLower()
    ensures Lower("disabled") == "disabled"
  {
    forall i | 0 <= i < |"disabled"|
      ensures Lower("disabled")[i] == "disabled"[i]
    {
      LowerAt("disabled", i);
    }
  }

  lemma NamedAre(values: seq<string>, lower: bool, value: string)
    ensures StringSet(values, lower) != {} <==> NamesSome(values)
    ensures lower ==> (Lower(Trim(value)) in StringSet(values, lower) <==> NamesProvider(values, value))
    ensures !lower ==> (Trim(value) in StringSet(values, lower) <==> NamesIndex(values, value))
  {
    hide Trim;
    forall v
      ensures Cleaned(v, lower) != "" <==> !Blank(v)
    {
      assert |Cleaned(v, lower)| == |Trim(v)|;
    }
    hide Lower;
    if v :| v in values && !Blank(v) {
      assert Cleaned(v, lower) in StringSet(values, lower);
    }
    if lower && NamesProvider(values, value) {
      var v :| v in values && !Blank(v) && EqualFold(Trim(v), Trim(value));
      assert Cleaned(v, true) in StringSet(values, true);
    }
    if !lower && NamesIndex(values, value) {
      var v :| v in values && !Blank(v) && Trim(v) == Trim(value);
      assert Cleaned(v, false) in StringSet(values, false);
    }
  }

  predicate HasPhysicalFile(auth: Auth) { !auth.runtimeOnly && EqualFold(Trim(auth.source), "file") }

  // ----- the targets of a run -----

  predicate Wanted(cfg: Config, requested: set<string>, auth: Auth) {
    (requested == {} || Trim(auth.authIndex) in requested) && Eligible(cfg, auth)
  }

  /** A run wants the eligible credentials it was asked for, or all of them if it was asked for none. */
  lemma WantedMeans(cfg: Config, requested: seq<string>, auth: Auth)
    ensures Wanted(cfg, StringSet(requested, false), auth) <==>
              Eligible(cfg, auth) && (NamesSome(requested) ==> NamesIndex(requested, auth.authIndex))
  {
    hide Trim, Ineligible;
    NamedAre(requested, false, auth.authIndex);
    hide StringSet;
  }

  function Selected(cfg: Config, requested: set<string>, auths: seq<Auth>): (r: seq<Auth>)
    ensures forall a :: a in r <==> a in auths && Wanted(cfg, requested, a)
  {
    if auths == [] then []
    else
      var init := Selected(cfg, requested, auths[..|auths| - 1]);
      var last := auths[|auths| - 1];
      assert auths == auths[..|auths| - 1] + [last];
      if Wanted(cfg, requested, last) then init + [last] else init
  }

  predicate Less(a: Auth, b: Auth) {
    var p := Lower(Trim(a.provider));
    var q := Lower(Trim(b.provider));
    if p != q then Before(p, q) else Before(a.authIndex, b.authIndex)
  }

  predicate Ordered(s: seq<Auth>) {
    forall i, j | 0 <= i < j < |s| :: !Less(s[j], s[i])
  }

  /** Targets come by provider, and those of one provider by index. */
  lemma OrderedByProviderAndIndex(s: seq<Auth>, i: nat, j: nat)
    requires Ordered(s) && i < j < |s|
    ensures var p, q := Lower(Trim(s[i].provider)), Lower(Trim(s[j].provider));
      Before(p, q) || (p == q && (Before(s[i].authIndex, s[j].authIndex) || s[i].authIndex == s[j].authIndex))
  {
    BeforeTotal(Lower(Trim(s[i].provider)), Lower(Trim(s[j].provider)));
    BeforeTotal(s[i].authIndex, s[j].authIndex);
    hide Lower, Trim, Before;
  }

  lemma NotLessTransitive(a: Auth, b: Auth, c: Auth)
    requires !Less(b, a) && !Less(c, b)
    ensures !Less(c, a)
  {
    var p, q, r := Lower(Trim(a.provider)), Lower(Trim(b.provider)), Lower(Trim(c.provider));
    if Less(c, a) {
      BeforeTotal(p, q); BeforeTotal(q, r); BeforeTotal(r, p);
      BeforeTotal(a.authIndex, b.authIndex); BeforeTotal(b.authIndex, c.authIndex);
      if p == q == r {
        if a.authIndex != b.authIndex && b.authIndex != c.authIndex {
          BeforeTransitive(a.authIndex, b.authIndex, c.authIndex);
          BeforeAsymmetric(a.authIndex, c.authIndex);
        }
      } else if p != q && q != r {
        BeforeTransitive(p, q, r);
        if p == r { BeforeAsymmetric(p, q); } else { BeforeAsymmetric(p, r); }
      } else {
        BeforeAsymmetric(r, p);
      }
    }
  }

  function Insert(x: Auth, s: seq<Auth>): (r: seq<Auth>)
    ensures multiset(r) == multiset(s) + multiset{x}
  {
    if s == [] || Less(x, s[0]) then [x] + s
    else
      assert s == [s[0]] + s[1..];
      [s[0]] + Insert(x, s[1..])
  }

  lemma {:induction false} InsertOrdered(x: Auth, s: seq<Auth>)
    requires Ordered(s)
    ensures Ordered(Insert(x, s))
  {
    hide Less;
    if s == [] {
    } else if Less(x, s[0]) {
      NotLessBack(x, s[0]);
      forall j | 0 <= j < |s|
        ensures !Less(s[j], x)
      {
        if j > 0 {
          NotLessTransitive(x, s[0], s[j]);
        }
      }
    } else {
      InsertOrdered(x, s[1..]);
      var tail := Insert(x, s[1..]);
      forall j | 0 <= j < |tail|
        ensures !Less(tail[j], s[0])
      {
        assert tail[j] in multiset(tail);
        assert tail[j] == x || tail[j] in s[1..];
      }
    }
  }

  lemma NotLessBack(a: Auth, b: Auth)
    requires Less(a, b)
    ensures !Less(b, a)
  {
    var p, q := Lower(Trim(a.provider)), Lower(Trim(b.provider));
    if p != q { BeforeAsymmetric(p, q); } else { BeforeAsymmetric(a.authIndex, b.authIndex); }
  }

  /** The library sort: any order of the same credentials that respects Less. */
  method SortAuths(s: seq<Auth>) returns (out: seq<Auth>)
    ensures multiset(out) == multiset(s) && Ordered(out)
  {
    out := [];
    for i := 0 to |s|
      invariant multiset(out) == multiset(s[..i]) && Ordered(out)
    {
      InsertOrdered(s[i], out);
      assert s[..i + 1] == s[..i] + [s[i]];
      out := Insert(s[i], out);
    }
    assert s[..|s|] == s;
  }

  /** FilterAuths: exactly the wanted credentials, each as often as it was listed, in order. */
  method FilterAuths(cfg: Config, auths: seq<Auth>, requestedAuthIndices: seq<string>)
    returns (targets: seq<Auth>)
    ensures multiset(targets) == multiset(Selected(cfg, StringSet(requestedAuthIndices, false), auths))
    ensures Ordered(targets)
    ensures forall a :: a in targets <==> a in auths && Wanted(cfg, StringSet(requestedAuthIndices, false), a)
  {
    var requested := CollectStrings(requestedAuthIndices, false);
    var out: seq<Auth> := [];
    for i := 0 to |auths|
      invariant out == Selected(cfg, requested, auths[..i])
    {
      assert auths[..i + 1][..i] == auths[..i];
      if Wanted(cfg, requested, auths[i]) {
        out := out + [auths[i]];
      }
    }
    assert auths[..|auths|] == auths;
    targets := SortAuths(out);
    forall a
      ensures a in targets <==> a in out
    {
      assert a in multiset(targets) <==> a in multiset(out);
    }
  }

  // ----- duplicate identities -----

  /** What identifies a credential: its trimmed ID and its trimmed index. */
  function Identities(auths: seq<Auth>): (r: seq<(string, string)>)
    ensures |r| == |auths|
    ensures forall i | 0 <= i < |auths| :: r[i] == (Trim(auths[i].id), Trim(auths[i].authIndex))
  {
    seq(|auths|, i requires 0 <= i < |auths| => (Trim(auths[i].id), Trim(auths[i].authIndex)))
  }

  predicate Distinct(ids: seq<(string, string)>) {
    forall i, j | 0 <= i < j < |ids| :: ids[i].0 != ids[j].0 && ids[i].1 != ids[j].1
  }

  lemma ExtendDistinct(ids: seq<(string, string)>, id: (string, string))
    requires Distinct(ids)
    requires forall i | 0 <= i < |ids| :: ids[i].0 != id.0 && ids[i].1 != id.1
    ensures Distinct(ids + [id])
  {
  }

  predicate DistinctIdentities(auths: seq<Auth>) { Distinct(Identities(auths)) }

  method HasDuplicateAuthIdentity(auths: seq<Auth>) returns (duplicate: bool)
    ensures duplicate <==> !DistinctIdentities(auths)
  {
    hide Trim;
    ghost var ids := Identities(auths);
    var seenIDs, seenIndices: set<string> := {}, {};
    for k := 0 to |auths|
      invariant seenIDs == set i | 0 <= i < k :: ids[i].0
      invariant seenIndices == set i | 0 <= i < k :: ids[i].1
      invariant Distinct(ids[..k])
    {
      var authID, authIndex := Trim(auths[k].id), Trim(auths[k].authIndex);
      assert ids[k] == (authID, authIndex);
      if authID in seenIDs || authIndex in seenIndices {
        return true;
      }
      ExtendDistinct(ids[..k], ids[k]);
      assert ids[..k + 1] == ids[..k] + [ids[k]];
      seenIDs, seenIndices := seenIDs + {authID}, seenIndices + {authIndex};
    }
    assert ids[..|auths|] == ids;
    return false;
  }

  // ----- the priority tier the scheduler sees -----

  /** The highest priority among the credentials that are not disabled. */
  function Highest(auths: seq<Auth>): Option<Int64> {
    if auths == [] then None
    else
      var rest := Highest(auths[..|auths| - 1]);
      var last := auths[|auths| - 1];
      if IsDisabled(last) then rest
      else if rest.None? || last.priority > rest.value then Some(last.priority)
      else rest
  }

  method HighestAvailablePriority(auths: seq<Auth>) returns (highest: Int64, found: bool)
    ensures (if found then Some(highest) else None) == Highest(auths)
  {
    highest, found := 0, false;
    for i := 0 to |auths|
      invariant (if found then Some(highest) else None) == Highest(auths[..i])
    {
      assert auths[..i + 1][..i] == auths[..i];
      if !IsDisabled(auths[i]) && (!found || auths[i].priority > highest) {
        highest, found := auths[i].priority, true;
      }
    }
    assert auths[..|auths|] == auths;
  }

  function DesiredPriority(auth: Auth, highest: Option<Int64>): Int64 {
    if highest.None? || highest.value < auth.priority then auth.priority else highest.value
  }

  lemma {:induction false} HighestIsMaximum(auths: seq<Auth>)
    ensures forall i | 0 <= i < |auths| && !IsDisabled(auths[i]) ::
              Highest(auths).Some? && auths[i].priority <= Highest(auths).value
    ensures Highest(auths).Some? ==>
              exists i :: 0 <= i < |auths| && !IsDisabled(auths[i]) && auths[i].priority == Highest(auths).value
  {
    hide IsDisabled;
    if auths != [] {
      var init := auths[..|auths| - 1];
      HighestIsMaximum(init);
      if Highest(auths).Some? {
        var last := |auths| - 1;
        if !IsDisabled(auths[last]) && auths[last].priority == Highest(auths).value {
        } else {
          var i :| 0 <= i < |init| && !IsDisabled(init[i]) && init[i].priority == Highest(init).value;
          assert auths[i] == init[i];
        }
      }
    }
  }

  /** The indices of the credentials in the highest tier. */
  function TopTier(auths: seq<Auth>): set<int> {
    set i | 0 <= i < |auths| && !IsDisabled(auths[i]) && Highest(auths) == Some(auths[i].priority)
  }

  /** Aligning an enabled credential with the highest priority adds it to the top tier and
      pushes nobody out; raising it any further would. */
  lemma AlignmentKeepsTopTier(auths: seq<Auth>, target: nat)
    requires target < |auths| && !IsDisabled(auths[target])
    ensures var to := DesiredPriority(auths[target], Highest(auths));
      TopTier(auths[target := auths[target].(priority := to)]) == TopTier(auths) + {target}
    ensures forall to: Int64 | Highest(auths).Some? && to > Highest(auths).value ::
      TopTier(auths[target := auths[target].(priority := to)]) == {target}
  {
    hide Trim, Lower;
    HighestIsMaximum(auths);
    var highest := Highest(auths).value;
    var to := DesiredPriority(auths[target], Highest(auths));
    var aligned := auths[target := auths[target].(priority := to)];
    MaximumIsHighest(aligned, highest, target);
    forall i
      ensures i in TopTier(aligned) <==> i in TopTier(auths) + {target}
    {
    }
    forall to: Int64 | to > highest
      ensures TopTier(auths[target := auths[target].(priority := to)]) == {target}
    {
      var raised := auths[target := auths[target].(priority := to)];
      MaximumIsHighest(raised, to, target);
      forall i
        ensures i in TopTier(raised) <==> i in {target}
      {
      }
    }
  }

  lemma MaximumIsHighest(auths: seq<Auth>, h: Int64, at: nat)
    requires at < |auths| && !IsDisabled(auths[at]) && auths[at].priority == h
    requires forall i | 0 <= i < |auths| && !IsDisabled(auths[i]) :: auths[i].priority <= h
    ensures Highest(auths) == Some(h)
  {
    hide IsDisabled;
    HighestIsMaximum(auths);
    assert auths[at].priority <= Highest(auths).value;
    var i :| 0 <= i < |auths| && !IsDisabled(auths[i]) && auths[i].priority == Highest(auths).value;
    assert auths[i].priority <= h;
  }
}
