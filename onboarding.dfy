/**
  `Onboarding`: creating a workspace (an organization) with a unique slug, making its creator the
  owner and the session's active organization, and switching the active organization.
*/
module Onboarding {
  import opened Wrappers
  import opened PyValues
  import opened ViewUtils

  // ---------------------------------------------------------------------------
  // slugify
  // ---------------------------------------------------------------------------

  /** The characters of `\w` that survive `slugify` on ASCII text. */
  predicate IsSlugWordChar(c: char) {
    'a' <= c <= 'z' || '0' <= c <= '9' || c == '_'
  }

  predicate IsSlugChar(c: char) {
    IsSlugWordChar(c) || c == '-'
  }

  /** The separators `slugify` folds into one hyphen: `[-\s]`. */
  predicate IsSep(c: char) {
    c == '-' || IsSpace(c)
  }

  predicate IsTrimmed(c: char) {
    c == '-' || c == '_'
  }

  /** Two hyphens in a row at `i`. */
  predicate DoubleHyphenAt(s: string, i: int)
    requires 0 <= i < |s| - 1
  {
    s[i] == '-' && s[i + 1] == '-'
  }

  predicate NoDoubleHyphen(s: string) {
    forall i :: 0 <= i < |s| - 1 ==> !DoubleHyphenAt(s, i)
  }

  /**
    A slug: only lower-case letters, digits, `_` and `-`, never two hyphens in a row, and no `-`
    or `_` at either end.
  */
  predicate IsSlug(s: string) {
    (forall i :: 0 <= i < |s| ==> IsSlugChar(s[i])) &&
    (NoDoubleHyphen(s)) &&
    (|s| > 0 ==> !IsTrimmed(s[0]) && !IsTrimmed(s[|s| - 1]))
  }

  /**
    The ASCII encoding with `ignore`, `lower()` and `re.sub(r"[^\w\s-]", "", …)`: non-ASCII
    characters and every character other than a word character, blank or hyphen are dropped.
  */
  function Clean(s: string): (r: string)
    ensures forall i :: 0 <= i < |r| ==> IsSlugWordChar(r[i]) || IsSep(r[i])
  {
    if s == [] then []
    else
      var c := LowerChar(s[0]);
      var rest := Clean(s[1..]);
      if (s[0] as int) < 128 && (IsSlugWordChar(c) || IsSep(c)) then [c] + rest else rest
  }

  /** `re.sub(r"[-\s]+", "-", …)`; `inRun` says a separator run has already been written. */
  function Collapse(s: string, inRun: bool): (r: string)
    requires forall i :: 0 <= i < |s| ==> IsSlugWordChar(s[i]) || IsSep(s[i])
    ensures forall i :: 0 <= i < |r| ==> IsSlugChar(r[i])
    ensures NoDoubleHyphen(r)
    ensures inRun && |r| > 0 ==> r[0] != '-'
  {
    if s == [] then []
    else if IsSep(s[0]) then
      if inRun then Collapse(s[1..], true)
      else
        var rest := Collapse(s[1..], true);
        PrependKeepsNoDoubleHyphen('-', rest);
        "-" + rest
    else
      var rest := Collapse(s[1..], false);
      PrependKeepsNoDoubleHyphen(s[0], rest);
      [s[0]] + rest
  }

  /** Prepending a character keeps hyphens single unless it doubles a leading hyphen. */
  lemma PrependKeepsNoDoubleHyphen(c: char, rest: string)
    requires NoDoubleHyphen(rest)
    requires c == '-' ==> |rest| == 0 || rest[0] != '-'
    ensures NoDoubleHyphen([c] + rest)
  {
    var r := [c] + rest;
    forall i | 0 <= i < |r| - 1
      ensures !DoubleHyphenAt(r, i)
    {
      if i > 0 {
        assert !DoubleHyphenAt(rest, i - 1);
        assert r[i] == rest[i - 1] && r[i + 1] == rest[i];
      }
    }
  }

  /** `lstrip("-_")` */
  function TrimLeft(s: string): (r: string)
    ensures |r| <= |s| && r == s[|s| - |r|..]
    ensures |r| > 0 ==> !IsTrimmed(r[0])
  {
    if |s| > 0 && IsTrimmed(s[0]) then TrimLeft(s[1..]) else s
  }

  /** `rstrip("-_")` */
  function TrimRight(s: string): (r: string)
    ensures |r| <= |s| && r == s[..|r|]
    ensures |r| > 0 ==> !IsTrimmed(r[|r| - 1])
  {
    if |s| > 0 && IsTrimmed(s[|s| - 1]) then TrimRight(s[..|s| - 1]) else s
  }

  /** `django.utils.text.slugify` on a name. */
  function Slugify(name: string): (r: string)
    ensures IsSlug(r)
  {
    var collapsed := Collapse(Clean(name), false);
    TrimmedIsSlug(collapsed);
    TrimRight(TrimLeft(collapsed))
  }

  /** Stripping `-` and `_` from both ends of collapsed text leaves a slug. */
  lemma {:induction false} TrimmedIsSlug(s: string)
    requires forall i :: 0 <= i < |s| ==> IsSlugChar(s[i])
    requires NoDoubleHyphen(s)
    ensures IsSlug(TrimRight(TrimLeft(s)))
  {
    var left := TrimLeft(s);
    var r := TrimRight(left);
    var k := |s| - |left|;
    assert left == s[k..];
    assert r == left[..|r|];
    SliceKeepsShape(s, k, k + |r|, r);
    if |r| > 0 {
      assert r[0] == left[0];
    }
  }

  /** A slice of hyphen-and-word text without doubled hyphens has neither property broken. */
  lemma {:induction false} SliceKeepsShape(s: string, a: int, b: int, t: string)
    requires 0 <= a <= b <= |s| && |t| == b - a
    requires forall i :: 0 <= i < |t| ==> t[i] == s[a + i]
    requires forall i :: 0 <= i < |s| ==> IsSlugChar(s[i])
    requires NoDoubleHyphen(s)
    ensures forall i :: 0 <= i < |t| ==> IsSlugChar(t[i])
    ensures NoDoubleHyphen(t)
  {
    forall i | 0 <= i < |t| - 1
      ensures !DoubleHyphenAt(t, i)
    {
      assert !DoubleHyphenAt(s, a + i);
      assert t[i] == s[a + i] && t[i + 1] == s[a + i + 1];
    }
  }

  /** `slugify(name) or "workspace"`: never empty. */
  function BaseSlug(name: string): (r: string)
    ensures IsSlug(r) && r != ""
    ensures Slugify(name) != "" ==> r == Slugify(name)
  {
    var s := Slugify(name);
    if s == "" then "workspace" else s
  }

  /** A name of punctuation only falls back to "workspace". */
  lemma PunctuationFallsBack()
    ensures BaseSlug("!!") == "workspace"
  {
    assert Clean("!") == "";
    assert Clean("!!") == "";
    assert Collapse("", false) == "";
  }

  /** Upper case is folded and a blank becomes `-`. */
  lemma BlankBecomesHyphen()
    ensures Slugify("A b") == "a-b"
  {
    CleanExample();
    CollapseExample();
    assert TrimLeft("a-b") == "a-b";
    assert TrimRight("a-b") == "a-b";
  }

  /** The cleaning step of the example: lower case, the blank kept. */
  lemma CleanExample()
    ensures Clean("A b") == "a b"
  {
    assert "A b"[1..] == " b" && " b"[1..] == "b" && "b"[1..] == "";
    assert LowerChar('A') == 'a';
    assert Clean("b") == "b";
    assert Clean(" b") == " b";
  }

  /** The collapsing step of the example: the blank becomes one hyphen. */
  lemma CollapseExample()
    ensures Collapse("a b", false) == "a-b"
  {
    assert "a b"[1..] == " b" && " b"[1..] == "b" && "b"[1..] == "";
    assert Collapse("b", true) == "b";
    assert Collapse(" b", false) == "-b";
  }

  // ---------------------------------------------------------------------------
  // The unique-slug loop
  // ---------------------------------------------------------------------------

  /** The `idx`-th slug the loop tries: the base itself, then `{base}-2`, `{base}-3`, … */
  function Candidate(base: string, idx: nat): string
    requires idx >= 1
  {
    if idx == 1 then base else base + "-" + FormatNat(idx)
  }

  /** Different attempts try different slugs, which is why the loop ends. */
  lemma CandidateInjective(base: string, j: nat, k: nat)
    requires j >= 1 && k >= 1
    ensures Candidate(base, j) == Candidate(base, k) <==> j == k
  {
    if j > 1 && k > 1 && Candidate(base, j) == Candidate(base, k) {
      assert Candidate(base, j)[|base| + 1..] == FormatNat(j);
      assert Candidate(base, k)[|base| + 1..] == FormatNat(k);
      DigitsValueOfFormatNat(j);
      DigitsValueOfFormatNat(k);
    }
  }

  /** `slug` is the first candidate not in `taken`. */
  ghost predicate FirstFree(base: string, taken: set<string>, slug: string) {
    exists idx: nat :: idx >= 1 && slug == Candidate(base, idx) && slug !in taken &&
      forall k :: 1 <= k < idx ==> Candidate(base, k) in taken
  }

  /** The slugs the loop has tried before attempt `idx`. */
  ghost function Tried(base: string, idx: nat): set<string>
    requires idx >= 1
  {
    if idx == 1 then {} else Tried(base, idx - 1) + {Candidate(base, idx - 1)}
  }

  /** A later attempt tries a slug not tried before. */
  lemma {:induction false} NotTriedYet(base: string, n: nat, idx: nat)
    requires 1 <= n <= idx
    ensures Candidate(base, idx) !in Tried(base, n)
  {
    if n > 1 {
      NotTriedYet(base, n - 1, idx);
      CandidateInjective(base, n - 1, idx);
    }
  }

  /** The `while … exists()` loop: tries candidates in order until one is free. */
  method UniqueSlug(base: string, taken: set<string>) returns (slug: string, idx: nat)
    ensures idx >= 1 && slug == Candidate(base, idx)
    ensures slug !in taken
    ensures forall k :: 1 <= k < idx ==> Candidate(base, k) in taken
  {
    slug := base;
    idx := 1;
    while slug in taken
      invariant idx >= 1 && slug == Candidate(base, idx)
      invariant forall k :: 1 <= k < idx ==> Candidate(base, k) in taken
      invariant Tried(base, idx) <= taken
      decreases |taken - Tried(base, idx)|
    {
      NotTriedYet(base, idx, idx);
      assert taken - Tried(base, idx + 1) == (taken - Tried(base, idx)) - {slug};
      idx := idx + 1;
      slug := Candidate(base, idx);
    }
  }

  /** What the loop returns is the first free candidate. */
  lemma FoundIsFirstFree(base: string, taken: set<string>, slug: string, idx: nat)
    requires idx >= 1 && slug == Candidate(base, idx) && slug !in taken
    requires forall k :: 1 <= k < idx ==> Candidate(base, k) in taken
    ensures FirstFree(base, taken, slug) && slug !in taken
  {
  }

  /** When the base slug is free it is used unchanged; otherwise a numbered one is. */
  lemma FreeBaseIsKept(base: string, taken: set<string>, slug: string)
    requires FirstFree(base, taken, slug)
    ensures base !in taken ==> slug == base
    ensures base in taken ==> slug != base
  {
    var idx: nat :| idx >= 1 && slug == Candidate(base, idx) && slug !in taken &&
      forall k :: 1 <= k < idx ==> Candidate(base, k) in taken;
    CandidateInjective(base, 1, idx);
  }

  // ---------------------------------------------------------------------------
  // Organizations, memberships and the session
  // ---------------------------------------------------------------------------

  datatype Organization = Organization(name: string, slug: string)

  function SlugsOf(orgs: map<string, Organization>): (r: set<string>)
    ensures forall id :: id in orgs ==> orgs[id].slug in r
  {
    set id | id in orgs :: orgs[id].slug
  }

  /** `Organization.slug` is unique. */
  predicate UniqueSlugs(orgs: map<string, Organization>) {
    forall a, b :: a in orgs && b in orgs && orgs[a].slug == orgs[b].slug ==> a == b
  }

  /** Every membership names an existing organization. */
  predicate MembersInOrgs(memberships: map<(string, string), Role>, orgs: map<string, Organization>) {
    forall p :: p in memberships ==> p.0 in orgs
  }

  /** The creator's membership of a new organization names an existing organization too. */
  lemma AddKeepsMembersInOrgs(memberships: map<(string, string), Role>, orgs: map<string, Organization>,
                              id: string, org: Organization, user: string)
    requires MembersInOrgs(memberships, orgs)
    ensures MembersInOrgs(memberships[(id, user) := Owner], orgs[id := org])
  {
  }

  /** A new organization with an unused slug, and its creator's membership, keep the workspace invariants. */
  lemma WorkspaceAdded(orgs: map<string, Organization>, memberships: map<(string, string), Role>,
                       id: string, user: string, org: Organization)
    requires UniqueSlugs(orgs) && MembersInOrgs(memberships, orgs) && id !in orgs && org.slug !in SlugsOf(orgs)
    ensures UniqueSlugs(orgs[id := org]) && MembersInOrgs(memberships[(id, user) := Owner], orgs[id := org])
    ensures (id, user) !in memberships
  {
    AddKeepsSlugsUnique(orgs, id, org);
    AddKeepsMembersInOrgs(memberships, orgs, id, org, user);
  }

  /** Adding an organization under a new id with an unused slug keeps slugs unique. */
  lemma AddKeepsSlugsUnique(orgs: map<string, Organization>, id: string, org: Organization)
    requires UniqueSlugs(orgs) && id !in orgs && org.slug !in SlugsOf(orgs)
    ensures UniqueSlugs(orgs[id := org])
    ensures SlugsOf(orgs[id := org]) == SlugsOf(orgs) + {org.slug}
  {
    var grown := orgs[id := org];
    forall s | s in SlugsOf(grown)
      ensures s in SlugsOf(orgs) + {org.slug}
    {
      var x :| x in grown && grown[x].slug == s;
    }
    forall x | x in orgs
      ensures orgs[x].slug in SlugsOf(grown)
    {
      assert grown[x] == orgs[x];
    }
    assert org.slug == grown[id].slug;
  }

  /** The user has some membership, so the request's active organization resolves to one. */
  predicate HasMembership(memberships: map<(string, string), Role>, user: string) {
    exists p :: p in memberships && p.1 == user
  }

  class Workspaces {
    var orgs: map<string, Organization>
    var memberships: map<(string, string), Role>
    /** `request.session["active_org_id"]` */
    var activeOrg: Option<string>

    ghost predicate Valid()
      reads this
    {
      UniqueSlugs(orgs) && MembersInOrgs(memberships, orgs)
    }

    constructor ()
      ensures Valid()
      ensures orgs == map[] && memberships == map[] && activeOrg.None?
    {
      orgs := map[];
      memberships := map[];
      activeOrg := None;
    }

    /**
      `workspaces_new` on a POST: a blank name changes nothing; otherwise the organization gets
      the first free slug, its creator an OWNER membership, and the session points at it.
      `newId` is the organization's fresh UUID.
    */
    method CreateWorkspace(user: string, rawName: Option<string>, newId: string) returns (created: Option<string>)
      requires Valid() && newId !in orgs
      modifies this
      ensures Valid()
      ensures var name := Strip(rawName.GetOr(""));
        if name == "" then
          created.None? && orgs == old(orgs) && memberships == old(memberships) && activeOrg == old(activeOrg)
        else
          created == Some(newId) && newId in orgs &&
          orgs == old(orgs)[newId := orgs[newId]] &&
          orgs[newId].name == name &&
          FirstFree(BaseSlug(name), SlugsOf(old(orgs)), orgs[newId].slug) &&
          (newId, user) !in old(memberships) &&
          memberships == old(memberships)[(newId, user) := Owner] &&
          activeOrg == Some(newId)
    {
      var name := Strip(rawName.GetOr(""));
      if name == "" {
        return None;
      }
      var base := BaseSlug(name);
      var taken := SlugsOf(orgs);
      var slug, idx := UniqueSlug(base, taken);
      FoundIsFirstFree(base, taken, slug, idx);
      AddOrganization(user, Organization(name, slug), newId);
      created := Some(newId);
    }

    /** The inserts of `workspaces_new`: the organization, the creator's OWNER membership, the session. */
    method AddOrganization(user: string, org: Organization, newId: string)
      requires Valid() && newId !in orgs && org.slug !in SlugsOf(orgs)
      modifies this
      ensures Valid()
      ensures orgs == old(orgs)[newId := org] && (newId, user) !in old(memberships)
      ensures memberships == old(memberships)[(newId, user) := Owner] && activeOrg == Some(newId)
    {
      WorkspaceAdded(orgs, memberships, newId, user, org);
      orgs := orgs[newId := org];
      memberships := memberships[(newId, user) := Owner];
      activeOrg := Some(newId);
    }

    /**
      `onboarding` on a POST: a user who already has an active organization (some membership,
      from which the request's active organization is resolved) is sent home and nothing changes;
      otherwise it creates the workspace as `workspaces_new` does.
    */
    method OnboardingPost(user: string, rawName: Option<string>, newId: string) returns (created: Option<string>)
      requires Valid() && newId !in orgs
      modifies this
      ensures Valid()
      ensures HasMembership(old(memberships), user) ==>
        created.None? && orgs == old(orgs) && memberships == old(memberships) && activeOrg == old(activeOrg)
      ensures var name := Strip(rawName.GetOr(""));
        !HasMembership(old(memberships), user) ==>
        if name == "" then
          created.None? && orgs == old(orgs) && memberships == old(memberships) && activeOrg == old(activeOrg)
        else
          created == Some(newId) && newId in orgs &&
          orgs == old(orgs)[newId := orgs[newId]] &&
          orgs[newId].name == name &&
          FirstFree(BaseSlug(name), SlugsOf(old(orgs)), orgs[newId].slug) &&
          (newId, user) !in old(memberships) &&
          memberships == old(memberships)[(newId, user) := Owner] &&
          activeOrg == Some(newId)
      ensures Strip(rawName.GetOr("")) == "" ==> created.None? && orgs == old(orgs)
    {
      if HasMembership(memberships, user) {
        return None;
      }
      created := CreateWorkspace(user, rawName, newId);
    }

    /** `switch_org`: only an existing organization the user belongs to becomes active. */
    method SwitchOrg(user: string, orgId: string) returns (switched: bool)
      modifies this
      ensures switched <==> orgId in orgs && (orgId, user) in memberships
      ensures activeOrg == if switched then Some(orgId) else old(activeOrg)
      ensures orgs == old(orgs) && memberships == old(memberships)
    {
      if orgId !in orgs {
        return false;
      }
      if (orgId, user) !in memberships {
        return false;
      }
      activeOrg := Some(orgId);
      switched := true;
    }
  }

  /** In any workspace table, the creator of a new workspace can switch back to it afterwards. */
  method CreateThenSwitch(w: Workspaces, user: string, name: string, newId: string) returns (switched: bool)
    requires w.Valid() && newId !in w.orgs
    requires Strip(name) != ""
    modifies w
    ensures switched && w.activeOrg == Some(newId)
  {
    var created := w.CreateWorkspace(user, Some(name), newId);
    switched := w.SwitchOrg(user, newId);
  }
}
