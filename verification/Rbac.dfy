/**
 governance/rbac.py: role policies with wildcards, where a denial overrides every permission. A
 pattern is literal text with `*`; the regular expression that the code builds from it is read
 exactly, with a dot that does not match a line feed and an end that may precede a final one.
 */
module Rbac {
  // ---------- patterns ----------

  /** The regular expression `^...$` with `.*` for each star, matched against the whole target. */
  predicate RegexMatch(pattern: string, target: string)
    decreases |pattern| + |target|
  {
    if pattern == "" then target == "" || target == "\n"
    else if pattern[0] == '*' then
      RegexMatch(pattern[1..], target)
      || (target != "" && target[0] != '\n' && RegexMatch(pattern, target[1..]))
    else target != "" && target[0] == pattern[0] && RegexMatch(pattern[1..], target[1..])
  }

  predicate MatchPattern(pattern: string, target: string) {
    pattern == "*" || RegexMatch(pattern, target)
  }

  function Stars(pattern: string): nat {
    if pattern == "" then 0 else (if pattern[0] == '*' then 1 else 0) + Stars(pattern[1..])
  }

  /** The pattern with its stars replaced, in order, by the given texts. */
  ghost function Fill(pattern: string, gaps: seq<string>): string
    requires |gaps| == Stars(pattern)
  {
    if pattern == "" then ""
    else if pattern[0] == '*' then gaps[0] + Fill(pattern[1..], gaps[1..])
    else [pattern[0]] + Fill(pattern[1..], gaps)
  }

  ghost predicate OneLine(s: string) {
    forall i :: 0 <= i < |s| ==> s[i] != '\n'
  }

  /** The target is the pattern with one-line texts for its stars, and perhaps a final line feed. */
  ghost predicate Splits(pattern: string, target: string, gaps: seq<string>, end: string) {
    && |gaps| == Stars(pattern)
    && (forall i :: 0 <= i < |gaps| ==> OneLine(gaps[i]))
    && (end == "" || end == "\n")
    && target == Fill(pattern, gaps) + end
  }

  lemma {:induction false} SplitOfMatch(pattern: string, target: string) returns (gaps: seq<string>, end: string)
    requires RegexMatch(pattern, target)
    ensures Splits(pattern, target, gaps, end)
    decreases |pattern| + |target|
  {
    if pattern == "" {
      gaps, end := [], target;
    } else if pattern[0] == '*' {
      if RegexMatch(pattern[1..], target) {
        gaps, end := SplitOfMatch(pattern[1..], target);
        gaps := [""] + gaps;
        assert gaps[1..] + [] == gaps[1..];
        assert "" + Fill(pattern[1..], gaps[1..]) == Fill(pattern[1..], gaps[1..]);
      } else {
        var rest;
        rest, end := SplitOfMatch(pattern, target[1..]);
        gaps := [[target[0]] + rest[0]] + rest[1..];
        FillLonger(pattern, rest, target[0]);
      }
    } else {
      gaps, end := SplitOfMatch(pattern[1..], target[1..]);
    }
  }

  lemma FillLonger(pattern: string, gaps: seq<string>, c: char)
    requires pattern != "" && pattern[0] == '*' && |gaps| == Stars(pattern)
    ensures Fill(pattern, [[c] + gaps[0]] + gaps[1..]) == [c] + Fill(pattern, gaps)
  {
    var longer := [[c] + gaps[0]] + gaps[1..];
    assert longer[1..] == gaps[1..];
  }

  lemma {:induction false} MatchOfSplit(pattern: string, target: string, gaps: seq<string>, end: string)
    requires Splits(pattern, target, gaps, end)
    ensures RegexMatch(pattern, target)
    decreases |pattern| + |target|
  {
    if pattern == "" {
    } else if pattern[0] == '*' {
      var tail := Fill(pattern[1..], gaps[1..]) + end;
      assert target == gaps[0] + tail;
      if gaps[0] == "" {
        assert target == tail;
        MatchOfSplit(pattern[1..], target, gaps[1..], end);
      } else {
        var shorter := [gaps[0][1..]] + gaps[1..];
        assert shorter[1..] == gaps[1..];
        assert target[1..] == gaps[0][1..] + tail;
        assert OneLine(gaps[0]);
        MatchOfSplit(pattern, target[1..], shorter, end);
      }
    } else {
      assert target == [pattern[0]] + (Fill(pattern[1..], gaps) + end);
      MatchOfSplit(pattern[1..], target[1..], gaps, end);
    }
  }

  /** The matcher accepts exactly the targets that split along the literal pieces of the pattern; the
      pattern `*` alone accepts everything. */
  lemma MatchIffSplits(pattern: string, target: string)
    ensures MatchPattern(pattern, target) <==> pattern == "*" || exists gaps, end :: Splits(pattern, target, gaps, end)
  {
    if RegexMatch(pattern, target) {
      var gaps, end := SplitOfMatch(pattern, target);
    }
    if gaps, end :| Splits(pattern, target, gaps, end) {
      MatchOfSplit(pattern, target, gaps, end);
    }
  }

  // ---------- policies ----------

  datatype Policy = Policy(effect: string, actions: seq<string>, resources: seq<string>)

  type Roles = map<string, seq<Policy>>

  const ROLES: Roles := map[
    "admin" := [Policy("allow", ["*"], ["*"])],
    "auditor" := [Policy("allow", ["read:*", "generate:*"], ["*"]),
                  Policy("deny", ["write:*", "delete:*", "execute:*"], ["*"])],
    "analyst" := [Policy("allow", ["read:*", "write:exposures", "write:remediations"], ["*"]),
                  Policy("deny", ["delete:assets"], ["*"])],
    "scanner" := [Policy("allow", ["read:assets", "write:exposures", "write:scans"], ["*"])]]

  predicate AnyMatches(patterns: seq<string>, target: string) {
    exists i :: 0 <= i < |patterns| && MatchPattern(patterns[i], target)
  }

  predicate Applies(p: Policy, action: string, resource: string) {
    AnyMatches(p.actions, action) && AnyMatches(p.resources, resource)
  }

  /** A policy applies when one of its actions matches the action and one of its resources the resource. */
  lemma AppliesIff(p: Policy, action: string, resource: string)
    ensures Applies(p, action, resource) <==>
            && (exists a :: a in p.actions && MatchPattern(a, action))
            && (exists r :: r in p.resources && MatchPattern(r, resource))
  {
    hide MatchPattern;
    AnyMatchesIff(p.actions, action);
    AnyMatchesIff(p.resources, resource);
  }

  lemma AnyMatchesIff(patterns: seq<string>, target: string)
    ensures AnyMatches(patterns, target) <==> exists p :: p in patterns && MatchPattern(p, target)
  {
    hide MatchPattern;
    if p :| p in patterns && MatchPattern(p, target) {
      var i :| 0 <= i < |patterns| && patterns[i] == p;
    }
  }

  /** Some policy of some held role has the effect on the request. */
  ghost predicate SomePolicy(roles: Roles, held: seq<string>, action: string, resource: string, effect: string) {
    exists r, i :: r in held && r in roles && 0 <= i < |roles[r]| && roles[r][i].effect == effect
                   && Applies(roles[r][i], action, resource)
  }

  ghost predicate Authorized(roles: Roles, held: seq<string>, action: string, resource: string) {
    SomePolicy(roles, held, action, resource, "allow") && !SomePolicy(roles, held, action, resource, "deny")
  }

  ghost predicate SomeOf(policies: seq<Policy>, action: string, resource: string, effect: string) {
    exists i :: 0 <= i < |policies| && policies[i].effect == effect && Applies(policies[i], action, resource)
  }

  datatype Verdict = Silent | Allowed | Denied

  /** The inner loop, over the policies of one role. */
  method JudgePolicies(policies: seq<Policy>, action: string, resource: string) returns (v: Verdict)
    ensures v == Denied <==> SomeOf(policies, action, resource, "deny")
    ensures v == Allowed ==> SomeOf(policies, action, resource, "allow")
    ensures v == Silent ==> !SomeOf(policies, action, resource, "allow")
  {
    hide Applies;
    v := Silent;
    for i := 0 to |policies|
      invariant v != Denied
      invariant forall j :: 0 <= j < i ==> !(policies[j].effect == "deny" && Applies(policies[j], action, resource))
      invariant v == Allowed <==>
                exists j :: 0 <= j < i && policies[j].effect == "allow" && Applies(policies[j], action, resource)
    {
      if Applies(policies[i], action, resource) {
        if policies[i].effect == "deny" {
          return Denied;
        }
        if policies[i].effect == "allow" {
          v := Allowed;
        }
      }
    }
  }

  method IsAuthorized(roles: Roles, held: seq<string>, action: string, resource: string) returns (allowed: bool)
    ensures allowed <==> Authorized(roles, held, action, resource)
  {
    hide SomeOf;
    allowed := false;
    for k := 0 to |held|
      invariant forall j :: 0 <= j < k && held[j] in roles ==> !SomeOf(roles[held[j]], action, resource, "deny")
      invariant allowed <==>
                exists j :: 0 <= j < k && held[j] in roles && SomeOf(roles[held[j]], action, resource, "allow")
    {
      if held[k] in roles {
        var v := JudgePolicies(roles[held[k]], action, resource);
        if v == Denied {
          RoleDecides(roles, held, action, resource, "deny");
          return false;
        }
        if v == Allowed {
          allowed := true;
        }
      }
    }
    RoleDecides(roles, held, action, resource, "deny");
    RoleDecides(roles, held, action, resource, "allow");
  }

  lemma RoleDecides(roles: Roles, held: seq<string>, action: string, resource: string, effect: string)
    ensures SomePolicy(roles, held, action, resource, effect) <==>
            exists j :: 0 <= j < |held| && held[j] in roles && SomeOf(roles[held[j]], action, resource, effect)
  {
    hide Applies;
  }

  /** The answer depends on the set of held roles only: not on their order, nor on repetitions. */
  lemma OrderIrrelevant(roles: Roles, held: seq<string>, held': seq<string>, action: string, resource: string)
    requires forall r :: r in held <==> r in held'
    ensures Authorized(roles, held, action, resource) <==> Authorized(roles, held', action, resource)
  {
    hide Applies;
  }

  // ---------- whether an auditor can write ----------

  /** What `.*` followed by the end of the pattern accepts: no line feed, save perhaps a final one. */
  ghost predicate OneLineOrEnded(name: string) {
    OneLine(name) || (name != "" && name[|name| - 1] == '\n' && OneLine(name[..|name| - 1]))
  }

  ghost predicate NoStar(pattern: string) {
    forall i :: 0 <= i < |pattern| ==> pattern[i] != '*'
  }

  lemma StarMatchesLine(name: string)
    ensures RegexMatch("*", name) <==> OneLineOrEnded(name)
  {
    forall gap: string
      ensures Fill("*", [gap]) == gap
    {
      assert Fill("*", [gap]) == gap + Fill("", []);
    }
    if RegexMatch("*", name) {
      var gaps, end := SplitOfMatch("*", name);
      assert gaps == [gaps[0]] && OneLine(gaps[0]);
      assert name == gaps[0] + end;
    }
    if OneLine(name) {
      assert name == name + "";
      MatchOfSplit("*", name, [name], "");
    } else if OneLineOrEnded(name) {
      var line := name[..|name| - 1];
      assert name == line + "\n";
      MatchOfSplit("*", name, [line], "\n");
    }
  }

  /** A literal prefix is matched letter by letter. */
  lemma {:induction false} PrefixMatches(prefix: string, pattern: string, name: string)
    requires NoStar(prefix)
    ensures RegexMatch(prefix + pattern, prefix + name) <==> RegexMatch(pattern, name)
    decreases |prefix|
  {
    if prefix == "" {
      assert prefix + pattern == pattern && prefix + name == name;
    } else {
      PrefixMatches(prefix[1..], pattern, name);
      assert (prefix + pattern)[1..] == prefix[1..] + pattern;
      assert (prefix + name)[1..] == prefix[1..] + name;
    }
  }

  /** A pattern without a star matches itself, and itself followed by a line feed. */
  lemma {:induction false} LiteralMatches(pattern: string, target: string)
    requires NoStar(pattern) && RegexMatch(pattern, target)
    ensures target == pattern || target == pattern + "\n"
    decreases |pattern|
  {
    if pattern != "" {
      LiteralMatches(pattern[1..], target[1..]);
      assert target == [pattern[0]] + target[1..];
    }
  }

  lemma WriteLiteral(pattern: string, name: string)
    requires NoStar(pattern) && OneLine(pattern) && RegexMatch("write:" + pattern, "write:" + name)
    ensures OneLineOrEnded(name)
  {
    PrefixMatches("write:", pattern, name);
    LiteralMatches(pattern, name);
    assert (pattern + "\n")[..|pattern|] == pattern;
  }

  /** The auditor's policy that denies writing. */
  lemma AuditorDenies(held: seq<string>, name: string, resource: string)
    requires "auditor" in held && OneLineOrEnded(name)
    ensures SomePolicy(ROLES, held, "write:" + name, resource, "deny")
  {
    var action := "write:" + name;
    var p := ROLES["auditor"][1];
    StarMatchesLine(name);
    PrefixMatches("write:", "*", name);
    assert "write:" + "*" == "write:*";
    assert p.actions[0] == "write:*" && p.resources[0] == "*";
    assert MatchPattern(p.actions[0], action) && MatchPattern(p.resources[0], resource);
    assert Applies(p, action, resource);
    assert ROLES["auditor"][1].effect == "deny";
  }

  lemma FirstLetterDiffers(pattern: string, target: string)
    requires pattern != "" && target != "" && pattern[0] != '*' && pattern[0] != target[0]
    ensures !MatchPattern(pattern, target)
  {
  }

  /** A pattern about another operation, `write:*`, or writing under one given name. */
  ghost predicate PlainOrWrite(pattern: string) {
    || (pattern != "" && pattern[0] != '*' && pattern[0] != 'w')
    || pattern == "write:*"
    || ("write:" <= pattern && NoStar(pattern[6..]) && OneLine(pattern[6..]))
  }

  lemma PlainOrWriteMisses(pattern: string, name: string)
    requires PlainOrWrite(pattern) && !OneLineOrEnded(name)
    ensures !MatchPattern(pattern, "write:" + name)
  {
    hide OneLineOrEnded;
    if pattern == "write:*" {
      assert "write:" + "*" == "write:*";
      StarMatchesLine(name);
      PrefixMatches("write:", "*", name);
    } else if "write:" <= pattern {
      assert pattern == "write:" + pattern[6..];
      if RegexMatch(pattern, "write:" + name) {
        WriteLiteral(pattern[6..], name);
      }
    } else {
      FirstLetterDiffers(pattern, "write:" + name);
    }
  }

  lemma TablePatternIsPlain(role: string, i: nat, k: nat)
    requires role in ROLES && role != "admin" && i < |ROLES[role]| && k < |ROLES[role][i].actions|
    ensures PlainOrWrite(ROLES[role][i].actions[k])
  {
    hide OneLine, NoStar;
    OneLineNoStar("exposures");
    OneLineNoStar("remediations");
    OneLineNoStar("scans");
    assert "write:exposures"[6..] == "exposures" && "write:remediations"[6..] == "remediations"
             && "write:scans"[6..] == "scans";
  }

  lemma OneLineNoStar(word: string)
    requires forall i :: 0 <= i < |word| ==> 'a' <= word[i] <= 'z'
    ensures OneLine(word) && NoStar(word)
  {
  }

  /** No policy of another role than admin speaks of writing under a name of several lines. */
  lemma OnlyAdminWritesLines(role: string, i: nat, name: string, resource: string)
    requires role in ROLES && role != "admin" && i < |ROLES[role]| && !OneLineOrEnded(name)
    ensures !Applies(ROLES[role][i], "write:" + name, resource)
  {
    hide MatchPattern, OneLineOrEnded, PlainOrWrite, ROLES;
    var p := ROLES[role][i];
    forall k | 0 <= k < |p.actions|
      ensures !MatchPattern(p.actions[k], "write:" + name)
    {
      TablePatternIsPlain(role, i, k);
      PlainOrWriteMisses(p.actions[k], name);
    }
  }

  lemma AdminAllows(held: seq<string>, action: string, resource: string)
    requires "admin" in held
    ensures SomePolicy(ROLES, held, action, resource, "allow")
  {
    var p := ROLES["admin"][0];
    assert p.actions[0] == "*" && p.resources[0] == "*";
    assert MatchPattern(p.actions[0], action) && MatchPattern(p.resources[0], resource);
    assert Applies(p, action, resource);
  }

  /** Whoever holds the auditor role may write if and only if they are an admin as well and the name
      has a line feed before its end, which the overriding denial does not match. */
  lemma AuditorWritesIff(held: seq<string>, name: string, resource: string)
    requires "auditor" in held
    ensures Authorized(ROLES, held, "write:" + name, resource) <==> "admin" in held && !OneLineOrEnded(name)
  {
    var action := "write:" + name;
    if OneLineOrEnded(name) {
      AuditorDenies(held, name, resource);
    } else {
      hide Applies;
      forall r, i | r in held && r in ROLES && 0 <= i < |ROLES[r]| && Applies(ROLES[r][i], action, resource)
        ensures r == "admin" && ROLES[r][i].effect == "allow"
      {
        if r != "admin" {
          OnlyAdminWritesLines(r, i, name, resource);
        }
      }
      if "admin" in held {
        AdminAllows(held, action, resource);
      }
    }
  }

  /** The failing case: an auditor who is an admin too, and a name of two lines. */
  lemma DenialBypassed(resource: string)
    ensures Authorized(ROLES, ["auditor", "admin"], "write:a\nb", resource)
  {
    var name := "a\nb";
    assert name[1] == '\n' && name[..|name| - 1][1] == '\n';
    AuditorWritesIff(["auditor", "admin"], name, resource);
    assert "write:" + name == "write:a\nb";
  }

  // ---------- what the roles permit ----------

  /** The action is the one named, perhaps with a final line feed. */
  ghost predicate IsNamed(name: string, action: string) {
    action == name || action == name + "\n"
  }

  /** The action begins with the prefix, and the rest is one line. */
  ghost predicate IsUnder(prefix: string, action: string) {
    prefix <= action && OneLineOrEnded(action[|prefix|..])
  }

  lemma {:induction false} LiteralIff(pattern: string, target: string)
    requires NoStar(pattern) && pattern != "*"
    ensures MatchPattern(pattern, target) <==> IsNamed(pattern, target)
  {
    if RegexMatch(pattern, target) {
      LiteralMatches(pattern, target);
    }
    PrefixMatches(pattern, "", "");
    PrefixMatches(pattern, "", "\n");
    assert pattern + "" == pattern;
  }

  /** What a pattern that begins with literal text matches begins with that text. */
  lemma {:induction false} MatchesPrefix(prefix: string, pattern: string, target: string)
    requires NoStar(prefix) && RegexMatch(prefix + pattern, target)
    ensures prefix <= target
    decreases |prefix|
  {
    if prefix != "" {
      assert (prefix + pattern)[1..] == prefix[1..] + pattern;
      MatchesPrefix(prefix[1..], pattern, target[1..]);
      assert target == [target[0]] + target[1..];
    }
  }

  lemma {:induction false} PrefixIff(prefix: string, target: string)
    requires NoStar(prefix) && prefix != ""
    ensures MatchPattern(prefix + "*", target) <==> IsUnder(prefix, target)
  {
    hide OneLineOrEnded;
    assert (prefix + "*")[0] == prefix[0];
    assert prefix + "*" != "*";
    if RegexMatch(prefix + "*", target) {
      MatchesPrefix(prefix, "*", target);
    }
    if prefix <= target {
      assert target == prefix + target[|prefix|..];
      PrefixMatches(prefix, "*", target[|prefix|..]);
      StarMatchesLine(target[|prefix|..]);
    }
  }

  /** The patterns of the table, one by one. */
  lemma TablePatterns(action: string)
    ensures MatchPattern("read:*", action) <==> IsUnder("read:", action)
    ensures MatchPattern("generate:*", action) <==> IsUnder("generate:", action)
    ensures MatchPattern("write:*", action) <==> IsUnder("write:", action)
    ensures MatchPattern("delete:*", action) <==> IsUnder("delete:", action)
    ensures MatchPattern("execute:*", action) <==> IsUnder("execute:", action)
    ensures MatchPattern("write:exposures", action) <==> IsNamed("write:exposures", action)
    ensures MatchPattern("write:remediations", action) <==> IsNamed("write:remediations", action)
    ensures MatchPattern("write:scans", action) <==> IsNamed("write:scans", action)
    ensures MatchPattern("read:assets", action) <==> IsNamed("read:assets", action)
    ensures MatchPattern("delete:assets", action) <==> IsNamed("delete:assets", action)
  {
    hide MatchPattern, IsUnder, IsNamed;
    assert "read:" + "*" == "read:*" && "generate:" + "*" == "generate:*" && "write:" + "*" == "write:*";
    assert "delete:" + "*" == "delete:*" && "execute:" + "*" == "execute:*";
    PrefixIff("read:", action);
    PrefixIff("generate:", action);
    PrefixIff("write:", action);
    PrefixIff("delete:", action);
    PrefixIff("execute:", action);
    LiteralIff("write:exposures", action);
    LiteralIff("write:remediations", action);
    LiteralIff("write:scans", action);
    LiteralIff("read:assets", action);
    LiteralIff("delete:assets", action);
  }

  /** Some role held permits the action. */
  ghost predicate Permitted(held: seq<string>, action: string) {
    || "admin" in held
    || ("auditor" in held && (IsUnder("read:", action) || IsUnder("generate:", action)))
    || ("analyst" in held
        && (IsUnder("read:", action) || IsNamed("write:exposures", action) || IsNamed("write:remediations", action)))
    || ("scanner" in held
        && (IsNamed("read:assets", action) || IsNamed("write:exposures", action) || IsNamed("write:scans", action)))
  }

  /** Some role held forbids it. */
  ghost predicate Forbidden(held: seq<string>, action: string) {
    || ("auditor" in held
        && (IsUnder("write:", action) || IsUnder("delete:", action) || IsUnder("execute:", action)))
    || ("analyst" in held && IsNamed("delete:assets", action))
  }

  lemma AnyOfOne(a: string, target: string)
    ensures AnyMatches([a], target) <==> MatchPattern(a, target)
  {
    hide MatchPattern;
    assert [a][0] == a;
  }

  lemma AnyOfTwo(a: string, b: string, target: string)
    ensures AnyMatches([a, b], target) <==> MatchPattern(a, target) || MatchPattern(b, target)
  {
    hide MatchPattern;
    assert [a, b][0] == a && [a, b][1] == b;
  }

  lemma AnyOfThree(a: string, b: string, c: string, target: string)
    ensures AnyMatches([a, b, c], target) <==>
            MatchPattern(a, target) || MatchPattern(b, target) || MatchPattern(c, target)
  {
    hide MatchPattern;
    assert [a, b, c][0] == a && [a, b, c][1] == b && [a, b, c][2] == c;
  }

  lemma AnyResource(resource: string)
    ensures AnyMatches(["*"], resource)
  {
    assert MatchPattern(["*"][0], resource);
  }

  /** What the table says, whatever the resource: everything for admins; reading and generating for auditors, and never
      writing, deleting or executing; reading and two ways of writing for analysts, and never deleting assets; three
      actions for scanners; nothing for any other role. */
  lemma AuthorizedByTable(held: seq<string>, action: string, resource: string)
    ensures Authorized(ROLES, held, action, resource) <==> Permitted(held, action) && !Forbidden(held, action)
  {
    hide MatchPattern, IsUnder, IsNamed, AnyMatches, SomePolicy, Permitted, Forbidden;
    SomeAllows(held, action, resource);
    SomeDenies(held, action, resource);
  }

  lemma TableAdmin(action: string, resource: string)
    ensures SomeOf(ROLES["admin"], action, resource, "allow") && !SomeOf(ROLES["admin"], action, resource, "deny")
  {
    hide AnyMatches;
    AnyResource(action);
    AnyResource(resource);
    assert Applies(ROLES["admin"][0], action, resource);
  }

  lemma TableAuditor(action: string, resource: string)
    ensures SomeOf(ROLES["auditor"], action, resource, "allow") <==>
            IsUnder("read:", action) || IsUnder("generate:", action)
    ensures SomeOf(ROLES["auditor"], action, resource, "deny") <==>
            IsUnder("write:", action) || IsUnder("delete:", action) || IsUnder("execute:", action)
  {
    hide AnyMatches, MatchPattern, IsUnder, IsNamed;
    AnyResource(resource);
    TablePatterns(action);
    AnyOfTwo("read:*", "generate:*", action);
    AnyOfThree("write:*", "delete:*", "execute:*", action);
    assert Applies(ROLES["auditor"][0], action, resource) <==> IsUnder("read:", action) || IsUnder("generate:", action);
    assert Applies(ROLES["auditor"][1], action, resource) <==>
           IsUnder("write:", action) || IsUnder("delete:", action) || IsUnder("execute:", action);
  }

  lemma TableAnalyst(action: string, resource: string)
    ensures SomeOf(ROLES["analyst"], action, resource, "allow") <==>
            IsUnder("read:", action) || IsNamed("write:exposures", action) || IsNamed("write:remediations", action)
    ensures SomeOf(ROLES["analyst"], action, resource, "deny") <==> IsNamed("delete:assets", action)
  {
    hide AnyMatches, MatchPattern, IsUnder, IsNamed;
    AnyResource(resource);
    TablePatterns(action);
    AnyOfThree("read:*", "write:exposures", "write:remediations", action);
    AnyOfOne("delete:assets", action);
    assert Applies(ROLES["analyst"][0], action, resource) <==>
           IsUnder("read:", action) || IsNamed("write:exposures", action) || IsNamed("write:remediations", action);
    assert Applies(ROLES["analyst"][1], action, resource) <==> IsNamed("delete:assets", action);
  }

  lemma TableScanner(action: string, resource: string)
    ensures SomeOf(ROLES["scanner"], action, resource, "allow") <==>
            IsNamed("read:assets", action) || IsNamed("write:exposures", action) || IsNamed("write:scans", action)
    ensures !SomeOf(ROLES["scanner"], action, resource, "deny")
  {
    hide AnyMatches, MatchPattern, IsUnder, IsNamed;
    AnyResource(resource);
    TablePatterns(action);
    AnyOfThree("read:assets", "write:exposures", "write:scans", action);
    assert Applies(ROLES["scanner"][0], action, resource) <==>
           IsNamed("read:assets", action) || IsNamed("write:exposures", action) || IsNamed("write:scans", action);
  }

  lemma RolesAre(role: string)
    ensures role in ROLES <==> role == "admin" || role == "auditor" || role == "analyst" || role == "scanner"
  {
  }

  lemma SomePolicyByRole(held: seq<string>, action: string, resource: string, effect: string)
    ensures SomePolicy(ROLES, held, action, resource, effect) <==>
            || ("admin" in held && SomeOf(ROLES["admin"], action, resource, effect))
            || ("auditor" in held && SomeOf(ROLES["auditor"], action, resource, effect))
            || ("analyst" in held && SomeOf(ROLES["analyst"], action, resource, effect))
            || ("scanner" in held && SomeOf(ROLES["scanner"], action, resource, effect))
  {
    RolesAre("admin");
    RolesAre("auditor");
    RolesAre("analyst");
    RolesAre("scanner");
    hide SomeOf, ROLES, SomePolicy;
    RoleDecides(ROLES, held, action, resource, effect);
    forall j | 0 <= j < |held|
      ensures held[j] in ROLES <==>
              held[j] == "admin" || held[j] == "auditor" || held[j] == "analyst" || held[j] == "scanner"
    {
      RolesAre(held[j]);
    }
  }

  lemma SomeAllows(held: seq<string>, action: string, resource: string)
    ensures SomePolicy(ROLES, held, action, resource, "allow") <==> Permitted(held, action)
  {
    hide SomePolicy, SomeOf, IsUnder, IsNamed;
    SomePolicyByRole(held, action, resource, "allow");
    TableAdmin(action, resource);
    TableAuditor(action, resource);
    TableAnalyst(action, resource);
    TableScanner(action, resource);
  }

  lemma SomeDenies(held: seq<string>, action: string, resource: string)
    ensures SomePolicy(ROLES, held, action, resource, "deny") <==> Forbidden(held, action)
  {
    hide SomePolicy, SomeOf, IsUnder, IsNamed;
    SomePolicyByRole(held, action, resource, "deny");
    TableAdmin(action, resource);
    TableAuditor(action, resource);
    TableAnalyst(action, resource);
    TableScanner(action, resource);
  }
}
