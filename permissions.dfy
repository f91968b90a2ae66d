/**
 * The identity service's authorisation helpers: deny-overrides permission evaluation
 * with '*' wildcards, the permission-code format DEPT-RESOURCE-ACTION, masking of
 * personal data and shallow redaction of sensitive fields.
 *
 * A wildcard permission becomes a regular expression in which each '*' is `.*`; the
 * other characters of a permission code carry no regex meaning, so they are compared
 * literally. `.` does not match a line terminator, and neither does '*' here.
 */
module Permissions {
  import opened JsText
  import opened JsValue

  // ---------------------------------------------------------------------------
  // Wildcard matching
  // ---------------------------------------------------------------------------

  predicate IsLineTerminator(c: char)
  {
    c == '\n' || c == '\r' || c == '\U{2028}' || c == '\U{2029}'
  }

  predicate NoLineTerminator(s: string)
  {
    forall i :: 0 <= i < |s| ==> !IsLineTerminator(s[i])
  }

  /** `^` + pattern (each '*' as `.*`) + `$` matched against `s`. */
  function GlobMatch(p: string, s: string): bool
    decreases |p| + |s|
  {
    if p == [] then s == []
    else if p[0] == '*' then GlobMatch(p[1..], s) || (s != [] && !IsLineTerminator(s[0]) && GlobMatch(p, s[1..]))
    else s != [] && p[0] == s[0] && GlobMatch(p[1..], s[1..])
  }

  /** Without '*' a pattern matches exactly itself. */
  lemma {:induction false} GlobWithoutStarIsEquality(p: string, s: string)
    requires '*' !in p
    ensures GlobMatch(p, s) <==> p == s
    decreases |p| + |s|
  {
    if p != [] && s != [] {
      assert '*' !in p[1..];
      GlobWithoutStarIsEquality(p[1..], s[1..]);
      if p[0] == s[0] && p[1..] == s[1..] {
        assert p == [p[0]] + p[1..] && s == [s[0]] + s[1..];
      }
    }
  }

  /** A '*' stands for any run of characters on one line. */
  lemma {:induction false} StarTakesAnyLine(rest: string, m: string, s: string)
    requires NoLineTerminator(m) && GlobMatch(rest, s)
    ensures GlobMatch(['*'] + rest, m + s)
    decreases |m|
  {
    var p := ['*'] + rest;
    assert p[1..] == rest;
    if m == [] {
      assert m + s == s;
    } else {
      assert (m + s)[0] == m[0] && (m + s)[1..] == m[1..] + s;
      StarTakesAnyLine(rest, m[1..], s);
    }
  }

  /** `a*b` accepts `a`, then any run on one line, then `b`: the pattern "FIN-*-VIEW" of the source's comment. */
  lemma {:induction false} InfixWildcard(a: string, m: string, b: string)
    requires '*' !in a && '*' !in b && NoLineTerminator(m)
    ensures GlobMatch(a + ['*'] + b, a + m + b)
    decreases |a|
  {
    if a == [] {
      GlobWithoutStarIsEquality(b, b);
      StarTakesAnyLine(b, m, b);
      assert a + ['*'] + b == ['*'] + b && a + m + b == m + b;
    } else {
      assert (a + ['*'] + b)[0] == a[0] && (a + ['*'] + b)[1..] == a[1..] + ['*'] + b;
      assert (a + m + b)[0] == a[0] && (a + m + b)[1..] == a[1..] + m + b;
      InfixWildcard(a[1..], m, b);
    }
  }

  /** A lone '*' matches every string without a line terminator, and nothing else. */
  lemma {:induction false} StarAlone(s: string)
    ensures GlobMatch("*", s) <==> NoLineTerminator(s)
    decreases |s|
  {
    assert "*"[1..] == [];
    if s != [] {
      StarAlone(s[1..]);
    }
  }

  // ---------------------------------------------------------------------------
  // Evaluation
  // ---------------------------------------------------------------------------

  datatype Effect = Allow | Deny

  /** Conditions are carried by the source's policies but never read, so they are not modelled. */
  datatype Policy = Policy(effect: Effect, permissions: seq<string>)

  predicate PolicySays(policies: seq<Policy>, e: Effect, required: string)
  {
    exists i :: 0 <= i < |policies| && policies[i].effect == e && required in policies[i].permissions
  }

  predicate WildcardGrants(user: seq<string>, required: string)
  {
    exists i :: 0 <= i < |user| && '*' in user[i] && GlobMatch(user[i], required)
  }

  /** `evaluatePermission`: deny, exact grant, wildcard grant, policy allow, default deny — in that order. */
  function EvaluatePermission(user: seq<string>, required: string, policies: seq<Policy>): bool
  {
    if PolicySays(policies, Deny, required) then false
    else if required in user then true
    else if WildcardGrants(user, required) then true
    else if PolicySays(policies, Allow, required) then true
    else false
  }

  /** A DENY policy naming the permission overrides every grant, the catch-all '*' included. */
  lemma DenyOverrides(user: seq<string>, required: string, policies: seq<Policy>, i: nat)
    requires i < |policies| && policies[i].effect == Deny && required in policies[i].permissions
    ensures !EvaluatePermission(user, required, policies)
  {
  }

  /** Without a deny, access is granted exactly when one of the three grants applies. */
  lemma GrantedIff(user: seq<string>, required: string, policies: seq<Policy>)
    requires !PolicySays(policies, Deny, required)
    ensures EvaluatePermission(user, required, policies) <==>
              (exists i :: 0 <= i < |user| && user[i] == required)
              || WildcardGrants(user, required) || PolicySays(policies, Allow, required)
  {
    if required in user {
      var i :| 0 <= i < |user| && user[i] == required;
    }
  }

  /** The catch-all permission grants any one-line permission that no policy denies. */
  lemma CatchAllGrants(user: seq<string>, required: string, policies: seq<Policy>)
    requires "*" in user && NoLineTerminator(required) && !PolicySays(policies, Deny, required)
    ensures EvaluatePermission(user, required, policies)
  {
    StarAlone(required);
    var i :| 0 <= i < |user| && user[i] == "*";
    assert '*' in user[i];
  }

  /** With no permissions and no policies nothing is granted: least privilege. */
  lemma DefaultDeny(required: string)
    ensures !EvaluatePermission([], required, [])
  {
  }

  /** More permissions never take access away. */
  lemma MorePermissionsGrantMore(user: seq<string>, more: seq<string>, required: string, policies: seq<Policy>)
    requires forall p :: p in user ==> p in more
    requires EvaluatePermission(user, required, policies)
    ensures EvaluatePermission(more, required, policies)
  {
    if !(required in user) && WildcardGrants(user, required) {
      var i :| 0 <= i < |user| && '*' in user[i] && GlobMatch(user[i], required);
      assert user[i] in user;
    }
  }

  /**
   * The source's example "FIN-*-VIEW": a permission `a*b` grants `a`, any resource on
   * one line, then `b`, unless a policy denies it.
   */
  lemma InfixWildcardGrants(a: string, m: string, b: string, policies: seq<Policy>)
    requires '*' !in a && '*' !in b && NoLineTerminator(m) && !PolicySays(policies, Deny, a + m + b)
    ensures EvaluatePermission([a + ['*'] + b], a + m + b, policies)
  {
    var p := a + ['*'] + b;
    InfixWildcard(a, m, b);
    assert p[|a|] == '*';
    var user: seq<string> := [p];
    assert user[0] == p && '*' in user[0];
  }

  /** ... and it grants nothing whose last character differs from the pattern's (VIEW is not EDIT). */
  lemma WildcardKeepsAction(p: string, required: string)
    requires p != [] && p[|p| - 1] != '*'
    requires required == [] || required[|required| - 1] != p[|p| - 1]
    ensures !EvaluatePermission([p], required, [])
  {
    if GlobMatch(p, required) {
      GlobSuffixNeeded(p, required);
    }
  }

  /** A pattern ending in a literal character only matches strings ending in that character. */
  lemma {:induction false} GlobSuffixNeeded(p: string, s: string)
    requires p != [] && p[|p| - 1] != '*' && GlobMatch(p, s)
    ensures s != [] && s[|s| - 1] == p[|p| - 1]
    decreases |p| + |s|
  {
    if p[0] == '*' {
      if GlobMatch(p[1..], s) {
        GlobSuffixNeeded(p[1..], s);
      } else {
        GlobSuffixNeeded(p, s[1..]);
      }
    } else if |p| == 1 {
      assert p[1..] == [] && s[1..] == [];
    } else {
      GlobSuffixNeeded(p[1..], s[1..]);
    }
  }

  /** `hasAnyPermission`: some required permission is granted, with no policies. */
  function HasAnyPermission(user: seq<string>, required: seq<string>): (b: bool)
    ensures b <==> exists i :: 0 <= i < |required| && EvaluatePermission(user, required[i], [])
  {
    if required == [] then false
    else
      assert forall i :: 0 < i < |required| ==> required[1..][i - 1] == required[i];
      EvaluatePermission(user, required[0], []) || HasAnyPermission(user, required[1..])
  }

  /** `hasAllPermissions`: every required permission is granted, with no policies. */
  function HasAllPermissions(user: seq<string>, required: seq<string>): (b: bool)
    ensures b <==> forall i :: 0 <= i < |required| ==> EvaluatePermission(user, required[i], [])
  {
    if required == [] then true
    else
      assert forall i :: 0 < i < |required| ==> required[1..][i - 1] == required[i];
      EvaluatePermission(user, required[0], []) && HasAllPermissions(user, required[1..])
  }

  /** All of a non-empty list implies any of it; neither holds vacuously the other way round. */
  lemma AllImpliesAny(user: seq<string>, required: seq<string>)
    ensures HasAllPermissions(user, required) && required != [] ==> HasAnyPermission(user, required)
    ensures HasAllPermissions(user, []) && !HasAnyPermission(user, [])
  {
    if HasAllPermissions(user, required) && required != [] {
      assert EvaluatePermission(user, required[0], []);
    }
  }

  // ---------------------------------------------------------------------------
  // Permission codes
  // ---------------------------------------------------------------------------

  predicate UpperRun(s: string) { s != [] && forall i :: 0 <= i < |s| ==> IsUpper(s[i]) }

  predicate UpperUnderscoreRun(s: string) { s != [] && forall i :: 0 <= i < |s| ==> IsUpper(s[i]) || s[i] == '_' }

  /** The regular expression ^[A-Z]+-[A-Z_]+-[A-Z]+$, stated by the positions of its two dashes. */
  ghost predicate MatchesCodePattern(s: string)
  {
    exists i, j :: 0 <= i < j < |s| && s[i] == '-' && s[j] == '-'
      && UpperRun(s[..i]) && UpperUnderscoreRun(s[i + 1..j]) && UpperRun(s[j + 1..])
  }

  /** `isValidPermissionCode`, decided by splitting on '-'. */
  function IsValidPermissionCode(code: string): bool
  {
    var parts := Split(code, '-');
    |parts| == 3 && UpperRun(parts[0]) && UpperUnderscoreRun(parts[1]) && UpperRun(parts[2])
  }

  /** The split decision agrees with the regular expression on every string. */
  lemma PermissionCodeIff(code: string)
    ensures IsValidPermissionCode(code) <==> MatchesCodePattern(code)
  {
    if IsValidPermissionCode(code) {
      ValidCodeMatches(code);
    }
    if MatchesCodePattern(code) {
      var i, j :| 0 <= i < j < |code| && code[i] == '-' && code[j] == '-'
        && UpperRun(code[..i]) && UpperUnderscoreRun(code[i + 1..j]) && UpperRun(code[j + 1..]);
      MatchingCodeIsValid(code, i, j);
    }
  }

  lemma ValidCodeMatches(code: string)
    requires IsValidPermissionCode(code)
    ensures MatchesCodePattern(code)
  {
    var parts := Split(code, '-');
    var a, b, c := parts[0], parts[1], parts[2];
    SplitJoin(code, '-');
    JoinThree(parts, "-");
    assert code == a + ("-" + (b + ("-" + c)));
    DashPositions(a, b, c);
  }

  lemma JoinThree(parts: seq<string>, sep: string)
    requires |parts| == 3
    ensures Join(parts, sep) == parts[0] + (sep + (parts[1] + (sep + parts[2])))
  {
    assert parts[1..][1..] == [parts[2]];
    assert Join(parts[1..], sep) == parts[1] + sep + parts[2];
  }

  /** Where the two dashes of `a-b-c` sit, and what lies between them. */
  lemma DashPositions(a: string, b: string, c: string)
    ensures var s := a + ("-" + (b + ("-" + c)));
      var i, j := |a|, |a| + 1 + |b|;
      j < |s| && s[i] == '-' && s[j] == '-' && s[..i] == a && s[i + 1..j] == b && s[j + 1..] == c
  {
  }

  lemma MatchingCodeIsValid(code: string, i: nat, j: nat)
    requires i < j < |code| && code[i] == '-' && code[j] == '-'
    requires UpperRun(code[..i]) && UpperUnderscoreRun(code[i + 1..j]) && UpperRun(code[j + 1..])
    ensures IsValidPermissionCode(code)
  {
    var a, b, c := code[..i], code[i + 1..j], code[j + 1..];
    assert code == a + ['-'] + (b + ['-'] + c);
    assert '-' !in a by { assert forall k :: 0 <= k < |a| ==> IsUpper(a[k]); }
    assert '-' !in b by { assert forall k :: 0 <= k < |b| ==> IsUpper(b[k]) || b[k] == '_'; }
    assert '-' !in c by { assert forall k :: 0 <= k < |c| ==> IsUpper(c[k]); }
    SplitCons(a, '-', b + ['-'] + c);
    SplitCons(b, '-', c);
    assert Split(code, '-') == [a, b, c];
  }

  /** A valid code is made of upper-case letters, '_' and '-' only. */
  lemma ValidCodeAlphabet(code: string)
    ensures IsValidPermissionCode(code) ==>
              forall k :: 0 <= k < |code| ==> IsUpper(code[k]) || code[k] == '_' || code[k] == '-'
  {
    if IsValidPermissionCode(code) {
      ValidCodeMatches(code);
      var i, j :| 0 <= i < j < |code| && code[i] == '-' && code[j] == '-'
        && UpperRun(code[..i]) && UpperUnderscoreRun(code[i + 1..j]) && UpperRun(code[j + 1..]);
      PatternAlphabet(code, i, j);
    }
  }

  lemma PatternAlphabet(code: string, i: nat, j: nat)
    requires i < j < |code| && code[i] == '-' && code[j] == '-'
    requires UpperRun(code[..i]) && UpperUnderscoreRun(code[i + 1..j]) && UpperRun(code[j + 1..])
    ensures forall k :: 0 <= k < |code| ==> IsUpper(code[k]) || code[k] == '_' || code[k] == '-'
  {
    forall k | 0 <= k < |code|
      ensures IsUpper(code[k]) || code[k] == '_' || code[k] == '-'
    {
      if k < i {
        assert code[..i][k] == code[k];
      } else if i < k < j {
        assert code[i + 1..j][k - i - 1] == code[k];
      } else if j < k {
        assert code[j + 1..][k - j - 1] == code[k];
      }
    }
  }

  // ---------------------------------------------------------------------------
  // Masking and redaction
  // ---------------------------------------------------------------------------

  /** `maskPII` as written: with zero visible characters, `slice(-0)` keeps the whole value. */
  function MaskPIIAsWritten(value: string, visible: int): string
  {
    if value == [] || |value| <= visible then value
    else Repeat('*', |value| - visible) + SliceFrom(value, -visible)
  }

  /** `maskPII` as intended: stars for all but the last `visible` characters. */
  function MaskPII(value: string, visible: nat): (r: string)
    ensures |r| == |value|
    ensures |value| <= visible ==> r == value
    ensures |value| > visible ==> r[|value| - visible..] == value[|value| - visible..]
                                  && forall i :: 0 <= i < |value| - visible ==> r[i] == '*'
  {
    if value == [] || |value| <= visible then value
    else Repeat('*', |value| - visible) + value[|value| - visible..]
  }

  /** For one visible character or more the source does what was intended. */
  lemma MaskPIIAsWrittenAgrees(value: string, visible: nat)
    requires visible >= 1
    ensures MaskPIIAsWritten(value, visible) == MaskPII(value, visible)
  {
  }

  /** The discrepancy: masking "secret" with no visible characters prints it in full after six stars. */
  lemma MaskPIIZeroLeaks()
    ensures MaskPIIAsWritten("secret", 0) == "******secret"
    ensures MaskPII("secret", 0) == "******"
  {
  }

  const DefaultSensitiveFields: seq<string> := ["password", "passwordHash", "twoFactorSecret", "biometricTemplateId"]

  const Redacted: string := "[REDACTED]"

  function RedactFields(fs: seq<Field>, sensitive: seq<string>): (r: seq<Field>)
    ensures |r| == |fs|
    ensures forall i :: 0 <= i < |fs| ==> r[i] == (if fs[i].key in sensitive then Field(fs[i].key, JStr(Redacted)) else fs[i])
  {
    seq(|fs|, i requires 0 <= i < |fs| => if fs[i].key in sensitive then Field(fs[i].key, JStr(Redacted)) else fs[i])
  }

  /** `{...array}`: an array spreads into an object keyed by its indices. */
  function SpreadArray(items: seq<Json>): (fs: seq<Field>)
    ensures |fs| == |items| && forall i :: 0 <= i < |items| ==> fs[i] == Field(NatToString(i), items[i])
  {
    seq(|items|, i requires 0 <= i < |items| => Field(NatToString(i), items[i]))
  }

  /** `redactSensitiveData`: a shallow copy with every present sensitive field replaced. */
  function RedactSensitiveData(obj: Json, sensitive: seq<string>): Json
  {
    match obj
    case JObj(fs) => JObj(RedactFields(fs, sensitive))
    case JArr(items) => JObj(RedactFields(SpreadArray(items), sensitive))
    case _ => obj
  }

  /**
   * Redaction keeps every key in place, hides exactly the sensitive ones, and leaves the
   * other values (nested objects included, which are not searched) as they were.
   */
  lemma RedactObject(fs: seq<Field>, sensitive: seq<string>, key: string)
    requires DistinctKeys(fs)
    ensures RedactSensitiveData(JObj(fs), sensitive).JObj?
    ensures var r := RedactSensitiveData(JObj(fs), sensitive).fields;
      && Keys(r) == Keys(fs) && DistinctKeys(r)
      && (key in sensitive && key in Keys(fs) ==> Lookup(r, key) == JStr(Redacted))
      && (key !in sensitive ==> Lookup(r, key) == Lookup(fs, key))
  {
    RedactKeepsKeys(fs, sensitive);
    if key in sensitive && key in Keys(fs) {
      RedactHides(fs, sensitive, key);
    }
    if key !in sensitive {
      RedactKeepsOthers(fs, sensitive, key);
    }
  }

  lemma RedactKeepsKeys(fs: seq<Field>, sensitive: seq<string>)
    requires DistinctKeys(fs)
    ensures Keys(RedactFields(fs, sensitive)) == Keys(fs) && DistinctKeys(RedactFields(fs, sensitive))
  {
  }

  lemma RedactHides(fs: seq<Field>, sensitive: seq<string>, key: string)
    requires DistinctKeys(fs) && key in sensitive && key in Keys(fs)
    ensures Lookup(RedactFields(fs, sensitive), key) == JStr(Redacted)
  {
    var r := RedactFields(fs, sensitive);
    RedactKeepsKeys(fs, sensitive);
    LookupDistinct(r, key);
    var i :| 0 <= i < |fs| && fs[i].key == key;
    assert r[i].key == key;
  }

  lemma RedactKeepsOthers(fs: seq<Field>, sensitive: seq<string>, key: string)
    requires DistinctKeys(fs) && key !in sensitive
    ensures Lookup(RedactFields(fs, sensitive), key) == Lookup(fs, key)
  {
    var r := RedactFields(fs, sensitive);
    RedactKeepsKeys(fs, sensitive);
    LookupDistinct(fs, key);
    LookupDistinct(r, key);
    if key !in Keys(fs) {
      assert key !in Keys(r);
    } else {
      var i :| 0 <= i < |fs| && fs[i].key == key;
      assert r[i] == fs[i];
    }
  }

  /** Anything but an object or an array is returned untouched. */
  lemma RedactLeavesScalars(v: Json, sensitive: seq<string>)
    requires !v.JObj? && !v.JArr?
    ensures RedactSensitiveData(v, sensitive) == v
  {
  }

  /** Redacting twice is redacting once. */
  lemma RedactIdempotent(obj: Json, sensitive: seq<string>)
    ensures RedactSensitiveData(RedactSensitiveData(obj, sensitive), sensitive) == RedactSensitiveData(obj, sensitive)
  {
    var once := RedactSensitiveData(obj, sensitive);
    if once.JObj? && (obj.JObj? || obj.JArr?) {
      assert RedactFields(once.fields, sensitive) == once.fields;
    }
  }

  /** Redaction is shallow: a password one level down survives. */
  lemma RedactIsShallow()
    ensures var inner := JObj([Field("password", JStr("pw"))]);
      RedactSensitiveData(JObj([Field("user", inner)]), DefaultSensitiveFields) == JObj([Field("user", inner)])
  {
    var fs := [Field("user", JObj([Field("password", JStr("pw"))]))];
    assert "user" !in DefaultSensitiveFields;
    assert RedactFields(fs, DefaultSensitiveFields) == fs;
  }
}
