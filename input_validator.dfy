/**
 * The IoT service's input validation: a chainable validator that collects error messages
 * and sanitised fields, and the stand-alone sanitisers for HTML, file paths, shell
 * commands, NoSQL queries and arbitrary request values.
 *
 * Regular expressions supplied by callers are a parameter `test`; JavaScript's coercion of
 * a string to a number in a comparison is the parameter `toNumber` (None for NaN).
 */
module InputValidation {
  import opened Wrappers
  import opened JsText
  import opened JsValue

  // ---------------------------------------------------------------------------
  // String cleaning: control characters, trim, HTML escaping
  // ---------------------------------------------------------------------------

  /** The class [\x00-\x1f\x7f]. */
  predicate IsControl(c: char)
  {
    c <= '\U{001F}' || c == '\U{007F}'
  }

  /** The five `replace` calls, in the source's order: '&' first. */
  function EscapeChain(s: string): string
  {
    ReplaceAll(ReplaceAll(ReplaceAll(ReplaceAll(ReplaceAll(s, "&", "&amp;"), "<", "&lt;"), ">", "&gt;"), "\"", "&quot;"), "'", "&#x27;")
  }

  /** The entity each character is written as. */
  function Entity(c: char): string
  {
    if c == '&' then "&amp;"
    else if c == '<' then "&lt;"
    else if c == '>' then "&gt;"
    else if c == '"' then "&quot;"
    else if c == '\'' then "&#x27;"
    else [c]
  }

  /** Escaping as a character-by-character encoding. */
  function EscapeHtml(s: string): (r: string)
    ensures forall i :: 0 <= i < |r| ==> r[i] != '<' && r[i] != '>' && r[i] != '"' && r[i] != '\''
  {
    if s == [] then [] else Entity(s[0]) + EscapeHtml(s[1..])
  }

  predicate StartsWith(s: string, p: string)
  {
    |p| <= |s| && s[..|p|] == p
  }

  /** Reading the entities back. */
  function Unescape(s: string): string
  {
    if s == [] then []
    else if s[0] != '&' then [s[0]] + Unescape(s[1..])
    else if StartsWith(s, "&amp;") then ['&'] + Unescape(s[5..])
    else if StartsWith(s, "&lt;") then ['<'] + Unescape(s[4..])
    else if StartsWith(s, "&gt;") then ['>'] + Unescape(s[4..])
    else if StartsWith(s, "&quot;") then ['"'] + Unescape(s[6..])
    else if StartsWith(s, "&#x27;") then ['\''] + Unescape(s[6..])
    else [s[0]] + Unescape(s[1..])
  }

  /** Escaping '&' before the others means no entity is escaped twice: the chain is the encoding. */
  lemma {:induction false} EscapeChainIsEscapeHtml(s: string)
    ensures EscapeChain(s) == EscapeHtml(s)
  {
    if s != [] {
      var c, rest := s[0], s[1..];
      assert s == [c] + rest;
      var a1, b1 := ReplaceAll([c], "&", "&amp;"), ReplaceAll(rest, "&", "&amp;");
      ReplaceCharAppend([c], rest, '&', "&amp;");
      var a2, b2 := ReplaceAll(a1, "<", "&lt;"), ReplaceAll(b1, "<", "&lt;");
      ReplaceCharAppend(a1, b1, '<', "&lt;");
      var a3, b3 := ReplaceAll(a2, ">", "&gt;"), ReplaceAll(b2, ">", "&gt;");
      ReplaceCharAppend(a2, b2, '>', "&gt;");
      var a4, b4 := ReplaceAll(a3, "\"", "&quot;"), ReplaceAll(b3, "\"", "&quot;");
      ReplaceCharAppend(a3, b3, '"', "&quot;");
      ReplaceCharAppend(a4, b4, '\'', "&#x27;");
      EscapeOneChar(c);
      EscapeChainIsEscapeHtml(rest);
    }
  }

  lemma ReplaceOne(c: char, d: char, rep: string)
    ensures ReplaceAll([c], [d], rep) == if c == d then rep else [c]
  {
    assert [c][..1] == [c] && [c][1..] == [];
  }

  lemma EscapeOneChar(c: char)
    ensures EscapeChain([c]) == Entity(c)
  {
    if c == '&' {
      EscapeAmpChar();
    } else if c == '<' {
      EscapeLtChar();
    } else if c == '>' {
      EscapeGtChar();
    } else if c == '"' {
      EscapeQuotChar();
    } else if c == '\'' {
      EscapeAposChar();
    } else {
      EscapePlainChar(c);
    }
  }

  lemma EscapeAmpChar()
    ensures EscapeChain("&") == "&amp;"
  {
    ReplaceOne('&', '&', "&amp;");
    LaterStepsKeep("&amp;");
  }

  /** The four replacements after the first leave a string without their characters alone. */
  lemma LaterStepsKeep(s: string)
    requires forall i :: 0 <= i < |s| ==> s[i] != '<' && s[i] != '>' && s[i] != '"' && s[i] != '\''
    ensures ReplaceAll(ReplaceAll(ReplaceAll(ReplaceAll(s, "<", "&lt;"), ">", "&gt;"), "\"", "&quot;"), "'", "&#x27;") == s
  {
    ReplaceCharAbsent(s, '<', "&lt;");
    ReplaceCharAbsent(s, '>', "&gt;");
    ReplaceCharAbsent(s, '"', "&quot;");
    ReplaceCharAbsent(s, '\'', "&#x27;");
  }

  lemma EscapeLtChar()
    ensures EscapeChain("<") == "&lt;"
  {
    ReplaceOne('<', '&', "&amp;");
    ReplaceOne('<', '<', "&lt;");
    ReplaceCharAbsent("&lt;", '>', "&gt;");
    ReplaceCharAbsent("&lt;", '"', "&quot;");
    ReplaceCharAbsent("&lt;", '\'', "&#x27;");
  }

  lemma EscapeGtChar()
    ensures EscapeChain(">") == "&gt;"
  {
    ReplaceOne('>', '&', "&amp;");
    ReplaceOne('>', '<', "&lt;");
    ReplaceOne('>', '>', "&gt;");
    ReplaceCharAbsent("&gt;", '"', "&quot;");
    ReplaceCharAbsent("&gt;", '\'', "&#x27;");
  }

  lemma EscapeQuotChar()
    ensures EscapeChain("\"") == "&quot;"
  {
    ReplaceOne('"', '&', "&amp;");
    ReplaceOne('"', '<', "&lt;");
    ReplaceOne('"', '>', "&gt;");
    ReplaceOne('"', '"', "&quot;");
    ReplaceCharAbsent("&quot;", '\'', "&#x27;");
  }

  lemma EscapeAposChar()
    ensures EscapeChain("'") == "&#x27;"
  {
    ReplaceOne('\'', '&', "&amp;");
    ReplaceOne('\'', '<', "&lt;");
    ReplaceOne('\'', '>', "&gt;");
    ReplaceOne('\'', '"', "&quot;");
    ReplaceOne('\'', '\'', "&#x27;");
  }

  lemma EscapePlainChar(c: char)
    requires c != '&' && c != '<' && c != '>' && c != '"' && c != '\''
    ensures EscapeChain([c]) == [c]
  {
    ReplaceOne(c, '&', "&amp;");
    ReplaceOne(c, '<', "&lt;");
    ReplaceOne(c, '>', "&gt;");
    ReplaceOne(c, '"', "&quot;");
    ReplaceOne(c, '\'', "&#x27;");
  }

  /** Each entity decodes to its character, and the decoding then carries on after it. */
  lemma UnescapeEntity(c: char, t: string)
    ensures Unescape(Entity(c) + t) == [c] + Unescape(t)
  {
    var e := Entity(c) + t;
    assert e[..|Entity(c)|] == Entity(c) && e[|Entity(c)|..] == t;
    if c == '&' {
      UnescapeAmp(t);
    } else if c == '<' {
      UnescapeLt(t);
    } else if c == '>' {
      UnescapeGt(t);
    } else if c == '"' {
      UnescapeQuot(t);
    } else if c == '\'' {
      UnescapeApos(t);
    } else {
      assert e[0] == c && e[1..] == t;
    }
  }

  lemma UnescapeAmp(t: string)
    ensures Unescape("&amp;" + t) == "&" + Unescape(t)
  {
    var e := "&amp;" + t;
    assert e[..5] == "&amp;" && e[5..] == t;
  }

  lemma UnescapeLt(t: string)
    ensures Unescape("&lt;" + t) == "<" + Unescape(t)
  {
    var e := "&lt;" + t;
    assert e[..4] == "&lt;" && e[4..] == t && e[1] == 'l';
    assert !StartsWith(e, "&amp;") by { assert |e| >= 5 ==> e[..5][1] == 'l'; }
  }

  lemma UnescapeGt(t: string)
    ensures Unescape("&gt;" + t) == ">" + Unescape(t)
  {
    var e := "&gt;" + t;
    assert e[..4] == "&gt;" && e[4..] == t && e[1] == 'g';
    assert !StartsWith(e, "&amp;") by { assert |e| >= 5 ==> e[..5][1] == 'g'; }
    assert !StartsWith(e, "&lt;") by { assert e[..4][1] == 'g'; }
  }

  lemma UnescapeQuot(t: string)
    ensures Unescape("&quot;" + t) == "\"" + Unescape(t)
  {
    var e := "&quot;" + t;
    assert e[..6] == "&quot;" && e[6..] == t && e[1] == 'q';
    assert !StartsWith(e, "&amp;") by { assert e[..5][1] == 'q'; }
    assert !StartsWith(e, "&lt;") by { assert e[..4][1] == 'q'; }
    assert !StartsWith(e, "&gt;") by { assert e[..4][1] == 'q'; }
  }

  lemma UnescapeApos(t: string)
    ensures Unescape("&#x27;" + t) == "'" + Unescape(t)
  {
    var e := "&#x27;" + t;
    assert e[..6] == "&#x27;" && e[6..] == t && e[1] == '#';
    assert !StartsWith(e, "&amp;") by { assert e[..5][1] == '#'; }
    assert !StartsWith(e, "&lt;") by { assert e[..4][1] == '#'; }
    assert !StartsWith(e, "&gt;") by { assert e[..4][1] == '#'; }
    assert !StartsWith(e, "&quot;") by { assert e[..6][1] == '#'; }
  }

  /** Escaping loses nothing: the entities decode to the original text. */
  lemma {:induction false} UnescapeEscape(s: string)
    ensures Unescape(EscapeHtml(s)) == s
  {
    if s != [] {
      UnescapeEntity(s[0], EscapeHtml(s[1..]));
      UnescapeEscape(s[1..]);
    }
  }

  /** `sanitizeString` and the string case of `sanitizeInput`: drop control characters, trim, escape. */
  function CleanString(s: string): (r: string)
    ensures forall i :: 0 <= i < |r| ==> !IsControl(r[i]) && r[i] != '<' && r[i] != '>' && r[i] != '"' && r[i] != '\''
    ensures Unescape(r) == Trim(RemoveAll(s, IsControl))
  {
    var t := Trim(RemoveAll(s, IsControl));
    EscapeChainIsEscapeHtml(t);
    UnescapeEscape(t);
    EscapeHtmlKeepsPrintable(t);
    EscapeChain(t)
  }

  lemma {:induction false} EscapeHtmlKeepsPrintable(s: string)
    requires forall c :: c in s ==> !IsControl(c)
    ensures forall i :: 0 <= i < |EscapeHtml(s)| ==> !IsControl(EscapeHtml(s)[i])
  {
    if s != [] {
      assert s[0] in s;
      EscapeHtmlKeepsPrintable(s[1..]);
    }
  }

  // ---------------------------------------------------------------------------
  // Paths
  // ---------------------------------------------------------------------------

  predicate IsSep(c: char) { c == '/' || c == '\\' }

  predicate IsNul(c: char) { c == '\U{0000}' }

  /** The class [<>:"|?*]. */
  predicate IsPathForbidden(c: char)
  {
    c == '<' || c == '>' || c == ':' || c == '"' || c == '|' || c == '?' || c == '*'
  }

  /** No `../` or `..\` anywhere. */
  predicate NoTraversal(s: string)
  {
    forall i :: 0 <= i < |s| - 2 ==> !(s[i] == '.' && s[i + 1] == '.' && IsSep(s[i + 2]))
  }

  /** One pass of /\.\.[/\\]/g: each match is cut, the scan resumes after it. */
  function RemoveTraversals(s: string): (r: string)
    ensures r == s || |r| < |s|
    ensures forall c :: c in r ==> c in s
  {
    if s == [] then []
    else if |s| >= 3 && s[0] == '.' && s[1] == '.' && IsSep(s[2]) then RemoveTraversals(s[3..])
    else
      var rest := RemoveTraversals(s[1..]);
      assert rest == s[1..] ==> [s[0]] + rest == s;
      [s[0]] + rest
  }

  /** A pass that cuts nothing proves there was nothing to cut. */
  lemma {:induction false} RemoveTraversalsFixpoint(s: string)
    ensures RemoveTraversals(s) == s <==> NoTraversal(s)
  {
    if s != [] {
      RemoveTraversalsFixpoint(s[1..]);
      if |s| >= 3 && s[0] == '.' && s[1] == '.' && IsSep(s[2]) {
        assert !NoTraversal(s);
      } else {
        NoTraversalTail(s);
        KeptHeadTail(s);
      }
    }
  }

  /** Without a traversal at the front, a traversal-free string is one with a traversal-free tail. */
  lemma NoTraversalTail(s: string)
    requires s != [] && !(|s| >= 3 && s[0] == '.' && s[1] == '.' && IsSep(s[2]))
    ensures NoTraversal(s) <==> NoTraversal(s[1..])
  {
    if NoTraversal(s[1..]) {
      forall i | 0 <= i < |s| - 2
        ensures !(s[i] == '.' && s[i + 1] == '.' && IsSep(s[i + 2]))
      {
        if i > 0 { assert s[i] == s[1..][i - 1] && s[i + 1] == s[1..][i] && s[i + 2] == s[1..][i + 1]; }
      }
    }
    if NoTraversal(s) {
      forall i | 0 <= i < |s[1..]| - 2
        ensures !(s[1..][i] == '.' && s[1..][i + 1] == '.' && IsSep(s[1..][i + 2]))
      {
        assert s[1..][i] == s[i + 1] && s[1..][i + 1] == s[i + 2] && s[1..][i + 2] == s[i + 3];
      }
    }
  }

  /** Without a traversal at the front, a pass keeps the head and leaves the string unchanged iff it leaves the tail unchanged. */
  lemma KeptHeadTail(s: string)
    requires s != [] && !(|s| >= 3 && s[0] == '.' && s[1] == '.' && IsSep(s[2]))
    ensures RemoveTraversals(s) == s <==> RemoveTraversals(s[1..]) == s[1..]
  {
    assert RemoveTraversals(s) == [s[0]] + RemoveTraversals(s[1..]);
    if RemoveTraversals(s) == s {
      assert RemoveTraversals(s)[1..] == RemoveTraversals(s[1..]);
    }
  }

  /** /^[\/\\]/ replaced once: a single leading separator is dropped. */
  function DropOneLeadingSep(s: string): (r: string)
    ensures forall c :: c in r ==> c in s
  {
    if s != [] && IsSep(s[0]) then s[1..] else s
  }

  /** Every leading separator dropped. */
  function DropLeadingSeps(s: string): (r: string)
    ensures |r| <= |s| && r == s[|s| - |r|..]
    ensures r != [] ==> !IsSep(r[0])
  {
    if s != [] && IsSep(s[0]) then DropLeadingSeps(s[1..]) else s
  }

  /** /[/\\]+/g replaced by '/': each run of separators becomes one '/'. */
  function CollapseSeps(s: string): (r: string)
    ensures forall i :: 0 <= i < |r| ==> r[i] != '\\'
    ensures forall c :: c in r ==> c in s || c == '/'
    decreases |s|
  {
    if s == [] then []
    else if IsSep(s[0]) then
      var t := DropLeadingSeps(s[1..]);
      SuffixChars(s[1..], |s| - 1 - |t|);
      SuffixChars(s, 1);
      ['/'] + CollapseSeps(t)
    else [s[0]] + CollapseSeps(s[1..])
  }

  /** `sanitizePath` as written. */
  function SanitizePathAsWritten(s: string): string
  {
    RemoveAll(CollapseSeps(RemoveAll(DropOneLeadingSep(RemoveTraversals(s)), IsNul)), IsPathForbidden)
  }

  /** The discrepancy: one pass of the traversal regex rebuilds "../" from "....//", and "//" keeps a root. */
  lemma SanitizePathAsWrittenLeaks()
    ensures SanitizePathAsWritten("....//") == "../"
    ensures SanitizePathAsWritten("//etc") == "/etc"
  {
    TraversalLeaks();
    RootLeaks();
  }

  lemma TraversalLeaks()
    ensures SanitizePathAsWritten("....//") == "../"
  {
    DotsCollapseToTraversal();
    CleanStepsKeep("../");
  }

  lemma RootLeaks()
    ensures SanitizePathAsWritten("//etc") == "/etc"
  {
    RootSurvives();
    CleanStepsKeep("/etc");
  }

  lemma DotsCollapseToTraversal()
    ensures DropOneLeadingSep(RemoveTraversals("....//")) == "../"
  {
    var s := "....//";
    assert s[1..] == "...//" && s[1..][1..] == "..//" && s[1..][1..][3..] == "/";
    assert RemoveTraversals("/") == "/";
    assert RemoveTraversals("..//") == "/";
    assert RemoveTraversals("...//") == "./";
  }

  lemma RootSurvives()
    ensures DropOneLeadingSep(RemoveTraversals("//etc")) == "/etc"
  {
    var s := "//etc";
    assert s[0] != '.' && s[1..][0] != '.' && s[2..][0] != '.' && s[3..][0] != '.' && s[4..][0] != '.';
    assert RemoveTraversals(s[4..]) == s[4..];
    assert RemoveTraversals(s[3..]) == s[3..];
    assert RemoveTraversals(s[2..]) == s[2..];
    assert RemoveTraversals(s[1..]) == s[1..];
  }

  /** The character steps leave alone a path with single '/' separators and nothing to strip. */
  lemma CleanStepsKeep(s: string)
    requires forall i :: 0 <= i < |s| ==> s[i] != '\\' && !IsNul(s[i]) && !IsPathForbidden(s[i])
    requires forall i :: 0 <= i < |s| - 1 ==> !(s[i] == '/' && s[i + 1] == '/')
    ensures RemoveAll(CollapseSeps(RemoveAll(s, IsNul)), IsPathForbidden) == s
  {
    RemoveAllKeeps(s, IsNul);
    CollapseSepsKeeps(s);
    RemoveAllKeeps(s, IsPathForbidden);
  }

  /** Traversal passes repeated until none is left. */
  function RemoveTraversalsFully(s: string): (r: string)
    ensures NoTraversal(r)
    ensures forall c :: c in r ==> c in s
    decreases |s|
  {
    var t := RemoveTraversals(s);
    RemoveTraversalsFixpoint(s);
    if t == s then s else RemoveTraversalsFully(t)
  }

  /**
   * `sanitizePath` corrected: the character clean-up first, then traversal removal to a
   * fixpoint, then every leading separator: the result is relative and cannot climb.
   */
  function SanitizePath(s: string): (r: string)
    ensures NoTraversal(r)
    ensures r != [] ==> !IsSep(r[0])
    ensures forall i :: 0 <= i < |r| ==> r[i] != '\\' && !IsNul(r[i]) && !IsPathForbidden(r[i])
  {
    var cleaned := RemoveAll(CollapseSeps(RemoveAll(s, IsNul)), IsPathForbidden);
    CleanedChars(s);
    var t := RemoveTraversalsFully(cleaned);
    DropLeadingSepsKeeps(t);
    var r := DropLeadingSeps(t);
    forall i | 0 <= i < |r|
      ensures r[i] != '\\' && !IsNul(r[i]) && !IsPathForbidden(r[i])
    {
      assert r[i] in r;
    }
    r
  }

  lemma CleanedChars(s: string)
    ensures forall c :: c in RemoveAll(CollapseSeps(RemoveAll(s, IsNul)), IsPathForbidden) ==>
              c != '\\' && !IsNul(c) && !IsPathForbidden(c)
  {
    var a := RemoveAll(s, IsNul);
    var b := CollapseSeps(a);
    forall c | c in b
      ensures c != '\\' && !IsNul(c)
    {
      var i :| 0 <= i < |b| && b[i] == c;
      if c != '/' {
        var j :| 0 <= j < |a| && a[j] == c;
      }
    }
  }

  lemma DropLeadingSepsKeeps(t: string)
    requires NoTraversal(t)
    ensures NoTraversal(DropLeadingSeps(t))
    ensures forall c :: c in DropLeadingSeps(t) ==> c in t
  {
    var r := DropLeadingSeps(t);
    SuffixNoTraversal(t, |t| - |r|);
    SuffixChars(t, |t| - |r|);
  }

  lemma SuffixNoTraversal(t: string, k: nat)
    requires NoTraversal(t) && k <= |t|
    ensures NoTraversal(t[k..])
  {
    var r := t[k..];
    forall i | 0 <= i < |r| - 2
      ensures !(r[i] == '.' && r[i + 1] == '.' && IsSep(r[i + 2]))
    {
      assert r[i] == t[k + i] && r[i + 1] == t[k + i + 1] && r[i + 2] == t[k + i + 2];
    }
  }

  lemma SuffixChars(t: string, k: nat)
    requires k <= |t|
    ensures forall c :: c in t[k..] ==> c in t
  {
    forall c | c in t[k..]
      ensures c in t
    {
      var i :| 0 <= i < |t[k..]| && t[k..][i] == c;
      assert t[k + i] == c;
    }
  }

  /** On an ordinary relative path the corrected sanitiser agrees with the source, and both change nothing. */
  lemma {:induction false} PlainPathUnchanged(s: string)
    requires forall i :: 0 <= i < |s| ==> s[i] != '\\' && !IsNul(s[i]) && !IsPathForbidden(s[i])
    requires NoTraversal(s) && (s != [] ==> s[0] != '/')
    requires forall i :: 0 <= i < |s| - 1 ==> !(s[i] == '/' && s[i + 1] == '/')
    ensures SanitizePathAsWritten(s) == s && SanitizePath(s) == s
  {
    RemoveTraversalsFixpoint(s);
    RemoveAllKeeps(s, IsNul);
    CollapseSepsKeeps(s);
    RemoveAllKeeps(s, IsPathForbidden);
  }

  lemma {:induction false} CollapseSepsKeeps(s: string)
    requires forall i :: 0 <= i < |s| ==> s[i] != '\\'
    requires forall i :: 0 <= i < |s| - 1 ==> !(s[i] == '/' && s[i + 1] == '/')
    ensures CollapseSeps(s) == s
  {
    if s != [] {
      if IsSep(s[0]) {
        assert s[1..] != [] ==> s[1..][0] == s[1];
        assert DropLeadingSeps(s[1..]) == s[1..];
      }
      CollapseSepsKeeps(s[1..]);
      assert s == [s[0]] + s[1..];
    }
  }

  // ---------------------------------------------------------------------------
  // Shell commands
  // ---------------------------------------------------------------------------

  const DangerousChars: seq<char> := ['&', '|', ';', '$', '`', '>', '<', '(', ')', '{', '}', '[', ']']

  predicate IsDangerous(c: char) { c in DangerousChars }

  /** The `forEach` over the dangerous characters: one global removal per character, in order. */
  function RemoveEach(s: string, chars: seq<char>): string
    decreases |chars|
  {
    if chars == [] then s else RemoveEach(RemoveAll(s, c => c == chars[0]), chars[1..])
  }

  /** Removing two classes one after the other removes their union. */
  lemma {:induction false} RemoveAllTwice(s: string, p: char -> bool, q: char -> bool, both: char -> bool)
    requires forall c :: both(c) == (p(c) || q(c))
    ensures RemoveAll(RemoveAll(s, p), q) == RemoveAll(s, both)
  {
    if s != [] {
      RemoveAllTwice(s[1..], p, q, both);
    }
  }

  /** Removing the characters one by one removes them all at once. */
  lemma {:induction false} RemoveEachIsRemoveAll(s: string, chars: seq<char>, inChars: char -> bool)
    requires forall c :: inChars(c) == (c in chars)
    ensures RemoveEach(s, chars) == RemoveAll(s, inChars)
    decreases |chars|
  {
    if chars == [] {
      RemoveAllKeeps(s, inChars);
    } else {
      var head: char -> bool := c => c == chars[0];
      var tail: char -> bool := c => c in chars[1..];
      RemoveEachIsRemoveAll(RemoveAll(s, head), chars[1..], tail);
      assert forall c :: inChars(c) == (head(c) || tail(c)) by {
        assert forall c :: c in chars <==> c == chars[0] || c in chars[1..] by {
          assert chars == [chars[0]] + chars[1..];
        }
      }
      RemoveAllTwice(s, head, tail, inChars);
    }
  }

  /** /\s+/g replaced by ' ': each whitespace run becomes one space. */
  function CollapseSpaces(s: string): (r: string)
    ensures forall i :: 0 <= i < |r| && IsSpace(r[i]) ==> r[i] == ' '
    ensures forall i :: 0 <= i < |r| - 1 ==> !(IsSpace(r[i]) && IsSpace(r[i + 1]))
    ensures r == [] <==> s == []
    ensures r != [] ==> (IsSpace(r[0]) <==> IsSpace(s[0]))
    ensures forall c :: c in r ==> c in s || c == ' '
    decreases |s|
  {
    if s == [] then []
    else if IsSpace(s[0]) then [' '] + CollapseSpaces(TrimStart(s[1..]))
    else [s[0]] + CollapseSpaces(s[1..])
  }

  /** No dangerous character, every whitespace a single space, no two spaces together, nothing to trim. */
  predicate CommandSafe(r: string)
  {
    && (forall i :: 0 <= i < |r| ==> !IsDangerous(r[i]))
    && (forall i :: 0 <= i < |r| && IsSpace(r[i]) ==> r[i] == ' ')
    && (forall i :: 0 <= i < |r| - 1 ==> !(r[i] == ' ' && r[i + 1] == ' '))
    && (r != [] ==> r[0] != ' ' && r[|r| - 1] != ' ')
  }

  /** `sanitizeForCommand` as a specification: no dangerous character, single spaces, trimmed. */
  function SanitizeForCommand(input: string): (r: string)
    ensures CommandSafe(r)
  {
    var removed := RemoveEach(input, DangerousChars);
    RemovedIsSafe(input);
    var collapsed := CollapseSpaces(removed);
    CollapsedIsSafe(removed);
    TrimmedIsSafe(collapsed);
    Trim(collapsed)
  }

  lemma RemovedIsSafe(input: string)
    ensures forall i :: 0 <= i < |RemoveEach(input, DangerousChars)| ==> !IsDangerous(RemoveEach(input, DangerousChars)[i])
  {
    RemoveEachIsRemoveAll(input, DangerousChars, IsDangerous);
  }

  lemma CollapsedIsSafe(s: string)
    requires forall i :: 0 <= i < |s| ==> !IsDangerous(s[i])
    ensures forall i :: 0 <= i < |CollapseSpaces(s)| ==> !IsDangerous(CollapseSpaces(s)[i])
  {
    var r := CollapseSpaces(s);
    forall i | 0 <= i < |r|
      ensures !IsDangerous(r[i])
    {
      assert r[i] in r;
      if r[i] != ' ' {
        var j :| 0 <= j < |s| && s[j] == r[i];
      }
    }
  }

  /** Trimming keeps whatever holds of every character and of every adjacent pair. */
  lemma TrimmedIsSafe(s: string)
    requires forall i :: 0 <= i < |s| ==> !IsDangerous(s[i])
    requires forall i :: 0 <= i < |s| && IsSpace(s[i]) ==> s[i] == ' '
    requires forall i :: 0 <= i < |s| - 1 ==> !(IsSpace(s[i]) && IsSpace(s[i + 1]))
    ensures CommandSafe(Trim(s))
  {
    TrimIsInfix(s);
    var r := Trim(s);
    var k := |s| - |TrimStart(s)|;
    assert r == s[k..k + |r|];
    forall i | 0 <= i < |r|
      ensures !IsDangerous(r[i]) && (IsSpace(r[i]) ==> r[i] == ' ')
    {
      assert r[i] == s[k + i];
    }
    forall i | 0 <= i < |r| - 1
      ensures !(r[i] == ' ' && r[i + 1] == ' ')
    {
      assert r[i] == s[k + i] && r[i + 1] == s[k + i + 1];
    }
  }

  /** Sanitising a command twice changes nothing more. */
  lemma CommandSanitiserIdempotent(input: string)
    ensures SanitizeForCommand(SanitizeForCommand(input)) == SanitizeForCommand(input)
  {
    var r := SanitizeForCommand(input);
    RemoveEachIsRemoveAll(r, DangerousChars, IsDangerous);
    RemoveAllKeeps(r, IsDangerous);
    CollapseSpacesKeeps(r);
    TrimKeeps(r);
  }

  lemma {:induction false} CollapseSpacesKeeps(s: string)
    requires forall i :: 0 <= i < |s| && IsSpace(s[i]) ==> s[i] == ' '
    requires forall i :: 0 <= i < |s| - 1 ==> !(s[i] == ' ' && s[i + 1] == ' ')
    ensures CollapseSpaces(s) == s
  {
    if s != [] {
      if IsSpace(s[0]) {
        assert s[1..] != [] ==> s[1..][0] == s[1];
        assert TrimStart(s[1..]) == s[1..];
      }
      CollapseSpacesKeeps(s[1..]);
      assert s == [s[0]] + s[1..];
    }
  }

  lemma TrimKeeps(s: string)
    requires CommandSafe(s)
    ensures Trim(s) == s
  {
    if s != [] {
      var first, last := s[0], s[|s| - 1];
      assert !IsSpace(first) && !IsSpace(last);
    }
  }

  // ---------------------------------------------------------------------------
  // NoSQL queries
  // ---------------------------------------------------------------------------

  const NoSqlOperators: seq<string> := ["$where", "$ne", "$gt", "$gte", "$lt", "$lte", "$in", "$nin", "$or", "$and"]

  /** The `forEach` over the operators: each one's occurrences removed, in the listed order. */
  function RemoveOperators(s: string, ops: seq<string>): string
    requires forall i :: 0 <= i < |ops| ==> ops[i] != []
    decreases |ops|
  {
    if ops == [] then s else RemoveOperators(ReplaceAll(s, ops[0], ""), ops[1..])
  }

  predicate IsOperatorKey(key: string) { key != [] && key[0] == '$' }

  /** The own properties whose key does not start with '$', in order. */
  function KeptFields(fs: seq<Field>): (r: seq<Field>)
    ensures forall f :: f in r <==> f in fs && !IsOperatorKey(f.key)
    ensures |r| <= |fs|
  {
    if fs == [] then []
    else (if IsOperatorKey(fs[0].key) then [] else [fs[0]]) + KeptFields(fs[1..])
  }

  /** `sanitizeForNoSQL`: strings lose the operators; objects lose '$' keys; arrays and objects recurse. */
  function SanitizeForNoSQL(v: Json): Json
  {
    match v
    case JStr(s) => JStr(RemoveOperators(s, NoSqlOperators))
    case JArr(items) => JArr(seq(|items|, i requires 0 <= i < |items| => SanitizeForNoSQL(items[i])))
    case JObj(fs) =>
      var kept := KeptFields(fs);
      JObj(seq(|kept|, i requires 0 <= i < |kept| =>
        assert kept[i] in fs;
        Field(kept[i].key, SanitizeForNoSQL(kept[i].value))))
    case _ => v
  }

  /** No key starting with '$' at any depth. */
  predicate NoOperatorKeys(v: Json)
  {
    match v
    case JArr(items) => forall i :: 0 <= i < |items| ==> NoOperatorKeys(items[i])
    case JObj(fs) => forall i :: 0 <= i < |fs| ==> !IsOperatorKey(fs[i].key) && NoOperatorKeys(fs[i].value)
    case _ => true
  }

  /** Whatever the input, the sanitised query carries no operator key at any depth. */
  lemma {:induction false} NoSQLRemovesOperatorKeys(v: Json)
    ensures NoOperatorKeys(SanitizeForNoSQL(v))
  {
    match v
    case JArr(items) =>
      forall i | 0 <= i < |items|
        ensures NoOperatorKeys(SanitizeForNoSQL(items[i]))
      {
        NoSQLRemovesOperatorKeys(items[i]);
      }
    case JObj(fs) =>
      var kept := KeptFields(fs);
      forall i | 0 <= i < |kept|
        ensures !IsOperatorKey(kept[i].key) && NoOperatorKeys(SanitizeForNoSQL(kept[i].value))
      {
        assert kept[i] in kept;
        NoSQLRemovesOperatorKeys(kept[i].value);
      }
    case _ =>
  }

  /** Arrays keep their length and objects keep every ordinary key, in order. */
  lemma NoSQLKeepsShape(v: Json)
    ensures v.JArr? ==> SanitizeForNoSQL(v).JArr? && |SanitizeForNoSQL(v).items| == |v.items|
    ensures v.JObj? ==> SanitizeForNoSQL(v).JObj? && Keys(SanitizeForNoSQL(v).fields) == Keys(KeptFields(v.fields))
    ensures !v.JArr? && !v.JObj? && !v.JStr? ==> SanitizeForNoSQL(v) == v
  {
  }

  /** Operators are removed in list order, so "$gt" goes before "$gte" can match: "$gte" leaves "e". */
  lemma GteLeavesE()
    ensures SanitizeForNoSQL(JStr("$gte")) == JStr("e")
  {
    var ops := NoSqlOperators;
    assert ReplaceAll("$gte", ops[0], "") == "$gte";
    assert ReplaceAll("$gte", ops[1], "") == "$gte" by {
      assert "$gte"[..3] != "$ne" && "$gte"[1..] == "gte";
      assert "gte"[..3] != "$ne" && "gte"[1..] == "te";
      assert ReplaceAll("te", "$ne", "") == "te";
    }
    assert ReplaceAll("$gte", ops[2], "") == "e" by {
      assert "$gte"[..3] == "$gt" && "$gte"[3..] == "e";
      assert ReplaceAll("e", "$gt", "") == "e";
    }
    assert ops[1..][1..][1..] == ops[3..];
    ShortStringKept("e", ops[3..]);
  }

  /** A string shorter than every operator contains none of them. */
  lemma {:induction false} ShortStringKept(s: string, ops: seq<string>)
    requires forall i :: 0 <= i < |ops| ==> |s| < |ops[i]|
    ensures RemoveOperators(s, ops) == s
    decreases |ops|
  {
    if ops != [] {
      ShortStringKept(s, ops[1..]);
    }
  }

  // ---------------------------------------------------------------------------
  // Generic request values
  // ---------------------------------------------------------------------------

  /** Successive assignments into a fresh object. */
  function PutAll(acc: seq<Field>, fields: seq<Field>): (r: seq<Field>)
    requires DistinctKeys(acc)
    ensures DistinctKeys(r)
    ensures forall f :: f in r ==> f in acc || f in fields
    decreases |fields|
  {
    if fields == [] then acc
    else
      PutLookup(acc, fields[0].key, fields[0].value, fields[0].key);
      PutAll(Put(acc, fields[0].key, fields[0].value), fields[1..])
  }

  /** `sanitizeInput`: strings cleaned, NaN and the infinities to 0, arrays mapped, keys and values of objects sanitised. */
  function SanitizeInput(v: Json): Json
  {
    match v
    case JStr(s) => JStr(CleanString(s))
    case JNaN => JNum(0.0)
    case JInfinity(_) => JNum(0.0)
    case JArr(items) => JArr(seq(|items|, i requires 0 <= i < |items| => SanitizeInput(items[i])))
    case JObj(fs) =>
      JObj(PutAll([], seq(|fs|, i requires 0 <= i < |fs| =>
        assert fs[i] in fs;
        Field(CleanString(fs[i].key), SanitizeInput(fs[i].value)))))
    case _ => v
  }

  predicate CleanText(s: string)
  {
    forall i :: 0 <= i < |s| ==> !IsControl(s[i]) && s[i] != '<' && s[i] != '>' && s[i] != '"' && s[i] != '\''
  }

  /** Every number finite, every string and key free of markup and control characters, no key twice. */
  predicate Sane(v: Json)
  {
    match v
    case JNaN => false
    case JInfinity(_) => false
    case JStr(s) => CleanText(s)
    case JArr(items) => forall i :: 0 <= i < |items| ==> Sane(items[i])
    case JObj(fs) => DistinctKeys(fs) && forall i :: 0 <= i < |fs| ==> CleanText(fs[i].key) && Sane(fs[i].value)
    case _ => true
  }

  /** Whatever comes in, what `sanitizeInput` returns is sane. */
  lemma {:induction false} SanitizeInputIsSane(v: Json)
    ensures Sane(SanitizeInput(v))
  {
    match v
    case JArr(items) =>
      forall i | 0 <= i < |items|
        ensures Sane(SanitizeInput(items[i]))
      {
        SanitizeInputIsSane(items[i]);
      }
    case JObj(fs) =>
      forall j | 0 <= j < |fs|
        ensures Sane(SanitizeInput(fs[j].value))
      {
        assert fs[j] in fs;
        SanitizeInputIsSane(fs[j].value);
      }
      SanitizedFieldsSane(fs);
    case _ =>
  }

  /** An object whose values all sanitise to sane values sanitises to a sane object. */
  lemma SanitizedFieldsSane(fs: seq<Field>)
    requires forall j :: 0 <= j < |fs| ==> Sane(SanitizeInput(fs[j].value))
    ensures Sane(SanitizeInput(JObj(fs)))
  {
    var mapped := seq(|fs|, i requires 0 <= i < |fs| => Field(CleanString(fs[i].key), SanitizeInput(fs[i].value)));
    var r := PutAll([], mapped);
    forall i | 0 <= i < |r|
      ensures CleanText(r[i].key) && Sane(r[i].value)
    {
      assert r[i] in r;
      var j :| 0 <= j < |mapped| && mapped[j] == r[i];
    }
    assert SanitizeInput(JObj(fs)) == JObj(r);
  }

  /** A NaN, an infinity, or an array of them becomes zeros. */
  lemma NonFiniteBecomesZero(negative: bool)
    ensures SanitizeInput(JNaN) == JNum(0.0) && SanitizeInput(JInfinity(negative)) == JNum(0.0)
    ensures SanitizeInput(JArr([JNaN, JInfinity(negative)])) == JArr([JNum(0.0), JNum(0.0)])
  {
  }

  // ---------------------------------------------------------------------------
  // The chainable validator
  // ---------------------------------------------------------------------------

  /** A JavaScript number as a relational comparison sees it. */
  datatype Numeric = Finite(n: real) | PosInf | NegInf | NotANumber

  function IntToString(n: int): string
  {
    if n < 0 then "-" + NatToString(-n) else NatToString(n)
  }

  /** `value.length`, where it exists. */
  function LengthOf(v: Json): Option<nat>
  {
    match v
    case JStr(s) => Some(|s|)
    case JArr(items) => Some(|items|)
    case _ => None
  }

  /** A string coerced to a number: the empty string is 0, any other goes through `toNumber`. */
  function StringNumber(s: string, toNumber: string -> Option<real>): Numeric
  {
    if s == [] then Finite(0.0) else if toNumber(s).Some? then Finite(toNumber(s).value) else NotANumber
  }

  /**
   * The number `String(v)` coerces to. A finite number's string reads back as the number;
   * `null` and `undefined` join as ""; an array is its `join(',')`, so an empty one is "", a
   * single element is that element's string, and a comma makes NaN; an object is "[object Object]".
   */
  function StringFormNumber(v: Json, toNumber: string -> Option<real>): Numeric
  {
    match v
    case JNum(n) => Finite(n)
    case JInfinity(negative) => if negative then NegInf else PosInf
    case JNaN => NotANumber
    case JBool(_) => NotANumber
    case JStr(s) => StringNumber(s, toNumber)
    case JNull => Finite(0.0)
    case JUndefined => Finite(0.0)
    case JArr(items) =>
      if |items| == 0 then Finite(0.0)
      else if |items| == 1 then StringFormNumber(items[0], toNumber)
      else NotANumber
    case JObj(_) => NotANumber
  }

  /** The number a value is compared as: a primitive directly, an array or object through its string. */
  function NumericOf(v: Json, toNumber: string -> Option<real>): Numeric
  {
    match v
    case JBool(b) => Finite(if b then 1.0 else 0.0)
    case JNull => Finite(0.0)
    case JUndefined => NotANumber
    case _ => StringFormNumber(v, toNumber)
  }

  /** An empty array compares as 0, so it fails a range that starts above 0. */
  lemma EmptyArrayComparesAsZero(min: int, max: int, toNumber: string -> Option<real>)
    ensures NumericOf(JArr([]), toNumber) == Finite(0.0)
    ensures RangeFails(JArr([]), min, max, toNumber) <==> min > 0 || max < 0
  {
  }

  /** A one-element array compares as its element's string: `["500"]` fails `range(0, 100)`. */
  lemma SingletonComparesAsElement(s: string, min: int, max: int, toNumber: string -> Option<real>)
    requires s != []
    ensures NumericOf(JArr([JStr(s)]), toNumber) == NumericOf(JStr(s), toNumber)
    ensures RangeFails(JArr([JStr(s)]), min, max, toNumber) <==> RangeFails(JStr(s), min, max, toNumber)
    ensures toNumber("500") == Some(500.0) ==> RangeFails(JArr([JStr("500")]), 0, 100, toNumber)
  {
  }

  /** An array of two or more elements joins with a comma, reads as NaN and passes every range check. */
  lemma LongArrayPassesRange(items: seq<Json>, min: int, max: int, toNumber: string -> Option<real>)
    requires |items| >= 2
    ensures NumericOf(JArr(items), toNumber) == NotANumber
    ensures !RangeFails(JArr(items), min, max, toNumber)
  {
  }

  predicate RequiredFails(v: Json) { !Truthy(v) }

  predicate StringFails(v: Json) { Truthy(v) && !v.JStr? }

  /** NaN is falsy, so only a truthy non-number fails. */
  predicate NumberFails(v: Json) { Truthy(v) && !v.JNum? && !v.JInfinity? }

  predicate MinLengthFails(v: Json, min: int) { Truthy(v) && LengthOf(v).Some? && LengthOf(v).value < min }

  predicate MaxLengthFails(v: Json, max: int) { Truthy(v) && LengthOf(v).Some? && LengthOf(v).value > max }

  predicate RangeFails(v: Json, min: int, max: int, toNumber: string -> Option<real>)
  {
    Truthy(v) &&
      match NumericOf(v, toNumber)
      case Finite(n) => n < min as real || n > max as real
      case PosInf => true
      case NegInf => true
      case NotANumber => false
  }

  /** A number inside the bounds passes, one outside fails. */
  lemma RangeIffOutside(n: real, min: int, max: int, toNumber: string -> Option<real>)
    requires n != 0.0
    ensures RangeFails(JNum(n), min, max, toNumber) <==> n < min as real || n > max as real
  {
  }

  /** Zero is falsy, so it passes every range check, even one whose lower bound is above it. */
  lemma ZeroSkipsRange(min: int, max: int, toNumber: string -> Option<real>)
    ensures !RangeFails(JNum(0.0), min, max, toNumber)
    ensures !MinLengthFails(JStr(""), min)
  {
  }

  datatype ValidationResult = ValidationResult(isValid: bool, errors: seq<string>, sanitized: seq<Field>)

  class InputValidator {
    const data: seq<Field>
    var errors: seq<string>
    var sanitized: seq<Field>

    /** The shallow copy `{ ...data }` starts the sanitised record. */
    constructor (data: seq<Field>)
      ensures this.data == data && errors == [] && sanitized == data
    {
      this.data := data;
      errors := [];
      sanitized := data;
    }

    /** `fieldName || field`: the empty or absent display name falls back to the field. */
    function Label(field: string, fieldName: string): string
    {
      if fieldName != "" then fieldName else field
    }

    method Required(field: string, fieldName: string)
      modifies this
      ensures sanitized == old(sanitized)
      ensures errors == old(errors) + (if RequiredFails(Lookup(data, field)) then [Label(field, fieldName) + " is required"] else [])
    {
      if !Truthy(Lookup(data, field)) {
        errors := errors + [Label(field, fieldName) + " is required"];
      }
    }

    method String(field: string, fieldName: string)
      modifies this
      ensures sanitized == old(sanitized)
      ensures errors == old(errors) + (if StringFails(Lookup(data, field)) then [Label(field, fieldName) + " must be a string"] else [])
    {
      var v := Lookup(data, field);
      if Truthy(v) && !v.JStr? {
        errors := errors + [Label(field, fieldName) + " must be a string"];
      }
    }

    method Number(field: string, fieldName: string)
      modifies this
      ensures sanitized == old(sanitized)
      ensures errors == old(errors) + (if NumberFails(Lookup(data, field)) then [Label(field, fieldName) + " must be a number"] else [])
    {
      var v := Lookup(data, field);
      if Truthy(v) && (!(v.JNum? || v.JInfinity?) || v.JNaN?) {
        errors := errors + [Label(field, fieldName) + " must be a number"];
      }
    }

    method MinLength(field: string, min: int, fieldName: string)
      modifies this
      ensures sanitized == old(sanitized)
      ensures errors == old(errors) + (if MinLengthFails(Lookup(data, field), min)
                                       then [Label(field, fieldName) + " must be at least " + IntToString(min) + " characters"] else [])
    {
      var v := Lookup(data, field);
      var len := LengthOf(v);
      if Truthy(v) && len.Some? && len.value < min {
        errors := errors + [Label(field, fieldName) + " must be at least " + IntToString(min) + " characters"];
      }
    }

    method MaxLength(field: string, max: int, fieldName: string)
      modifies this
      ensures sanitized == old(sanitized)
      ensures errors == old(errors) + (if MaxLengthFails(Lookup(data, field), max)
                                       then [Label(field, fieldName) + " must be no more than " + IntToString(max) + " characters"] else [])
    {
      var v := Lookup(data, field);
      var len := LengthOf(v);
      if Truthy(v) && len.Some? && len.value > max {
        errors := errors + [Label(field, fieldName) + " must be no more than " + IntToString(max) + " characters"];
      }
    }

    /** `pattern`: `test` is the caller's regular expression applied to the value. */
    method Pattern(field: string, test: Json -> bool, fieldName: string)
      modifies this
      ensures sanitized == old(sanitized)
      ensures errors == old(errors) + (if Truthy(Lookup(data, field)) && !test(Lookup(data, field))
                                       then [Label(field, fieldName) + " has invalid format"] else [])
    {
      var v := Lookup(data, field);
      if Truthy(v) && !test(v) {
        errors := errors + [Label(field, fieldName) + " has invalid format"];
      }
    }

    method Range(field: string, min: int, max: int, fieldName: string, toNumber: string -> Option<real>)
      modifies this
      ensures sanitized == old(sanitized)
      ensures errors == old(errors) + (if RangeFails(Lookup(data, field), min, max, toNumber)
                                       then [Label(field, fieldName) + " must be between " + IntToString(min) + " and " + IntToString(max)] else [])
    {
      var v := Lookup(data, field);
      if Truthy(v) {
        var below, above := false, false;
        match NumericOf(v, toNumber) {
          case Finite(n) => below, above := n < min as real, n > max as real;
          case PosInf => above := true;
          case NegInf => below := true;
          case NotANumber =>
        }
        if below || above {
          errors := errors + [Label(field, fieldName) + " must be between " + IntToString(min) + " and " + IntToString(max)];
        }
      }
    }

    /** `sanitizeString`: a non-empty string field is cleaned into the sanitised record. */
    method SanitizeString(field: string)
      requires DistinctKeys(sanitized)
      modifies this
      ensures errors == old(errors) && DistinctKeys(sanitized)
      ensures var v := Lookup(data, field);
        if v.JStr? && v.s != [] then sanitized == Put(old(sanitized), field, JStr(CleanString(v.s)))
        else sanitized == old(sanitized)
      ensures forall k :: k != field ==> Lookup(sanitized, k) == Lookup(old(sanitized), k)
    {
      var v := Lookup(data, field);
      if v.JStr? && v.s != [] {
        PutLookup(sanitized, field, JStr(CleanString(v.s)), field);
        forall k | k != field
          ensures Lookup(Put(sanitized, field, JStr(CleanString(v.s))), k) == Lookup(sanitized, k)
        {
          PutLookup(sanitized, field, JStr(CleanString(v.s)), k);
        }
        sanitized := Put(sanitized, field, JStr(CleanString(v.s)));
      }
    }

    /** `validate`: valid exactly when no check has failed. */
    function Validate(): (r: ValidationResult)
      reads this
      ensures r.isValid <==> errors == []
      ensures r.errors == errors && r.sanitized == sanitized
    {
      ValidationResult(|errors| == 0, errors, sanitized)
    }
  }

  /** A chain on a present, well-formed field raises nothing: required, string and length checks all pass. */
  lemma WellFormedFieldPasses(s: string, min: int, max: int)
    requires s != [] && min <= |s| <= max
    ensures !RequiredFails(JStr(s)) && !StringFails(JStr(s))
    ensures !MinLengthFails(JStr(s), min) && !MaxLengthFails(JStr(s), max)
  {
  }
}
