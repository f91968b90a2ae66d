/**
 * The shared migration helpers: migration names are `<timestamp>_<sanitised name>`, file
 * names add `.ts` or `.js`, and the runner reads a directory listing filtered and sorted.
 *
 * `Date.now()` is the parameter `timestamp`; the directory listing is the parameter
 * `listing`. Writing the migration template to disk is not part of this model.
 */
module Migrations {
  import opened Wrappers
  import opened JsText

  predicate IsUnderscore(c: char) { c == '_' }
  predicate NotAlnum(c: char) { !IsAlnum(c) }

  /** `replace(/[^a-zA-Z0-9]/g, c)`: every character outside the ASCII letters and digits becomes `c`. */
  function Blank(s: string, c: char): (r: string)
    ensures |r| == |s|
    ensures forall i :: 0 <= i < |s| ==> r[i] == if IsAlnum(s[i]) then s[i] else c
  {
    if s == [] then [] else [if IsAlnum(s[0]) then s[0] else c] + Blank(s[1..], c)
  }

  /** `replace(/_+/g, '_')`: each run of underscores becomes one; the last of a run is the one kept. */
  function Collapse(s: string): (r: string)
    ensures |s| > 0 ==> |r| > 0 && r[0] == s[0]
    ensures forall c :: c in r ==> c in s
  {
    if |s| < 2 then s
    else if s[0] == '_' && s[1] == '_' then Collapse(s[1..])
    else [s[0]] + Collapse(s[1..])
  }

  /** No two underscores next to each other. */
  predicate NoDoubleUnderscore(s: string)
  {
    forall i :: 0 <= i < |s| - 1 ==> !(s[i] == '_' && s[i + 1] == '_')
  }

  /** Lower-case ASCII letters, digits and `_`. */
  predicate IsNameChar(c: char) { IsLower(c) || IsDigit(c) || c == '_' }

  /** The name part of `generateMigrationName`. */
  function SanitizeName(name: string): string
  {
    ToLower(Collapse(Blank(name, '_')))
  }

  /** `generateMigrationName(name)` when `Date.now()` returns `timestamp`. */
  function GenerateMigrationName(name: string, timestamp: nat): string
  {
    NatToString(timestamp) + "_" + SanitizeName(name)
  }

  lemma {:induction false} CollapseNoDouble(s: string)
    ensures NoDoubleUnderscore(Collapse(s))
    decreases |s|
  {
    if |s| >= 2 {
      CollapseNoDouble(s[1..]);
    }
  }

  /** A sanitised name is made of lower-case letters, digits and single underscores. */
  lemma SanitizedShape(name: string)
    ensures AllChars(SanitizeName(name), IsNameChar)
    ensures NoDoubleUnderscore(SanitizeName(name))
    ensures |SanitizeName(name)| == 0 <==> |name| == 0
  {
    var b := Blank(name, '_');
    var c := Collapse(b);
    CollapseNoDouble(b);
    forall i | 0 <= i < |c|
      ensures IsNameChar(ToLowerChar(c[i]))
    {
      assert c[i] in b;
    }
  }

  lemma {:induction false} LowerKeepsUnderscores(s: string)
    ensures RemoveAll(ToLower(s), IsUnderscore) == ToLower(RemoveAll(s, IsUnderscore))
  {
    if s != [] {
      assert ToLower(s)[1..] == ToLower(s[1..]);
      LowerKeepsUnderscores(s[1..]);
    }
  }

  lemma {:induction false} CollapseKeepsOthers(s: string)
    ensures RemoveAll(Collapse(s), IsUnderscore) == RemoveAll(s, IsUnderscore)
    decreases |s|
  {
    if |s| >= 2 {
      CollapseKeepsOthers(s[1..]);
    }
  }

  lemma {:induction false} BlankDropsNonAlnum(s: string)
    ensures RemoveAll(Blank(s, '_'), IsUnderscore) == RemoveAll(s, NotAlnum)
  {
    if s != [] {
      assert Blank(s, '_')[1..] == Blank(s[1..], '_');
      BlankDropsNonAlnum(s[1..]);
    }
  }

  /** Leaving the underscores aside, the sanitised name is the input's letters and digits, in order, lower-cased. */
  lemma SanitizeKeepsAlnum(name: string)
    ensures RemoveAll(SanitizeName(name), IsUnderscore) == ToLower(RemoveAll(name, NotAlnum))
  {
    var b := Blank(name, '_');
    LowerKeepsUnderscores(Collapse(b));
    CollapseKeepsOthers(b);
    BlankDropsNonAlnum(name);
  }

  lemma {:induction false} CollapseSingle(s: string)
    requires NoDoubleUnderscore(s)
    ensures Collapse(s) == s
    decreases |s|
  {
    if |s| >= 2 {
      CollapseSingle(s[1..]);
    }
  }

  /** Sanitising a sanitised name changes nothing. */
  lemma SanitizeIdempotent(name: string)
    ensures SanitizeName(SanitizeName(name)) == SanitizeName(name)
  {
    var r := SanitizeName(name);
    SanitizedShape(name);
    assert Blank(r, '_') == r;
    CollapseSingle(r);
    assert ToLower(r) == r;
  }

  /** A parsed migration file name. */
  datatype Migration = Migration(timestamp: nat, name: string)

  /** The characters `.` does not match in a JavaScript regular expression without the `s` flag. */
  predicate IsLineTerminator(c: char)
  {
    c == '\n' || c == '\r' || c == '\U{2028}' || c == '\U{2029}'
  }

  predicate IsExtension(e: string) { e == ".ts" || e == ".js" }

  /**
   * `parseMigrationName`: `/^(\d+)_(.+)\.(ts|js)$/`, else the error. The digits before the
   * first `_` are the timestamp and everything up to the extension is the name.
   */
  function ParseMigrationName(fileName: string): Result<Migration>
  {
    var d := DigitRun(fileName);
    if d == 0 || d == |fileName| || fileName[d] != '_' then Err("Invalid migration file name: " + fileName)
    else
      var rest := fileName[d + 1..];
      if |rest| < 4 || !IsExtension(rest[|rest| - 3..]) || exists c :: c in rest[..|rest| - 3] && IsLineTerminator(c)
      then Err("Invalid migration file name: " + fileName)
      else Ok(Migration(DigitsToNat(fileName[..d]), rest[..|rest| - 3]))
  }

  /** What the pattern accepts: digits, `_`, a non-empty name on one line, and the extension. */
  predicate WellFormed(digits: string, name: string, ext: string)
  {
    && digits != [] && AllChars(digits, IsDigit)
    && name != [] && (forall c :: c in name ==> !IsLineTerminator(c))
    && IsExtension(ext)
  }

  /** Every name the pattern accepts parses to its digits' value and the middle part. */
  lemma ParseAccepts(digits: string, name: string, ext: string)
    requires WellFormed(digits, name, ext)
    ensures ParseMigrationName(digits + "_" + name + ext) == Ok(Migration(DigitsToNat(digits), name))
  {
    var tail := name + ext;
    assert digits + "_" + name + ext == digits + ("_" + tail);
    DigitRunOf(digits, "_" + tail);
    SplitAtSeparator(digits, tail);
    SplitExtension(name, ext);
  }

  lemma SplitAtSeparator(digits: string, tail: string)
    ensures var s := digits + ("_" + tail);
      s[..|digits|] == digits && s[|digits|] == '_' && s[|digits| + 1..] == tail
  {
  }

  lemma SplitExtension(name: string, ext: string)
    requires |ext| == 3
    ensures var rest := name + ext;
      rest[..|rest| - 3] == name && rest[|rest| - 3..] == ext
  {
  }

  /** And every name that parses has that form: the parser accepts exactly what the pattern matches. */
  lemma ParseSound(fileName: string)
    requires ParseMigrationName(fileName).Ok?
    ensures exists digits, ext ::
              && WellFormed(digits, ParseMigrationName(fileName).value.name, ext)
              && fileName == digits + "_" + ParseMigrationName(fileName).value.name + ext
              && ParseMigrationName(fileName).value.timestamp == DigitsToNat(digits)
  {
    var d := DigitRun(fileName);
    var rest := fileName[d + 1..];
    var digits, name, ext := fileName[..d], rest[..|rest| - 3], rest[|rest| - 3..];
    assert fileName == digits + "_" + name + ext;
    assert WellFormed(digits, name, ext);
  }

  /** A generated name with its extension parses back to the timestamp and the sanitised name. */
  lemma GeneratedNameParses(name: string, timestamp: nat, ext: string)
    requires name != [] && IsExtension(ext)
    ensures ParseMigrationName(GenerateMigrationName(name, timestamp) + ext) == Ok(Migration(timestamp, SanitizeName(name)))
  {
    SanitizedShape(name);
    var n := SanitizeName(name);
    forall c | c in n
      ensures !IsLineTerminator(c)
    {
      var i :| 0 <= i < |n| && n[i] == c;
      assert IsNameChar(n[i]);
    }
    ParseAccepts(NatToString(timestamp), n, ext);
    DigitsToNatOfNatToString(timestamp);
  }

  /** An empty name gives `<timestamp>_.ts`, which the parser rejects. */
  lemma EmptyNameRejected(timestamp: nat)
    ensures ParseMigrationName(GenerateMigrationName("", timestamp) + ".ts").Err?
  {
    var s := GenerateMigrationName("", timestamp) + ".ts";
    var t := NatToString(timestamp);
    assert SanitizeName("") == "";
    assert s == t + "_.ts";
    DigitRunOf(t, "_.ts");
  }

  /** The words of `toPascalCase`: split at non-alphanumerics, empty pieces dropped. */
  function NonEmpty(parts: seq<string>): (r: seq<string>)
    ensures forall i :: 0 <= i < |r| ==> r[i] != [] && r[i] in parts
  {
    if parts == [] then []
    else if parts[0] == [] then NonEmpty(parts[1..])
    else [parts[0]] + NonEmpty(parts[1..])
  }

  /** `word.charAt(0).toUpperCase() + word.slice(1).toLowerCase()`. */
  function Capitalize(w: string): string
  {
    if w == [] then [] else [ToUpperChar(w[0])] + ToLower(w[1..])
  }

  function CapitalizeAll(ws: seq<string>): (r: seq<string>)
    ensures |r| == |ws|
  {
    if ws == [] then [] else [Capitalize(ws[0])] + CapitalizeAll(ws[1..])
  }

  predicate IsSpaceChar(c: char) { c == ' ' }

  /** `toPascalCase(str)`. */
  function ToPascalCase(str: string): string
  {
    Concat(CapitalizeAll(NonEmpty(Split(Blank(str, ' '), ' '))))
  }

  lemma {:induction false} LowerAppend(a: string, b: string)
    ensures ToLower(a + b) == ToLower(a) + ToLower(b)
  {
  }

  lemma {:induction false} ConcatLower(ws: seq<string>)
    ensures ToLower(Concat(CapitalizeAll(ws))) == ToLower(Concat(ws))
  {
    if ws != [] {
      ConcatLower(ws[1..]);
      LowerAppend(Capitalize(ws[0]), Concat(CapitalizeAll(ws[1..])));
      LowerAppend(ws[0], Concat(ws[1..]));
      CapitalizeLower(ws[0]);
    }
  }

  /** Capitalising a word changes only its case. */
  lemma CapitalizeLower(w: string)
    ensures ToLower(Capitalize(w)) == ToLower(w)
  {
    if w != [] {
      LowerAppend([ToUpperChar(w[0])], ToLower(w[1..]));
      assert w == [w[0]] + w[1..];
      LowerAppend([w[0]], w[1..]);
    }
  }

  lemma {:induction false} ConcatNonEmpty(ws: seq<string>)
    ensures Concat(NonEmpty(ws)) == Concat(ws)
  {
    if ws != [] {
      ConcatNonEmpty(ws[1..]);
    }
  }

  lemma {:induction false} ConcatSplit(s: string)
    ensures Concat(Split(s, ' ')) == RemoveAll(s, IsSpaceChar)
    decreases |s|
  {
    if ' ' !in s {
      RemoveAllKeeps(s, IsSpaceChar);
    } else {
      var k := IndexOf(s, ' ');
      var head, tail := s[..k], s[k + 1..];
      var parts := Split(s, ' ');
      assert parts == [head] + Split(tail, ' ');
      assert Concat(parts) == head + Concat(Split(tail, ' ')) by {
        assert parts[0] == head && parts[1..] == Split(tail, ' ');
      }
      ConcatSplit(tail);
      RemoveAllKeeps(head, IsSpaceChar);
      assert RemoveAll([' '] + tail, IsSpaceChar) == RemoveAll(tail, IsSpaceChar) by {
        assert ([' '] + tail)[0] == ' ' && ([' '] + tail)[1..] == tail;
      }
      assert s == head + ([' '] + tail);
      RemoveAllAppend(head, [' '] + tail, IsSpaceChar);
    }
  }

  lemma {:induction false} BlankSpaceDropsNonAlnum(s: string)
    ensures RemoveAll(Blank(s, ' '), IsSpaceChar) == RemoveAll(s, NotAlnum)
  {
    if s != [] {
      assert Blank(s, ' ')[1..] == Blank(s[1..], ' ');
      BlankSpaceDropsNonAlnum(s[1..]);
    }
  }

  /** Up to case, the PascalCase name is exactly the input's letters and digits, in order. */
  lemma PascalCaseLetters(str: string)
    ensures ToLower(ToPascalCase(str)) == ToLower(RemoveAll(str, NotAlnum))
  {
    var parts := Split(Blank(str, ' '), ' ');
    ConcatLower(NonEmpty(parts));
    ConcatNonEmpty(parts);
    ConcatSplit(Blank(str, ' '));
    BlankSpaceDropsNonAlnum(str);
  }

  /** Each word starts upper-case and goes on lower-case. */
  lemma CapitalizeShape(w: string)
    requires w != []
    ensures Capitalize(w)[0] == ToUpperChar(w[0])
    ensures forall i :: 1 <= i < |w| ==> Capitalize(w)[i] == ToLowerChar(w[i])
  {
    var t := ToLower(w[1..]);
    assert Capitalize(w) == [ToUpperChar(w[0])] + t;
    forall i | 1 <= i < |w|
      ensures Capitalize(w)[i] == ToLowerChar(w[i])
    {
      assert Capitalize(w)[i] == t[i - 1];
      assert w[1..][i - 1] == w[i];
    }
  }

  /** `file.endsWith('.ts') || file.endsWith('.js')`. */
  predicate IsScript(file: string)
  {
    |file| >= 3 && IsExtension(file[|file| - 3..])
  }

  function FilterScripts(files: seq<string>): (r: seq<string>)
    ensures forall f :: f in r <==> f in files && IsScript(f)
    ensures |r| <= |files|
  {
    if files == [] then []
    else if IsScript(files[0]) then [files[0]] + FilterScripts(files[1..])
    else FilterScripts(files[1..])
  }

  /** Default `Array.prototype.sort` order: lexicographic by character code. */
  predicate LexLe(a: string, b: string)
  {
    a == [] || (b != [] && (a[0] < b[0] || (a[0] == b[0] && LexLe(a[1..], b[1..]))))
  }

  lemma {:induction false} LexTotal(a: string, b: string)
    ensures LexLe(a, b) || LexLe(b, a)
  {
    if a != [] && b != [] && a[0] == b[0] {
      LexTotal(a[1..], b[1..]);
    }
  }

  predicate Sorted(s: seq<string>)
  {
    forall i :: 0 <= i < |s| - 1 ==> LexLe(s[i], s[i + 1])
  }

  function InsertName(x: string, s: seq<string>): seq<string>
  {
    if s == [] || LexLe(x, s[0]) then [x] + s else [s[0]] + InsertName(x, s[1..])
  }

  function SortNames(s: seq<string>): seq<string>
  {
    if s == [] then [] else InsertName(s[0], SortNames(s[1..]))
  }

  lemma {:induction false} InsertNamePerm(x: string, s: seq<string>)
    ensures multiset(InsertName(x, s)) == multiset(s) + multiset{x}
  {
    if s != [] && !LexLe(x, s[0]) {
      InsertNamePerm(x, s[1..]);
      assert s == [s[0]] + s[1..];
    }
  }

  lemma {:induction false} InsertNameSorted(x: string, s: seq<string>)
    requires Sorted(s)
    ensures Sorted(InsertName(x, s))
    ensures |InsertName(x, s)| > 0 && (InsertName(x, s)[0] == x || InsertName(x, s)[0] == s[0])
  {
    if s != [] && !LexLe(x, s[0]) {
      LexTotal(x, s[0]);
      InsertNameSorted(x, s[1..]);
    }
  }

  lemma {:induction false} SortNamesCorrect(s: seq<string>)
    ensures Sorted(SortNames(s)) && multiset(SortNames(s)) == multiset(s)
  {
    if s != [] {
      SortNamesCorrect(s[1..]);
      InsertNameSorted(s[0], SortNames(s[1..]));
      InsertNamePerm(s[0], SortNames(s[1..]));
      assert s == [s[0]] + s[1..];
    }
  }

  /** `getMigrationFiles` over the directory's listing; a missing directory lists nothing. */
  function GetMigrationFiles(listing: Option<seq<string>>): seq<string>
  {
    match listing
    case None => []
    case Some(files) => SortNames(FilterScripts(files))
  }

  /** The result is sorted and holds each `.ts`/`.js` file of the listing, as often as it was listed. */
  lemma MigrationFilesSorted(listing: seq<string>)
    ensures Sorted(GetMigrationFiles(Some(listing)))
    ensures multiset(GetMigrationFiles(Some(listing))) == multiset(FilterScripts(listing))
    ensures forall f :: f in GetMigrationFiles(Some(listing)) <==> f in listing && IsScript(f)
  {
    SortNamesCorrect(FilterScripts(listing));
    var r := GetMigrationFiles(Some(listing));
    forall f
      ensures f in r <==> f in FilterScripts(listing)
    {
      assert f in r <==> f in multiset(r);
    }
  }
}
