/**
 * The shared validation package's sanitising middleware: recursive string sanitising of
 * request bodies, removal of sensitive fields, phone-number normalisation and HTML
 * stripping.
 *
 * The `validator` library's `trim` and `stripLow` are written out (trim JavaScript
 * whitespace; drop code points below 32 and 127); its `escape` is the parameter `escape`;
 * the `blacklist` and `whitelist` options are given as the character classes they name.
 */
module SharedSanitize {
  import opened Wrappers
  import opened JsText
  import opened JsValue

  predicate IsLow(c: char) { c <= '\U{001F}' || c == '\U{007F}' }

  /** The options; an absent or empty blacklist or whitelist is None. */
  datatype Options = Options(trim: bool, escape: bool, stripLow: bool,
                             blacklist: Option<char -> bool>, whitelist: Option<char -> bool>)

  const DefaultOptions: Options := Options(true, true, true, None, None)

  /** The string case of `sanitizeInput`: the enabled steps, in the source's order. */
  function CleanWith(s: string, opts: Options, escape: string -> string): string
  {
    var a := if opts.trim then Trim(s) else s;
    var b := if opts.stripLow then RemoveAll(a, IsLow) else a;
    var c := if opts.blacklist.Some? then RemoveAll(b, opts.blacklist.value) else b;
    var d := if opts.whitelist.Some? then RemoveAll(c, x => !opts.whitelist.value(x)) else c;
    if opts.escape then escape(d) else d
  }

  /** `sanitizeInput`: strings cleaned, arrays mapped, objects rebuilt key by key, everything else kept. */
  function SanitizeInput(v: Json, opts: Options, escape: string -> string): Json
  {
    match v
    case JStr(s) => JStr(CleanWith(s, opts, escape))
    case JArr(items) => JArr(seq(|items|, i requires 0 <= i < |items| => SanitizeInput(items[i], opts, escape)))
    case JObj(fs) => JObj(seq(|fs|, i requires 0 <= i < |fs| =>
                       assert fs[i] in fs;
                       Field(fs[i].key, SanitizeInput(fs[i].value, opts, escape))))
    case _ => v
  }

  /** Two values of the same shape: same kinds, same array lengths, same keys in the same order. */
  predicate SameShape(v: Json, w: Json)
  {
    match v
    case JStr(_) => w.JStr?
    case JArr(items) => w.JArr? && |w.items| == |items| && forall i :: 0 <= i < |items| ==> SameShape(items[i], w.items[i])
    case JObj(fs) => w.JObj? && |w.fields| == |fs|
                     && forall i :: 0 <= i < |fs| ==> w.fields[i].key == fs[i].key && SameShape(fs[i].value, w.fields[i].value)
    case _ => w == v
  }

  /** Sanitising changes strings only: the structure of the request is kept. */
  lemma {:induction false} SanitizeKeepsShape(v: Json, opts: Options, escape: string -> string)
    ensures SameShape(v, SanitizeInput(v, opts, escape))
  {
    match v
    case JArr(items) =>
      forall i | 0 <= i < |items|
        ensures SameShape(items[i], SanitizeInput(items[i], opts, escape))
      {
        SanitizeKeepsShape(items[i], opts, escape);
      }
    case JObj(fs) =>
      forall i | 0 <= i < |fs|
        ensures SameShape(fs[i].value, SanitizeInput(fs[i].value, opts, escape))
      {
        assert fs[i] in fs;
        SanitizeKeepsShape(fs[i].value, opts, escape);
      }
    case _ =>
  }

  /** With every step switched off, sanitising returns the value it was given. */
  lemma {:induction false} AllOffIsIdentity(v: Json, escape: string -> string)
    ensures SanitizeInput(v, Options(false, false, false, None, None), escape) == v
  {
    var off := Options(false, false, false, None, None);
    match v
    case JArr(items) =>
      forall i | 0 <= i < |items|
        ensures SanitizeInput(items[i], off, escape) == items[i]
      {
        AllOffIsIdentity(items[i], escape);
      }
      assert SanitizeInput(v, off, escape).items == items;
    case JObj(fs) =>
      forall i | 0 <= i < |fs|
        ensures SanitizeInput(fs[i].value, off, escape) == fs[i].value
      {
        assert fs[i] in fs;
        AllOffIsIdentity(fs[i].value, escape);
      }
      assert SanitizeInput(v, off, escape).fields == fs;
    case _ =>
  }

  /** With the defaults, a string is trimmed and stripped of control characters before it is escaped. */
  lemma DefaultsClean(s: string, escape: string -> string)
    ensures CleanWith(s, DefaultOptions, escape) == escape(RemoveAll(Trim(s), IsLow))
  {
  }

  // ---------------------------------------------------------------------------
  // Sensitive fields
  // ---------------------------------------------------------------------------

  const DefaultSensitiveFields: seq<string> := ["password", "token", "secret", "apiKey"]

  /** Drop, at every depth, the keys `drop` selects. */
  function RemoveKeys(v: Json, drop: string -> bool): Json
  {
    match v
    case JArr(items) => JArr(seq(|items|, i requires 0 <= i < |items| => RemoveKeys(items[i], drop)))
    case JObj(fs) =>
      var kept := KeepFields(fs, drop);
      JObj(seq(|kept|, i requires 0 <= i < |kept| =>
        assert kept[i] in fs;
        Field(kept[i].key, RemoveKeys(kept[i].value, drop))))
    case _ => v
  }

  function KeepFields(fs: seq<Field>, drop: string -> bool): (r: seq<Field>)
    ensures forall f :: f in r <==> f in fs && !drop(f.key)
  {
    if fs == [] then []
    else (if drop(fs[0].key) then [] else [fs[0]]) + KeepFields(fs[1..], drop)
  }

  /** No key that `drop` selects, at any depth. */
  predicate NoDroppedKeys(v: Json, drop: string -> bool)
  {
    match v
    case JArr(items) => forall i :: 0 <= i < |items| ==> NoDroppedKeys(items[i], drop)
    case JObj(fs) => forall i :: 0 <= i < |fs| ==> !drop(fs[i].key) && NoDroppedKeys(fs[i].value, drop)
    case _ => true
  }

  lemma {:induction false} RemoveKeysRemoves(v: Json, drop: string -> bool)
    ensures NoDroppedKeys(RemoveKeys(v, drop), drop)
  {
    match v
    case JArr(items) =>
      forall i | 0 <= i < |items|
        ensures NoDroppedKeys(RemoveKeys(items[i], drop), drop)
      {
        RemoveKeysRemoves(items[i], drop);
      }
    case JObj(fs) =>
      var kept := KeepFields(fs, drop);
      forall i | 0 <= i < |kept|
        ensures !drop(kept[i].key) && NoDroppedKeys(RemoveKeys(kept[i].value, drop), drop)
      {
        assert kept[i] in kept;
        RemoveKeysRemoves(kept[i].value, drop);
      }
    case _ =>
  }

  /** `removeSensitiveFields` as written: the lower-cased key is looked up in the list as given. */
  function RemoveSensitiveFieldsAsWritten(v: Json, sensitive: seq<string>): Json
  {
    RemoveKeys(v, k => ToLower(k) in sensitive)
  }

  function LowerAll(names: seq<string>): (r: seq<string>)
    ensures |r| == |names| && forall i :: 0 <= i < |names| ==> r[i] == ToLower(names[i])
  {
    seq(|names|, i requires 0 <= i < |names| => ToLower(names[i]))
  }

  /** `removeSensitiveFields` as intended: keys and listed names compared case-insensitively. */
  function RemoveSensitiveFields(v: Json, sensitive: seq<string>): Json
  {
    RemoveKeys(v, k => ToLower(k) in LowerAll(sensitive))
  }

  /** Whatever the input, no key equal to a listed name up to case survives at any depth. */
  lemma SensitiveFieldsGone(v: Json, sensitive: seq<string>)
    ensures NoDroppedKeys(RemoveSensitiveFields(v, sensitive), k => ToLower(k) in LowerAll(sensitive))
  {
    RemoveKeysRemoves(v, k => ToLower(k) in LowerAll(sensitive));
  }

  /** The discrepancy: the default list names "apiKey", which no lower-cased key can equal. */
  lemma ApiKeySurvivesAsWritten()
    ensures var body := JObj([Field("apiKey", JStr("k"))]);
      && RemoveSensitiveFieldsAsWritten(body, DefaultSensitiveFields) == body
      && RemoveSensitiveFields(body, DefaultSensitiveFields) == JObj([])
  {
    ApiKeyKeptAsWritten();
    ApiKeyRemoved();
  }

  lemma ApiKeyKeptAsWritten()
    ensures var body := JObj([Field("apiKey", JStr("k"))]);
      RemoveSensitiveFieldsAsWritten(body, DefaultSensitiveFields) == body
  {
    var fs := [Field("apiKey", JStr("k"))];
    var drop := k => ToLower(k) in DefaultSensitiveFields;
    LoweredApiKeyUnlisted();
    assert KeepFields(fs, drop) == fs;
    var r := RemoveKeys(JObj(fs), drop);
    assert |r.fields| == 1 && r.fields[0] == fs[0];
  }

  /** "apiKey" lower-cased is none of the listed names as written. */
  lemma LoweredApiKeyUnlisted()
    ensures ToLower("apiKey") !in DefaultSensitiveFields
  {
    var l := ToLower("apiKey");
    assert |l| == 6 && l[0] == 'a' && l[3] == 'k';
  }

  lemma ApiKeyRemoved()
    ensures RemoveSensitiveFields(JObj([Field("apiKey", JStr("k"))]), DefaultSensitiveFields) == JObj([])
  {
    var fs := [Field("apiKey", JStr("k"))];
    var drop := k => ToLower(k) in LowerAll(DefaultSensitiveFields);
    assert drop("apiKey") by {
      assert LowerAll(DefaultSensitiveFields)[3] == ToLower("apiKey");
    }
    assert KeepFields(fs, drop) == [];
    assert RemoveKeys(JObj(fs), drop) == JObj([]);
  }

  /** With a list written in lower case the source already does what was intended. */
  lemma {:induction false} LowerCaseListAgrees(v: Json, sensitive: seq<string>)
    requires forall i :: 0 <= i < |sensitive| ==> ToLower(sensitive[i]) == sensitive[i]
    ensures RemoveSensitiveFieldsAsWritten(v, sensitive) == RemoveSensitiveFields(v, sensitive)
  {
    assert LowerAll(sensitive) == sensitive;
  }

  // ---------------------------------------------------------------------------
  // Phone numbers and HTML
  // ---------------------------------------------------------------------------

  /** `normalizePhoneNumber`: digits only; for Kenya drop one leading 0, add 254 when missing, then '+'. */
  function NormalizePhoneNumber(phone: string, countryCode: string): (r: string)
    ensures countryCode != "254" ==> AllChars(r, IsDigit)
    ensures countryCode == "254" ==> |r| >= 4 && r[..4] == "+254" && AllChars(r[1..], IsDigit)
  {
    var digits := RemoveAll(phone, c => !IsDigit(c));
    if countryCode != "254" then digits else KenyanForm(digits)
  }

  /** The Kenyan branch on a string of digits: one leading 0 dropped, 254 added when missing, then '+'. */
  function KenyanForm(digits: string): (r: string)
    requires AllChars(digits, IsDigit)
    ensures |r| >= 4 && r[..4] == "+254" && AllChars(r[1..], IsDigit)
  {
    var a := if |digits| > 0 && digits[0] == '0' then digits[1..] else digits;
    var b := if |a| >= 3 && a[..3] == "254" then a else "254" + a;
    assert b[..3] == "254";
    assert AllChars(b, IsDigit) by {
      if b != a {
        assert forall i :: 3 <= i < |b| ==> b[i] == a[i - 3];
      }
    }
    ['+'] + b
  }

  /** Normalising a normalised Kenyan number changes nothing. */
  lemma NormalizeIdempotent(phone: string)
    ensures NormalizePhoneNumber(NormalizePhoneNumber(phone, "254"), "254") == NormalizePhoneNumber(phone, "254")
  {
    var r := NormalizePhoneNumber(phone, "254");
    assert r == ['+'] + r[1..];
    RemoveAllAppend(['+'], r[1..], c => !IsDigit(c));
    RemoveAllKeeps(r[1..], c => !IsDigit(c));
    assert r[1..][..3] == "254";
  }

  /** The local form 0XXXXXXXXX and the international form 254XXXXXXXXX normalise alike. */
  lemma LocalAndInternationalAgree(local: string)
    requires AllChars(local, IsDigit) && !(|local| >= 3 && local[..3] == "254")
    ensures NormalizePhoneNumber("0" + local, "254") == NormalizePhoneNumber("254" + local, "254")
    ensures NormalizePhoneNumber("0" + local, "254") == "+254" + local
  {
    RemoveAllKeeps("0" + local, c => !IsDigit(c));
    RemoveAllKeeps("254" + local, c => !IsDigit(c));
    assert ("0" + local)[1..] == local;
    assert ("254" + local)[..3] == "254";
  }

  /** No '<' is followed, anywhere later, by a '>': no tag is left. */
  predicate NoTag(s: string)
  {
    s == [] || ((s[0] == '<' ==> '>' !in s[1..]) && NoTag(s[1..]))
  }

  /** /<[^>]*>/g replaced by '': from each '<' with a '>' after it, through the first such '>'. */
  function RemoveTags(s: string): (r: string)
    ensures NoTag(r)
    ensures forall c :: c in r ==> c in s
    decreases |s|
  {
    if s == [] then []
    else if s[0] == '<' && '>' in s[1..] then
      var rest := s[1..];
      RemoveTags(rest[IndexOf(rest, '>') + 1..])
    else [s[0]] + RemoveTags(s[1..])
  }

  /** Dropping characters never creates a tag. */
  lemma {:induction false} RemoveAllKeepsNoTag(s: string, drop: char -> bool)
    requires NoTag(s)
    ensures NoTag(RemoveAll(s, drop))
  {
    if s != [] {
      RemoveAllKeepsNoTag(s[1..], drop);
      var r := RemoveAll(s[1..], drop);
      assert forall c :: c in r ==> c in s[1..];
    }
  }

  /** `stripHTML`: tags removed, then `stripLow`. */
  function StripHTML(text: string): (r: string)
    ensures NoTag(r)
    ensures forall i :: 0 <= i < |r| ==> !IsLow(r[i])
  {
    RemoveAllKeepsNoTag(RemoveTags(text), IsLow);
    RemoveAll(RemoveTags(text), IsLow)
  }

  /** Text without '<' or control characters passes through unchanged. */
  lemma {:induction false} PlainTextUnchanged(text: string)
    requires forall i :: 0 <= i < |text| ==> text[i] != '<' && !IsLow(text[i])
    ensures StripHTML(text) == text
  {
    RemoveTagsKeeps(text);
    RemoveAllKeeps(text, IsLow);
  }

  lemma {:induction false} RemoveTagsKeeps(text: string)
    requires forall i :: 0 <= i < |text| ==> text[i] != '<'
    ensures RemoveTags(text) == text
  {
    if text != [] {
      RemoveTagsKeeps(text[1..]);
    }
  }
}
