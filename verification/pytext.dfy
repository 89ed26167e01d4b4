/**
  The handful of Python built-ins the application applies to text and to
  parsed JSON values: `str.strip()`, `str.lower().endswith(...)`, `int(...)`,
  `str(...)` and truthiness. JSON documents arrive already parsed, as `Json`
  values; `json.loads` itself is not modelled.
 */
module PyText {
  import opened Wrappers

  // ---------------------------------------------------------------------------
  // Whitespace and str.strip()
  // ---------------------------------------------------------------------------

  /** The characters for which Python's `str.isspace()` holds; `strip()` removes them. */
  predicate IsSpace(c: char) {
    || ('\U{0009}' <= c <= '\U{000D}')
    || ('\U{001C}' <= c <= '\U{001F}')
    || c == ' '
    || c == '\U{0085}'
    || c == '\U{00A0}'
    || c == '\U{1680}'
    || ('\U{2000}' <= c <= '\U{200A}')
    || c == '\U{2028}'
    || c == '\U{2029}'
    || c == '\U{202F}'
    || c == '\U{205F}'
    || c == '\U{3000}'
  }

  /** A string that `strip()` leaves alone: it neither starts nor ends with whitespace. */
  predicate IsTrimmed(s: string) {
    |s| == 0 || (!IsSpace(s[0]) && !IsSpace(s[|s| - 1]))
  }

  /**
    Python's `s.strip()`: leading and trailing whitespace removed. The result
    is itself trimmed and empty exactly for an all-whitespace string;
    `TrimIsSlice` shows it is a slice of `s` with only whitespace cut off.
   */
  function Trim(s: string): (r: string)
    ensures IsTrimmed(r)
    ensures IsTrimmed(s) ==> r == s
    ensures |r| <= |s|
    ensures r == [] <==> forall k :: 0 <= k < |s| ==> IsSpace(s[k])
    decreases |s|
  {
    if |s| > 0 && IsSpace(s[0]) then
      assert forall k :: 1 <= k < |s| ==> s[1..][k - 1] == s[k];
      Trim(s[1..])
    else if |s| > 0 && IsSpace(s[|s| - 1]) then
      assert forall k :: 0 <= k < |s| - 1 ==> s[..|s| - 1][k] == s[k];
      Trim(s[..|s| - 1])
    else s
  }

  /** Everything of `s` outside `s[i..j]` is whitespace. */
  predicate SpaceOutside(s: string, i: nat, j: nat) {
    forall k :: 0 <= k < |s| && (k < i || j <= k) ==> IsSpace(s[k])
  }

  /** Whitespace outside a slice of the tail stays outside once a leading space is put back. */
  lemma SpaceOutsideCons(s: string, i: nat, j: nat)
    requires |s| > 0 && IsSpace(s[0]) && SpaceOutside(s[1..], i, j)
    ensures SpaceOutside(s, i + 1, j + 1)
  {
    forall k | 0 <= k < |s| && (k < i + 1 || j + 1 <= k)
      ensures IsSpace(s[k])
    {
      if k > 0 {
        assert s[k] == s[1..][k - 1];
      }
    }
  }

  /** Whitespace outside a slice of the front stays outside once a trailing space is put back. */
  lemma SpaceOutsideSnoc(s: string, i: nat, j: nat)
    requires |s| > 0 && IsSpace(s[|s| - 1]) && j <= |s| - 1 && SpaceOutside(s[..|s| - 1], i, j)
    ensures SpaceOutside(s, i, j)
  {
    forall k | 0 <= k < |s| && (k < i || j <= k)
      ensures IsSpace(s[k])
    {
      if k < |s| - 1 {
        assert s[k] == s[..|s| - 1][k];
      }
    }
  }

  /** `s[i..j]` is what `strip()` keeps of `s`, with only whitespace around it. */
  predicate TrimmedTo(s: string, i: nat, j: nat) {
    i <= j <= |s| && Trim(s) == s[i..j] && SpaceOutside(s, i, j)
  }

  /** A leading space shifts the kept run of the tail by one. */
  lemma TrimmedToCons(s: string, i: nat, j: nat)
    requires |s| > 0 && IsSpace(s[0]) && TrimmedTo(s[1..], i, j)
    ensures TrimmedTo(s, i + 1, j + 1)
  {
    SpaceOutsideCons(s, i, j);
    assert s[1..][i..j] == s[i + 1..j + 1];
  }

  /** A trailing space leaves the kept run of the front where it was. */
  lemma TrimmedToSnoc(s: string, i: nat, j: nat)
    requires |s| > 0 && !IsSpace(s[0]) && IsSpace(s[|s| - 1]) && TrimmedTo(s[..|s| - 1], i, j)
    ensures TrimmedTo(s, i, j)
  {
    SpaceOutsideSnoc(s, i, j);
    assert s[..|s| - 1][i..j] == s[i..j];
  }

  /**
    What `strip()` keeps is one contiguous run of `s`: everything before and
    after it is whitespace.
   */
  lemma {:induction false} TrimIsSlice(s: string)
    ensures exists i: nat, j: nat :: TrimmedTo(s, i, j)
    decreases |s|
  {
    if |s| > 0 && IsSpace(s[0]) {
      TrimIsSlice(s[1..]);
      var i: nat, j: nat :| TrimmedTo(s[1..], i, j);
      TrimmedToCons(s, i, j);
      assert TrimmedTo(s, i + 1, j + 1);
    } else if |s| > 0 && IsSpace(s[|s| - 1]) {
      TrimIsSlice(s[..|s| - 1]);
      var i: nat, j: nat :| TrimmedTo(s[..|s| - 1], i, j);
      TrimmedToSnoc(s, i, j);
      assert TrimmedTo(s, i, j);
    } else {
      assert s[0..|s|] == s;
      assert TrimmedTo(s, 0, |s|);
    }
  }

  // ---------------------------------------------------------------------------
  // Case-insensitive suffix test
  // ---------------------------------------------------------------------------

  /** Lower-cases an ASCII letter and leaves every other character alone. */
  function LowerAscii(c: char): char {
    if 'A' <= c <= 'Z' then (c as int + 32) as char else c
  }

  /**
    `s.lower().endswith(suffix)` for a suffix made of lower-case ASCII letters,
    digits and dots. Unicode lower-casing sends no non-ASCII character to such
    a character, so lowering only the ASCII letters of the tail is exact.
   */
  predicate EndsWithLower(s: string, suffix: string) {
    |suffix| <= |s| && forall k :: 0 <= k < |suffix| ==> LowerAscii(s[|s| - |suffix| + k]) == suffix[k]
  }

  /** The audio file extensions a rule's sound path may carry (`ALLOWED_AUDIO`). */
  const AllowedAudio: seq<string> := [".wav", ".mp3"]

  /** `sound and sound.lower().endswith(ALLOWED_AUDIO)`. */
  predicate IsAllowedAudio(sound: string) {
    sound != [] && (EndsWithLower(sound, AllowedAudio[0]) || EndsWithLower(sound, AllowedAudio[1]))
  }

  // ---------------------------------------------------------------------------
  // Decimal text: str(int) and int(str)
  // ---------------------------------------------------------------------------

  predicate IsDigit(c: char) {
    '0' <= c <= '9'
  }

  function DigitChar(d: nat): (c: char)
    requires d < 10
    ensures IsDigit(c)
  {
    ('0' as int + d) as char
  }

  function DigitValue(c: char): (d: nat)
    requires IsDigit(c)
    ensures d < 10
  {
    c as int - '0' as int
  }

  predicate AllDigits(s: string) {
    forall k :: 0 <= k < |s| ==> IsDigit(s[k])
  }

  /** Decimal digits of a natural number, most significant first, no leading zeros. */
  function NatText(n: nat): (r: string)
    ensures |r| > 0 && AllDigits(r)
    decreases n
  {
    if n < 10 then [DigitChar(n)] else NatText(n / 10) + [DigitChar(n % 10)]
  }

  /** Python's `str(n)` for an int. */
  function IntText(n: int): (r: string)
    ensures |r| > 0 && IsDigit(r[|r| - 1])
    ensures n < 0 <==> r[0] == '-'
  {
    if n < 0 then "-" + NatText(-n) else NatText(n)
  }

  /** The number a run of decimal digits denotes (leading zeros allowed). */
  function DigitsValue(ds: string): nat
    requires AllDigits(ds)
  {
    if |ds| == 0 then 0 else DigitsValue(ds[..|ds| - 1]) * 10 + DigitValue(ds[|ds| - 1])
  }

  /** Digits with single underscores between them, as `int()` accepts them. */
  predicate WellGrouped(ds: string) {
    && |ds| > 0
    && IsDigit(ds[0])
    && IsDigit(ds[|ds| - 1])
    && (forall k :: 0 <= k < |ds| ==> IsDigit(ds[k]) || ds[k] == '_')
    && (forall k :: 0 <= k < |ds| - 1 ==> ds[k] == '_' ==> ds[k + 1] != '_')
  }

  function DropUnderscores(s: string): (r: string)
    ensures (forall k :: 0 <= k < |s| ==> IsDigit(s[k]) || s[k] == '_') ==> AllDigits(r)
    ensures AllDigits(s) ==> r == s
  {
    if |s| == 0 then []
    else if s[0] == '_' then DropUnderscores(s[1..])
    else [s[0]] + DropUnderscores(s[1..])
  }

  function ParseDigits(ds: string): Option<nat> {
    if WellGrouped(ds) then Some(DigitsValue(DropUnderscores(ds))) else None
  }

  /**
    Python's `int(s)` for a string in base 10: surrounding whitespace, one
    optional sign, then digit groups. `None` stands for the `ValueError`.
   */
  function ParseInt(s: string): Option<int> {
    var t := Trim(s);
    if |t| > 0 && (t[0] == '-' || t[0] == '+') then
      match ParseDigits(t[1..])
      case None => None
      case Some(v) =>
        var w: int := v;
        Some(if t[0] == '-' then -w else w)
    else
      match ParseDigits(t)
      case None => None
      case Some(v) => Some(v)
  }

  lemma {:induction false} NatTextValue(n: nat)
    ensures DigitsValue(NatText(n)) == n
    decreases n
  {
    if n >= 10 {
      var p := NatText(n / 10);
      var r := p + [DigitChar(n % 10)];
      assert r[..|r| - 1] == p;
      NatTextValue(n / 10);
    }
  }

  /** `int(str(n)) == n`: the decimal text of an integer parses back to it. */
  lemma IntTextRoundTrip(n: int)
    ensures ParseInt(IntText(n)) == Some(n)
  {
    var t := IntText(n);
    assert IsTrimmed(t);
    var m: nat := if n < 0 then -n else n;
    var ds := NatText(m);
    NatTextValue(m);
    assert WellGrouped(ds);
    if n < 0 {
      assert t[1..] == ds;
    } else {
      assert t == ds;
    }
  }

  // ---------------------------------------------------------------------------
  // Parsed JSON values and the Python conversions applied to them
  // ---------------------------------------------------------------------------

  /** A value produced by `json.loads` (floating-point numbers are not modelled). */
  datatype Json =
    | Null
    | Bool(b: bool)
    | Int(i: int)
    | Str(s: string)
    | Arr(items: seq<Json>)
    | Obj(fields: map<string, Json>)

  /** Python truthiness of a parsed JSON value. */
  predicate Truthy(v: Json) {
    match v
    case Null => false
    case Bool(b) => b
    case Int(i) => i != 0
    case Str(s) => s != []
    case Arr(items) => items != []
    case Obj(fields) => fields != map[]
  }

  /** Python's `v or fallback`. */
  function Or(v: Json, fallback: Json): Json {
    if Truthy(v) then v else fallback
  }

  /** Python's `d.get(key, default)` on a JSON object. */
  function Get(fields: map<string, Json>, key: string, default: Json): Json {
    if key in fields then fields[key] else default
  }

  /** Python's spelling of a boolean, as `str(True)` gives it. */
  function BoolText(b: bool): string {
    if b then "True" else "False"
  }

  /**
    Python's `str(v)`. Arrays and objects print as Python's `repr` of a list or
    dict, which is left to the caller-supplied `repr`.
   */
  function ToText(v: Json, repr: Json -> string): string {
    match v
    case Null => "None"
    case Bool(b) => BoolText(b)
    case Int(i) => IntText(i)
    case Str(s) => s
    case Arr(_) => repr(v)
    case Obj(_) => repr(v)
  }

  /** Python's `int(v)`; `None` stands for the `TypeError` or `ValueError` it raises. */
  function ToInt(v: Json): Option<int> {
    match v
    case Null => None
    case Bool(b) => Some(if b then 1 else 0)
    case Int(i) => Some(i)
    case Str(s) => ParseInt(s)
    case Arr(_) => None
    case Obj(_) => None
  }
}
