/** String helpers shared by the model: ASCII case folding, whitespace stripping as Python's
    `str.strip()` and JavaScript's `trim()` do it, substring search, decimal rendering and zero
    padding (Python `:0Nd` and JavaScript `padStart`), and CPython's `int()` on a string in
    base 10. Characters outside ASCII are not case-folded. */
module Text {
  import opened Wrappers

  // ---------------------------------------------------------------------------------------
  // Characters

  /** An ASCII decimal digit. */
  predicate IsDigit(c: char) { '0' <= c <= '9' }

  predicate AllDigits(s: string) { forall i :: 0 <= i < |s| ==> IsDigit(s[i]) }

  function DigitChar(d: nat): (c: char)
    requires d < 10
    ensures IsDigit(c) && DigitValue(c) == d
  {
    ['0', '1', '2', '3', '4', '5', '6', '7', '8', '9'][d]
  }

  function DigitValue(c: char): nat
    requires IsDigit(c)
  {
    (c as int - '0' as int) as nat
  }

  /** The code points of the digit zero of every script other than ASCII with decimal digits
      (Unicode 15.0, general category Nd); each script's digits one to nine follow its zero. */
  const OtherDecimalZeros: seq<int> :=
    [0x660, 0x6f0, 0x7c0, 0x966, 0x9e6, 0xa66, 0xae6, 0xb66, 0xbe6, 0xc66, 0xce6, 0xd66,
     0xde6, 0xe50, 0xed0, 0xf20, 0x1040, 0x1090, 0x17e0, 0x1810, 0x1946, 0x19d0, 0x1a80, 0x1a90,
     0x1b50, 0x1bb0, 0x1c40, 0x1c50, 0xa620, 0xa8d0, 0xa900, 0xa9d0, 0xa9f0, 0xaa50, 0xabf0,
     0xff10, 0x104a0, 0x10d30, 0x11066, 0x110f0, 0x11136, 0x111d0, 0x112f0, 0x11450, 0x114d0,
     0x11650, 0x116c0, 0x11730, 0x118e0, 0x11950, 0x11c50, 0x11d50, 0x11da0, 0x11f50, 0x16a60,
     0x16ac0, 0x16b50, 0x1d7ce, 0x1d7d8, 0x1d7e2, 0x1d7ec, 0x1d7f6, 0x1e140, 0x1e2f0, 0x1e4f0,
     0x1e950, 0x1fbf0]

  /** The value of a decimal digit of any script (`unicodedata.decimal`), `None` for any other
      character. Below 128 only the ASCII digits are decimal. */
  function DecimalValue(c: char): (r: Option<nat>)
    ensures r.Some? ==> r.value < 10
    ensures (c as int) < 128 ==> (r.Some? <==> IsDigit(c))
    ensures IsDigit(c) ==> r == Some(DigitValue(c))
  {
    if (c as int) < 128 then (if IsDigit(c) then Some(DigitValue(c)) else None)
    else DecimalFrom(c, 0)
  }

  function DecimalFrom(c: char, k: nat): (r: Option<nat>)
    ensures r.Some? ==> r.value < 10
    decreases |OtherDecimalZeros| - k
  {
    if k >= |OtherDecimalZeros| then None
    else if OtherDecimalZeros[k] <= c as int < OtherDecimalZeros[k] + 10 then Some((c as int - OtherDecimalZeros[k]) as nat)
    else DecimalFrom(c, k + 1)
  }

  predicate IsUpper(c: char) { 'A' <= c <= 'Z' }

  function LowerChar(c: char): char
  {
    if IsUpper(c) then (c as int + 32) as char else c
  }

  /** ASCII lower-casing, as `str.lower()` does on ASCII text. */
  function Lower(s: string): (r: string)
    ensures |r| == |s|
    ensures forall i :: 0 <= i < |s| ==> r[i] == LowerChar(s[i])
    ensures forall i :: 0 <= i < |r| ==> !IsUpper(r[i])
  {
    if |s| == 0 then "" else [LowerChar(s[0])] + Lower(s[1..])
  }

  // ---------------------------------------------------------------------------------------
  // Whitespace

  /** The whitespace sets the program meets: Python's `str.isspace()` characters, which
      `str.strip()` removes; the ASCII set CPython's `int()` skips around the digits; and
      JavaScript's WhiteSpace and LineTerminator characters, which `String.prototype.trim()`
      removes. */
  datatype Blanks = PyBlanks | IntBlanks | JsBlanks

  predicate IsSpace(b: Blanks, c: char)
  {
    match b
    case PyBlanks =>
      || '\t' <= c <= '\r' || '\U{1C}' <= c <= ' ' || c == '\U{85}' || c == '\U{A0}' || c == '\U{1680}'
      || '\U{2000}' <= c <= '\U{200A}' || c == '\U{2028}' || c == '\U{2029}' || c == '\U{202F}'
      || c == '\U{205F}' || c == '\U{3000}'
    case IntBlanks => '\t' <= c <= '\r' || c == ' '
    case JsBlanks =>
      || '\t' <= c <= '\r' || c == ' ' || c == '\U{A0}' || c == '\U{1680}' || '\U{2000}' <= c <= '\U{200A}'
      || c == '\U{2028}' || c == '\U{2029}' || c == '\U{202F}' || c == '\U{205F}' || c == '\U{3000}'
      || c == '\U{FEFF}'
  }

  function StripLeft(b: Blanks, s: string): (r: string)
    ensures |r| <= |s| && r == s[|s| - |r|..]
    ensures |r| > 0 ==> !IsSpace(b, r[0])
    ensures forall i :: 0 <= i < |s| - |r| ==> IsSpace(b, s[i])
  {
    if |s| > 0 && IsSpace(b, s[0]) then
      var t := StripLeft(b, s[1..]);
      assert s[1..][|s| - 1 - |t|..] == s[|s| - |t|..];
      assert forall i :: 1 <= i < |s| - |t| ==> s[i] == s[1..][i - 1];
      t
    else s
  }

  function StripRight(b: Blanks, s: string): (r: string)
    ensures |r| <= |s| && r == s[..|r|]
    ensures |r| > 0 ==> !IsSpace(b, r[|r| - 1])
    ensures forall i :: |r| <= i < |s| ==> IsSpace(b, s[i])
  {
    if |s| > 0 && IsSpace(b, s[|s| - 1]) then StripRight(b, s[..|s| - 1]) else s
  }

  /** Both ends stripped of the set's whitespace. */
  function StripBy(b: Blanks, s: string): (r: string)
    ensures |r| <= |s|
    ensures |r| > 0 ==> !IsSpace(b, r[0]) && !IsSpace(b, r[|r| - 1])
  {
    StripLeft(b, StripRight(b, s))
  }

  /** Python's `str.strip()`. */
  function Strip(s: string): (r: string)
    ensures |r| <= |s|
    ensures |r| > 0 ==> !IsSpace(PyBlanks, r[0]) && !IsSpace(PyBlanks, r[|r| - 1])
  {
    StripBy(PyBlanks, s)
  }

  /** JavaScript's `String.prototype.trim()`. */
  function Trim(s: string): (r: string)
    ensures |r| <= |s|
    ensures |r| > 0 ==> !IsSpace(JsBlanks, r[0]) && !IsSpace(JsBlanks, r[|r| - 1])
  {
    StripBy(JsBlanks, s)
  }

  /** A string of whitespace only strips to nothing, and a string without whitespace at its
      ends strips to itself. */
  lemma StripExtremes(b: Blanks, s: string)
    ensures (forall i :: 0 <= i < |s| ==> IsSpace(b, s[i])) ==> StripBy(b, s) == ""
    ensures |s| > 0 && !IsSpace(b, s[0]) && !IsSpace(b, s[|s| - 1]) ==> StripBy(b, s) == s
  {
    if |s| > 0 && !IsSpace(b, s[0]) && !IsSpace(b, s[|s| - 1]) {
      assert StripRight(b, s) == s;
    }
  }

  // ---------------------------------------------------------------------------------------
  // Prefixes and substrings

  predicate StartsWith(s: string, prefix: string)
  {
    |prefix| <= |s| && s[..|prefix|] == prefix
  }

  /** Reference meaning of Python's `needle in hay` and JavaScript's `hay.includes(needle)`. */
  ghost predicate OccursAt(needle: string, hay: string, i: int)
  {
    0 <= i && i + |needle| <= |hay| && hay[i..i + |needle|] == needle
  }

  /** Left-to-right substring search. */
  predicate Includes(hay: string, needle: string)
    decreases |hay|
  {
    StartsWith(hay, needle) || (|hay| > 0 && Includes(hay[1..], needle))
  }

  /** The search finds the needle exactly when it occurs at some position. */
  lemma {:induction false} IncludesMeansOccurs(hay: string, needle: string)
    ensures Includes(hay, needle) <==> exists i :: OccursAt(needle, hay, i)
    decreases |hay|
  {
    if StartsWith(hay, needle) {
      assert OccursAt(needle, hay, 0);
    } else if |hay| == 0 {
      assert |needle| > 0;
    } else {
      IncludesMeansOccurs(hay[1..], needle);
      if exists i :: OccursAt(needle, hay[1..], i) {
        var i :| OccursAt(needle, hay[1..], i);
        TailSlice(hay, i + 1, |needle|);
        assert OccursAt(needle, hay, i + 1);
      }
      if exists i :: OccursAt(needle, hay, i) {
        var i :| OccursAt(needle, hay, i);
        assert OccursAt(needle, hay, 0) ==> StartsWith(hay, needle) by {
          assert |needle| <= |hay| ==> hay[0..|needle|] == hay[..|needle|];
        }
        assert i != 0;
        TailSlice(hay, i, |needle|);
        assert OccursAt(needle, hay[1..], i - 1);
      }
    }
  }

  /** A slice of the tail is the slice one position further along the whole string. */
  lemma TailSlice(s: string, i: nat, len: nat)
    requires 1 <= i && i + len <= |s|
    ensures s[1..][i - 1..i - 1 + len] == s[i..i + len]
  {
    var a, b := s[1..][i - 1..i - 1 + len], s[i..i + len];
    assert |a| == |b|;
    assert forall k :: 0 <= k < |a| ==> a[k] == b[k];
  }

  // ---------------------------------------------------------------------------------------
  // Decimal rendering and padding

  /** Decimal digits of `n` without leading zeros (`str(n)` / `n.toString()`). */
  function NatToString(n: nat): (r: string)
    ensures |r| >= 1 && AllDigits(r)
    ensures |r| > 1 ==> r[0] != '0'
    decreases n
  {
    if n < 10 then [DigitChar(n)] else NatToString(n / 10) + [DigitChar(n % 10)]
  }

  /** `n.toString()` for any integer, with a leading '-' for negatives. */
  function IntToString(n: int): string
  {
    if n < 0 then "-" + NatToString(-n) else NatToString(n)
  }

  function Zeros(k: nat): (r: string)
    ensures |r| == k && AllDigits(r)
    ensures forall i :: 0 <= i < k ==> r[i] == '0'
  {
    if k == 0 then "" else "0" + Zeros(k - 1)
  }

  /** JavaScript `s.padStart(width, '0')`. */
  function PadStart(s: string, width: nat): (r: string)
    ensures |s| >= width ==> r == s
    ensures |s| < width ==> |r| == width
    ensures r == Zeros(|r| - |s|) + s
  {
    if |s| >= width then s else Zeros(width - |s|) + s
  }

  /** Python `f"{n:0{width}d}"`: zero padding counts the sign in the width. */
  function PyZeroPad(n: int, width: nat): (r: string)
    ensures n >= 0 ==> |r| >= width && AllDigits(r)
  {
    if n >= 0 then PadStart(NatToString(n), width)
    else "-" + PadStart(NatToString(-n), if width > 0 then width - 1 else 0)
  }

  /** Value of an all-digit string (leading zeros allowed). */
  function DigitsValue(s: string): nat
    requires AllDigits(s)
  {
    if |s| == 0 then 0 else DigitsValue(s[..|s| - 1]) * 10 + DigitValue(s[|s| - 1])
  }

  lemma {:induction false} DigitsValueOfNatToString(n: nat)
    ensures DigitsValue(NatToString(n)) == n
    decreases n
  {
    if n >= 10 {
      var a := NatToString(n / 10);
      var r := a + [DigitChar(n % 10)];
      assert r[..|r| - 1] == a;
      DigitsValueOfNatToString(n / 10);
    }
  }

  lemma {:induction false} DigitsValueIgnoresLeadingZeros(k: nat, s: string)
    requires AllDigits(s)
    ensures DigitsValue(Zeros(k) + s) == DigitsValue(s)
    decreases |s|
  {
    var z := Zeros(k) + s;
    if |s| == 0 {
      assert z == Zeros(k);
      ZerosValue(k);
    } else {
      assert z[..|z| - 1] == Zeros(k) + s[..|s| - 1];
      DigitsValueIgnoresLeadingZeros(k, s[..|s| - 1]);
    }
  }

  lemma {:induction false} ZerosValue(k: nat)
    ensures DigitsValue(Zeros(k)) == 0
  {
    if k > 0 {
      assert Zeros(k)[..k - 1] == Zeros(k - 1) by {
        ZerosSnoc(k - 1);
      }
      ZerosValue(k - 1);
    }
  }

  lemma ZerosSnoc(k: nat)
    ensures Zeros(k + 1) == Zeros(k) + "0"
  {
  }

  /** Reading back a zero-padded rendering gives the number: padding loses nothing. */
  lemma PadStartRoundTrip(n: nat, width: nat)
    ensures AllDigits(PadStart(NatToString(n), width))
    ensures DigitsValue(PadStart(NatToString(n), width)) == n
  {
    var s := NatToString(n);
    var p := PadStart(s, width);
    DigitsValueIgnoresLeadingZeros(|p| - |s|, s);
    DigitsValueOfNatToString(n);
  }

  // ---------------------------------------------------------------------------------------
  // CPython int() on a string, base 10

  /** CPython's default `sys.int_max_str_digits`: `int()` of a decimal string with more digits
      than this (leading zeros included, underscores not) raises `ValueError`. */
  const MaxStrDigits: nat := 4300

  function Magnitude(x: int): nat
  {
    if x < 0 then -x else x
  }

  /** A digit string renders its value back in no more digits than it has. */
  lemma {:induction false} DigitsFitRendering(s: string)
    requires AllDigits(s) && |s| > 0
    ensures |NatToString(DigitsValue(s))| <= |s|
    decreases |s|
  {
    var p := s[..|s| - 1];
    var v := DigitsValue(s);
    if |p| > 0 && v >= 10 {
      DigitsFitRendering(p);
      assert v / 10 == DigitsValue(p);
      assert NatToString(v) == NatToString(v / 10) + [DigitChar(v % 10)];
    }
  }

  predicate IsDigitOrUnderscore(c: char) { IsDigit(c) || c == '_' }

  /** Digits with single underscores between them, as Python's integer literal grammar allows. */
  predicate IsDigitGroup(s: string)
  {
    && |s| > 0
    && IsDigit(s[0]) && IsDigit(s[|s| - 1])
    && (forall i :: 0 <= i < |s| ==> IsDigitOrUnderscore(s[i]))
    && (forall i :: 0 <= i < |s| - 1 ==> !(s[i] == '_' && s[i + 1] == '_'))
  }

  function RemoveUnderscores(s: string): (r: string)
    requires forall i :: 0 <= i < |s| ==> IsDigitOrUnderscore(s[i])
    ensures AllDigits(r)
    ensures AllDigits(s) ==> r == s
  {
    if |s| == 0 then ""
    else if s[0] == '_' then RemoveUnderscores(s[1..])
    else
      assert IsDigitOrUnderscore(s[0]);
      [s[0]] + RemoveUnderscores(s[1..])
  }

  /** The first step of CPython's `int()` on a string: characters below 127 are kept, Unicode
      whitespace becomes a space, a decimal digit of any script becomes the ASCII digit of the
      same value, and any other character becomes the invalid '?'. */
  function AsciiChar(c: char): (r: char)
    ensures (r as int) < 127
    ensures IsDigit(r) ==> DecimalValue(c).Some? && DigitValue(r) == DecimalValue(c).value
    ensures DecimalValue(c).Some? && !IsSpace(PyBlanks, c) ==> IsDigit(r)
    ensures IsSpace(IntBlanks, r) <==> IsSpace(PyBlanks, c) && !('\U{1C}' <= c <= '\U{1F}')
  {
    if (c as int) < 127 then c
    else if IsSpace(PyBlanks, c) then ' '
    else match DecimalValue(c)
      case Some(d) => DigitChar(d)
      case None => '?'
  }

  function AsciiForm(s: string): (r: string)
    ensures |r| == |s| && forall i :: 0 <= i < |s| ==> r[i] == AsciiChar(s[i])
  {
    seq(|s|, i requires 0 <= i < |s| => AsciiChar(s[i]))
  }

  /** CPython's `int(s)` in base 10: the string's ASCII form is parsed. */
  function PyInt(s: string): (r: Option<int>)
    ensures r.Some? ==> exists i :: 0 <= i < |s| && DecimalValue(s[i]).Some?
    ensures r.Some? ==> |NatToString(Magnitude(r.value))| <= MaxStrDigits
  {
    var r := ParseAscii(AsciiForm(s));
    DigitOfAsciiForm(s, r.Some?);
    r
  }

  lemma DigitOfAsciiForm(s: string, parsed: bool)
    requires parsed ==> exists i :: 0 <= i < |s| && IsDigit(AsciiForm(s)[i])
    ensures parsed ==> exists i :: 0 <= i < |s| && DecimalValue(s[i]).Some?
  {
    if parsed {
      var i :| 0 <= i < |s| && IsDigit(AsciiForm(s)[i]);
      assert DecimalValue(s[i]).Some?;
    }
  }

  /** `PyLong_FromString` in base 10: ASCII whitespace around one optional sign and a digit
      group of at most `MaxStrDigits` digits; anything else raises, modelled as `None`. */
  function ParseAscii(a: string): (r: Option<int>)
    ensures r.Some? ==> exists i :: 0 <= i < |a| && IsDigit(a[i])
    ensures r.Some? ==> |NatToString(Magnitude(r.value))| <= MaxStrDigits
  {
    var t := StripBy(IntBlanks, a);
    if |t| == 0 then None
    else
      var neg := t[0] == '-';
      var body := if t[0] == '-' || t[0] == '+' then t[1..] else t;
      if !IsDigitGroup(body) then None
      else
        var digits := RemoveUnderscores(body);
        if |digits| > MaxStrDigits then None
        else
          StripDigitWitness(a, t, body);
          UnderscoresKeepFirstDigit(body);
          DigitsFitRendering(digits);
          var v := DigitsValue(digits);
          var signed: int := if neg then -(v as int) else v as int;
          Some(signed)
  }

  lemma UnderscoresKeepFirstDigit(s: string)
    requires IsDigitGroup(s)
    ensures |RemoveUnderscores(s)| > 0
  {
    assert RemoveUnderscores(s) == [s[0]] + RemoveUnderscores(s[1..]);
  }

  lemma StripDigitWitness(s: string, t: string, body: string)
    requires t == StripBy(IntBlanks, s) && |t| > 0
    requires body == t || body == t[1..]
    requires |body| > 0 && IsDigit(body[0])
    ensures exists i :: 0 <= i < |s| && IsDigit(s[i])
  {
    var r := StripRight(IntBlanks, s);
    assert t == r[|r| - |t|..];
    var j := if body == t then 0 else 1;
    assert body[0] == t[j];
    assert t[j] == r[|r| - |t| + j];
    assert r[|r| - |t| + j] == s[|r| - |t| + j];
  }

  /** `int()` reads back what `:0Nd` wrote, for every non-negative number and width, unless the
      rendering is longer than the digit limit. */
  lemma PyIntOfZeroPad(n: nat, width: nat)
    ensures |PyZeroPad(n, width)| <= MaxStrDigits ==> PyInt(PyZeroPad(n, width)) == Some(n)
    ensures |PyZeroPad(n, width)| > MaxStrDigits ==> PyInt(PyZeroPad(n, width)).None?
  {
    var p := PyZeroPad(n, width);
    assert p == PadStart(NatToString(n), width);
    PadStartRoundTrip(n, width);
    PyIntOfDigits(p);
  }

  /** An all-digit string reads as its decimal value iff it is within the digit limit. */
  lemma PyIntOfDigits(s: string)
    requires AllDigits(s) && |s| > 0
    ensures |s| <= MaxStrDigits ==> PyInt(s) == Some(DigitsValue(s))
    ensures |s| > MaxStrDigits ==> PyInt(s).None?
  {
    AsciiDigitsKept(s);
    ParseDigits(s);
  }

  lemma AsciiDigitsKept(s: string)
    requires AllDigits(s)
    ensures AsciiForm(s) == s
  {
  }

  lemma ParseDigits(s: string)
    requires AllDigits(s) && |s| > 0
    ensures |s| <= MaxStrDigits ==> ParseAscii(s) == Some(DigitsValue(s))
    ensures |s| > MaxStrDigits ==> ParseAscii(s).None?
  {
    AllDigitsIsGroup(s);
    StripAllDigits(IntBlanks, s);
    assert RemoveUnderscores(s) == s;
  }

  /** Digits are whitespace in none of the sets, so stripping leaves a digit string alone. */
  lemma StripAllDigits(b: Blanks, s: string)
    requires AllDigits(s) && |s| > 0
    ensures StripBy(b, s) == s
  {
    assert !IsSpace(b, s[0]) && !IsSpace(b, s[|s| - 1]);
    StripExtremes(b, s);
  }

  lemma AllDigitsIsGroup(s: string)
    requires AllDigits(s) && |s| > 0
    ensures IsDigitGroup(s)
    ensures s[0] != '-' && s[0] != '+'
  {
  }

  /** `int()` reads digits of any script: the value does not change when each character is
      replaced by its ASCII form. */
  lemma PyIntReadsAnyScript(s: string)
    ensures PyInt(AsciiForm(s)) == PyInt(s)
  {
    AsciiFormIdempotent(s);
    assert PyInt(AsciiForm(s)) == ParseAscii(AsciiForm(AsciiForm(s)));
  }

  lemma AsciiFormIdempotent(s: string)
    ensures AsciiForm(AsciiForm(s)) == AsciiForm(s)
  {
    var a := AsciiForm(s);
    forall i | 0 <= i < |a|
      ensures AsciiForm(a)[i] == a[i]
    {
      assert (a[i] as int) < 127;
    }
  }
}
