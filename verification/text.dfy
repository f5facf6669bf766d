/** The JavaScript string operations the storefront relies on: `trim`, `toLowerCase`,
    `includes`, `split`, the `\s` regular-expression class and `Number()` on strings. */
module Text {
  import opened Common

  /** The characters JavaScript's `trim` and the `\s` class treat as white space
      (WhiteSpace and LineTerminator of ECMAScript). */
  predicate IsSpace(c: char)
  {
    c == '\t' || c == '\n' || c == '\U{B}' || c == '\U{C}' || c == '\r' || c == ' '
    || c == '\U{A0}' || c == '\U{1680}' || ('\U{2000}' <= c <= '\U{200A}')
    || c == '\U{2028}' || c == '\U{2029}' || c == '\U{202F}' || c == '\U{205F}'
    || c == '\U{3000}' || c == '\U{FEFF}'
  }

  /** Every character of `s` is white space (true of the empty string). */
  predicate IsBlank(s: string)
  {
    forall k :: 0 <= k < |s| ==> IsSpace(s[k])
  }

  /** The suffix of `s` left once its leading white space is cut off: everything cut is
      white space and what is left does not start with it. */
  function TrimStart(s: string): (r: string)
    ensures |r| <= |s| && r == s[|s| - |r|..]
    ensures r == [] || !IsSpace(r[0])
    ensures forall k :: 0 <= k < |s| - |r| ==> IsSpace(s[k])
  {
    if s != [] && IsSpace(s[0]) then TrimStart(s[1..]) else s
  }

  /** The prefix of `s` left once its trailing white space is cut off. */
  function TrimEnd(s: string): (r: string)
    ensures |r| <= |s| && r == s[..|r|]
    ensures r == [] || !IsSpace(r[|r| - 1])
    ensures forall k :: |r| <= k < |s| ==> IsSpace(s[k])
  {
    if s != [] && IsSpace(s[|s| - 1]) then TrimEnd(s[..|s| - 1]) else s
  }

  /** `s.trim()`. */
  function Trim(s: string): string
  {
    TrimEnd(TrimStart(s))
  }

  /** What `trim` returns neither starts nor ends with white space. */
  lemma TrimEnds(s: string)
    ensures var r := Trim(s); r == [] || (!IsSpace(r[0]) && !IsSpace(r[|r| - 1]))
  {
    var t := TrimStart(s);
    var r := TrimEnd(t);
    if r != [] {
      assert t != [] && r[0] == t[0];
    }
  }

  /** `trim` adds no character: one absent from the input is absent from the result. */
  lemma TrimAddsNothing(s: string, c: char)
    requires c !in s
    ensures c !in Trim(s)
  {
    var t := TrimStart(s);
    assert t == s[|s| - |t|..];
    assert c !in t;
  }

  /** A string trims to "" exactly when it is blank: the guard `!x.trim()` rejects
      the empty string and every all-white-space string, and nothing else. */
  lemma {:induction false} TrimEmptyIffBlank(s: string)
    ensures Trim(s) == "" <==> IsBlank(s)
  {
    var t := TrimStart(s);
    if t == [] {
      assert IsBlank(s);
    } else {
      assert !IsSpace(t[0]);
      assert TrimEnd(t) != [];
      assert !IsSpace(s[|s| - |t|]);
    }
  }

  /** `s.trim() || undefined` (and `|| null`): the trimmed text, or nothing when it is empty. */
  function TrimmedOrNone(s: string): (r: Option<string>)
    ensures r.None? <==> IsBlank(s)
    ensures r.Some? ==> r.value == Trim(s) && r.value != ""
  {
    TrimEmptyIffBlank(s);
    if Trim(s) == "" then None else Some(Trim(s))
  }

  /** Trimming twice is trimming once. */
  lemma TrimIdempotent(s: string)
    ensures Trim(Trim(s)) == Trim(s)
  {
    TrimEnds(s);
    var r := Trim(s);
    assert TrimStart(r) == r;
    assert TrimEnd(r) == r;
  }

  /** `toLowerCase` on one character: Latin and Cyrillic capitals (with Ё) are lowered,
      every other character is kept. */
  function LowerChar(c: char): (r: char)
    ensures ('A' <= c <= 'Z') ==> r as int == c as int + 32
    ensures !('A' <= c <= 'Z') && !('\U{410}' <= c <= '\U{42F}') && c != '\U{401}' ==> r == c
  {
    if 'A' <= c <= 'Z' then (c as int + 32) as char
    else if '\U{410}' <= c <= '\U{42F}' then (c as int + 32) as char
    else if c == '\U{401}' then '\U{451}'
    else c
  }

  function ToLower(s: string): (r: string)
    ensures |r| == |s|
    ensures forall k :: 0 <= k < |s| ==> r[k] == LowerChar(s[k])
  {
    seq(|s|, k requires 0 <= k < |s| => LowerChar(s[k]))
  }

  /** `needle` occurs in `hay` starting at index `i`. */
  predicate OccursAt(hay: string, needle: string, i: int)
  {
    0 <= i && i + |needle| <= |hay| && hay[i..i + |needle|] == needle
  }

  /** `hay.includes(needle)`. */
  predicate Contains(hay: string, needle: string)
  {
    exists i | 0 <= i <= |hay| :: OccursAt(hay, needle, i)
  }

  /** `s.split(sep)` for a one-character separator. */
  function Split(s: string, sep: char): (r: seq<string>)
    ensures |r| >= 1
    ensures forall k :: 0 <= k < |r| ==> sep !in r[k]
  {
    if s == [] then [""]
    else if s[0] == sep then [""] + Split(s[1..], sep)
    else
      var rest := Split(s[1..], sep);
      [[s[0]] + rest[0]] + rest[1..]
  }

  /** `parts.join(sep)`. */
  function Join(parts: seq<string>, sep: char): string
    requires |parts| >= 1
  {
    if |parts| == 1 then parts[0] else parts[0] + [sep] + Join(parts[1..], sep)
  }

  /** Splitting loses nothing: joining the pieces with the separator gives the string back. */
  lemma {:induction false} SplitJoin(s: string, sep: char)
    ensures Join(Split(s, sep), sep) == s
  {
    if s == [] {
    } else if s[0] == sep {
      SplitJoin(s[1..], sep);
      var rest := Split(s[1..], sep);
      assert Split(s, sep)[1..] == rest;
    } else {
      SplitJoin(s[1..], sep);
      var rest := Split(s[1..], sep);
      var r := Split(s, sep);
      assert r[0] == [s[0]] + rest[0];
      assert r[1..] == rest[1..];
      if |rest| == 1 {
        assert r == [[s[0]] + rest[0]];
      } else {
        assert Join(rest, sep) == rest[0] + [sep] + Join(rest[1..], sep);
      }
    }
  }

  /** `s.replace(/\s/g, "")`: every white-space character removed. */
  function RemoveSpaces(s: string): (r: string)
    ensures forall c :: c in r <==> c in s && !IsSpace(c)
    ensures |r| <= |s|
  {
    if s == [] then []
    else (if IsSpace(s[0]) then [] else [s[0]]) + RemoveSpaces(s[1..])
  }

  /** A string without white space is left as it is by `trim`. */
  lemma TrimNoSpace(s: string)
    requires forall k :: 0 <= k < |s| ==> !IsSpace(s[k])
    ensures Trim(s) == s
  {
    if s != [] {
      assert !IsSpace(s[0]) && !IsSpace(s[|s| - 1]);
    }
    assert TrimStart(s) == s;
  }

  /** A string without white space is left as it is by the removal of white space. */
  lemma {:induction false} RemoveSpacesNoSpace(s: string)
    requires forall k :: 0 <= k < |s| ==> !IsSpace(s[k])
    ensures RemoveSpaces(s) == s
  {
    if s != [] {
      RemoveSpacesNoSpace(s[1..]);
      assert [s[0]] + s[1..] == s;
    }
  }

  predicate IsDigit(c: char)
  {
    '0' <= c <= '9'
  }

  predicate AllDigits(s: string)
  {
    forall k :: 0 <= k < |s| ==> IsDigit(s[k])
  }

  /** The value of a string of decimal digits, most significant first. */
  function DigitsValue(s: string): (n: nat)
    requires AllDigits(s)
  {
    if s == [] then 0
    else DigitsValue(s[..|s| - 1]) * 10 + (s[|s| - 1] as int - '0' as int)
  }

  /** `String(n)` for a natural number: its decimal digits without leading zeros. */
  function ShowNat(n: nat): (s: string)
    ensures s != [] && AllDigits(s)
  {
    if n < 10 then [('0' as int + n) as char]
    else ShowNat(n / 10) + [('0' as int + n % 10) as char]
  }

  /** `Number(s)` on a string, where it gives an integer: surrounding white space is
      ignored, a blank string is 0, and decimal digits give their value. Every other
      string is `None`, read as NaN. */
  function NumberOf(s: string): (r: Option<int>)
    ensures IsBlank(s) ==> r == Some(0)
    ensures !IsBlank(s) ==> (r.Some? <==> AllDigits(Trim(s)))
    ensures !IsBlank(s) && AllDigits(Trim(s)) ==> r == Some(DigitsValue(Trim(s)))
    ensures r.Some? ==> r.value >= 0
  {
    TrimEmptyIffBlank(s);
    var t := Trim(s);
    if t == "" then Some(0)
    else if AllDigits(t) then Some(DigitsValue(t))
    else None
  }

  /** `Number(v)` on a JSON value, where it gives an integer; `None` stands for NaN.
      `undefined` is NaN and `null` is 0; a boolean is 1 or 0; a string is read by
      `NumberOf`; an object is NaN. An array is read through its string form, the
      elements joined by commas: the empty array is "" and so 0, an array of two or more
      elements holds a comma and is NaN, and a one-element array reads as its element's
      string form, where `null` and `undefined` are "" and a boolean or an object is
      not a number. */
  function NumberValue(v: JsValue): (r: Option<int>)
    ensures v.Undefined? || v.Obj? ==> r.None?
    ensures v.Null? ==> r == Some(0)
    ensures v.Bool? ==> r == Some(if v.b then 1 else 0)
    ensures v.Num? ==> r == Some(v.n)
    ensures v.Str? ==> r == NumberOf(v.s)
    ensures v.Arr? && |v.elems| != 1 ==> r == (if v.elems == [] then Some(0) else None)
    ensures v.Arr? && |v.elems| == 1 && (v.elems[0].Bool? || v.elems[0].Obj?) ==> r.None?
    ensures v.Arr? && |v.elems| == 1 && (v.elems[0].Undefined? || v.elems[0].Null?) ==> r == Some(0)
  {
    match v
    case Undefined => None
    case Null => Some(0)
    case Bool(b) => Some(if b then 1 else 0)
    case Num(n) => Some(n)
    case Str(s) => NumberOf(s)
    case Obj(_) => None
    case Arr(elems) =>
      if elems == [] then Some(0)
      else if |elems| > 1 then None
      else
        match elems[0]
        case Undefined => Some(0)
        case Null => Some(0)
        case Bool(_) => None
        case Obj(_) => None
        case _ => NumberValue(elems[0])
  }

  /** A one-element array of a number, a string, `null` or an array reads as its element
      does. */
  lemma SingletonReadsAsElement(x: JsValue)
    requires x.Num? || x.Str? || x.Null? || x.Arr?
    ensures NumberValue(Arr([x])) == NumberValue(x)
  {
  }

  /** A non-empty digit string holds no white space, so `Number` reads it as its value. */
  lemma DigitsReadAsValue(s: string)
    requires s != "" && AllDigits(s)
    ensures NumberOf(s) == Some(DigitsValue(s))
  {
    TrimNoSpace(s);
    assert !IsBlank(s) by { assert !IsSpace(s[0]); }
  }

  /** What `String(n)` wrote reads back through `Number` as `n`. */
  lemma ShownNatReadsBack(n: nat)
    ensures NumberValue(Str(ShowNat(n))) == Some(n)
  {
    DigitsReadAsValue(ShowNat(n));
    ShowNatRoundTrip(n);
  }

  /** Reading back what `String(n)` wrote gives `n` again. */
  lemma {:induction false} ShowNatRoundTrip(n: nat)
    ensures DigitsValue(ShowNat(n)) == n
  {
    var s := ShowNat(n);
    if n >= 10 {
      ShowNatRoundTrip(n / 10);
      assert s[..|s| - 1] == ShowNat(n / 10);
    }
  }
}
