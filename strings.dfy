/**
 * The string operations of the .NET base library (and the whitespace of
 * JavaScript's `trim`) that the system relies on, stated over `seq<char>`.
 * Case mapping is ASCII only.
 */
module Strings {
  import opened Core

  // ---------------------------------------------------------------------
  // Whitespace and trimming
  // ---------------------------------------------------------------------

  /** .NET `char.IsWhiteSpace`: the separators Zs, Zl, Zp plus the controls U+0009..U+000D, U+0085. */
  predicate IsWhiteSpace(c: char) {
    ('\t' <= c <= '\r') || c == ' ' || c == '\U{0085}' || c == '\U{00A0}' || c == '\U{1680}'
    || ('\U{2000}' <= c <= '\U{200A}') || c == '\U{2028}' || c == '\U{2029}'
    || c == '\U{202F}' || c == '\U{205F}' || c == '\U{3000}'
  }

  /** The whitespace `NumberStyles.Integer` lets `int.TryParse` skip around a number. */
  predicate IsNumberWhite(c: char) {
    ('\t' <= c <= '\r') || c == ' '
  }

  /** `string.IsNullOrWhiteSpace` on a non-null string. */
  predicate IsBlank(s: string) {
    forall i :: 0 <= i < |s| ==> IsWhiteSpace(s[i])
  }

  predicate IsNullOrWhiteSpace(s: Option<string>) {
    s.None? || IsBlank(s.value)
  }

  predicate IsNullOrEmpty(s: Option<string>) {
    s.None? || s.value == []
  }

  function TrimStartWith(s: string, ws: char -> bool): string {
    if s != [] && ws(s[0]) then TrimStartWith(s[1..], ws) else s
  }

  function TrimEndWith(s: string, ws: char -> bool): string {
    if s != [] && ws(s[|s| - 1]) then TrimEndWith(s[..|s| - 1], ws) else s
  }

  /** Trimming the start drops a run of trimmable characters and stops at the first other one. */
  lemma {:induction false} TrimStartShape(s: string, ws: char -> bool)
    ensures var r := TrimStartWith(s, ws);
      && |r| <= |s| && r == s[|s| - |r|..]
      && (forall i :: 0 <= i < |s| - |r| ==> ws(s[i]))
      && (r != [] ==> !ws(r[0]))
  {
    if s != [] && ws(s[0]) {
      TrimStartShape(s[1..], ws);
      var r := TrimStartWith(s[1..], ws);
      assert s[1..][|s| - 1 - |r|..] == s[|s| - |r|..];
      forall i | 0 < i < |s| - |r|
        ensures ws(s[i])
      {
        assert s[i] == s[1..][i - 1];
      }
    }
  }

  /** Trimming the end drops a run of trimmable characters and stops at the last other one. */
  lemma {:induction false} TrimEndShape(s: string, ws: char -> bool)
    ensures var r := TrimEndWith(s, ws);
      && |r| <= |s| && r == s[..|r|]
      && (forall i :: |r| <= i < |s| ==> ws(s[i]))
      && (r != [] ==> !ws(r[|r| - 1]))
  {
    if s != [] && ws(s[|s| - 1]) {
      TrimEndShape(s[..|s| - 1], ws);
    }
  }

  /** Removes the characters `ws` accepts from both ends. */
  function TrimWith(s: string, ws: char -> bool): string {
    TrimEndWith(TrimStartWith(s, ws), ws)
  }

  /** .NET `string.Trim()`. */
  function Trim(s: string): string {
    TrimWith(s, IsWhiteSpace)
  }

  /** Trimming leaves nothing exactly when every character is whitespace. */
  lemma TrimEmptyIffAll(s: string, ws: char -> bool)
    ensures TrimWith(s, ws) == [] <==> forall i :: 0 <= i < |s| ==> ws(s[i])
  {
    var t := TrimStartWith(s, ws);
    TrimStartShape(s, ws);
    TrimEndShape(t, ws);
    if TrimWith(s, ws) == [] {
      assert t == [];
    } else {
      var r := TrimWith(s, ws);
      assert !ws(r[0]);
      assert r[0] == s[|s| - |t|];
    }
  }

  /** A trimmed string has no whitespace at either end and sits inside the original. */
  lemma TrimBounds(s: string, ws: char -> bool)
    ensures var r := TrimWith(s, ws);
      r != [] ==> !ws(r[0]) && !ws(r[|r| - 1])
  {
    var t := TrimStartWith(s, ws);
    TrimStartShape(s, ws);
    TrimEndShape(t, ws);
  }

  /** A string with no trimmable character at either end is its own trim. */
  lemma TrimNoop(s: string, ws: char -> bool)
    requires s != [] && !ws(s[0]) && !ws(s[|s| - 1])
    ensures TrimWith(s, ws) == s
  {
    var t := TrimStartWith(s, ws);
    assert t == s;
  }

  lemma TrimIdempotent(s: string, ws: char -> bool)
    ensures TrimWith(TrimWith(s, ws), ws) == TrimWith(s, ws)
  {
    var r := TrimWith(s, ws);
    if r != [] {
      TrimBounds(s, ws);
      TrimNoop(r, ws);
    }
  }

  // ---------------------------------------------------------------------
  // Splitting and joining
  // ---------------------------------------------------------------------

  /** `string.IndexOf(char)`, with `None` for -1. */
  function IndexOf(s: string, c: char): (r: Option<nat>)
    ensures r.None? <==> c !in s
    ensures r.Some? ==> r.value < |s| && s[r.value] == c && forall i :: 0 <= i < r.value ==> s[i] != c
  {
    if s == [] then None
    else if s[0] == c then Some(0)
    else
      match IndexOf(s[1..], c)
      case None => None
      case Some(k) =>
        assert s[..k + 1] == [s[0]] + s[1..][..k];
        Some(k + 1)
  }

  /** `string.Join(sep, parts)`. */
  function Join(sep: char, parts: seq<string>): string {
    if parts == [] then []
    else if |parts| == 1 then parts[0]
    else parts[0] + [sep] + Join(sep, parts[1..])
  }

  /**
   * `s.Split(sep)`: never empty, no piece holds the separator, and joining
   * the pieces with the separator gives `s` back.
   */
  function Split(s: string, sep: char): (parts: seq<string>)
    ensures |parts| >= 1
    ensures forall i :: 0 <= i < |parts| ==> sep !in parts[i]
    ensures Join(sep, parts) == s
    decreases |s|
  {
    match IndexOf(s, sep)
    case None => [s]
    case Some(k) =>
      var rest := Split(s[k + 1..], sep);
      assert s == s[..k] + [sep] + s[k + 1..];
      [s[..k]] + rest
  }

  /** Appending one more piece to a join appends the separator and the piece. */
  lemma {:induction false} JoinSnoc(sep: char, parts: seq<string>, x: string)
    requires parts != []
    ensures Join(sep, parts + [x]) == Join(sep, parts) + [sep] + x
  {
    if |parts| > 1 {
      assert (parts + [x])[1..] == parts[1..] + [x];
      JoinSnoc(sep, parts[1..], x);
    }
  }

  /** A string that holds the separator splits into two or more pieces. */
  lemma SplitOnSeparator(s: string, sep: char)
    requires sep in s
    ensures |Split(s, sep)| >= 2
  {
  }

  /** A join of two or more pieces holds the separator. */
  lemma JoinHasSeparator(sep: char, parts: seq<string>)
    requires |parts| >= 2
    ensures sep in Join(sep, parts)
  {
    assert Join(sep, parts)[|parts[0]|] == sep;
  }

  /** A join begins with its first piece. */
  lemma JoinStartsWithFirst(sep: char, parts: seq<string>)
    requires parts != []
    ensures StartsWith(Join(sep, parts), parts[0])
  {
    if |parts| > 1 {
      assert (parts[0] + [sep] + Join(sep, parts[1..]))[..|parts[0]|] == parts[0];
    }
  }

  /** A character that is neither the separator nor in any piece is not in the join. */
  lemma {:induction false} JoinAvoids(sep: char, parts: seq<string>, c: char)
    requires c != sep
    requires forall i :: 0 <= i < |parts| ==> c !in parts[i]
    ensures c !in Join(sep, parts)
  {
    if |parts| > 1 {
      JoinAvoids(sep, parts[1..], c);
    }
  }

  /** A string with a non-white character stays non-blank whatever is put around it. */
  lemma NotBlankConcat(a: string, b: string)
    ensures !IsBlank(a) ==> !IsBlank(a + b)
    ensures !IsBlank(b) ==> !IsBlank(a + b)
  {
    if !IsBlank(a) {
      var i :| 0 <= i < |a| && !IsWhiteSpace(a[i]);
      assert (a + b)[i] == a[i];
    }
    if !IsBlank(b) {
      var i :| 0 <= i < |b| && !IsWhiteSpace(b[i]);
      assert (a + b)[|a| + i] == b[i];
    }
  }

  /** The first separator of a joined string ends its first piece. */
  lemma IndexOfJoined(a: string, sep: char, b: string)
    requires sep !in a
    ensures IndexOf(a + [sep] + b, sep) == Some(|a|)
  {
    var s := a + [sep] + b;
    assert s[|a|] == sep;
  }

  /** A separator-free first piece splits off on its own. */
  lemma SplitCons(a: string, sep: char, b: string)
    requires sep !in a
    ensures Split(a + [sep] + b, sep) == [a] + Split(b, sep)
  {
    var s := a + [sep] + b;
    IndexOfJoined(a, sep, b);
    assert s[..|a|] == a;
    assert s[|a| + 1..] == b;
  }

  /** Splitting a join of separator-free pieces gives the pieces back. */
  lemma {:induction false} SplitJoin(sep: char, parts: seq<string>)
    requires |parts| >= 1
    requires forall i :: 0 <= i < |parts| ==> sep !in parts[i]
    ensures Split(Join(sep, parts), sep) == parts
  {
    if |parts| > 1 {
      var tail := Join(sep, parts[1..]);
      assert Join(sep, parts) == parts[0] + [sep] + tail;
      SplitCons(parts[0], sep, tail);
      SplitJoin(sep, parts[1..]);
      assert parts == [parts[0]] + parts[1..];
    }
  }

  /** The pieces that are not empty, in order (`StringSplitOptions.RemoveEmptyEntries`). */
  function RemoveEmpty(parts: seq<string>): (r: seq<string>)
    ensures |r| <= |parts|
    ensures forall i :: 0 <= i < |r| ==> r[i] != [] && r[i] in parts
    ensures forall p :: p in parts && p != [] ==> p in r
  {
    if parts == [] then []
    else if parts[0] == [] then RemoveEmpty(parts[1..])
    else [parts[0]] + RemoveEmpty(parts[1..])
  }

  /** `s.Split(sep, StringSplitOptions.RemoveEmptyEntries)`. */
  function SplitNonEmpty(s: string, sep: char): seq<string> {
    RemoveEmpty(Split(s, sep))
  }

  lemma {:induction false} RemoveEmptyKeeps(parts: seq<string>)
    requires forall i :: 0 <= i < |parts| ==> parts[i] != []
    ensures RemoveEmpty(parts) == parts
  {
    if parts != [] {
      RemoveEmptyKeeps(parts[1..]);
      assert parts == [parts[0]] + parts[1..];
    }
  }

  /** Pieces of a `RemoveEmptyEntries` split hold no separator. */
  lemma SplitNonEmptyPieces(s: string, sep: char)
    ensures forall i :: 0 <= i < |SplitNonEmpty(s, sep)| ==>
      SplitNonEmpty(s, sep)[i] != [] && sep !in SplitNonEmpty(s, sep)[i]
  {
    var parts := Split(s, sep);
    forall i | 0 <= i < |SplitNonEmpty(s, sep)|
      ensures sep !in SplitNonEmpty(s, sep)[i]
    {
      var p := SplitNonEmpty(s, sep)[i];
      assert p in parts;
      var j :| 0 <= j < |parts| && parts[j] == p;
    }
  }

  /**
   * Joining non-empty, separator-free pieces and splitting the result with
   * `RemoveEmptyEntries` gives the pieces back.
   */
  lemma SplitNonEmptyJoin(sep: char, parts: seq<string>)
    requires forall i :: 0 <= i < |parts| ==> parts[i] != [] && sep !in parts[i]
    ensures SplitNonEmpty(Join(sep, parts), sep) == parts
  {
    if parts == [] {
      assert Split([], sep) == [[]];
    } else {
      SplitJoin(sep, parts);
      RemoveEmptyKeeps(parts);
    }
  }

  /** Joining the non-empty pieces of a split and splitting again changes nothing. */
  lemma SplitNonEmptyStable(s: string, sep: char)
    ensures SplitNonEmpty(Join(sep, SplitNonEmpty(s, sep)), sep) == SplitNonEmpty(s, sep)
  {
    SplitNonEmptyPieces(s, sep);
    SplitNonEmptyJoin(sep, SplitNonEmpty(s, sep));
  }

  // ---------------------------------------------------------------------
  // Substrings and ASCII case
  // ---------------------------------------------------------------------

  predicate StartsWith(s: string, prefix: string) {
    |prefix| <= |s| && s[..|prefix|] == prefix
  }

  /** `string.Contains(string)`, ordinal. */
  predicate Contains(s: string, sub: string) {
    StartsWith(s, sub) || (s != [] && Contains(s[1..], sub))
  }

  /** A string that contains `sub` contains every prefix of `sub`. */
  lemma {:induction false} ContainsPrefix(s: string, sub: string, k: nat)
    requires k <= |sub| && Contains(s, sub)
    ensures Contains(s, sub[..k])
  {
    if StartsWith(s, sub) {
      assert s[..k] == sub[..k];
    } else {
      ContainsPrefix(s[1..], sub, k);
    }
  }

  function UpperChar(c: char): char {
    if 'a' <= c <= 'z' then (c as int - 32) as char else c
  }

  function LowerChar(c: char): char {
    if 'A' <= c <= 'Z' then (c as int + 32) as char else c
  }

  /** `ToUpperInvariant`, on the ASCII letters. */
  function ToUpper(s: string): (r: string)
    ensures |r| == |s|
  {
    seq(|s|, i requires 0 <= i < |s| => UpperChar(s[i]))
  }

  /** `ToLowerInvariant`, on the ASCII letters. */
  function ToLower(s: string): (r: string)
    ensures |r| == |s|
  {
    seq(|s|, i requires 0 <= i < |s| => LowerChar(s[i]))
  }

  /** `StringComparison.OrdinalIgnoreCase` equality, ASCII folding. */
  predicate EqualsIgnoreCase(a: string, b: string) {
    ToUpper(a) == ToUpper(b)
  }

  predicate StartsWithIgnoreCase(s: string, prefix: string) {
    |prefix| <= |s| && EqualsIgnoreCase(s[..|prefix|], prefix)
  }

  /** `s.Replace(" ", "")`. */
  function RemoveSpaces(s: string): (r: string)
    ensures ' ' !in r && |r| <= |s|
  {
    if s == [] then []
    else (if s[0] == ' ' then [] else [s[0]]) + RemoveSpaces(s[1..])
  }

  /** Removing spaces works piece by piece. */
  lemma {:induction false} RemoveSpacesConcat(a: string, b: string)
    ensures RemoveSpaces(a + b) == RemoveSpaces(a) + RemoveSpaces(b)
  {
    if a == [] {
      assert a + b == b;
    } else {
      var c := if a[0] == ' ' then [] else [a[0]];
      assert (a + b)[0] == a[0];
      assert (a + b)[1..] == a[1..] + b;
      RemoveSpacesConcat(a[1..], b);
      calc {
        RemoveSpaces(a + b);
        c + RemoveSpaces(a[1..] + b);
        c + (RemoveSpaces(a[1..]) + RemoveSpaces(b));
        (c + RemoveSpaces(a[1..])) + RemoveSpaces(b);
        RemoveSpaces(a) + RemoveSpaces(b);
      }
    }
  }

  /** Upper-casing works piece by piece. */
  lemma ToUpperConcat(a: string, b: string)
    ensures ToUpper(a + b) == ToUpper(a) + ToUpper(b)
  {
  }

  /** A letter under ASCII upper-casing came from a letter, so it is not white space. */
  lemma UpperLetterNotWhite(c: char)
    requires 'A' <= UpperChar(c) <= 'Z'
    ensures !IsWhiteSpace(c)
  {
  }

  /** Strings equal ignoring case stay so once their spaces are removed. */
  lemma {:induction false} RemoveSpacesIgnoresCase(s: string, t: string)
    requires EqualsIgnoreCase(s, t)
    ensures EqualsIgnoreCase(RemoveSpaces(s), RemoveSpaces(t))
  {
    if s != [] {
      assert UpperChar(s[0]) == ToUpper(s)[0] == ToUpper(t)[0] == UpperChar(t[0]);
      assert ToUpper(s[1..]) == ToUpper(s)[1..];
      assert ToUpper(t[1..]) == ToUpper(t)[1..];
      RemoveSpacesIgnoresCase(s[1..], t[1..]);
      var hs := if s[0] == ' ' then [] else [s[0]];
      var ht := if t[0] == ' ' then [] else [t[0]];
      assert ToUpper(hs) == ToUpper(ht);
      ToUpperConcat(hs, RemoveSpaces(s[1..]));
      ToUpperConcat(ht, RemoveSpaces(t[1..]));
    }
  }

  /** Two words joined by one space lose that space. */
  lemma SpacedLabel(a: string, b: string)
    requires ' ' !in a && ' ' !in b
    ensures RemoveSpaces(a + " " + b) == a + b
  {
    var sp: string := " ";
    assert RemoveSpaces(sp) == [] by {
      assert sp[1..] == [];
    }
    RemoveSpacesConcat(a, sp);
    RemoveSpacesNone(a);
    assert RemoveSpaces(a + sp) == a;
    RemoveSpacesConcat(a + sp, b);
    RemoveSpacesNone(b);
  }

  /** A string without spaces is left as it is. */
  lemma {:induction false} RemoveSpacesNone(s: string)
    requires ' ' !in s
    ensures RemoveSpaces(s) == s
  {
    if s != [] {
      RemoveSpacesNone(s[1..]);
      assert s == [s[0]] + s[1..];
    }
  }

  // ---------------------------------------------------------------------
  // Decimal integers
  // ---------------------------------------------------------------------

  predicate IsDigit(c: char) {
    '0' <= c <= '9'
  }

  predicate AllDigits(s: string) {
    forall i :: 0 <= i < |s| ==> IsDigit(s[i])
  }

  function DigitChar(d: nat): (c: char)
    requires d < 10
    ensures IsDigit(c) && c as int - '0' as int == d
  {
    ('0' as int + d) as char
  }

  /** The value of a string of decimal digits. */
  function DigitsValue(s: string): nat
    requires AllDigits(s)
  {
    if s == [] then 0 else DigitsValue(s[..|s| - 1]) * 10 + (s[|s| - 1] as int - '0' as int)
  }

  /** The shortest decimal text of `n`, read back by `DigitsValue`. */
  function NaturalText(n: nat): (r: string)
    ensures r != [] && AllDigits(r)
    ensures DigitsValue(r) == n
    ensures r[0] != '0' || n == 0
  {
    if n < 10 then [DigitChar(n)]
    else
      var r := NaturalText(n / 10) + [DigitChar(n % 10)];
      assert r[..|r| - 1] == NaturalText(n / 10);
      r
  }

  /** `int.ToString()` / `long.ToString()` with the invariant culture. */
  function IntText(n: int): (r: string)
    ensures r != []
  {
    if n < 0 then "-" + NaturalText(-n) else NaturalText(n)
  }

  /**
   * `int.TryParse` / `long.TryParse` with `NumberStyles.Integer` and the
   * invariant culture: optional white space, an optional sign, at least one
   * decimal digit, optional white space, and a value inside [lo, hi].
   */
  function TryParseInteger(s: string, lo: int, hi: int): (r: Option<int>)
    ensures r.Some? ==> lo <= r.value <= hi
  {
    var t := TrimWith(s, IsNumberWhite);
    if t == [] then None
    else
      var body := if t[0] == '-' || t[0] == '+' then t[1..] else t;
      if body == [] || !AllDigits(body) then None
      else
        var v: int := if t[0] == '-' then -(DigitsValue(body) as int) else DigitsValue(body) as int;
        if lo <= v <= hi then Some(v) else None
  }

  /** `int.TryParse(s, out v)`. */
  function TryParseInt(s: string): (r: Option<Int32>)
  {
    match TryParseInteger(s, Int32Min, Int32Max)
    case None => None
    case Some(v) => Some(v)
  }

  /** `long.TryParse(s, out v)`. */
  function TryParseLong(s: string): (r: Option<Int64>)
  {
    match TryParseInteger(s, Int64Min, Int64Max)
    case None => None
    case Some(v) => Some(v)
  }

  /** The number `int.TryParse` reads, or 0 when it fails (its `out` value). */
  function ParseOrZero(s: string): Int32 {
    match TryParseInt(s)
    case None => 0
    case Some(v) => v
  }

  /** Formatting an integer and parsing it back gives the integer. */
  lemma ParseIntText(n: int, lo: int, hi: int)
    requires lo <= n <= hi
    ensures TryParseInteger(IntText(n), lo, hi) == Some(n)
  {
    var s := IntText(n);
    assert !IsNumberWhite(s[0]) && !IsNumberWhite(s[|s| - 1]);
    TrimNoop(s, IsNumberWhite);
    if n < 0 {
      assert s[1..] == NaturalText(-n);
    }
  }

  lemma ParseIntTextInt32(n: Int32)
    ensures TryParseInt(IntText(n)) == Some(n)
  {
    ParseIntText(n, Int32Min, Int32Max);
  }

  /** Text that is not a whole decimal number does not parse. */
  lemma ParseNeedsDigit(s: string, lo: int, hi: int)
    requires forall i :: 0 <= i < |s| ==> !IsDigit(s[i])
    ensures TryParseInteger(s, lo, hi).None?
  {
    var t := TrimWith(s, IsNumberWhite);
    var u := TrimStartWith(s, IsNumberWhite);
    TrimStartShape(s, IsNumberWhite);
    TrimEndShape(u, IsNumberWhite);
    assert forall i :: 0 <= i < |t| ==> t[i] == s[|s| - |u| + i];
    if t != [] {
      var body := if t[0] == '-' || t[0] == '+' then t[1..] else t;
    }
  }

  /** `n.ToString("D" + width)`: at least `width` digits, zero-padded, with a minus sign before them. */
  function FormatD(n: int, width: nat): (r: string)
  {
    var digits := NaturalText(Abs(n));
    var padded := if |digits| >= width then digits else seq(width - |digits|, _ => '0') + digits;
    if n < 0 then "-" + padded else padded
  }

  lemma {:induction false} LeadingZeros(z: nat, s: string)
    requires AllDigits(s)
    ensures AllDigits(seq(z, _ => '0') + s)
    ensures DigitsValue(seq(z, _ => '0') + s) == DigitsValue(s)
    decreases |s|
  {
    var t := seq(z, _ => '0') + s;
    if s == [] {
      assert t == seq(z, _ => '0');
      ZerosValue(z);
    } else {
      assert t[..|t| - 1] == seq(z, _ => '0') + s[..|s| - 1];
      LeadingZeros(z, s[..|s| - 1]);
    }
  }

  lemma {:induction false} ZerosValue(z: nat)
    ensures AllDigits(seq(z, _ => '0'))
    ensures DigitsValue(seq(z, _ => '0')) == 0
  {
    if z > 0 {
      assert seq(z, _ => '0')[..z - 1] == seq(z - 1, _ => '0');
      ZerosValue(z - 1);
    }
  }

  /** A non-negative number below 10^width prints as exactly `width` digits that read back as the number. */
  lemma FormatDFixedWidth(n: nat, width: nat)
    requires n < Pow10(width)
    requires width >= 1
    ensures |FormatD(n, width)| == width
    ensures AllDigits(FormatD(n, width)) && DigitsValue(FormatD(n, width)) == n
  {
    TextLength(n, width);
    var digits := NaturalText(n);
    if |digits| < width {
      LeadingZeros(width - |digits|, digits);
    }
  }

  /** A non-negative number prints as at least `width` digits that read back as the number. */
  lemma FormatDReads(n: nat, width: nat)
    ensures |FormatD(n, width)| >= width
    ensures AllDigits(FormatD(n, width)) && DigitsValue(FormatD(n, width)) == n
  {
    var digits := NaturalText(n);
    if |digits| < width {
      LeadingZeros(width - |digits|, digits);
    }
  }

  function Pow10(k: nat): (p: nat)
    ensures p >= 1
  {
    if k == 0 then 1 else 10 * Pow10(k - 1)
  }

  lemma {:induction false} TextLength(n: nat, width: nat)
    requires n < Pow10(width) && width >= 1
    ensures |NaturalText(n)| <= width
  {
    if n >= 10 {
      TextLength(n / 10, width - 1);
    }
  }

  // ---------------------------------------------------------------------
  // Paths (System.IO.Path on Windows)
  // ---------------------------------------------------------------------

  predicate IsDirectorySeparator(c: char) {
    c == '\\' || c == '/'
  }

  /** A drive root such as `C:` opens the path (an ASCII letter, then ':'). */
  predicate HasDriveRoot(path: string) {
    |path| >= 2 && path[1] == ':' && (('A' <= path[0] <= 'Z') || ('a' <= path[0] <= 'z'))
  }

  /** What follows the last directory separator (the whole text when there is none). */
  function LastSegment(path: string): (r: string)
    ensures |r| <= |path| && forall i :: 0 <= i < |r| ==> r[i] == path[|path| - |r| + i]
    ensures forall i :: 0 <= i < |r| ==> !IsDirectorySeparator(r[i])
    ensures |r| < |path| ==> IsDirectorySeparator(path[|path| - |r| - 1])
  {
    if path == [] || IsDirectorySeparator(path[|path| - 1]) then []
    else LastSegment(path[..|path| - 1]) + [path[|path| - 1]]
  }

  /**
   * `Path.GetFileName`: what follows the last directory separator, never
   * reaching back into a drive root, so `C:foto.png` names `foto.png`.
   */
  function GetFileName(path: string): (r: string)
    ensures |r| <= |path| && forall i :: 0 <= i < |r| ==> r[i] == path[|path| - |r| + i]
    ensures forall i :: 0 <= i < |r| ==> !IsDirectorySeparator(r[i])
    ensures HasDriveRoot(path) ==> |r| <= |path| - 2
    ensures |r| < |path| ==>
      IsDirectorySeparator(path[|path| - |r| - 1]) || (HasDriveRoot(path) && |r| == |path| - 2)
  {
    var n := LastSegment(path);
    if HasDriveRoot(path) && |n| > |path| - 2 then
      assert path[2..] == n[|n| - |path| + 2..];
      path[2..]
    else n
  }

  /** A path with no separator is its own file name, less any drive root. */
  lemma GetFileNamePlain(path: string)
    requires forall i :: 0 <= i < |path| ==> !IsDirectorySeparator(path[i])
    ensures !HasDriveRoot(path) ==> GetFileName(path) == path
    ensures HasDriveRoot(path) ==> GetFileName(path) == path[2..]
  {
    LastSegmentPlain(path);
  }

  lemma {:induction false} LastSegmentPlain(path: string)
    requires forall i :: 0 <= i < |path| ==> !IsDirectorySeparator(path[i])
    ensures LastSegment(path) == path
  {
    if path != [] {
      LastSegmentPlain(path[..|path| - 1]);
    }
  }

  /**
   * `Path.GetExtension`: scanning back from the end, the text from the last
   * '.' of the file name, or "" when the name has no '.' or ends with one.
   */
  function GetExtension(path: string): (r: string)
    ensures r == [] || (|r| >= 2 && |r| <= |path| && r[0] == '.')
    ensures forall i :: 0 <= i < |r| ==> r[i] == path[|path| - |r| + i]
    ensures forall i :: 0 <= i < |r| ==> !IsDirectorySeparator(r[i])
    ensures forall i :: 1 <= i < |r| ==> r[i] != '.'
  {
    ExtensionScan(path, |path|)
  }

  function ExtensionScan(path: string, i: nat): (r: string)
    requires i <= |path|
    requires forall k :: i <= k < |path| ==> path[k] != '.' && !IsDirectorySeparator(path[k])
    ensures r == [] || (|r| >= 2 && |r| <= |path| && r[0] == '.' && |path| - |r| < i)
    ensures forall k :: 0 <= k < |r| ==> r[k] == path[|path| - |r| + k]
    ensures forall k :: 0 <= k < |r| ==> !IsDirectorySeparator(r[k])
    ensures forall k :: 1 <= k < |r| ==> r[k] != '.'
    ensures r != [] ==> forall k :: |path| - |r| < k < |path| ==> path[k] != '.' && !IsDirectorySeparator(path[k])
  {
    if i == 0 then []
    else if path[i - 1] == '.' then (if i == |path| then [] else path[i - 1..])
    else if IsDirectorySeparator(path[i - 1]) then []
    else ExtensionScan(path, i - 1)
  }
}
