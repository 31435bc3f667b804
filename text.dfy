/**
 * The JavaScript string operations the application relies on, written out on `seq<char>`:
 * `trim`, `toLowerCase`/`toUpperCase`, `includes`, `startsWith`, `split`/`join` on one
 * separator character, `parseInt`, `String(n)` and the `\d+` match used by voice commands.
 */
module Text {
  import opened Wrappers

  /** A character `String.prototype.trim` removes: WhiteSpace or LineTerminator of ECMA-262. */
  predicate IsWhite(c: char) {
    c == '\t' || c == '\n' || c == '\U{B}' || c == '\U{C}' || c == '\r' || c == ' '
    || c == '\U{A0}' || c == '\U{1680}' || ('\U{2000}' <= c <= '\U{200A}')
    || c == '\U{2028}' || c == '\U{2029}' || c == '\U{202F}' || c == '\U{205F}'
    || c == '\U{3000}' || c == '\U{FEFF}'
  }

  /** The string is empty or made of white space only: `s.trim() === ''`. */
  predicate IsBlank(s: string) {
    forall i :: 0 <= i < |s| ==> IsWhite(s[i])
  }

  /** The white space `trim` removes includes the line and paragraph separators and the ideographic space. */
  lemma WhiteBeyondLatin1()
    ensures IsWhite('\U{2028}') && IsWhite('\U{2029}') && IsWhite('\U{202F}')
    ensures IsWhite('\U{205F}') && IsWhite('\U{3000}') && IsWhite('\U{FEFF}')
    ensures Trim("\U{3000}A\U{FEFF}") == "A"
  {
    assert IsBlank("\U{3000}A\U{FEFF}"[..1]);
  }

  /** Drops the leading white space. */
  function TrimStart(s: string): (r: string)
    ensures |r| <= |s| && r == s[|s| - |r|..]
    ensures IsBlank(s[..|s| - |r|])
    ensures r == [] || !IsWhite(r[0])
  {
    if s != [] && IsWhite(s[0]) then
      var r := TrimStart(s[1..]);
      BlankCons(s, r);
      r
    else s
  }

  /** What trimming the tail of `s` leaves is also what trimming `s` leaves when `s` starts white. */
  lemma BlankCons(s: string, r: string)
    requires s != [] && IsWhite(s[0]) && |r| < |s|
    requires r == s[1..][|s| - 1 - |r|..] && IsBlank(s[1..][..|s| - 1 - |r|])
    ensures r == s[|s| - |r|..] && IsBlank(s[..|s| - |r|])
  {
    var k := |s| - |r|;
    forall i | 0 <= i < k
      ensures IsWhite(s[..k][i])
    {
      if i > 0 {
        assert s[..k][i] == s[1..][..k - 1][i - 1];
      }
    }
  }

  /** Drops the trailing white space. */
  function TrimEnd(s: string): (r: string)
    ensures |r| <= |s| && r == s[..|r|]
    ensures IsBlank(s[|r|..])
    ensures r == [] || !IsWhite(r[|r| - 1])
  {
    if s != [] && IsWhite(s[|s| - 1]) then
      var r := TrimEnd(s[..|s| - 1]);
      BlankSnoc(s, |r|);
      r
    else s
  }

  /** A blank stretch followed by a white last character makes a blank suffix. */
  lemma BlankSnoc(s: string, k: nat)
    requires k < |s| && IsWhite(s[|s| - 1]) && IsBlank(s[..|s| - 1][k..])
    ensures IsBlank(s[k..]) && s[..|s| - 1][..k] == s[..k]
  {
    forall i | 0 <= i < |s| - k
      ensures IsWhite(s[k..][i])
    {
      if i < |s| - 1 - k {
        assert s[k..][i] == s[..|s| - 1][k..][i];
      }
    }
  }

  /** `s.trim()`: the result is empty exactly when `s` is blank, and never starts or ends in white space. */
  function Trim(s: string): (r: string)
    ensures |r| <= |s|
    ensures r == [] <==> IsBlank(s)
    ensures r != [] ==> !IsWhite(r[0]) && !IsWhite(r[|r| - 1])
  {
    var t := TrimStart(s);
    var r := TrimEnd(t);
    if r == [] then
      TrimmedAwayIsBlank(s, t);
      r
    else
      TrimKeepsFirst(s, t, r);
      r
  }

  /** Both trimming steps removing everything means the string was blank. */
  lemma TrimmedAwayIsBlank(s: string, t: string)
    requires |t| <= |s| && t == s[|s| - |t|..] && IsBlank(s[..|s| - |t|])
    requires IsBlank(t)
    ensures IsBlank(s)
  {
    var k := |s| - |t|;
    forall i | 0 <= i < |s|
      ensures IsWhite(s[i])
    {
      if i < k {
        assert s[..k][i] == s[i];
      } else {
        assert t[i - k] == s[i];
      }
    }
  }

  /** A non-empty trimmed result starts at a character of `s` that is not white. */
  lemma TrimKeepsFirst(s: string, t: string, r: string)
    requires |t| <= |s| && t == s[|s| - |t|..] && (t == [] || !IsWhite(t[0]))
    requires r != [] && |r| <= |t| && r == t[..|r|]
    ensures !IsBlank(s) && !IsWhite(r[0])
  {
    assert t[0] == r[0];
    assert s[|s| - |t|] == t[0];
  }

  /**
   * Trimming keeps a slice of `s`: what precedes it and what follows it are blank, and by
   * `Trim`'s own contract the slice neither starts nor ends with white space.
   */
  lemma TrimIsSlice(s: string) returns (k: nat)
    ensures k + |Trim(s)| <= |s| && Trim(s) == s[k..k + |Trim(s)|]
    ensures IsBlank(s[..k]) && IsBlank(s[k + |Trim(s)|..])
  {
    TrimUnfold(s);
    k := SliceOfSlice(s, TrimStart(s), TrimEnd(TrimStart(s)), Trim(s));
  }

  lemma TrimUnfold(s: string)
    ensures Trim(s) == TrimEnd(TrimStart(s))
  {
  }

  /**
   * A prefix `r` of a suffix `t` of `s` is the slice of `s` that starts where `t` does, and
   * blank stretches around them stay blank; `q` is `r` under another name.
   */
  lemma SliceOfSlice(s: string, t: string, r: string, q: string) returns (k: nat)
    requires |t| <= |s| && t == s[|s| - |t|..] && IsBlank(s[..|s| - |t|])
    requires |r| <= |t| && r == t[..|r|] && IsBlank(t[|r|..])
    requires q == r
    ensures k + |q| <= |s| && q == s[k..k + |q|]
    ensures IsBlank(s[..k]) && IsBlank(s[k + |q|..])
  {
    k := |s| - |t|;
    assert s[k + |q|..] == t[|r|..];
  }

  /** Trimming a second time changes nothing. */
  lemma {:induction false} TrimIdempotent(s: string)
    ensures Trim(Trim(s)) == Trim(s)
  {
    var r := Trim(s);
    if r != [] {
      assert TrimStart(r) == r;
      assert TrimEnd(r) == r;
    }
  }

  /** `toLowerCase` on one character: ASCII and Latin-1 capitals move down by 0x20. */
  function LowerChar(c: char): char {
    if 'A' <= c <= 'Z' || ('\U{C0}' <= c <= '\U{DE}' && c != '\U{D7}') then (c as int + 32) as char else c
  }

  /** `toUpperCase` on one character: ASCII and Latin-1 small letters move up by 0x20. */
  function UpperChar(c: char): char {
    if 'a' <= c <= 'z' || ('\U{E0}' <= c <= '\U{FE}' && c != '\U{F7}') then (c as int - 32) as char else c
  }

  function ToLower(s: string): (r: string)
    ensures |r| == |s|
  {
    seq(|s|, i requires 0 <= i < |s| => LowerChar(s[i]))
  }

  function ToUpper(s: string): (r: string)
    ensures |r| == |s|
  {
    seq(|s|, i requires 0 <= i < |s| => UpperChar(s[i]))
  }

  /** Lower-casing is idempotent, so comparing lower-cased strings is stable. */
  lemma ToLowerIdempotent(s: string)
    ensures ToLower(ToLower(s)) == ToLower(s)
  {
  }

  /** Case mapping never turns white space into something else, nor anything else into white space. */
  lemma UpperKeepsWhite(c: char)
    ensures IsWhite(UpperChar(c)) <==> IsWhite(c)
  {
  }

  /** `s.includes(sub)`. */
  predicate Contains(s: string, sub: string) {
    exists i :: 0 <= i <= |s| && OccursAt(s, sub, i)
  }

  /** `sub` appears in `s` starting at position `i`. */
  predicate OccursAt(s: string, sub: string, i: nat) {
    i + |sub| <= |s| && s[i..i + |sub|] == sub
  }

  /** Every string includes the empty string. */
  lemma ContainsEmpty(s: string)
    ensures Contains(s, "")
  {
    assert OccursAt(s, "", 0);
  }

  lemma ContainsSelf(s: string)
    ensures Contains(s, s)
  {
    assert OccursAt(s, s, 0);
  }

  /** A string that includes `b` includes everything `b` includes. */
  lemma ContainsTransitive(a: string, b: string, c: string)
    requires Contains(a, b) && Contains(b, c)
    ensures Contains(a, c)
  {
    var i: nat :| i <= |a| && OccursAt(a, b, i);
    var j: nat :| j <= |b| && OccursAt(b, c, j);
    assert a[i..i + |b|][j..j + |c|] == c;
    forall k | 0 <= k < |c|
      ensures a[i + j..i + j + |c|][k] == c[k]
    {
      assert a[i..i + |b|][j + k] == a[i + j + k];
    }
    assert OccursAt(a, c, i + j);
  }

  /** `s.startsWith(p)`. */
  predicate StartsWith(s: string, p: string) {
    p <= s
  }

  /** Position of the first `c` in `s`. */
  function IndexOf(s: string, c: char): (i: nat)
    requires c in s
    ensures i < |s| && s[i] == c && c !in s[..i]
  {
    if s[0] == c then 0
    else
      var i := 1 + IndexOf(s[1..], c);
      assert s[..i] == [s[0]] + s[1..][..i - 1];
      i
  }

  /** `s.split(sep)` for a one-character separator: never empty (`SplitPiecesFree`: no piece holds it). */
  function Split(s: string, sep: char): (parts: seq<string>)
    ensures |parts| >= 1
    decreases |s|
  {
    if sep in s then
      var i := IndexOf(s, sep);
      [s[..i]] + Split(s[i + 1..], sep)
    else [s]
  }

  /** No piece of a split holds the separator. */
  lemma {:induction false} SplitPiecesFree(s: string, sep: char)
    ensures forall k :: 0 <= k < |Split(s, sep)| ==> sep !in Split(s, sep)[k]
    decreases |s|
  {
    if sep in s {
      var i := IndexOf(s, sep);
      SplitPiecesFree(s[i + 1..], sep);
      var rest := Split(s[i + 1..], sep);
      forall k | 0 <= k < |Split(s, sep)|
        ensures sep !in Split(s, sep)[k]
      {
        if k > 0 {
          assert Split(s, sep)[k] == rest[k - 1];
        }
      }
    }
  }

  /** `parts.join(sep)`. */
  function Join(parts: seq<string>, sep: char): string {
    if |parts| == 0 then ""
    else if |parts| == 1 then parts[0]
    else parts[0] + [sep] + Join(parts[1..], sep)
  }

  /** Splitting and joining back on the same separator gives the string again. */
  lemma {:induction false} JoinSplit(s: string, sep: char)
    ensures Join(Split(s, sep), sep) == s
    decreases |s|
  {
    if sep in s {
      var i := IndexOf(s, sep);
      JoinSplit(s[i + 1..], sep);
      Around(s, i);
    }
  }

  /** A sequence is what comes before position `i`, the element there and what follows. */
  lemma Around<T>(s: seq<T>, i: nat)
    requires i < |s|
    ensures s == s[..i] + [s[i]] + s[i + 1..]
  {
  }

  lemma AppendAssoc<T>(x: seq<T>, y: seq<T>, z: seq<T>)
    ensures x + (y + z) == (x + y) + z
  {
  }

  /** Joining pieces free of the separator and splitting again gives the pieces back. */
  lemma {:induction false} SplitJoin(parts: seq<string>, sep: char)
    requires |parts| >= 1
    requires forall k :: 0 <= k < |parts| ==> sep !in parts[k]
    ensures Split(Join(parts, sep), sep) == parts
  {
    if |parts| > 1 {
      var s := Join(parts, sep);
      var rest := Join(parts[1..], sep);
      assert s == parts[0] + [sep] + rest;
      assert s[|parts[0]|] == sep;
      var i := IndexOf(s, sep);
      assert s[..|parts[0]|] == parts[0];
      assert i == |parts[0]|;
      assert s[..i] == parts[0];
      assert s[i + 1..] == rest;
      SplitJoin(parts[1..], sep);
    }
  }

  /** The first separator is at `j` when `s[j]` is one and none comes before it. */
  lemma {:induction false} IndexOfAt(s: string, c: char, j: nat)
    requires j < |s| && s[j] == c && c !in s[..j]
    ensures IndexOf(s, c) == j
  {
    if j > 0 {
      assert s[0] == s[..j][0];
      assert s[1..][..j - 1] == s[1..j];
      assert forall k :: 0 <= k < j - 1 ==> s[1..j][k] == s[..j][k + 1];
      IndexOfAt(s[1..], c, j - 1);
    }
  }

  /** The first piece of a split is `name` exactly when the string is `name` or starts with `name` and the separator. */
  lemma SplitHead(s: string, sep: char, name: string)
    requires sep !in name
    ensures Split(s, sep)[0] == name <==> s == name || StartsWith(s, name + [sep])
  {
    if sep in s {
      var i := IndexOf(s, sep);
      assert Split(s, sep)[0] == s[..i];
      if StartsWith(s, name + [sep]) {
        assert s[..|name|] == name;
        IndexOfAt(s, sep, |name|);
      }
      if s[..i] == name {
        assert s[..i + 1] == name + [sep];
      }
    } else {
      assert |s| > |name| ==> s[|name|] != sep;
    }
  }

  /** Splitting a piece, the separator and a rest gives the piece followed by the rest's pieces. */
  lemma SplitCons(a: string, sep: char, b: string)
    requires sep !in a
    ensures Split(a + [sep] + b, sep) == [a] + Split(b, sep)
  {
    var s := a + [sep] + b;
    assert s[..|a|] == a;
    IndexOfAt(s, sep, |a|);
    assert s[|a| + 1..] == b;
  }

  /** Cutting `a` at a separator at `i` and regrouping `a + [x] + b` around the same cut. */
  lemma Regroup<T>(a: seq<T>, x: T, b: seq<T>, i: nat)
    requires i < |a| && a[i] == x
    ensures a == a[..i] + [x] + a[i + 1..]
    ensures a + [x] + b == a[..i] + [x] + (a[i + 1..] + [x] + b)
  {
    Around(a, i);
  }

  /** Splitting a string, the separator and a last piece gives the string's pieces followed by that piece. */
  lemma {:induction false} SplitSnoc(a: string, sep: char, b: string)
    requires sep !in b
    ensures Split(a + [sep] + b, sep) == Split(a, sep) + [b]
    decreases |a|
  {
    if sep in a {
      var i := IndexOf(a, sep);
      var x, y := a[..i], a[i + 1..];
      Regroup(a, sep, b, i);
      SplitCons(x, sep, y);
      SplitCons(x, sep, y + [sep] + b);
      SplitSnoc(y, sep, b);
      AppendAssoc([x], Split(y, sep), [b]);
    } else {
      SplitCons(a, sep, b);
    }
  }

  predicate IsDigit(c: char) {
    '0' <= c <= '9'
  }

  predicate AllDigits(s: string) {
    forall i :: 0 <= i < |s| ==> IsDigit(s[i])
  }

  function DigitValue(c: char): nat
    requires IsDigit(c)
  {
    c as int - '0' as int
  }

  function DigitChar(d: nat): (c: char)
    requires d < 10
    ensures IsDigit(c) && DigitValue(c) == d
  {
    ('0' as int + d) as char
  }

  /** The decimal value of a digit string, most significant digit first. */
  function DigitsValue(ds: string): nat
    requires AllDigits(ds)
  {
    if ds == [] then 0 else DigitsValue(ds[..|ds| - 1]) * 10 + DigitValue(ds[|ds| - 1])
  }

  /** `String(n)` for a non-negative integer: a non-empty digit string whose value is `n`. */
  function NatToString(n: nat): (s: string)
    ensures |s| >= 1 && AllDigits(s)
    ensures DigitsValue(s) == n
  {
    if n < 10 then [DigitChar(n)]
    else
      var s := NatToString(n / 10) + [DigitChar(n % 10)];
      assert s[..|s| - 1] == NatToString(n / 10);
      s
  }

  /** `String(n)` for any integer. */
  function IntToString(n: int): string {
    if n < 0 then "-" + NatToString(-n) else NatToString(n)
  }

  /** The longest prefix made of decimal digits. */
  function LeadingDigits(s: string): (r: string)
    ensures AllDigits(r) && r <= s
    ensures |r| == |s| || !IsDigit(s[|r|])
  {
    if s != [] && IsDigit(s[0]) then [s[0]] + LeadingDigits(s[1..]) else []
  }

  /** A JavaScript number as far as `parseInt` can produce one. */
  datatype Number = NaN | Num(value: int)

  /** The number counts as true in a condition: neither NaN nor zero. */
  predicate Truthy(n: Number) {
    n.Num? && n.value != 0
  }

  /** `parseInt(s, 10)`: leading white space, an optional sign, then at least one decimal digit. */
  function ParseInt(s: string): (r: Number)
  {
    var t := TrimStart(s);
    var negative := t != [] && t[0] == '-';
    var rest := if t != [] && (t[0] == '-' || t[0] == '+') then t[1..] else t;
    var ds := LeadingDigits(rest);
    if ds == [] then NaN
    else if negative then Num(-(DigitsValue(ds) as int))
    else Num(DigitsValue(ds))
  }

  /** `String(n)` is read back by `parseInt` as `n`. */
  lemma ParseNatToString(n: nat)
    ensures ParseInt(NatToString(n)) == Num(n)
  {
    ParseIntDigits(NatToString(n));
  }

  /** `parseInt` reads a non-empty digit string as its decimal value. */
  lemma ParseIntDigits(s: string)
    requires s != [] && AllDigits(s)
    ensures ParseInt(s) == Num(DigitsValue(s))
  {
    TrimStartKeeps(s);
    AllDigitsLeading(s);
  }

  /** `parseInt` of text that starts with a digit reads the digits up to the first other character. */
  lemma ParseIntLeading(s: string)
    requires s != [] && IsDigit(s[0])
    ensures ParseInt(s) == Num(DigitsValue(LeadingDigits(s)))
  {
    TrimStartKeeps(s);
  }

  lemma TrimStartKeeps(s: string)
    requires s != [] && !IsWhite(s[0])
    ensures TrimStart(s) == s
  {
  }

  lemma TrimEndKeeps(s: string)
    requires s != [] && !IsWhite(s[|s| - 1])
    ensures TrimEnd(s) == s
  {
  }

  /** `String(n)` for a negative integer is read back by `parseInt` as well. */
  lemma ParseIntToString(n: int)
    ensures ParseInt(IntToString(n)) == Num(n)
  {
    if n < 0 {
      var d := NatToString(-n);
      var s := "-" + d;
      NegativeDigits(d);
    } else {
      ParseNatToString(n);
    }
  }

  lemma NegativeDigits(d: string)
    requires d != [] && AllDigits(d)
    ensures ParseInt("-" + d) == Num(-(DigitsValue(d) as int))
  {
    var s := "-" + d;
    TrimStartKeeps(s);
    assert s[1..] == d;
    AllDigitsLeading(d);
  }

  lemma {:induction false} AllDigitsLeading(s: string)
    requires AllDigits(s)
    ensures LeadingDigits(s) == s
  {
    if s != [] {
      AllDigitsLeading(s[1..]);
    }
  }

  /** No digit at all: `parseInt` gives NaN. */
  lemma ParseIntNoDigit(s: string)
    requires forall i :: 0 <= i < |s| ==> !IsDigit(s[i])
    ensures ParseInt(s) == NaN
  {
    var t := TrimStart(s);
    if t != [] && (t[0] == '-' || t[0] == '+') {
      assert t[1..] == [] || t[1..][0] == s[|s| - |t| + 1];
    } else {
      assert t == [] || t[0] == s[|s| - |t|];
    }
  }

  /** Where the first decimal digit of `s` is, or `|s|` when there is none. */
  function FirstDigitAt(s: string): (k: nat)
    ensures k <= |s| && (k < |s| ==> IsDigit(s[k]))
    ensures forall j :: 0 <= j < k ==> !IsDigit(s[j])
  {
    if s == [] || IsDigit(s[0]) then 0 else 1 + FirstDigitAt(s[1..])
  }

  /**
   * The first maximal run of decimal digits, as `s.match(/\d+/g)[0]`; `None` when `s` has no digit.
   * The run starts at the first digit and takes every digit after it.
   */
  function FirstDigitRun(s: string): (r: Option<string>)
    ensures r.None? <==> forall i :: 0 <= i < |s| ==> !IsDigit(s[i])
    ensures r.Some? ==> r.value != [] && AllDigits(r.value) && Contains(s, r.value)
    ensures r.Some? ==> FirstDigitAt(s) < |s| && r.value == LeadingDigits(s[FirstDigitAt(s)..])
  {
    if s == [] then None
    else if IsDigit(s[0]) then
      var d := LeadingDigits(s);
      assert OccursAt(s, d, 0);
      Some(d)
    else
      var r := FirstDigitRun(s[1..]);
      DigitRunShift(s, r);
      assert s[FirstDigitAt(s)..] == s[1..][FirstDigitAt(s[1..])..];
      r
  }

  lemma DigitRunShift(s: string, r: Option<string>)
    requires s != [] && !IsDigit(s[0])
    requires r.None? <==> forall i :: 0 <= i < |s[1..]| ==> !IsDigit(s[1..][i])
    requires r.Some? ==> r.value != [] && AllDigits(r.value) && Contains(s[1..], r.value)
    ensures r.None? <==> forall i :: 0 <= i < |s| ==> !IsDigit(s[i])
    ensures r.Some? ==> Contains(s, r.value)
  {
    if r.Some? {
      var i: nat :| i <= |s[1..]| && OccursAt(s[1..], r.value, i);
      assert s[i + 1..i + 1 + |r.value|] == s[1..][i..i + |r.value|];
      assert OccursAt(s, r.value, i + 1);
    } else {
      assert forall i :: 1 <= i < |s| ==> s[i] == s[1..][i - 1];
    }
  }

  /** `s.padStart(2, '0')`. */
  function PadStart2(s: string): (r: string)
    ensures |r| == if |s| >= 2 then |s| else 2
    ensures r[|r| - |s|..] == s
    ensures forall i :: 0 <= i < |r| - |s| ==> r[i] == '0'
  {
    if |s| >= 2 then s else if |s| == 1 then "0" + s else "00"
  }
}
