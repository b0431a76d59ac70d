/** Character classes, string helpers and number parsing of the .NET library calls the
    interpreter relies on (Char.IsWhiteSpace, String.Trim, String.Split, String.Replace,
    Int32.Parse, Single.Parse, ToString), stated on Dafny strings. */
module Text {

  datatype Option<T> = None | Some(value: T)

  /** Char.IsWhiteSpace, which is also the regex class \s: U+0009..U+000D, U+0020, U+0085,
      U+00A0 and the Unicode space, line and paragraph separators. */
  predicate IsWhiteSpace(c: char) {
    var n := c as int;
    (9 <= n <= 13) || n == 0x20 || n == 0x85 || n == 0xA0 || n == 0x1680
    || (0x2000 <= n <= 0x200A) || n == 0x2028 || n == 0x2029 || n == 0x202F
    || n == 0x205F || n == 0x3000
  }

  predicate IsDigit(c: char) { '0' <= c <= '9' }
  predicate IsLetter(c: char) { 'a' <= c <= 'z' || 'A' <= c <= 'Z' }
  predicate IsAlnum(c: char) { IsLetter(c) || IsDigit(c) }
  /** The regex class \w. */
  predicate IsWordChar(c: char) { IsAlnum(c) || c == '_' }

  predicate AllWhiteSpace(s: string) { forall i | 0 <= i < |s| :: IsWhiteSpace(s[i]) }
  predicate AllDigits(s: string) { forall i | 0 <= i < |s| :: IsDigit(s[i]) }
  predicate AllAlnum(s: string) { forall i | 0 <= i < |s| :: IsAlnum(s[i]) }

  /** String.TrimStart(): drops the leading white space and nothing else. */
  function TrimStart(s: string): (r: string)
    ensures |r| <= |s| && r == s[|s| - |r|..]
    ensures AllWhiteSpace(s[..|s| - |r|])
    ensures r == [] || !IsWhiteSpace(r[0])
    decreases |s|
  {
    if |s| > 0 && IsWhiteSpace(s[0]) then
      var r := TrimStart(s[1..]);
      TrimStartStep(s, r);
      r
    else s
  }

  /** String.TrimEnd(): drops the trailing white space and nothing else. */
  function TrimEnd(s: string): (r: string)
    ensures |r| <= |s| && r == s[..|r|]
    ensures AllWhiteSpace(s[|r|..])
    ensures r == [] || !IsWhiteSpace(r[|r| - 1])
    decreases |s|
  {
    if |s| > 0 && IsWhiteSpace(s[|s| - 1]) then
      var r := TrimEnd(s[..|s| - 1]);
      TrimEndStep(s, r);
      r
    else s
  }

  lemma TrimStartStep(s: string, r: string)
    requires |s| > 0 && IsWhiteSpace(s[0])
    requires |r| <= |s| - 1 && r == s[1..][|s| - 1 - |r|..]
    requires AllWhiteSpace(s[1..][..|s| - 1 - |r|])
    ensures r == s[|s| - |r|..] && AllWhiteSpace(s[..|s| - |r|])
  {
    assert s[..|s| - |r|] == [s[0]] + s[1..][..|s| - 1 - |r|];
  }

  lemma TrimEndStep(s: string, r: string)
    requires |s| > 0 && IsWhiteSpace(s[|s| - 1])
    requires |r| <= |s| - 1 && r == s[..|s| - 1][..|r|]
    requires AllWhiteSpace(s[..|s| - 1][|r|..])
    ensures r == s[..|r|] && AllWhiteSpace(s[|r|..])
  {
    assert s[|r|..] == s[..|s| - 1][|r|..] + [s[|s| - 1]];
  }

  /** String.Trim(). */
  function Trim(s: string): string {
    TrimEnd(TrimStart(s))
  }

  /** Index of the first occurrence of c, or -1 (String.IndexOf(char)). */
  function IndexOf(s: string, c: char): (k: int)
    ensures -1 <= k < |s|
    ensures k == -1 <==> c !in s
    ensures k >= 0 ==> s[k] == c && c !in s[..k]
  {
    if |s| == 0 then -1
    else if s[0] == c then 0
    else
      var k := IndexOf(s[1..], c);
      if k == -1 then -1
      else
        assert s[..k + 1] == [s[0]] + s[1..][..k];
        k + 1
  }

  /** String.Join(sep, parts): the parts with sep between each two. */
  function Join(parts: seq<string>, sep: string): string
    decreases |parts|
  {
    if |parts| == 0 then ""
    else if |parts| == 1 then parts[0]
    else parts[0] + sep + Join(parts[1..], sep)
  }

  /** Regex.Split(s, "c") for a single literal character c: the pieces between the
      occurrences of c (SplitJoin: joined with c they give back s). */
  function Split(s: string, c: char): (parts: seq<string>)
    ensures |parts| >= 1
    ensures forall i | 0 <= i < |parts| :: c !in parts[i]
    ensures |parts| == 1 <==> c !in s
    decreases |s|
  {
    var k := IndexOf(s, c);
    if k == -1 then [s] else [s[..k]] + Split(s[k + 1..], c)
  }

  /** Joining the parts of Split with the separator gives back the input. */
  lemma {:induction false} SplitJoin(s: string, c: char)
    ensures Join(Split(s, c), [c]) == s
    decreases |s|
  {
    var k := IndexOf(s, c);
    if k != -1 {
      var front, back := s[..k], s[k + 1..];
      var rest := Split(back, c);
      assert Split(s, c) == [front] + rest;
      SplitJoin(back, c);
      JoinCons(front, rest, [c]);
      Rejoin(s, k);
    }
  }

  lemma Rejoin(s: string, k: nat)
    requires k < |s|
    ensures s[..k] + [s[k]] + s[k + 1..] == s
  {
  }

  lemma JoinCons(p: string, rest: seq<string>, sep: string)
    requires |rest| >= 1
    ensures Join([p] + rest, sep) == p + sep + Join(rest, sep)
  {
    assert ([p] + rest)[1..] == rest;
  }

  /** String.Replace(pat, rep), scanning left to right without overlaps. */
  function Replace(s: string, pat: string, rep: string): string
    requires |pat| > 0
    decreases |s|
  {
    if |s| < |pat| then s
    else if s[..|pat|] == pat then rep + Replace(s[|pat|..], pat, rep)
    else [s[0]] + Replace(s[1..], pat, rep)
  }

  /** Whether t occurs in s as a contiguous piece (String.Contains(string)); the empty string
      occurs in every string. */
  predicate Occurs(t: string, s: string)
    decreases |s|
  {
    (|t| <= |s| && s[..|t|] == t) || (|s| > 0 && Occurs(t, s[1..]))
  }

  /** Decimal value of a run of ASCII digits (each character counts as its distance from
      '0'). */
  function DigitsValue(s: string): int
    decreases |s|
  {
    if s == [] then 0 else DigitsValue(s[..|s| - 1]) * 10 + (s[|s| - 1] as int - '0' as int)
  }

  function DigitChar(d: nat): (c: char)
    requires d < 10
    ensures IsDigit(c) && c as int - '0' as int == d
  {
    ('0' as int + d) as char
  }

  /** Int32.ToString() for a non-negative number: shortest decimal digits. */
  function NatToString(n: nat): (s: string)
    ensures |s| > 0 && AllDigits(s) && DigitsValue(s) == n
    ensures |s| > 1 ==> s[0] != '0'
    decreases n
  {
    if n < 10 then [DigitChar(n)]
    else
      var p := NatToString(n / 10);
      var s := p + [DigitChar(n % 10)];
      assert s[..|s| - 1] == p;
      s
  }

  function IntToString(i: int): string {
    if i < 0 then "-" + NatToString(-i) else NatToString(i)
  }

  /** The white space Int32.Parse and Single.Parse skip around a number. */
  predicate IsNumberSpace(c: char) { c == ' ' || 9 <= c as int <= 13 }

  function SkipNumberSpace(s: string): (r: string)
    ensures |r| <= |s|
    decreases |s|
  {
    if |s| > 0 && IsNumberSpace(s[0]) then SkipNumberSpace(s[1..]) else s
  }

  function DropNumberSpaceEnd(s: string): (r: string)
    ensures |r| <= |s|
    decreases |s|
  {
    if |s| > 0 && IsNumberSpace(s[|s| - 1]) then DropNumberSpaceEnd(s[..|s| - 1]) else s
  }

  const Int32Min: int := -0x8000_0000
  const Int32Max: int := 0x7FFF_FFFF

  /** Int32.Parse: optional surrounding white space, an optional sign, one or more ASCII
      digits, and a value inside the 32-bit range; None where Int32.Parse throws. */
  function ParseInt32(s: string): (r: Option<int>)
    ensures r.Some? ==> Int32Min <= r.value <= Int32Max
  {
    var t := DropNumberSpaceEnd(SkipNumberSpace(s));
    var negative := |t| > 0 && t[0] == '-';
    var digits := if |t| > 0 && (t[0] == '-' || t[0] == '+') then t[1..] else t;
    if |digits| == 0 || !AllDigits(digits) then None
    else
      var n: int := DigitsValue(digits);
      var v := if negative then -n else n;
      if Int32Min <= v <= Int32Max then Some(v) else None
  }

  /** Int32.Parse reads back what Int32.ToString wrote, with any white space around it. */
  lemma ParseInt32OfText(pre: string, i: int, post: string)
    requires Int32Min <= i <= Int32Max
    requires forall k | 0 <= k < |pre| :: IsNumberSpace(pre[k])
    requires forall k | 0 <= k < |post| :: IsNumberSpace(post[k])
    ensures ParseInt32(pre + IntToString(i) + post) == Some(i)
  {
    var x := IntToString(i);
    var d := NatToString(if i < 0 then -i else i);
    assert IsDigit(d[0]) && IsDigit(d[|d| - 1]);
    assert x[0] == '-' || IsDigit(x[0]);
    assert x[|x| - 1] == d[|d| - 1];
    SkipSpaceFront(pre, x + post);
    assert pre + x + post == pre + (x + post);
    DropSpaceEnd(x, post);
    ParseCanonical(pre + x + post, i);
  }

  /** The number text left after the white space is dropped is the canonical text of i. */
  lemma ParseCanonical(s: string, i: int)
    requires Int32Min <= i <= Int32Max
    requires DropNumberSpaceEnd(SkipNumberSpace(s)) == IntToString(i)
    ensures ParseInt32(s) == Some(i)
  {
    if i < 0 {
      var x := IntToString(i);
      assert x[1..] == NatToString(-i);
    }
  }

  lemma {:induction false} SkipSpaceFront(pre: string, x: string)
    requires forall k | 0 <= k < |pre| :: IsNumberSpace(pre[k])
    requires |x| > 0 && !IsNumberSpace(x[0])
    ensures SkipNumberSpace(pre + x) == x
    decreases |pre|
  {
    if pre == [] {
      assert pre + x == x;
    } else {
      assert (pre + x)[1..] == pre[1..] + x;
      SkipSpaceFront(pre[1..], x);
    }
  }

  lemma {:induction false} DropSpaceEnd(x: string, post: string)
    requires forall k | 0 <= k < |post| :: IsNumberSpace(post[k])
    requires |x| > 0 && !IsNumberSpace(x[|x| - 1])
    ensures DropNumberSpaceEnd(x + post) == x
    decreases |post|
  {
    if post == [] {
      assert x + post == x;
    } else {
      var q := post[..|post| - 1];
      assert (x + post)[..|x + post| - 1] == x + q;
      DropSpaceEnd(x, q);
    }
  }

  function Pow10(k: nat): (p: nat)
    ensures p >= 1
  {
    if k == 0 then 1 else 10 * Pow10(k - 1)
  }

  /** Single.Parse / Double.Parse on plain decimal notation: optional surrounding white space,
      an optional sign, digits with at most one decimal point and at least one digit. */
  function ParseFloat(s: string): Option<real> {
    var t := DropNumberSpaceEnd(SkipNumberSpace(s));
    if |t| > 0 && t[0] == '-' then
      match Decimal(t[1..], 0, 1, false, false)
      case None => None
      case Some(v) => Some(-v)
    else if |t| > 0 && t[0] == '+' then Decimal(t[1..], 0, 1, false, false)
    else Decimal(t, 0, 1, false, false)
  }

  /** The value of the digits and decimal point still to read in b, given the digits read so
      far as one integer `acc`, `scale` the power of ten their fraction part spans, whether
      the point has been read and whether any digit has. */
  function Decimal(b: string, acc: nat, scale: nat, point: bool, digit: bool): Option<real>
    requires scale >= 1
    decreases |b|
  {
    if |b| == 0 then (if digit then Some(acc as real / scale as real) else None)
    else if IsDigit(b[0]) then
      Decimal(b[1..], acc * 10 + (b[0] as int - '0' as int), if point then scale * 10 else scale, point, true)
    else if b[0] == '.' && !point then Decimal(b[1..], acc, scale, true, digit)
    else None
  }

  lemma {:induction false} DigitsValueCons(s: string)
    requires |s| > 0
    ensures DigitsValue(s) == (s[0] as int - '0' as int) * Pow10(|s| - 1) + DigitsValue(s[1..])
    decreases |s|
  {
    if |s| > 1 {
      var p := s[..|s| - 1];
      DigitsValueCons(p);
      DigitsValueTail(s, p);
      ShiftDigit(s[0] as int - '0' as int, Pow10(|s| - 2), DigitsValue(p[1..]), s[|s| - 1] as int - '0' as int);
    } else {
      assert s[..0] == [] && s[1..] == [];
    }
  }

  lemma DigitsValueTail(s: string, p: string)
    requires |s| > 1 && p == s[..|s| - 1]
    ensures p[0] == s[0]
    ensures DigitsValue(s[1..]) == DigitsValue(p[1..]) * 10 + (s[|s| - 1] as int - '0' as int)
  {
    assert s[1..][..|s| - 2] == p[1..];
  }

  lemma ShiftDigit(a: int, b: int, c: int, e: int)
    ensures (a * b + c) * 10 + e == a * (10 * b) + (c * 10 + e)
  {
  }

  /** A run of digits with no point read so far shifts the digits read so far left by its
      length and adds its own value. */
  lemma {:induction false} DecimalOfDigits(b: string, acc: nat)
    requires AllDigits(b)
    ensures Decimal(b, acc, 1, false, true) == Some((acc * Pow10(|b|) + DigitsValue(b)) as real)
    decreases |b|
  {
    if |b| > 0 {
      var d := b[0] as int - '0' as int;
      DecimalOfDigits(b[1..], acc * 10 + d);
      DigitsValueCons(b);
      ShiftAcc(acc, d, Pow10(|b| - 1), DigitsValue(b[1..]));
    }
  }

  lemma ShiftAcc(acc: int, d: int, q: int, r: int)
    ensures (acc * 10 + d) * q + r == acc * (10 * q) + (d * q + r)
  {
  }

  lemma {:induction false} ParseFloatOfDigits(s: string)
    requires |s| > 0 && AllDigits(s)
    ensures ParseFloat(s) == Some(DigitsValue(s) as real)
  {
    assert SkipNumberSpace(s) == s;
    assert DropNumberSpaceEnd(s) == s;
    var d := s[0] as int - '0' as int;
    DecimalOfDigits(s[1..], d);
    DigitsValueCons(s);
  }
}
