/** The standalone calculator: Parser.Parse turns a string into number and operator
    elements, InfixToPostfix reorders them by a precedence table (a lower number binds
    tighter), PostFixEvaluator runs the postfix sequence on a stack, and Calculate chains
    the three. Each class keeps its working list or stack in an instance field. */
module Calculator {
  import opened Text

  datatype OperatorType = Multiply | Divide | Add | Subtract | Exponential | OParen | CParen

  /** A NumberElement holds the double its digits parse to; an OperatorElement its character,
      from which its constructor derives its operator type. */
  datatype Element = NumberElement(number: real) | OperatorElement(c: char)
  {
    function Kind(): OperatorType
      requires OperatorElement?
    {
      KindOf(c)
    }
  }

  /** The OperatorElement constructor: a character it does not list keeps the enum's default
      value, MULTIPLY. */
  function KindOf(c: char): OperatorType {
    if c == '+' then Add
    else if c == '-' then Subtract
    else if c == '*' then Multiply
    else if c == '/' then Divide
    else if c == '^' then Exponential
    else if c == '(' then OParen
    else if c == ')' then CParen
    else Multiply
  }

  predicate IsOperatorChar(c: char) {
    c == '+' || c == '-' || c == '*' || c == '/' || c == '^' || c == '(' || c == ')'
  }

  predicate IsParen(x: Element) { x.OperatorElement? && (x.Kind() == OParen || x.Kind() == CParen) }

  /** A sequence in pop order: its last element first. */
  function Reverse<T>(s: seq<T>): (r: seq<T>)
    ensures |r| == |s|
  {
    if s == [] then [] else [s[|s| - 1]] + Reverse(s[..|s| - 1])
  }

  // ---------------------------------------------------------------- Parser.Parse

  function DigitRun(s: string): (n: nat)
    ensures n <= |s| && AllDigits(s[..n])
    ensures n < |s| ==> !IsDigit(s[n])
    ensures |s| > 0 && IsDigit(s[0]) ==> n > 0
  {
    if |s| > 0 && IsDigit(s[0]) then
      var n := 1 + DigitRun(s[1..]);
      assert s[..n] == [s[0]] + s[1..][..n - 1];
      n
    else 0
  }

  /** The elements Parse emits for s: one number per maximal run of digits, one operator per
      operator character, in order; any other character emits nothing. */
  function Tokens(s: string): seq<Element>
    decreases |s|
  {
    if s == [] then []
    else if IsDigit(s[0]) then
      var n := DigitRun(s);
      [NumberElement(DigitsValue(s[..n]) as real)] + Tokens(s[n..])
    else if IsOperatorChar(s[0]) then [OperatorElement(s[0])] + Tokens(s[1..])
    else Tokens(s[1..])
  }

  lemma {:induction false} DigitRunAll(d: string)
    requires AllDigits(d)
    ensures DigitRun(d) == |d|
    decreases |d|
  {
    if |d| > 0 {
      DigitRunAll(d[1..]);
    }
  }

  lemma TokensOfDigits(d: string)
    requires |d| > 0 && AllDigits(d)
    ensures Tokens(d) == [NumberElement(DigitsValue(d) as real)]
  {
    DigitRunAll(d);
    assert d[..|d|] == d;
  }

  lemma {:induction false} DigitRunPrefix(a: string, b: string, n: nat)
    requires n == DigitRun(a)
    requires n < |a| || b == [] || !IsDigit(b[0])
    ensures DigitRun(a + b) == n
    decreases |a|
  {
    if |a| > 0 && IsDigit(a[0]) {
      assert (a + b)[1..] == a[1..] + b;
      DigitRunPrefix(a[1..], b, n - 1);
    } else if |a| == 0 {
      assert a + b == b;
    }
  }

  lemma TokensDigitCase(a: string, b: string, n: nat)
    requires |a| > 0 && IsDigit(a[0]) && n == DigitRun(a)
    requires n < |a| || b == [] || !IsDigit(b[0])
    ensures Tokens(a + b) == [NumberElement(DigitsValue(a[..n]) as real)] + Tokens(a[n..] + b)
  {
    DigitRunPrefix(a, b, n);
    SplitAt(a, b, n);
    TokensOfRun(a + b, n);
  }

  lemma SplitAt(a: string, b: string, n: nat)
    requires 0 < n <= |a|
    ensures (a + b)[0] == a[0] && (a + b)[..n] == a[..n] && (a + b)[n..] == a[n..] + b
  {
  }

  /** Tokens distributes over a concatenation whose seam does not split a run of digits. */
  lemma {:induction false} TokensAppend(a: string, b: string)
    requires a == [] || b == [] || !IsDigit(a[|a| - 1]) || !IsDigit(b[0])
    ensures Tokens(a + b) == Tokens(a) + Tokens(b)
    decreases |a|, 1
  {
    if a == [] {
      assert a + b == b;
    } else if IsDigit(a[0]) {
      TokensAppendRun(a, b, DigitRun(a));
    } else {
      TokensAppendOther(a, b);
    }
  }

  lemma {:induction false} TokensAppendRun(a: string, b: string, n: nat)
    requires |a| > 0 && IsDigit(a[0]) && n == DigitRun(a)
    requires b == [] || !IsDigit(a[|a| - 1]) || !IsDigit(b[0])
    ensures Tokens(a + b) == Tokens(a) + Tokens(b)
    decreases |a|, 0
  {
    TokensDigitCase(a, b, n);
    TokensOfRun(a, n);
    if n < |a| {
      TokensAppend(a[n..], b);
    } else {
      TokensAfterWhole(a, b, n);
    }
  }

  lemma TokensOfRun(a: string, n: nat)
    requires |a| > 0 && IsDigit(a[0]) && n == DigitRun(a)
    ensures Tokens(a) == [NumberElement(DigitsValue(a[..n]) as real)] + Tokens(a[n..])
  {
  }

  lemma TokensAfterWhole(a: string, b: string, n: nat)
    requires n == |a|
    ensures Tokens(a[n..] + b) == Tokens(a[n..]) + Tokens(b)
  {
    assert a[n..] == [];
    assert a[n..] + b == b;
  }

  lemma {:induction false} TokensAppendOther(a: string, b: string)
    requires |a| > 0 && !IsDigit(a[0])
    requires b == [] || !IsDigit(a[|a| - 1]) || !IsDigit(b[0])
    ensures Tokens(a + b) == Tokens(a) + Tokens(b)
    decreases |a|, 0
  {
    assert (a + b)[1..] == a[1..] + b;
    TokensAppend(a[1..], b);
  }

  /** Parser: `e` collects elements across calls; Parse appends to it and returns it. */
  class Parser {
    var e: seq<Element>

    constructor ()
      ensures e == []
    {
      e := [];
    }

    method Parse(s: string) returns (r: seq<Element>)
      modifies this
      ensures e == old(e) + Tokens(s) && r == e
    {
      var sb := "";
      ghost var done: seq<Element> := [];
      var i := 0;
      ParseStart(s);
      while i < |s|
        invariant 0 <= i && ParseInv(s, i, sb, done) && e == old(e) + done
      {
        var c := s[i];
        if IsDigit(c) {
          ParseDigitStep(s, i, sb, done);
          sb := sb + [c];
        } else {
          ParseOtherStep(s, i, sb, done);
        }
        if i + 1 < |s| {
          var d := s[i + 1];
          if !IsDigit(d) && |sb| > 0 {
            e := e + [NumberElement(DigitsValue(sb) as real)];
            done := done + [NumberElement(DigitsValue(sb) as real)];
            sb := "";
          }
        }
        if IsOperatorChar(c) {
          e := e + [OperatorElement(c)];
          done := done + [OperatorElement(c)];
        }
        i := i + 1;
      }
      ParseEnd(s, sb, done);
      if |sb| > 0 {
        e := e + [NumberElement(DigitsValue(sb) as real)];
      }
      r := e;
    }
  }

  /** The state of Parse's loop before position i: `sb` holds the digit run that ends at i,
      and `done` the elements of everything before that run. */
  ghost predicate ParseInv(s: string, i: nat, sb: string, done: seq<Element>) {
    && i <= |s| && |sb| <= i
    && EndsWith(s, i, sb) && AllDigits(sb)
    && (sb != [] ==> i - |sb| == 0 || !IsDigit(s[i - |sb| - 1]))
    && (sb != [] && i < |s| ==> IsDigit(s[i]))
    && (sb == [] && 0 < i < |s| && IsDigit(s[i - 1]) ==> !IsDigit(s[i]))
    && done == Tokens(s[..i - |sb|])
  }

  /** sb is the text of s that ends at i. */
  ghost predicate EndsWith(s: string, i: nat, sb: string)
    decreases |sb|
  {
    if sb == [] then true
    else 0 < i <= |s| && s[i - 1] == sb[|sb| - 1] && EndsWith(s, i - 1, sb[..|sb| - 1])
  }

  lemma {:induction false} EndsWithSlice(s: string, i: nat, sb: string)
    requires EndsWith(s, i, sb) && i <= |s|
    ensures |sb| <= i && s[i - |sb|..i] == sb
    decreases |sb|
  {
    if sb != [] {
      EndsWithSlice(s, i - 1, sb[..|sb| - 1]);
      assert s[i - |sb|..i] == s[i - |sb|..i - 1] + [s[i - 1]];
    }
  }

  lemma ParseStart(s: string)
    ensures ParseInv(s, 0, "", [])
  {
    assert s[..0] == [];
  }

  /** A digit extends the pending run, which Parse flushes when the next character is no
      digit. */
  lemma ParseDigitStep(s: string, i: nat, sb: string, done: seq<Element>)
    requires ParseInv(s, i, sb, done) && i < |s| && IsDigit(s[i])
    ensures i + 1 < |s| && !IsDigit(s[i + 1]) ==>
              ParseInv(s, i + 1, "", done + [NumberElement(DigitsValue(sb + [s[i]]) as real)])
    ensures !(i + 1 < |s| && !IsDigit(s[i + 1])) ==> ParseInv(s, i + 1, sb + [s[i]], done)
    ensures !IsOperatorChar(s[i])
  {
    EndsWithSlice(s, i, sb);
    RunGrows(s, i, sb);
    if i + 1 < |s| && !IsDigit(s[i + 1]) {
      TokensExtendRun(s, i - |sb|, i + 1);
    }
  }

  lemma RunGrows(s: string, i: nat, sb: string)
    requires EndsWith(s, i, sb) && |sb| <= i < |s| && s[i - |sb|..i] == sb
    requires AllDigits(sb) && IsDigit(s[i])
    ensures EndsWith(s, i + 1, sb + [s[i]]) && AllDigits(sb + [s[i]])
    ensures s[i - |sb|..i + 1] == sb + [s[i]]
  {
    assert (sb + [s[i]])[..|sb|] == sb;
    assert s[i - |sb|..i + 1] == s[i - |sb|..i] + [s[i]];
  }

  /** Any other character comes with no pending run, and adds its operator if it is one. */
  lemma ParseOtherStep(s: string, i: nat, sb: string, done: seq<Element>)
    requires ParseInv(s, i, sb, done) && i < |s| && !IsDigit(s[i])
    ensures sb == []
    ensures ParseInv(s, i + 1, "", if IsOperatorChar(s[i]) then done + [OperatorElement(s[i])] else done)
  {
    TokensExtendOther(s, i);
  }

  /** After the loop, the pending digit run is the last number. */
  lemma ParseEnd(s: string, sb: string, done: seq<Element>)
    requires ParseInv(s, |s|, sb, done)
    ensures |sb| > 0 ==> Tokens(s) == done + [NumberElement(DigitsValue(sb) as real)]
    ensures |sb| == 0 ==> Tokens(s) == done
  {
    if |sb| > 0 {
      EndsWithSlice(s, |s|, sb);
      ParseEndRun(s, |s| - |sb|, sb, done);
    } else {
      ParseEndEmpty(s, done);
    }
  }

  lemma ParseEndEmpty(s: string, done: seq<Element>)
    requires done == Tokens(s[..|s|])
    ensures Tokens(s) == done
  {
    assert s[..|s|] == s;
  }

  lemma ParseEndRun(s: string, j: nat, sb: string, done: seq<Element>)
    requires j < |s| && s[j..|s|] == sb && AllDigits(sb)
    requires j == 0 || !IsDigit(s[j - 1])
    requires done == Tokens(s[..j])
    ensures Tokens(s) == done + [NumberElement(DigitsValue(sb) as real)]
  {
    TokensExtendRun(s, j, |s|);
    assert s[..|s|] == s;
  }

  lemma TokensExtendRun(s: string, j: nat, k: nat)
    requires j < k <= |s| && AllDigits(s[j..k])
    requires j == 0 || !IsDigit(s[j - 1])
    ensures Tokens(s[..k]) == Tokens(s[..j]) + [NumberElement(DigitsValue(s[j..k]) as real)]
  {
    TokensOfDigits(s[j..k]);
    TokensAppend(s[..j], s[j..k]);
    assert s[..j] + s[j..k] == s[..k];
  }

  lemma TokensExtendOther(s: string, i: nat)
    requires i < |s| && !IsDigit(s[i])
    ensures Tokens(s[..i + 1]) == Tokens(s[..i]) + (if IsOperatorChar(s[i]) then [OperatorElement(s[i])] else [])
  {
    assert s[..i + 1] == s[..i] + [s[i]];
    TokensAppend(s[..i], [s[i]]);
    assert [s[i]][1..] == [];
  }

  // ---------------------------------------------------------------- InfixToPostfix

  const Int32MaxValue: int := 0x7FFF_FFFF

  /** Precedence: a lower number binds tighter; parentheses get Int32.MaxValue. */
  function Precedence(k: OperatorType): int {
    if k == Exponential then 2
    else if k == Multiply || k == Divide then 3
    else if k == Add || k == Subtract then 4
    else Int32MaxValue
  }

  predicate AllOperators(st: seq<Element>) { forall i | 0 <= i < |st| :: st[i].OperatorElement? }

  /** The operator stack (top last) and the converted list. */
  datatype Shunt = Shunt(st: seq<Element>, out: seq<Element>)

  /** ProcessOperators: pops while `p` is at least the precedence of the top; an OParen that
      is popped ends the loop and is discarded, every other operator goes to the output. The
      first test uses the `top` the caller passed; later ones use the new top. */
  function Unwind(st: seq<Element>, p: int, top: Element, out: seq<Element>): (r: Shunt)
    requires AllOperators(st) && top.OperatorElement?
    ensures AllOperators(r.st)
    decreases |st|
  {
    if |st| == 0 || p < Precedence(top.Kind()) then Shunt(st, out)
    else
      var q := st[|st| - 1];
      var rest := st[..|st| - 1];
      if q.Kind() == OParen then Shunt(rest, out)
      else Unwind(rest, p, if |rest| > 0 then rest[|rest| - 1] else top, out + [q])
  }

  /** One element of ConvertFromInfixToPostFix's loop. */
  function Step(sh: Shunt, x: Element): (r: Shunt)
    requires AllOperators(sh.st)
    ensures AllOperators(r.st)
  {
    if x.NumberElement? then Shunt(sh.st, sh.out + [x])
    else if |sh.st| == 0 || x.Kind() == OParen then Shunt(sh.st + [x], sh.out)
    else
      var top := sh.st[|sh.st| - 1];
      if x.Kind() == CParen then Unwind(sh.st, Precedence(x.Kind()), top, sh.out)
      else if Precedence(x.Kind()) < Precedence(top.Kind()) then Shunt(sh.st + [x], sh.out)
      else
        var u := Unwind(sh.st, Precedence(x.Kind()), top, sh.out);
        Shunt(u.st + [x], u.out)
  }

  function Scan(xs: seq<Element>, sh: Shunt): (r: Shunt)
    requires AllOperators(sh.st)
    ensures AllOperators(r.st)
    decreases |xs|
  {
    if xs == [] then sh else Scan(xs[1..], Step(sh, xs[0]))
  }

  /** The converted elements: the scan's output, then the stack in pop order. */
  function Convert(xs: seq<Element>): seq<Element> {
    var sh := Scan(xs, Shunt([], []));
    sh.out + Reverse(sh.st)
  }

  /** Already converted elements stay in front and play no part in the conversion. */
  lemma {:induction false} UnwindOutput(st: seq<Element>, p: int, top: Element, pre: seq<Element>, out: seq<Element>)
    requires AllOperators(st) && top.OperatorElement?
    ensures Unwind(st, p, top, pre + out).st == Unwind(st, p, top, out).st
    ensures Unwind(st, p, top, pre + out).out == pre + Unwind(st, p, top, out).out
    decreases |st|
  {
    if |st| == 0 || p < Precedence(top.Kind()) {
    } else {
      var q := st[|st| - 1];
      var rest := st[..|st| - 1];
      if q.Kind() != OParen {
        assert pre + out + [q] == pre + (out + [q]);
        UnwindOutput(rest, p, if |rest| > 0 then rest[|rest| - 1] else top, pre, out + [q]);
      }
    }
  }

  lemma {:induction false} ScanOutput(xs: seq<Element>, st: seq<Element>, pre: seq<Element>, out: seq<Element>, whole: seq<Element>)
    requires AllOperators(st) && whole == pre + out
    ensures Scan(xs, Shunt(st, whole)).st == Scan(xs, Shunt(st, out)).st
    ensures Scan(xs, Shunt(st, whole)).out == pre + Scan(xs, Shunt(st, out)).out
    decreases |xs|
  {
    if xs != [] {
      var x := xs[0];
      var a := Step(Shunt(st, whole), x);
      var b := Step(Shunt(st, out), x);
      if x.NumberElement? {
        assert pre + out + [x] == pre + (out + [x]);
      } else if |st| == 0 || x.Kind() == OParen {
      } else {
        UnwindOutput(st, Precedence(x.Kind()), st[|st| - 1], pre, out);
      }
      assert a.st == b.st && a.out == pre + b.out;
      ScanOutput(xs[1..], b.st, pre, b.out, a.out);
    }
  }

  lemma {:induction false} ScanAppend(xs: seq<Element>, ys: seq<Element>, sh: Shunt)
    requires AllOperators(sh.st)
    ensures Scan(xs + ys, sh) == Scan(ys, Scan(xs, sh))
    decreases |xs|
  {
    if xs == [] {
      assert xs + ys == ys;
    } else {
      assert (xs + ys)[1..] == xs[1..] + ys;
      ScanAppend(xs[1..], ys, Step(sh, xs[0]));
    }
  }

  function Numbers(xs: seq<Element>): (r: seq<Element>)
    ensures forall i | 0 <= i < |r| :: r[i].NumberElement?
  {
    if xs == [] then [] else (if xs[0].NumberElement? then [xs[0]] else []) + Numbers(xs[1..])
  }

  lemma {:induction false} NumbersAppend(a: seq<Element>, b: seq<Element>)
    ensures Numbers(a + b) == Numbers(a) + Numbers(b)
    decreases |a|
  {
    if a == [] {
      assert a + b == b;
    } else {
      assert (a + b)[1..] == a[1..] + b;
      NumbersAppend(a[1..], b);
    }
  }

  lemma {:induction false} NumbersOfOperators(xs: seq<Element>)
    requires AllOperators(xs)
    ensures Numbers(xs) == []
    decreases |xs|
  {
    if xs != [] {
      NumbersOfOperators(xs[1..]);
    }
  }

  lemma {:induction false} UnwindNumbers(st: seq<Element>, p: int, top: Element, out: seq<Element>)
    requires AllOperators(st) && top.OperatorElement?
    ensures Numbers(Unwind(st, p, top, out).out) == Numbers(out)
    decreases |st|
  {
    if |st| == 0 || p < Precedence(top.Kind()) {
    } else {
      var q := st[|st| - 1];
      var rest := st[..|st| - 1];
      if q.Kind() != OParen {
        NumbersAppend(out, [q]);
        UnwindNumbers(rest, p, if |rest| > 0 then rest[|rest| - 1] else top, out + [q]);
      }
    }
  }

  lemma StepNumbers(sh: Shunt, x: Element)
    requires AllOperators(sh.st)
    ensures Numbers(Step(sh, x).out) == Numbers(sh.out) + Numbers([x])
  {
    if x.NumberElement? {
      NumbersAppend(sh.out, [x]);
    } else {
      assert Numbers([x]) == [];
      if |sh.st| > 0 && x.Kind() != OParen {
        UnwindNumbers(sh.st, Precedence(x.Kind()), sh.st[|sh.st| - 1], sh.out);
      }
    }
  }

  lemma {:induction false} ScanNumbers(xs: seq<Element>, sh: Shunt)
    requires AllOperators(sh.st)
    ensures Numbers(Scan(xs, sh).out) == Numbers(sh.out) + Numbers(xs)
    decreases |xs|
  {
    if xs != [] {
      var sh' := Step(sh, xs[0]);
      StepNumbers(sh, xs[0]);
      ScanNumbers(xs[1..], sh');
      assert xs == [xs[0]] + xs[1..];
      NumbersAppend([xs[0]], xs[1..]);
    }
  }

  lemma {:induction false} ReverseOperators(st: seq<Element>)
    requires AllOperators(st)
    ensures AllOperators(Reverse(st))
    decreases |st|
  {
    if st != [] {
      ReverseOperators(st[..|st| - 1]);
    }
  }

  /** The number elements come out exactly as they went in, in their input order, whatever
      the operators around them. */
  lemma ConvertKeepsNumbers(xs: seq<Element>)
    ensures Numbers(Convert(xs)) == Numbers(xs)
  {
    var sh := Scan(xs, Shunt([], []));
    ScanNumbers(xs, Shunt([], []));
    ReverseOperators(sh.st);
    NumbersOfOperators(Reverse(sh.st));
    NumbersAppend(sh.out, Reverse(sh.st));
  }

  class InfixToPostfix {
    var converted: seq<Element>

    constructor ()
      ensures converted == []
    {
      converted := [];
    }

    /** The stack the source passes by reference is handed in and handed back. */
    method ProcessOperators(st: seq<Element>, element: Element, top: Element) returns (st': seq<Element>)
      requires AllOperators(st) && element.OperatorElement? && top.OperatorElement?
      modifies this
      ensures Shunt(st', converted) == Unwind(st, Precedence(element.Kind()), top, old(converted))
    {
      st' := st;
      var t := top;
      while |st'| > 0 && Precedence(element.Kind()) >= Precedence(t.Kind())
        invariant AllOperators(st') && t.OperatorElement?
        invariant Unwind(st', Precedence(element.Kind()), t, converted)
               == Unwind(st, Precedence(element.Kind()), top, old(converted))
        decreases |st'|
      {
        var p := st'[|st'| - 1];
        st' := st'[..|st'| - 1];
        if p.Kind() == OParen {
          break;
        }
        converted := converted + [p];
        if |st'| > 0 {
          t := st'[|st'| - 1];
        }
      }
    }

    method ConvertFromInfixToPostFix(e: seq<Element>) returns (r: seq<Element>)
      modifies this
      ensures converted == old(converted) + Convert(e) && r == converted
    {
      var st: seq<Element> := [];
      var i := 0;
      ScanWhole(e, Shunt([], converted));
      while i < |e|
        invariant 0 <= i <= |e| && AllOperators(st)
        invariant Scan(e, Shunt([], old(converted))) == Scan(e[i..], Shunt(st, converted))
      {
        var element := e[i];
        ghost var before := Shunt(st, converted);
        ScanAt(e, i, before);
        if element.OperatorElement? {
          if |st| == 0 || element.Kind() == OParen {
            st := st + [element];
          } else {
            var top := st[|st| - 1];
            if element.Kind() == CParen {
              st := ProcessOperators(st, element, top);
            } else if Precedence(element.Kind()) < Precedence(top.Kind()) {
              st := st + [element];
            } else {
              st := ProcessOperators(st, element, top);
              st := st + [element];
            }
          }
        } else {
          converted := converted + [element];
        }
        assert Shunt(st, converted) == Step(before, element);
        i := i + 1;
      }
      ScannedThenDrained(e, old(converted), st, converted);
      PopAll(st);
      r := converted;
    }

    /** The loop after the scan: pops every operator left on the stack into the output. */
    method PopAll(st: seq<Element>)
      modifies this
      ensures converted == old(converted) + Reverse(st)
    {
      var rest := st;
      while |rest| > 0
        invariant converted + Reverse(rest) == old(converted) + Reverse(st)
        decreases |rest|
      {
        var b1 := rest[|rest| - 1];
        rest := rest[..|rest| - 1];
        converted := converted + [b1];
      }
    }
  }

  lemma ReverseSnoc<T>(s: seq<T>, x: T)
    ensures Reverse(s + [x]) == [x] + Reverse(s)
  {
    assert (s + [x])[..|s|] == s;
  }

  lemma {:induction false} ReverseCons<T>(x: T, s: seq<T>)
    ensures Reverse([x] + s) == Reverse(s) + [x]
    decreases |s|
  {
    if s == [] {
      assert [x] + s == [x];
    } else {
      assert ([x] + s)[..|s|] == [x] + s[..|s| - 1];
      ReverseCons(x, s[..|s| - 1]);
    }
  }

  /** What the scan leaves, output then stack in pop order, is the conversion after what
      was converted before. */
  lemma ScanAt(e: seq<Element>, i: nat, sh: Shunt)
    requires i < |e| && AllOperators(sh.st)
    ensures Scan(e[i..], sh) == Scan(e[i + 1..], Step(sh, e[i]))
  {
    assert e[i..][1..] == e[i + 1..];
  }

  lemma ScannedThenDrained(e: seq<Element>, pre: seq<Element>, st: seq<Element>, out: seq<Element>)
    requires Scan(e, Shunt([], pre)) == Shunt(st, out)
    ensures out + Reverse(st) == pre + Convert(e)
  {
    assert pre == pre + [];
    ScanOutput(e, [], pre, [], pre);
    DrainJoin(e, pre, st, out);
  }

  lemma DrainJoin(e: seq<Element>, pre: seq<Element>, st: seq<Element>, out: seq<Element>)
    requires st == Scan(e, Shunt([], [])).st && out == pre + Scan(e, Shunt([], [])).out
    ensures out + Reverse(st) == pre + Convert(e)
  {
  }

  lemma ScanWhole(e: seq<Element>, sh: Shunt)
    requires AllOperators(sh.st)
    ensures Scan(e[0..], sh) == Scan(e, sh)
  {
    assert e[0..] == e;
  }

  lemma {:induction false} ReverseReverse<T>(s: seq<T>)
    ensures Reverse(Reverse(s)) == s
    decreases |s|
  {
    if s != [] {
      var init, x := s[..|s| - 1], s[|s| - 1];
      ReverseCons(x, Reverse(init));
      ReverseReverse(init);
      assert Reverse(Reverse(s)) == init + [x] == s;
    }
  }

  lemma {:induction false} ReverseAppend<T>(a: seq<T>, b: seq<T>)
    ensures Reverse(a + b) == Reverse(b) + Reverse(a)
    decreases |b|
  {
    if b == [] {
      assert a + b == a;
    } else {
      assert (a + b)[..|a + b| - 1] == a + b[..|b| - 1];
      ReverseAppend(a, b[..|b| - 1]);
    }
  }

  // ---------------------------------------------------------------- PostFixEvaluator

  function Pow2(n: nat): (r: nat)
    ensures r >= 1
  {
    if n == 0 then 1 else 2 * Pow2(n - 1)
  }

  /** Double.MaxValue, exactly. */
  const DoubleMaxValue: real := (Pow2(1024) - Pow2(971)) as real

  function PowNat(x: real, n: nat): (r: real)
    ensures x != 0.0 ==> r != 0.0
  {
    if n == 0 then 1.0 else x * PowNat(x, n - 1)
  }

  /** Math.Pow for an integral exponent; a fractional exponent, or zero to a negative power,
      gives 0 here (see README). */
  function Power(x: real, y: real): real {
    if y != y.Floor as real then 0.0
    else if y >= 0.0 then PowNat(x, y.Floor)
    else if x == 0.0 then 0.0
    else 1.0 / PowNat(x, -y.Floor)
  }

  /** calculate: the four operations and the power; division by zero gives 0 here (see
      README), and a parenthesis used as an operator gives Double.MaxValue. */
  function Calculate2(left: real, right: real, k: OperatorType): real {
    if k == Add then left + right
    else if k == Subtract then left - right
    else if k == Multiply then left * right
    else if k == Divide then (if right == 0.0 then 0.0 else left / right)
    else if k == Exponential then Power(left, right)
    else DoubleMaxValue
  }

  /** The evaluator's stack after the elements run: None where a Pop finds the stack empty
      (the exception leaves the stack empty). */
  function Run(xs: seq<Element>, stack: seq<real>): Option<seq<real>>
    decreases |xs|
  {
    if xs == [] then Some(stack)
    else if xs[0].NumberElement? then Run(xs[1..], stack + [xs[0].number])
    else if |stack| < 2 then None
    else
      var right := stack[|stack| - 1];
      var left := stack[|stack| - 2];
      Run(xs[1..], stack[..|stack| - 2] + [Calculate2(left, right, xs[0].Kind())])
  }

  datatype Evaluated = Evaluated(result: Option<real>, stack: seq<real>)

  /** Evaluate: the final Pop, or None where a Pop throws; and the stack left behind. */
  function EvaluateOf(xs: seq<Element>, stack: seq<real>): Evaluated {
    match Run(xs, stack)
    case None => Evaluated(None, [])
    case Some(s) =>
      if |s| == 0 then Evaluated(None, []) else Evaluated(Some(s[|s| - 1]), s[..|s| - 1])
  }

  class PostFixEvaluator {
    var stack: seq<real>

    constructor ()
      ensures stack == []
    {
      stack := [];
    }

    method Evaluate(e: seq<Element>) returns (r: Option<real>)
      modifies this
      ensures Evaluated(r, stack) == EvaluateOf(e, old(stack))
    {
      var i := 0;
      while i < |e|
        invariant 0 <= i <= |e|
        invariant Run(e, old(stack)) == Run(e[i..], stack)
      {
        var element := e[i];
        assert e[i..][1..] == e[i + 1..];
        if element.NumberElement? {
          stack := stack + [element.number];
        }
        if element.OperatorElement? {
          if |stack| < 2 {
            stack := [];
            return None;
          }
          var right := stack[|stack| - 1];
          var left := stack[|stack| - 2];
          stack := stack[..|stack| - 2];
          stack := stack + [Calculate2(left, right, element.Kind())];
        }
        i := i + 1;
      }
      assert e[|e|..] == [];
      if |stack| == 0 {
        return None;
      }
      r := Some(stack[|stack| - 1]);
      stack := stack[..|stack| - 1];
    }
  }

  /** Program.Calculate's result: parse, convert, evaluate on a fresh evaluator. */
  function CalculateOf(s: string): Option<real> {
    EvaluateOf(Convert(Tokens(s)), []).result
  }

  method Calculate(s: string) returns (r: Option<real>)
    ensures r == CalculateOf(s)
  {
    var p := new Parser();
    var e := p.Parse(s);
    assert e == Tokens(s);
    var i := new InfixToPostfix();
    e := i.ConvertFromInfixToPostFix(e);
    assert e == Convert(Tokens(s));
    var pfe := new PostFixEvaluator();
    r := pfe.Evaluate(e);
  }

  // ---------------------------------------------------------------- Expressions

  /** An arithmetic expression as the calculator reads it: a natural-number literal, a binary
      operator application, or a parenthesized group. */
  datatype Expr = Num(n: nat) | Bin(op: char, l: Expr, r: Expr) | Group(g: Expr)

  predicate IsBinaryChar(c: char) { c == '+' || c == '-' || c == '*' || c == '/' || c == '^' }

  /** How tightly an expression holds together without parentheses of its own: a literal or a
      group as tightly as anything, an application by its operator's precedence. */
  function Rank(e: Expr): int {
    if e.Bin? then Precedence(KindOf(e.op)) else 1
  }

  /** The tree that standard precedence with left associativity reads from the expression's
      text: a left operand binds at least as tightly as its operator, a right operand more. */
  predicate WellFormed(e: Expr) {
    match e
    case Num(_) => true
    case Group(g) => WellFormed(g)
    case Bin(op, l, r) =>
      IsBinaryChar(op) && WellFormed(l) && WellFormed(r)
      && Rank(l) <= Precedence(KindOf(op)) && Rank(r) < Precedence(KindOf(op))
  }

  function Render(e: Expr): string {
    match e
    case Num(n) => NatToString(n)
    case Bin(op, l, r) => Render(l) + [op] + Render(r)
    case Group(g) => "(" + Render(g) + ")"
  }

  function Elements(e: Expr): seq<Element> {
    match e
    case Num(n) => [NumberElement(n as real)]
    case Bin(op, l, r) => Elements(l) + [OperatorElement(op)] + Elements(r)
    case Group(g) => [OperatorElement('(')] + Elements(g) + [OperatorElement(')')]
  }

  /** The postfix form: operands first, then the operator; a group is its contents. */
  function PostfixOf(e: Expr): seq<Element> {
    match e
    case Num(n) => [NumberElement(n as real)]
    case Bin(op, l, r) => PostfixOf(l) + PostfixOf(r) + [OperatorElement(op)]
    case Group(g) => PostfixOf(g)
  }

  function Value(e: Expr): real {
    match e
    case Num(n) => n as real
    case Bin(op, l, r) => Calculate2(Value(l), Value(r), KindOf(op))
    case Group(g) => Value(g)
  }

  lemma {:induction false} TextShape(e: Expr)
    requires WellFormed(e)
    ensures |Render(e)| > 0
    ensures IsDigit(Render(e)[0]) || Render(e)[0] == '('
    ensures IsDigit(Render(e)[|Render(e)| - 1]) || Render(e)[|Render(e)| - 1] == ')'
  {
    match e
    case Num(n) =>
    case Bin(op, l, r) =>
      TextShape(l);
      TextShape(r);
    case Group(g) =>
  }

  /** Parsing an expression's text gives its elements. */
  lemma {:induction false} TokensOfText(e: Expr)
    requires WellFormed(e)
    ensures Tokens(Render(e)) == Elements(e)
    decreases e, 1
  {
    match e
    case Num(n) =>
      TokensOfDigits(NatToString(n));
    case Bin(op, l, r) =>
      TokensOfBin(op, l, r);
    case Group(g) =>
      TokensOfGroup(g);
  }

  lemma {:induction false} TokensOfBin(op: char, l: Expr, r: Expr)
    requires WellFormed(Bin(op, l, r))
    ensures Tokens(Render(Bin(op, l, r))) == Elements(Bin(op, l, r))
    decreases Bin(op, l, r), 0
  {
    TokensOfText(l);
    TokensOfText(r);
    TextShape(l);
    TokensAround(Render(l), op, Render(r));
  }

  lemma {:induction false} TokensOfGroup(g: Expr)
    requires WellFormed(Group(g))
    ensures Tokens(Render(Group(g))) == Elements(Group(g))
    decreases Group(g), 0
  {
    TokensOfText(g);
    TextShape(g);
    TokensWrap(Render(g));
  }

  /** Parentheses around a text add their two operators around its tokens. */
  lemma TokensWrap(a: string)
    ensures Tokens("(" + a + ")") == [OperatorElement('(')] + Tokens(a) + [OperatorElement(')')]
  {
    TokensOne('(');
    TokensOne(')');
    TokensAppend(a, ")");
    TokensAppend("(", a + ")");
    assert "(" + a + ")" == "(" + (a + ")");
  }

  /** An operator character between two texts separates their tokens. */
  lemma TokensAround(a: string, op: char, b: string)
    requires IsOperatorChar(op)
    ensures Tokens(a + [op] + b) == Tokens(a) + [OperatorElement(op)] + Tokens(b)
  {
    TokensOne(op);
    TokensAppend([op], b);
    TokensAppend(a, [op] + b);
    assert a + [op] + b == a + ([op] + b);
  }

  lemma TokensOne(op: char)
    requires IsOperatorChar(op)
    ensures Tokens([op]) == [OperatorElement(op)]
  {
  }

  /** The operators of e still on the stack when its last element has been read: the
      operators down its right spine, outermost lowest. */
  function Pending(e: Expr): seq<Element> {
    if e.Bin? then [OperatorElement(e.op)] + Pending(e.r) else []
  }

  /** What e has sent to the output by then. */
  function Emitted(e: Expr): seq<Element> {
    match e
    case Num(n) => [NumberElement(n as real)]
    case Bin(op, l, r) => PostfixOf(l) + Emitted(r)
    case Group(g) => PostfixOf(g)
  }

  lemma {:induction false} PostfixSplit(e: Expr)
    ensures PostfixOf(e) == Emitted(e) + Reverse(Pending(e))
  {
    match e
    case Num(n) =>
    case Group(g) =>
    case Bin(op, l, r) =>
      PostfixSplit(r);
      ReverseAppend([OperatorElement(op)], Pending(r));
      assert Reverse([OperatorElement(op)]) == [OperatorElement(op)];
  }

  predicate PendingOps(ps: seq<Element>, k: int) {
    forall i | 0 <= i < |ps| :: ps[i].OperatorElement? && !IsParen(ps[i]) && Precedence(ps[i].Kind()) <= k
  }

  lemma {:induction false} PendingBound(e: Expr)
    requires WellFormed(e)
    ensures PendingOps(Pending(e), Rank(e))
  {
    if e.Bin? {
      PendingBound(e.r);
    }
  }

  lemma PendingWeaken(ps: seq<Element>, k: int, k': int)
    requires PendingOps(ps, k) && k <= k'
    ensures PendingOps(ps, k')
  {
  }

  /** Every operator above the innermost open parenthesis binds more loosely than k. */
  predicate Guard(st: seq<Element>, k: int)
    requires AllOperators(st)
    decreases |st|
  {
    |st| == 0 || st[|st| - 1].Kind() == OParen
    || (Precedence(st[|st| - 1].Kind()) > k && Guard(st[..|st| - 1], k))
  }

  lemma {:induction false} GuardWeaken(st: seq<Element>, k: int, k': int)
    requires AllOperators(st) && Guard(st, k) && k' <= k
    ensures Guard(st, k')
    decreases |st|
  {
    if |st| > 0 && st[|st| - 1].Kind() != OParen {
      GuardWeaken(st[..|st| - 1], k, k');
    }
  }

  /** One pop of Unwind: a top operator that p reaches and that is not an open parenthesis
      goes to the output. */
  lemma UnwindPop(init: seq<Element>, q: Element, p: int, top: Element, out: seq<Element>)
    requires AllOperators(init) && q.OperatorElement? && top.OperatorElement?
    requires q.Kind() != OParen && Precedence(q.Kind()) <= p
    ensures AllOperators(init + [q])
    ensures Unwind(init + [q], p, q, out)
         == Unwind(init, p, if |init| > 0 then init[|init| - 1] else top, out + [q])
  {
    var st := init + [q];
    assert st[|st| - 1] == q && st[..|st| - 1] == init;
    if |init| == 0 {
      assert Unwind(init, p, q, out + [q]) == Unwind(init, p, top, out + [q]);
    }
  }

  /** Unwinding pops the pending operators, every one of which is popped by precedence p,
      in reverse order. */
  lemma {:induction false} UnwindPending(st: seq<Element>, ps: seq<Element>, p: int, top: Element, out: seq<Element>)
    requires AllOperators(st) && top.OperatorElement? && PendingOps(ps, p)
    requires |st| > 0 ==> top == st[|st| - 1]
    ensures AllOperators(st + ps)
    ensures Unwind(st + ps, p, if |ps| > 0 then ps[|ps| - 1] else top, out)
         == Unwind(st, p, top, out + Reverse(ps))
    decreases |ps|
  {
    if ps == [] {
      assert st + ps == st;
      assert out + Reverse(ps) == out;
    } else {
      var init := ps[..|ps| - 1];
      UnwindPending(st, init, p, top, out + [ps[|ps| - 1]]);
      UnwindLast(st, init, ps, p, top, out);
    }
  }

  /** The step of UnwindPending: the last pending operator is popped first. */
  lemma UnwindLast(st: seq<Element>, init: seq<Element>, ps: seq<Element>, p: int, top: Element, out: seq<Element>)
    requires AllOperators(st) && top.OperatorElement? && PendingOps(ps, p)
    requires |ps| > 0 && init == ps[..|ps| - 1]
    requires |st| > 0 ==> top == st[|st| - 1]
    requires AllOperators(st + init) && AllOperators(st + ps)
    requires Unwind(st + init, p, if |init| > 0 then init[|init| - 1] else top, out + [ps[|ps| - 1]])
          == Unwind(st, p, top, out + [ps[|ps| - 1]] + Reverse(init))
    ensures Unwind(st + ps, p, ps[|ps| - 1], out) == Unwind(st, p, top, out + Reverse(ps))
  {
    UnwindSplit(st, init, ps, p, top, out);
    ReverseLast(ps, init, out);
  }

  lemma UnwindSplit(st: seq<Element>, init: seq<Element>, ps: seq<Element>, p: int, top: Element, out: seq<Element>)
    requires PendingOps(ps, p) && |ps| > 0 && init == ps[..|ps| - 1]
    requires |st| > 0 ==> top == st[|st| - 1]
    requires AllOperators(st) && top.OperatorElement? && AllOperators(st + init) && AllOperators(st + ps)
    ensures Unwind(st + ps, p, ps[|ps| - 1], out)
         == Unwind(st + init, p, if |init| > 0 then init[|init| - 1] else top, out + [ps[|ps| - 1]])
  {
    var all := st + ps;
    assert all[..|all| - 1] == st + init;
    assert |init| > 0 ==> all[|all| - 2] == init[|init| - 1];
    UnwindTop(all, p, if |init| > 0 then init[|init| - 1] else top, out);
  }

  lemma ReverseLast(ps: seq<Element>, init: seq<Element>, out: seq<Element>)
    requires |ps| > 0 && init == ps[..|ps| - 1]
    ensures out + [ps[|ps| - 1]] + Reverse(init) == out + Reverse(ps)
  {
    assert Reverse(ps) == [ps[|ps| - 1]] + Reverse(init);
  }

  /** Unwind pops a top operator that p reaches and that is not an open parenthesis. */
  lemma UnwindTop(all: seq<Element>, p: int, below: Element, out: seq<Element>)
    requires AllOperators(all) && |all| > 0 && below.OperatorElement?
    requires all[|all| - 1].Kind() != OParen && Precedence(all[|all| - 1].Kind()) <= p
    requires |all| > 1 ==> below == all[|all| - 2]
    ensures Unwind(all, p, all[|all| - 1], out)
         == Unwind(all[..|all| - 1], p, below, out + [all[|all| - 1]])
  {
    if |all| == 1 {
      var rest := all[..0];
      assert Unwind(rest, p, below, out + [all[0]]) == Shunt(rest, out + [all[0]]);
    }
  }

  /** Reading the elements of a well-formed expression pushes its pending operators and
      sends the rest of its postfix form to the output, provided the operators already on the
      stack above the innermost open parenthesis bind more loosely. */
  lemma {:induction false} ScanExpr(e: Expr, sh: Shunt)
    requires WellFormed(e) && AllOperators(sh.st) && Guard(sh.st, Rank(e))
    ensures Scan(Elements(e), sh) == Shunt(sh.st + Pending(e), sh.out + Emitted(e))
  {
    match e
    case Num(n) =>
      assert Elements(e)[1..] == [];
      assert sh.st + Pending(e) == sh.st;
    case Group(g) =>
      var sh1 := Shunt(sh.st + [OperatorElement('(')], sh.out);
      ScanExpr(g, sh1);
      ScanGroup(g, sh);
      assert sh.st + Pending(e) == sh.st;
    case Bin(op, l, r) =>
      var o := OperatorElement(op);
      GuardWeaken(sh.st, Rank(e), Rank(l));
      ScanExpr(l, sh);
      var sh2 := Shunt(sh.st + [o], sh.out + PostfixOf(l));
      GuardWeaken(sh.st, Rank(e), Rank(r));
      assert AllOperators(sh2.st) && Guard(sh2.st, Rank(r));
      ScanExpr(r, sh2);
      ScanBin(op, l, r, sh);
  }

  /** The Group case of ScanExpr, given what the group's contents do. */
  lemma ScanGroup(g: Expr, sh: Shunt)
    requires WellFormed(g) && AllOperators(sh.st)
    requires Scan(Elements(g), Shunt(sh.st + [OperatorElement('(')], sh.out))
          == Shunt(sh.st + [OperatorElement('(')] + Pending(g), sh.out + Emitted(g))
    ensures Scan(Elements(Group(g)), sh) == Shunt(sh.st, sh.out + PostfixOf(g))
  {
    GroupElements(g, sh);
    PendingBoundMax(g);
    ScanParenthesized(Elements(g), sh, Pending(g), Emitted(g));
    PostfixAfter(sh.out, g);
  }

  lemma GroupElements(g: Expr, sh: Shunt)
    requires AllOperators(sh.st)
    ensures Scan(Elements(Group(g)), sh)
         == Scan([OperatorElement('(')] + Elements(g) + [OperatorElement(')')], sh)
  {
  }

  lemma PendingBoundMax(g: Expr)
    requires WellFormed(g)
    ensures PendingOps(Pending(g), Int32MaxValue)
  {
    PendingBound(g);
    PendingWeaken(Pending(g), Rank(g), Int32MaxValue);
  }

  /** Elements between parentheses that leave the open parenthesis covered by the pending
      operators ps are closed off by popping ps. */
  lemma ScanParenthesized(xs: seq<Element>, sh: Shunt, ps: seq<Element>, em: seq<Element>)
    requires AllOperators(sh.st) && PendingOps(ps, Int32MaxValue)
    requires Scan(xs, Shunt(sh.st + [OperatorElement('(')], sh.out))
          == Shunt(sh.st + [OperatorElement('(')] + ps, sh.out + em)
    ensures Scan([OperatorElement('(')] + xs + [OperatorElement(')')], sh)
         == Shunt(sh.st, sh.out + em + Reverse(ps))
  {
    var open, close := OperatorElement('('), OperatorElement(')');
    ScanAround(open, xs, close, sh);
    StepOpen(sh);
    CloseGroup(sh.st, ps, sh.out + em);
  }

  lemma StepOpen(sh: Shunt)
    requires AllOperators(sh.st)
    ensures Step(sh, OperatorElement('(')) == Shunt(sh.st + [OperatorElement('(')], sh.out)
  {
  }

  lemma ScanAround(a: Element, xs: seq<Element>, b: Element, sh: Shunt)
    requires AllOperators(sh.st)
    ensures Scan([a] + xs + [b], sh) == Step(Scan(xs, Step(sh, a)), b)
  {
    ScanAppend([a] + xs, [b], sh);
    ScanAppend([a], xs, sh);
    assert [b][1..] == [] && [a][1..] == [];
  }

  lemma ScanBetween(xs: seq<Element>, b: Element, ys: seq<Element>, sh: Shunt)
    requires AllOperators(sh.st)
    ensures Scan(xs + [b] + ys, sh) == Scan(ys, Step(Scan(xs, sh), b))
  {
    ScanAppend(xs + [b], ys, sh);
    ScanAppend(xs, [b], sh);
    assert [b][1..] == [];
  }

  /** A closing parenthesis pops the pending operators and then the open parenthesis. */
  lemma CloseGroup(st: seq<Element>, ps: seq<Element>, out: seq<Element>)
    requires AllOperators(st) && PendingOps(ps, Int32MaxValue)
    ensures AllOperators(st + [OperatorElement('(')] + ps)
    ensures Step(Shunt(st + [OperatorElement('(')] + ps, out), OperatorElement(')'))
         == Shunt(st, out + Reverse(ps))
  {
    var open := OperatorElement('(');
    var base := st + [open];
    assert AllOperators(base);
    UnwindPending(base, ps, Int32MaxValue, open, out);
    StepClose(base + ps, out);
    TopOfPending(base, ps, open);
    UnwindOpen(st, out + Reverse(ps));
  }

  lemma StepClose(all: seq<Element>, out: seq<Element>)
    requires AllOperators(all) && |all| > 0
    ensures Step(Shunt(all, out), OperatorElement(')')) == Unwind(all, Int32MaxValue, all[|all| - 1], out)
  {
    assert KindOf(')') == CParen && Precedence(CParen) == Int32MaxValue;
  }

  lemma TopOfPending(base: seq<Element>, ps: seq<Element>, top: Element)
    requires |base| > 0 && base[|base| - 1] == top
    ensures (base + ps)[|base + ps| - 1] == (if |ps| > 0 then ps[|ps| - 1] else top)
  {
  }

  lemma UnwindOpen(st: seq<Element>, out: seq<Element>)
    requires AllOperators(st)
    ensures Unwind(st + [OperatorElement('(')], Int32MaxValue, OperatorElement('('), out) == Shunt(st, out)
  {
    assert (st + [OperatorElement('(')])[..|st|] == st;
  }

  /** The Bin case of ScanExpr, given what the two operands do. */
  lemma ScanBin(op: char, l: Expr, r: Expr, sh: Shunt)
    requires WellFormed(Bin(op, l, r)) && AllOperators(sh.st)
    requires Guard(sh.st, Precedence(KindOf(op)))
    requires Scan(Elements(l), sh) == Shunt(sh.st + Pending(l), sh.out + Emitted(l))
    requires Scan(Elements(r), Shunt(sh.st + [OperatorElement(op)], sh.out + PostfixOf(l)))
          == Shunt(sh.st + [OperatorElement(op)] + Pending(r), sh.out + PostfixOf(l) + Emitted(r))
    ensures Scan(Elements(Bin(op, l, r)), sh)
         == Shunt(sh.st + Pending(Bin(op, l, r)), sh.out + Emitted(Bin(op, l, r)))
  {
    ScanOperands(op, l, r, sh);
    BinElements(op, l, r, sh);
    BinPending(op, l, r, sh.st);
    BinEmitted(op, l, r, sh.out);
  }

  lemma ScanOperands(op: char, l: Expr, r: Expr, sh: Shunt)
    requires IsBinaryChar(op) && WellFormed(l) && Rank(l) <= Precedence(KindOf(op))
    requires AllOperators(sh.st) && Guard(sh.st, Precedence(KindOf(op)))
    requires Scan(Elements(l), sh) == Shunt(sh.st + Pending(l), sh.out + Emitted(l))
    requires Scan(Elements(r), Shunt(sh.st + [OperatorElement(op)], sh.out + PostfixOf(l)))
          == Shunt(sh.st + [OperatorElement(op)] + Pending(r), sh.out + PostfixOf(l) + Emitted(r))
    ensures Scan(Elements(l) + [OperatorElement(op)] + Elements(r), sh)
         == Shunt(sh.st + [OperatorElement(op)] + Pending(r), sh.out + PostfixOf(l) + Emitted(r))
  {
    ScanBetween(Elements(l), OperatorElement(op), Elements(r), sh);
    StepOperator(sh, l, op);
  }

  lemma BinElements(op: char, l: Expr, r: Expr, sh: Shunt)
    requires AllOperators(sh.st)
    ensures Scan(Elements(Bin(op, l, r)), sh) == Scan(Elements(l) + [OperatorElement(op)] + Elements(r), sh)
  {
  }

  lemma BinPending(op: char, l: Expr, r: Expr, st: seq<Element>)
    ensures st + [OperatorElement(op)] + Pending(r) == st + Pending(Bin(op, l, r))
  {
  }

  lemma BinEmitted(op: char, l: Expr, r: Expr, out: seq<Element>)
    ensures out + PostfixOf(l) + Emitted(r) == out + Emitted(Bin(op, l, r))
  {
  }

  lemma BinaryKind(op: char)
    requires IsBinaryChar(op)
    ensures KindOf(op) != OParen && KindOf(op) != CParen
    ensures 2 <= Precedence(KindOf(op)) <= 4
  {
  }

  /** Step for a binary operator that finds an empty stack or a looser operator on top. */
  lemma StepPush(st: seq<Element>, out: seq<Element>, op: char)
    requires AllOperators(st) && IsBinaryChar(op)
    requires |st| == 0 || Precedence(KindOf(op)) < Precedence(st[|st| - 1].Kind())
    ensures Step(Shunt(st, out), OperatorElement(op)) == Shunt(st + [OperatorElement(op)], out)
  {
    BinaryKind(op);
  }

  /** Step for a binary operator that unwinds the stack first. */
  lemma StepUnwind(st: seq<Element>, out: seq<Element>, op: char)
    requires AllOperators(st) && IsBinaryChar(op)
    requires |st| > 0 && Precedence(st[|st| - 1].Kind()) <= Precedence(KindOf(op))
    ensures var u := Unwind(st, Precedence(KindOf(op)), st[|st| - 1], out);
            Step(Shunt(st, out), OperatorElement(op)) == Shunt(u.st + [OperatorElement(op)], u.out)
  {
    BinaryKind(op);
  }

  /** A binary operator after its left operand pops the operand's pending operators and is
      pushed on the stack the operand found. */
  lemma StepOperator(sh: Shunt, l: Expr, op: char)
    requires WellFormed(l) && IsBinaryChar(op) && Rank(l) <= Precedence(KindOf(op))
    requires AllOperators(sh.st) && Guard(sh.st, Precedence(KindOf(op)))
    ensures AllOperators(sh.st + Pending(l))
    ensures Step(Shunt(sh.st + Pending(l), sh.out + Emitted(l)), OperatorElement(op))
         == Shunt(sh.st + [OperatorElement(op)], sh.out + PostfixOf(l))
  {
    StepAfterOperand(sh, l, op);
    PostfixAfter(sh.out, l);
  }

  lemma StepAfterOperand(sh: Shunt, l: Expr, op: char)
    requires WellFormed(l) && IsBinaryChar(op) && Rank(l) <= Precedence(KindOf(op))
    requires AllOperators(sh.st) && Guard(sh.st, Precedence(KindOf(op)))
    ensures AllOperators(sh.st + Pending(l))
    ensures Step(Shunt(sh.st + Pending(l), sh.out + Emitted(l)), OperatorElement(op))
         == Shunt(sh.st + [OperatorElement(op)], sh.out + Emitted(l) + Reverse(Pending(l)))
  {
    var ps, em := Pending(l), Emitted(l);
    PendingBound(l);
    PendingWeaken(ps, Rank(l), Precedence(KindOf(op)));
    StepAfterPending(sh.st, ps, sh.out + em, op);
  }

  lemma PostfixAfter(out: seq<Element>, e: Expr)
    ensures out + Emitted(e) + Reverse(Pending(e)) == out + PostfixOf(e)
  {
    PostfixSplit(e);
  }

  lemma StepAfterPending(st: seq<Element>, ps: seq<Element>, out: seq<Element>, op: char)
    requires IsBinaryChar(op) && PendingOps(ps, Precedence(KindOf(op)))
    requires AllOperators(st) && Guard(st, Precedence(KindOf(op)))
    ensures AllOperators(st + ps)
    ensures Step(Shunt(st + ps, out), OperatorElement(op))
         == Shunt(st + [OperatorElement(op)], out + Reverse(ps))
  {
    var o := OperatorElement(op);
    var p := Precedence(KindOf(op));
    BinaryKind(op);
    var all := st + ps;
    assert AllOperators(all);
    if |all| == 0 || p < Precedence(all[|all| - 1].Kind()) {
      assert all == st && out + Reverse(ps) == out;
      StepPush(all, out, op);
    } else {
      var top := all[|all| - 1];
      var top0 := if |st| > 0 then st[|st| - 1] else top;
      if |ps| == 0 {
        assert all == st;
      } else {
        assert top == ps[|ps| - 1];
      }
      StepUnwind(all, out, op);
      UnwindPending(st, ps, p, top0, out);
      UnwindStops(st, p, top0, out + Reverse(ps));
    }
  }

  /** Unwinding stops at once below an open parenthesis or an operator binding more loosely
      than p. */
  lemma UnwindStops(st: seq<Element>, p: int, top: Element, out: seq<Element>)
    requires AllOperators(st) && top.OperatorElement? && p <= 4
    requires |st| > 0 ==> top == st[|st| - 1]
    requires Guard(st, p)
    ensures Unwind(st, p, top, out) == Shunt(st, out)
  {
  }

  /** The conversion of a well-formed expression's elements is its postfix form. */
  lemma ConvertExpr(e: Expr)
    requires WellFormed(e)
    ensures Convert(Elements(e)) == PostfixOf(e)
  {
    ScanExpr(e, Shunt([], []));
    PostfixSplit(e);
    assert [] + Pending(e) == Pending(e);
    assert [] + Emitted(e) == Emitted(e);
  }

  /** Running an expression's postfix form pushes its value and leaves the stack below it
      alone. */
  lemma {:induction false} RunPostfix(e: Expr, rest: seq<Element>, stack: seq<real>)
    ensures Run(PostfixOf(e) + rest, stack) == Run(rest, stack + [Value(e)])
  {
    match e
    case Num(n) =>
      assert (PostfixOf(e) + rest)[1..] == rest;
    case Group(g) =>
      RunPostfix(g, rest, stack);
    case Bin(op, l, r) =>
      var o := OperatorElement(op);
      assert PostfixOf(e) + rest == PostfixOf(l) + (PostfixOf(r) + ([o] + rest));
      RunPostfix(l, PostfixOf(r) + ([o] + rest), stack);
      RunPostfix(r, [o] + rest, stack + [Value(l)]);
      var s2 := stack + [Value(l)] + [Value(r)];
      assert s2[..|s2| - 2] == stack;
      assert ([o] + rest)[1..] == rest;
  }

  /** The calculator computes the value of every well-formed expression. */
  lemma CalculateText(e: Expr)
    requires WellFormed(e)
    ensures CalculateOf(Render(e)) == Some(Value(e))
  {
    TokensOfText(e);
    ConvertExpr(e);
    RunPostfix(e, [], []);
    assert PostfixOf(e) + [] == PostfixOf(e);
  }

  /** `^` shares the tie rule of the other operators and so groups to the left:
      2^3^2 is (2^3)^2. */
  lemma PowerGroupsLeft()
    ensures CalculateOf("2^3^2") == Some(64.0)
  {
    var e := Bin('^', Bin('^', Num(2), Num(3)), Num(2));
    PowerTree();
    CalculateText(e);
    PowerTreeValue();
  }

  lemma PowerTree()
    ensures var e := Bin('^', Bin('^', Num(2), Num(3)), Num(2));
            WellFormed(e) && Render(e) == "2^3^2"
  {
    assert NatToString(2) == "2" && NatToString(3) == "3";
  }

  lemma PowerTreeValue()
    ensures Value(Bin('^', Bin('^', Num(2), Num(3)), Num(2))) == 64.0
  {
    assert PowNat(2.0, 3) == 8.0;
    assert PowNat(8.0, 2) == 64.0;
  }
}
