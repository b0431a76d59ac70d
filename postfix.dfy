/** The interpreter's arithmetic: Postfix.ToPostFix, a character-level shunting yard that
    turns an INT/FLOAT assignment's right-hand side into a postfix token list (or null), and
    Postfix.QuickMath, which runs such a list on a stack of floats, reading declared names
    from the variable table. */
module Postfix {
  import opened Text
  import opened Variables

  /** The four operator characters, `+ / * -`, that both methods test against. */
  predicate IsOperator(c: char) { c == '+' || c == '/' || c == '*' || c == '-' }

  /** Priority: `* / %` bind tighter than `+ -`; every other character has -1. */
  function Priority(c: char): (p: int)
    ensures IsOperator(c) ==> 1 <= p <= 2
    ensures p == 2 <==> c == '*' || c == '/' || c == '%'
  {
    if c == '*' || c == '/' || c == '%' then 2
    else if c == '+' || c == '-' then 1
    else -1
  }

  // ---------------------------------------------------------------- ToPostFix

  /** The last character of t that is not white space, or default(char) when there is none:
      what `Reverse().Skip(Length - i).FirstOrDefault(...)` picks for t = s[..i]. */
  function Preceding(t: string): (c: char)
    ensures c == '\0' || (c in t && !IsWhiteSpace(c))
    ensures AllWhiteSpace(t) ==> c == '\0'
    ensures !AllWhiteSpace(t) ==> c in t && !IsWhiteSpace(c)
    decreases |t|
  {
    if |t| == 0 then '\0'
    else if !IsWhiteSpace(t[|t| - 1]) then t[|t| - 1]
    else
      var c := Preceding(t[..|t| - 1]);
      assert AllWhiteSpace(t) ==> AllWhiteSpace(t[..|t| - 1]);
      c
  }

  /** The `back` index: the first position in the whole string of the character Preceding
      picks; -1 where that character does not occur. */
  function Back(s: string, i: nat): int
    requires i <= |s|
  {
    IndexOf(s, Preceding(s[..i]))
  }

  /** Whether the `-` at i is read as a unary minus. */
  predicate IsUnaryMinus(s: string, i: nat)
    requires i < |s|
  {
    var back := Back(s, i);
    s[i] == '-' && (if back != -1 then s[back] == '(' || IsOperator(s[back]) else i == 0)
  }

  /** The locals of ToPostFix's loop: the operator stack (top last), the postfix stack (in
      push order), the word being read, and whether white space followed it. */
  datatype Scanner = Scanner(ops: seq<char>, out: seq<string>, word: string, beenSpace: bool)

  const Initial: Scanner := Scanner([], [], "", false)

  /** A word is pushed only when it is not empty. */
  function Words(w: string): seq<string> {
    if w != "" then [w] else []
  }

  datatype Popped = Popped(ops: seq<char>, out: seq<string>)

  /** The loop before an operator c is pushed: pops to the output while the top is not `(`
      and its priority is at least c's. */
  function PopHigher(ops: seq<char>, c: char, out: seq<string>): (r: Popped)
    ensures |r.ops| <= |ops| && r.ops == ops[..|r.ops|]
    decreases |ops|
  {
    if |ops| == 0 || ops[|ops| - 1] == '(' || Priority(ops[|ops| - 1]) < Priority(c) then Popped(ops, out)
    else PopHigher(ops[..|ops| - 1], c, out + [[ops[|ops| - 1]]])
  }

  /** The loop of a `)`: pops to the output down to the nearest `(`, which is dropped; None
      where Peek meets an empty stack first. */
  function PopToOpen(ops: seq<char>, out: seq<string>): Option<Popped>
    decreases |ops|
  {
    if |ops| == 0 then None
    else if ops[|ops| - 1] == '(' then Some(Popped(ops[..|ops| - 1], out))
    else PopToOpen(ops[..|ops| - 1], out + [[ops[|ops| - 1]]])
  }

  /** One character of ToPostFix's loop; None where the loop throws. */
  function StepAt(s: string, i: nat, sc: Scanner): Option<Scanner>
    requires i < |s|
  {
    var c := s[i];
    if IsWhiteSpace(c) then Some(sc.(beenSpace := true))
    else if IsDigit(c) || IsLetter(c) then
      if sc.word != "" && sc.beenSpace then None
      else Some(sc.(beenSpace := false, word := sc.word + [c]))
    else if IsOperator(c) then
      var out := sc.out + Words(sc.word);
      if IsUnaryMinus(s, i) then Some(Scanner(sc.ops + [c], out + ["0"], "", false))
      else
        var p := PopHigher(sc.ops, c, out);
        Some(Scanner(p.ops + [c], p.out, "", false))
    else if c == '(' then Some(sc.(ops := sc.ops + [c]))
    else if c == ')' then
      match PopToOpen(sc.ops, sc.out + [sc.word])
      case None => None
      case Some(p) => Some(sc.(ops := p.ops, out := p.out, word := ""))
    else None
  }

  /** The loop run over positions i..j-1, from state sc. */
  function ScanRange(s: string, i: nat, j: nat, sc: Scanner): Option<Scanner>
    requires i <= j <= |s|
    decreases j - i
  {
    if j == i then Some(sc)
    else
      match ScanRange(s, i, j - 1, sc)
      case None => None
      case Some(sc') => StepAt(s, j - 1, sc')
  }

  /** The loop after the last character: the operators left are popped, and a `(` among them
      throws. */
  function Drain(ops: seq<char>, out: seq<string>): Option<seq<string>>
    decreases |ops|
  {
    if |ops| == 0 then Some(out)
    else if ops[|ops| - 1] == '(' then None
    else Drain(ops[..|ops| - 1], out + [[ops[|ops| - 1]]])
  }

  /** What ToPostFix returns: the postfix tokens in push order, or None for null. */
  function ToPostFixOf(s: string): Option<seq<string>> {
    match ScanRange(s, 0, |s|, Initial)
    case None => None
    case Some(sc) => Drain(sc.ops, sc.out + Words(sc.word))
  }

  lemma {:induction false} ScanNoneAfter(s: string, i: nat, j: nat, k: nat, sc: Scanner)
    requires i <= j <= k <= |s| && ScanRange(s, i, j, sc) == None
    ensures ScanRange(s, i, k, sc) == None
    decreases k - j
  {
    if k > j {
      ScanNoneAfter(s, i, j, k - 1, sc);
    }
  }

  lemma {:induction false} ScanRangeAppend(s: string, i: nat, j: nat, k: nat, sc: Scanner)
    requires i <= j <= k <= |s|
    ensures ScanRange(s, i, k, sc)
         == match ScanRange(s, i, j, sc) case None => None case Some(x) => ScanRange(s, j, k, x)
    decreases k - j
  {
    if k > j {
      ScanRangeAppend(s, i, j, k - 1, sc);
      match ScanRange(s, i, j, sc)
      case None =>
        ScanRangeLast(s, i, k, sc);
      case Some(x) =>
        ScanRangeLast(s, i, k, sc);
        ScanRangeLast(s, j, k, x);
    }
  }

  lemma ScanRangeLast(s: string, i: nat, k: nat, sc: Scanner)
    requires i < k <= |s|
    ensures ScanRange(s, i, k, sc)
         == match ScanRange(s, i, k - 1, sc) case None => None case Some(x) => StepAt(s, k - 1, x)
  {
  }

  /** A character that is neither white space, a letter, a digit, an operator nor a
      parenthesis makes ToPostFix return null. */
  lemma InvalidCharFails(s: string, i: nat)
    requires i < |s|
    requires !IsWhiteSpace(s[i]) && !IsDigit(s[i]) && !IsLetter(s[i]) && !IsOperator(s[i])
    requires s[i] != '(' && s[i] != ')'
    ensures ToPostFixOf(s) == None
  {
    ScanNoneAfter(s, 0, i + 1, |s|, Initial);
  }

  lemma {:induction false} ScanSpaces(s: string, i: nat, j: nat, sc: Scanner)
    requires i < j <= |s| && AllWhiteSpace(s[i..j])
    ensures ScanRange(s, i, j, sc) == Some(sc.(beenSpace := true))
    decreases j - i
  {
    assert IsWhiteSpace(s[i..j][j - 1 - i]);
    if j - 1 > i {
      assert s[i..j - 1] == s[i..j][..j - 1 - i];
      ScanSpaces(s, i, j - 1, sc);
    }
  }

  lemma WordThenSpaceFails(s: string, j: nat, sc: Scanner)
    requires j < |s| && IsAlnum(s[j]) && sc.word != "" && sc.beenSpace
    ensures StepAt(s, j, sc) == None
  {
  }

  lemma WordStep(s: string, i: nat, sc: Scanner)
    requires i < |s| && IsAlnum(s[i]) && StepAt(s, i, sc).Some?
    ensures StepAt(s, i, sc).value.word != ""
  {
  }

  /** Two letter-or-digit runs with only white space between them make ToPostFix return
      null. */
  lemma SpacedWordsFail(s: string, i: nat, j: nat)
    requires i + 1 < j < |s| && IsAlnum(s[i]) && IsAlnum(s[j]) && AllWhiteSpace(s[i + 1..j])
    ensures ToPostFixOf(s) == None
  {
    ScanRangeAppend(s, 0, i + 1, j + 1, Initial);
    var first := ScanRange(s, 0, i + 1, Initial);
    if first.Some? {
      var sc := first.value;
      WordStep(s, i, ScanRange(s, 0, i, Initial).value);
      ScanRangeAppend(s, i + 1, j, j + 1, sc);
      ScanSpaces(s, i + 1, j, sc);
      WordThenSpaceFails(s, j, sc.(beenSpace := true));
    }
    ScanNoneAfter(s, 0, j + 1, |s|, Initial);
  }

  /** With no default character in the string, a `-` is unary exactly when it is the first
      character, or when the nearest character before it that is not white space is `(` or an
      operator. (A `-` after white space alone is binary.) */
  lemma UnaryMinusIff(s: string, i: nat)
    requires i < |s| && '\0' !in s
    ensures IsUnaryMinus(s, i)
        <==> s[i] == '-' && if AllWhiteSpace(s[..i]) then i == 0
                             else Preceding(s[..i]) == '(' || IsOperator(Preceding(s[..i]))
  {
    var c := Preceding(s[..i]);
    if !AllWhiteSpace(s[..i]) {
      assert c in s;
    }
  }

  /** The number of open parentheses minus closing ones. */
  function Depth(t: string): int {
    multiset(t)['('] as int - multiset(t)[')'] as int
  }

  /** Every prefix closes no more parentheses than it opened, and the whole opens and closes
      as many. */
  ghost predicate Balanced(s: string) {
    (forall i | 0 <= i <= |s| :: Depth(s[..i]) >= 0) && Depth(s) == 0
  }

  function Opens(ops: seq<char>): nat { multiset(ops)['('] }

  lemma {:induction false} PopHigherOpens(ops: seq<char>, c: char, out: seq<string>)
    ensures Opens(PopHigher(ops, c, out).ops) == Opens(ops)
    decreases |ops|
  {
    if !(|ops| == 0 || ops[|ops| - 1] == '(' || Priority(ops[|ops| - 1]) < Priority(c)) {
      assert ops == ops[..|ops| - 1] + [ops[|ops| - 1]];
      PopHigherOpens(ops[..|ops| - 1], c, out + [[ops[|ops| - 1]]]);
    }
  }

  lemma {:induction false} PopToOpenOpens(ops: seq<char>, out: seq<string>)
    ensures PopToOpen(ops, out).Some? ==> Opens(PopToOpen(ops, out).value.ops) + 1 == Opens(ops)
    decreases |ops|
  {
    if |ops| > 0 {
      assert ops == ops[..|ops| - 1] + [ops[|ops| - 1]];
      if ops[|ops| - 1] != '(' {
        PopToOpenOpens(ops[..|ops| - 1], out + [[ops[|ops| - 1]]]);
      }
    }
  }

  lemma {:induction false} DrainOpens(ops: seq<char>, out: seq<string>)
    ensures Drain(ops, out).Some? ==> Opens(ops) == 0
    decreases |ops|
  {
    if |ops| > 0 && ops[|ops| - 1] != '(' {
      assert ops == ops[..|ops| - 1] + [ops[|ops| - 1]];
      DrainOpens(ops[..|ops| - 1], out + [[ops[|ops| - 1]]]);
    }
  }

  lemma StepOpens(s: string, i: nat, sc: Scanner)
    requires i < |s| && StepAt(s, i, sc).Some?
    ensures Opens(StepAt(s, i, sc).value.ops)
         == Opens(sc.ops) + (if s[i] == '(' then 1 else 0) - (if s[i] == ')' then 1 else 0)
  {
    var c := s[i];
    if IsOperator(c) && !IsUnaryMinus(s, i) {
      PopHigherOpens(sc.ops, c, sc.out + Words(sc.word));
    } else if c == ')' {
      PopToOpenOpens(sc.ops, sc.out + [sc.word]);
    }
  }

  lemma DepthLast(s: string, i: nat)
    requires 0 < i <= |s|
    ensures Depth(s[..i])
         == Depth(s[..i - 1]) + (if s[i - 1] == '(' then 1 else 0) - (if s[i - 1] == ')' then 1 else 0)
  {
    assert s[..i] == s[..i - 1] + [s[i - 1]];
  }

  /** While the scan goes on, the `(` on the operator stack are the parentheses still open. */
  lemma {:induction false} ScanDepth(s: string, i: nat)
    requires i <= |s| && ScanRange(s, 0, i, Initial).Some?
    ensures Opens(ScanRange(s, 0, i, Initial).value.ops) == Depth(s[..i])
  {
    if i > 0 {
      var prev := ScanRange(s, 0, i - 1, Initial).value;
      ScanDepth(s, i - 1);
      StepOpens(s, i - 1, prev);
      DepthLast(s, i);
    }
  }

  /** ToPostFix returns null for every string whose parentheses are not balanced. */
  lemma SomeIsBalanced(s: string)
    requires ToPostFixOf(s).Some?
    ensures Balanced(s)
  {
    forall i | 0 <= i <= |s| ensures Depth(s[..i]) >= 0 {
      if ScanRange(s, 0, i, Initial).None? {
        ScanNoneAfter(s, 0, i, |s|, Initial);
      } else {
        ScanDepth(s, i);
      }
    }
    ScanDepth(s, |s|);
    var sc := ScanRange(s, 0, |s|, Initial).value;
    DrainOpens(sc.ops, sc.out + Words(sc.word));
    assert s[..|s|] == s;
  }

  method ToPostFix(s: string) returns (r: Option<seq<string>>)
    ensures r == ToPostFixOf(s)
  {
    var stack: seq<char> := [];
    var postfix: seq<string> := [];
    var word := "";
    var beenSpace := false;
    var i := 0;
    while i < |s|
      invariant 0 <= i <= |s|
      invariant ScanRange(s, 0, i, Initial) == Some(Scanner(stack, postfix, word, beenSpace))
    {
      ghost var next := StepAt(s, i, Scanner(stack, postfix, word, beenSpace));
      var c := s[i];
      if IsWhiteSpace(c) {
        beenSpace := true;
      } else if IsDigit(c) || IsLetter(c) {
        if word != "" && beenSpace {
          ScanNoneAfter(s, 0, i + 1, |s|, Initial);
          return None;
        }
        beenSpace := false;
        word := word + [c];
      } else if IsOperator(c) {
        ghost var out1 := postfix + Words(word);
        beenSpace := false;
        if word != "" {
          postfix := postfix + [word];
          word := "";
        }
        assert postfix == out1;
        var back := IndexOf(s, Preceding(s[..i]));
        if c == '-' && (if back != -1 then s[back] == '(' || IsOperator(s[back]) else i == 0) {
          assert IsUnaryMinus(s, i);
          postfix := postfix + ["0"];
          stack := stack + [c];
        } else {
          ghost var ops0, out0 := stack, postfix;
          while |stack| != 0 && stack[|stack| - 1] != '(' && Priority(stack[|stack| - 1]) >= Priority(c)
            invariant PopHigher(stack, c, postfix) == PopHigher(ops0, c, out0)
            decreases |stack|
          {
            postfix := postfix + [[stack[|stack| - 1]]];
            stack := stack[..|stack| - 1];
          }
          assert PopHigher(ops0, c, out0) == Popped(stack, postfix);
          stack := stack + [c];
        }
      } else if c == '(' {
        stack := stack + [c];
      } else if c == ')' {
        postfix := postfix + [word];
        word := "";
        ghost var ops0, out0 := stack, postfix;
        while |stack| == 0 || stack[|stack| - 1] != '('
          invariant PopToOpen(stack, postfix) == PopToOpen(ops0, out0)
          decreases |stack|
        {
          if |stack| == 0 {
            ScanNoneAfter(s, 0, i + 1, |s|, Initial);
            return None;
          }
          postfix := postfix + [[stack[|stack| - 1]]];
          stack := stack[..|stack| - 1];
        }
        assert PopToOpen(ops0, out0) == Some(Popped(stack[..|stack| - 1], postfix));
        stack := stack[..|stack| - 1];
      } else {
        ScanNoneAfter(s, 0, i + 1, |s|, Initial);
        return None;
      }
      assert next == Some(Scanner(stack, postfix, word, beenSpace));
      i := i + 1;
    }
    assert ScanRange(s, 0, |s|, Initial) == Some(Scanner(stack, postfix, word, beenSpace));
    ghost var flushed := postfix + Words(word);
    if word != "" {
      postfix := postfix + [word];
    }
    assert postfix == flushed;
    ghost var ops0, out0 := stack, postfix;
    while |stack| != 0
      invariant Drain(stack, postfix) == Drain(ops0, out0)
      decreases |stack|
    {
      if stack[|stack| - 1] == '(' {
        return None;
      }
      postfix := postfix + [[stack[|stack| - 1]]];
      stack := stack[..|stack| - 1];
    }
    r := Some(postfix);
  }

  // ---------------------------------------------------------------- QuickMath

  /** The cast `(float)` of a table value read through the `Variables` property, whose
      static type is object: an unboxing, which succeeds only for a boxed float and throws
      InvalidCastException for an int, a bool, a char or a string. */
  function AsFloat(v: Value): (r: Option<real>)
    ensures r.Some? <==> v.FloatV?
    ensures v.FloatV? ==> r == Some(v.r)
  {
    match v
    case FloatV(r) => Some(r)
    case _ => None
  }

  /** Whether the string of the four operator characters contains t as a piece; the empty
      string is a piece of every string. */
  predicate IsOperatorToken(t: string) { Occurs(t, "+/*-") }

  /** The value an operator token pushes for x (popped second) and y (popped first); a token
      that is no single operator leaves `value` at 0. Division by zero, which gives an infinity
      or NaN in single precision, is left unspecified as 0. */
  function Arith(t: string, x: real, y: real): real {
    if t == "+" then x + y
    else if t == "-" then x - y
    else if t == "/" then (if y == 0.0 then 0.0 else x / y)
    else if t == "*" then x * y
    else 0.0
  }

  /** The stack after one token, and whether the loop goes on (false where it throws). */
  datatype Quick = Quick(stack: seq<real>, going: bool)

  /** One token of QuickMath's loop. An operator token that underflows the stack throws after
      having popped what there was. */
  function QuickStep(stack: seq<real>, t: string, vars: map<string, Value>): Quick {
    if t in vars then
      match AsFloat(vars[t])
      case Some(x) => Quick(stack + [x], true)
      case None => Quick(stack, false)
    else if IsOperatorToken(t) then
      if |stack| < 2 then Quick([], false)
      else Quick(stack[..|stack| - 2] + [Arith(t, stack[|stack| - 2], stack[|stack| - 1])], true)
    else
      match ParseFloat(t)
      case Some(x) => Quick(stack + [x], true)
      case None => Quick(stack, false)
  }

  /** The loop over the tokens, stopping at the first one that throws. */
  function QuickRun(post: seq<string>, vars: map<string, Value>, stack: seq<real>): Quick
    decreases |post|
  {
    if post == [] then Quick(stack, true)
    else
      var q := QuickStep(stack, post[0], vars);
      if q.going then QuickRun(post[1..], vars, q.stack) else q
  }

  /** What QuickMath returns: the top of the stack where the loop stopped; None where the
      final Pop meets an empty stack and its exception leaves QuickMath. */
  function QuickMathOf(post: seq<string>, vars: map<string, Value>): Option<real> {
    var q := QuickRun(post, vars, []);
    if |q.stack| == 0 then None else Some(q.stack[|q.stack| - 1])
  }

  lemma QuickRunAt(post: seq<string>, i: nat, vars: map<string, Value>, stack: seq<real>)
    requires i < |post|
    ensures QuickRun(post[i..], vars, stack)
         == var q := QuickStep(stack, post[i], vars);
            if q.going then QuickRun(post[i + 1..], vars, q.stack) else q
  {
    assert post[i..][0] == post[i] && post[i..][1..] == post[i + 1..];
  }

  /** The body of QuickMath's foreach for one token: the new stack, and false where the
      token throws. */
  method QuickMathToken(stack: seq<real>, t: string, vars: map<string, Value>)
    returns (stack': seq<real>, going: bool)
    ensures Quick(stack', going) == QuickStep(stack, t, vars)
  {
    stack', going := stack, true;
    if t in vars {
      var value := AsFloat(vars[t]);
      if value.None? {
        going := false;
      } else {
        stack' := stack + [value.value];
      }
    } else if IsOperatorToken(t) {
      if |stack| < 2 {
        stack', going := [], false;
      } else {
        var y := stack[|stack| - 1];
        var x := stack[|stack| - 2];
        stack' := stack[..|stack| - 2] + [Arith(t, x, y)];
      }
    } else {
      var value := ParseFloat(t);
      if value.None? {
        going := false;
      } else {
        stack' := stack + [value.value];
      }
    }
  }

  method QuickMath(post: seq<string>, vars: map<string, Value>) returns (r: Option<real>)
    ensures r == QuickMathOf(post, vars)
  {
    var stack: seq<real> := [];
    var i := 0;
    var thrown := false;
    while i < |post| && !thrown
      invariant 0 <= i <= |post|
      invariant QuickRun(post, vars, []) == if thrown then Quick(stack, false) else QuickRun(post[i..], vars, stack)
    {
      QuickRunAt(post, i, vars, stack);
      var going;
      stack, going := QuickMathToken(stack, post[i], vars);
      thrown := !going;
      i := i + 1;
    }
    QuickMathResult(post, vars, stack, thrown, i);
    if |stack| == 0 {
      return None;
    }
    r := Some(stack[|stack| - 1]);
  }

  /** Where QuickMath's loop ends, the stack it holds is the one QuickMathOf reads. */
  lemma QuickMathResult(post: seq<string>, vars: map<string, Value>, stack: seq<real>, thrown: bool, i: nat)
    requires i <= |post| && (i == |post| || thrown)
    requires QuickRun(post, vars, []) == if thrown then Quick(stack, false) else QuickRun(post[i..], vars, stack)
    ensures QuickMathOf(post, vars) == if |stack| == 0 then None else Some(stack[|stack| - 1])
  {
    if !thrown {
      assert post[i..] == [];
    }
  }

  // ---------------------------------------------------------------- Expressions

  /** An assignment's right-hand side as ToPostFix reads it: a word of letters and digits (a
      number or a variable name), a binary operator application, or a parenthesized group. */
  datatype Term = Leaf(w: string) | Op(op: char, l: Term, r: Term) | Paren(g: Term)

  /** How tightly a term holds together without parentheses of its own. */
  function Rank(e: Term): int {
    if e.Op? then Priority(e.op) else 3
  }

  /** The word ToPostFix is still holding when the term's text ends: its last word, or ""
      after a closing parenthesis. */
  function LastWord(e: Term): string {
    match e
    case Leaf(w) => w
    case Op(_, _, r) => LastWord(r)
    case Paren(_) => ""
  }

  /** The terms whose text standard precedence with left association reads back as the same
      tree: a left operand binds at least as tightly as its operator, a right operand more;
      and no group's contents end in a group of their own, since a `)` right after a `)`
      pushes an empty word. */
  predicate WellFormed(e: Term) {
    match e
    case Leaf(w) => w != "" && AllAlnum(w)
    case Paren(g) => WellFormed(g) && LastWord(g) != ""
    case Op(op, l, r) =>
      IsOperator(op) && WellFormed(l) && WellFormed(r)
      && Rank(l) >= Priority(op) && Rank(r) > Priority(op)
  }

  function Render(e: Term): string {
    match e
    case Leaf(w) => w
    case Op(op, l, r) => Render(l) + [op] + Render(r)
    case Paren(g) => "(" + Render(g) + ")"
  }

  /** The postfix form: operands first, then the operator; a group is its contents. */
  function PostfixOf(e: Term): seq<string> {
    match e
    case Leaf(w) => [w]
    case Op(op, l, r) => PostfixOf(l) + PostfixOf(r) + [[op]]
    case Paren(g) => PostfixOf(g)
  }

  /** A word's value: a declared variable's, else the number it spells. */
  function WordValue(w: string, vars: map<string, Value>): Option<real> {
    if w in vars then AsFloat(vars[w]) else ParseFloat(w)
  }

  /** The value of a term, or None where a word has none. */
  function TermValue(e: Term, vars: map<string, Value>): Option<real> {
    match e
    case Leaf(w) => WordValue(w, vars)
    case Paren(g) => TermValue(g, vars)
    case Op(op, l, r) =>
      match (TermValue(l, vars), TermValue(r, vars))
      case (Some(x), Some(y)) => Some(Arith([op], x, y))
      case _ => None
  }

  lemma {:induction false} RenderShape(e: Term)
    requires WellFormed(e)
    ensures |Render(e)| > 0
    ensures IsAlnum(Render(e)[0]) || Render(e)[0] == '('
    ensures IsAlnum(Render(e)[|Render(e)| - 1]) || Render(e)[|Render(e)| - 1] == ')'
  {
    match e
    case Leaf(w) =>
    case Op(op, l, r) =>
      RenderShape(l);
      RenderShape(r);
    case Paren(g) =>
  }

  /** The operators of e still on the stack when its text has been read: those down its right
      spine, outermost lowest. */
  function Pending(e: Term): seq<char> {
    if e.Op? then [e.op] + Pending(e.r) else []
  }

  /** What e has pushed to the postfix stack by then. */
  function Emitted(e: Term): seq<string> {
    match e
    case Leaf(_) => []
    case Op(_, l, r) => PostfixOf(l) + Emitted(r)
    case Paren(g) => PostfixOf(g)
  }

  /** The order in which operators are popped off a stack: top first. */
  function PopOrder(ops: seq<char>): seq<string>
    decreases |ops|
  {
    if |ops| == 0 then [] else [[ops[|ops| - 1]]] + PopOrder(ops[..|ops| - 1])
  }

  lemma {:induction false} PopOrderCons(c: char, ops: seq<char>)
    ensures PopOrder([c] + ops) == PopOrder(ops) + [[c]]
    decreases |ops|
  {
    if |ops| > 0 {
      assert ([c] + ops)[..|ops|] == [c] + ops[..|ops| - 1];
      PopOrderCons(c, ops[..|ops| - 1]);
    } else {
      assert ([c] + ops)[..0] == [];
    }
  }

  lemma {:induction false} PostfixSplit(e: Term)
    requires WellFormed(e)
    ensures PostfixOf(e) == Emitted(e) + Words(LastWord(e)) + PopOrder(Pending(e))
  {
    match e
    case Leaf(w) =>
    case Paren(g) =>
    case Op(op, l, r) =>
      PostfixSplit(r);
      PopOrderCons(op, Pending(r));
  }

  /** Every operator in ps is pushed and has priority k or more. */
  predicate PendingOps(ps: seq<char>, k: int) {
    forall i | 0 <= i < |ps| :: IsOperator(ps[i]) && Priority(ps[i]) >= k
  }

  lemma {:induction false} PendingBound(e: Term)
    requires WellFormed(e)
    ensures PendingOps(Pending(e), Rank(e))
  {
    if e.Op? {
      PendingBound(e.r);
    }
  }

  /** Every operator above the innermost `(` has a priority below k. */
  predicate Guard(ops: seq<char>, k: int)
    decreases |ops|
  {
    |ops| == 0 || ops[|ops| - 1] == '('
    || (Priority(ops[|ops| - 1]) < k && Guard(ops[..|ops| - 1], k))
  }

  lemma {:induction false} GuardWeaken(ops: seq<char>, k: int, k': int)
    requires Guard(ops, k) && k <= k'
    ensures Guard(ops, k')
    decreases |ops|
  {
    if |ops| > 0 && ops[|ops| - 1] != '(' {
      GuardWeaken(ops[..|ops| - 1], k, k');
    }
  }

  /** The pop loop before an operator c takes every pending operator of priority c or more,
      and then stops at a guarded stack. */
  lemma {:induction false} PopHigherPending(base: seq<char>, ps: seq<char>, c: char, out: seq<string>)
    requires PendingOps(ps, Priority(c)) && Guard(base, Priority(c))
    ensures PopHigher(base + ps, c, out) == Popped(base, out + PopOrder(ps))
    decreases |ps|
  {
    if |ps| == 0 {
      assert base + ps == base;
    } else {
      PopHigherStep(base, ps, c, out);
      PopHigherPending(base, ps[..|ps| - 1], c, out + [[ps[|ps| - 1]]]);
      PopOrderLast(ps, out);
    }
  }

  lemma PopHigherStep(base: seq<char>, ps: seq<char>, c: char, out: seq<string>)
    requires |ps| > 0 && IsOperator(ps[|ps| - 1]) && Priority(ps[|ps| - 1]) >= Priority(c)
    ensures PopHigher(base + ps, c, out) == PopHigher(base + ps[..|ps| - 1], c, out + [[ps[|ps| - 1]]])
  {
    var all := base + ps;
    assert all[..|all| - 1] == base + ps[..|ps| - 1];
    assert all[|all| - 1] == ps[|ps| - 1];
  }

  lemma PopOrderLast(ps: seq<char>, out: seq<string>)
    requires |ps| > 0
    ensures out + [[ps[|ps| - 1]]] + PopOrder(ps[..|ps| - 1]) == out + PopOrder(ps)
  {
  }

  /** The `)` loop pops the pending operators and then the `(` below them. */
  lemma {:induction false} PopToOpenPending(base: seq<char>, ps: seq<char>, out: seq<string>)
    requires PendingOps(ps, 1)
    ensures PopToOpen(base + ['('] + ps, out) == Some(Popped(base, out + PopOrder(ps)))
    decreases |ps|
  {
    var all := base + ['('] + ps;
    if |ps| == 0 {
      assert all[..|all| - 1] == base && all[|all| - 1] == '(';
      assert out + PopOrder(ps) == out;
    } else {
      assert all[..|all| - 1] == base + ['('] + ps[..|ps| - 1];
      assert all[|all| - 1] == ps[|ps| - 1] && IsOperator(ps[|ps| - 1]);
      PopToOpenPending(base, ps[..|ps| - 1], out + [[ps[|ps| - 1]]]);
      assert out + [[ps[|ps| - 1]]] + PopOrder(ps[..|ps| - 1]) == out + PopOrder(ps);
    }
  }

  lemma {:induction false} DrainPending(ps: seq<char>, out: seq<string>)
    requires PendingOps(ps, 1)
    ensures Drain(ps, out) == Some(out + PopOrder(ps))
    decreases |ps|
  {
    if |ps| > 0 {
      assert IsOperator(ps[|ps| - 1]);
      DrainPending(ps[..|ps| - 1], out + [[ps[|ps| - 1]]]);
      assert out + [[ps[|ps| - 1]]] + PopOrder(ps[..|ps| - 1]) == out + PopOrder(ps);
    } else {
      assert out + PopOrder(ps) == out;
    }
  }

  /** A letter or digit run read from an empty word, with no white space seen, becomes the
      word. */
  lemma {:induction false} ScanWord(s: string, i: nat, j: nat, sc: Scanner)
    requires i <= j <= |s| && sc.word == "" && !sc.beenSpace
    requires forall k | i <= k < j :: IsAlnum(s[k])
    ensures ScanRange(s, i, j, sc) == Some(sc.(word := s[i..j]))
    decreases j - i
  {
    if j > i {
      ScanWord(s, i, j - 1, sc);
      StepAlnum(s, j - 1, sc.(word := s[i..j - 1]));
      assert s[i..j] == s[i..j - 1] + [s[j - 1]];
    }
  }

  /** A letter or digit joins the word when no white space has followed it. */
  lemma StepAlnum(s: string, k: nat, sc: Scanner)
    requires k < |s| && IsAlnum(s[k]) && !sc.beenSpace
    ensures StepAt(s, k, sc) == Some(sc.(word := sc.word + [s[k]]))
  {
    assert !IsWhiteSpace(s[k]);
  }

  /** A `-` right after a letter, digit or `)` is binary. */
  lemma NotUnary(s: string, j: nat)
    requires 0 < j < |s| && (IsAlnum(s[j - 1]) || s[j - 1] == ')')
    ensures !IsUnaryMinus(s, j)
  {
    assert s[..j][j - 1] == s[j - 1];
    assert Preceding(s[..j]) == s[j - 1];
  }

  /** A binary operator after an operand whose pending operators are ps. */
  lemma StepBinary(s: string, j: nat, sc: Scanner, base: seq<char>, ps: seq<char>)
    requires 0 < j < |s| && IsOperator(s[j]) && (IsAlnum(s[j - 1]) || s[j - 1] == ')')
    requires sc.ops == base + ps && PendingOps(ps, Priority(s[j])) && Guard(base, Priority(s[j]))
    ensures StepAt(s, j, sc) == Some(Scanner(base + [s[j]], sc.out + Words(sc.word) + PopOrder(ps), "", false))
  {
    NotUnary(s, j);
    PopHigherPending(base, ps, s[j], sc.out + Words(sc.word));
  }

  lemma StepClose(s: string, j: nat, sc: Scanner, base: seq<char>, ps: seq<char>)
    requires j < |s| && s[j] == ')' && sc.ops == base + ['('] + ps && PendingOps(ps, 1)
    ensures StepAt(s, j, sc)
         == Some(Scanner(base, sc.out + [sc.word] + PopOrder(ps), "", sc.beenSpace))
  {
    PopToOpenPending(base, ps, sc.out + [sc.word]);
  }

  /** The state after reading a term's text. */
  function After(sc: Scanner, e: Term): Scanner {
    Scanner(sc.ops + Pending(e), sc.out + Emitted(e), LastWord(e), false)
  }

  lemma ScanExtend(s: string, i: nat, j: nat, a: Scanner, b: Scanner, c: Scanner)
    requires i <= j < |s| && ScanRange(s, i, j, a) == Some(b) && StepAt(s, j, b) == Some(c)
    ensures ScanRange(s, i, j + 1, a) == Some(c)
  {
  }

  lemma ScanCompose(s: string, i: nat, j: nat, k: nat, a: Scanner, b: Scanner, c: Scanner)
    requires i <= j <= k <= |s|
    requires ScanRange(s, i, j, a) == Some(b) && ScanRange(s, j, k, b) == Some(c)
    ensures ScanRange(s, i, k, a) == Some(c)
  {
    ScanRangeAppend(s, i, j, k, a);
  }

  /** s holds the text t from position i on. */
  predicate HoldsAt(s: string, i: nat, t: string) {
    i + |t| <= |s| && s[i..i + |t|] == t
  }

  /** Reading the text of a well-formed term, placed anywhere in s, pushes its pending
      operators and the rest of its postfix form, provided no word is held and the operators
      on the stack above the innermost `(` bind more loosely. */
  lemma {:induction false} ScanTerm(e: Term, s: string, i: nat, sc: Scanner)
    requires WellFormed(e) && HoldsAt(s, i, Render(e))
    requires sc.word == "" && !sc.beenSpace && Guard(sc.ops, Rank(e))
    ensures ScanRange(s, i, i + |Render(e)|, sc) == Some(After(sc, e))
    decreases e, 3
  {
    match e
    case Leaf(w) =>
      ScanLeaf(w, s, i, sc);
    case Paren(g) =>
      ScanParenAt(g, s, i, sc);
    case Op(op, l, r) =>
      ScanOpAt(op, l, r, s, i, sc);
  }

  lemma {:induction false} ScanParenAt(g: Term, s: string, i: nat, sc: Scanner)
    requires WellFormed(Paren(g)) && HoldsAt(s, i, Render(Paren(g)))
    requires sc.word == "" && !sc.beenSpace && Guard(sc.ops, Rank(Paren(g)))
    ensures ScanRange(s, i, i + |Render(Paren(g))|, sc) == Some(After(sc, Paren(g)))
    decreases Paren(g), 2
  {
    ParenText(g, s, i);
    ScanParen(g, s, i, i + 1 + |Render(g)|, i + |Render(Paren(g))|, sc);
  }

  lemma {:induction false} ScanOpAt(op: char, l: Term, r: Term, s: string, i: nat, sc: Scanner)
    requires WellFormed(Op(op, l, r)) && HoldsAt(s, i, Render(Op(op, l, r)))
    requires sc.word == "" && !sc.beenSpace && Guard(sc.ops, Rank(Op(op, l, r)))
    ensures ScanRange(s, i, i + |Render(Op(op, l, r))|, sc) == Some(After(sc, Op(op, l, r)))
    decreases Op(op, l, r), 2
  {
    OpText(op, l, r, s, i);
    ScanOp(op, l, r, s, i, i + |Render(l)|, i + |Render(Op(op, l, r))|, sc);
  }

  lemma ScanLeaf(w: string, s: string, i: nat, sc: Scanner)
    requires WellFormed(Leaf(w)) && HoldsAt(s, i, w)
    requires sc.word == "" && !sc.beenSpace
    ensures ScanRange(s, i, i + |w|, sc) == Some(After(sc, Leaf(w)))
  {
    LeafText(w, s, i);
    ScanWord(s, i, i + |w|, sc);
    assert sc.ops + [] == sc.ops && sc.out + [] == sc.out;
  }

  lemma LeafText(w: string, s: string, i: nat)
    requires AllAlnum(w) && HoldsAt(s, i, w)
    ensures forall k | i <= k < i + |w| :: IsAlnum(s[k])
    ensures s[i..i + |w|] == w
  {
    forall k | i <= k < i + |w| ensures IsAlnum(s[k]) {
      assert s[k] == s[i..i + |w|][k - i];
    }
  }

  /** A group whose contents' text runs from i + 1 to j, closed at j. */
  lemma {:induction false} ScanParen(g: Term, s: string, i: nat, j: nat, k: nat, sc: Scanner)
    requires WellFormed(Paren(g)) && j == i + 1 + |Render(g)| && k == j + 1
    requires HoldsAt(s, i + 1, Render(g)) && j < |s| && s[i] == '(' && s[j] == ')'
    requires sc.word == "" && !sc.beenSpace
    ensures ScanRange(s, i, k, sc) == Some(After(sc, Paren(g)))
    decreases Paren(g), 0
  {
    StepOpenAt(s, i, sc);
    ScanExtend(s, i, i, sc, sc, Opened(sc));
    ScanTerm(g, s, i + 1, Opened(sc));
    ScanCompose(s, i, i + 1, j, sc, Opened(sc), After(Opened(sc), g));
    CloseAfter(g, s, j, sc);
    ScanExtend(s, i, j, sc, After(Opened(sc), g), After(sc, Paren(g)));
  }

  /** The state after a `(`. */
  function Opened(sc: Scanner): Scanner {
    sc.(ops := sc.ops + ['('])
  }

  lemma ParenText(g: Term, s: string, i: nat)
    requires HoldsAt(s, i, Render(Paren(g)))
    ensures |Render(Paren(g))| == |Render(g)| + 2
    ensures i + 1 + |Render(g)| < |s| && s[i] == '(' && s[i + 1 + |Render(g)|] == ')'
    ensures HoldsAt(s, i + 1, Render(g))
  {
    WrapAt(s, i, Render(g));
  }

  lemma HoldsChar(s: string, i: nat, t: string, k: nat)
    requires HoldsAt(s, i, t) && k < |t|
    ensures s[i + k] == t[k]
  {
    assert s[i + k] == s[i..i + |t|][k];
  }

  lemma HoldsPart(s: string, i: nat, t: string, a: nat, b: nat)
    requires HoldsAt(s, i, t) && a <= b <= |t|
    ensures HoldsAt(s, i + a, t[a..b])
  {
    var u := s[i..i + |t|];
    assert forall k | 0 <= k < b - a :: s[i + a..i + b][k] == u[a + k] == u[a..b][k];
    assert s[i + a..i + b] == u[a..b];
  }

  /** A parenthesized text placed at i. */
  lemma WrapAt(s: string, i: nat, a: string)
    requires HoldsAt(s, i, "(" + a + ")")
    ensures i + 1 + |a| < |s| && s[i] == '(' && s[i + 1 + |a|] == ')'
    ensures HoldsAt(s, i + 1, a)
  {
    var t := "(" + a + ")";
    HoldsChar(s, i, t, 0);
    HoldsChar(s, i, t, |a| + 1);
    HoldsPart(s, i, t, 1, |a| + 1);
    assert t[1..|a| + 1] == a;
  }

  /** Two texts joined by a character, placed at i. */
  lemma JoinAt(s: string, i: nat, a: string, op: char, b: string)
    requires HoldsAt(s, i, a + [op] + b)
    ensures i + |a| < |s| && s[i + |a|] == op
    ensures HoldsAt(s, i, a) && HoldsAt(s, i + |a| + 1, b)
    ensures |a| > 0 ==> s[i + |a| - 1] == a[|a| - 1]
  {
    var t := a + [op] + b;
    HoldsChar(s, i, t, |a|);
    HoldsPart(s, i, t, 0, |a|);
    HoldsPart(s, i, t, |a| + 1, |t|);
    assert t[..|a|] == a && t[|a| + 1..|t|] == b;
    if |a| > 0 {
      HoldsChar(s, i, t, |a| - 1);
    }
  }

  lemma StepOpenAt(s: string, i: nat, sc: Scanner)
    requires i < |s| && s[i] == '('
    ensures StepAt(s, i, sc) == Some(Opened(sc))
  {
  }

  /** The `)` step of ScanParen. */
  lemma CloseAfter(g: Term, s: string, j: nat, sc: Scanner)
    requires WellFormed(Paren(g)) && j < |s| && s[j] == ')'
    ensures StepAt(s, j, After(Opened(sc), g)) == Some(After(sc, Paren(g)))
  {
    var sc2 := After(Opened(sc), g);
    PendingBound(g);
    assert PendingOps(Pending(g), 1);
    StepClose(s, j, sc2, sc.ops, Pending(g));
    PostfixSplit(g);
    assert Words(LastWord(g)) == [LastWord(g)];
    assert sc2.out + [sc2.word] + PopOrder(Pending(g)) == sc.out + PostfixOf(g);
    assert sc.ops + Pending(Paren(g)) == sc.ops && Emitted(Paren(g)) == PostfixOf(g);
  }

  /** The state after a left operand l and the operator op that follows it. */
  function Mid(sc: Scanner, op: char, l: Term): Scanner {
    Scanner(sc.ops + [op], sc.out + PostfixOf(l), "", false)
  }

  /** An operator application whose left operand's text runs from i to j, whose operator sits
      at j, and whose right operand's text runs from j + 1 to k. */
  lemma {:induction false} ScanOp(op: char, l: Term, r: Term, s: string, i: nat, j: nat, k: nat, sc: Scanner)
    requires IsOperator(op) && WellFormed(l) && WellFormed(r)
    requires Rank(l) >= Priority(op) && Rank(r) > Priority(op)
    requires j == i + |Render(l)| && k == j + 1 + |Render(r)|
    requires HoldsAt(s, i, Render(l)) && HoldsAt(s, j + 1, Render(r))
    requires 0 < j < |s| && s[j] == op && (IsAlnum(s[j - 1]) || s[j - 1] == ')')
    requires sc.word == "" && !sc.beenSpace && Guard(sc.ops, Priority(op))
    ensures k <= |s| && ScanRange(s, i, k, sc) == Some(After(sc, Op(op, l, r)))
    decreases Op(op, l, r), 1
  {
    ScanLeft(op, l, r, s, i, j, sc);
    ScanRight(op, l, r, s, j + 1, k, sc);
    ScanCompose(s, i, j + 1, k, sc, Mid(sc, op, l), After(sc, Op(op, l, r)));
  }

  lemma OpText(op: char, l: Term, r: Term, s: string, i: nat)
    requires WellFormed(l) && HoldsAt(s, i, Render(Op(op, l, r)))
    ensures |Render(Op(op, l, r))| == |Render(l)| + 1 + |Render(r)|
    ensures HoldsAt(s, i, Render(l)) && HoldsAt(s, i + |Render(l)| + 1, Render(r))
    ensures 0 < i + |Render(l)| < |s| && s[i + |Render(l)|] == op
    ensures IsAlnum(s[i + |Render(l)| - 1]) || s[i + |Render(l)| - 1] == ')'
  {
    RenderShape(l);
    JoinAt(s, i, Render(l), op, Render(r));
  }

  /** The left operand and the operator of ScanOp. */
  lemma {:induction false} ScanLeft(op: char, l: Term, r: Term, s: string, i: nat, j: nat, sc: Scanner)
    requires IsOperator(op) && WellFormed(l) && Rank(l) >= Priority(op)
    requires j == i + |Render(l)| && HoldsAt(s, i, Render(l))
    requires 0 < j < |s| && s[j] == op && (IsAlnum(s[j - 1]) || s[j - 1] == ')')
    requires sc.word == "" && !sc.beenSpace && Guard(sc.ops, Priority(op))
    ensures ScanRange(s, i, j + 1, sc) == Some(Mid(sc, op, l))
    decreases Op(op, l, r), 0
  {
    GuardWeaken(sc.ops, Priority(op), Rank(l));
    ScanTerm(l, s, i, sc);
    ScanOperator(op, l, s, j, sc);
    ScanExtend(s, i, j, sc, After(sc, l), Mid(sc, op, l));
  }

  /** The right operand of ScanOp, whose text runs from j to k. */
  lemma {:induction false} ScanRight(op: char, l: Term, r: Term, s: string, j: nat, k: nat, sc: Scanner)
    requires IsOperator(op) && WellFormed(r) && Rank(r) > Priority(op)
    requires k == j + |Render(r)| && HoldsAt(s, j, Render(r))
    requires sc.word == "" && !sc.beenSpace && Guard(sc.ops, Priority(op))
    ensures k <= |s| && ScanRange(s, j, k, Mid(sc, op, l)) == Some(After(sc, Op(op, l, r)))
    decreases Op(op, l, r), 0
  {
    GuardWeaken(sc.ops, Priority(op), Rank(r));
    GuardPush(sc.ops, op, Rank(r));
    ScanTerm(r, s, j, Mid(sc, op, l));
    AfterOp(op, l, r, sc);
  }

  lemma GuardPush(ops: seq<char>, op: char, k: int)
    requires Guard(ops, k) && Priority(op) < k
    ensures Guard(ops + [op], k)
  {
    assert (ops + [op])[..|ops|] == ops;
  }

  lemma AfterOp(op: char, l: Term, r: Term, sc: Scanner)
    ensures After(Mid(sc, op, l), r) == After(sc, Op(op, l, r))
  {
  }

  /** The operator step of ScanOp. */
  lemma ScanOperator(op: char, l: Term, s: string, j: nat, sc: Scanner)
    requires WellFormed(l) && IsOperator(op) && Rank(l) >= Priority(op)
    requires 0 < j < |s| && s[j] == op && (IsAlnum(s[j - 1]) || s[j - 1] == ')')
    requires Guard(sc.ops, Priority(op))
    ensures StepAt(s, j, After(sc, l)) == Some(Mid(sc, op, l))
  {
    PendingAbove(l, op);
    StepBinary(s, j, After(sc, l), sc.ops, Pending(l));
    PostfixAfter(sc.out, l);
  }

  lemma PendingAbove(l: Term, op: char)
    requires WellFormed(l) && IsOperator(op) && Rank(l) >= Priority(op)
    ensures PendingOps(Pending(l), Priority(op))
  {
    PendingBound(l);
  }

  /** Pushing the held word and popping the pending operators completes the postfix form. */
  lemma PostfixAfter(out: seq<string>, e: Term)
    requires WellFormed(e)
    ensures After(Scanner([], out, "", false), e).out + Words(LastWord(e)) + PopOrder(Pending(e))
         == out + PostfixOf(e)
  {
    PostfixSplit(e);
  }

  // ---------------------------------------------------------------- Theorems

  /** ToPostFix reads the text of every well-formed term back as the term's postfix form. */
  lemma ToPostFixOfRender(e: Term)
    requires WellFormed(e)
    ensures ToPostFixOf(Render(e)) == Some(PostfixOf(e))
  {
    ScanWhole(e);
    DrainAfter(e);
  }

  lemma ScanWhole(e: Term)
    requires WellFormed(e)
    ensures ScanRange(Render(e), 0, |Render(e)|, Initial) == Some(After(Initial, e))
  {
    var s := Render(e);
    assert s[0..|s|] == s;
    ScanTerm(e, s, 0, Initial);
  }

  /** The operators a term's text leaves on the stack are drained to its postfix form. */
  lemma DrainAfter(e: Term)
    requires WellFormed(e)
    ensures Drain(After(Initial, e).ops, After(Initial, e).out + Words(LastWord(e))) == Some(PostfixOf(e))
  {
    var sc := After(Initial, e);
    var out := sc.out + Words(LastWord(e));
    assert sc.ops == Pending(e) && out + PopOrder(Pending(e)) == PostfixOf(e) by {
      PostfixAfter([], e);
      assert [] + PostfixOf(e) == PostfixOf(e);
    }
    assert PendingOps(Pending(e), 1) by {
      PendingBound(e);
    }
    DrainPending(Pending(e), out);
  }

  /** No operator character names a variable (the interpreter's names are identifiers). */
  predicate NoOperatorKeys(vars: map<string, Value>) {
    "+" !in vars && "-" !in vars && "*" !in vars && "/" !in vars
  }

  /** A word that starts with a letter or digit is no piece of the operator string. */
  lemma {:induction false} WordNotOperator(w: string, ops: string)
    requires |w| > 0 && IsAlnum(w[0]) && forall k | 0 <= k < |ops| :: IsOperator(ops[k])
    ensures !Occurs(w, ops)
    decreases |ops|
  {
    if |w| <= |ops| {
      assert ops[..|w|][0] == ops[0];
    }
    if |ops| > 0 {
      WordNotOperator(w, ops[1..]);
    }
  }

  /** A single operator character is a piece of the operator string. */
  lemma OperatorToken(op: char)
    requires IsOperator(op)
    ensures IsOperatorToken([op])
  {
    var ops := "+/*-";
    if op == '+' {
      assert ops[..1] == [op];
    } else if op == '/' {
      assert ops[1..][..1] == [op];
    } else if op == '*' {
      assert ops[1..][1..][..1] == [op];
    } else {
      assert ops[1..][1..][1..][..1] == [op];
    }
  }

  /** QuickMath's loop over two lists in a row is the loop over the first, and then, unless
      it threw, over the second. */
  lemma {:induction false} QuickRunAppend(a: seq<string>, b: seq<string>, vars: map<string, Value>, stack: seq<real>)
    ensures QuickRun(a + b, vars, stack)
         == var q := QuickRun(a, vars, stack); if q.going then QuickRun(b, vars, q.stack) else q
    decreases |a|
  {
    if a == [] {
      assert a + b == b;
    } else {
      assert (a + b)[0] == a[0] && (a + b)[1..] == a[1..] + b;
      var q := QuickStep(stack, a[0], vars);
      if q.going {
        QuickRunAppend(a[1..], b, vars, q.stack);
      }
    }
  }

  /** A word pushes its value, or stops the loop where it has none. */
  lemma QuickLeaf(w: string, vars: map<string, Value>, stack: seq<real>)
    requires WellFormed(Leaf(w)) && NoOperatorKeys(vars)
    ensures QuickRun([w], vars, stack)
         == match WordValue(w, vars) case Some(x) => Quick(stack + [x], true) case None => Quick(stack, false)
  {
    WordNotOperator(w, "+/*-");
    assert [w][0] == w && [w][1..] == [];
  }

  /** An operator token on a stack ending in x and y replaces them by its result. */
  lemma QuickOperator(op: char, vars: map<string, Value>, stack: seq<real>, x: real, y: real)
    requires IsOperator(op) && NoOperatorKeys(vars)
    ensures QuickRun([[op]], vars, stack + [x] + [y]) == Quick(stack + [Arith([op], x, y)], true)
  {
    OperatorToken(op);
    var st := stack + [x] + [y];
    assert st[..|st| - 2] == stack && st[|st| - 2] == x && st[|st| - 1] == y;
    assert [[op]][0] == [op] && [[op]][1..] == [];
  }

  /** QuickMath's loop over a term's postfix form pushes exactly the term's value, and throws
      exactly where a word of the term has no value. */
  lemma {:induction false} QuickRunTerm(e: Term, vars: map<string, Value>, stack: seq<real>)
    requires WellFormed(e) && NoOperatorKeys(vars)
    ensures QuickRun(PostfixOf(e), vars, stack).going <==> TermValue(e, vars).Some?
    ensures TermValue(e, vars).Some?
        ==> QuickRun(PostfixOf(e), vars, stack) == Quick(stack + [TermValue(e, vars).value], true)
  {
    match e
    case Leaf(w) =>
      QuickLeaf(w, vars, stack);
    case Paren(g) =>
      QuickRunTerm(g, vars, stack);
    case Op(op, l, r) =>
      QuickRunAppend(PostfixOf(l) + PostfixOf(r), [[op]], vars, stack);
      QuickRunAppend(PostfixOf(l), PostfixOf(r), vars, stack);
      QuickRunTerm(l, vars, stack);
      if TermValue(l, vars).Some? {
        var x := TermValue(l, vars).value;
        QuickRunTerm(r, vars, stack + [x]);
        if TermValue(r, vars).Some? {
          QuickOperator(op, vars, stack, x, TermValue(r, vars).value);
        }
      }
  }

  /** Where every word of a term has a value, ToPostFix followed by QuickMath computes the
      term's value from its text. */
  lemma EvaluateRender(e: Term, vars: map<string, Value>)
    requires WellFormed(e) && NoOperatorKeys(vars) && TermValue(e, vars).Some?
    ensures ToPostFixOf(Render(e)) == Some(PostfixOf(e))
    ensures QuickMathOf(PostfixOf(e), vars) == TermValue(e, vars)
  {
    ToPostFixOfRender(e);
    QuickRunTerm(e, vars, []);
  }

  /** A name not in the table, met after a value, stops the loop, and QuickMath then returns
      the value below it: "1+x" with x undeclared gives 1. */
  lemma UndeclaredGivesOperand()
    ensures QuickMathOf(["1", "x", "+"], map[]) == Some(1.0)
  {
    ParseFloatOne();
    assert ParseFloat("x") == None;
    QuickRunAt(["1", "x", "+"], 0, map[], []);
    QuickRunAt(["1", "x", "+"], 1, map[], [1.0]);
  }

  lemma ParseFloatOne()
    ensures ParseFloat("1") == Some(1.0)
  {
    assert SkipNumberSpace("1") == "1";
    assert DropNumberSpaceEnd("1") == "1";
    assert Decimal("1", 0, 1, false, false) == Decimal("", 1, 1, false, true);
  }

  /** An INT variable cannot be read as a float: QuickMath fails on it. */
  lemma IntVariableFails(n: int)
    ensures QuickMathOf(["x"], map["x" := IntV(n)]) == None
  {
    QuickRunAt(["x"], 0, map["x" := IntV(n)], []);
  }

  /** A group that ends in a group pushes an empty word, which QuickMath takes for an
      operator and on which it then fails: "((1))". */
  lemma NestedGroupFails()
    ensures ToPostFixOf("((1))") == Some(["1", ""])
    ensures QuickMathOf(["1", ""], map[]) == None
  {
    NestedGroupScan();
    assert Occurs("", "+/*-");
    ParseFloatOne();
    QuickRunAt(["1", ""], 0, map[], []);
    QuickRunAt(["1", ""], 1, map[], [1.0]);
  }

  lemma NestedGroupScan()
    ensures ToPostFixOf("((1))") == Some(["1", ""])
  {
    var s := "((1))";
    var a := Initial;
    var b := Opened(a);
    var c := Opened(b);
    var d := c.(word := "1");
    var f := Scanner(['('], ["1"], "", false);
    var g := Scanner([], ["1", ""], "", false);
    ScanExtend(s, 0, 0, a, a, b);
    ScanExtend(s, 0, 1, a, b, c);
    assert s[2] == '1' && c.word + [s[2]] == "1";
    ScanExtend(s, 0, 2, a, c, d);
    assert c.ops == ['(', '('] && c.ops[..1] == ['('] && d.out + [d.word] == ["1"];
    ScanExtend(s, 0, 3, a, d, f);
    assert f.ops[..0] == [] && f.out + [f.word] == ["1", ""];
    ScanExtend(s, 0, 4, a, f, g);
    assert s[..5] == s && g.out + Words(g.word) == ["1", ""];
  }
}
