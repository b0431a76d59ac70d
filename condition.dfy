/** Interpreter.IsTrue, the condition of an IF: the line is respelled (spaces dropped, AND,
    OR and NOT turned into & | !), split into pieces by a token pattern, put in postfix order
    by a shunting yard over the pieces, and run on a stack of dynamic values. Every exception
    on the way makes the result null, modelled as None. */
module Condition {
  import opened Text
  import opened Variables

  // ---------------------------------------------------------------- Pieces

  /** The expression as IsTrue rewrites it before splitting. */
  function Respell(line: string): string {
    Replace(Replace(Replace(Replace(line, " ", ""), "AND", "&"), "OR", "|"), "NOT", "!")
  }

  function AlnumRun(s: string): (n: nat)
    ensures n <= |s| && AllAlnum(s[..n])
    ensures n < |s| ==> !IsAlnum(s[n])
  {
    if |s| > 0 && IsAlnum(s[0]) then
      var n := 1 + AlnumRun(s[1..]);
      assert forall k | 1 <= k < n :: s[..n][k] == s[1..][..n - 1][k - 1];
      n
    else 0
  }

  function DigitRun(s: string): (n: nat)
    ensures n <= |s| && AllDigits(s[..n])
    ensures n < |s| ==> !IsDigit(s[n])
  {
    if |s| > 0 && IsDigit(s[0]) then
      var n := 1 + DigitRun(s[1..]);
      assert forall k | 1 <= k < n :: s[..n][k] == s[1..][..n - 1][k - 1];
      n
    else 0
  }

  /** The length of the token the split pattern matches at the start of s, 0 where no match
      starts there. Its alternatives are tried in order: one of `& | !`, a parenthesis, a
      name of letters and digits, a number with an optional `-` (the decimal alternative
      comes after the integer one, which already matches its integer part, so it never
      applies), then `<>`, `>=`, `<=`, `==`, and last one of `< > =`. */
  function MatchLen(s: string): (n: nat)
    ensures n <= |s|
    ensures n == 0 <==> |s| == 0 || !StartsToken(s)
  {
    if |s| == 0 then 0
    else if s[0] in "&|!()" then 1
    else if IsLetter(s[0]) then 1 + AlnumRun(s[1..])
    else if IsDigit(s[0]) then DigitRun(s)
    else if s[0] == '-' && |s| > 1 && IsDigit(s[1]) then 1 + DigitRun(s[1..])
    else if |s| > 1 && s[..2] in ["<>", ">=", "<=", "=="] then 2
    else if s[0] in "<>=" then 1
    else 0
  }

  /** Whether a token of the pattern starts at the beginning of s. */
  predicate StartsToken(s: string)
    requires |s| > 0
  {
    s[0] in "&|!()<>=" || IsAlnum(s[0]) || (s[0] == '-' && |s| > 1 && IsDigit(s[1]))
  }

  /** The text between two tokens, as a piece; an empty one is skipped by the loop. */
  function Gap(g: string): seq<string> {
    if g == "" then [] else [g]
  }

  /** Regex.Split with the token pattern, whose every alternative is a capturing group: the
      text between matches and the matches themselves, in order, empty pieces left out. */
  function Pieces(s: string, gap: string): (ps: seq<string>)
    ensures forall k | 0 <= k < |ps| :: ps[k] != ""
    decreases |s|
  {
    if |s| == 0 then Gap(gap)
    else
      var n := MatchLen(s);
      if n == 0 then Pieces(s[1..], gap + [s[0]])
      else Gap(gap) + [s[..n]] + Pieces(s[n..], "")
  }

  // ---------------------------------------------------------------- Piece classes

  /** The operator pattern, which is not anchored: it succeeds on every piece holding one of
      `< > & | !` or the pair `==`. */
  predicate HasOperator(s: string)
    decreases |s|
  {
    |s| > 0 && (s[0] in "<>&|!" || (|s| > 1 && s[0] == '=' && s[1] == '=') || HasOperator(s[1..]))
  }

  /** The number pattern: an optional `-` and at least one digit, nothing else. */
  predicate IsNumeral(s: string) {
    var t := if |s| > 0 && s[0] == '-' then s[1..] else s;
    |t| > 0 && AllDigits(t)
  }

  /** isDigit, whose pattern is not anchored either: some character is a digit. */
  predicate HasDigit(s: string) {
    exists k | 0 <= k < |s| :: IsDigit(s[k])
  }

  /** Priority: `!` below `&` below `|` below everything else. */
  function Priority(c: string): int {
    if c == "!" then -3
    else if c == "&" then -2
    else if c == "|" then -1
    else 1
  }

  /** The priorities order the operators as `!` < `&` < `|` < the comparisons: `|` binds
      tighter than `&`, and `!` loosest of all. */
  lemma PriorityOrder(c: string)
    ensures Priority("!") < Priority("&") < Priority("|") < Priority(c) || c in ["!", "&", "|"]
    ensures Priority(c) == 1 <==> c !in ["!", "&", "|"]
  {
  }

  // ---------------------------------------------------------------- Shunting yard

  /** The operator stack (top last) and the postfix stack (in push order). */
  datatype Shunt = Shunt(ops: seq<string>, out: seq<string>)

  /** The order in which operators are popped off a stack: top first. */
  function PopOrder(ops: seq<string>): seq<string>
    decreases |ops|
  {
    if |ops| == 0 then [] else [ops[|ops| - 1]] + PopOrder(ops[..|ops| - 1])
  }

  lemma PopOrderLast(ops: seq<string>, k: nat)
    requires k < |ops|
    ensures [ops[|ops| - 1]] + PopOrder(ops[..|ops| - 1][k..]) == PopOrder(ops[k..])
  {
    var t := ops[k..];
    assert t[..|t| - 1] == ops[..|ops| - 1][k..];
  }

  /** The loop before an operator s is pushed: pops to the output while the top is not `(`
      and its priority is at least s's. */
  function PopHigher(ops: seq<string>, s: string, out: seq<string>): Shunt
    decreases |ops|
  {
    if |ops| == 0 || ops[|ops| - 1] == "(" || Priority(ops[|ops| - 1]) < Priority(s) then Shunt(ops, out)
    else PopHigher(ops[..|ops| - 1], s, out + [ops[|ops| - 1]])
  }

  /** The pop loop keeps the bottom of the stack, moves the rest to the output top first,
      pops only operators of priority s's or more, and stops at `(`, at a lower priority or
      at the bottom. */
  lemma {:induction false} PopHigherSpec(ops: seq<string>, s: string, out: seq<string>)
    ensures var r := PopHigher(ops, s, out);
      && |r.ops| <= |ops| && r.ops == ops[..|r.ops|]
      && r.out == out + PopOrder(ops[|r.ops|..])
      && (forall k | |r.ops| <= k < |ops| :: ops[k] != "(" && Priority(ops[k]) >= Priority(s))
      && (|r.ops| == 0 || r.ops[|r.ops| - 1] == "(" || Priority(r.ops[|r.ops| - 1]) < Priority(s))
    decreases |ops|
  {
    if |ops| == 0 || ops[|ops| - 1] == "(" || Priority(ops[|ops| - 1]) < Priority(s) {
      assert ops[|ops|..] == [];
    } else {
      var r := PopHigher(ops[..|ops| - 1], s, out + [ops[|ops| - 1]]);
      PopHigherSpec(ops[..|ops| - 1], s, out + [ops[|ops| - 1]]);
      PopOrderLast(ops, |r.ops|);
    }
  }

  /** The loop of a `)`: pops to the output down to the nearest `(`, which is dropped; None
      where Peek meets an empty stack. */
  function PopToOpen(ops: seq<string>, out: seq<string>): Option<Shunt>
    decreases |ops|
  {
    if |ops| == 0 then None
    else if ops[|ops| - 1] == "(" then Some(Shunt(ops[..|ops| - 1], out))
    else PopToOpen(ops[..|ops| - 1], out + [ops[|ops| - 1]])
  }

  /** The `)` loop succeeds exactly when a `(` is on the stack; it then keeps what lies below
      the topmost `(` and moves what lies above it to the output, top first. */
  lemma {:induction false} PopToOpenSpec(ops: seq<string>, out: seq<string>)
    ensures var r := PopToOpen(ops, out);
      && (r.Some? <==> "(" in ops)
      && (r.Some? ==> |r.value.ops| < |ops| && ops[..|r.value.ops|] == r.value.ops)
      && (r.Some? ==> ops[|r.value.ops|] == "(" && "(" !in ops[|r.value.ops| + 1..])
      && (r.Some? ==> r.value.out == out + PopOrder(ops[|r.value.ops| + 1..]))
    decreases |ops|
  {
    if |ops| > 0 {
      if ops[|ops| - 1] == "(" {
        assert ops[|ops|..] == [];
      } else {
        PopToOpenSpec(ops[..|ops| - 1], out + [ops[|ops| - 1]]);
        PopToOpenLast(ops, out, PopToOpen(ops[..|ops| - 1], out + [ops[|ops| - 1]]));
      }
    }
  }

  lemma PopToOpenLast(ops: seq<string>, out: seq<string>, r: Option<Shunt>)
    requires |ops| > 0 && ops[|ops| - 1] != "("
    requires var ops', out' := ops[..|ops| - 1], out + [ops[|ops| - 1]];
      && (r.Some? <==> "(" in ops')
      && (r.Some? ==> |r.value.ops| < |ops'| && ops'[..|r.value.ops|] == r.value.ops)
      && (r.Some? ==> ops'[|r.value.ops|] == "(" && "(" !in ops'[|r.value.ops| + 1..])
      && (r.Some? ==> r.value.out == out' + PopOrder(ops'[|r.value.ops| + 1..]))
    ensures r.Some? <==> "(" in ops
    ensures r.Some? ==> |r.value.ops| < |ops| && ops[..|r.value.ops|] == r.value.ops
    ensures r.Some? ==> ops[|r.value.ops|] == "(" && "(" !in ops[|r.value.ops| + 1..]
    ensures r.Some? ==> r.value.out == out + PopOrder(ops[|r.value.ops| + 1..])
  {
    assert ops == ops[..|ops| - 1] + [ops[|ops| - 1]];
    if r.Some? {
      var k := |r.value.ops| + 1;
      PopOrderLast(ops, k);
      assert ops[k..] == ops[..|ops| - 1][k..] + [ops[|ops| - 1]];
    }
  }

  /** The loop after the last piece: the operators left are popped, and a `(` among them
      throws. */
  function Drain(ops: seq<string>, out: seq<string>): Option<seq<string>>
    decreases |ops|
  {
    if |ops| == 0 then Some(out)
    else if ops[|ops| - 1] == "(" then None
    else Drain(ops[..|ops| - 1], out + [ops[|ops| - 1]])
  }

  /** Draining succeeds exactly when no `(` is left, and then appends the stack top first. */
  lemma {:induction false} DrainSpec(ops: seq<string>, out: seq<string>)
    ensures Drain(ops, out).Some? <==> "(" !in ops
    ensures Drain(ops, out).Some? ==> Drain(ops, out).value == out + PopOrder(ops)
    decreases |ops|
  {
    if |ops| > 0 {
      assert ops == ops[..|ops| - 1] + [ops[|ops| - 1]];
      if ops[|ops| - 1] != "(" {
        DrainSpec(ops[..|ops| - 1], out + [ops[|ops| - 1]]);
      }
    }
  }

  /** One piece of the first loop; None where it throws. A name is pushed when it is
      declared and dropped when it is not; a reserved word is no name and throws. */
  function ShuntStep(st: Shunt, s: string, vars: map<string, Value>): Option<Shunt> {
    if s == "" then Some(st)
    else if IsVariable(s) then
      if s in vars then Some(st.(out := st.out + [s])) else Some(st)
    else if s == "(" then Some(st.(ops := st.ops + [s]))
    else if s == ")" then PopToOpen(st.ops, st.out)
    else if HasOperator(s) then
      var p := PopHigher(st.ops, s, st.out);
      Some(Shunt(p.ops + [s], p.out))
    else if IsNumeral(s) then Some(st.(out := st.out + [s]))
    else None
  }

  /** The first loop over the pieces. */
  function ShuntRun(ps: seq<string>, vars: map<string, Value>, st: Shunt): Option<Shunt>
    decreases |ps|
  {
    if ps == [] then Some(st)
    else
      match ShuntStep(st, ps[0], vars)
      case None => None
      case Some(st') => ShuntRun(ps[1..], vars, st')
  }

  /** The postfix form IsTrue evaluates, or None where building it throws. */
  function PostfixOf(ps: seq<string>, vars: map<string, Value>): Option<seq<string>> {
    match ShuntRun(ps, vars, Shunt([], []))
    case None => None
    case Some(st) => Drain(st.ops, st.out)
  }

  // ---------------------------------------------------------------- Evaluation

  /** A value an ordered comparison accepts: int, float or char (by its code). */
  function Numeric(v: Value): Option<real> {
    match v
    case IntV(i) => Some(i as real)
    case FloatV(r) => Some(r)
    case CharV(c) => Some(c as int as real)
    case _ => None
  }

  /** A string operand holding a digit is replaced by Single.Parse of it (which throws unless
      it is a number); any other operand is left as it is. */
  function Coerce(v: Value): Option<Value> {
    if v.StrV? && HasDigit(v.s) then
      match ParseFloat(v.s)
      case None => None
      case Some(r) => Some(FloatV(r))
    else Some(v)
  }

  /** `x == y` on two dynamic values: numbers with numbers, bools with bools, strings with
      strings; any other pair has no operator and the binder throws. */
  function Equal(x: Value, y: Value): Option<bool> {
    if Numeric(x).Some? && Numeric(y).Some? then Some(Numeric(x).value == Numeric(y).value)
    else if x.BoolV? && y.BoolV? then Some(x.b == y.b)
    else if x.StrV? && y.StrV? then Some(x.s == y.s)
    else None
  }

  /** The flag an operator piece computes from x (popped second) and y (popped first), or
      None where the binder throws. `&` is the non-short-circuit and on bools; `|` is `||`,
      which looks at y only when x is false; an operator with no branch of its own (`!`)
      leaves the flag false. */
  function Apply(op: string, x: Value, y: Value): Option<bool> {
    if op == "&" then
      if x.BoolV? && y.BoolV? then Some(x.b && y.b) else None
    else if op == "|" then
      if !x.BoolV? then None
      else if x.b then Some(true)
      else if y.BoolV? then Some(y.b)
      else None
    else if op in ["<", ">", "<=", ">="] then
      match (Numeric(x), Numeric(y))
      case (Some(a), Some(b)) =>
        Some(if op == "<" then a < b else if op == ">" then a > b else if op == "<=" then a <= b else a >= b)
      case _ => None
    else if op == "<>" then
      match Equal(x, y)
      case None => None
      case Some(e) => Some(!e)
    else if op == "==" then Equal(x, y)
    else Some(false)
  }

  /** An operator piece on the two values it pops: both coerced, then its flag. */
  function Combine(op: string, x: Value, y: Value): Option<Value> {
    match (Coerce(x), Coerce(y))
    case (Some(x'), Some(y')) =>
      (match Apply(op, x', y')
       case None => None
       case Some(f) => Some(BoolV(f)))
    case _ => None
  }

  /** One piece of the evaluation loop; None where it throws. A name pushes its value, an
      operator pops two values and pushes its flag, and a number pushes its text. */
  function EvalStep(stack: seq<Value>, s: string, vars: map<string, Value>): Option<seq<Value>> {
    if IsVariable(s) then
      if s in vars then Some(stack + [vars[s]]) else None
    else if HasOperator(s) then
      if |stack| < 2 then None
      else
        match Combine(s, stack[|stack| - 2], stack[|stack| - 1])
        case None => None
        case Some(v) => Some(stack[..|stack| - 2] + [v])
    else if Occurs(s, "!") then
      if |stack| == 0 then None
      else if stack[|stack| - 1].BoolV? then Some(stack[..|stack| - 1] + [BoolV(!stack[|stack| - 1].b)])
      else None
    else if ParseFloat(s).Some? then Some(stack + [StrV(s)])
    else None
  }

  /** The evaluation loop over the postfix form. */
  function EvalRun(pf: seq<string>, vars: map<string, Value>, stack: seq<Value>): Option<seq<Value>>
    decreases |pf|
  {
    if pf == [] then Some(stack)
    else
      match EvalStep(stack, pf[0], vars)
      case None => None
      case Some(stack') => EvalRun(pf[1..], vars, stack')
  }

  /** The final Pop, converted to bool?: only a bool on top is a result. */
  function Top(stack: seq<Value>): Option<bool> {
    if |stack| == 0 then None
    else if stack[|stack| - 1].BoolV? then Some(stack[|stack| - 1].b)
    else None
  }

  /** What IsTrue returns for the pieces of its line. */
  function Decide(ps: seq<string>, vars: map<string, Value>): Option<bool> {
    match PostfixOf(ps, vars)
    case None => None
    case Some(pf) =>
      match EvalRun(pf, vars, [])
      case None => None
      case Some(stack) => Top(stack)
  }

  /** What IsTrue returns for a line, given the variable table. */
  function IsTrueOf(line: string, vars: map<string, Value>): Option<bool> {
    Decide(Pieces(Respell(line), ""), vars)
  }

  // ---------------------------------------------------------------- IsTrue

  method IsTrue(line: string, vars: map<string, Value>) returns (output: Option<bool>)
    ensures output == IsTrueOf(line, vars)
  {
    var ps := Pieces(Respell(line), "");
    output := DecidePieces(ps, vars);
  }

  /** IsTrue after the split: the shunting yard, the drain and the evaluation loop. */
  method DecidePieces(ps: seq<string>, vars: map<string, Value>) returns (output: Option<bool>)
    ensures output == Decide(ps, vars)
  {
    var shunted := ShuntPieces(ps, vars);
    if shunted.None? {
      return None;
    }
    var pf := DrainOperators(shunted.value.ops, shunted.value.out);
    if pf.None? {
      return None;
    }
    var temp := EvaluatePostfix(pf.value, vars);
    if temp.None? || |temp.value| == 0 {
      return None;
    }
    var top := temp.value[|temp.value| - 1];
    output := if top.BoolV? then Some(top.b) else None;
  }

  /** IsTrue's first loop, over the pieces. */
  method ShuntPieces(ps: seq<string>, vars: map<string, Value>) returns (r: Option<Shunt>)
    ensures r == ShuntRun(ps, vars, Shunt([], []))
  {
    var stack: seq<string> := [];
    var postfix: seq<string> := [];
    var i := 0;
    while i < |ps|
      invariant 0 <= i <= |ps|
      invariant ShuntRun(ps, vars, Shunt([], [])) == ShuntRun(ps[i..], vars, Shunt(stack, postfix))
    {
      ShuntRunAt(ps, i, vars, Shunt(stack, postfix));
      var s := ps[i];
      if s == "" {
      } else if IsVariable(s) {
        if s in vars {
          postfix := postfix + [s];
        }
      } else if s == "(" {
        stack := stack + [s];
      } else if s == ")" {
        var p := PopToOpenLoop(stack, postfix);
        if p.None? {
          return None;
        }
        stack, postfix := p.value.ops, p.value.out;
      } else if HasOperator(s) {
        stack, postfix := PopHigherLoop(stack, s, postfix);
        stack := stack + [s];
      } else if IsNumeral(s) {
        postfix := postfix + [s];
      } else {
        return None;
      }
      i := i + 1;
    }
    assert ps[i..] == [];
    r := Some(Shunt(stack, postfix));
  }

  lemma ShuntRunAt(ps: seq<string>, i: nat, vars: map<string, Value>, st: Shunt)
    requires i < |ps|
    ensures ShuntRun(ps[i..], vars, st)
         == match ShuntStep(st, ps[i], vars) case None => None case Some(st') => ShuntRun(ps[i + 1..], vars, st')
  {
    assert ps[i..][0] == ps[i] && ps[i..][1..] == ps[i + 1..];
  }

  /** The loop before an operator is pushed. */
  method PopHigherLoop(ops: seq<string>, s: string, out: seq<string>) returns (ops': seq<string>, out': seq<string>)
    ensures Shunt(ops', out') == PopHigher(ops, s, out)
  {
    ops', out' := ops, out;
    while |ops'| != 0 && ops'[|ops'| - 1] != "(" && Priority(ops'[|ops'| - 1]) >= Priority(s)
      invariant PopHigher(ops', s, out') == PopHigher(ops, s, out)
      decreases |ops'|
    {
      out' := out' + [ops'[|ops'| - 1]];
      ops' := ops'[..|ops'| - 1];
    }
  }

  /** The loop of a `)`, whose Peek throws on an empty stack. */
  method PopToOpenLoop(ops: seq<string>, out: seq<string>) returns (r: Option<Shunt>)
    ensures r == PopToOpen(ops, out)
  {
    var stack, postfix := ops, out;
    while |stack| == 0 || stack[|stack| - 1] != "("
      invariant PopToOpen(stack, postfix) == PopToOpen(ops, out)
      decreases |stack|
    {
      if |stack| == 0 {
        return None;
      }
      postfix := postfix + [stack[|stack| - 1]];
      stack := stack[..|stack| - 1];
    }
    r := Some(Shunt(stack[..|stack| - 1], postfix));
  }

  /** The loop after the last piece. */
  method DrainOperators(ops: seq<string>, out: seq<string>) returns (r: Option<seq<string>>)
    ensures r == Drain(ops, out)
  {
    var stack, postfix := ops, out;
    while |stack| != 0
      invariant Drain(stack, postfix) == Drain(ops, out)
      decreases |stack|
    {
      if stack[|stack| - 1] == "(" {
        return None;
      }
      postfix := postfix + [stack[|stack| - 1]];
      stack := stack[..|stack| - 1];
    }
    r := Some(postfix);
  }

  /** The evaluation loop over the postfix form. */
  method EvaluatePostfix(pf: seq<string>, vars: map<string, Value>) returns (r: Option<seq<Value>>)
    ensures r == EvalRun(pf, vars, [])
  {
    var temp: seq<Value> := [];
    var i := 0;
    while i < |pf|
      invariant 0 <= i <= |pf|
      invariant EvalRun(pf, vars, []) == EvalRun(pf[i..], vars, temp)
    {
      EvalRunAt(pf, i, vars, temp);
      var next := EvalPiece(temp, pf[i], vars);
      if next.None? {
        return None;
      }
      temp := next.value;
      i := i + 1;
    }
    assert pf[i..] == [];
    r := Some(temp);
  }

  lemma EvalRunAt(pf: seq<string>, i: nat, vars: map<string, Value>, stack: seq<Value>)
    requires i < |pf|
    ensures EvalRun(pf[i..], vars, stack)
         == match EvalStep(stack, pf[i], vars) case None => None case Some(st) => EvalRun(pf[i + 1..], vars, st)
  {
    assert pf[i..][0] == pf[i] && pf[i..][1..] == pf[i + 1..];
  }

  /** The body of the evaluation loop for one piece. */
  method EvalPiece(temp: seq<Value>, s: string, vars: map<string, Value>) returns (r: Option<seq<Value>>)
    ensures r == EvalStep(temp, s, vars)
  {
    if IsVariable(s) {
      if s !in vars {
        return None;
      }
      r := Some(temp + [vars[s]]);
    } else if HasOperator(s) {
      if |temp| < 2 {
        return None;
      }
      var y := Coerce(temp[|temp| - 1]);
      var x := Coerce(temp[|temp| - 2]);
      if x.None? || y.None? {
        return None;
      }
      var flag := Apply(s, x.value, y.value);
      if flag.None? {
        return None;
      }
      r := Some(temp[..|temp| - 2] + [BoolV(flag.value)]);
    } else if Occurs(s, "!") {
      if |temp| == 0 || !temp[|temp| - 1].BoolV? {
        return None;
      }
      r := Some(temp[..|temp| - 1] + [BoolV(!temp[|temp| - 1].b)]);
    } else {
      if ParseFloat(s).None? {
        return None;
      }
      r := Some(temp + [StrV(s)]);
    }
  }

  // ---------------------------------------------------------------- Properties

  function Concat(ps: seq<string>): string
    decreases |ps|
  {
    if ps == [] then "" else ps[0] + Concat(ps[1..])
  }

  lemma {:induction false} ConcatAppend(a: seq<string>, b: seq<string>)
    ensures Concat(a + b) == Concat(a) + Concat(b)
    decreases |a|
  {
    if a == [] {
      assert a + b == b;
    } else {
      assert (a + b)[0] == a[0] && (a + b)[1..] == a[1..] + b;
      ConcatAppend(a[1..], b);
    }
  }

  /** The split loses no character: its pieces, joined, give back the text. */
  lemma {:induction false} PiecesCover(s: string, gap: string)
    ensures Concat(Pieces(s, gap)) == gap + s
    decreases |s|
  {
    if |s| == 0 {
      assert gap + s == gap;
    } else if MatchLen(s) == 0 {
      PiecesCover(s[1..], gap + [s[0]]);
      PiecesSkip(s, gap);
      SkipJoin(s, gap);
    } else {
      PiecesCover(s[MatchLen(s)..], "");
      CoverToken(s, gap);
    }
  }

  lemma SkipJoin(s: string, gap: string)
    requires |s| > 0
    ensures gap + [s[0]] + s[1..] == gap + s
  {
    assert s == [s[0]] + s[1..];
  }

  lemma CoverToken(s: string, gap: string)
    requires |s| > 0 && MatchLen(s) > 0
    requires Concat(Pieces(s[MatchLen(s)..], "")) == "" + s[MatchLen(s)..]
    ensures Concat(Pieces(s, gap)) == gap + s
  {
    var n := MatchLen(s);
    PiecesMatch(s, gap);
    CoverJoin(s, gap, n, Pieces(s[n..], ""));
  }

  lemma CoverJoin(s: string, gap: string, n: nat, rest: seq<string>)
    requires 0 < n <= |s| && Concat(rest) == "" + s[n..]
    ensures Concat(Gap(gap) + [s[..n]] + rest) == gap + s
  {
    CoverMatch(gap, s[..n], rest);
    assert s[..n] + s[n..] == s;
  }

  lemma PiecesSkip(s: string, gap: string)
    requires |s| > 0 && MatchLen(s) == 0
    ensures Pieces(s, gap) == Pieces(s[1..], gap + [s[0]])
  {
  }

  lemma PiecesMatch(s: string, gap: string)
    requires |s| > 0 && MatchLen(s) > 0
    ensures Pieces(s, gap) == Gap(gap) + [s[..MatchLen(s)]] + Pieces(s[MatchLen(s)..], "")
  {
  }

  lemma CoverMatch(gap: string, t: string, rest: seq<string>)
    ensures Concat(Gap(gap) + [t] + rest) == gap + t + Concat(rest)
  {
    ConcatAppend(Gap(gap) + [t], rest);
    ConcatAppend(Gap(gap), [t]);
    assert Concat([t]) == t + Concat([]);
    assert Concat(Gap(gap)) == gap;
  }

  lemma {:induction false} ShuntRunAppend(a: seq<string>, b: seq<string>, vars: map<string, Value>, st: Shunt)
    ensures ShuntRun(a + b, vars, st)
         == match ShuntRun(a, vars, st) case None => None case Some(m) => ShuntRun(b, vars, m)
    decreases |a|
  {
    if a == [] {
      assert a + b == b;
    } else {
      assert (a + b)[0] == a[0] && (a + b)[1..] == a[1..] + b;
      match ShuntStep(st, a[0], vars)
      case None =>
      case Some(st') =>
        ShuntRunAppend(a[1..], b, vars, st');
    }
  }

  /** A name that is not declared is dropped: the shunting yard runs as if the piece were
      not there. */
  lemma UndeclaredDropped(a: seq<string>, x: string, b: seq<string>, vars: map<string, Value>, st: Shunt)
    requires IsVariable(x) && x !in vars
    ensures ShuntRun(a + [x] + b, vars, st) == ShuntRun(a + b, vars, st)
  {
    ShuntRunAppend(a + [x], b, vars, st);
    ShuntRunAppend(a, [x], vars, st);
    ShuntRunAppend(a, b, vars, st);
    if ShuntRun(a, vars, st).Some? {
      assert [x][0] == x && [x][1..] == [];
    }
  }

  /** A piece that is no name, no parenthesis, no operator and no number (a `.`, a `+`, a
      lone `=`, a reserved word) makes the shunting yard throw. */
  lemma StrayPieceFails(a: seq<string>, x: string, b: seq<string>, vars: map<string, Value>, st: Shunt)
    requires x != "" && !IsVariable(x) && x != "(" && x != ")" && !HasOperator(x) && !IsNumeral(x)
    ensures ShuntRun(a + [x] + b, vars, st) == None
  {
    ShuntRunAppend(a + [x], b, vars, st);
    ShuntRunAppend(a, [x], vars, st);
  }

  /** A `)` with no `(` on the stack throws, and so does a `(` still there at the end. */
  lemma UnbalancedFails(ps: seq<string>, vars: map<string, Value>)
    ensures ShuntRun(ps, vars, Shunt([], [])).Some? && "(" in ShuntRun(ps, vars, Shunt([], [])).value.ops
        ==> PostfixOf(ps, vars) == None
    ensures forall st: Shunt | "(" !in st.ops :: ShuntStep(st, ")", vars) == None
  {
    var r := ShuntRun(ps, vars, Shunt([], []));
    if r.Some? {
      DrainSpec(r.value.ops, r.value.out);
    }
    forall st: Shunt | "(" !in st.ops ensures ShuntStep(st, ")", vars) == None {
      PopToOpenSpec(st.ops, st.out);
    }
  }

  /** `!` matches the operator pattern, so it is evaluated as a binary operator with no branch
      of its own: it pops two values and pushes false, whatever they are. */
  lemma NotPopsTwo(stack: seq<Value>, x: Value, y: Value, vars: map<string, Value>)
    requires Coerce(x).Some? && Coerce(y).Some?
    ensures EvalStep(stack + [x, y], "!", vars) == Some(stack + [BoolV(false)])
  {
    assert HasOperator("!");
    var st := stack + [x, y];
    assert st[..|st| - 2] == stack && st[|st| - 2] == x && st[|st| - 1] == y;
  }

  /** So a negation of a single operand throws, and IsTrue is null. */
  lemma NotOneOperandFails(b: bool)
    ensures EvalStep([BoolV(b)], "!", map[]) == None
  {
    assert HasOperator("!");
  }

  // ---------------------------------------------------------------- Conditions

  /** A condition as IsTrue reads it, piece by piece: a name or a number, an operator between
      two conditions, or a parenthesized condition. */
  datatype Cond = Atom(w: string) | Bin(op: string, l: Cond, r: Cond) | Group(g: Cond)

  /** The operator pieces the split produces. */
  const Operators: seq<string> := ["<", ">", "<=", ">=", "<>", "==", "&", "|", "!"]

  /** A declared name, or a number. */
  predicate IsOperand(w: string, vars: map<string, Value>) {
    (IsVariable(w) && w in vars) || IsNumeral(w)
  }

  /** How tightly a condition holds together without parentheses of its own. */
  function Rank(c: Cond): int {
    if c.Bin? then Priority(c.op) else 2
  }

  /** The conditions the shunting yard reads back as the same tree: a left operand binds at
      least as tightly as its operator, a right operand more tightly, so that equal priorities
      associate to the left. */
  predicate WellFormed(c: Cond, vars: map<string, Value>) {
    match c
    case Atom(w) => IsOperand(w, vars)
    case Group(g) => WellFormed(g, vars)
    case Bin(op, l, r) =>
      op in Operators && WellFormed(l, vars) && WellFormed(r, vars)
      && Rank(l) >= Priority(op) && Rank(r) > Priority(op)
  }

  /** The pieces of a condition, in reading order. */
  function Tokens(c: Cond): seq<string> {
    match c
    case Atom(w) => [w]
    case Bin(op, l, r) => Tokens(l) + [op] + Tokens(r)
    case Group(g) => ["("] + Tokens(g) + [")"]
  }

  /** Operands first, then the operator; a group is its contents. */
  function PostfixTokens(c: Cond): seq<string> {
    match c
    case Atom(w) => [w]
    case Bin(op, l, r) => PostfixTokens(l) + PostfixTokens(r) + [op]
    case Group(g) => PostfixTokens(g)
  }

  /** The value a condition leaves on IsTrue's stack: a name's table value, a number's text,
      an operator's flag on its two operands; None where that throws. */
  function Eval(c: Cond, vars: map<string, Value>): Option<Value> {
    match c
    case Atom(w) => if IsVariable(w) && w in vars then Some(vars[w]) else Some(StrV(w))
    case Group(g) => Eval(g, vars)
    case Bin(op, l, r) =>
      match (Eval(l, vars), Eval(r, vars))
      case (Some(x), Some(y)) => Combine(op, x, y)
      case _ => None
  }

  /** The bool? IsTrue makes of a value. */
  function Truth(v: Option<Value>): Option<bool> {
    match v
    case Some(BoolV(b)) => Some(b)
    case _ => None
  }

  /** The operators of c still on the stack when its pieces have been read: those down its
      right spine, outermost lowest. */
  function Pending(c: Cond): seq<string> {
    if c.Bin? then [c.op] + Pending(c.r) else []
  }

  /** What c has pushed to the postfix stack by then. */
  function Emitted(c: Cond): seq<string> {
    match c
    case Atom(w) => [w]
    case Bin(_, l, r) => PostfixTokens(l) + Emitted(r)
    case Group(g) => PostfixTokens(g)
  }

  lemma {:induction false} PopOrderCons(c: string, ops: seq<string>)
    ensures PopOrder([c] + ops) == PopOrder(ops) + [c]
    decreases |ops|
  {
    if |ops| > 0 {
      assert ([c] + ops)[..|ops|] == [c] + ops[..|ops| - 1];
      PopOrderCons(c, ops[..|ops| - 1]);
    } else {
      assert ([c] + ops)[..0] == [];
    }
  }

  lemma {:induction false} PostfixSplit(c: Cond)
    ensures PostfixTokens(c) == Emitted(c) + PopOrder(Pending(c))
  {
    match c
    case Atom(w) =>
    case Group(g) =>
    case Bin(op, l, r) =>
      PostfixSplit(r);
      PopOrderCons(op, Pending(r));
  }

  /** Every operator in ps is an operator piece of priority k or more. */
  predicate PendingOps(ps: seq<string>, k: int) {
    forall i | 0 <= i < |ps| :: ps[i] in Operators && Priority(ps[i]) >= k
  }

  lemma {:induction false} PendingBound(c: Cond, vars: map<string, Value>)
    requires WellFormed(c, vars)
    ensures PendingOps(Pending(c), Rank(c))
  {
    if c.Bin? {
      PendingBound(c.r, vars);
    }
  }

  /** Every operator above the innermost `(` has a priority below k. */
  predicate Guard(ops: seq<string>, k: int)
    decreases |ops|
  {
    |ops| == 0 || ops[|ops| - 1] == "("
    || (Priority(ops[|ops| - 1]) < k && Guard(ops[..|ops| - 1], k))
  }

  lemma {:induction false} GuardWeaken(ops: seq<string>, k: int, k': int)
    requires Guard(ops, k) && k <= k'
    ensures Guard(ops, k')
    decreases |ops|
  {
    if |ops| > 0 && ops[|ops| - 1] != "(" {
      GuardWeaken(ops[..|ops| - 1], k, k');
    }
  }

  lemma GuardPush(ops: seq<string>, op: string, k: int)
    requires Guard(ops, k) && Priority(op) < k
    ensures Guard(ops + [op], k)
  {
    assert (ops + [op])[..|ops|] == ops;
  }

  /** The pop loop before an operator s takes every pending operator of priority s's or more,
      and then stops at a guarded stack. */
  lemma {:induction false} PopHigherPending(base: seq<string>, ps: seq<string>, s: string, out: seq<string>)
    requires PendingOps(ps, Priority(s)) && Guard(base, Priority(s))
    ensures PopHigher(base + ps, s, out) == Shunt(base, out + PopOrder(ps))
    decreases |ps|
  {
    if |ps| == 0 {
      assert base + ps == base;
    } else {
      PopHigherStep(base, ps, s, out);
      PopHigherPending(base, ps[..|ps| - 1], s, out + [ps[|ps| - 1]]);
    }
  }

  lemma PopHigherStep(base: seq<string>, ps: seq<string>, s: string, out: seq<string>)
    requires |ps| > 0 && ps[|ps| - 1] in Operators && Priority(ps[|ps| - 1]) >= Priority(s)
    ensures PopHigher(base + ps, s, out) == PopHigher(base + ps[..|ps| - 1], s, out + [ps[|ps| - 1]])
  {
    var all := base + ps;
    assert all[..|all| - 1] == base + ps[..|ps| - 1];
    assert all[|all| - 1] == ps[|ps| - 1];
  }

  /** The `)` loop pops the pending operators and then the `(` below them. */
  lemma {:induction false} PopToOpenPending(base: seq<string>, ps: seq<string>, out: seq<string>)
    requires PendingOps(ps, Priority("!"))
    ensures PopToOpen(base + ["("] + ps, out) == Some(Shunt(base, out + PopOrder(ps)))
    decreases |ps|
  {
    var all := base + ["("] + ps;
    if |ps| == 0 {
      assert all[..|all| - 1] == base && all[|all| - 1] == "(";
      assert out + PopOrder(ps) == out;
    } else {
      assert all[..|all| - 1] == base + ["("] + ps[..|ps| - 1];
      assert all[|all| - 1] == ps[|ps| - 1] && ps[|ps| - 1] in Operators;
      PopToOpenPending(base, ps[..|ps| - 1], out + [ps[|ps| - 1]]);
      assert out + [ps[|ps| - 1]] + PopOrder(ps[..|ps| - 1]) == out + PopOrder(ps);
    }
  }

  /** The state after reading a condition's pieces. */
  function After(st: Shunt, c: Cond): Shunt {
    Shunt(st.ops + Pending(c), st.out + Emitted(c))
  }

  /** The state after a left operand l and the operator op that follows it. */
  function Mid(st: Shunt, op: string, l: Cond): Shunt {
    Shunt(st.ops + [op], st.out + PostfixTokens(l))
  }

  /** The shunting yard reads the pieces of a well-formed condition into its pending
      operators and the rest of its postfix form, provided the operators on the stack above
      the innermost `(` bind more loosely. */
  lemma {:induction false} ShuntTerm(c: Cond, vars: map<string, Value>, st: Shunt)
    requires WellFormed(c, vars) && Guard(st.ops, Rank(c))
    ensures ShuntRun(Tokens(c), vars, st) == Some(After(st, c))
  {
    match c
    case Atom(w) =>
      ShuntAtom(w, vars, st);
    case Group(g) =>
      ShuntTerm(g, vars, st.(ops := st.ops + ["("]));
      ShuntGroup(g, vars, st);
    case Bin(op, l, r) =>
      GuardWeaken(st.ops, Priority(op), Rank(l));
      ShuntTerm(l, vars, st);
      GuardWeaken(st.ops, Priority(op), Rank(r));
      GuardPush(st.ops, op, Rank(r));
      ShuntTerm(r, vars, Mid(st, op, l));
      ShuntBin(op, l, r, vars, st);
  }

  /** A number has none of the characters of a name start, a parenthesis or an operator. */
  lemma NumeralPiece(w: string)
    requires IsNumeral(w)
    ensures w != "" && !IsVariable(w) && w != "(" && w != ")" && !HasOperator(w)
  {
    var t := if |w| > 0 && w[0] == '-' then w[1..] else w;
    assert IsDigit(t[0]);
    NumeralNoOperator(w);
  }

  lemma {:induction false} NumeralNoOperator(w: string)
    requires forall k | 0 <= k < |w| :: IsDigit(w[k]) || w[k] == '-'
    ensures !HasOperator(w)
    decreases |w|
  {
    if |w| > 0 {
      NumeralNoOperator(w[1..]);
    }
  }

  lemma ShuntAtom(w: string, vars: map<string, Value>, st: Shunt)
    requires IsOperand(w, vars)
    ensures ShuntRun(Tokens(Atom(w)), vars, st) == Some(After(st, Atom(w)))
  {
    if !IsVariable(w) {
      NumeralPiece(w);
      var t := if |w| > 0 && w[0] == '-' then w[1..] else w;
      assert forall k | 0 <= k < |w| :: IsDigit(w[k]) || w[k] == '-' by {
        forall k | 0 <= k < |w| ensures IsDigit(w[k]) || w[k] == '-' {
          if k > 0 && w[0] == '-' {
            assert w[k] == t[k - 1];
          }
        }
      }
      NumeralNoOperator(w);
    }
    assert ShuntStep(st, w, vars) == Some(Shunt(st.ops, st.out + [w]));
    assert [w][0] == w && [w][1..] == [];
    assert st.ops + Pending(Atom(w)) == st.ops;
  }

  lemma ShuntGroup(g: Cond, vars: map<string, Value>, st: Shunt)
    requires WellFormed(g, vars)
    requires ShuntRun(Tokens(g), vars, st.(ops := st.ops + ["("])) == Some(After(st.(ops := st.ops + ["("]), g))
    ensures ShuntRun(Tokens(Group(g)), vars, st) == Some(After(st, Group(g)))
  {
    var inner := st.(ops := st.ops + ["("]);
    ShuntRunAppend(["("] + Tokens(g), [")"], vars, st);
    ShuntRunAppend(["("], Tokens(g), vars, st);
    assert ["("][0] == "(" && ["("][1..] == [];
    assert ShuntRun(["("], vars, st) == Some(inner);
    CloseGroup(g, vars, st);
  }

  /** The `)` that closes a group. */
  lemma CloseGroup(g: Cond, vars: map<string, Value>, st: Shunt)
    requires WellFormed(g, vars)
    ensures ShuntRun([")"], vars, After(st.(ops := st.ops + ["("]), g)) == Some(After(st, Group(g)))
  {
    var a := After(st.(ops := st.ops + ["("]), g);
    PendingBound(g, vars);
    PendingWeaken(Pending(g), Rank(g), Priority("!"));
    PopToOpenPending(st.ops, Pending(g), a.out);
    PostfixSplit(g);
    CloseState(g, st);
    StepClose(a, vars);
    ShuntRunOne(")", vars, a);
  }

  lemma CloseState(g: Cond, st: Shunt)
    requires PostfixTokens(g) == Emitted(g) + PopOrder(Pending(g))
    ensures var a := After(st.(ops := st.ops + ["("]), g);
      Some(Shunt(st.ops, a.out + PopOrder(Pending(g)))) == Some(After(st, Group(g)))
  {
    AfterGroup(st, g);
    AppendAssoc(st.out, Emitted(g), PopOrder(Pending(g)));
  }

  lemma AfterGroup(st: Shunt, g: Cond)
    ensures After(st, Group(g)) == Shunt(st.ops, st.out + PostfixTokens(g))
  {
    assert st.ops + [] == st.ops;
  }

  lemma AppendAssoc(a: seq<string>, b: seq<string>, c: seq<string>)
    ensures a + b + c == a + (b + c)
  {
  }

  /** What a `)` piece does. */
  lemma StepClose(st: Shunt, vars: map<string, Value>)
    ensures ShuntStep(st, ")", vars) == PopToOpen(st.ops, st.out)
  {
    assert !IsNameStart(')');
  }

  /** What an operator piece does. */
  lemma StepOperator(st: Shunt, s: string, vars: map<string, Value>)
    requires s != "" && !IsVariable(s) && s != "(" && s != ")" && HasOperator(s)
    ensures var p := PopHigher(st.ops, s, st.out); ShuntStep(st, s, vars) == Some(Shunt(p.ops + [s], p.out))
  {
  }

  lemma ShuntRunOne(x: string, vars: map<string, Value>, st: Shunt)
    ensures ShuntRun([x], vars, st) == ShuntStep(st, x, vars)
  {
    assert [x][0] == x && [x][1..] == [];
  }

  lemma ShuntBin(op: string, l: Cond, r: Cond, vars: map<string, Value>, st: Shunt)
    requires WellFormed(Bin(op, l, r), vars) && Guard(st.ops, Priority(op))
    requires ShuntRun(Tokens(l), vars, st) == Some(After(st, l))
    requires ShuntRun(Tokens(r), vars, Mid(st, op, l)) == Some(After(Mid(st, op, l), r))
    ensures ShuntRun(Tokens(Bin(op, l, r)), vars, st) == Some(After(st, Bin(op, l, r)))
  {
    ShuntRunAppend(Tokens(l) + [op], Tokens(r), vars, st);
    ShuntRunAppend(Tokens(l), [op], vars, st);
    ShuntOperator(op, l, vars, st);
    AfterMid(op, l, r, st);
  }

  lemma AfterMid(op: string, l: Cond, r: Cond, st: Shunt)
    ensures After(Mid(st, op, l), r) == After(st, Bin(op, l, r))
  {
    assert st.ops + [op] + Pending(r) == st.ops + Pending(Bin(op, l, r));
    assert st.out + PostfixTokens(l) + Emitted(r) == st.out + Emitted(Bin(op, l, r));
  }

  /** The operator piece between the operands. */
  lemma ShuntOperator(op: string, l: Cond, vars: map<string, Value>, st: Shunt)
    requires op in Operators && WellFormed(l, vars) && Rank(l) >= Priority(op) && Guard(st.ops, Priority(op))
    ensures ShuntRun([op], vars, After(st, l)) == Some(Mid(st, op, l))
  {
    OperatorStep(op, l, vars, st);
    ShuntRunOne(op, vars, After(st, l));
  }

  lemma OperatorStep(op: string, l: Cond, vars: map<string, Value>, st: Shunt)
    requires op in Operators && WellFormed(l, vars) && Rank(l) >= Priority(op) && Guard(st.ops, Priority(op))
    ensures ShuntStep(After(st, l), op, vars) == Some(Mid(st, op, l))
  {
    PendingBound(l, vars);
    PendingWeaken(Pending(l), Rank(l), Priority(op));
    PopHigherPending(st.ops, Pending(l), op, st.out + Emitted(l));
    PostfixSplit(l);
    AppendAssoc(st.out, Emitted(l), PopOrder(Pending(l)));
    OperatorPiece(op);
    StepOperator(After(st, l), op, vars);
  }

  lemma PendingWeaken(ps: seq<string>, k: int, k': int)
    requires PendingOps(ps, k) && k' <= k
    ensures PendingOps(ps, k') && "(" !in ps
  {
  }

  /** An operator piece is no name and no parenthesis, and the operator pattern matches it. */
  lemma OperatorPiece(op: string)
    requires op in Operators
    ensures op != "" && !IsVariable(op) && op != "(" && op != ")" && HasOperator(op)
  {
    assert op[0] in "<>&|!=";
    if op[0] == '=' {
      assert op == "==";
    }
  }

  /** The shunting yard puts the pieces of a well-formed condition in postfix order. */
  lemma ShuntTokens(c: Cond, vars: map<string, Value>)
    requires WellFormed(c, vars)
    ensures PostfixOf(Tokens(c), vars) == Some(PostfixTokens(c))
  {
    ShuntTerm(c, vars, Shunt([], []));
    PendingBound(c, vars);
    PendingWeaken(Pending(c), Rank(c), Rank(c));
    DrainTokens(c);
  }

  lemma DrainTokens(c: Cond)
    requires "(" !in Pending(c)
    ensures var a := After(Shunt([], []), c); Drain(a.ops, a.out) == Some(PostfixTokens(c))
  {
    var a := After(Shunt([], []), c);
    assert a.ops == Pending(c) && a.out == Emitted(c);
    DrainSpec(a.ops, a.out);
    PostfixSplit(c);
  }

  lemma {:induction false} EvalRunAppend(a: seq<string>, b: seq<string>, vars: map<string, Value>, stack: seq<Value>)
    ensures EvalRun(a + b, vars, stack)
      == match EvalRun(a, vars, stack) case None => None case Some(t) => EvalRun(b, vars, t)
    decreases |a|
  {
    if a != [] {
      assert (a + b)[0] == a[0] && (a + b)[1..] == a[1..] + b;
      match EvalStep(stack, a[0], vars)
      case None =>
      case Some(t) => EvalRunAppend(a[1..], b, vars, t);
    } else {
      assert a + b == b;
    }
  }

  /** The result of a stack run that pushes v, or that throws. */
  function Pushed(stack: seq<Value>, v: Option<Value>): Option<seq<Value>> {
    match v
    case None => None
    case Some(x) => Some(stack + [x])
  }

  /** The evaluation loop run on the postfix form of a well-formed condition pushes the
      condition's value, or throws exactly where Eval does. */
  lemma {:induction false} EvalTerm(c: Cond, vars: map<string, Value>, stack: seq<Value>)
    requires WellFormed(c, vars)
    ensures EvalRun(PostfixTokens(c), vars, stack) == Pushed(stack, Eval(c, vars))
  {
    match c
    case Atom(w) =>
      EvalAtom(w, vars, stack);
    case Group(g) =>
      EvalTerm(g, vars, stack);
    case Bin(op, l, r) =>
      EvalTerm(l, vars, stack);
      if Eval(l, vars).Some? {
        EvalTerm(r, vars, stack + [Eval(l, vars).value]);
      }
      EvalBin(op, l, r, vars, stack);
  }

  lemma EvalAtom(w: string, vars: map<string, Value>, stack: seq<Value>)
    requires IsOperand(w, vars)
    ensures EvalRun([w], vars, stack) == Pushed(stack, Eval(Atom(w), vars))
  {
    if !IsVariable(w) {
      NumeralPiece(w);
      NumeralParses(w);
      NumeralNoNot(w);
    }
    assert [w][0] == w && [w][1..] == [];
  }

  /** A number is accepted by Single.Parse. */
  lemma NumeralParses(w: string)
    requires IsNumeral(w)
    ensures ParseFloat(w).Some?
  {
    if w[0] == '-' {
      var t := w[1..];
      assert w == "-" + t;
      ParseFloatOfDigits(t);
      assert SkipNumberSpace("-" + t) == "-" + t;
      assert DropNumberSpaceEnd("-" + t) == "-" + t;
      assert ("-" + t)[1..] == t;
    } else {
      ParseFloatOfDigits(w);
    }
  }

  lemma NumeralNoNot(w: string)
    requires IsNumeral(w)
    ensures !Occurs(w, "!")
  {
  }

  lemma EvalBin(op: string, l: Cond, r: Cond, vars: map<string, Value>, stack: seq<Value>)
    requires op in Operators
    requires EvalRun(PostfixTokens(l), vars, stack) == Pushed(stack, Eval(l, vars))
    requires Eval(l, vars).Some? ==>
      EvalRun(PostfixTokens(r), vars, stack + [Eval(l, vars).value])
        == Pushed(stack + [Eval(l, vars).value], Eval(r, vars))
    ensures EvalRun(PostfixTokens(Bin(op, l, r)), vars, stack) == Pushed(stack, Eval(Bin(op, l, r), vars))
  {
    EvalRunAppend(PostfixTokens(l) + PostfixTokens(r), [op], vars, stack);
    EvalRunAppend(PostfixTokens(l), PostfixTokens(r), vars, stack);
    if Eval(l, vars).Some? && Eval(r, vars).Some? {
      EvalOperator(op, stack, Eval(l, vars).value, Eval(r, vars).value, vars);
    }
  }

  /** An operator piece on two pushed values pops them and pushes its flag. */
  lemma EvalOperator(op: string, stack: seq<Value>, x: Value, y: Value, vars: map<string, Value>)
    requires op in Operators
    ensures EvalRun([op], vars, stack + [x] + [y]) == Pushed(stack, Combine(op, x, y))
  {
    OperatorPiece(op);
    var t := stack + [x] + [y];
    assert t[|t| - 2] == x && t[|t| - 1] == y && t[..|t| - 2] == stack;
    assert [op][0] == op && [op][1..] == [];
  }

  /** IsTrue on the pieces of a well-formed condition returns the condition's value when it
      is a bool, and null otherwise. */
  lemma DecideTokens(c: Cond, vars: map<string, Value>)
    requires WellFormed(c, vars)
    ensures Decide(Tokens(c), vars) == Truth(Eval(c, vars))
  {
    ShuntTokens(c, vars);
    EvalTerm(c, vars, []);
    if Eval(c, vars).Some? {
      assert [] + [Eval(c, vars).value] == [Eval(c, vars).value];
    }
  }

  // ---------------------------------------------------------------- Reading a line

  /** Conditions whose text splits back into their own pieces: names are letters and
      digits after a letter, numbers are as the number pattern has them. */
  predicate Spelled(c: Cond) {
    match c
    case Atom(w) => IsNumeral(w) || (|w| > 0 && IsLetter(w[0]) && AllAlnum(w))
    case Group(g) => Spelled(g)
    case Bin(_, l, r) => Spelled(l) && Spelled(r)
  }

  /** The text of a condition once respelled: no spaces, & | ! for AND OR NOT. */
  function Render(c: Cond): string {
    match c
    case Atom(w) => w
    case Bin(op, l, r) => Render(l) + op + Render(r)
    case Group(g) => "(" + Render(g) + ")"
  }

  /** What may follow a condition's text: the end, a `)` or an operator. */
  predicate Closes(rest: string) {
    |rest| == 0 || rest[0] in ")<>=&|!"
  }

  /** What a condition's text starts with: a letter, a digit, a `-` or a `(`. */
  predicate Opens(t: string) {
    |t| > 0 && (IsAlnum(t[0]) || t[0] == '-' || t[0] == '(')
  }

  lemma {:induction false} RenderOpens(c: Cond, rest: string)
    requires Spelled(c)
    ensures Opens(Render(c) + rest)
  {
    match c
    case Atom(w) =>
      if w[0] == '-' {
      } else {
        assert IsDigit(w[0]) || IsLetter(w[0]);
      }
    case Group(g) =>
    case Bin(op, l, r) =>
      RenderOpens(l, op + Render(r) + rest);
      assert Render(c) + rest == Render(l) + (op + Render(r) + rest);
  }

  /** A token that the pattern matches whole is one piece. */
  lemma PiecesToken(t: string, rest: string)
    requires |t| > 0 && MatchLen(t + rest) == |t|
    ensures Pieces(t + rest, "") == [t] + Pieces(rest, "")
  {
    assert (t + rest)[..|t|] == t && (t + rest)[|t|..] == rest;
  }

  lemma {:induction false} AlnumRunOf(u: string, rest: string)
    requires AllAlnum(u) && (|rest| == 0 || !IsAlnum(rest[0]))
    ensures AlnumRun(u + rest) == |u|
    decreases |u|
  {
    if |u| > 0 {
      assert (u + rest)[1..] == u[1..] + rest;
      AlnumRunOf(u[1..], rest);
    } else {
      assert u + rest == rest;
    }
  }

  lemma {:induction false} DigitRunOf(u: string, rest: string)
    requires AllDigits(u) && (|rest| == 0 || !IsDigit(rest[0]))
    ensures DigitRun(u + rest) == |u|
    decreases |u|
  {
    if |u| > 0 {
      assert (u + rest)[1..] == u[1..] + rest;
      DigitRunOf(u[1..], rest);
    } else {
      assert u + rest == rest;
    }
  }

  /** An operand's text before a closing character is one token. */
  lemma AtomMatch(w: string, rest: string)
    requires Spelled(Atom(w)) && Closes(rest)
    ensures MatchLen(w + rest) == |w|
  {
    var s := w + rest;
    if IsNumeral(w) && w[0] == '-' {
      assert s[0] == '-' && s[1] == w[1] && s[1..] == w[1..] + rest;
      DigitRunOf(w[1..], rest);
    } else if IsNumeral(w) {
      assert s[0] == w[0];
      DigitRunOf(w, rest);
    } else {
      assert s[0] == w[0] && s[1..] == w[1..] + rest;
      AlnumRunOf(w[1..], rest);
    }
  }

  /** An operator before an operand's text is one token. */
  lemma OperatorMatch(op: string, t: string)
    requires op in Operators && Opens(t)
    ensures MatchLen(op + t) == |op|
  {
    var s := op + t;
    assert s[0] == op[0];
    if |op| == 1 {
      assert s[..2] == [op[0], t[0]];
    } else {
      assert s[..2] == op;
    }
  }

  lemma ParenMatch(p: string, rest: string)
    requires p == "(" || p == ")"
    ensures MatchLen(p + rest) == 1
  {
    assert (p + rest)[0] == p[0];
  }

  /** The pieces of a spelled condition's text are its tokens, whatever closing text
      follows. */
  lemma {:induction false} PiecesRender(c: Cond, vars: map<string, Value>, rest: string)
    requires WellFormed(c, vars) && Spelled(c) && Closes(rest)
    ensures Pieces(Render(c) + rest, "") == Tokens(c) + Pieces(rest, "")
  {
    match c
    case Atom(w) =>
      AtomMatch(w, rest);
      PiecesToken(w, rest);
    case Group(g) =>
      PiecesRender(g, vars, ")" + rest);
      ReadGroup(g, rest);
    case Bin(op, l, r) =>
      PiecesRender(r, vars, rest);
      OperatorCloses(op, Render(r) + rest);
      PiecesRender(l, vars, op + Render(r) + rest);
      ReadBin(op, l, r, rest);
  }

  lemma OperatorCloses(op: string, t: string)
    requires op in Operators
    ensures Closes(op + t)
  {
    assert (op + t)[0] == op[0];
  }

  lemma ReadGroup(g: Cond, rest: string)
    requires Pieces(Render(g) + (")" + rest), "") == Tokens(g) + Pieces(")" + rest, "")
    ensures Pieces(Render(Group(g)) + rest, "") == Tokens(Group(g)) + Pieces(rest, "")
  {
    ParenMatch(")", rest);
    PiecesToken(")", rest);
    ParenMatch("(", Render(g) + ")" + rest);
    PiecesToken("(", Render(g) + ")" + rest);
    PiecesGroup(g, rest);
  }

  lemma ReadBin(op: string, l: Cond, r: Cond, rest: string)
    requires op in Operators && Spelled(r)
    requires Pieces(Render(r) + rest, "") == Tokens(r) + Pieces(rest, "")
    requires Pieces(Render(l) + (op + Render(r) + rest), "") == Tokens(l) + Pieces(op + Render(r) + rest, "")
    ensures Pieces(Render(Bin(op, l, r)) + rest, "") == Tokens(Bin(op, l, r)) + Pieces(rest, "")
  {
    RenderOpens(r, rest);
    OperatorMatch(op, Render(r) + rest);
    PiecesToken(op, Render(r) + rest);
    PiecesBin(op, l, r, rest);
  }

  lemma PiecesGroup(g: Cond, rest: string)
    requires Pieces(Render(g) + (")" + rest), "") == Tokens(g) + Pieces(")" + rest, "")
    requires Pieces(")" + rest, "") == [")"] + Pieces(rest, "")
    requires Pieces("(" + (Render(g) + ")" + rest), "") == ["("] + Pieces(Render(g) + ")" + rest, "")
    ensures Pieces(Render(Group(g)) + rest, "") == Tokens(Group(g)) + Pieces(rest, "")
  {
    GroupText(g, rest);
    GroupTokens(g, Pieces(rest, ""));
  }

  lemma GroupText(g: Cond, rest: string)
    ensures Render(g) + ")" + rest == Render(g) + (")" + rest)
    ensures Render(Group(g)) + rest == "(" + (Render(g) + ")" + rest)
  {
  }

  lemma GroupTokens(g: Cond, tail: seq<string>)
    ensures Tokens(Group(g)) + tail == ["("] + (Tokens(g) + ([")"] + tail))
  {
  }

  lemma PiecesBin(op: string, l: Cond, r: Cond, rest: string)
    requires Pieces(Render(r) + rest, "") == Tokens(r) + Pieces(rest, "")
    requires Pieces(op + (Render(r) + rest), "") == [op] + Pieces(Render(r) + rest, "")
    requires Pieces(Render(l) + (op + Render(r) + rest), "") == Tokens(l) + Pieces(op + Render(r) + rest, "")
    ensures Pieces(Render(Bin(op, l, r)) + rest, "") == Tokens(Bin(op, l, r)) + Pieces(rest, "")
  {
    BinText(op, l, r, rest);
    BinTokens(op, l, r, Pieces(rest, ""));
  }

  lemma BinText(op: string, l: Cond, r: Cond, rest: string)
    ensures op + Render(r) + rest == op + (Render(r) + rest)
    ensures Render(Bin(op, l, r)) + rest == Render(l) + (op + Render(r) + rest)
  {
  }

  lemma BinTokens(op: string, l: Cond, r: Cond, tail: seq<string>)
    ensures Tokens(Bin(op, l, r)) + tail == Tokens(l) + ([op] + (Tokens(r) + tail))
  {
  }

  /** IsTrue on a line that respells to a well-formed, spelled condition returns that
      condition's value when it is a bool, and null otherwise. */
  lemma IsTrueOfCondition(line: string, c: Cond, vars: map<string, Value>)
    requires WellFormed(c, vars) && Spelled(c) && Respell(line) == Render(c)
    ensures IsTrueOf(line, vars) == Truth(Eval(c, vars))
  {
    PiecesRender(c, vars, "");
    assert Render(c) + "" == Render(c);
    assert Tokens(c) + Pieces("", "") == Tokens(c);
    DecideTokens(c, vars);
  }

  /** `|` binds more tightly than `&`: with f false and t true, "f AND f OR t" is read as
      f & (f | t) and is false, where the usual reading (f AND f) OR t is true. */
  lemma OrBindsTighter()
    ensures IsTrueOf("f AND f OR t", map["f" := BoolV(false), "t" := BoolV(true)]) == Some(false)
  {
    var vars := map["f" := BoolV(false), "t" := BoolV(true)];
    var c := Bin("&", Atom("f"), Bin("|", Atom("f"), Atom("t")));
    PrecedenceTree(vars);
    RespellAndOr();
    IsTrueOfCondition("f AND f OR t", c, vars);
  }

  lemma PrecedenceTree(vars: map<string, Value>)
    requires vars == map["f" := BoolV(false), "t" := BoolV(true)]
    ensures var c := Bin("&", Atom("f"), Bin("|", Atom("f"), Atom("t")));
      WellFormed(c, vars) && Spelled(c) && Render(c) == "f&f|t" && Eval(c, vars) == Some(BoolV(false))
  {
    assert !IsReserved("f") && !IsReserved("t");
    assert Eval(Bin("|", Atom("f"), Atom("t")), vars) == Some(BoolV(true));
  }

  lemma RespellAndOr()
    ensures Respell("f AND f OR t") == "f&f|t"
  {
    DropSpaces("f AND f OR t");
    SpellAnd();
    SpellOr();
    SpellNot();
  }

  lemma DropSpaces(line: string)
    requires |line| == 12 && line[0] == 'f' && line[1] == ' ' && line[2] == 'A' && line[3] == 'N'
    requires line[4] == 'D' && line[5] == ' ' && line[6] == 'f' && line[7] == ' ' && line[8] == 'O'
    requires line[9] == 'R' && line[10] == ' ' && line[11] == 't'
    ensures Replace(line, " ", "") == "fANDfORt"
  {
    DropSpacesTail(line);
    ReplaceFrom(line, 5, ' ', "");
    ReplaceFrom(line, 4, ' ', "");
    ReplaceFrom(line, 3, ' ', "");
    ReplaceFrom(line, 2, ' ', "");
    ReplaceFrom(line, 1, ' ', "");
    ReplaceFrom(line, 0, ' ', "");
    assert line[0..] == line;
    assert [line[0]] + ([line[2]] + ([line[3]] + ([line[4]] + "fORt"))) == "fANDfORt";
  }

  lemma DropSpacesTail(line: string)
    requires |line| == 12 && line[6] == 'f' && line[7] == ' ' && line[8] == 'O'
    requires line[9] == 'R' && line[10] == ' ' && line[11] == 't'
    ensures Replace(line[6..], " ", "") == "fORt"
  {
    assert line[12..] == [];
    ReplaceFrom(line, 11, ' ', "");
    ReplaceFrom(line, 10, ' ', "");
    ReplaceFrom(line, 9, ' ', "");
    ReplaceFrom(line, 8, ' ', "");
    ReplaceFrom(line, 7, ' ', "");
    ReplaceFrom(line, 6, ' ', "");
    assert [line[6]] + ([line[8]] + ([line[9]] + [line[11]])) == "fORt";
  }

  /** Replacing a one-character pattern from position k on. */
  lemma ReplaceFrom(s: string, k: nat, p: char, rep: string)
    requires k < |s|
    ensures Replace(s[k..], [p], rep) == (if s[k] == p then rep else [s[k]]) + Replace(s[k + 1..], [p], rep)
  {
    assert s[k..][..1] == [s[k]] && s[k..][1..] == s[k + 1..];
  }

  lemma SpellAnd()
    ensures Replace("fANDfORt", "AND", "&") == "f&fORt"
  {
    assert Replace("t", "AND", "&") == "t";
    assert Replace("Rt", "AND", "&") == "Rt";
    assert Replace("ORt", "AND", "&") == "ORt";
    assert Replace("fORt", "AND", "&") == "fORt";
    assert Replace("DfORt", "AND", "&") == "DfORt";
    assert Replace("NDfORt", "AND", "&") == "NDfORt";
    assert Replace("ANDfORt", "AND", "&") == "&fORt";
  }

  lemma SpellOr()
    ensures Replace("f&fORt", "OR", "|") == "f&f|t"
  {
    assert Replace("t", "OR", "|") == "t";
    assert Replace("Rt", "OR", "|") == "Rt";
    assert Replace("ORt", "OR", "|") == "|t";
    assert Replace("fORt", "OR", "|") == "f|t";
    assert Replace("&fORt", "OR", "|") == "&f|t";
  }

  lemma SpellNot()
    ensures Replace("f&f|t", "NOT", "!") == "f&f|t"
  {
    assert Replace("t", "NOT", "!") == "t";
    assert Replace("|t", "NOT", "!") == "|t";
    assert Replace("f|t", "NOT", "!") == "f|t";
    assert Replace("&f|t", "NOT", "!") == "&f|t";
  }
}
