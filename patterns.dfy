/** The statement patterns of the interpreter, tried in the order of its pattern dictionary,
    and the smaller patterns its statements use to pick names, types and expressions out of a
    line. Each regular expression is stated as a predicate or a function on the line; lines
    are read one at a time, so they hold no line break. */
module Patterns {
  import opened Text
  import opened Variables

  predicate StartsWith(s: string, p: string) { |p| <= |s| && s[..|p|] == p }

  predicate EndsWith(s: string, p: string) { |p| <= |s| && s[|s| - |p|..] == p }

  /** The length of the longest prefix of word characters, [a-zA-Z0-9_]. */
  function WordRun(s: string): (n: nat)
    ensures n <= |s| && forall i | 0 <= i < n :: IsWordChar(s[i])
    ensures n < |s| ==> !IsWordChar(s[n])
  {
    if |s| > 0 && IsWordChar(s[0]) then 1 + WordRun(s[1..]) else 0
  }

  /** The length of the longest prefix of letters and digits, [a-zA-Z0-9]. */
  function AlnumRun(s: string): (n: nat)
    ensures n <= |s| && forall i | 0 <= i < n :: IsAlnum(s[i])
    ensures n < |s| ==> !IsAlnum(s[n])
  {
    if |s| > 0 && IsAlnum(s[0]) then 1 + AlnumRun(s[1..]) else 0
  }

  /** The length of the longest prefix of ASCII digits. */
  function DigitRun(s: string): (n: nat)
    ensures n <= |s| && forall i | 0 <= i < n :: IsDigit(s[i])
    ensures n < |s| ==> !IsDigit(s[n])
  {
    if |s| > 0 && IsDigit(s[0]) then 1 + DigitRun(s[1..]) else 0
  }

  /** [a-zA-Z_]\w* as a whole string. */
  predicate IsName(s: string) {
    |s| > 0 && IsNameStart(s[0]) && forall i | 1 <= i < |s| :: IsWordChar(s[i])
  }

  // ---------------------------------------------------------------- Declaration

  // The operator class of the Declaration pattern: the range from `+` to the slash, which
  // takes in `,` `-` and `.`, and the star.
  predicate IsOperatorClass(c: char) { '+' <= c <= '/' || c == '*' }

  // The Declaration pattern is anchored at both ends, so a line matches it exactly when some
  // reading of the line fits the pattern. The predicates below try every reading the
  // backtracking engine can take: a comma may be an operator or separate two items, and an
  // operand may be read short or long. Each predicate takes the rest of the line and holds
  // when that rest completes a match. No element that can follow a name or an operand starts
  // with a letter or a digit, so names and the runs of letters or digits are read whole.

  /** The sign and the digits of an operand -?\d+ at the start of v: the length read, or 0. */
  function Whole(v: string): (n: nat)
    ensures n <= |v|
  {
    var sign := if |v| > 0 && v[0] == '-' then 1 else 0;
    var d := DigitRun(v[sign..]);
    if d == 0 then 0 else sign + d
  }

  /** The short reading of an operand: a name [a-zA-Z][a-zA-Z0-9]*, or -?\d+ (also the
      reading of -?\d+.\d+ whose middle character is a digit); 0 where no operand starts. */
  function ShortOperand(v: string): (n: nat)
    ensures n <= |v|
  {
    if |v| > 0 && IsLetter(v[0]) then 1 + AlnumRun(v[1..]) else Whole(v)
  }

  /** The long reading -?\d+.\d+ whose middle character is the one after all the leading
      digits; 0 where it does not apply. */
  function LongOperand(v: string): (n: nat)
    ensures n <= |v|
  {
    var k := Whole(v);
    if (|v| > 0 && IsLetter(v[0])) || k == 0 || k + 1 >= |v| then 0
    else
      var m := DigitRun(v[k + 1..]);
      if m == 0 then 0 else k + 1 + m
  }

  /** The end of the pattern, \s+AS\s+(INT|FLOAT|BOOL|CHAR)\s*$. */
  predicate Ending(r: string) {
    |r| > 0 && IsWhiteSpace(r[0]) &&
      var u := TrimStart(r);
      StartsWith(u, "AS") && |u| > 2 && IsWhiteSpace(u[2]) && TrimEnd(TrimStart(u[2..])) in TypeNames
  }

  /** The rest after an item: the end of the pattern, or \s*,\s* and more items. */
  predicate AfterItem(r: string)
    decreases |r|, 0
  {
    Ending(r) ||
      var t := TrimStart(r);
      |t| > 0 && t[0] == ',' && Items(TrimStart(t[1..]))
  }

  /** The rest after an operand: an operator of the operator class with white space around it
      and more of the item, or the rest after the item. */
  predicate AfterOperand(r: string)
    decreases |r|, 1
  {
    AfterItem(r) ||
      var t := TrimStart(r);
      |t| > 0 && IsOperatorClass(t[0]) && Arithmetic(TrimStart(t[1..]))
  }

  /** An operand, read either way, then the rest after it. */
  predicate Arithmetic(v: string)
    decreases |v|, 2
  {
    var short, long := ShortOperand(v), LongOperand(v);
    (short > 0 && AfterOperand(v[short..])) || (long > 0 && AfterOperand(v[long..]))
  }

  /** An initializer, a quoted character '\w', "TRUE", "FALSE" or arithmetic, then the rest
      after the item. */
  predicate InitializerFrom(v: string)
    decreases |v|, 3
  {
    (|v| >= 3 && v[0] == '\'' && IsWordChar(v[1]) && v[2] == '\'' && AfterItem(v[3..]))
    || (StartsWith(v, "\"TRUE\"") && AfterItem(v[6..]))
    || (StartsWith(v, "\"FALSE\"") && AfterItem(v[7..]))
    || Arithmetic(v)
  }

  /** Items from here to the end: a name, alone or followed by \s*=\s* and an initializer,
      then the rest after the item. */
  predicate Items(b: string)
    decreases |b|, 4
  {
    |b| > 0 && IsNameStart(b[0]) &&
      var rest := b[1 + WordRun(b[1..])..];
      AfterItem(rest) ||
        var r := TrimStart(rest);
        |r| > 0 && r[0] == '=' && InitializerFrom(TrimStart(r[1..]))
  }

  /** The Declaration pattern ^\s*VAR\s+ITEM(\s*,\s*ITEM)*\s+AS\s+(INT|FLOAT|BOOL|CHAR)\s*$. */
  predicate IsDeclarationLine(line: string) {
    var e := TrimStart(line);
    StartsWith(e, "VAR") && |e| > 3 && IsWhiteSpace(e[3]) && Items(TrimStart(e[3..]))
  }

  /** `,` lies in the operator class, the range from + to /: an arithmetic initializer may go on over a
      comma, so `x = 1,2` is one item rather than two. */
  lemma CommaContinuesOperand(t: string)
    requires |t| > 1 && t[0] == ',' && !IsWhiteSpace(t[1]) && Arithmetic(t[1..])
    ensures AfterOperand(t)
  {
    KeepsFront(t);
    KeepsFront(t[1..]);
    OperatorThen(t, t);
  }

  /** The second way AfterOperand holds: an operator, then arithmetic. */
  lemma OperatorThen(r: string, t: string)
    requires t == TrimStart(r) && |t| > 0 && IsOperatorClass(t[0]) && Arithmetic(TrimStart(t[1..]))
    ensures AfterOperand(r)
  {
  }

  /** A string that starts with no white space is its own TrimStart. */
  lemma KeepsFront(s: string)
    requires |s| > 0 && !IsWhiteSpace(s[0])
    ensures TrimStart(s) == s
  {
  }

  /** The lookbehind \bVAR\s+ holds before position i + 4: VAR starts a word at i and a
      white-space character follows it. */
  predicate VarAt(line: string, i: nat) {
    i + 4 <= |line| && line[i..i + 3] == "VAR" && (i == 0 || !IsWordChar(line[i - 1]))
    && IsWhiteSpace(line[i + 3])
  }

  /** The lookahead AS\s*(INT|FLOAT|BOOL|CHAR) holds at position i. */
  predicate AsTypeAt(line: string, i: nat) {
    i + 2 <= |line| && line[i..i + 2] == "AS" &&
      var rest := TrimStart(line[i + 2..]);
      StartsWith(rest, "INT") || StartsWith(rest, "FLOAT") || StartsWith(rest, "BOOL")
      || StartsWith(rest, "CHAR")
  }

  /** The first position at or after i where VAR starts a word and white space follows. */
  function FirstVar(line: string, i: nat): (r: Option<nat>)
    ensures r.Some? ==> i <= r.value && VarAt(line, r.value)
    ensures r.Some? ==> forall j | i <= j < r.value :: !VarAt(line, j)
    ensures r.None? ==> forall j | i <= j < |line| :: !VarAt(line, j)
    decreases |line| - i
  {
    if i >= |line| then None
    else if VarAt(line, i) then Some(i)
    else FirstVar(line, i + 1)
  }

  /** The last position in [lo, hi) where at holds. */
  function LastWhere(at: nat -> bool, lo: nat, hi: nat): (r: Option<nat>)
    ensures r.Some? ==> lo <= r.value < hi
    decreases hi
  {
    if hi <= lo then None
    else if at(hi - 1) then Some(hi - 1)
    else LastWhere(at, lo, hi - 1)
  }

  /** A position found holds at, and no later one before hi does. */
  lemma {:induction false} LastWhereFound(at: nat -> bool, lo: nat, hi: nat)
    requires LastWhere(at, lo, hi).Some?
    ensures var p := LastWhere(at, lo, hi).value;
      at(p) && forall j | p < j < hi :: !at(j)
    decreases hi
  {
    if !at(hi - 1) {
      LastWhereFound(at, lo, hi - 1);
    }
  }

  /** No position is found exactly when at holds nowhere in [lo, hi). */
  lemma {:induction false} LastWhereNone(at: nat -> bool, lo: nat, hi: nat)
    ensures LastWhere(at, lo, hi).None? <==> forall j | lo <= j < hi :: !at(j)
    decreases hi
  {
    if hi > lo && !at(hi - 1) {
      LastWhereNone(at, lo, hi - 1);
    }
  }

  /** The positions where the lookahead AS-type holds, as a test on positions. */
  function AsTypeTest(line: string): nat -> bool {
    (i: nat) => AsTypeAt(line, i)
  }

  /** The last position in [lo, hi) where the lookahead AS-type holds. */
  function LastAsType(line: string, lo: nat, hi: nat): (r: Option<nat>)
    ensures r.Some? ==> lo <= r.value < hi
  {
    LastWhere(AsTypeTest(line), lo, hi)
  }

  /** LastAsType finds the last position in [lo, hi) where the lookahead holds, and finds
      none exactly when it holds nowhere there. */
  lemma LastAsTypeIff(line: string, lo: nat, hi: nat)
    ensures match LastAsType(line, lo, hi)
      case Some(p) => AsTypeAt(line, p) && forall j | p < j < hi :: !AsTypeAt(line, j)
      case None => forall j | lo <= j < hi :: !AsTypeAt(line, j)
  {
    var at := AsTypeTest(line);
    match LastAsType(line, lo, hi)
    case Some(p) =>
      LastWhereFound(at, lo, hi);
      assert AsTypeAt(line, p) by { AsTypeTestAt(line, p); }
      forall j | p < j < hi ensures !AsTypeAt(line, j) {
        AsTypeTestAt(line, j);
      }
    case None =>
      LastWhereNone(at, lo, hi);
      forall j | lo <= j < hi ensures !AsTypeAt(line, j) {
        AsTypeTestAt(line, j);
      }
  }

  lemma AsTypeTestAt(line: string, j: nat)
    ensures AsTypeTest(line)(j) == AsTypeAt(line, j)
  {
  }

  /** Regex.Match(line, @"(?<=\bVAR\s+).*(?=AS\s*(INT|FLOAT|BOOL|CHAR))").Value: from just
      after the first VAR and its first white-space character up to the last AS that a type
      name follows; "" where there is none. */
  function DeclarationBody(line: string): string {
    match FirstVar(line, 0)
    case None => ""
    case Some(q) =>
      match LastAsType(line, q + 4, |line| + 1)
      case None => ""
      case Some(r) => line[q + 4..r]
  }

  /** The type name \b(INT|FLOAT|BOOL|CHAR)\b that starts at position i as a whole word, or
      "" when no type name stands there as a whole word. */
  function TypeAt(line: string, i: nat): (t: string)
    ensures t == "" || t in TypeNames
    ensures t != "" ==> WordAt(line, i, t)
    ensures t == "" <==> forall u | u in TypeNames :: !WordAt(line, i, u)
  {
    if WordAt(line, i, "INT") then "INT"
    else if WordAt(line, i, "FLOAT") then "FLOAT"
    else if WordAt(line, i, "BOOL") then "BOOL"
    else if WordAt(line, i, "CHAR") then "CHAR"
    else ""
  }

  /** u stands at position i as a whole word: \bu\b. */
  predicate WordAt(line: string, i: nat, u: string) {
    i + |u| <= |line| && line[i..i + |u|] == u && (i == 0 || !IsWordChar(line[i - 1]))
    && (i + |u| == |line| || !IsWordChar(line[i + |u|]))
  }

  /** Regex.Match(line, @"\b(INT|FLOAT|BOOL|CHAR)\b").Value from position i on: the first type
      name that is a whole word, or "". */
  function TypeWordFrom(line: string, i: nat): (t: string)
    ensures t == "" || t in TypeNames
    decreases |line| - i
  {
    if i >= |line| then ""
    else if TypeAt(line, i) != "" then TypeAt(line, i)
    else TypeWordFrom(line, i + 1)
  }

  function TypeWord(line: string): string { TypeWordFrom(line, 0) }

  // ---------------------------------------------------------------- The other statements

  /** ^[a-zA-Z][a-zA-Z0-9]*\s*=\s*.* */
  predicate IsAssignmentLine(line: string) {
    |line| > 0 && IsLetter(line[0]) &&
      var rest := TrimStart(line[1 + AlnumRun(line[1..])..]);
      |rest| > 0 && rest[0] == '='
  }

  /** ^INPUT\s*:\s*([a-zA-Z_]\w*)(\s*\,\s*[a-zA-Z_]\w*)*$: names separated by commas with
      white space around each comma, nothing after the last name. */
  predicate IsInputLine(line: string) {
    StartsWith(line, "INPUT") &&
      var rest := TrimStart(line[5..]);
      |rest| > 0 && rest[0] == ':' &&
        var parts := Split(rest[1..], ',');
        (forall k | 0 <= k < |parts| :: IsName(Trim(parts[k])))
        && TrimEnd(parts[|parts| - 1]) == parts[|parts| - 1]
  }

  /** ^OUTPUT\s*:.*$ */
  predicate IsOutputLine(line: string) {
    StartsWith(line, "OUTPUT") &&
      var rest := TrimStart(line[6..]);
      |rest| > 0 && rest[0] == ':'
  }

  /** ^START$ */
  predicate IsStartLine(line: string) { line == "START" }

  /** ^STOP$ */
  predicate IsStopLine(line: string) { line == "STOP" }

  /** ^\*.* */
  predicate IsCommentLine(line: string) { |line| > 0 && line[0] == '*' }

  /** ^((NAME(\+\+|--))|((\+\+|--|!)NAME)|(~(NAME|\d+))) with NAME [a-zA-Z_][a-zA-Z0-9_]*,
      anchored at the start only. */
  predicate IsUnaryLine(line: string) {
    || (|line| > 0 && IsNameStart(line[0]) &&
          var k := 1 + WordRun(line[1..]);
          StartsWith(line[k..], "++") || StartsWith(line[k..], "--"))
    || ((StartsWith(line, "++") || StartsWith(line, "--")) && |line| > 2 && IsNameStart(line[2]))
    || (StartsWith(line, "!") && |line| > 1 && IsNameStart(line[1]))
    || (StartsWith(line, "~") && |line| > 1 && (IsNameStart(line[1]) || IsDigit(line[1])))
  }

  /** ^\s*(IF)\s*\([\w\W]+\s*\)\s*$: IF, a parenthesis, at least one character, and a closing
      parenthesis with only white space after it. */
  predicate IsIfLine(line: string) {
    var t := TrimStart(line);
    StartsWith(t, "IF") &&
      var u := TrimStart(t[2..]);
      var w := TrimEnd(u);
      |w| >= 3 && w[0] == '(' && w[|w| - 1] == ')'
  }

  // ---------------------------------------------------------------- Dispatch

  /** The keys of the pattern dictionary. */
  datatype Statement =
    Declaration | Assignment | Input | Output | Start | Stop | Comment | Unary | If | NoMatch

  /** The dictionary's enumeration order, which is the order the patterns were added in. */
  const Order: seq<Statement> := [Declaration, Assignment, Input, Output, Start, Stop, Comment, Unary, If]

  predicate Matches(k: Statement, line: string) {
    match k
    case Declaration => IsDeclarationLine(line)
    case Assignment => IsAssignmentLine(line)
    case Input => IsInputLine(line)
    case Output => IsOutputLine(line)
    case Start => IsStartLine(line)
    case Stop => IsStopLine(line)
    case Comment => IsCommentLine(line)
    case Unary => IsUnaryLine(line)
    case If => IsIfLine(line)
    case NoMatch => false
  }

  /** The first statement of ks that hit holds for, or NoMatch. */
  function FirstHit(hit: Statement -> bool, ks: seq<Statement>): Statement
    decreases |ks|
  {
    if ks == [] then NoMatch
    else if hit(ks[0]) then ks[0]
    else FirstHit(hit, ks[1..])
  }

  /** The first statement of ks whose pattern the line matches, or NoMatch. */
  function FirstMatch(line: string, ks: seq<Statement>): Statement {
    FirstHit(MatchesOf(line), ks)
  }

  /** The patterns the line matches, as a test on statements. */
  function MatchesOf(line: string): Statement -> bool {
    k => Matches(k, line)
  }

  /** Interpret's foreach over the patterns: the statement the line runs as. */
  function Classify(line: string): Statement { FirstMatch(line, Order) }

  /** hit holds for no statement before position i of ks. */
  predicate NoHitBefore(hit: Statement -> bool, ks: seq<Statement>, i: nat)
    requires i <= |ks|
  {
    forall j | 0 <= j < i :: !hit(ks[j])
  }

  /** No statement before position i of ks matches the line. */
  predicate NoneBefore(line: string, ks: seq<Statement>, i: nat)
    requires i <= |ks|
  {
    NoHitBefore(MatchesOf(line), ks, i)
  }

  /** FirstHit from position i: ks[i] if hit holds for it, else the first hit after it. */
  lemma FirstHitAt(hit: Statement -> bool, ks: seq<Statement>, i: nat)
    requires i < |ks|
    ensures FirstHit(hit, ks[i..]) == if hit(ks[i]) then ks[i] else FirstHit(hit, ks[i + 1..])
  {
    assert ks[i..][0] == ks[i] && ks[i..][1..] == ks[i + 1..];
  }

  /** The first hit is one of the candidates, or NoMatch. */
  lemma {:induction false} FirstHitIn(hit: Statement -> bool, ks: seq<Statement>)
    ensures FirstHit(hit, ks) == NoMatch || FirstHit(hit, ks) in ks
    decreases |ks|
  {
    if ks != [] && !hit(ks[0]) {
      FirstHitIn(hit, ks[1..]);
    }
  }

  /** Over distinct candidates, the first one is chosen only when hit holds for it. */
  lemma HeadChosen(hit: Statement -> bool, ks: seq<Statement>)
    requires 0 < |ks| && NoMatch !in ks
    requires forall a, b | 0 <= a < b < |ks| :: ks[a] != ks[b]
    ensures FirstHit(hit, ks) == ks[0] ==> hit(ks[0])
  {
    var tail := ks[1..];
    if !hit(ks[0]) {
      FirstHitIn(hit, tail);
      assert ks[0] !in tail by {
        forall j | 0 <= j < |tail| ensures tail[j] != ks[0] { assert tail[j] == ks[j + 1]; }
      }
    }
  }

  /** Over distinct candidates, the one chosen is hit and no earlier one is. */
  lemma {:induction false} ChosenHit(hit: Statement -> bool, ks: seq<Statement>, i: nat)
    requires i < |ks| && NoMatch !in ks
    requires forall a, b | 0 <= a < b < |ks| :: ks[a] != ks[b]
    requires FirstHit(hit, ks) == ks[i]
    ensures hit(ks[i]) && NoHitBefore(hit, ks, i)
    decreases |ks|
  {
    if i == 0 {
      HeadChosen(hit, ks);
    } else {
      var tail := ks[1..];
      assert ks[0] != ks[i];
      assert tail[i - 1] == ks[i];
      ChosenHit(hit, tail, i - 1);
      assert forall j | 1 <= j < i :: ks[j] == tail[j - 1];
    }
  }

  /** A candidate that is hit, with no earlier one hit, is the one chosen. */
  lemma {:induction false} HitChosen(hit: Statement -> bool, ks: seq<Statement>, i: nat)
    requires i < |ks|
    requires hit(ks[i]) && NoHitBefore(hit, ks, i)
    ensures FirstHit(hit, ks) == ks[i]
    decreases |ks|
  {
    if i > 0 {
      var tail := ks[1..];
      assert !hit(ks[0]);
      assert forall j | 0 <= j < i - 1 :: tail[j] == ks[j + 1];
      HitChosen(hit, tail, i - 1);
    }
  }

  /** The first hit is NoMatch exactly when no candidate is hit. */
  lemma {:induction false} FirstHitNone(hit: Statement -> bool, ks: seq<Statement>)
    requires NoMatch !in ks
    ensures (FirstHit(hit, ks) == NoMatch) <==> NoHitBefore(hit, ks, |ks|)
    decreases |ks|
  {
    if ks != [] && !hit(ks[0]) {
      var tail := ks[1..];
      FirstHitNone(hit, tail);
      assert forall j | 1 <= j < |ks| :: ks[j] == tail[j - 1];
    }
  }

  lemma MatchesOfAt(line: string, k: Statement)
    ensures MatchesOf(line)(k) == Matches(k, line)
  {
  }

  /** Over distinct candidates, ks[i] is chosen exactly when hit holds for it and for no
      earlier one. */
  lemma HitIff(hit: Statement -> bool, ks: seq<Statement>, i: nat)
    requires i < |ks| && NoMatch !in ks
    requires forall a, b | 0 <= a < b < |ks| :: ks[a] != ks[b]
    ensures (FirstHit(hit, ks) == ks[i]) <==> (hit(ks[i]) && NoHitBefore(hit, ks, i))
    ensures (FirstHit(hit, ks) == NoMatch) <==> NoHitBefore(hit, ks, |ks|)
  {
    if FirstHit(hit, ks) == ks[i] {
      ChosenHit(hit, ks, i);
    }
    if hit(ks[i]) && NoHitBefore(hit, ks, i) {
      HitChosen(hit, ks, i);
    }
    FirstHitNone(hit, ks);
  }

  /** Interpret runs exactly the first pattern, in dictionary order, that the line matches,
      and fails when none matches. */
  lemma ClassifyIff(line: string, i: nat)
    requires i < |Order|
    ensures (Classify(line) == Order[i]) <==> (Matches(Order[i], line) && NoneBefore(line, Order, i))
    ensures (Classify(line) == NoMatch) <==> NoneBefore(line, Order, |Order|)
  {
    HitIff(MatchesOf(line), Order, i);
    assert MatchesOf(line)(Order[i]) == Matches(Order[i], line);
  }

  // ---------------------------------------------------------------- Picking out parts

  /** Regex.Match(line, @"[a-zA-Z_][a-zA-Z0-9_]*").Value from position i on: the first name
      anywhere in the line, or "". */
  function FirstNameFrom(line: string, i: nat): (n: string)
    ensures n == "" || IsName(n)
    decreases |line| - i
  {
    if i >= |line| then ""
    else if IsNameStart(line[i]) then line[i..i + 1 + WordRun(line[i + 1..])]
    else FirstNameFrom(line, i + 1)
  }

  function FirstName(line: string): string { FirstNameFrom(line, 0) }

  /** Position j is the first at or after i where a name can start. */
  predicate FirstNameStart(line: string, i: nat, j: nat) {
    i <= j < |line| && IsNameStart(line[j]) && forall k | i <= k < j :: !IsNameStart(line[k])
  }

  /** n is read from position j up to the first character that is no word character. */
  predicate WholeWordAt(line: string, j: nat, n: string) {
    j + |n| <= |line| && line[j..j + |n|] == n && (j + |n| == |line| || !IsWordChar(line[j + |n|]))
  }

  /** FirstNameFrom is the leftmost match, read as far as the word characters go, and "" only
      when no name starts at or after i. */
  lemma {:induction false} FirstNameFromIff(line: string, i: nat)
    ensures var n := FirstNameFrom(line, i);
      (n == "" <==> forall j | i <= j < |line| :: !IsNameStart(line[j]))
      && (n != "" ==> exists j: nat :: FirstNameStart(line, i, j) && WholeWordAt(line, j, n))
    decreases |line| - i
  {
    var n := FirstNameFrom(line, i);
    if i >= |line| {
    } else if IsNameStart(line[i]) {
      NameHere(line, i);
      assert FirstNameStart(line, i, i);
    } else {
      FirstNameFromIff(line, i + 1);
      if n != "" {
        var j: nat :| FirstNameStart(line, i + 1, j) && WholeWordAt(line, j, n);
        assert FirstNameStart(line, i, j);
      }
    }
  }

  lemma NameHere(line: string, i: nat)
    requires i < |line| && IsNameStart(line[i])
    ensures WholeWordAt(line, i, FirstNameFrom(line, i))
  {
    var w := WordRun(line[i + 1..]);
    assert FirstNameFrom(line, i) == line[i..i + 1 + w];
    WordEnds(line, i, w);
  }

  lemma WordEnds(line: string, i: nat, w: nat)
    requires i < |line| && w == WordRun(line[i + 1..])
    ensures WholeWordAt(line, i, line[i..i + 1 + w])
  {
    var t := line[i + 1..];
    if i + 1 + w < |line| {
      assert line[i + 1 + w] == t[w];
    }
  }

  /** Regex.Match(line, @"(\+\+|--)").Value from position i on: the first ++ or --, or "". */
  function FirstActionFrom(line: string, i: nat): (a: string)
    ensures a == "" || a == "++" || a == "--"
    decreases |line| - i
  {
    if i + 2 > |line| then ""
    else if line[i..i + 2] == "++" || line[i..i + 2] == "--" then line[i..i + 2]
    else FirstActionFrom(line, i + 1)
  }

  function FirstAction(line: string): string { FirstActionFrom(line, 0) }

  /** `++` or `--` stands at position j. */
  predicate ActionAt(line: string, j: nat) {
    j + 2 <= |line| && (line[j..j + 2] == "++" || line[j..j + 2] == "--")
  }

  /** FirstActionFrom is the leftmost `++` or `--` at or after i, and "" only when there is
      none. */
  lemma {:induction false} FirstActionFromIff(line: string, i: nat)
    ensures var a := FirstActionFrom(line, i);
      (a == "" <==> forall j: nat | i <= j :: !ActionAt(line, j))
      && (a != "" ==> exists j: nat | i <= j :: (ActionAt(line, j) && line[j..j + 2] == a
            && forall k: nat | i <= k < j :: !ActionAt(line, k)))
    decreases |line| - i
  {
    var a := FirstActionFrom(line, i);
    if i + 2 > |line| {
      forall j: nat | i <= j ensures !ActionAt(line, j) { }
    } else if ActionAt(line, i) {
      assert line[i..i + 2] == a;
    } else {
      FirstActionFromIff(line, i + 1);
      if a != "" {
        var j: nat :| i + 1 <= j && ActionAt(line, j) && line[j..j + 2] == a
          && (forall k: nat | i + 1 <= k < j :: !ActionAt(line, k));
        assert forall k: nat | i <= k < j :: !ActionAt(line, k);
      }
    }
  }

  /** Regex.Match(line, @"\(.*\)\s*$").Value.Trim(): from the first parenthesis to the closing
      parenthesis the line ends with; "" where the line does not end so. */
  function IfExpression(line: string): (e: string)
    ensures e == "" || (|e| >= 2 && e[0] == '(' && e[|e| - 1] == ')')
  {
    var w := TrimEnd(line);
    var k := IndexOf(w, '(');
    if |w| > 0 && w[|w| - 1] == ')' && 0 <= k < |w| - 1 then w[k..] else ""
  }

  /** IF's expression runs from the first `(` of the line to the `)` the line ends with, white
      space after it aside; it is "" exactly when the line does not end in `)` or has no `(`
      before that. */
  lemma IfExpressionIff(line: string)
    ensures var w, e := TrimEnd(line), IfExpression(line);
      (e == "" <==> !(|w| > 0 && w[|w| - 1] == ')' && exists k | 0 <= k < |w| - 1 :: w[k] == '('))
      && (e != "" ==> exists k | 0 <= k < |w| - 1 :: w[k] == '(' && '(' !in w[..k] && e == w[k..])
  {
    var w := TrimEnd(line);
    var k := IndexOf(w, '(');
    if |w| > 0 && w[|w| - 1] == ')' {
      forall k' | 0 <= k' < |w| - 1 && w[k'] == '(' ensures 0 <= k <= k' {
        assert w[k'] in w;
      }
    }
  }

  /** The negated class of the pattern [^(INPUT:\,\s+)]: a parenthesis, the letters of INPUT,
      the colon, the comma, white space and the plus sign. */
  predicate InInputClass(c: char) { c in "(INPUT:,+)" || IsWhiteSpace(c) }

  /** Regex.Matches(line, @"[^(INPUT:\,\s+)]\w*"): each character outside the class starts a
      match, which runs on over the word characters after it. */
  function InputNames(s: string): (names: seq<string>)
    ensures forall k | 0 <= k < |names| :: |names[k]| > 0 && !InInputClass(names[k][0])
    ensures forall k | 0 <= k < |names| :: IsInputName(names[k])
    decreases |s|
  {
    if s == [] then []
    else if InInputClass(s[0]) then InputNames(s[1..])
    else
      var n := 1 + WordRun(s[1..]);
      [s[..n]] + InputNames(s[n..])
  }

  /** What one match of [^(INPUT:\,\s+)]\w* can be: a character outside the class, then word
      characters. */
  predicate IsInputName(n: string) {
    |n| > 0 && !InInputClass(n[0]) && forall m | 1 <= m < |n| :: IsWordChar(n[m])
  }

  /** Characters of the class start no match. */
  lemma {:induction false} InputNamesSkip(h: string, x: string)
    requires forall k | 0 <= k < |h| :: InInputClass(h[k])
    ensures InputNames(h + x) == InputNames(x)
    decreases |h|
  {
    if h != [] {
      assert (h + x)[1..] == h[1..] + x;
      InputNamesSkip(h[1..], x);
    } else {
      assert h + x == x;
    }
  }

  /** A match takes every word character after its start: a name followed by the end or by a
      character that is no word character is read whole. */
  lemma InputNamesWhole(n: string, x: string)
    requires IsInputName(n) && (x == [] || !IsWordChar(x[0]))
    ensures InputNames(n + x) == [n] + InputNames(x)
  {
    var s := n + x;
    WordRunOf(n[1..], x);
    assert s[1..] == n[1..] + x;
    assert s[..|n|] == n && s[|n|..] == x;
  }

  lemma {:induction false} WordRunOf(w: string, x: string)
    requires (forall m | 0 <= m < |w| :: IsWordChar(w[m])) && (x == [] || !IsWordChar(x[0]))
    ensures WordRun(w + x) == |w|
    decreases |w|
  {
    if w == [] {
      assert w + x == x;
    } else {
      assert (w + x)[1..] == w[1..] + x;
      WordRunOf(w[1..], x);
    }
  }

  /** INPUT reads back the names it is given: a header of class characters, then the names
      with a separator of class characters between each two, gives exactly those names. */
  lemma {:induction false} InputNamesJoin(h: string, names: seq<string>, sep: string)
    requires forall k | 0 <= k < |h| :: InInputClass(h[k])
    requires sep != [] && !IsWordChar(sep[0]) && forall k | 0 <= k < |sep| :: InInputClass(sep[k])
    requires forall k | 0 <= k < |names| :: IsInputName(names[k])
    ensures InputNames(h + Join(names, sep)) == names
    decreases |names|
  {
    InputNamesSkip(h, Join(names, sep));
    if |names| == 1 {
      InputNamesWhole(names[0], []);
      assert names[0] + [] == names[0];
    } else if |names| > 1 {
      InputNamesJoin(sep, names[1..], sep);
      JoinedNames(names, sep);
    }
  }

  /** The first name is read whole, and the separator and the names after it give the rest. */
  lemma JoinedNames(names: seq<string>, sep: string)
    requires |names| > 1 && IsInputName(names[0]) && sep != [] && !IsWordChar(sep[0])
    requires InputNames(sep + Join(names[1..], sep)) == names[1..]
    ensures InputNames(Join(names, sep)) == names
  {
    var rest := sep + Join(names[1..], sep);
    assert Join(names, sep) == names[0] + rest;
    InputNamesWhole(names[0], rest);
    assert [names[0]] + names[1..] == names;
  }
}
