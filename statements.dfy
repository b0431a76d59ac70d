/** The statements of the interpreter as functions of its state: what one line does to the
    started and finished flags, the variable table and the console input still unread, and
    what Interpret hands back for it. */
module Statements {
  import opened Text
  import opened Variables
  import opened Faults
  import opened Patterns
  import Postfix
  import Condition
  import Template

  /** What Interpret hands back for a line: "" after a statement that succeeded, the message
      of the exception after one that failed. OUTPUT and comments also write a line to the
      console, and OUTPUT's loop can run for ever. */
  datatype Reply =
    | Quiet                               // "" and nothing written
    | Message(fault: Fault)               // the exception's message
    | Shown(chunks: seq<Template.Chunk>)  // "" after writing these chunks
    | Hangs                               // the call never returns

  /** The interpreter's fields hasStarted, hasFinished and variableList, and the lines
      Console.ReadLine has still to return. */
  datatype State = State(started: bool, finished: bool, table: Table, console: seq<string>)

  /** A new interpreter reading the given console lines. */
  function Fresh(console: seq<string>): State {
    State(false, false, EmptyTable, console)
  }

  function Said(f: Option<Fault>): Reply {
    if f.None? then Quiet else Message(f.value)
  }

  // ---------------------------------------------------------------- Assignment

  /** The value one `name = expression` set gives a variable of the type, starting from v:
      INT and FLOAT take QuickMath's result, and keep v where ToPostFix rejects the
      expression; BOOL takes the quoted literals, or IsTrue's result, and fails where that is
      null; CHAR takes the middle one of exactly three characters. */
  function Initializer(vars: map<string, Value>, expression: string, typeName: string, v: Value): Result<Value> {
    if typeName == "INT" || typeName == "FLOAT" then
      (match Postfix.ToPostFixOf(expression)
       case None => Ok(v)
       case Some(post) =>
         (match Postfix.QuickMathOf(post, vars)
          case None => Err(EmptyStack)
          case Some(r) => Ok(FloatV(r))))
    else if typeName == "BOOL" then
      if expression == "\"TRUE\"" then Ok(BoolV(true))
      else if expression == "\"FALSE\"" then Ok(BoolV(false))
      else
        (match Condition.IsTrueOf(expression, vars)
         case None => Err(Format)
         case Some(b) => Ok(BoolV(b)))
    else if typeName == "CHAR" then
      if |expression| == 3 then Ok(CharV(expression[1])) else Err(Format)
    else Ok(v)
  }

  /** The foreach over the comma-separated sets: a set splitting into exactly two parts at
      `=` replaces the value by its initializer's; any other set is skipped. */
  function AssignSets(vars: map<string, Value>, sets: seq<string>, typeName: string, v: Value): Result<Value>
    decreases |sets|
  {
    if sets == [] then Ok(v)
    else
      var parts := Split(sets[0], '=');
      if |parts| != 2 then AssignSets(vars, sets[1..], typeName, v)
      else
        match Initializer(vars, Trim(parts[1]), typeName, v)
        case Err(f) => Err(f)
        case Ok(w) => AssignSets(vars, sets[1..], typeName, w)
  }

  /** The table after a statement and the fault it reports, if any. */
  datatype Stored = Stored(table: Table, fault: Option<Fault>)

  /** A Valid table holding a key has a last key. */
  lemma LastKeyPresent(t: Table, name: string)
    requires Valid(t) && name in t.values
    ensures LastKey(t.slots).Some?
  {
  }

  /** The catch block: inside a declaration (del), the key Keys.Last() names is removed. */
  function Undo(t: Table, del: bool, f: Fault, name: string): Stored
    requires Valid(t) && name in t.values
  {
    if del then
      LastKeyPresent(t, name);
      Stored(Remove(t, LastKey(t.slots).value), Some(f))
    else Stored(t, Some(f))
  }

  /** Assignment once the variable's name and type are known: the type's zero, then every
      set in turn, then the store. */
  function Finish(t: Table, line: string, del: bool, typeName: string, name: string): Stored
    requires Valid(t) && name in t.values
  {
    match ZeroOf(typeName)
    case None => Undo(t, del, KeyNotFound, name)
    case Some(z) =>
      match AssignSets(t.values, Split(line, ','), typeName, z)
      case Ok(v) => Stored(Set(t, name, v), None)
      case Err(f) => Undo(t, del, f, name)
  }

  /** Assignment(line, del, variableType, variableName). Called from Interpret with neither a
      name nor a type, it takes the name the line starts with, which must be declared, and
      the type of its current value. */
  function Assign(t: Table, line: string, del: bool, typeName: string, name: string): Stored
    requires Valid(t)
    requires (name == "" && typeName == "" && !del) || name in t.values
  {
    if name == "" && typeName == "" then
      var n := LeadingName(line);
      if n !in t.values then Stored(t, Some(Plain))
      else Finish(t, line, del, TypeNameOf(t.values[n]), n)
    else Finish(t, line, del, typeName, name)
  }

  // ---------------------------------------------------------------- Declaration

  /** The foreach over the declared items: each must be a valid name not yet declared; it is
      added with the type's zero and its initializer, if any, runs as an assignment whose
      reply becomes the statement's. A bad or repeated name ends the loop. */
  function DeclareSets(t: Table, sets: seq<string>, typeName: string, last: Option<Fault>): Stored
    requires Valid(t)
    decreases |sets|
  {
    if sets == [] then Stored(t, last)
    else
      var temp := Trim(sets[0]);
      var name := LeadingName(temp);
      if !IsVariable(name) then Stored(t, Some(Plain))
      else if name in t.values then Stored(Remove(t, name), Some(Plain))
      else
        match ZeroOf(typeName)
        case None => Stored(t, Some(KeyNotFound))
        case Some(z) =>
          AddValid(t, name, z);
          var added := Add(t, name, z);
          var s := Assign(added, temp, true, typeName, name);
          AssignValid(added, temp, true, typeName, name);
          DeclareSets(s.table, sets[1..], typeName, s.fault)
  }

  /** Declaration: only before START; the items between VAR and AS, with the first type name
      of the line. */
  function DeclarationOf(s: State, line: string): (State, Reply)
    requires Valid(s.table)
  {
    if s.started then (s, Message(Plain))
    else
      var d := DeclareSets(s.table, Split(DeclarationBody(line), ','), TypeWord(line), None);
      (s.(table := d.table), Said(d.fault))
  }

  // ---------------------------------------------------------------- Input

  /** Int32.Parse's text without its range check: optional white space, an optional sign and
      one or more digits. */
  predicate IntegerText(x: string) {
    var t := DropNumberSpaceEnd(SkipNumberSpace(x));
    var digits := if |t| > 0 && (t[0] == '-' || t[0] == '+') then t[1..] else t;
    |digits| > 0 && AllDigits(digits)
  }

  /** The value a console line gives a variable holding v; None is the null ReadLine returns
      once the input is exhausted. A variable holding a string keeps it. */
  function Parsed(v: Value, input: Option<string>): Result<Value> {
    match v
    case IntV(_) =>
      if input.None? then Err(ArgumentNull)
      else
        (match ParseInt32(input.value)
         case Some(i) => Ok(IntV(i))
         case None => Err(if IntegerText(input.value) then Overflow else Format))
    case FloatV(_) =>
      if input.None? then Err(ArgumentNull)
      else
        (match ParseFloat(input.value)
         case Some(r) => Ok(FloatV(r))
         case None => Err(Format))
    case BoolV(_) =>
      if input == Some("TRUE") then Ok(BoolV(true))
      else if input == Some("FALSE") then Ok(BoolV(false))
      else Err(InvalidCast)
    case CharV(_) =>
      if input.None? then Err(ArgumentNull)
      else if |input.value| == 1 && IsWordChar(input.value[0]) then Ok(StrV(input.value))
      else Err(Format)
    case StrV(_) => Ok(v)
  }

  /** The table, the console lines left and the fault after reading into some names. */
  datatype Read = Read(table: Table, console: seq<string>, fault: Option<Fault>)

  /** The foreach over the names: each must be a valid, declared name; a console line is
      read and parsed for it and stored. The first failure ends the loop. */
  function ReadNames(t: Table, names: seq<string>, console: seq<string>): Read
    requires Valid(t)
    decreases |names|
  {
    if names == [] then Read(t, console, None)
    else
      var n := names[0];
      if !IsVariable(n) then Read(t, console, Some(Format))
      else if n !in t.values then Read(t, console, Some(NullReference))
      else
        var input := if console == [] then None else Some(console[0]);
        var rest := if console == [] then [] else console[1..];
        match Parsed(t.values[n], input)
        case Err(f) => Read(t, rest, Some(f))
        case Ok(v) =>
          SetValid(t, n, v);
          ReadNames(Set(t, n, v), names[1..], rest)
  }

  /** Input: only after START. */
  function InputOf(s: State, line: string): (State, Reply)
    requires Valid(s.table)
  {
    if !s.started then (s, Message(Plain))
    else
      var r := ReadNames(s.table, InputNames(line), s.console);
      (s.(table := r.table, console := r.console), Said(r.fault))
  }

  // ---------------------------------------------------------------- Unary

  /** The C# int's wrap-around: the representative of x modulo 2^32 in the 32-bit range. */
  function Wrap32(x: int): int {
    (x + 0x8000_0000) % 0x1_0000_0000 - 0x8000_0000
  }

  /** A char moved by one code unit, wrapping at 16 bits. A Dafny char cannot hold the
      surrogate code units, so a step into them lands on the far side of the block. */
  function CharStep(c: char, up: bool): char {
    var n := (c as int + (if up then 1 else -1)) % 0x1_0000;
    if 0xD800 <= n < 0xE000 then (if up then 0xE000 as char else 0xD7FF as char) else n as char
  }

  /** `++` (up) or `--` on a dynamic value: int, float and char have the operator; bool and
      string make the runtime binder throw. */
  function Bump(v: Value, up: bool): Result<Value> {
    var d := if up then 1 else -1;
    match v
    case IntV(i) => Ok(IntV(Wrap32(i + d)))
    case FloatV(r) => Ok(FloatV(r + d as real))
    case CharV(c) => Ok(CharV(CharStep(c, up)))
    case BoolV(_) => Err(Binder)
    case StrV(_) => Err(Binder)
  }

  /** Unary: only after START; the first name anywhere in the line and the first ++ or --.
      A line with neither operator (`!x`, `~x`) changes nothing. */
  function UnaryOf(s: State, line: string): (State, Reply) {
    if !s.started then (s, Message(Plain))
    else
      var name := FirstName(line);
      var action := FirstAction(line);
      if !IsVariable(name) then (s, Message(Format))
      else if name !in s.table.values then (s, Message(NullReference))
      else if action == "" then (s, Quiet)
      else
        match Bump(s.table.values[name], action == "++")
        case Err(f) => (s, Message(f))
        case Ok(v) => (s.(table := Set(s.table, name, v)), Quiet)
  }

  // ---------------------------------------------------------------- IF, OUTPUT, comments

  /** The IF statement's condition check: a condition IsTrue cannot decide fails. The body,
      read from the console by a nested interpreter, is not part of this model. */
  function IfOf(s: State, line: string): (State, Reply) {
    match Condition.IsTrueOf(IfExpression(line), s.table.values)
    case None => (s, Message(InvalidOperation))
    case Some(_) => (s, Quiet)
  }

  /** OUTPUT writes the chunks it builds; its failures are replies. */
  function Shows(o: Template.Outcome): Reply {
    match o
    case Printed(c) => Shown(c)
    case Thrown(f) => Message(f)
    case Hangs => Hangs
  }

  function OutputStatement(s: State, line: string): (State, Reply) {
    (s, Shows(Template.OutputOf(s.started, line, s.table.values)))
  }

  /** A comment is written back to the console, after START only. */
  function CommentOf(s: State, line: string): (State, Reply) {
    if s.started then (s, Shown([Template.Lit(line)])) else (s, Message(Plain))
  }

  // ---------------------------------------------------------------- Interpret

  /** Interpret: the statement of the first pattern the line matches. START and STOP are
      handled in place; a line matching no pattern fails. */
  function Step(s: State, line: string): (State, Reply)
    requires Valid(s.table)
  {
    Run(s, line, Classify(line))
  }

  /** The line run as the statement kind. */
  function Run(s: State, line: string, kind: Statement): (State, Reply)
    requires Valid(s.table)
  {
    match kind
    case Declaration => DeclarationOf(s, line)
    case Assignment =>
      var a := Assign(s.table, line, false, "", "");
      (s.(table := a.table), Said(a.fault))
    case Input => InputOf(s, line)
    case Output => OutputStatement(s, line)
    case Start => if !s.started then (s.(started := true), Quiet) else (s, Message(Plain))
    case Stop => if s.started then (s.(finished := true), Quiet) else (s, Message(Plain))
    case Comment => CommentOf(s, line)
    case Unary => UnaryOf(s, line)
    case If => IfOf(s, line)
    case NoMatch => (s, Message(Plain))
  }

  // ---------------------------------------------------------------- The table stays Valid

  lemma AssignValid(t: Table, line: string, del: bool, typeName: string, name: string)
    requires Valid(t)
    requires (name == "" && typeName == "" && !del) || name in t.values
    ensures Valid(Assign(t, line, del, typeName, name).table)
  {
    if name == "" && typeName == "" {
      var n := LeadingName(line);
      if n in t.values {
        FinishValid(t, line, del, TypeNameOf(t.values[n]), n);
      }
    } else {
      FinishValid(t, line, del, typeName, name);
    }
  }

  lemma FinishValid(t: Table, line: string, del: bool, typeName: string, name: string)
    requires Valid(t) && name in t.values
    ensures Valid(Finish(t, line, del, typeName, name).table)
  {
    if del {
      LastKeyPresent(t, name);
      RemoveValid(t, LastKey(t.slots).value);
    }
    match ZeroOf(typeName)
    case None =>
    case Some(z) =>
      match AssignSets(t.values, Split(line, ','), typeName, z)
      case Ok(v) => SetValid(t, name, v);
      case Err(f) =>
  }
}
