/** Interpreter.Output: the text of an OUTPUT statement is walked segment by segment. A
    segment runs to the next space outside double quotes, or to a closing quote. A segment
    naming a declared variable prints its value, an `&` prints nothing, a quoted segment
    prints its text after the escape rules (`#` is a line break, `[x]` is x); anything else
    throws. The printed text is returned as a list of chunks instead of being written to the
    console. */
module Template {
  import opened Text
  import opened Variables
  import opened Faults

  // ---------------------------------------------------------------- The template text

  /** The negated class of the pattern [^OUTPUT\s*:]: the letters of OUTPUT, white space,
      `*` and `:`. */
  predicate InHeaderClass(c: char) { c in "OUTP*:" || IsWhiteSpace(c) }

  function SkipHeader(s: string): (r: string)
    ensures |r| <= |s| && r == s[|s| - |r|..]
    ensures forall k | 0 <= k < |s| - |r| :: InHeaderClass(s[k])
    ensures r == [] || !InHeaderClass(r[0])
    decreases |s|
  {
    if |s| > 0 && InHeaderClass(s[0]) then SkipHeader(s[1..]) else s
  }

  /** Regex.Match(line, @"[^OUTPUT\s*:].*").Value: from the first character outside the
      class up to the end of that line of text; "" where there is no such character. */
  function TemplateOf(line: string): (input: string)
    ensures '\n' !in input
    ensures input == [] || !InHeaderClass(input[0])
    ensures input <= SkipHeader(line)
    ensures |input| < |SkipHeader(line)| ==> SkipHeader(line)[|input|] == '\n'
  {
    var r := SkipHeader(line);
    var k := IndexOf(r, '\n');
    if k == -1 then r else r[..k]
  }

  // ---------------------------------------------------------------- Segments

  /** What `outputString` receives: literal text, or a variable's value, whose conversion to
      text is .NET's ToString. */
  datatype Chunk = Lit(s: string) | Show(v: Value)

  /** `outputString += s`: appending "" changes nothing. */
  function Emit(out: seq<Chunk>, s: string): seq<Chunk> {
    if s == "" then out else out + [Lit(s)]
  }

  /** The walker's position `count`, the segment read so far `head`, and the flags
      isSubstring (inside quotes) and fromSubstring (the last quote read was a closing one). */
  datatype Cursor = Cursor(i: nat, head: string, quoted: bool, fromQuoted: bool)

  /** The inner for loop: reads one segment. Inside quotes every character but `"` joins
      the segment and `"` ends it; outside, `"` opens quotes, a space ends the segment, and
      any other character joins it. The cursor stops on the character that ended the
      segment. */
  function Scan(input: string, c: Cursor): (r: Cursor)
    ensures c.i <= r.i && (c.i <= |input| ==> r.i <= |input|)
    ensures r.i < |input| ==> !r.quoted && (input[r.i] == ' ' || (input[r.i] == '"' && r.fromQuoted))
    decreases |input| - c.i
  {
    if c.i >= |input| then c
    else
      var ch := input[c.i];
      if c.quoted then
        if ch == '"' then c.(quoted := false, fromQuoted := true)
        else Scan(input, c.(i := c.i + 1, head := c.head + [ch]))
      else if ch == '"' then Scan(input, c.(i := c.i + 1, quoted := true, fromQuoted := false))
      else if ch != ' ' then Scan(input, c.(i := c.i + 1, head := c.head + [ch]))
      else c
  }

  // ---------------------------------------------------------------- Escapes

  /** String.IndexOf(c, start) for a start within the string or at its end: the first c at
      or after start, or -1. */
  function IndexFrom(s: string, c: char, start: nat): (k: int)
    requires start <= |s|
    ensures k == -1 <==> c !in s[start..]
    ensures k != -1 ==> start <= k < |s| && s[k] == c && c !in s[start..k]
  {
    var j := IndexOf(s[start..], c);
    if j == -1 then -1
    else
      assert s[start..][..j] == s[start..start + j];
      start + j
  }

  /** The character loop of the escape branch: every character but the first `[` and the
      first `]` is copied. */
  function Unbracket(s: string, seenOpen: bool, seenClose: bool): string
    decreases |s|
  {
    if s == [] then []
    else if s[0] == '[' && !seenOpen then Unbracket(s[1..], true, seenClose)
    else if s[0] == ']' && !seenClose then Unbracket(s[1..], seenOpen, true)
    else [s[0]] + Unbracket(s[1..], seenOpen, seenClose)
  }

  /** A quoted segment holding `[`. IndexOf("]", 2) throws on a segment shorter than 2; the
      escape is accepted only when the first `]` from index 2 on lies two characters after
      the first `[`. A `]` at index 1 then prints the one character after the `[`; otherwise
      the segment prints without its first `[` and its first `]`. */
  function Bracket(head: string): Result<string>
    requires '[' in head
  {
    if |head| < 2 then Err(OutOfRange)
    else
      var open := IndexOf(head, '[');
      var close := IndexFrom(head, ']', 2);
      if close - 2 != open then Err(InvalidEscape)
      else if IndexOf(head, ']') == 1 then Ok([head[open + 1]])
      else Ok(Unbracket(head, false, false))
  }

  /** What a quoted segment prints: `#` makes the whole segment one line break unless it also
      holds a `[`; a `[` goes through the escape rule; other text prints as it is. */
  function Escape(head: string): Result<string> {
    if '#' in head then (if '[' in head then Bracket(head) else Ok("\n"))
    else if '[' in head then Bracket(head)
    else Ok(head)
  }

  // ---------------------------------------------------------------- The walk

  /** One segment other than `&`: a declared name prints its value, a segment read since the
      last closing quote prints through the escape rules, and anything else throws
      NullReferenceException. */
  function Segment(c: Cursor, vars: map<string, Value>, out: seq<Chunk>): Result<seq<Chunk>> {
    if c.head in vars then Ok(out + [Show(vars[c.head])])
    else if c.fromQuoted then
      match Escape(c.head)
      case Err(f) => Err(f)
      case Ok(text) => Ok(Emit(out, text))
    else Err(NullReference)
  }

  /** How OUTPUT ends: the chunks it prints, the exception it throws, or a walk that never
      ends. */
  datatype Outcome = Printed(chunks: seq<Chunk>) | Thrown(fault: Fault) | Hangs

  /** The outer while loop from position count. The walk ends when a segment ends exactly at
      the end of the text. An `&` segment moves one character further without that check,
      so the position can pass the end; from then on every round reads an empty segment,
      which throws unless it prints (as "" after a closing quote does) and the loop goes
      on for ever. */
  function Walk(input: string, vars: map<string, Value>, count: nat, quoted: bool, fromQuoted: bool, out: seq<Chunk>): Outcome
    decreases |input| + 1 - count
  {
    if count > |input| then
      if "" in vars || fromQuoted then Hangs else Thrown(NullReference)
    else
      var c := Scan(input, Cursor(count, "", quoted, fromQuoted));
      if c.head !in vars && c.head == "&" then Walk(input, vars, c.i + 1, c.quoted, c.fromQuoted, out)
      else
        match Segment(c, vars, out)
        case Err(f) => Thrown(f)
        case Ok(out') =>
          if c.i == |input| then Printed(out')
          else Walk(input, vars, c.i + 1, c.quoted, c.fromQuoted, out')
  }

  /** What OUTPUT does with a line, given whether START has run and the variable table. */
  function OutputOf(started: bool, line: string, vars: map<string, Value>): Outcome {
    if !started then Thrown(Plain)
    else Walk(TemplateOf(line), vars, 0, false, false, [])
  }

  // ---------------------------------------------------------------- The loops

  /** The inner for loop, from position count with an empty segment. */
  method ScanSegment(input: string, count: nat, quoted: bool, fromQuoted: bool) returns (c: Cursor)
    ensures c == Scan(input, Cursor(count, "", quoted, fromQuoted))
  {
    var i, head, inQuotes, afterQuote := count, "", quoted, fromQuoted;
    while i < |input|
      invariant count <= i
      invariant Scan(input, Cursor(count, "", quoted, fromQuoted)) == Scan(input, Cursor(i, head, inQuotes, afterQuote))
      decreases |input| - i
    {
      if inQuotes {
        if input[i] == '"' {
          return Cursor(i, head, false, true);
        }
        head := head + [input[i]];
      } else if input[i] == '"' {
        inQuotes, afterQuote := true, false;
      } else if input[i] != ' ' {
        head := head + [input[i]];
      } else {
        return Cursor(i, head, inQuotes, afterQuote);
      }
      i := i + 1;
    }
    c := Cursor(i, head, inQuotes, afterQuote);
  }

  /** The character loop of the escape branch. */
  method CopyUnbracketed(head: string) returns (text: string)
    ensures text == Unbracket(head, false, false)
  {
    text := "";
    var seenOpen, seenClose := false, false;
    var i := 0;
    while i < |head|
      invariant i <= |head|
      invariant text + Unbracket(head[i..], seenOpen, seenClose) == Unbracket(head, false, false)
    {
      assert head[i..][0] == head[i] && head[i..][1..] == head[i + 1..];
      if head[i] == '[' && !seenOpen {
        seenOpen := true;
      } else if head[i] == ']' && !seenClose {
        seenClose := true;
      } else {
        text := text + [head[i]];
      }
      i := i + 1;
    }
    assert head[i..] == [];
  }

  method EscapeSegment(head: string) returns (r: Result<string>)
    ensures r == Escape(head)
  {
    if '#' in head && '[' !in head {
      return Ok("\n");
    }
    if '[' !in head {
      return Ok(head);
    }
    if |head| < 2 {
      return Err(OutOfRange);
    }
    var open := IndexOf(head, '[');
    if IndexFrom(head, ']', 2) - 2 != open {
      return Err(InvalidEscape);
    }
    if IndexOf(head, ']') == 1 {
      return Ok([head[open + 1]]);
    }
    var text := CopyUnbracketed(head);
    r := Ok(text);
  }

  /** The outer while loop over the whole template. The source's loop runs for ever once the
      position has passed the end of the text and an empty segment prints; the method stops
      there and reports Hangs. */
  method Build(input: string, vars: map<string, Value>) returns (outcome: Outcome)
    ensures outcome == Walk(input, vars, 0, false, false, [])
  {
    var out: seq<Chunk> := [];
    var count := 0;
    var quoted, fromQuoted := false, false;
    while true
      invariant Walk(input, vars, 0, false, false, []) == Walk(input, vars, count, quoted, fromQuoted, out)
      decreases |input| + 1 - count
    {
      if count > |input| {
        if "" in vars || fromQuoted {
          return Hangs;
        }
        return Thrown(NullReference);
      }
      var c := ScanSegment(input, count, quoted, fromQuoted);
      quoted, fromQuoted := c.quoted, c.fromQuoted;
      if c.head in vars {
        out := out + [Show(vars[c.head])];
      } else if c.head == "&" {
        count := c.i + 1;
        continue;
      } else if fromQuoted {
        var text := EscapeSegment(c.head);
        if text.Err? {
          return Thrown(text.fault);
        }
        out := Emit(out, text.value);
      } else {
        return Thrown(NullReference);
      }
      if c.i == |input| {
        return Printed(out);
      }
      count := c.i + 1;
    }
  }

  // ---------------------------------------------------------------- The escape rules

  /** s without its first c, if it has one. */
  function DropFirst(s: string, c: char): (r: string)
    ensures c in s ==> |r| == |s| - 1
    ensures c !in s ==> r == s
  {
    var k := IndexOf(s, c);
    if k == -1 then s else s[..k] + s[k + 1..]
  }

  lemma DropFirstCons(x: char, s: string, c: char)
    ensures DropFirst([x] + s, c) == if x == c then s else [x] + DropFirst(s, c)
  {
    var t := [x] + s;
    IndexOfCons(x, s, c);
    if x == c {
      assert t[1..] == s;
    } else if c in s {
      DropSplit(x, s, IndexOf(s, c));
    }
  }

  lemma IndexOfCons(x: char, s: string, c: char)
    ensures IndexOf([x] + s, c) == if x == c then 0 else if c in s then IndexOf(s, c) + 1 else -1
  {
    assert ([x] + s)[0] == x && ([x] + s)[1..] == s;
  }

  lemma DropSplit(x: char, s: string, k: nat)
    requires k < |s|
    ensures ([x] + s)[..k + 1] + ([x] + s)[k + 2..] == [x] + (s[..k] + s[k + 1..])
  {
    var t := [x] + s;
    assert t[..k + 1] == [x] + s[..k] && t[k + 2..] == s[k + 1..];
  }

  /** The escape loop removes exactly the first `[` and the first `]`. */
  lemma {:induction false} UnbracketDrops(s: string)
    ensures Unbracket(s, false, false) == DropFirst(DropFirst(s, '['), ']')
    decreases |s|
  {
    if s != [] {
      assert s == [s[0]] + s[1..];
      DropFirstCons(s[0], s[1..], '[');
      if s[0] == '[' {
        UnbracketOpen(s[1..]);
      } else if s[0] == ']' {
        UnbracketClose(s[1..]);
        DropFirstCons(']', DropFirst(s[1..], '['), ']');
      } else {
        UnbracketDrops(s[1..]);
        DropFirstCons(s[0], DropFirst(s[1..], '['), ']');
      }
    }
  }

  lemma {:induction false} UnbracketOpen(s: string)
    ensures Unbracket(s, true, false) == DropFirst(s, ']')
    decreases |s|
  {
    if s != [] {
      assert s == [s[0]] + s[1..];
      DropFirstCons(s[0], s[1..], ']');
      if s[0] == ']' {
        UnbracketBoth(s[1..]);
      } else {
        UnbracketOpen(s[1..]);
      }
    }
  }

  lemma {:induction false} UnbracketClose(s: string)
    ensures Unbracket(s, false, true) == DropFirst(s, '[')
    decreases |s|
  {
    if s != [] {
      assert s == [s[0]] + s[1..];
      DropFirstCons(s[0], s[1..], '[');
      if s[0] == '[' {
        UnbracketBoth(s[1..]);
      } else {
        UnbracketClose(s[1..]);
      }
    }
  }

  lemma {:induction false} UnbracketBoth(s: string)
    ensures Unbracket(s, true, true) == s
    decreases |s|
  {
    if s != [] {
      UnbracketBoth(s[1..]);
      assert s == [s[0]] + s[1..];
    }
  }

  /** A quoted segment with a `[` is accepted exactly when, k being the index of its first
      `[`, the character at k + 2 is a `]` and no `]` lies between index 2 and it. An
      accepted escape prints the one character after the `[` when the first `]` is at
      index 1, and otherwise the segment without its first `[` and first `]`. A rejected one
      throws "Invalid Escape Character!", or for the lone segment `[`, the range exception
      of IndexOf. */
  lemma EscapeRule(t: string)
    requires '[' in t
    ensures var k := IndexOf(t, '[');
      && (Escape(t).Ok? <==> k + 2 < |t| && t[k + 2] == ']' && ']' !in t[2..k + 2])
      && (Escape(t).Err? ==> Escape(t).fault == if t == "[" then OutOfRange else InvalidEscape)
      && (Escape(t).Ok? ==>
            Escape(t).value == if IndexOf(t, ']') == 1 then [t[k + 1]] else DropFirst(DropFirst(t, '['), ']'))
  {
    assert Escape(t) == Bracket(t);
    if |t| < 2 {
      BracketShort(t);
    } else {
      BracketLong(t);
    }
  }

  /** The lone segment `[`: IndexOf's start index 2 lies past its end. */
  lemma BracketShort(t: string)
    requires '[' in t && |t| < 2
    ensures t == "[" && Bracket(t) == Err(OutOfRange)
    ensures IndexOf(t, '[') + 2 >= |t|
  {
    assert t == [t[0]] && t[0] == '[';
  }

  /** A segment of two or more characters: accepted exactly when the escape test holds. */
  lemma BracketLong(t: string)
    requires '[' in t && |t| >= 2
    ensures var k := IndexOf(t, '[');
      && (Bracket(t).Ok? <==> k + 2 < |t| && t[k + 2] == ']' && ']' !in t[2..k + 2])
      && (Bracket(t).Err? ==> Bracket(t).fault == InvalidEscape)
      && (Bracket(t).Ok? ==>
            Bracket(t).value == if IndexOf(t, ']') == 1 then [t[k + 1]] else DropFirst(DropFirst(t, '['), ']'))
  {
    CloseAt(t);
    UnbracketDrops(t);
  }

  /** The test of the escape rule, in terms of the characters. */
  lemma CloseAt(t: string)
    requires '[' in t && |t| >= 2
    ensures var k := IndexOf(t, '[');
      IndexFrom(t, ']', 2) - 2 == k <==> k + 2 < |t| && t[k + 2] == ']' && ']' !in t[2..k + 2]
  {
    var k := IndexOf(t, '[');
    if k + 2 < |t| && t[k + 2] == ']' && ']' !in t[2..k + 2] {
      FirstFrom(t, ']', 2, k + 2);
    }
  }

  lemma FirstFrom(t: string, c: char, start: nat, j: nat)
    requires start <= j < |t| && t[j] == c && c !in t[start..j]
    ensures IndexFrom(t, c, start) == j
  {
    assert t[start..][j - start] == c;
  }

  /** A quoted segment with no `[` prints a single line break if it holds a `#`, and itself
      otherwise. */
  lemma EscapePlain(t: string)
    requires '[' !in t
    ensures Escape(t) == Ok(if '#' in t then "\n" else t)
  {
  }

  // ---------------------------------------------------------------- Well-formed templates

  /** What an OUTPUT template is meant to be: segments separated by single spaces, each a
      variable name, an `&`, or a quoted text. */
  datatype Item = Name(n: string) | Amp | Quote(text: string)

  function ItemText(x: Item): string {
    match x
    case Name(n) => n
    case Amp => "&"
    case Quote(t) => "\"" + t + "\""
  }

  function Line(items: seq<Item>): string
    decreases |items|
  {
    if |items| == 0 then ""
    else if |items| == 1 then ItemText(items[0])
    else ItemText(items[0]) + " " + Line(items[1..])
  }

  /** Text with no space and no double quote. */
  predicate Word(w: string) { forall k | 0 <= k < |w| :: w[k] != ' ' && w[k] != '"' }

  /** A segment the walk reads as intended: a declared name, an `&` that is no variable, or a
      quoted text without quotes whose escapes are valid and that is neither a declared name
      nor `&`. */
  predicate Simple(x: Item, vars: map<string, Value>) {
    match x
    case Name(n) => n in vars && n != "" && Word(n)
    case Amp => "&" !in vars
    case Quote(t) => '"' !in t && t !in vars && t != "&" && Escape(t).Ok?
  }

  /** A template of simple segments that does not end with `&`, over a table without the
      empty name. */
  predicate WellFormed(items: seq<Item>, vars: map<string, Value>) {
    && |items| > 0 && items[|items| - 1] != Amp && "" !in vars
    && forall k | 0 <= k < |items| :: Simple(items[k], vars)
  }

  /** What a segment is meant to print. */
  function Put(x: Item, vars: map<string, Value>, out: seq<Chunk>): seq<Chunk> {
    match x
    case Name(n) => if n in vars then out + [Show(vars[n])] else out
    case Amp => out
    case Quote(t) => match Escape(t) case Ok(e) => Emit(out, e) case Err(_) => out
  }

  /** What a template is meant to print: its segments' chunks in order. */
  function Expect(items: seq<Item>, vars: map<string, Value>, out: seq<Chunk>): seq<Chunk>
    decreases |items|
  {
    if items == [] then out else Expect(items[1..], vars, Put(items[0], vars, out))
  }

  /** Reading a word outside quotes. */
  lemma {:induction false} ScanWord(input: string, i: nat, head: string, f: bool, w: string)
    requires i + |w| <= |input| && input[i..i + |w|] == w && Word(w)
    requires i + |w| == |input| || input[i + |w|] == ' '
    ensures Scan(input, Cursor(i, head, false, f)) == Cursor(i + |w|, head + w, false, f)
    decreases |w|
  {
    if w == [] {
      assert head + w == head;
    } else {
      assert input[i] == w[0];
      assert input[i + 1..i + 1 + |w[1..]|] == w[1..];
      ScanWord(input, i + 1, head + [w[0]], f, w[1..]);
      assert head + [w[0]] + w[1..] == head + w;
    }
  }

  /** Reading a quoted text up to its closing quote. */
  lemma {:induction false} ScanQuoted(input: string, i: nat, head: string, f: bool, t: string)
    requires i + |t| < |input| && input[i..i + |t|] == t && '"' !in t && input[i + |t|] == '"'
    ensures Scan(input, Cursor(i, head, true, f)) == Cursor(i + |t|, head + t, false, true)
    decreases |t|
  {
    if t == [] {
      assert head + t == head;
    } else {
      assert input[i] == t[0];
      assert input[i + 1..i + 1 + |t[1..]|] == t[1..];
      ScanQuoted(input, i + 1, head + [t[0]], f, t[1..]);
      assert head + [t[0]] + t[1..] == head + t;
    }
  }

  /** One round of the walk on a declared name. */
  lemma RoundName(input: string, i: nat, n: string, vars: map<string, Value>, f: bool, out: seq<Chunk>)
    requires i + |n| <= |input| && input[i..i + |n|] == n && Word(n) && n in vars
    requires i + |n| == |input| || input[i + |n|] == ' '
    ensures Walk(input, vars, i, false, f, out)
      == if i + |n| == |input| then Printed(out + [Show(vars[n])])
         else Walk(input, vars, i + |n| + 1, false, f, out + [Show(vars[n])])
  {
    ScanWord(input, i, "", f, n);
    assert "" + n == n;
  }

  /** One round of the walk on an `&` followed by a space. */
  lemma RoundAmp(input: string, i: nat, vars: map<string, Value>, f: bool, out: seq<Chunk>)
    requires i + 1 < |input| && input[i] == '&' && input[i + 1] == ' ' && "&" !in vars
    ensures Walk(input, vars, i, false, f, out) == Walk(input, vars, i + 2, false, f, out)
  {
    assert input[i..i + 1] == "&";
    ScanWord(input, i, "", f, "&");
    assert "" + "&" == "&";
  }

  /** The segment read from an opening quote ends on the closing one and is marked as read
      since that quote. */
  lemma ScanQuote(input: string, i: nat, t: string, f: bool)
    requires i + |t| + 2 <= |input| && input[i] == '"' && input[i + 1..i + 1 + |t|] == t
    requires input[i + 1 + |t|] == '"' && '"' !in t
    ensures Scan(input, Cursor(i, "", false, f)) == Cursor(i + 1 + |t|, t, false, true)
  {
    ScanQuoted(input, i + 1, "", false, t);
    assert "" + t == t;
  }

  /** One round of the walk on a quoted text, which stops on its closing quote. */
  lemma RoundQuote(input: string, i: nat, t: string, vars: map<string, Value>, f: bool, out: seq<Chunk>)
    requires i + |t| + 2 <= |input| && Scan(input, Cursor(i, "", false, f)) == Cursor(i + 1 + |t|, t, false, true)
    requires t !in vars && t != "&" && Escape(t).Ok?
    ensures Walk(input, vars, i, false, f, out)
      == Walk(input, vars, i + |t| + 2, false, true, Emit(out, Escape(t).value))
  {
  }

  /** The empty segment read after a closing quote, at the end of the line: the walk ends. */
  lemma RoundGapEnd(input: string, vars: map<string, Value>, out: seq<Chunk>)
    requires "" !in vars
    ensures Walk(input, vars, |input|, false, true, out) == Printed(out)
  {
    assert Scan(input, Cursor(|input|, "", false, true)) == Cursor(|input|, "", false, true);
    assert Escape("") == Ok("");
  }

  /** The empty segment read after a closing quote, before a space: it prints nothing. */
  lemma RoundGap(input: string, i: nat, vars: map<string, Value>, out: seq<Chunk>)
    requires i < |input| && input[i] == ' ' && "" !in vars
    ensures Walk(input, vars, i, false, true, out) == Walk(input, vars, i + 1, false, true, out)
  {
    assert Scan(input, Cursor(i, "", false, true)) == Cursor(i, "", false, true);
    assert Escape("") == Ok("");
  }

  /** The segment x lies at position i of the input, followed by a space. */
  predicate ItemAt(input: string, i: nat, x: Item) {
    i + |ItemText(x)| < |input| && input[i..i + |ItemText(x)|] == ItemText(x) && input[i + |ItemText(x)|] == ' '
  }

  lemma ItemAtJoin(pre: string, x: Item, tail: string)
    ensures ItemAt(pre + ItemText(x) + " " + tail, |pre|, x)
  {
    var input := pre + ItemText(x) + " " + tail;
    assert input[|pre|..|pre| + |ItemText(x)|] == ItemText(x);
  }

  /** A declared name followed by a space: the walk prints its value and moves past the
      space. */
  lemma StepName(input: string, i: nat, n: string, vars: map<string, Value>, f: bool, out: seq<Chunk>)
    requires ItemAt(input, i, Name(n)) && n in vars && Word(n)
    ensures Walk(input, vars, i, false, f, out) == Walk(input, vars, i + |n| + 1, false, f, out + [Show(vars[n])])
  {
    RoundName(input, i, n, vars, f, out);
  }

  /** An `&` followed by a space: the walk prints nothing and moves past the space. */
  lemma StepAmp(input: string, i: nat, vars: map<string, Value>, f: bool, out: seq<Chunk>)
    requires ItemAt(input, i, Amp) && "&" !in vars
    ensures Walk(input, vars, i, false, f, out) == Walk(input, vars, i + 2, false, f, out)
  {
    assert input[i] == input[i..i + 1][0];
    RoundAmp(input, i, vars, f, out);
  }

  /** A quoted text followed by a space: the walk prints the escaped text and moves past the
      space. */
  lemma StepQuote(input: string, i: nat, t: string, vars: map<string, Value>, f: bool, out: seq<Chunk>)
    requires ItemAt(input, i, Quote(t))
    requires '"' !in t && t !in vars && t != "&" && Escape(t).Ok? && "" !in vars
    ensures Walk(input, vars, i, false, f, out) == Walk(input, vars, i + |t| + 3, false, true, Emit(out, Escape(t).value))
  {
    QuoteAt(input, i, t);
    ScanQuote(input, i, t, f);
    QuoteThenGap(input, i, t, vars, f, out);
  }

  /** A quoted text and the space after it, read in two rounds. */
  lemma QuoteThenGap(input: string, i: nat, t: string, vars: map<string, Value>, f: bool, out: seq<Chunk>)
    requires i + |t| + 2 < |input| && Scan(input, Cursor(i, "", false, f)) == Cursor(i + 1 + |t|, t, false, true)
    requires input[i + |t| + 2] == ' ' && t !in vars && t != "&" && Escape(t).Ok? && "" !in vars
    ensures Walk(input, vars, i, false, f, out)
      == Walk(input, vars, i + |t| + 3, false, true, Emit(out, Escape(t).value))
  {
    var e := Emit(out, Escape(t).value);
    RoundQuote(input, i, t, vars, f, out);
    RoundGap(input, i + |t| + 2, vars, e);
  }

  /** Where the characters of a quoted text lie. */
  lemma QuoteAt(input: string, i: nat, t: string)
    requires i + |t| + 2 <= |input| && input[i..i + |t| + 2] == "\"" + t + "\""
    ensures input[i] == '"' && input[i + 1..i + 1 + |t|] == t && input[i + 1 + |t|] == '"'
  {
    var q := input[i..i + |t| + 2];
    assert input[i] == q[0];
    assert input[i + 1 + |t|] == q[|t| + 1];
    forall k | 0 <= k < |t|
      ensures input[i + 1..i + 1 + |t|][k] == t[k]
    {
      assert input[i + 1 + k] == q[k + 1];
    }
  }

  /** Where the characters of a closing quoted text lie. */
  lemma LastQuoteAt(pre: string, t: string)
    ensures var input := pre + ("\"" + t + "\"");
      && |input| == |pre| + |t| + 2
      && input[|pre|] == '"' && input[|pre| + 1..|pre| + 1 + |t|] == t && input[|pre| + 1 + |t|] == '"'
  {
  }

  /** The value of fromSubstring after a segment. */
  function FlagAfter(x: Item, f: bool): bool {
    if x.Quote? then true else f
  }

  /** A segment followed by a space and more segments: the walk prints the segment and
      carries on at the next one. */
  lemma StepItem(input: string, i: nat, x: Item, vars: map<string, Value>, f: bool, out: seq<Chunk>)
    requires ItemAt(input, i, x) && Simple(x, vars) && "" !in vars
    ensures Walk(input, vars, i, false, f, out)
      == Walk(input, vars, i + |ItemText(x)| + 1, false, FlagAfter(x, f), Put(x, vars, out))
  {
    match x
    case Name(n) => StepNameItem(input, i, x, vars, f, out);
    case Amp => StepAmpItem(input, i, x, vars, f, out);
    case Quote(t) => StepQuoteItem(input, i, x, vars, f, out);
  }

  lemma StepNameItem(input: string, i: nat, x: Item, vars: map<string, Value>, f: bool, out: seq<Chunk>)
    requires x.Name? && ItemAt(input, i, x) && Simple(x, vars)
    ensures Walk(input, vars, i, false, f, out)
      == Walk(input, vars, i + |ItemText(x)| + 1, false, FlagAfter(x, f), Put(x, vars, out))
  {
    StepName(input, i, x.n, vars, f, out);
  }

  lemma StepAmpItem(input: string, i: nat, x: Item, vars: map<string, Value>, f: bool, out: seq<Chunk>)
    requires x.Amp? && ItemAt(input, i, x) && Simple(x, vars)
    ensures Walk(input, vars, i, false, f, out)
      == Walk(input, vars, i + |ItemText(x)| + 1, false, FlagAfter(x, f), Put(x, vars, out))
  {
    StepAmp(input, i, vars, f, out);
  }

  lemma StepQuoteItem(input: string, i: nat, x: Item, vars: map<string, Value>, f: bool, out: seq<Chunk>)
    requires x.Quote? && ItemAt(input, i, x) && Simple(x, vars) && "" !in vars
    ensures Walk(input, vars, i, false, f, out)
      == Walk(input, vars, i + |ItemText(x)| + 1, false, FlagAfter(x, f), Put(x, vars, out))
  {
    StepQuote(input, i, x.text, vars, f, out);
  }

  lemma LineCons(pre: string, x: Item, rest: seq<Item>)
    requires rest != []
    ensures pre + Line([x] + rest) == pre + ItemText(x) + " " + Line(rest)
  {
    assert ([x] + rest)[0] == x && ([x] + rest)[1..] == rest;
  }

  /** The last segment, a declared name: the walk prints its value and ends. */
  lemma LastName(pre: string, n: string, vars: map<string, Value>, f: bool, out: seq<Chunk>)
    requires n in vars && Word(n)
    ensures Walk(pre + n, vars, |pre|, false, f, out) == Printed(out + [Show(vars[n])])
  {
    assert (pre + n)[|pre|..|pre| + |n|] == n;
    RoundName(pre + n, |pre|, n, vars, f, out);
  }

  /** The last segment, a quoted text: the walk prints the escaped text and ends. */
  lemma LastQuote(pre: string, t: string, vars: map<string, Value>, f: bool, out: seq<Chunk>)
    requires '"' !in t && t !in vars && t != "&" && Escape(t).Ok? && "" !in vars
    ensures Walk(pre + ("\"" + t + "\""), vars, |pre|, false, f, out) == Printed(Emit(out, Escape(t).value))
  {
    var input := pre + ("\"" + t + "\"");
    LastQuoteAt(pre, t);
    ScanQuote(input, |pre|, t, f);
    RoundQuote(input, |pre|, t, vars, f, out);
    RoundGapEnd(input, vars, Emit(out, Escape(t).value));
  }

  /** The last segment: the walk prints it and ends. */
  lemma LastItem(pre: string, x: Item, vars: map<string, Value>, f: bool, out: seq<Chunk>)
    requires Simple(x, vars) && x != Amp && "" !in vars
    ensures Walk(pre + ItemText(x), vars, |pre|, false, f, out) == Printed(Put(x, vars, out))
  {
    match x
    case Name(n) => LastName(pre, n, vars, f, out);
    case Quote(t) => LastQuote(pre, t, vars, f, out);
  }

  /** The walk from the start of any segment of a well-formed template prints what the
      rest of the template is meant to print. */
  lemma {:induction false} WalkFrom(pre: string, items: seq<Item>, vars: map<string, Value>, f: bool, out: seq<Chunk>)
    requires WellFormed(items, vars)
    ensures Walk(pre + Line(items), vars, |pre|, false, f, out) == Printed(Expect(items, vars, out))
    decreases |items|
  {
    var x := items[0];
    assert Simple(x, vars);
    if |items| == 1 {
      WalkLast(pre, items, vars, f, out);
    } else {
      var rest := items[1..];
      assert WellFormed(rest, vars) by {
        assert forall k | 0 <= k < |rest| :: rest[k] == items[k + 1];
      }
      WalkFrom(pre + ItemText(x) + " ", rest, vars, FlagAfter(x, f), Put(x, vars, out));
      WalkNext(pre, items, vars, f, out);
    }
  }

  /** WalkFrom on a template of one segment. */
  lemma WalkLast(pre: string, items: seq<Item>, vars: map<string, Value>, f: bool, out: seq<Chunk>)
    requires |items| == 1 && Simple(items[0], vars) && items[0] != Amp && "" !in vars
    ensures Walk(pre + Line(items), vars, |pre|, false, f, out) == Printed(Expect(items, vars, out))
  {
    var x := items[0];
    assert Line(items) == ItemText(x);
    LastItem(pre, x, vars, f, out);
    assert Expect(items[1..], vars, Put(x, vars, out)) == Put(x, vars, out);
  }

  /** WalkFrom's step: the first segment, then the walk over the others. */
  lemma WalkNext(pre: string, items: seq<Item>, vars: map<string, Value>, f: bool, out: seq<Chunk>)
    requires |items| > 1 && Simple(items[0], vars) && "" !in vars
    requires var pre' := pre + ItemText(items[0]) + " ";
      Walk(pre' + Line(items[1..]), vars, |pre'|, false, FlagAfter(items[0], f), Put(items[0], vars, out))
        == Printed(Expect(items[1..], vars, Put(items[0], vars, out)))
    ensures Walk(pre + Line(items), vars, |pre|, false, f, out) == Printed(Expect(items, vars, out))
  {
    var x, rest := items[0], items[1..];
    ItemsAt(pre, items);
    StepThen(pre + Line(items), |pre|, x, pre + ItemText(x) + " ", rest, vars, f, out, Expect(rest, vars, Put(x, vars, out)));
  }

  /** StepItem, followed by a walk over the rest of the text that prints e. */
  lemma StepThen(input: string, i: nat, x: Item, pre': string, rest: seq<Item>, vars: map<string, Value>, f: bool, out: seq<Chunk>, e: seq<Chunk>)
    requires ItemAt(input, i, x) && Simple(x, vars) && "" !in vars
    requires input == pre' + Line(rest) && |pre'| == i + |ItemText(x)| + 1
    requires Walk(pre' + Line(rest), vars, |pre'|, false, FlagAfter(x, f), Put(x, vars, out)) == Printed(e)
    ensures Walk(input, vars, i, false, f, out) == Printed(e)
  {
    StepItem(input, i, x, vars, f, out);
  }

  /** Where the first segment of a template of several lies, and what follows it. */
  lemma ItemsAt(pre: string, items: seq<Item>)
    requires |items| > 1
    ensures var pre' := pre + ItemText(items[0]) + " ";
      && pre + Line(items) == pre' + Line(items[1..])
      && ItemAt(pre + Line(items), |pre|, items[0])
      && |pre'| == |pre| + |ItemText(items[0])| + 1
  {
    var x, rest := items[0], items[1..];
    assert items == [x] + rest;
    LineCons(pre, x, rest);
    ItemAtJoin(pre, x, Line(rest));
  }

  /** OUTPUT prints what a well-formed template is meant to print: a name its value, an
      `&` nothing, a quoted text its escaped text. */
  lemma WalkLine(items: seq<Item>, vars: map<string, Value>)
    requires WellFormed(items, vars)
    ensures Walk(Line(items), vars, 0, false, false, []) == Printed(Expect(items, vars, []))
  {
    WalkFrom("", items, vars, false, []);
    assert "" + Line(items) == Line(items);
  }

  /** An `&` that ends the text: the walk moves one character past the end. */
  lemma RoundAmpLast(input: string, i: nat, vars: map<string, Value>, f: bool, out: seq<Chunk>)
    requires i + 1 == |input| && input[i] == '&' && "&" !in vars
    ensures Walk(input, vars, i, false, f, out) == Walk(input, vars, i + 2, false, f, out)
  {
    assert input[i..i + 1] == "&";
    ScanWord(input, i, "", f, "&");
    assert "" + "&" == "&";
  }

  /** A template ending in `&` reads past its end: after a name, the walk throws. */
  lemma TrailingAmpThrows(n: string, v: Value)
    requires n != "" && n != "&" && Word(n)
    ensures Walk(n + " &", map[n := v], 0, false, false, []) == Thrown(NullReference)
  {
    var input, vars := n + " &", map[n := v];
    assert input[0..|n|] == n && input[|n|] == ' ' && input[|n| + 1] == '&';
    RoundName(input, 0, n, vars, false, []);
    RoundAmpLast(input, |n| + 1, vars, false, [Show(v)]);
  }

  /** A template ending in `&` after a quoted text never ends. */
  lemma TrailingAmpHangs(t: string)
    requires '"' !in t && t != "&" && Escape(t).Ok?
    ensures Walk("\"" + t + "\" &", map[], 0, false, false, []) == Hangs
  {
    var vars: map<string, Value> := map[];
    var input := "\"" + t + "\" &";
    ItemAtJoin("", Quote(t), "&");
    assert "" + ItemText(Quote(t)) + " " + "&" == input;
    StepQuote(input, 0, t, vars, false, []);
    assert input[|t| + 3] == '&';
    RoundAmpLast(input, |t| + 3, vars, true, Emit([], Escape(t).value));
  }
}
