# FortranBComplex interpreter core, modelled in Dafny

The FortranBComplex interpreter is a C# console program that runs a small line-oriented
language one line at a time. Its pieces:

- The `Interpreter` class classifies each line against a dictionary of regular expressions,
  in a fixed order.
- It runs the statement of the first pattern that matches: declarations (`VAR a, b = 1 AS
  INT`), assignments, `INPUT:`, `OUTPUT:`, comments, `++`/`--`, `IF (…)`, `START` and `STOP`.
- It keeps the variables in a `Dictionary<string, dynamic>`.
- Every statement catches its own exception and returns the exception's message as its
  reply.
- Arithmetic right-hand sides go through `Postfix.ToPostFix` (a shunting yard with
  unary-minus rewriting) and `Postfix.QuickMath` (a float stack).
- Conditions go through `Interpreter.IsTrue`. It respells AND, OR and NOT, splits the line
  with a regex, runs a shunting yard over the pieces and evaluates them on a stack of
  dynamic values.
- `calculator.cs` is a separate calculator over doubles: `Parser.Parse`, `InfixToPostfix`,
  `PostFixEvaluator` and `Program.Calculate`.

## What the model is

The project has one module per concern, each in its own file:

- `text.dfy` (module `Text`): the .NET string and number primitives the code relies on.
- `variables.dfy` (module `Variables`): run-time values and the variable table.
- `faults.dfy` (module `Faults`): the exception kinds.
- `patterns.dfy` (module `Patterns`): the statement patterns and their dispatch order.
- `postfix.dfy` (module `Postfix`): ToPostFix and QuickMath.
- `condition.dfy` (module `Condition`): IsTrue.
- `output.dfy` (module `Template`): OUTPUT's string building.
- `statements.dfy` (module `Statements`): each statement as a function of the interpreter state.
- `interpreter.dfy` (module `Interpreting`): the `Interpreter` class.
- `laws.dfy` (module `Laws`): properties that relate several statements.
- `calculator.dfy` (module `Calculator`): the calculator.

How the C# is turned into Dafny:

- **Loops become methods.** Each loop of the source is a `method` with its invariants. It is
  proved equal to a specification function: `Postfix.ToPostFix`, `QuickMath`,
  `Condition.IsTrue` and its loops, `Template.Build`, `Calculator.Parser.Parse`,
  `ConvertFromInfixToPostFix` and `Evaluate`.
- **Mutated objects become classes.** `Interpreting.Interpreter`, `Calculator.Parser`,
  `InfixToPostfix` and `PostFixEvaluator` keep the source's fields (the flags, the variable
  list, the converted list, the evaluator's stack). Each method is proved to leave the state
  that the matching `Statements` function gives.
- **The variable table keeps the .NET enumeration order.** `Variables.Table` is a map plus a
  slot list and a free list, so `Keys.Last()` follows the .NET dictionary exactly. A
  declaration whose initializer fails removes `Keys.Last()`, which after an earlier removal
  is not the name just added.
- **Exceptions become values.** A thrown exception is a `Faults.Fault` that stands for the
  exception's message. A method that can fail returns a `Result` or an `Option`.
  `Console.ReadLine` becomes a sequence of lines held in the state. OUTPUT's and comments'
  console writes become the reply's chunks.

The main results:

- **Every statement parser is proved against a reading of the text:**
  - ToPostFix reads any well-formed term back as its postfix form, and QuickMath computes
    its value (`Postfix.EvaluateRender`).
  - IsTrue decides any well-formed condition as its tree evaluates (`Condition.IsTrueOfCondition`).
  - The calculator computes the value of any well-formed expression (`Calculator.CalculateText`).
  - OUTPUT prints the chunks its items name (`Template.WalkLine`).
- **Declaration and assignment are characterised:** fresh names, redeclaration, rollback
  after a failed initializer, and the type changes that assignment causes.
- **The state laws hold for every line:** the table stays well formed, the flags move only
  as START and STOP allow, and no statement after START adds or removes a variable.

Where the source and its design notes disagree, the model follows the source:

- There are no ELSE or WHILE statements and no block structuring. IF only checks its
  condition; its body is read from the console by a nested interpreter.
- `NOT` is in the binary-operator regex, so `!` pops two values and pushes false
  (`Condition.NotPopsTwo`).
- `TRUE`/`FALSE` in a condition are identifiers. An undeclared one is dropped
  (`Condition.UndeclaredDropped`).
- In a quoted OUTPUT segment, `#` turns the whole segment into one line break, so `"a#b"`
  prints a newline only (`Template.EscapePlain`).
- QuickMath returns a float, so an INT variable assigned an arithmetic expression then holds
  a float (`Laws.IntBecomesFloat`).
- QuickMath treats an undeclared name as a parse failure that ends the loop quietly, not as
  an error (`Postfix.UndeclaredGivesOperand`).
- The IF body runs whatever the condition's value. The nested interpreter shares the
  dictionary object, so the closing assignment changes nothing.
- The `[+-/*]` class of the declaration pattern is the range `+`..`/`, which takes in `,`
  and `.`. The model's declaration predicate backtracks over it like the regex does
  (`Patterns.Arithmetic`).

## Model

| member | source | states |
|---|---|---|
| Text.TrimStart | Interpreter/Interpreter/Interpreter.cs:149 | String.Trim's front half: the result is a suffix, what was dropped is white space, and it starts with no white space |
| Text.TrimEnd | Interpreter/Interpreter/Interpreter.cs:223-224 | String.Trim's back half: a prefix, the dropped end is white space, and it ends with no white space |
| Text.IndexOf | Interpreter/Interpreter/Interpreter.cs:406 | String.IndexOf: -1 exactly when the character is absent, else the position of its first occurrence |
| Text.Split | Interpreter/Interpreter/Interpreter.cs:143 | Regex.Split on one character: at least one part, no part holds the separator, a single part exactly when the separator is absent |
| Text.SplitJoin | Interpreter/Interpreter/Interpreter.cs:143 | the parts of Regex.Split joined with the separator give back the input, so the parts hold exactly the text between the separators |
| Text.NatToString | Interpreter/Interpreter/calculator.cs:28 | ToString of a natural number: non-empty digits whose value is the number, with no leading zero |
| Text.ParseInt32 | Interpreter/Interpreter/Interpreter.cs:288 | Int32.Parse succeeds only inside the 32-bit range |
| Text.ParseInt32OfText | Interpreter/Interpreter/Interpreter.cs:288 | Int32.Parse reads back every 32-bit number written by ToString, with any white space around it |
| Text.ParseFloatOfDigits | Interpreter/Interpreter/Postfix.cs:44 | Single.Parse of a string of digits is the number they spell |
| Variables.ZeroOf | Interpreter/Interpreter/Interpreter.cs:26-31 | the dataTypes lookup succeeds exactly for INT, FLOAT, BOOL and CHAR, and gives 0, 0.0, false and a space respectively |
| Variables.LeadingName | Interpreter/Interpreter/Interpreter.cs:139-151 | the match of ^[a-zA-Z_][a-zA-z0-9_]*: empty exactly when the text does not start with a letter or `_`; else a prefix stopped by the first character outside the loose class |
| Variables.Add | Interpreter/Interpreter/Interpreter.cs:157 | Dictionary.Add: the map gains the key, and the key takes the most recently freed slot, else a new slot at the end |
| Variables.Remove | Interpreter/Interpreter/Interpreter.cs:163 | Dictionary.Remove: the key leaves the map and its slot goes onto the free list; removing an absent key changes nothing |
| Variables.Set | Interpreter/Interpreter/Interpreter.cs:252 | the indexer on an existing key: only the value changes, the slot order does not |
| Variables.AddValid | Interpreter/Interpreter/Interpreter.cs:157 | Add keeps the table's invariant: every key in exactly one slot, free slots empty and distinct |
| Variables.RemoveValid | Interpreter/Interpreter/Interpreter.cs:163 | Remove keeps the table's invariant |
| Variables.SetValid | Interpreter/Interpreter/Interpreter.cs:252 | Set keeps the table's invariant |
| Variables.LastKey | Interpreter/Interpreter/Interpreter.cs:259 | Keys.Last(): the key of the last occupied slot; none exactly when every slot is empty |
| Variables.AddThenLastKey | Interpreter/Interpreter/Interpreter.cs:157-259 | into a table with no free slot, the key just added is Keys.Last() |
| Variables.AddAfterRemoveLastKey | Interpreter/Interpreter/Interpreter.cs:259 | after a removal the next key added reuses the freed slot, so Keys.Last() names an older key |
| Patterns.LastAsTypeIff | Interpreter/Interpreter/Interpreter.cs:138 | the greedy `.*` before `AS` stops at the last `AS type` of the line, and finds none exactly when there is none |
| Patterns.CommaContinuesOperand | Interpreter/Interpreter/Interpreter.cs:34 | the class [+-/*] of the declaration pattern takes in `,`, so an arithmetic initializer goes on over a comma: `x = 1,2` is one item |
| Patterns.TypeAt | Interpreter/Interpreter/Interpreter.cs:140-145 | the type word at position i is the type name standing there as a whole word (\b on both sides), and empty exactly when none of the four does |
| Patterns.FirstVar | Interpreter/Interpreter/Interpreter.cs:138 | the lookbehind \bVAR\s+ finds the first position it accepts, and none exactly when no position is accepted |
| Patterns.ClassifyIff | Interpreter/Interpreter/Interpreter.cs:33-120 | Interpret's foreach: a line runs as statement k exactly when k's pattern matches and no earlier pattern does; it matches nothing exactly when no pattern matches |
| Patterns.HitIff | Interpreter/Interpreter/Interpreter.cs:86-118 | the first-match loop over any order of patterns picks an entry exactly when that entry matches and no earlier one does |
| Patterns.FirstNameFromIff | Interpreter/Interpreter/Interpreter.cs:561-568 | Unary's variable match starts at the first position from i where [a-zA-Z_] holds and runs over every word character after it; it is empty exactly when no such position exists |
| Patterns.FirstActionFromIff | Interpreter/Interpreter/Interpreter.cs:562-569 | Unary's action match is the leftmost `++` or `--` from i, and empty exactly when there is none |
| Patterns.IfExpressionIff | Interpreter/Interpreter/Interpreter.cs:613-614 | IF's expression runs from the first `(` to the `)` that ends the line, trailing white space trimmed; it is empty exactly when the trimmed line does not end in `)` or has no `(` before it |
| Patterns.InputNames | Interpreter/Interpreter/Interpreter.cs:271-274 | each of INPUT's matches is a character outside the negated class [^(INPUT:\,\s+)] followed by word characters |
| Patterns.InputNamesSkip | Interpreter/Interpreter/Interpreter.cs:271 | characters of the class start no match |
| Patterns.InputNamesWhole | Interpreter/Interpreter/Interpreter.cs:271 | a match takes every word character after its start, so a name followed by a non-word character is read whole |
| Patterns.InputNamesJoin | Interpreter/Interpreter/Interpreter.cs:271-274 | a header such as `INPUT:` then names separated by `, ` gives back exactly those names |
| Postfix.Priority | Interpreter/Interpreter/Postfix.cs:163-169 | `*`, `/` and `%` rank 2 and `+`, `-` rank 1; every operator ranks between 1 and 2 |
| Postfix.UnaryMinusIff | Interpreter/Interpreter/Postfix.cs:94-113 | a `-` is rewritten as `0 -` exactly when the last non-blank character before it is `(` or an operator, or it is the first character of the line |
| Postfix.ToPostFix | Interpreter/Interpreter/Postfix.cs:56-161 | the loop and the drain give exactly ToPostFixOf |
| Postfix.InvalidCharFails | Interpreter/Interpreter/Postfix.cs:136-158 | a character that is no blank, letter, digit, operator or parenthesis makes ToPostFix return null |
| Postfix.SpacedWordsFail | Interpreter/Interpreter/Postfix.cs:74-79 | two words separated only by blanks make ToPostFix return null |
| Postfix.SomeIsBalanced | Interpreter/Interpreter/Postfix.cs:122-154 | every line ToPostFix accepts has balanced parentheses: never more `)` than `(` so far, and as many in all |
| Postfix.ToPostFixOfRender | Interpreter/Interpreter/Postfix.cs:56-161 | ToPostFix reads the text of any well-formed term back as the term's postfix form |
| Postfix.NestedGroupScan | Interpreter/Interpreter/Postfix.cs:126-135 | a `)` right after a `)` pushes an empty word: `((1))` becomes `1` and an empty token |
| Postfix.QuickMath | Interpreter/Interpreter/Postfix.cs:11-55 | the loop and the final Pop give exactly QuickMathOf |
| Postfix.QuickMathResult | Interpreter/Interpreter/Postfix.cs:48-54 | after the catch, the result is the top of the stack where the loop stopped, and none when it is empty |
| Postfix.EvaluateRender | Interpreter/Interpreter/Postfix.cs:11-161 | ToPostFix then QuickMath give the value of a well-formed term wherever every word has a value |
| Postfix.AsFloat | Interpreter/Interpreter/Postfix.cs:23 | the `(float)` unboxing succeeds exactly on a float value and gives it |
| Postfix.IntVariableFails | Interpreter/Interpreter/Postfix.cs:21-53 | an INT variable in an expression makes the cast throw, and with nothing on the stack the final Pop fails |
| Postfix.UndeclaredGivesOperand | Interpreter/Interpreter/Postfix.cs:42-53 | an undeclared name stops the loop quietly, and the value below it is returned |
| Postfix.NestedGroupFails | Interpreter/Interpreter/Postfix.cs:26-135 | the empty token counts as an operator, so `((1))` underflows QuickMath's stack |
| Condition.Pieces | Interpreter/Interpreter/Interpreter.cs:664-672 | Regex.Split's pieces with the empty ones skipped: none is empty |
| Condition.PiecesCover | Interpreter/Interpreter/Interpreter.cs:664-666 | the pieces joined back give the respelled line exactly |
| Condition.PriorityOrder | Interpreter/Interpreter/Interpreter.cs:786-793 | `!` ranks below `&`, which ranks below `\|`, which ranks below everything else; rank 1 exactly for the other pieces |
| Condition.PopHigherSpec | Interpreter/Interpreter/Interpreter.cs:694-698 | the operator loop pops exactly the run of non-`(` operators at the top whose rank is at least the new one's, in pop order |
| Condition.PopToOpenSpec | Interpreter/Interpreter/Interpreter.cs:684-691 | a `)` succeeds exactly when a `(` is on the stack; it pops everything above the nearest `(` and discards the `(` |
| Condition.DrainSpec | Interpreter/Interpreter/Interpreter.cs:710-720 | the drain succeeds exactly when no `(` is left, and outputs the stack in pop order |
| Condition.IsTrue | Interpreter/Interpreter/Interpreter.cs:646-784 | the method's loops give exactly IsTrueOf |
| Condition.DecidePieces | Interpreter/Interpreter/Interpreter.cs:668-776 | the shunting yard, the drain and the evaluation loop give exactly Decide |
| Condition.ShuntPieces | Interpreter/Interpreter/Interpreter.cs:668-708 | the piece loop gives exactly ShuntRun |
| Condition.PopHigherLoop | Interpreter/Interpreter/Interpreter.cs:694-697 | the while loop gives exactly PopHigher |
| Condition.PopToOpenLoop | Interpreter/Interpreter/Interpreter.cs:686-690 | the while loop and the final Pop give exactly PopToOpen |
| Condition.DrainOperators | Interpreter/Interpreter/Interpreter.cs:710-720 | the while loop gives exactly Drain |
| Condition.EvaluatePostfix | Interpreter/Interpreter/Interpreter.cs:722-774 | the evaluation loop gives exactly EvalRun |
| Condition.EvalPiece | Interpreter/Interpreter/Interpreter.cs:727-773 | one piece of the evaluation loop gives exactly EvalStep |
| Condition.IsTrueOfCondition | Interpreter/Interpreter/Interpreter.cs:646-784 | for a well-formed condition whose respelled text is the line, IsTrue's answer is the condition tree's truth value |
| Condition.OrBindsTighter | Interpreter/Interpreter/Interpreter.cs:786-793 | with `\|` ranked above `&`, `f AND f OR t` groups as f & (f \| t), which is false |
| Condition.UndeclaredDropped | Interpreter/Interpreter/Interpreter.cs:673-679 | an undeclared name piece is skipped by the shunting yard |
| Condition.StrayPieceFails | Interpreter/Interpreter/Interpreter.cs:704-707 | a piece that is no name, parenthesis, operator or number makes IsTrue null |
| Condition.UnbalancedFails | Interpreter/Interpreter/Interpreter.cs:684-715 | a `(` left at the end, or a `)` with no `(`, makes IsTrue null |
| Condition.NotPopsTwo | Interpreter/Interpreter/Interpreter.cs:692-762 | `!` matches the operator regex first, so it pops two values and pushes false |
| Condition.NotOneOperandFails | Interpreter/Interpreter/Interpreter.cs:732-735 | `!` on a single value underflows the stack |
| Template.SkipHeader | Interpreter/Interpreter/Interpreter.cs:353 | the characters dropped before [^OUTPUT\s*:] matches all belong to the class, and the rest starts outside it |
| Template.TemplateOf | Interpreter/Interpreter/Interpreter.cs:353 | the matched text is the line after the leading class characters, cut at the first line break, and starts outside the class |
| Template.Scan | Interpreter/Interpreter/Interpreter.cs:363-388 | the segment loop only moves forward, and stops outside quotes at a blank or at the closing quote of a quoted run |
| Template.ScanSegment | Interpreter/Interpreter/Interpreter.cs:363-388 | the for loop gives exactly Scan |
| Template.UnbracketDrops | Interpreter/Interpreter/Interpreter.cs:416-445 | the escape loop removes exactly the first `[` and the first `]` |
| Template.CopyUnbracketed | Interpreter/Interpreter/Interpreter.cs:416-445 | the character loop gives exactly Unbracket |
| Template.EscapeRule | Interpreter/Interpreter/Interpreter.cs:402-500 | a quoted segment with `[` is accepted exactly when the character two after its first `[` is a `]` and no `]` lies between index 2 and it; a rejected one fails with InvalidEscape, or OutOfRange for the lone `[`; an accepted one prints the bracketed character or the segment without its first `[` and `]` |
| Template.EscapePlain | Interpreter/Interpreter/Interpreter.cs:402-500 | a quoted segment with no `[` prints one line break if it holds `#`, and itself otherwise |
| Template.EscapeSegment | Interpreter/Interpreter/Interpreter.cs:400-500 | the escape branch gives exactly Escape |
| Template.Build | Interpreter/Interpreter/Interpreter.cs:354-513 | the outer while loop gives exactly Walk, including the loop that never ends |
| Template.WalkLine | Interpreter/Interpreter/Interpreter.cs:344-528 | a template of blank-separated names, `&`s and quoted runs prints each name's value and each quoted run's text, in order |
| Template.TrailingAmpThrows | Interpreter/Interpreter/Interpreter.cs:394-505 | a trailing `&` after a name moves the count past the end, and the empty head then throws NullReferenceException |
| Template.TrailingAmpHangs | Interpreter/Interpreter/Interpreter.cs:394-512 | a trailing `&` after a quoted run moves the count past the end with the quoted flag set, so the loop never ends |
| Statements.AssignValid | Interpreter/Interpreter/Interpreter.cs:187-263 | Assignment leaves the table well formed, on success and after a rollback |
| Interpreting.InitialValue | Interpreter/Interpreter/Interpreter.cs:221-248 | one set's initializer, from the ToPostFix, QuickMath and IsTrue methods, is exactly Initializer |
| Interpreting.Initializers | Interpreter/Interpreter/Interpreter.cs:216-250 | the foreach over the sets gives exactly AssignSets |
| Interpreting.Recognize | Interpreter/Interpreter/Interpreter.cs:86-118 | the pattern loop gives exactly Classify |
| Interpreting.Interpreter.constructor | Interpreter/Interpreter/Interpreter.cs:23-60 | a new interpreter has not started or finished, has no variables, and reads the given console lines |
| Interpreting.Interpreter.Interpret | Interpreter/Interpreter/Interpreter.cs:80-127 | the new state and the reply are exactly Step of the old state |
| Interpreting.Interpreter.Dispatch | Interpreter/Interpreter/Interpreter.cs:92-116 | the switch, with START and STOP in place, gives exactly Run |
| Interpreting.Interpreter.Declaration | Interpreter/Interpreter/Interpreter.cs:130-185 | the new table and the reply are exactly DeclarationOf |
| Interpreting.Interpreter.DeclareOne | Interpreter/Interpreter/Interpreter.cs:149-169 | one declared item changes only the table, as DeclareItem says |
| Interpreting.Interpreter.Redeclared | Interpreter/Interpreter/Interpreter.cs:161-165 | a repeated name is removed from the table and nothing else changes |
| Interpreting.Interpreter.AddVariable | Interpreter/Interpreter/Interpreter.cs:155-160 | adding the zero value and running the initializer give exactly Introduce, and leave the flags and console alone |
| Interpreting.Interpreter.Assignment | Interpreter/Interpreter/Interpreter.cs:187-263 | the new table and the fault are exactly Assign, and the flags and console are unchanged |
| Interpreting.Interpreter.Rollback | Interpreter/Interpreter/Interpreter.cs:256-262 | the catch block gives exactly Undo |
| Interpreting.Interpreter.Input | Interpreter/Interpreter/Interpreter.cs:264-342 | the new table, the console lines left and the reply are exactly InputOf |
| Interpreting.Interpreter.Output | Interpreter/Interpreter/Interpreter.cs:344-528 | the state is unchanged and the reply is exactly OutputStatement's |
| Interpreting.Interpreter.Comment | Interpreter/Interpreter/Interpreter.cs:530-555 | the state is unchanged; the line is echoed after START, and the call fails before it |
| Interpreting.Interpreter.Unary | Interpreter/Interpreter/Interpreter.cs:557-607 | the new table and the reply are exactly UnaryOf |
| Interpreting.Interpreter.IF | Interpreter/Interpreter/Interpreter.cs:608-618 | the state is unchanged and the reply is exactly IfOf |
| Laws.StepValid | Interpreter/Interpreter/Interpreter.cs:80-127 | every line leaves the variable table well formed |
| Laws.FlagsRule | Interpreter/Interpreter/Interpreter.cs:101-113 | the flags never go back to false; hasStarted changes only on a START before START, and hasFinished only on a STOP after START |
| Laws.StartClassified | Interpreter/Interpreter/Interpreter.cs:33-120 | the line START runs as the START statement |
| Laws.StopClassified | Interpreter/Interpreter/Interpreter.cs:33-120 | the line STOP runs as the STOP statement |
| Laws.StartRule | Interpreter/Interpreter/Interpreter.cs:101-106 | START sets hasStarted, and fails if it is already set |
| Laws.StopRule | Interpreter/Interpreter/Interpreter.cs:108-113 | STOP sets hasFinished after START, and fails before it |
| Laws.Unchanged | Interpreter/Interpreter/Interpreter.cs:344-645 | OUTPUT, comments and IF change no state |
| Laws.StartedKeysFixed | Interpreter/Interpreter/Interpreter.cs:136-263 | after START no line adds or removes a variable |
| Laws.ReadKeys | Interpreter/Interpreter/Interpreter.cs:276-328 | INPUT changes values only, never the set of variables |
| Laws.ReadConsumes | Interpreter/Interpreter/Interpreter.cs:284 | INPUT consumes a prefix of the console lines, at most one per name |
| Laws.DeclarationAfterStart | Interpreter/Interpreter/Interpreter.cs:136-176 | a declaration after START fails and changes nothing |
| Laws.DeclareFresh | Interpreter/Interpreter/Interpreter.cs:147-171 | a declaration of fresh bare names adds each with its type's zero, and succeeds |
| Laws.RedeclareFirst | Interpreter/Interpreter/Interpreter.cs:161-165 | a first item whose name is already declared removes that name, and the declaration fails |
| Laws.RedeclareRemoves | Interpreter/Interpreter/Interpreter.cs:147-171 | fresh names followed by a repeated one: the fresh names are added, the repeated one is removed, and the declaration fails |
| Laws.DeclareSingle | Interpreter/Interpreter/Interpreter.cs:155-160 | declaring one fresh item is adding it with its zero, then Assignment with the rollback flag |
| Laws.AssignUndone | Interpreter/Interpreter/Interpreter.cs:256-262 | a failing initializer inside a declaration removes Keys.Last() and reports the fault |
| Laws.FailedInitializerRemovesLast | Interpreter/Interpreter/Interpreter.cs:157-262 | a failing initializer removes the last key of the table after the add, which need not be the name just added |
| Laws.FailedInitializerUndone | Interpreter/Interpreter/Interpreter.cs:157-262 | with no freed slot, a failing initializer leaves the table as it was |
| Laws.AssignUndeclared | Interpreter/Interpreter/Interpreter.cs:199-211 | assigning to an undeclared name fails and changes nothing |
| Laws.AssignOne | Interpreter/Interpreter/Interpreter.cs:197-254 | a single `name = e` stores e's initializer value of the variable's current type, or fails with its fault |
| Laws.AssignChar | Interpreter/Interpreter/Interpreter.cs:244-248 | a CHAR takes the middle of a three-character expression, and any other length fails with a format error |
| Laws.AssignBool | Interpreter/Interpreter/Interpreter.cs:236-243 | a BOOL takes the quoted TRUE/FALSE literals, else IsTrue's answer, and fails where that is null |
| Laws.AssignNumber | Interpreter/Interpreter/Interpreter.cs:226-235 | an INT or FLOAT keeps its type's zero where ToPostFix rejects the expression, and takes QuickMath's float otherwise |
| Laws.IntBecomesFloat | Interpreter/Interpreter/Interpreter.cs:226-252 | an INT variable assigned an arithmetic expression then holds a float |
| Laws.ChainedAssignStoresZero | Interpreter/Interpreter/Interpreter.cs:219-252 | a set with more than one `=` is skipped, so the variable gets its type's zero |
| Laws.BumpOneStep | Interpreter/Interpreter/Interpreter.cs:579-580 | `++`/`--` fails exactly on bool and string values; otherwise it moves the value one step, with 32-bit wrap-around for int |
| Laws.UnaryEffect | Interpreter/Interpreter/Interpreter.cs:557-607 | Unary fails before START, on an undeclared name and on a bad name; it changes only the named variable, by one step |
| Laws.IfRule | Interpreter/Interpreter/Interpreter.cs:608-618 | IF fails exactly when IsTrue of its parenthesized expression is null, and changes no state |
| Laws.OutputPrints | Interpreter/Interpreter/Interpreter.cs:344-528 | an OUTPUT line of well-formed items after START prints exactly the items' chunks |
| Calculator.Parser.constructor | Interpreter/Interpreter/calculator.cs:63 | a new parser's element list is empty |
| Calculator.Parser.Parse | Interpreter/Interpreter/calculator.cs:64-91 | the loop appends exactly Tokens(s) to the parser's list and returns the list |
| Calculator.TokensAppend | Interpreter/Interpreter/calculator.cs:64-91 | Parse distributes over a concatenation whose seam does not cut a run of digits |
| Calculator.TokensOfText | Interpreter/Interpreter/calculator.cs:64-91 | the text of a well-formed expression parses back to its elements |
| Calculator.InfixToPostfix.constructor | Interpreter/Interpreter/calculator.cs:97 | a new converter's output list is empty |
| Calculator.InfixToPostfix.ProcessOperators | Interpreter/Interpreter/calculator.cs:110-121 | the pop loop gives exactly Unwind: pop while the precedence test holds, and drop a popped `(` and stop |
| Calculator.InfixToPostfix.ConvertFromInfixToPostFix | Interpreter/Interpreter/calculator.cs:122-160 | the output list grows by exactly Convert(e), and the list is returned |
| Calculator.InfixToPostfix.PopAll | Interpreter/Interpreter/calculator.cs:152-157 | the drain appends the stack in pop order |
| Calculator.ConvertKeepsNumbers | Interpreter/Interpreter/calculator.cs:122-160 | conversion keeps the numbers, in order |
| Calculator.ConvertExpr | Interpreter/Interpreter/calculator.cs:98-160 | a well-formed expression's elements convert to its postfix form |
| Calculator.PostFixEvaluator.constructor | Interpreter/Interpreter/calculator.cs:173 | a new evaluator's stack is empty |
| Calculator.PostFixEvaluator.Evaluate | Interpreter/Interpreter/calculator.cs:191-208 | the result and the stack left behind are exactly EvaluateOf of the old stack |
| Calculator.RunPostfix | Interpreter/Interpreter/calculator.cs:175-208 | running an expression's postfix form pushes exactly its value |
| Calculator.Calculate | Interpreter/Interpreter/calculator.cs:213-222 | parse, convert and evaluate on fresh objects give exactly CalculateOf |
| Calculator.CalculateText | Interpreter/Interpreter/calculator.cs:64-222 | Calculate of a well-formed expression's text is the expression's value |
| Calculator.PowerGroupsLeft | Interpreter/Interpreter/calculator.cs:98-145 | `^` associates to the left: 2^3^2 is 64 |

## Left out

- Program.cs (the console read loop) and InvalidSyntaxException.cs are not part of this model.
- Console output, cursor control and colours are left out. OUTPUT and comments return the chunks they would write.
- Console input is a sequence of lines held in the interpreter state; the null that ReadLine returns at the end is modelled.
- The body of an IF is left out. It is read from the console by a nested interpreter that shares the variable dictionary.
- The nested IF interpreter's removal of the Declaration pattern is left out.
- The `Variables` and `Patterns` property getters and `clearConsoleLine` are left out; they are accessors and console I/O.
- Statements.IfOf: leaves the state unchanged. The source's nested interpreter (Interpreter.cs:622-638) shares the variable dictionary and runs the body's lines whether or not the condition holds, so the source's table can change.
- Statements.Initializer, Statements.CharStep and Template.Bracket: text is a sequence of Unicode scalar values, whereas .NET strings count UTF-16 code units. So surrogate pairs and lone surrogates behave differently. A CHAR initializer `'😀'` has Length 4 in the source and throws FormatException, but the model stores it. `[😀]` in an OUTPUT string fails the escape check in the source but prints in the model. `++` on U+D7FF gives U+D800 in the source, while CharStep skips to U+E000. Laws.OneStep says nothing about a character outside the Basic Multilingual Plane.
- Text.IsDigit, Text.IsLetter and Text.IsWordChar: ASCII only. The source uses Char.IsDigit, Char.IsLetter, \d and \w, which accept every Unicode letter and decimal digit. So ToPostFix("é") gives ["é"] in the source but fails in the model (Postfix.StepAt). calculator.cs:69-71 appends a non-ASCII digit such as '٣' and then throws in Double.Parse, while Calculator.Tokens skips it.
- Text.ParseFloat: accepts plain decimal notation only. Single.Parse also takes exponents, thousands separators, culture settings, "Infinity" and "NaN".
- Postfix.Arith: floats are exact reals, with no single-precision rounding, overflow, infinity or NaN. Division by zero gives 0, where the source gives an infinity or NaN.
- Calculator.Calculate2: doubles are exact reals, with no rounding. Division by zero gives 0, where the source gives an infinity or NaN.
- Calculator.Power: Math.Pow is modelled for integral exponents only. A fractional exponent gives 0 (the source gives 2 for 4^0.5), and 0 to a negative power gives 0 (the source gives +∞).
- Calculator.PostFixEvaluator.Evaluate: the result of calculate is a real. The source's round trip through `temp.ToString()` and `Double.Parse` (calculator.cs:189), which can lose digits, is not modelled.
- Condition.Coerce: Single.Parse's result is a real, so it shares Text.ParseFloat's limits.
- Condition.Apply: comparisons between dynamic values follow the C# operators for int, float, char, bool and string. Mixed pairs that the runtime binder might still accept, such as a char against a string, are modelled as binder failures.
- Patterns: each statement pattern is written as a predicate over the line, not as a general regular-expression engine. The declaration pattern's backtracking over `[+-/*]` (which takes in `,` and `.`) is modelled.
- Laws.StepValid and the other table laws speak of the model's table invariant; the .NET dictionary's hashing and capacity are not modelled.
