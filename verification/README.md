# The expression language and the scope engine of the OWS runtime, verified

This project models, in Dafny, the two parts of the workflow runtime that decide what a workflow means, and the code
that makes claims about them.

**The expression language** is a subset of jq. A character lexer (`Lexer.dfy`) feeds a recursive-descent parser
(`Grammar.dfy` says what it computes, `Parser.dfy` is the token cursor that computes it, `Printing.dfy`,
`Precedence.dfy` and `Parentheses.dfy` relate it to a printer, `Spelling.dfy`, `WrittenTrees.dfy`, `Shorthands.dfy` and
`LexingLaws.dfy` to texts), whose trees are evaluated to
streams of JSON values (`Evaluation.dfy`, `Evaluator.dfy`). Templates with `${ ... }` blocks are split, compiled and
evaluated on top (`Template.dfy`, `TemplateEngine.dfy`). The definition normaliser (`Normalizer.dfy`) relies on printed
JSON being an expression for itself.

**The scope engine** (`Workflow.dfy`, `Engine.dfy`, `EngineRuns.dfy`) runs scopes of tasks by index, with directives,
nested scopes, loops, retries, event iterations and extensions. It writes checkpoints (`Store.dfy`, `Resume.dfy`,
`Durability.dfy`) from which an execution resumes. Event gathering (`Listen.dfy`, `Gather.dfy`), forks (`Fork.dfy`) and
retry delays (`Backoff.dfy`) are modelled beside it.

**What must agree with the engine**: the definition validator (`Validator.dfy`, `ValidatorReport.dfy`,
`ValidatorSoundness.dfy`), the catalog worklist (`Catalog.dfy`, `CatalogOrder.dfy`) and the expression pre-check with
its JSON Pointers (`Pointer.dfy`).

Each piece of imperative code is a method or a class that is proved to compute a specification function; the properties
are proved about those functions. The modules whose names end in `Laws` say what such a function means without it: by
other operations of the language, by the sequence of states a run goes through, or by positions and order. The engine's
functions take a budget of backward jumps, so that runs that loop forever have a value too; `EngineBudget.BudgetsAgree`
shows that the budget has no other influence. What the engine calls but does not define (expressions, schemas, effects,
arriving events, cancellation) are constants without a value: every theorem holds for all of them. Effects, events and
cancellation also receive a clock, so they may answer differently every time.

## Results worth knowing

Some properties one would like to have are false of the code. For each there is a lemma with an input and, where it is
possible, the exact condition.

- A dot path swallows a following word: `.a and .b` parses as the path `.a.and.b`
  (`Parentheses.DotPathsSwallowKeywords`). It happens exactly to the paths that are still in the chain of their leading
  dot (`Parentheses.WordsAfterPaths`). Printed trees therefore parenthesise them before a word.
- The source of an interpolation ends at the first parenthesis that closes more than it opens, even inside a nested
  string; it is cut at its own end exactly if its parentheses match (`LexingLaws.BalancedExactly`).
- Only the first `elif` of a conditional is a branch. The word of a second one is read as the call of a function, and
  what follows is then a syntax error (`Shorthands.SecondElifFails`).
- The text of an inline `for.in` collection evaluates back to the collection exactly when its integers lie below 2^53 in
  magnitude, none of its floats equals such an integer (`1.0` comes back as `1`), and the text holds no `${`
  (`Normalizer.InlineCollectionKeepsMeaning`, `Normalizer.MarkedCollectionChanges`).
- The comment in the block scanner promises to skip string literals. The loop that should do so stops at the quote it
  starts from, so a brace inside a literal counts (`Template.QuotedBraceEndsBlock`). On every text the promise is kept
  exactly when the braces inside literals never use up the depth and have cancelled out at the close, if one is due
  (`Template.PromiseKeptExactly`); in particular without any brace inside a literal (`Template.PromiseKept`).
- `end` fired in the `before` scope of an extension does not stop the extended task: its effect still happens
  (`EngineSafety.EndInBeforeStillRunsTheTask`, exactly when by `EngineSafety.EffectFollowsEndExactly`). If no `before`
  scope holds an `end` directive, at the top or nested, nothing takes effect after `end` (second clause of
  `Engine.Scope`).
- A nested `end` is not part of a checkpoint: a workflow that completes when uninterrupted can fault when it is resumed
  (`Durability.EndIsForgottenByResume`). Without nested `end` directives crashes are invisible
  (`Durability.CrashesAreInvisible`).
- A crash after the record is closed loses the output for good: the record does not hold it, and the execution cannot be
  resumed (`Resume.Runtime.Resume`, `Resume.OutputIsNotStored`).
- The reachability check misses an edge of a switch case without a directive, exactly when the task is overlooked in the
  sense of `ValidatorSoundness.CoveredUnlessOverlooked`; a run can take that edge
  (`ValidatorSoundness.CaseWithoutThenIsOverlooked`).
- Three kinds of targets are not checked by the validator at all: those of switch cases, those in the body of a listen
  `foreach`, and those in extension scopes. An accepted scope can therefore fault on an unknown task
  (`ValidatorSoundness.StrayCaseIsAcceptedAndFaults`, `ValidatorSoundness.ForeachBodyIsAcceptedAndFaults`,
  `ValidatorSoundness.ExtensionScopeIsAcceptedAndFaults`); all other targets of an accepted scope resolve
  (`ValidatorSoundness.AcceptedIsResolved`).
- Linear and exponential delays start over when the attempt number passes 32 bits (`Backoff.DelaysShrinkPast32Bits`);
  `Backoff.DelaysNeverShrink` says exactly when delays never shrink.
- The validator keeps a path from a guarded task to the next one, whatever the task's directive. The engine has no such
  path: a skipped task still follows its directive (`ValidatorSoundness.SkippedTaskFollowsItsDirective`), so a task can
  be marked reachable that no run visits; exactly when, say `ValidatorSoundness.IdleEdgeExactly` and
  `ValidatorSoundness.MarkedIsVisitableExactly`.
- Which of two catalog components of the same name wins can depend on the order in which hash maps yield their entries
  (`CatalogOrder.SiblingsShow`), though not whenever two catalogs clash (`CatalogOrder.ChainDoesNotShow`). It does
  exactly when two catalogs that can come last for the name give it different values
  (`CatalogOrder.OrderDecidesClashes`, `CatalogOrder.WinsExactly`); for a name declared twice, when each of the two can
  be reached without the other (`CatalogOrder.TwiceDeclared`).

## Model

| member | source | states |
|---|---|---|
| Lexing.Lexer.Tokenize | crates/ows-runtime-expressions/src/lexer.rs:129-140 | on every text the cursor produces exactly the specified tokens or the specified error |
| Lexing.Lexer.NextTokens | crates/ows-runtime-expressions/src/lexer.rs:159-312 | one call skips blanks and comments and produces one batch of tokens, with the cursor behind it |
| Lexing.Lexer.ReadString | crates/ows-runtime-expressions/src/lexer.rs:367-436 | a string becomes its literal and interpolation segments, escapes decoded, never an empty batch |
| Lexing.Lexer.ReadInterpSource | crates/ows-runtime-expressions/src/lexer.rs:439-461 | an interpolation's source runs to the parenthesis that balances it, quotes ignored |
| Lexing.Lexer.ReadNumber | crates/ows-runtime-expressions/src/lexer.rs:326-364 | a number's value from its whole, fraction and exponent digits; an exponent mark needs digits |
| Lexing.Lexer.ReadIdent | crates/ows-runtime-expressions/src/lexer.rs:314-324 | a word is the longest run of word characters |
| Lexing.Tokens | crates/ows-runtime-expressions/src/lexer.rs:129-140 | the end marker occurs exactly once, last, and every interpolated source is strictly shorter than the text |
| Lexing.StringRest | crates/ows-runtime-expressions/src/lexer.rs:367-436 | a string yields at least one token, only text and interpolations, and moves the cursor forward |
| LexingLaws.NumbersMean | crates/ows-runtime-expressions/src/lexer.rs:326-364 | digits, a point and digits, an exponent mark with sign and digits: one token whose value is the digits scaled by the powers of ten |
| LexingLaws.EscapesMean | crates/ows-runtime-expressions/src/lexer.rs:396-428 | what each escape letter stands for; letters without a meaning keep their backslash |
| LexingLaws.UnicodeEscapes | crates/ows-runtime-expressions/src/lexer.rs:408-420 | four hexadecimal digits in either case name a character, and a surrogate vanishes |
| LexingLaws.InterpolationsEnd | crates/ows-runtime-expressions/src/lexer.rs:439-461 | an interpolation ends exactly at the first parenthesis at which the nesting falls to nothing, quotes playing no role |
| LexingLaws.BalancedExactly | crates/ows-runtime-expressions/src/lexer.rs:439-461 | a source is cut at its own end exactly if its parentheses match |
| LexingLaws.BlanksAreSkipped | crates/ows-runtime-expressions/src/lexer.rs:159-175 | blanks, tabs and line ends separate tokens |
| LexingLaws.AsciiWords | crates/ows-runtime-expressions/src/lexer.rs:314-324 | among the ASCII characters letters, digits and underscores make words, and digits do not start them |
| LexingLaws.CommentsAreSkipped | crates/ows-runtime-expressions/src/lexer.rs:159-175 | a comment runs to the end of its line and the tokens go on behind it |
| LexingLaws.UnterminatedStrings | crates/ows-runtime-expressions/src/lexer.rs:379-385 | a string without a closing quote fails at the end of the text |
| LexingLaws.UnterminatedInterpolations | crates/ows-runtime-expressions/src/lexer.rs:439-461 | an interpolation without its parenthesis fails at the end of the text |
| LexingLaws.StrayCharacters | crates/ows-runtime-expressions/src/lexer.rs:300-312 | a character that starts no token fails where it stands |
| LexingLaws.ExponentNeedsDigits | crates/ows-runtime-expressions/src/lexer.rs:345-364 | an exponent mark without digits fails where the number starts |
| Parsing.Parse | crates/ows-runtime-expressions/src/parser.rs:10-21 | total on every source: terminates, stays inside the token vector and returns exactly what the grammar says |
| Parsing.Parser.Advance | crates/ows-runtime-expressions/src/parser.rs:37-43 | the cursor moves by one token but never past the end marker |
| Parsing.Parser.ParseExpr | crates/ows-runtime-expressions/src/parser.rs:58-69 | a comma list of pipes; one element stands alone, more become a stream |
| Parsing.Parser.ParseLevel | crates/ows-runtime-expressions/src/parser.rs:72-156 | each binary level joins its operands to the left |
| Parsing.Parser.ParseUnary | crates/ows-runtime-expressions/src/parser.rs:159-172 | prefix `not` and minus nest to the right |
| Parsing.Parser.ParsePostfix | crates/ows-runtime-expressions/src/parser.rs:175-207 | field, index and iteration suffixes wrap the base in order |
| Parsing.Parser.ParseBase | crates/ows-runtime-expressions/src/parser.rs:209-273 | primaries; after a dot every following identifier is taken as a field |
| Parsing.Parser.ParseIdentPrimary | crates/ows-runtime-expressions/src/parser.rs:275-305 | words: constants, conditionals and calls |
| Parsing.Parser.ParseIf | crates/ows-runtime-expressions/src/parser.rs:307-338 | conditionals with their branches |
| Parsing.Parser.ParseArray | crates/ows-runtime-expressions/src/parser.rs:382-404 | array literals, stream elements spliced in |
| Parsing.Parser.ParseObject | crates/ows-runtime-expressions/src/parser.rs:406-426 | object literals with their entries in order |
| Parsing.Parser.ParseStringParts | crates/ows-runtime-expressions/src/parser.rs:458-477 | string segments; an interpolation is parsed by the same parser on its strictly shorter source |
| WrittenTrees.WrittenTreesParseBack | crates/ows-runtime-expressions/src/parser.rs:10-478 | round trip on texts: a tree whose names, numbers and interpolated sources can be written is exactly what lexing and parsing its text yields, interpolated strings at any depth included |
| WrittenTrees.TextsAreUnambiguous | crates/ows-runtime-expressions/src/parser.rs:10-478 | no two such trees share a text |
| WrittenTrees.TokenRead | crates/ows-runtime-expressions/src/lexer.rs:159-312 | every token that can be written, followed by a blank, is lexed back to itself: every mark, word, variable, number, string and interpolation |
| WrittenTrees.LiteralTokens | crates/ows-runtime-expressions/src/lexer.rs:367-436 | the tokens of one string literal are its texts and interpolated sources in the order in which they are written |
| WrittenTrees.StringsAreTheirParts | crates/ows-runtime-expressions/src/parser.rs:458-477 | a run of text and interpolation tokens parses to the string of the parts they stand for, in that order, whatever parses the nested sources |
| WrittenTrees.StringsFailWithAPart | crates/ows-runtime-expressions/src/parser.rs:458-477 | the first nested source that does not parse fails the string with its error |
| WrittenTrees.LiteralsParse | crates/ows-runtime-expressions/src/parser.rs:458-477 | a string literal parses to its texts and to what its sources parse to, in the order in which they are written |
| WrittenTrees.SourcesAreUnderstood | crates/ows-runtime-expressions/src/parser.rs:458-477 | in every source an interpolated text of a tree is parsed to that tree |
| Grammar.ExprAt | crates/ows-runtime-expressions/src/parser.rs:58-69 | a successful production advances the cursor and stays before the end of the token vector |
| Grammar.AcceptedSourcesAreConsumed | crates/ows-runtime-expressions/src/parser.rs:10-21 | an accepted source was consumed up to the end marker |
| Precedence.PrintedTreesParseBack | crates/ows-runtime-expressions/src/parser.rs:57-273 | every denotable tree, printed for the binding levels, parses back to exactly itself, if the nested parser understands the interpolated texts |
| Precedence.PrintingIsUnambiguous | crates/ows-runtime-expressions/src/parser.rs:57-273 | no two trees share a printing |
| Parentheses.EveryTreeIsParsed | crates/ows-runtime-expressions/src/parser.rs:57-273 | every denotable tree has a token vector, closed by one end marker, that parses to it, if the nested parser understands the interpolated texts |
| Parentheses.WordsAfterPaths | crates/ows-runtime-expressions/src/parser.rs:209-236 | a word behind a bare postfix or primary expression is left alone exactly when the expression is not a dot path still in its chain; otherwise it becomes one more field of the path |
| Parentheses.DotPathsSwallowKeywords | crates/ows-runtime-expressions/src/parser.rs:209-236 | `.a and .b` is read as one path |
| Shorthands.ElifIsNestedIf | crates/ows-runtime-expressions/src/parser.rs:307-338 | `if a then b elif c then d else e end` is the conditional whose other branch is the conditional of c; without `else` that one answers null |
| Shorthands.MissingElseIsNull | crates/ows-runtime-expressions/src/parser.rs:307-352 | a conditional without `else` has null in its place |
| Shorthands.SecondElifFails | crates/ows-runtime-expressions/src/parser.rs:340-352 | a second `elif` is read as the call of a function of that name, and what follows it is a syntax error there |
| Shorthands.QuotedNamesAreFields | crates/ows-runtime-expressions/src/parser.rs:175-236 | a field name may be a word or a string, and in a leading chain needs no dot |
| Shorthands.StreamsAreSpliced | crates/ows-runtime-expressions/src/parser.rs:382-404 | a parenthesised stream in an array contributes its members as elements |
| Shorthands.MarksStartNothing | crates/ows-runtime-expressions/src/parser.rs:209-273 | a mark that no expression starts with, or the end of the text, is a syntax error where it stands |
| Shorthands.SemicolonsSeparate | crates/ows-runtime-expressions/src/parser.rs:365-380 | arguments may be separated by semicolons |
| Parentheses.PlaceBinds | crates/ows-runtime-expressions/src/parser.rs:72-273 | a level of the parser returns only trees that bind at least as tightly as the level, unless it starts at a parenthesis |
| Parentheses.ParenthesesAreNeeded | crates/ows-runtime-expressions/src/parser.rs:57-273 | wherever the printing has a pair of parentheses, the parser at that place does not read the bare tokens as that tree |
| Precedence.ParseLevelBack | crates/ows-runtime-expressions/src/parser.rs:72-172 | a printed operand parses back at the level it was printed for, whatever token follows that stops the level |
| Comparison.EqualReflexive | crates/ows-runtime-expressions/src/eval.rs:333-347 | equality is reflexive |
| Comparison.EqualSymmetric | crates/ows-runtime/src/tasks.rs:1107-1120 | equality is symmetric, objects of equal size and matching keys included |
| Comparison.EqualTransitive | crates/ows-runtime-expressions/src/eval.rs:333-347 | equality is transitive |
| Comparison.CompareReverses | crates/ows-runtime-expressions/src/eval.rs:349-370 | comparing the other way round reverses the order and is defined for the same values |
| Comparison.SameMeansEqual | crates/ows-runtime-expressions/src/eval.rs:333-370 | where an order exists it says equal exactly when equality holds |
| Comparison.SameIsInterchangeable | crates/ows-runtime-expressions/src/eval.rs:349-370 | values that compare equal compare alike with any third |
| Comparison.BeforeIsTransitive | crates/ows-runtime-expressions/src/eval.rs:349-370 | less and less again is defined and less, over nested arrays |
| Comparison.SomeArraysHaveNoOrder | crates/ows-runtime-expressions/src/eval.rs:349-370 | two arrays may have no order, and others like them have one: the first unequal pair of items decides |
| OperatorLaws.CompareMeans | crates/ows-runtime-expressions/src/eval.rs:349-370 | two values have an order exactly if they are numbers, strings, or arrays whose items have one as far as they are equal and one further; and which comes first: the smaller number, the string that is first at the first difference, the array that is at the first unequal pair |
| OperatorLaws.OrderOperators | crates/ows-runtime-expressions/src/eval.rs:194-209 | on single values `<`, `>`, `<=`, `>=` say which comes first, and are a type error exactly when there is no order |
| OperatorLaws.EqualityOperators | crates/ows-runtime-expressions/src/eval.rs:194-209 | on single values `==` is equality and `!=` its negation |
| OperatorLaws.StreamsCombine | crates/ows-runtime-expressions/src/eval.rs:184-192 | result number i times the number of right values plus j is that of left value i and right value j; or the error of the first pair that fails |
| OperatorLaws.Conditionals | crates/ows-runtime-expressions/src/eval.rs:106-114 | a conditional takes its first branch unless the first value of the condition is null, false or missing |
| OperatorLaws.LogicIsConditional | crates/ows-runtime-expressions/src/eval.rs:156-180 | on single values `and`, `or`, `//` and `not` are conditionals |
| OperatorLaws.LogicLooksAtLast | crates/ows-runtime-expressions/src/eval.rs:156-180 | on streams they look at the last value |
| OperatorLaws.LogicSkips | crates/ows-runtime-expressions/src/eval.rs:156-180 | an operand that cannot matter is not evaluated, one that matters and fails decides |
| ValueLaws.Variables | crates/ows-runtime-expressions/src/eval.rs:32-37 | a bound variable is its value, an unbound one a type error |
| ValueLaws.Negation | crates/ows-runtime-expressions/src/eval.rs:71-89 | the negation of a number has the opposite value, and is an integer exactly when that is one below 2^53 in magnitude; of anything else it is a type error |
| ValueLaws.UnaryIsPipe | crates/ows-runtime-expressions/src/eval.rs:71-89 | a prefix operator on a stream works value by value |
| ValueLaws.Fields | crates/ows-runtime-expressions/src/eval.rs:377-394 | a field of an object or null, of an array the field of each item, of anything else null |
| ValueLaws.StreamsIndex | crates/ows-runtime-expressions/src/eval.rs:47-57 | every value with every index, the index varying fastest, or the first error |
| ValueLaws.Indexing | crates/ows-runtime-expressions/src/eval.rs:396-435 | indices truncated towards zero, negative ones from the end, null outside; strings by character; which pairs are type errors |
| ValueLaws.Iteration | crates/ows-runtime-expressions/src/eval.rs:58-69 | items in order, the values of an object by ascending keys, anything else itself |
| ValueLaws.CommaJoins | crates/ows-runtime-expressions/src/eval.rs:98-122 | a comma list is the streams of its members one after the other, an array collects them |
| ValueLaws.StringsJoin | crates/ows-runtime-expressions/src/eval.rs:126-143 | a string is its texts and the texts of the last values of its interpolations, from left to right; strings are not quoted and nothing is `null` |
| ValueLaws.KeysAgree | crates/ows-runtime-expressions/src/eval.rs:436-456 | a word, a string and an expression whose last value has that text are the same key |
| ValueLaws.ObjectsAreProducts | crates/ows-runtime-expressions/src/eval.rs:436-476 | object i of an object expression takes of each entry the value at its digit of i, null from an empty stream |
| ValueLaws.SelectIsConditional | crates/ows-runtime-expressions/src/eval.rs:527-540 | `select(c)` is `if c then . else empty` |
| ValueLaws.CallsFail | crates/ows-runtime-expressions/src/eval.rs:505-540 | `map` and `select` need an argument, `map` an array |
| ValueLaws.FailuresDecide | crates/ows-runtime-expressions/src/eval.rs:39-114 | a failing base, condition or left side of a pipe decides |
| ValueLaws.OperandsFail | crates/ows-runtime-expressions/src/eval.rs:145-192 | a failing operand decides, the left one first |
| ValueLaws.EntriesFail | crates/ows-runtime-expressions/src/eval.rs:436-456 | in an object a failing key comes before its value, and an entry before the next |
| ValueLaws.StringsFail | crates/ows-runtime-expressions/src/eval.rs:126-143 | a string fails with its first part that fails |
| Evaluator.Evaluate | crates/ows-runtime-expressions/src/eval.rs:28-124 | the loops of the evaluator produce the specified stream or the first error |
| Evaluator.EvaluateBinary | crates/ows-runtime-expressions/src/eval.rs:145-192 | short-circuiting operators look at the last left value; the others combine all pairs, right varying fastest |
| Evaluator.CombinePairs | crates/ows-runtime-expressions/src/eval.rs:184-192 | the nested loops yield every left value with every right value or the first error among them |
| Evaluator.EvaluateObject | crates/ows-runtime-expressions/src/eval.rs:436-476 | keys and value streams in order, then their product |
| Evaluator.BuildObjects | crates/ows-runtime-expressions/src/eval.rs:456-475 | the loops that extend every object so far build the product of the choices |
| Evaluator.EvaluateString | crates/ows-runtime-expressions/src/eval.rs:126-143 | literal parts and the last value of each interpolation, joined |
| Evaluator.CallFunction | crates/ows-runtime-expressions/src/eval.rs:478-542 | `map` collects the filter over an array, `select` keeps the input by the first result |
| ObjectProduct.ProductSize | crates/ows-runtime-expressions/src/eval.rs:456-475 | an object yields the product of max(1, length) over its value streams |
| ObjectProduct.ProductKeys | crates/ows-runtime-expressions/src/eval.rs:456-475 | every object of the product has exactly the entries' keys |
| ObjectProduct.ProductAt | crates/ows-runtime-expressions/src/eval.rs:456-475 | object i takes each entry's value at its digit of i, the last entry varies fastest, later duplicates win |
| StreamLaws.PipeAssociates | crates/ows-runtime-expressions/src/eval.rs:90-97 | pipe is associative: both sides fail together or yield the same stream |
| StreamLaws.IdentityPipedIn | crates/ows-runtime-expressions/src/eval.rs:90-97 | `.` is a left unit of pipe |
| StreamLaws.IdentityPipedOut | crates/ows-runtime-expressions/src/eval.rs:90-97 | `.` is a right unit of pipe |
| StreamLaws.CommaDistributes | crates/ows-runtime-expressions/src/eval.rs:90-122 | a comma distributes over a following pipe |
| StreamLaws.FieldIsPipe | crates/ows-runtime-expressions/src/eval.rs:39-46 | `e.f` is `e \| .f` |
| StreamLaws.IterateIsPipe | crates/ows-runtime-expressions/src/eval.rs:58-69 | `e[]` is `e \| .[]` |
| StreamLaws.MapIsCollectedPipe | crates/ows-runtime-expressions/src/eval.rs:510-526 | on arrays `map(f)` is `[.[] \| f]` |
| JsonText.TextParses | crates/ows-runtime-expressions/src/parser.rs:382-478 | lexing and parsing the compact text of a value gives the tree of that value, if each float has a text that denotes it |
| JsonText.TextEvaluatesToItself | crates/ows-runtime-expressions/src/eval.rs:436-476 | on every input the text evaluates to the value with its numbers read as floats; to the value itself exactly when its integers lie below 2^53 and none of its floats equals such an integer |
| JsonText.LargeIntegerChangesKind | crates/ows-runtime-expressions/src/eval.rs:820-828 | 2^53 itself comes back as a float |
| JsonText.ArrayText | crates/ows-runtime-expressions/src/eval.rs:805-813 | the text of an array has no blanks, a comma between items |
| JsonText.ObjectText | crates/ows-runtime-expressions/src/eval.rs:805-813 | the text of an object lists its quoted keys in ascending order |
| JsonText.StringText | crates/ows-runtime-expressions/src/eval.rs:805-813 | how each character is written inside quotes |
| JsonLexing.StringToken | crates/ows-runtime-expressions/src/lexer.rs:367-436 | the quoted form of any string lexes to one token holding that string |
| JsonLexing.NaturalToken | crates/ows-runtime-expressions/src/lexer.rs:326-364 | the decimal digits of a number lex to that number |
| JsonLexing.NumeralToken | crates/ows-runtime-expressions/src/lexer.rs:326-364 | a text that is a number token on its own is the same token, with the same value, before any delimiter of JSON |
| JsonLexing.HexCode | crates/ows-runtime-expressions/src/lexer.rs:399-420 | a four-digit control escape decodes to its code |
| SelfEvaluation.ReadBackUnchanged | crates/ows-runtime-expressions/src/parser.rs:480-488 | reading through a float changes nothing exactly when integers lie below 2^53 and no float equals such an integer |
| SelfEvaluation.TextTreeEvaluates | crates/ows-runtime-expressions/src/eval.rs:28-124 | the tree of a value evaluates to that value, on every input and environment |
| Json.SortedKeysEnumerate | crates/ows-runtime-expressions/src/eval.rs:58-69 | objects are walked through all their keys once, in ascending order |
| Template.FindBlockClose | crates/ows-runtime-expressions/src/engine.rs:81-110 | the scanner finds the brace that balances the opening one, quotes notwithstanding |
| Template.CloseExactly | crates/ows-runtime-expressions/src/engine.rs:81-110 | the position found is exactly the first one at which the depth returns to zero |
| Template.LiteralsAreSkipped | crates/ows-runtime-expressions/src/engine.rs:92-105 | the scan that respects quotes is the scanner with its loop started behind the opening quote |
| Template.PromiseKept | crates/ows-runtime-expressions/src/engine.rs:81-110 | on every text, if no brace stands inside a literal up to the close found, the scanner and that scan agree |
| Template.PromiseKeptExactly | crates/ows-runtime-expressions/src/engine.rs:81-110 | on every text, from a positive depth, the scanner answers as the scan that respects quotes if and only if the braces inside literals never use up the depth and, if that scan finds a close, have cancelled out there |
| Template.OneSidedBracesBreakIt | crates/ows-runtime-expressions/src/engine.rs:81-110 | in a block that closes, if the braces in the literals are all opening or all closing, the scanner finds the close exactly when there are none |
| Template.QuotedBraceEndsBlock | crates/ows-runtime-expressions/src/engine.rs:92-105 | a block whose literal holds a closing brace ends at that brace |
| Template.SplitRestores | crates/ows-runtime-expressions/src/engine.rs:113-142 | literals and blocks, put back together, are the text |
| Template.SplitIsWellFormed | crates/ows-runtime-expressions/src/engine.rs:113-142 | literals hold no `${`, no two are adjacent, every inner text is brace-balanced |
| Template.SplitIsTheOnlyOne | crates/ows-runtime-expressions/src/engine.rs:113-142 | a list of pieces is the split of a text if and only if it is well formed and joins to the text |
| Template.UnclosedHasNoSplit | crates/ows-runtime-expressions/src/engine.rs:126-128 | a text rejected as unterminated has no well-formed split at all |
| TemplateEngine.SingleBlock | crates/ows-runtime-expressions/src/engine.rs:60-73 | the single-block test as a scan from the first non-blank |
| TemplateEngine.SingleBlockIsWholeSplit | crates/ows-runtime-expressions/src/engine.rs:60-73 | a trimmed source is a single block exactly when its split is one expression piece |
| TemplateEngine.ParseBlocks | crates/ows-runtime-expressions/src/engine.rs:113-142 | compiles the pieces of the split left to right, the first failing or unterminated block deciding |
| TemplateEngine.Prepare | crates/ows-runtime-expressions/src/engine.rs:43-54 | one block is an expression, no block is plain text, anything else a template |
| TemplateEngine.Interpolate | crates/ows-runtime-expressions/src/engine.rs:189-202 | literals and block values spliced in order, the first error deciding |
| TemplateEngine.EvaluateValue | crates/ows-runtime-expressions/src/engine.rs:144-167 | in expression position plain text is parsed as a bare expression |
| TemplateEngine.EvaluateInterpolation | crates/ows-runtime-expressions/src/engine.rs:169-187 | in interpolation position plain text stands for itself |
| TemplateLaws.TemplatesAreStrings | crates/ows-runtime-expressions/src/engine.rs:189-202 | a template answers what the string expression with the same texts and expressions evaluates to, errors included |
| TemplateLaws.BlocksAnswerTheirLast | crates/ows-runtime-expressions/src/engine.rs:144-187 | a single block, and plain text in expression position, answers the last value of its stream or null |
| TemplateLaws.SourcesArePrepared | crates/ows-runtime-expressions/src/engine.rs:43-142 | a source is the template of its sections in order, each block standing for what its trimmed text parses to; one block alone is an expression, and a source without blocks is itself |
| TemplateLaws.SectionsFail | crates/ows-runtime-expressions/src/engine.rs:113-142 | the first block that does not parse or does not close fails the source, an unclosed one with its position |
| Normalizer.NormalizeScope | crates/ows-runtime-dsl/src/lib.rs:144-188 | the pass rewrites exactly the specified entries and leaves all others alone |
| Normalizer.NormalizeTask | crates/ows-runtime-dsl/src/lib.rs:190-197 | every task of an entry is normalised |
| Normalizer.NormalizationIsIdempotent | crates/ows-runtime-dsl/src/lib.rs:140-197 | normalising twice is normalising once, and exactly the normal definitions stay unchanged |
| Normalizer.EntriesInNormal | crates/ows-runtime-dsl/src/lib.rs:144-188 | loop collections become text, a fork that does not say so does not compete, task lists under `do`, `try`, `catch` and `branches` are normalised, nothing else changes |
| Normalizer.ListsInNormal | crates/ows-runtime-dsl/src/lib.rs:190-205 | in a task list every entry of every task is normalised as a scope |
| Normalizer.InlineCollectionKeepsMeaning | crates/ows-runtime-dsl/src/lib.rs:152-159 | an encoded inline collection evaluates to itself exactly when its numbers survive being read back and its text holds no `${` |
| Normalizer.MarkedCollectionChanges | crates/ows-runtime-dsl/src/lib.rs:152-159 | a collection that does not keep its meaning |
| Workflows.Position | crates/ows-runtime/src/engine.rs:525-528 | a named target is the first task of that name |
| Engine.Scope | crates/ows-runtime/src/engine.rs:471-557 | extensions are switched back, the task log and the effects only grow, after `end` no task starts, and unless a `before` scope holds an `end` directive nothing takes effect after `end` either; a scope without `end` directives leaves the run as live as it was |
| Engine.Proceed | crates/ows-runtime/src/engine.rs:514-549 | the same while following continue, goto, exit and end |
| Engine.RunTask | crates/ows-runtime/src/engine.rs:560-676 | the same for a task started in a live run; its own directive can only come from a switch case |
| Engine.RunExtension | crates/ows-runtime/src/engine.rs:745-769 | the extension flag is restored on success and on error |
| Engine.RunExtended | crates/ows-runtime/src/engine.rs:611-675 | the same around body, `after` scopes and export |
| Engine.RunFor | crates/ows-runtime/src/tasks.rs:96-162 | the same for loops, whatever the collection, the condition and the bodies do |
| Engine.RunForeach | crates/ows-runtime/src/tasks.rs:771-798 | the same for iterating over consumed events |
| Engine.RunTry | crates/ows-runtime/src/tasks.rs:292-347 | the body runs at most once more than retries are left; the handler runs at most once, after the last body, for a fault that matches and whose retry is refused or used up |
| Engine.Choose | crates/ows-runtime/src/tasks.rs:267-289 | a switch yields the directive of the first case that matches, and none exactly when every case was asked and refused |
| Engine.Applicable | crates/ows-runtime/src/engine.rs:696-721 | exactly the extensions that target the task and whose condition holds apply |
| EngineRuns.ExecContext.ExecScope | crates/ows-runtime/src/engine.rs:471-557 | the loop over index and input leaves the context, the outcome and the path of indices that the run function specifies |
| EngineRuns.ExecContext.ExecTask | crates/ows-runtime/src/engine.rs:560-609 | guard, input stage, extensions and body in that order, on the mutable context |
| EngineRuns.ExecContext.RunTaskBody | crates/ows-runtime/src/engine.rs:611-675 | body, output stage, `after` scopes and export, on the mutable context |
| EngineLaws.TaskFlows | crates/ows-runtime/src/engine.rs:560-676 | a task whose guard holds and whose input is accepted is its wanted extensions around its body: each `before` scope gets what the one before it made, an `exit` replaces the body, then `output.as`, the `after` scopes, the output schema, `export.as` and its schema; or it ends with the first of these that fails |
| EngineLaws.GuardDecides | crates/ows-runtime/src/engine.rs:573-586 | a guard that does not hold skips the task, one that breaks fails it |
| EngineLaws.InputStageDecides | crates/ows-runtime/src/engine.rs:588-597 | a problem of the input schema or of `input.from` is the task's, before anything else runs |
| EngineLaws.ApplicableMeans | crates/ows-runtime/src/engine.rs:697-737 | exactly the extensions apply that name the kind of task or its function and whose condition holds of the raw input, in order; or the first condition that breaks decides |
| EngineLaws.ExportSetsContext | crates/ows-runtime/src/engine.rs:632-670 | the context a task leaves is the value `export.as` yields on its final output, with that output in view; without `export.as` it is the body's |
| EngineLaws.EffectAnswers | crates/ows-runtime/src/tasks.rs:30-72 | an effect gets the shaped input and a view of context and variables; its answer is the output |
| EngineLaws.EffectKeepsContext | crates/ows-runtime/src/engine.rs:632-670 | an effect task without `export.as` leaves the context as it was, whatever its other stages do |
| EngineLaws.ScopeSteps | crates/ows-runtime/src/engine.rs:512-549 | after a task its own directive counts, or else its `then`: the next task gets its output, `exit` leaves the scope, `end` ends the run, a name leads to the first task of that name, and a name no task has is a fault |
| EngineLaws.ScopeStops | crates/ows-runtime/src/engine.rs:484-494 | a cancelled scope fails; one that has ended or has no task left hands its input back |
| EngineLaws.NextTaskSees | crates/ows-runtime/src/engine.rs:512-549 | the next task's effect sees exactly the context the task before it left, its output as input, and its variables |
| BodyLaws.SwitchDecides | crates/ows-runtime/src/tasks.rs:265-290 | a switch hands its input on with the directive of its first open case, or fails with the first condition that breaks |
| BodyLaws.ForLoops | crates/ows-runtime/src/tasks.rs:96-162 | the items in order, each with what the one before it made as input and itself and its index bound; the loop stops at the end of the run, at a condition that does not hold, or at a failure; its output is the last item's or null, and its variables are gone |
| BodyLaws.ForRefuses | crates/ows-runtime/src/tasks.rs:104-124 | a collection that breaks, is neither array nor null, or is too long is a fault |
| BodyLaws.ListenAnswers | crates/ows-runtime/src/tasks.rs:771-798 | a listen yields its events, or what its body made of each of them in order until one ended the run or failed |
| BodyLaws.TryAnswers | crates/ows-runtime/src/tasks.rs:292-347 | the body runs again while its fault matches, is to be retried and attempts are left, the fault bound as a variable; then its output, the uncaught fault, the handler's outcome or the task's input is the result |
| EngineRuns.ExecContext.ApplicableExtensions | crates/ows-runtime/src/engine.rs:696-721 | the loop selects the applicable extensions in order |
| EngineRuns.ExecContext.RunBeforeScopes | crates/ows-runtime/src/engine.rs:599-609 | `before` scopes in turn until one exits |
| EngineRuns.ExecContext.RunExtensionScope | crates/ows-runtime/src/engine.rs:745-769 | runs a scope with extensions off and restores both flags |
| EngineRuns.ExecContext.Dispatch | crates/ows-runtime/src/tasks.rs:30-72 | each kind of task runs as specified |
| EngineRuns.ExecContext.TaskSwitch | crates/ows-runtime/src/tasks.rs:267-289 | the loop picks the first matching case |
| EngineRuns.ExecContext.TaskFor | crates/ows-runtime/src/tasks.rs:96-162 | the collection, its bound, the loop and the removal of its variables |
| EngineRuns.ExecContext.ForEachItem | crates/ows-runtime/src/tasks.rs:130-157 | each output is the next input; `end`, a false condition or an error stops the loop |
| EngineRuns.ExecContext.ForeachListen | crates/ows-runtime/src/tasks.rs:771-798 | one output per event until `end` or an error |
| EngineRuns.ExecContext.TaskTry | crates/ows-runtime/src/tasks.rs:292-347 | the retry loop runs the body and the handler exactly as often as specified |
| EngineSafety.Execute | crates/ows-runtime/src/engine.rs:249-257 | at the end of every run no task started after `end`, extensions are on, and without an `end` in a `before` scope no effect followed it |
| EngineSafety.ForwardWorkflowsFinish | crates/ows-runtime/src/engine.rs:599-649 | a workflow whose directives only lead forward terminates, even if extensions match their own tasks |
| EngineSafety.ResolvedWorkflowsNeverMiss | crates/ows-runtime/src/engine.rs:525-539 | when all targets exist no run ends in the unknown-task fault |
| EngineSafety.ScopeFine | crates/ows-runtime/src/engine.rs:471-557 | both, for every scope started in any state |
| EngineSafety.EndedScopesDoNothing | crates/ows-runtime/src/engine.rs:487-489 | a scope entered after `end` returns its input untouched |
| EngineSafety.EffectFollowsEndExactly | crates/ows-runtime/src/engine.rs:611-631 | an effect task takes effect after `end` exactly when `end` had fired before its body and no `before` scope exited |
| EngineSafety.EndInBeforeStillRunsTheTask | crates/ows-runtime/src/engine.rs:599-631 | `end` in a `before` scope does not stop the extended task's effect |
| EngineSafety.HopelessBodiesUseAllRetries | crates/ows-runtime/src/tasks.rs:301-346 | a body that fails whenever it is started live, with faults to be retried, runs exactly once more than there are retries, then the handler once if there is one |
| EngineSafety.StubbornTaskUsesAllRetries | crates/ows-runtime/src/tasks.rs:301-346 | such a task exists for every number of retries |
| EngineBudget.BudgetsAgree | crates/ows-runtime/src/engine.rs:471-557 | any two budgets of backward jumps that suffice give the same outcome, log, effects and path |
| EngineBudget.ScopeLifts | crates/ows-runtime/src/engine.rs:471-557 | the same for every scope started in any state |
| Backoff.ComputeDelay | crates/ows-runtime/src/tasks.rs:425-444 | the plain delay of the strategy plus the jitter, saturating |
| Backoff.DelaysNeverShrink | crates/ows-runtime/src/tasks.rs:425-435 | without jitter the delays of the first n attempts never shrink if and only if n is below 2^32 or the delay is constant, zero, or exponential and saturated from the start |
| Backoff.DelaysMean | crates/ows-runtime/src/tasks.rs:425-435 | below 2^32 attempts a constant delay is the base, a linear one the base times the attempt, an exponential one past 32 attempts the base times the greatest 32-bit number, all up to saturation |
| Backoff.JitterMeans | crates/ows-runtime/src/tasks.rs:436-442 | the jitter is its least value and as many whole milliseconds as the drawn share of the range has |
| Backoff.DelaysShrinkPast32Bits | crates/ows-runtime/src/tasks.rs:429-434 | at attempt 2^32 a linear delay falls to nothing and an exponential one to its base |
| Backoff.ExponentialDelaysAddUp | crates/ows-runtime/src/tasks.rs:431-434 | n delays, n up to 32, add up to base times 2^n - 1 exactly when the last does not saturate |
| Backoff.JitterStaysInRange | crates/ows-runtime/src/tasks.rs:436-442 | each delay lies between the plain one plus `from` and plus `to` |
| Stores.Store.Create | crates/ows-runtime-core/src/store.rs:96-100 | files one record under its id and touches nothing else |
| Stores.Store.Update | crates/ows-runtime-core/src/store.rs:107-111 | replaces one record and touches nothing else |
| Stores.Store.Load | crates/ows-runtime-core/src/store.rs:102-105 | the record of that id, if any |
| Stores.Store.AppendEvent | crates/ows-runtime-core/src/store.rs:113-117 | appends one event |
| Resume.Runtime.ExecScope | crates/ows-runtime/src/engine.rs:480-555 | at every crash point the record restores to what uninterrupted steps lead to |
| Resume.Runtime.Execute | crates/ows-runtime/src/engine.rs:241-305 | a run that is not cut off closes its record with the uninterrupted answer and appends one event; a crash before, between or after these writes leaves a checkpoint or a closed record |
| Resume.Runtime.Start | crates/ows-runtime/src/engine.rs:223-304 | a fresh run: an input fault leaves no record, otherwise the start record is the first checkpoint; the events are appended in order, each at most once |
| Resume.Runtime.Resume | crates/ows-runtime/src/runtime.rs:379-430 | unknown and terminal executions are refused and the store stays untouched, also when the answer of a closed one never got out; from any checkpoint the continuation closes the record with the answer of the uninterrupted run or leaves a later checkpoint |
| Resume.Runtime.RunThroughCrashes | crates/ows-runtime/src/runtime.rs:379-430 | after any number of crashes the record holds a checkpoint of the uninterrupted run or its answer, and each event was appended at most once |
| Resume.AfterAfter | crates/ows-runtime/src/engine.rs:484-555 | stopping after some steps and going on is the same run |
| Resume.CheckpointRestores | crates/ows-runtime/src/engine.rs:367-390 | reading a written pointer gives back index and input |
| Resume.CrashesDoNotMatter | crates/ows-runtime/src/runtime.rs:379-430 | a closed record agrees with every uninterrupted run in answer, context and phase |
| Resume.ClosedTells | crates/ows-runtime/src/engine.rs:266-305 | a closed record is completed exactly if the answer is a value, cancelled exactly if it is the cancellation, faulted for every other fault, holds that fault and nothing to resume from; its last event says the same; the answer is the output stage on the last value and context, or the fault |
| Resume.PointersMean | crates/ows-runtime/src/engine.rs:362-390 | what a checkpoint holds, and what a pointer with missing or unusable parts is read as |
| Resume.StartIsFirst | crates/ows-runtime/src/engine.rs:333-360 | the start is the first event, and an execution has at most two |
| Resume.StoredIndexInRange | crates/ows-runtime/src/engine.rs:367-390 | a stored index never exceeds the number of tasks |
| Resume.OutputIsNotStored | crates/ows-runtime/src/engine.rs:308-330 | the record of a completed run is the same whatever its output was, so an output lost in a crash cannot be recovered |
| Durability.EngineTakesSteps | crates/ows-runtime/src/engine.rs:471-557 | if top-level tasks depend only on input and context and no nested scope holds an `end`, the engine's run is the run of those steps |
| Durability.PlainEffectsAreSteps | crates/ows-runtime/src/tasks.rs:30-72 | plain effect tasks that look at nothing but input and context meet those conditions |
| Durability.CrashesAreInvisible | crates/ows-runtime/src/runtime.rs:379-430 | then a record closed after any crashes holds the answer of the engine's uninterrupted run |
| Durability.EngineResumes | crates/ows-runtime/src/runtime.rs:379-430 | then the engine itself, run on from any stored checkpoint with nothing but its context, ends as its uninterrupted run does |
| Durability.EndIsForgottenByResume | crates/ows-runtime/src/engine.rs:544-555 | a workflow that completes when uninterrupted and faults when resumed from the checkpoint after a nested `end` |
| Listen.FilterMatches | crates/ows-runtime/src/tasks.rs:724-768 | the group is committed only when attributes and all keys agree |
| Listen.MatchFits | crates/ows-runtime/src/tasks.rs:724-768 | a match binds every key of the filter and rebinds none |
| GatherLaws.MatchMeans | crates/ows-runtime/src/tasks.rs:724-768 | a filter matches exactly when the event suits it under some extension of the group, and then binds exactly its open keys to what they extract |
| GatherLaws.OneGroupAfter | crates/ows-runtime/src/tasks.rs:724-768 | the group after a match is the only one of that kind |
| Listen.CorrelatedValuesAgree | crates/ows-runtime/src/tasks.rs:737-764 | events matched under the same key without an expectation extract equal values |
| Gathering.GatherListenEvents | crates/ows-runtime/src/tasks.rs:602-711 | the loop consumes exactly the specified events |
| Gathering.SweepFilters | crates/ows-runtime/src/tasks.rs:667-674 | one event offered to every filter not yet matched, the group passed along |
| Gathering.SweepFits | crates/ows-runtime/src/tasks.rs:667-695 | every flag raised belongs to a filter the event fits, and an advance raises at least one |
| Gathering.GatherKeepsGood | crates/ows-runtime/src/tasks.rs:602-711 | the loop keeps: matched filters are fitted by consumed events, consumed events are received ones in order |
| Gathering.GatherGoesOn | crates/ows-runtime/src/tasks.rs:602-711 | over every sequence of arrivals no bound key is rebound, no consumed event is given up and no matched filter falls back |
| Gathering.SatisfiedAllIsConsistent | crates/ows-runtime/src/tasks.rs:602-711 | a satisfied `all`: every filter fitted under one group, a subsequence of the received events, no more of them than filters and stop filters |
| GatherLaws.FirstWanted | crates/ows-runtime/src/tasks.rs:634-668 | without a stop condition a single-event listen yields exactly the first arrival that some filter suits, nothing if none comes, and fails if it is interrupted before |
| GatherLaws.OneConsumes | crates/ows-runtime/src/tasks.rs:602-711 | with a stop expression it consumes exactly the arrivals that some filter suits, up to the first point at which one has come and the expression has held, or up to the close |
| GatherLaws.WantedAreWanted | crates/ows-runtime/src/tasks.rs:654-668 | what is consumed suits some filter, and without filters everything is |
| GatherLaws.SweepMeans | crates/ows-runtime/src/tasks.rs:667-674 | an event is offered to the filters in order: a filter not flagged before is flagged exactly if it matches with the group as those before it left it |
| GatherLaws.ReceiveMeans | crates/ows-runtime/src/tasks.rs:647-707 | what one event does: which flags and bindings it adds, when it is consumed, and when the stop condition becomes satisfied |
| GatherLaws.GatherListens | crates/ows-runtime/src/tasks.rs:602-711 | every listen is a sequence of such steps up to the first state in which it may stop, the close, an interruption or a breaking stop expression |
| Fork.JoinAll | crates/ows-runtime/src/tasks.rs:206-249 | outputs in declaration order or the first failure in completion order; no slot is empty when unwrapped |
| Fork.TaskFork | crates/ows-runtime/src/tasks.rs:165-250 | no branches give an empty array, a competing fork answers with the branch that finishes first, any other waits for all |
| Fork.SchedulesAgree | crates/ows-runtime/src/tasks.rs:206-249 | schedules agree on success and on the outputs, and report only real failures |
| Fork.JoinedMeans | crates/ows-runtime/src/tasks.rs:206-249 | if all branches succeed output i is that of branch i; else the fault is that of the branch that failed before all others that did |
| Fork.AnyFailureCanWin | crates/ows-runtime/src/tasks.rs:219-233 | every failing branch is the one reported under some schedule |
| Fork.AnyBranchCanWin | crates/ows-runtime/src/tasks.rs:178-205 | a competing fork answers alike on all schedules exactly when all its branches would |
| Validator.AddEdge | crates/ows-runtime-dsl/src/validate.rs:291-301 | a directive's edge is where the engine would follow it |
| Validator.PushEdges | crates/ows-runtime-dsl/src/validate.rs:234-270 | pushes exactly the edges of one task |
| Validator.MarkReachable | crates/ows-runtime-dsl/src/validate.rs:227-270 | marks exactly the tasks some path of edges reaches from the first, and ends on cyclic graphs |
| ValidatorReport.CheckNames | crates/ows-runtime-dsl/src/validate.rs:129-154 | reports exactly the invalid and the duplicate names |
| ValidatorReport.CheckSwitch | crates/ows-runtime-dsl/src/validate.rs:322-361 | reports exactly the empty switches, second defaults and cases without directive |
| ValidatorReport.CheckReachability | crates/ows-runtime-dsl/src/validate.rs:216-289 | reports exactly the unreachable tasks of a scope without `try` |
| ValidatorReport.ValidateScope | crates/ows-runtime-dsl/src/validate.rs:124-210 | reports exactly the issues of a scope and of every scope nested in it |
| ValidatorReport.AcceptedMeans | crates/ows-runtime-dsl/src/validate.rs:124-361 | a scope is accepted exactly when its names are distinct identifiers, every `then` of a task resolves, loops have a collection, switches have cases with directives and at most one default, all tasks are reachable unless there is a `try`, and the nested scopes are accepted |
| ValidatorSoundness.CoveredUnlessOverlooked | crates/ows-runtime-dsl/src/validate.rs:234-270 | the validator's edges from a task cover the engine's exactly when the task is not overlooked |
| ValidatorSoundness.OverlookedEdgeExactly | crates/ows-runtime-dsl/src/validate.rs:234-270 | an engine edge that the validator does not follow leads from an overlooked task to the next one, and each such task has it |
| ValidatorSoundness.IdleEdgeExactly | crates/ows-runtime-dsl/src/validate.rs:239-247 | an edge the validator follows and the engine never takes leads from a guarded task with a directive to the next one, exactly when no directive or case of the task leads there |
| ValidatorSoundness.VisitableIsMarkedExactly | crates/ows-runtime-dsl/src/validate.rs:216-289 | all tasks that engine edges lead to are marked reachable if and only if the successors of the overlooked ones among them are |
| ValidatorSoundness.MarkedIsNotEnough | crates/ows-runtime-dsl/src/validate.rs:216-289 | asking it of all marked tasks would be too much: a marked, overlooked task whose unmarked successor no engine edge leads to |
| ValidatorSoundness.MarkedIsVisitableExactly | crates/ows-runtime-dsl/src/validate.rs:216-289 | engine edges lead to all tasks marked reachable if and only if they lead to the successors of the idle ones among them |
| ValidatorSoundness.SkippedTaskFollowsItsDirective | crates/ows-runtime/src/engine.rs:574-586 | a task behind a guarded task with `then: end` is marked reachable; the guarded task, skipped, still ends the run |
| ValidatorSoundness.RunsStayReachable | crates/ows-runtime-dsl/src/validate.rs:216-289 | every index a run visits is marked reachable |
| ValidatorSoundness.RunWalks | crates/ows-runtime/src/engine.rs:484-555 | the visited indices form a walk along the engine's edges |
| ValidatorSoundness.AcceptedIsResolved | crates/ows-runtime-dsl/src/validate.rs:163-205 | in an accepted scope all targets resolve exactly when those do that are not checked: the targets of switch cases, and all targets in bodies of a listen `foreach` |
| ValidatorSoundness.AcceptedWorkflowsRunSafely | crates/ows-runtime-dsl/src/validate.rs:124-289 | an accepted workflow whose unchecked targets resolve, extension scopes included, visits only reachable tasks and never misses a target |
| ValidatorSoundness.CaseWithoutThenIsOverlooked | crates/ows-runtime-dsl/src/validate.rs:247-264 | a switch with a missed edge: the run visits a task that is not marked reachable |
| ValidatorSoundness.StrayCaseIsAcceptedAndFaults | crates/ows-runtime-dsl/src/validate.rs:322-361 | an accepted scope that faults on an unknown task |
| ValidatorSoundness.ForeachBodyIsAcceptedAndFaults | crates/ows-runtime-dsl/src/validate.rs:184-205 | an accepted listen task whose `foreach` body faults on an unknown task as soon as an event arrives |
| ValidatorSoundness.ExtensionScopeIsAcceptedAndFaults | crates/ows-runtime-dsl/src/validate.rs:117-119 | an accepted task that faults on an unknown task in the `before` scope of its extension |
| Catalog.ResolveDefinition | crates/ows-runtime/src/runtime.rs:283-320 | whatever order the hash maps yield, it terminates on cyclic graphs, fetches each reachable catalog exactly once and no other, in the order of the stack, and merges each once |
| Catalog.OrderDoesNotMatter | crates/ows-runtime/src/runtime.rs:545-575 | any order of fetching merges to the same names and to the same secrets and extensions, each as often |
| Catalog.ListsInOrder | crates/ows-runtime/src/runtime.rs:545-575 | secrets and extensions are the root's and behind them those of the catalogs in the order of fetching |
| Catalog.LastDeclarerWins | crates/ows-runtime/src/runtime.rs:545-575 | a component or import is that of the last catalog fetched that declares it |
| Catalog.RootIsKept | crates/ows-runtime/src/runtime.rs:545-575 | and the root's where no catalog declares it |
| CatalogOrder.AboveFirst | crates/ows-runtime/src/runtime.rs:297-315 | what lies below on the stack waits until everything above has been followed to its end |
| CatalogOrder.RouteOfRun | crates/ows-runtime/src/runtime.rs:297-315 | whenever a run comes to a catalog it has taken a route of imports to it, and all it fetched before lies on the route or on branches that lead back to the catalog only through the route |
| CatalogOrder.AlongTakesRoute | crates/ows-runtime/src/runtime.rs:283-315 | for every route some order of the hash maps takes it, and fetches all such branches first |
| CatalogOrder.WinsExactly | crates/ows-runtime/src/runtime.rs:283-320 | a catalog is in some run the last to be fetched of those that declare a name exactly when some route to it has all the others on it or on such branches |
| CatalogOrder.OrderDecidesClashes | crates/ows-runtime/src/runtime.rs:283-320 | the merged components are the same in every run if and only if no two catalogs that can come last for one name give it different values; likewise the merged imports |
| CatalogOrder.TwiceDeclared | crates/ows-runtime/src/runtime.rs:283-320 | a name that exactly two catalogs declare depends on the order if and only if their values differ and each can be reached without passing through the other |
| CatalogOrder.NoClashIsOrderFree | crates/ows-runtime/src/runtime.rs:545-575 | if no two reachable catalogs give one name different values, every run merges to the same |
| CatalogOrder.SiblingsShow | crates/ows-runtime/src/runtime.rs:283-320 | two clashing catalogs imported by the root: both orders occur, with different results |
| CatalogOrder.ChainDoesNotShow | crates/ows-runtime/src/runtime.rs:283-320 | two clashing catalogs, the second imported by the first alone: every run gives the same |
| Pointer.Checker.ValidateExpressions | crates/ows-runtime/src/runtime.rs:443-449 | accepts exactly when every expression-bearing string compiles; otherwise the pointer evaluates to the culprit |
| Pointer.Checker.ValidateValue | crates/ows-runtime/src/runtime.rs:451-497 | finds the first failure in document order; the path buffer is restored on success |
| Pointer.Checker.CompiledExpression | crates/ows-runtime/src/runtime.rs:87-98 | the cache never changes an answer |
| Pointer.RejectionPointsAtCulprit | crates/ows-runtime/src/runtime.rs:466-471 | the reported pointer, read by section 4 of RFC 6901, resolves to the string that failed |
| Pointer.FailureIsReal | crates/ows-runtime/src/runtime.rs:451-497 | there is a failure exactly when some expression does not compile, and it points at such a one |
| Pointer.FailuresComeInOrder | crates/ows-runtime/src/runtime.rs:451-497 | the failure reported is the first of its kind: in an array every item before it is accepted, in an object every entry with a smaller key |
| Pointer.EscapesAre | crates/ows-runtime/src/runtime.rs:488 | a tilde becomes `~0`, a slash `~1`, and every other character itself |
| Pointer.ExpressionsAre | crates/ows-runtime/src/runtime.rs:451-470 | the strings directly under nine fields are expressions, any other string exactly if it holds a block |
| Pointer.EscapeRoundTrip | crates/ows-runtime/src/runtime.rs:488 | unescaping by section 4 of RFC 6901 undoes the escaping of section 3 |
| Pointer.PointerRoundTrip | crates/ows-runtime/src/runtime.rs:475-491 | reading a pointer gives back the tokens it was made from |
| Pointer.PointersAreDistinct | crates/ows-runtime/src/runtime.rs:475-491 | distinct nodes have distinct pointers |

## Left out

- Floating point: a 64-bit float is modelled by the real number it stands for; rounding and overflow are not modelled.
- Lexing.Lexer.ReadNumber: gives the exact value of the digits, where the source rounds it to the nearest 64-bit float.
- JsonText.TextEvaluatesToItself: how a float is written is not part of this model, so a value with floats must have for
  each of them a text that denotes it (`JsonText.Legible`).
- Evaluator.CallFunction: arithmetic operators and all built-in functions but `map` and `select` are arbitrary functions
  of their operands.
- The Unicode tables of letters and numerals beyond ASCII are arbitrary sets; white space is spelled out.
- Error messages: errors keep their kind and, where the source gives one, their position.
- Parentheses.EveryTreeIsParsed: speaks of the trees that `Printing.Denotable` admits. Excluded are interpolated
  expressions that cannot be written, streams inside array literals (they are spliced), streams of fewer than two elements,
  calls named like keywords, and literals that are strings, arrays or objects. Printings are token vectors; that of a
  negative literal holds a negative number token, which no text lexes to.
- WrittenTrees.WrittenTreesParseBack: speaks of the trees that `Printing.Writable` admits: of the former those whose names
  are words, whose numbers have a numeral, and whose interpolated expressions have texts with matching parentheses.
- Engine.Scope: has no task timeouts and no `fork`. A timed-out task drops its future in the middle, and then the
  extension flag is not restored. Branches of a `fork` share the context and the `end` flag and start their tasks without
  looking at that flag, so the finality of `end` is proved for workflows without `fork`; `Fork` models the join alone.
  Nor is the nested run of another workflow part of the model.
- EngineRuns.ExecContext.ExecScope: the same, the loop runs without the per-task timeout.
- EngineRuns.ExecContext.Dispatch: the kinds `set`, `emit`, `raise`, `call`, `run` and `wait` are one arbitrary effect, and
  `fork` is absent; authentication, services and processes are not modelled.
- EngineSafety.Execute: the top-level scope of a run; the input and output stages and the store writes around it are in
  `Resume`.
- Resume.Runtime.ExecScope: steps are the top-level tasks alone; the loop's cancellation check is in `Engine.Scope` only.
- Durability.StepsOnly: loop variables and the workflow's own input are not part of a checkpoint, so steps that read them
  are outside the resume theorem.
- Stores.Store: persisting is best effort in the source and always succeeds here.
- ValidatorReport.ValidateScope: fork branches and document metadata are not modelled; every scope entry holds exactly
  one task.
- Catalog.ResolveDefinition: every fetch succeeds and finitely many catalogs can be reached; network policy is not
  modelled.
- Backoff: the attempt duration limit is declared in the source but not used by the retry loop; it is not modelled.
- HTTP, OpenAPI, MCP, A2A, AsyncAPI and gRPC invokers, process execution, database drivers, telemetry, schedules, JSON
  Schema validation and the command line: input and output with little to prove here.
