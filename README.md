# A verified model of the text-parser lexer core

This project models the core of the text-parser library in Dafny: the
bounded-repetition lexer, the lexer base class of the Text.Scanning
generation, and two lexers that wrap an inner lexer (`CHAR` and `ALPHA`).
The repetition lexer is ABNF's `<a>*<b>element` rule, from section 3.6 of RFC 5234.

The files are:

- `wrappers.dfy` (`Wrappers`) defines `Option` and `Result`. `Option` stands for a nullable reference. `Result` stands for a value or a thrown exception.
- `text.dfy` (`Text`) models the scanner shared by all generations:
  - `TextScanner` is a class holding the remaining input and an offset. Reads take symbols from the front. `PutBack` and `Unread` push symbols back onto the front, like a stack.
  - `ScanState` is the same state as a value, with `Advance` and `Unread`.
  - It also defines the `SyntaxError` and argument-exception vocabulary.
- `textfx.dfy` (`TextFx`) holds the element and result types of the ReadResult-based generation:
  - heap `Element`s with their sibling links;
  - `ReadResult`;
  - `RuleLexer`, a stand-in for a family of inner lexers (see below).
- `repetition.dfy` (`TextFxAbnf`) models `RepetitionLexer`:
  - its constructor checks;
  - its `Read` loop;
  - the pure specification `Attempts` / `Repeat` that the loop is proved against.
- `repetition_examples.dfy` (`TextFxAbnfExamples`) works through the repetition `2*4"x"` on the inputs `"x"`, `"xxx"` and `"xxxxx"`.
- `scanning_lexer.dfy` (`TextScanning`) models `Lexer<TElement>` of Text.Scanning:
  - rule-name validation, both as written and as its message states it;
  - `RuleName`, `PutBack`, `TryRead`, `Read` and `Default`.
- `character.dfy` (`TextFxAbnfCore`) models `CharacterLexer`: one inner call, error wrapping, and sibling linking.
- `alpha.dfy` (`TxtAbnfCore`) models `AlphaLexer` of the Txt generation as pure functions over scanner states.

The inner lexer of `RepetitionLexer` and `CharacterLexer` is modelled as a
`RuleLexer` object. Its behaviour is a function `rule`. It maps the scanner
state and the previous element's text to an `Outcome`:

- `Matched(n)`: the next `n` symbols are the element;
- `Failed(error, k)`: the lexer fails after leaving `k` symbols read.

`rule` never reads past the input. This stands for a whole family of
inner lexers, but not for every `ILexer`:

- It sees only the previous element's text, not the element itself.
- It changes only the scanner and its own ghost log. It never changes the
  element it is given, so it makes no sibling links.
- A success is always a fresh `Terminal` with null links, whose text is
  exactly the input it consumed.

The ghost log, `previousArguments`, records the previous element passed to
each call. That makes "each attempt receives the preceding element"
something the model can state. `Restoring(rule)` names lexers that put
back what they read when they fail (`k == 0`).

`RepetitionLexer.Read` is proved against `Repeat`. It applies `Attempts`,
a recursive function that runs the rule at most `upperBound` times and
stops at the first failure. The lemmas about `Attempts` and `Repeat`
state the properties the library promises:

- the bounds on the count;
- the elements are the successive matches, in order;
- the run ends on the failure it reports;
- a rejected repetition over a restoring lexer leaves the scanner where it started;
- the inner error is present on every rejection.

## Model

| member | source | states |
|---|---|---|
| TextFxAbnf.RepetitionArgumentError | src/TextFx.ABNF/RepetitionLexer.cs:19-34 | no error exactly when the lexer is non-null and `0 <= lowerBound < upperBound`. Otherwise it returns `ArgumentNull("repeatingElementLexer")`, or `ArgumentOutOfRange` for `lowerBound` (`"Precondition: lowerBound >= 0"`) or for `upperBound` (`"Precondition: upperBound > lowerBound"`), checked in the source's order |
| TextFxAbnf.RepetitionLexer.Create | src/TextFx.ABNF/RepetitionLexer.cs:19-39 | fails exactly with the error of the checks. Otherwise it returns a fresh valid lexer, so every instance has `0 <= lowerBound < upperBound` |
| TextFxAbnf.Attempts | src/TextFx.ABNF/RepetitionLexer.cs:53-62 | at most `upperBound` attempts. The run is cut short by a failure exactly when fewer than `upperBound` elements matched |
| TextFxAbnf.AttemptsReadPrefix | src/TextFx.ABNF/RepetitionLexer.cs:53-62 | the matched texts, concatenated, are a prefix of the input. Nothing is left read when no attempt failed |
| TextFxAbnf.AttemptsEndWhereRead | src/TextFx.ABNF/RepetitionLexer.cs:53-62 | the run leaves the scanner just past its matches and whatever its failed attempt read |
| TextFxAbnf.AttemptsAreSuccessiveMatches | src/TextFx.ABNF/RepetitionLexer.cs:55-61 | element `k` is what the rule matches right after elements `0..k-1`, given element `k-1` as previous element (none for the first) |
| TextFxAbnf.AttemptsStopAtFailure | src/TextFx.ABNF/RepetitionLexer.cs:55-59 | a stopped run ends with the rule failing, right after all the matches, with exactly the error the run reports; no attempt follows it |
| TextFxAbnf.RestoringLeavesNothing | src/TextFx.ABNF/RepetitionLexer.cs:55-59 | over a restoring lexer the failed attempt leaves nothing read |
| TextFxAbnf.Repeat | src/TextFx.ABNF/RepetitionLexer.cs:64-82 | an accepted read has `lowerBound <= count <= upperBound` and texts that prefix the input. A rejected read carries the pre-read context, the fixed message and no rule name. Its inner error is exactly the failure that stopped the run, which is present when `lowerBound <= upperBound` |
| TextFxAbnf.RepeatAcceptsIff | src/TextFx.ABNF/RepetitionLexer.cs:64-67 | success exactly when at least `lowerBound` attempts matched, including zero matches when `lowerBound == 0` |
| TextFxAbnf.RepeatRejectedRestores | src/TextFx.ABNF/RepetitionLexer.cs:69-75 | over a restoring lexer a rejected read leaves the scanner exactly where it started |
| TextFxAbnf.RepeatAcceptedConsumes | src/TextFx.ABNF/RepetitionLexer.cs:64-67 | over a restoring lexer an accepted read consumed exactly the concatenated texts of its elements |
| TextFxAbnf.Chain | src/TextFx.ABNF/RepetitionLexer.cs:50-55 | attempt 0 is given null and attempt `k` is given element `k-1` |
| TextFxAbnf.RepetitionLexer.Read | src/TextFx.ABNF/RepetitionLexer.cs:41-83 | a null scanner gives `ArgumentNull("scanner")` with nothing changed. Otherwise the result and the final scanner state are those of `Repeat`. A success is a fresh `Repetition` whose elements are the run's matches, whose context is the pre-read context and whose text is their concatenation. The inner lexer was called `AttemptCount` times: first with null, then with each matched element in turn |
| TextFxAbnf.RepetitionLexer.ReadElements | src/TextFx.ABNF/RepetitionLexer.cs:49-62 | the loop's elements, last result and scanner state are the run of `Attempts`, and the call log is `Chain` |
| TextFxAbnf.RepetitionLexer.ReadNext | src/TextFx.ABNF/RepetitionLexer.cs:55-61 | one inner call either completes the run with its failure or extends the elements by the new match, keeping the loop's state |
| TextFxAbnf.UnreadAll | src/TextFx.ABNF/RepetitionLexer.cs:69-75 | unreading the elements last first puts back their concatenated text |
| TextFxAbnfExamples.RepeatThree | src/TextFx.ABNF/RepetitionLexer.cs:53-67 | `2*4"x"` on `"xxx"` accepts 3 elements and reaches the end of the input |
| TextFxAbnfExamples.RepeatOne | src/TextFx.ABNF/RepetitionLexer.cs:64-82 | `2*4"x"` on `"x"` is rejected, with the scanner back at offset 0 and the inner error of the failed second attempt |
| TextFxAbnfExamples.RepeatFive | src/TextFx.ABNF/RepetitionLexer.cs:53-67 | `2*4"x"` on `"xxxxx"` accepts 4 elements and leaves one `'x'` unread |
| Text.UnreadAfterAdvance | src/TextFx.ABNF/RepetitionLexer.cs:71-74 | putting back what was just read restores the scanner state |
| Text.AdvanceAfterUnread | src/Text.Scanning/src/Lexer.cs:51-58 | reading back what was just put back restores the scanner state |
| Text.PushedBackIsUnread | src/Text.Scanning/src/Lexer.cs:54-57 | pushing symbols back one at a time, last first, is unreading the whole text |
| TextFx.RuleLexer.ReadElement | src/TextFx/ILexer.cs:13 | the scanner advances by what the rule consumed. Success exactly when the rule matched; a failure carries the rule's error. A success is a fresh terminal whose text is the input read and whose context is the pre-read context. The call is logged |
| TextScanning.RuleNameErrorAsWritten | src/Text.Scanning/src/Lexer.cs:24-37 | the constructor's checks as written: a null or empty name, then a non-letter first symbol, then the third condition as the code has it |
| TextScanning.AsWrittenRejectsEveryName | src/Text.Scanning/src/Lexer.cs:29-37 | as written, every rule name is rejected |
| TextScanning.RuleNameError | src/Text.Scanning/src/Lexer.cs:24-37 | no error exactly for a non-null name that is a letter followed by letters, digits and hyphens. Otherwise it returns the first failing check's exception; a third-check error implies an offending symbol exists |
| TextScanning.CharNameShowsDifference | src/Text.Scanning/src/Lexer.cs:34-36 | `"CHAR"` is rejected as written and accepted by the rule the message states |
| TextScanning.Lexer.Create | src/Text.Scanning/src/Lexer.cs:22-40 | fails exactly with the checks' error. Otherwise it returns a lexer that stores the given name |
| TextScanning.Lexer.RuleName | src/Text.Scanning/src/Lexer.cs:42-48 | the stored name, which is a valid rule name |
| TextScanning.Lexer.PutBack | src/Text.Scanning/src/Lexer.cs:51-58 | pushing `data[i]` back for `i` from the last index down to 0 leaves the scanner as if `data` were unread |
| TextScanning.PutBackUndoesRead | src/Text.Scanning/src/Lexer.cs:51-58 | putting back an element just read restores the scanner state |
| TextScanning.Lexer.Default | src/Text.Scanning/src/Lexer.cs:78-82 | false, and no element |
| TextScanning.Lexer.TryRead | src/Text.Scanning/src/Lexer.cs:73 | true exactly when the recognizer recognizes an element, which is the text read at the pre-read context. Otherwise the outcome is `Default()` |
| TextScanning.Lexer.Read | src/Text.Scanning/src/Lexer.cs:61-70 | the element exactly when `TryRead` finds one. Otherwise it is a syntax error at the context where `TryRead` left the scanner, with a message naming the rule |
| TextScanning.ExpectedMessage | src/Text.Scanning/src/Lexer.cs:69 | the message holds the rule name, quoted, after its fixed prefix |
| TextFxAbnfCore.CharacterLexer.Create | src/TextFx.ABNF/Core/CHAR/CharacterLexer.cs:21-29 | fails exactly for a null inner lexer, with `ArgumentNull("innerLexer")` |
| TextFxAbnfCore.CharacterLexer.Read | src/TextFx.ABNF/Core/CHAR/CharacterLexer.cs:31-54 | the inner lexer is called once, with null. The scanner is left where the inner lexer left it. A failure is `"Expected 'CHAR'."` for rule `CHAR` at the pre-read context, chaining the inner error. A success is a fresh `Character` around the inner terminal, linked both ways to a non-null previous element. Without a previous element no link changes, and on failure the previous element is unchanged |
| TextFx.RestoringFailureKeepsState | src/TextFx.ABNF/Core/CHAR/CharacterLexer.cs:34-44 | a failure of a restoring inner lexer leaves the scanner as it was, so a wrapper with no put-back of its own restores it too |
| TxtAbnfCore.CreateAlphaLexer | src/Txt.ABNF/Core/ALPHA/AlphaLexer.cs:24-31 | fails exactly for a null inner lexer, with `ArgumentNull("innerLexer")` |
| TxtAbnfCore.AlphaLexer.Read | src/Txt.ABNF/Core/ALPHA/AlphaLexer.cs:33-46 | a null scanner throws `ArgumentNull("scanner")` before any read. Otherwise the scanner is where the inner lexer left it, and the read succeeds exactly when the inner read does |
| TxtAbnfCore.AlphaWrapsAlternation | src/Txt.ABNF/Core/ALPHA/AlphaLexer.cs:41-44 | a success is an `Alpha` around the inner alternation |
| TxtAbnfCore.AlphaErrorFromContextBefore | src/Txt.ABNF/Core/ALPHA/AlphaLexer.cs:39-45 | a failure is `FromReadResult` of the inner result and the context taken before the inner read |
| TxtAbnfCore.AlphaFailureRestores | src/Txt.ABNF/Core/ALPHA/AlphaLexer.cs:39-45 | over a restoring inner lexer a failed read leaves the scanner where it was |

## Left out

- Line and column: a context is only the scanner's offset. The library's scanner implementation and its text sources are not modelled, only their interface as `TextScanner`; so neither is how they count lines.
- The scanner is modelled as remaining input plus offset. Its put-back buffer, disposal (`ObjectDisposedException`) and thread-safety are left out.
- `char.IsLetter` and `char.IsLetterOrDigit` are modelled on ASCII only; Unicode classification is left out. The difference shown in the findings needs only that `'-'` is not a letter.
- The constructors of `Character`, `Repetition` and `Alpha` are not part of this model; the element kinds themselves are modelled as `Shape.Character`, `Shape.Repetition` and `Alpha`. The model assumes that a `Character` has its terminal's text and context, and that a `Repetition` has the concatenated text of its elements.
- Inner lexers are not real subclasses with dynamic dispatch. `RuleLexer` stands only for inner lexers whose behaviour the function `rule` describes, under the limits stated above. `CharacterLexer`'s inner `ILexer<Terminal>.Read` is modelled with the same `ReadElement`.
- TextFxAbnf.RepetitionLexer.Read: the repeating lexer cannot change the element it is given. Sibling links made inside a repetition are therefore not modelled, for example those of a repetition over `CHAR`, where each attempt links the previous element. Neither is a repeating element whose text differs from the input it consumed.
- The TryRead-generation lexers a subclass provides are modelled only through `Recognizer`.
- Exceptions are modelled as `Err` results, and a programming error as a `requires` on the constructors.
- TextFxAbnfCore.CharacterLexer.Read, TextScanning.Lexer.PutBack, TextScanning.Lexer.Read: their scanner (and `PutBack`'s element) have non-null types, so the null case is excluded by type. These methods have no null check of their own: a null argument gives a `NullReferenceException` at its first use, and that is not modelled. `SyntaxErrorException` is modelled as its context and message; its formatting beyond that is left out.
- `SyntaxError.FromReadResult` is not part of this model. `AlphaLexer.Read` takes it as a function parameter, and the lemmas state the error in terms of it.
- Factories, the catalog lexers built on base classes that are not part of this model, and the test scaffolding are left out.
- TextFxAbnf.Repeat: on rejection it always chains the terminating attempt's error. There is no generic "insufficient repetitions" error for zero matches, because the code has none: when fewer than `lowerBound < upperBound` elements matched, the loop must have ended on a failure.
- TextScanning.Lexer.Create: it applies the rule-name check the constructor's message states (`RuleNameError`), not the check as written, which would reject every name (see Findings).
- TextFxAbnf.RepetitionLexer.Read: the method's `previousElementOrNull` argument is accepted and not used, as in the code. Its `modifies` clause leaves that element unchanged.

## Findings

| source | as written | input that shows it | evidently intended | confidence | as-written member | corrected member |
|---|---|---|---|---|---|---|
| src/Text.Scanning/src/Lexer.cs:34 | throws when any character is not a letter or digit OR is not `'-'` | the rule name `"CHAR"`: `'C'` is not `'-'`, so the constructor throws; every name passing the first-letter check is rejected the same way | throw only when a character is neither a letter or digit nor `'-'`, the rule the exception message on line 36 states | not executed; follows from the condition's text | TextScanning.AsWrittenRejectsEveryName | TextScanning.RuleNameError |
