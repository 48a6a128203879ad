/**
 * The core rule `ALPHA` of ABNF (appendix B.1 of RFC 5234) in the Txt
 * generation of the library, where a lexer reads from a scanner with no
 * previous element. All scanner changes happen in the inner lexer, so the
 * model passes scanner states along as values.
 */
module TxtAbnfCore {
  import opened Wrappers
  import opened Text

  /** The element the inner `%x41-5A / %x61-7A` lexer returns. */
  datatype Alternation = Alternation(text: seq<char>, context: TextContext)

  /** An `ALPHA` element, wrapping the alternation it was read as. */
  datatype Alpha = Alpha(alternation: Alternation)

  /** The outcome of a lexer of this generation. */
  datatype ReadResult<+T> = Success(element: T) | Failure(error: SyntaxError)

  /** A lexer for alternations: the result, and the scanner state it leaves. */
  type AlternationLexer = ScanState -> (ReadResult<Alternation>, ScanState)

  /** `SyntaxError.FromReadResult`: the error made from a failed result and a context. */
  type ErrorFromResult = (ReadResult<Alternation>, TextContext) -> SyntaxError

  /** A lexer whose alternation lexer restores the scanner whenever it fails. */
  ghost predicate Restoring(innerLexer: AlternationLexer)
  {
    forall s :: innerLexer(s).0.Failure? ==> innerLexer(s).1 == s
  }

  datatype AlphaLexer = AlphaLexer(innerLexer: AlternationLexer) {
    /**
     * `Read`: an `ArgumentNullException` for a null scanner; otherwise one call
     * of the inner lexer, whose success is wrapped in an `Alpha` and whose
     * failure becomes an error made at the context before the call.
     */
    function Read(scanner: Option<ScanState>, fromReadResult: ErrorFromResult)
      : (r: Result<(ReadResult<Alpha>, ScanState), ArgumentError>)
      ensures r.Err? <==> scanner.None?
      ensures r.Err? ==> r.error == ArgumentNull("scanner")
      ensures r.Ok? ==>
        var (inner, after) := innerLexer(scanner.value);
        && r.value.1 == after
        && (r.value.0.Success? <==> inner.Success?)
    {
      if scanner.None? then Err(ArgumentNull("scanner"))
      else
        var context := scanner.value.Context();
        var (result, after) := innerLexer(scanner.value);
        if result.Success? then Ok((Success(Alpha(result.element)), after))
        else Ok((Failure(fromReadResult(result, context)), after))
    }
  }

  /** The constructor: `ArgumentNullException` for a null inner lexer. */
  function CreateAlphaLexer(innerLexer: Option<AlternationLexer>): (r: Result<AlphaLexer, ArgumentError>)
    ensures r.Err? <==> innerLexer.None?
    ensures r.Err? ==> r.error == ArgumentNull("innerLexer")
    ensures r.Ok? ==> r.value.innerLexer == innerLexer.value
  {
    if innerLexer.None? then Err(ArgumentNull("innerLexer")) else Ok(AlphaLexer(innerLexer.value))
  }

  /** A successful `ALPHA` read is the inner alternation, unchanged, with the scanner where the inner lexer left it. */
  lemma AlphaWrapsAlternation(lexer: AlphaLexer, s: ScanState, fromReadResult: ErrorFromResult)
    requires lexer.innerLexer(s).0.Success?
    ensures var r := lexer.Read(Some(s), fromReadResult);
      && r.Ok? && r.value.0.Success?
      && r.value.0.element.alternation == lexer.innerLexer(s).0.element
      && r.value.1 == lexer.innerLexer(s).1
  {
  }

  /** A failed `ALPHA` read carries the error made from the inner result and the context before the read. */
  lemma AlphaErrorFromContextBefore(lexer: AlphaLexer, s: ScanState, fromReadResult: ErrorFromResult)
    requires lexer.innerLexer(s).0.Failure?
    ensures var r := lexer.Read(Some(s), fromReadResult);
      && r.Ok? && r.value.0.Failure?
      && r.value.0.error == fromReadResult(lexer.innerLexer(s).0, s.Context())
  {
  }

  /** Over a restoring inner lexer, a failed `ALPHA` read leaves the scanner where it was. */
  lemma AlphaFailureRestores(lexer: AlphaLexer, s: ScanState, fromReadResult: ErrorFromResult)
    requires Restoring(lexer.innerLexer)
    ensures var r := lexer.Read(Some(s), fromReadResult);
      r.Ok? && r.value.0.Failure? ==> r.value.1 == s
  {
  }
}
