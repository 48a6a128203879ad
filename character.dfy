/** The core rule `CHAR` of ABNF (appendix B.1 of RFC 5234), as a wrapper around a terminal lexer. */
module TextFxAbnfCore {
  import opened Wrappers
  import opened Text
  import opened TextFx

  const CharacterRuleName := "CHAR"
  const CharacterFailureMessage := "Expected 'CHAR'."

  /** A lexer for `CHAR` that delegates the matching of `%x01-7F` to `innerLexer`. */
  class CharacterLexer {
    const innerLexer: RuleLexer

    constructor (innerLexer: RuleLexer)
      ensures this.innerLexer == innerLexer
    {
      this.innerLexer := innerLexer;
    }

    /** The constructor: `ArgumentNullException` for a null inner lexer. */
    static method Create(innerLexer: RuleLexer?) returns (r: Result<CharacterLexer, ArgumentError>)
      ensures innerLexer == null <==> r.Err?
      ensures r.Err? ==> r.error == ArgumentNull("innerLexer")
      ensures r.Ok? ==> fresh(r.value) && r.value.innerLexer == innerLexer
    {
      if innerLexer == null {
        return Err(ArgumentNull("innerLexer"));
      }
      var lexer := new CharacterLexer(innerLexer);
      return Ok(lexer);
    }

    /**
     * One call of the inner lexer, shown no previous element. A failure is
     * wrapped in a `CHAR` error at the context before the call; a success in a
     * `Character` element, linked after `previousElementOrNull` when there is one.
     */
    method Read(scanner: TextScanner, previousElementOrNull: Element?) returns (r: ReadResult)
      modifies scanner, innerLexer`previousArguments, previousElementOrNull
      ensures innerLexer.previousArguments == old(innerLexer.previousArguments) + [null]
      ensures var o := innerLexer.rule(Input(old(scanner.State()), None));
        && scanner.State() == old(scanner.State()).Advance(o.Consumed())
        && (r.Success? <==> o.Matched?)
        && (r.Failure? ==> r.error == SyntaxError(CharacterFailureMessage, Some(CharacterRuleName), old(scanner.State()).Context(), Some(o.error)))
      ensures r.Success? ==> fresh(r.element) && r.element.shape.Character?
      ensures r.Success? && r.element.shape.Character? ==>
        var terminal := r.element.shape.terminal;
        && terminal.shape == Terminal
        && innerLexer.rule(Input(old(scanner.State()), None)) == Matched(|terminal.text|)
        && terminal.text <= old(scanner.remaining)
        && r.element.text == terminal.text
        && r.element.context == terminal.context == old(scanner.State()).Context()
        && r.element.nextElement == null
        && r.element.previousElement == previousElementOrNull
      ensures r.Success? && previousElementOrNull != null ==>
        && previousElementOrNull.nextElement == r.element
        && previousElementOrNull.previousElement == old(previousElementOrNull.previousElement)
      ensures r.Failure? && previousElementOrNull != null ==>
        && previousElementOrNull.nextElement == old(previousElementOrNull.nextElement)
        && previousElementOrNull.previousElement == old(previousElementOrNull.previousElement)
    {
      var context := scanner.GetContext();
      var result := innerLexer.ReadElement(scanner, null);
      if result.Failure? {
        return Failure(SyntaxError(CharacterFailureMessage, Some(CharacterRuleName), context, Some(result.error)));
      }
      var terminal := result.element;
      var element := new Element(terminal.text, terminal.context, Character(terminal));
      if previousElementOrNull != null {
        element.previousElement := previousElementOrNull;
        previousElementOrNull.nextElement := element;
      }
      return Success(element);
    }
  }
}
