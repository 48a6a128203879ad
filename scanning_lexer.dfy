/**
 * The lexer base class of the Text.Scanning generation of the library: rule
 * name validation, `PutBack`, and `Read` as the throwing form of `TryRead`.
 */
module TextScanning {
  import opened Wrappers
  import opened Text

  /** `char.IsLetter`, restricted to the ASCII letters. */
  predicate IsLetter(c: char)
  {
    'A' <= c <= 'Z' || 'a' <= c <= 'z'
  }

  /** `char.IsLetterOrDigit`, restricted to ASCII. */
  predicate IsLetterOrDigit(c: char)
  {
    IsLetter(c) || '0' <= c <= '9'
  }

  /** A rule name as the constructor's messages state it: a letter, then letters, digits and hyphens. */
  predicate IsRuleName(name: string)
  {
    && |name| > 0
    && IsLetter(name[0])
    && forall i :: 0 <= i < |name| ==> IsLetterOrDigit(name[i]) || name[i] == '-'
  }

  const NullOrEmptyMessage := "Precondition failed: !string.IsNullOrEmpty(ruleName)"
  const FirstLetterMessage := "Precondition failed: char.IsLetter(ruleName, 0)"
  const CharactersMessage := "Precondition failed: ruleName.ToCharArray().All(c => char.IsLetterOrDigit(c) || c == '-')"

  /**
   * The argument checks of the constructor as written: the third check fires
   * for any character that is not a letter or digit OR is not a hyphen.
   */
  function RuleNameErrorAsWritten(ruleName: Option<string>): (r: Option<ArgumentError>)
    ensures ruleName.None? || ruleName.value == [] ==> r == Some(InvalidArgument(NullOrEmptyMessage, Some("ruleName")))
    ensures ruleName.Some? && ruleName.value != [] && !IsLetter(ruleName.value[0]) ==> r == Some(InvalidArgument(FirstLetterMessage, None))
    ensures ruleName.Some? && ruleName.value != [] && IsLetter(ruleName.value[0]) ==> r == Some(InvalidArgument(CharactersMessage, None))
  {
    if ruleName.None? || ruleName.value == [] then Some(InvalidArgument(NullOrEmptyMessage, Some("ruleName")))
    else if !IsLetter(ruleName.value[0]) then Some(InvalidArgument(FirstLetterMessage, None))
    else if exists i :: 0 <= i < |ruleName.value| && (!IsLetterOrDigit(ruleName.value[i]) || ruleName.value[i] != '-') then
      Some(InvalidArgument(CharactersMessage, None))
    else None
  }

  /** As written, the constructor accepts no rule name at all: a first letter is never a hyphen. */
  lemma AsWrittenRejectsEveryName(ruleName: Option<string>)
    ensures RuleNameErrorAsWritten(ruleName).Some?
  {
    if ruleName.Some? && ruleName.value != [] && IsLetter(ruleName.value[0]) {
      assert ruleName.value[0] != '-';
    }
  }

  /** The argument checks of the constructor, with the third check as its message states it. */
  function RuleNameError(ruleName: Option<string>): (r: Option<ArgumentError>)
    ensures r.None? <==> ruleName.Some? && IsRuleName(ruleName.value)
    ensures ruleName.None? || ruleName.value == [] ==> r == Some(InvalidArgument(NullOrEmptyMessage, Some("ruleName")))
    ensures ruleName.Some? && ruleName.value != [] && !IsLetter(ruleName.value[0]) ==> r == Some(InvalidArgument(FirstLetterMessage, None))
    ensures ruleName.Some? && ruleName.value != [] && IsLetter(ruleName.value[0]) && r.Some? ==>
      && r == Some(InvalidArgument(CharactersMessage, None))
      && exists i :: 0 <= i < |ruleName.value| && !IsLetterOrDigit(ruleName.value[i]) && ruleName.value[i] != '-'
  {
    if ruleName.None? || ruleName.value == [] then Some(InvalidArgument(NullOrEmptyMessage, Some("ruleName")))
    else if !IsLetter(ruleName.value[0]) then Some(InvalidArgument(FirstLetterMessage, None))
    else if exists i :: 0 <= i < |ruleName.value| && !(IsLetterOrDigit(ruleName.value[i]) || ruleName.value[i] == '-') then
      Some(InvalidArgument(CharactersMessage, None))
    else None
  }

  /** The rule name "CHAR" shows the difference: the checks as written reject it, the stated rule accepts it. */
  lemma CharNameShowsDifference()
    ensures RuleNameErrorAsWritten(Some("CHAR")).Some?
    ensures RuleNameError(Some("CHAR")).None?
  {
    AsWrittenRejectsEveryName(Some("CHAR"));
    assert IsRuleName("CHAR");
  }

  /**
   * What the element-specific `TryRead` of a lexer does from a scanner state:
   * it recognizes an element of `length` symbols, or fails having read
   * `consumed` symbols (zero for one that puts back what it read).
   */
  datatype Recognition = Recognized(length: nat) | NotRecognized(consumed: nat) {
    function Consumed(): nat {
      if Recognized? then length else consumed
    }
  }

  type Recognizer = f: ScanState -> Recognition | forall s :: f(s).Consumed() <= |s.remaining|
    witness (s: ScanState) => NotRecognized(0)

  /** An element of this generation: its symbols and where they were read. */
  datatype ScannedElement = ScannedElement(data: string, context: TextContext)

  /** The exception `Read` throws: the scanner's context and a message. */
  datatype SyntaxErrorException = SyntaxErrorException(context: TextContext, message: string)

  const ExpectedPrefix := "Unexpected symbol. Expected element: '"

  /** The message of the syntax error for rule `ruleName`, which names the rule, quoted. */
  function ExpectedMessage(ruleName: string): (message: string)
    ensures |message| == |ExpectedPrefix| + |ruleName| + 2
    ensures message[..|ExpectedPrefix|] == ExpectedPrefix
    ensures message[|ExpectedPrefix|..|ExpectedPrefix| + |ruleName|] == ruleName
  {
    ExpectedPrefix + ruleName + "'."
  }

  /** A lexer for the rule `ruleName`, whose own `TryRead` behaves as `recognizer`. */
  class Lexer {
    const ruleName: string
    const recognizer: Recognizer

    ghost predicate Valid()
    {
      IsRuleName(ruleName)
    }

    constructor (ruleName: string, recognizer: Recognizer)
      requires RuleNameError(Some(ruleName)).None?
      ensures Valid()
      ensures this.ruleName == ruleName && this.recognizer == recognizer
    {
      this.ruleName := ruleName;
      this.recognizer := recognizer;
    }

    /** The constructor: either the exception its checks throw, or a lexer. */
    static method Create(ruleName: Option<string>, recognizer: Recognizer) returns (r: Result<Lexer, ArgumentError>)
      ensures r.Err? <==> RuleNameError(ruleName).Some?
      ensures r.Err? ==> Some(r.error) == RuleNameError(ruleName)
      ensures r.Ok? ==> fresh(r.value) && r.value.Valid() && Some(r.value.ruleName) == ruleName && r.value.recognizer == recognizer
    {
      var e := RuleNameError(ruleName);
      if e.Some? {
        return Err(e.value);
      }
      var lexer := new Lexer(ruleName.value, recognizer);
      return Ok(lexer);
    }

    /** The name stored by the constructor, which is a valid rule name. */
    function RuleName(): (name: string)
      requires Valid()
      ensures IsRuleName(name)
    {
      ruleName
    }

    /** Pushes the symbols of `element` back, last symbol first. */
    method PutBack(scanner: TextScanner, element: ScannedElement)
      modifies scanner
      ensures scanner.State() == old(scanner.State()).Unread(element.data)
    {
      var data := element.data;
      ghost var start := scanner.State();
      for i := |data| downto 0
        invariant scanner.State() == start.Unread(data[i..])
      {
        scanner.PutBack(data[i]);
        UnreadUnread(start, [data[i]], data[i + 1..]);
        assert [data[i]] + data[i + 1..] == data[i..];
      }
      assert data[0..] == data;
    }

    /** The failure outcome of `TryRead`: false, and no element. */
    static function Default(): (r: (bool, Option<ScannedElement>))
      ensures !r.0 && r.1.None?
    {
      (false, None)
    }

    /** `TryRead`, as this lexer's recognizer describes it. */
    method TryRead(scanner: TextScanner) returns (found: bool, element: Option<ScannedElement>)
      modifies scanner
      ensures var o := recognizer(old(scanner.State()));
        && scanner.State() == old(scanner.State()).Advance(o.Consumed())
        && (found <==> o.Recognized?)
        && (found ==> element == Some(ScannedElement(old(scanner.remaining)[..o.length], old(scanner.State()).Context())))
        && (!found ==> (found, element) == Default())
    {
      var context := scanner.GetContext();
      var o := recognizer(scanner.State());
      var data := scanner.Consume(o.Consumed());
      if o.Recognized? {
        return true, Some(ScannedElement(data, context));
      }
      var d := Default();
      found, element := d.0, d.1;
    }

    /** `Read`: the element `TryRead` found, or a syntax error at the context where `TryRead` left the scanner. */
    method Read(scanner: TextScanner) returns (r: Result<ScannedElement, SyntaxErrorException>)
      modifies scanner
      ensures var o := recognizer(old(scanner.State()));
        && scanner.State() == old(scanner.State()).Advance(o.Consumed())
        && (r.Ok? <==> o.Recognized?)
        && (r.Ok? ==> r.value == ScannedElement(old(scanner.remaining)[..o.length], old(scanner.State()).Context()))
        && (r.Err? ==> r.error == SyntaxErrorException(scanner.State().Context(), ExpectedMessage(ruleName)))
    {
      var found, element := TryRead(scanner);
      if found {
        return Ok(element.value);
      }
      var context := scanner.GetContext();
      return Err(SyntaxErrorException(context, ExpectedMessage(ruleName)));
    }
  }

  /** What `Read` returns, put back with `PutBack`, leaves the scanner where `Read` found it. */
  lemma PutBackUndoesRead(recognizer: Recognizer, s: ScanState)
    requires recognizer(s).Recognized?
    ensures var n := recognizer(s).length;
      s.Advance(n).Unread(s.remaining[..n]) == s
  {
    UnreadAfterAdvance(s, recognizer(s).length);
  }
}
