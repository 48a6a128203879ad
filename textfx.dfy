/**
 * The element, read-result and lexer vocabulary of the ReadResult-based
 * generation of the library: elements are heap objects with sibling links,
 * and a lexer returns either an element or a syntax error.
 */
module TextFx {
  import opened Wrappers
  import opened Text

  /** What an element is made of: a leaf, or a wrapper around the elements it was built from. */
  datatype Shape =
    | Terminal
    | Character(terminal: Element)
    | Repetition(elements: seq<Element>)

  /** A matched span of text, its starting context, and links to its siblings. */
  class Element {
    const text: seq<char>
    const context: TextContext
    const shape: Shape
    var previousElement: Element?
    var nextElement: Element?

    constructor (text: seq<char>, context: TextContext, shape: Shape)
      ensures this.text == text && this.context == context && this.shape == shape
      ensures previousElement == null && nextElement == null
    {
      this.text := text;
      this.context := context;
      this.shape := shape;
      previousElement := null;
      nextElement := null;
    }
  }

  /** The text of an optional previous element, as a rule sees it. */
  function TextOf(element: Element?): (t: Option<seq<char>>)
    ensures t.None? <==> element == null
  {
    if element == null then None else Some(element.text)
  }

  /** The texts of a list of elements, in order. */
  function Texts(elements: seq<Element>): (texts: seq<seq<char>>)
    ensures |texts| == |elements|
    ensures forall k :: 0 <= k < |elements| ==> texts[k] == elements[k].text
  {
    seq(|elements|, k requires 0 <= k < |elements| => elements[k].text)
  }

  lemma TextsAppend(elements: seq<Element>, e: Element)
    ensures Texts(elements + [e]) == Texts(elements) + [e.text]
  {
  }

  /** The outcome of a lexer: an element, or a syntax error, never both. */
  datatype ReadResult = Success(element: Element) | Failure(error: SyntaxError)

  /** What a rule is shown: the scanner's state and the text of the previous element, if any. */
  datatype Input = Input(state: ScanState, previous: Option<seq<char>>)

  /**
   * What a rule decides: that the next `length` symbols form its element, or that it
   * fails with an error after leaving `consumed` symbols read.
   */
  datatype Outcome = Matched(length: nat) | Failed(error: SyntaxError, consumed: nat) {
    function Consumed(): nat {
      match this
      case Matched(n) => n
      case Failed(_, n) => n
    }
  }

  /** A recognition rule: it never reads past the end of the input. */
  type Rule = f: Input -> Outcome | forall i :: f(i).Consumed() <= |i.state.remaining|
    witness (i: Input) => Failed(SyntaxError([], None, i.state.Context(), None), 0)

  /** A rule that leaves the scanner where it was whenever it fails. */
  ghost predicate Restoring(rule: Rule)
  {
    forall i :: rule(i).Failed? ==> rule(i).consumed == 0
  }

  /** A failure of a restoring rule leaves the state as it was. */
  lemma RestoringFailureKeepsState(rule: Rule, i: Input)
    requires Restoring(rule) && rule(i).Failed?
    ensures i.state.Advance(rule(i).Consumed()) == i.state
  {
    assert i.state.remaining[0..] == i.state.remaining;
  }

  /**
   * A lexer of the library's ILexer interface whose behaviour is the rule `rule`.
   * `previousArguments` records the previous element handed to each call.
   */
  class RuleLexer {
    const rule: Rule
    ghost var previousArguments: seq<Element?>

    constructor (rule: Rule)
      ensures this.rule == rule && previousArguments == []
    {
      this.rule := rule;
      previousArguments := [];
    }

    /**
     * Reads one element. On success the scanner has advanced past exactly the
     * element's text; on failure it has advanced by what the rule consumed.
     */
    method ReadElement(scanner: TextScanner, previousElementOrNull: Element?) returns (r: ReadResult)
      modifies scanner, this`previousArguments
      ensures previousArguments == old(previousArguments) + [previousElementOrNull]
      ensures var o := rule(Input(old(scanner.State()), TextOf(previousElementOrNull)));
        && scanner.State() == old(scanner.State()).Advance(o.Consumed())
        && (r.Success? <==> o.Matched?)
        && (o.Failed? ==> r.error == o.error)
      ensures r.Success? ==>
        && rule(Input(old(scanner.State()), TextOf(previousElementOrNull))) == Matched(|r.element.text|)
        && r.element.text == old(scanner.remaining)[..|r.element.text|]
        && fresh(r.element)
        && r.element.text + scanner.remaining == old(scanner.remaining)
        && r.element.context == old(scanner.State()).Context()
        && r.element.shape == Terminal
        && r.element.previousElement == null && r.element.nextElement == null
    {
      previousArguments := previousArguments + [previousElementOrNull];
      var context := scanner.GetContext();
      var o := rule(Input(scanner.State(), TextOf(previousElementOrNull)));
      var text := scanner.Consume(o.Consumed());
      match o
      case Matched(_) =>
        var element := new Element(text, context, Terminal);
        r := Success(element);
      case Failed(e, _) =>
        r := Failure(e);
    }
  }
}
