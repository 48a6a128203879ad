/**
 * Shared vocabulary of the lexers: text contexts, syntax errors, argument errors
 * and the text scanner that every lexer reads from and puts symbols back into.
 */
module Text {
  import opened Wrappers

  /** A position captured from a scanner (ITextContext). Only the offset is modelled. */
  datatype TextContext = TextContext(offset: int)

  /** A snapshot of a scanner: the symbols not yet read and the number of symbols read. */
  datatype ScanState = ScanState(remaining: seq<char>, offset: int) {

    function Context(): TextContext {
      TextContext(offset)
    }

    /** The state after reading the next `n` symbols. */
    function Advance(n: nat): ScanState
      requires n <= |remaining|
    {
      ScanState(remaining[n..], offset + n)
    }

    /** The state after the symbols `text` are put back, last symbol first. */
    function Unread(text: seq<char>): ScanState
    {
      ScanState(text + remaining, offset - |text|)
    }
  }

  /** Putting back what was just read restores the state: unreading is the inverse of reading. */
  lemma UnreadAfterAdvance(s: ScanState, n: nat)
    requires n <= |s.remaining|
    ensures s.Advance(n).Unread(s.remaining[..n]) == s
  {
    assert s.remaining[..n] + s.remaining[n..] == s.remaining;
  }

  /** Reading back what was just put back restores the state: reading is the inverse of unreading. */
  lemma AdvanceAfterUnread(s: ScanState, text: seq<char>)
    ensures |text| <= |s.Unread(text).remaining|
    ensures s.Unread(text).Advance(|text|) == s
  {
    assert (text + s.remaining)[|text|..] == s.remaining;
  }

  /** Reading `a` symbols and then `b` more is reading `a + b` at once. */
  lemma AdvanceAdvance(s: ScanState, a: nat, b: nat)
    requires a + b <= |s.remaining|
    ensures s.Advance(a).Advance(b) == s.Advance(a + b)
  {
    assert s.remaining[a..][b..] == s.remaining[a + b..];
  }

  /** Unreading `b` and then `a` is unreading `a + b` at once. */
  lemma UnreadUnread(s: ScanState, a: seq<char>, b: seq<char>)
    ensures s.Unread(b).Unread(a) == s.Unread(a + b)
  {
    assert a + (b + s.remaining) == (a + b) + s.remaining;
  }

  /** A diagnostic whose optional inner error links it to the error that caused it. */
  datatype SyntaxError = SyntaxError(
    message: string,
    ruleName: Option<string>,
    context: TextContext,
    innerError: Option<SyntaxError>)

  /** The argument exceptions thrown by constructors and entry points. */
  datatype ArgumentError =
    | ArgumentNull(paramName: string)
    | ArgumentOutOfRange(paramName: string, message: string)
    | InvalidArgument(message: string, argumentName: Option<string>)

  /** The text of a sequence of elements, one after the other. */
  function Concat(texts: seq<seq<char>>): seq<char>
  {
    if texts == [] then [] else texts[0] + Concat(texts[1..])
  }

  /**
   * The pushing back of `text` one symbol at a time, last symbol first, onto a
   * stack whose top is the front of `rest`.
   */
  function PushedBack(text: seq<char>, rest: seq<char>): seq<char>
    decreases |text|
  {
    if text == [] then rest
    else PushedBack(text[..|text| - 1], [text[|text| - 1]] + rest)
  }

  /** Pushing back every symbol, last first, is the same as unreading the whole text. */
  lemma {:induction false} PushedBackIsUnread(text: seq<char>, rest: seq<char>)
    ensures PushedBack(text, rest) == text + rest
    decreases |text|
  {
    if text != [] {
      var n := |text| - 1;
      PushedBackIsUnread(text[..n], [text[n]] + rest);
      assert text[..n] + ([text[n]] + rest) == text + rest by {
        assert text == text[..n] + [text[n]];
      }
    }
  }

  /**
   * A text scanner. Reading takes symbols from the front of `remaining`;
   * putting back pushes them onto the front again, like a stack.
   */
  class TextScanner {
    var remaining: seq<char>
    var offset: int

    constructor (text: seq<char>)
      ensures remaining == text && offset == 0
    {
      remaining := text;
      offset := 0;
    }

    function State(): ScanState
      reads this
    {
      ScanState(remaining, offset)
    }

    /** A snapshot of the current position; taking it changes nothing. */
    method GetContext() returns (context: TextContext)
      ensures context == State().Context()
      ensures context.offset == offset
    {
      context := TextContext(offset);
    }

    /** Reads the next `n` symbols. */
    method Consume(n: nat) returns (text: seq<char>)
      requires n <= |remaining|
      modifies this
      ensures old(remaining) == text + remaining
      ensures |text| == n
      ensures State() == old(State()).Advance(n)
    {
      text := remaining[..n];
      remaining := remaining[n..];
      offset := offset + n;
    }

    /** Pushes one symbol back onto the front of the input. */
    method PutBack(c: char)
      modifies this
      ensures State() == old(State()).Unread([c])
    {
      remaining := [c] + remaining;
      offset := offset - 1;
    }

    /** Puts a whole text back, as if each of its symbols were put back last first. */
    method Unread(text: seq<char>)
      modifies this
      ensures State() == old(State()).Unread(text)
      ensures remaining == PushedBack(text, old(remaining))
    {
      PushedBackIsUnread(text, remaining);
      remaining := text + remaining;
      offset := offset - |text|;
    }
  }
}
