/**
 * The repetition rule `<a>*<b>element` of ABNF (section 3.6 of RFC 5234):
 * between `lowerBound` and `upperBound` occurrences of one element, both inclusive.
 */
module TextFxAbnf {
  import opened Wrappers
  import opened Text
  import opened TextFx

  /** The message of every repetition error. */
  const RepetitionFailureMessage := "A syntax error was found."

  /**
   * A run of attempts: the texts matched, in order; the error of the attempt
   * that stopped the run, if one did; what that failed attempt left read; and
   * the state the run ended in.
   */
  datatype Run = Run(texts: seq<seq<char>>, stop: Option<SyntaxError>, leftover: nat, final: ScanState)

  function Prepend(texts: seq<seq<char>>, run: Run): Run
  {
    Run(texts + run.texts, run.stop, run.leftover, run.final)
  }

  lemma PrependPrepend(texts: seq<seq<char>>, t: seq<char>, run: Run)
    ensures Prepend(texts, Prepend([t], run)) == Prepend(texts + [t], run)
  {
    assert texts + ([t] + run.texts) == (texts + [t]) + run.texts;
  }

  /** The number of times a run called the rule: once per match, and once more if a failure stopped it. */
  function AttemptCount(run: Run): nat
  {
    |run.texts| + if run.stop.Some? then 1 else 0
  }

  /**
   * At most `budget` attempts of `rule` from state `s`, each shown the text the
   * previous attempt matched, stopping at the first failure.
   */
  function Attempts(rule: Rule, s: ScanState, previous: Option<seq<char>>, budget: nat): (run: Run)
    ensures AttemptCount(run) <= budget
    ensures run.stop.None? <==> |run.texts| == budget
    decreases budget
  {
    if budget == 0 then Run([], None, 0, s)
    else match rule(Input(s, previous))
      case Failed(e, n) => Run([], Some(e), n, s.Advance(n))
      case Matched(n) =>
        var t := s.remaining[..n];
        Prepend([t], Attempts(rule, s.Advance(n), Some(t), budget - 1))
  }

  /** One match, then the rest of the run from where it left off. */
  lemma AttemptsOnMatch(rule: Rule, s: ScanState, previous: Option<seq<char>>, budget: nat)
    requires budget > 0 && rule(Input(s, previous)).Matched?
    ensures var n := rule(Input(s, previous)).length;
      Attempts(rule, s, previous, budget)
        == Prepend([s.remaining[..n]], Attempts(rule, s.Advance(n), Some(s.remaining[..n]), budget - 1))
  {
  }

  /** A failed attempt ends the run where the failure left the input. */
  lemma AttemptsOnFailure(rule: Rule, s: ScanState, previous: Option<seq<char>>, budget: nat)
    requires budget > 0 && rule(Input(s, previous)).Failed?
    ensures var o := rule(Input(s, previous));
      Attempts(rule, s, previous, budget) == Run([], Some(o.error), o.consumed, s.Advance(o.consumed))
  {
  }

  /**
   * A run reads its matches one after the other from the front of the input,
   * then what its failed attempt left read, and nothing is left read when no
   * attempt failed.
   */
  lemma {:induction false} AttemptsReadPrefix(rule: Rule, s: ScanState, previous: Option<seq<char>>, budget: nat)
    ensures var run := Attempts(rule, s, previous, budget);
      && (run.stop.None? ==> run.leftover == 0)
      && Concat(run.texts) <= s.remaining
      && |Concat(run.texts)| + run.leftover <= |s.remaining|
    decreases budget
  {
    if budget == 0 {
    } else if rule(Input(s, previous)).Failed? {
      AttemptsOnFailure(rule, s, previous, budget);
    } else {
      var n := rule(Input(s, previous)).length;
      var t := s.remaining[..n];
      AttemptsOnMatch(rule, s, previous, budget);
      AttemptsReadPrefix(rule, s.Advance(n), Some(t), budget - 1);
      PrefixAfterMatch(s, n, Attempts(rule, s.Advance(n), Some(t), budget - 1));
    }
  }

  /** The step of AttemptsReadPrefix: a run that reads a prefix, after one more match of `n` symbols. */
  lemma PrefixAfterMatch(s: ScanState, n: nat, tail: Run)
    requires n <= |s.remaining|
    requires Concat(tail.texts) <= s.remaining[n..]
    requires |Concat(tail.texts)| + tail.leftover <= |s.remaining| - n
    ensures var run := Prepend([s.remaining[..n]], tail);
      && Concat(run.texts) <= s.remaining
      && |Concat(run.texts)| + run.leftover <= |s.remaining|
  {
    var t := s.remaining[..n];
    assert Concat([t] + tail.texts) == t + Concat(tail.texts) by {
      assert ([t] + tail.texts)[1..] == tail.texts;
    }
    PrefixExtend(t, Concat(tail.texts), s.remaining);
  }

  /** `run`, started from `s`, ends right after what it read. */
  ghost predicate EndsWhereRead(s: ScanState, run: Run)
  {
    && |Concat(run.texts)| + run.leftover <= |s.remaining|
    && run.final == s.Advance(|Concat(run.texts)| + run.leftover)
  }

  /** A run ends right after what it read. */
  lemma {:induction false} AttemptsEndWhereRead(rule: Rule, s: ScanState, previous: Option<seq<char>>, budget: nat)
    ensures EndsWhereRead(s, Attempts(rule, s, previous, budget))
    decreases budget
  {
    if budget == 0 {
      assert s.remaining[0..] == s.remaining;
    } else if rule(Input(s, previous)).Failed? {
      AttemptsOnFailure(rule, s, previous, budget);
    } else {
      var n := rule(Input(s, previous)).length;
      var t := s.remaining[..n];
      AttemptsOnMatch(rule, s, previous, budget);
      AttemptsEndWhereRead(rule, s.Advance(n), Some(t), budget - 1);
      EndAfterMatch(s, n, Attempts(rule, s.Advance(n), Some(t), budget - 1));
    }
  }

  /** The step of AttemptsEndWhereRead: a run that ends where it read, after one more match of `n` symbols. */
  lemma EndAfterMatch(s: ScanState, n: nat, tail: Run)
    requires n <= |s.remaining|
    requires |Concat(tail.texts)| + tail.leftover <= |s.remaining| - n
    requires tail.final == s.Advance(n).Advance(|Concat(tail.texts)| + tail.leftover)
    ensures EndsWhereRead(s, Prepend([s.remaining[..n]], tail))
  {
    var t := s.remaining[..n];
    var m := |Concat(tail.texts)| + tail.leftover;
    assert Concat([t] + tail.texts) == t + Concat(tail.texts) by {
      assert ([t] + tail.texts)[1..] == tail.texts;
    }
    AdvanceAdvance(s, n, m);
  }

  /** Both facts about what a run consumes. */
  lemma AttemptsConsume(rule: Rule, s: ScanState, previous: Option<seq<char>>, budget: nat)
    ensures var run := Attempts(rule, s, previous, budget);
      && (run.stop.None? ==> run.leftover == 0)
      && Concat(run.texts) <= s.remaining
      && |Concat(run.texts)| + run.leftover <= |s.remaining|
      && run.final == s.Advance(|Concat(run.texts)| + run.leftover)
  {
    AttemptsReadPrefix(rule, s, previous, budget);
    AttemptsEndWhereRead(rule, s, previous, budget);
  }

  /** The state after the matches `texts` have been read from `s`. */
  function After(s: ScanState, texts: seq<seq<char>>): ScanState
    requires |Concat(texts)| <= |s.remaining|
  {
    s.Advance(|Concat(texts)|)
  }

  /** The previous text shown to attempt number `k`. */
  function PreviousOf(previous: Option<seq<char>>, texts: seq<seq<char>>, k: nat): Option<seq<char>>
    requires k <= |texts|
  {
    if k == 0 then previous else Some(texts[k - 1])
  }

  /** Reading a first text and then `k - 1` more is reading `k` texts. */
  lemma AfterCons(s: ScanState, t: seq<char>, tail: seq<seq<char>>, k: nat)
    requires t <= s.remaining
    requires 0 < k <= |tail| + 1
    requires |Concat(tail[..k - 1])| <= |s.remaining| - |t|
    ensures |Concat(([t] + tail)[..k])| <= |s.remaining|
    ensures After(s, ([t] + tail)[..k]) == After(s.Advance(|t|), tail[..k - 1])
  {
    var texts := [t] + tail;
    assert texts[..k] == [t] + tail[..k - 1];
    assert Concat(texts[..k]) == t + Concat(tail[..k - 1]) by {
      assert texts[..k][1..] == tail[..k - 1];
    }
  }

  /**
   * The texts of a run are exactly the successive matches of the rule: match
   * number `k` is what the rule matches after the first `k` texts, shown the
   * `k`-th text as its previous element.
   */
  lemma {:induction false} AttemptsAreSuccessiveMatches(rule: Rule, s: ScanState, previous: Option<seq<char>>, budget: nat, k: nat)
    requires k < |Attempts(rule, s, previous, budget).texts|
    ensures var texts := Attempts(rule, s, previous, budget).texts;
      && |Concat(texts[..k])| <= |s.remaining|
      && rule(Input(After(s, texts[..k]), PreviousOf(previous, texts, k))) == Matched(|texts[k]|)
    decreases budget
  {
    var texts := Attempts(rule, s, previous, budget).texts;
    var n := rule(Input(s, previous)).length;
    var t := s.remaining[..n];
    AttemptsOnMatch(rule, s, previous, budget);
    var tail := Attempts(rule, s.Advance(n), Some(t), budget - 1).texts;
    assert texts == [t] + tail;
    if k == 0 {
      assert texts[..0] == [];
    } else {
      AttemptsAreSuccessiveMatches(rule, s.Advance(n), Some(t), budget - 1, k - 1);
      AfterCons(s, t, tail, k);
      assert PreviousOf(previous, texts, k) == PreviousOf(Some(t), tail, k - 1);
    }
  }

  /** A run stopped by a failure ends with the rule failing after all the matches. */
  lemma {:induction false} AttemptsStopAtFailure(rule: Rule, s: ScanState, previous: Option<seq<char>>, budget: nat)
    requires Attempts(rule, s, previous, budget).stop.Some?
    ensures var run := Attempts(rule, s, previous, budget);
      && |Concat(run.texts)| <= |s.remaining|
      && rule(Input(After(s, run.texts), PreviousOf(previous, run.texts, |run.texts|)))
           == Failed(run.stop.value, run.leftover)
    decreases budget
  {
    if rule(Input(s, previous)).Failed? {
      AttemptsOnFailure(rule, s, previous, budget);
      assert After(s, []) == s by {
        assert s.remaining[0..] == s.remaining;
      }
    } else {
      var n := rule(Input(s, previous)).length;
      var t := s.remaining[..n];
      AttemptsOnMatch(rule, s, previous, budget);
      AttemptsStopAtFailure(rule, s.Advance(n), Some(t), budget - 1);
      StopAfterMatch(s, n, Attempts(rule, s.Advance(n), Some(t), budget - 1).texts, previous);
    }
  }

  /** The step of AttemptsStopAtFailure: where the run stands, and what it shows, after one more match. */
  lemma StopAfterMatch(s: ScanState, n: nat, tail: seq<seq<char>>, previous: Option<seq<char>>)
    requires n <= |s.remaining|
    requires |Concat(tail)| <= |s.remaining| - n
    ensures var texts := [s.remaining[..n]] + tail;
      && |Concat(texts)| <= |s.remaining|
      && After(s, texts) == After(s.Advance(n), tail)
      && PreviousOf(previous, texts, |texts|) == PreviousOf(Some(s.remaining[..n]), tail, |tail|)
  {
    var t := s.remaining[..n];
    assert Concat([t] + tail) == t + Concat(tail) by {
      assert ([t] + tail)[1..] == tail;
    }
    AdvanceAdvance(s, n, |Concat(tail)|);
  }

  /** With a rule that restores the scanner on failure, a run leaves nothing read by its failed attempt. */
  lemma {:induction false} RestoringLeavesNothing(rule: Rule, s: ScanState, previous: Option<seq<char>>, budget: nat)
    requires Restoring(rule)
    ensures Attempts(rule, s, previous, budget).leftover == 0
    decreases budget
  {
    if budget > 0 {
      match rule(Input(s, previous))
      case Failed(e, n) =>
      case Matched(n) =>
        RestoringLeavesNothing(rule, s.Advance(n), Some(s.remaining[..n]), budget - 1);
    }
  }

  /** What a repetition read does, stated on scanner states. */
  datatype Repeated =
    | Accepted(texts: seq<seq<char>>, after: ScanState)
    | Rejected(error: SyntaxError, after: ScanState)

  /**
   * The repetition of `rule` from state `s`: at most `upperBound` attempts; at
   * least `lowerBound` matches are accepted, and fewer are put back, last first.
   */
  function Repeat(rule: Rule, lowerBound: nat, upperBound: nat, s: ScanState): (r: Repeated)
    ensures r.Accepted? ==> lowerBound <= |r.texts| <= upperBound
    ensures r.Accepted? ==> Concat(r.texts) <= s.remaining
    ensures r.Rejected? ==> r.error.context == s.Context() && r.error.message == RepetitionFailureMessage
    ensures r.Rejected? && lowerBound <= upperBound ==> r.error.innerError.Some?
    ensures r.Rejected? ==> r.error.innerError == Attempts(rule, s, None, upperBound).stop && r.error.ruleName.None?
    ensures r.Rejected? ==> r.after.offset == s.offset + Attempts(rule, s, None, upperBound).leftover
  {
    AttemptsConsume(rule, s, None, upperBound);
    var run := Attempts(rule, s, None, upperBound);
    var stopped := run.final;
    if |run.texts| >= lowerBound then
      Accepted(run.texts, stopped)
    else
      Rejected(SyntaxError(RepetitionFailureMessage, None, s.Context(), run.stop), stopped.Unread(Concat(run.texts)))
  }

  /** Success exactly when at least `lowerBound` attempts matched. */
  lemma RepeatAcceptsIff(rule: Rule, lowerBound: nat, upperBound: nat, s: ScanState)
    ensures Repeat(rule, lowerBound, upperBound, s).Accepted?
      <==> |Attempts(rule, s, None, upperBound).texts| >= lowerBound
  {
  }

  /** A rejected repetition over a restoring rule leaves the scanner where it started. */
  lemma RepeatRejectedRestores(rule: Rule, lowerBound: nat, upperBound: nat, s: ScanState)
    requires Restoring(rule)
    ensures Repeat(rule, lowerBound, upperBound, s).Rejected? ==> Repeat(rule, lowerBound, upperBound, s).after == s
  {
    RestoringLeavesNothing(rule, s, None, upperBound);
    AttemptsConsume(rule, s, None, upperBound);
    var run := Attempts(rule, s, None, upperBound);
    var n := |Concat(run.texts)|;
    assert s.remaining[..n] + s.remaining[n..] == s.remaining;
  }

  /** An accepted repetition over a restoring rule has read exactly its texts. */
  lemma RepeatAcceptedConsumes(rule: Rule, lowerBound: nat, upperBound: nat, s: ScanState)
    requires Restoring(rule)
    ensures var r := Repeat(rule, lowerBound, upperBound, s);
      r.Accepted? ==> Concat(r.texts) + r.after.remaining == s.remaining && r.after.offset == s.offset + |Concat(r.texts)|
  {
    RestoringLeavesNothing(rule, s, None, upperBound);
    AttemptsConsume(rule, s, None, upperBound);
    var n := |Concat(Attempts(rule, s, None, upperBound).texts)|;
    assert s.remaining[..n] + s.remaining[n..] == s.remaining;
  }

  /** The previous element handed to each of `count` attempts: none to the first, then each match. */
  function Chain(elements: seq<Element>, count: nat): (chain: seq<Element?>)
    requires count <= |elements| + 1
    ensures |chain| == count
    ensures forall k :: 0 < k < count ==> chain[k] == elements[k - 1]
    ensures count > 0 ==> chain[0] == null
  {
    ([null] + elements)[..count]
  }

  /** One more call logged, given the last element read (or none before the first). */
  lemma ChainStep(log0: seq<Element?>, log: seq<Element?>, elements: seq<Element>, previous: Element?)
    requires previous == if elements == [] then null else elements[|elements| - 1]
    requires log == log0 + Chain(elements, |elements|) + [previous]
    ensures log == log0 + Chain(elements, |elements| + 1)
  {
    var n := |elements|;
    assert ([null] + elements)[..n] + [previous] == ([null] + elements)[..n + 1];
  }

  /** One more call logged, and the element it returned kept. */
  lemma ChainGrow(log0: seq<Element?>, log: seq<Element?>, elements: seq<Element>, previous: Element?, e: Element)
    requires previous == if elements == [] then null else elements[|elements| - 1]
    requires log == log0 + Chain(elements, |elements|) + [previous]
    ensures log == log0 + Chain(elements + [e], |elements| + 1)
  {
    var n := |elements|;
    ChainStep(log0, log, elements, previous);
    assert ([null] + elements + [e])[..n + 1] == ([null] + elements)[..n + 1];
  }

  /** The loop of RepetitionLexer.ReadElements after the rule has matched once more. */
  lemma MatchStep(rule: Rule, run: Run, elements: seq<Element>, before: ScanState,
                  previous: Option<seq<char>>, budget: nat, e: Element)
    requires run == Prepend(Texts(elements), Attempts(rule, before, previous, budget))
    requires budget > 0
    requires rule(Input(before, previous)) == Matched(|e.text|)
    requires e.text == before.remaining[..|e.text|]
    ensures run == Prepend(Texts(elements + [e]), Attempts(rule, before.Advance(|e.text|), Some(e.text), budget - 1))
  {
    var t := e.text;
    var tail := Attempts(rule, before.Advance(|t|), Some(t), budget - 1);
    AttemptsOnMatch(rule, before, previous, budget);
    PrependPrepend(Texts(elements), t, tail);
    TextsAppend(elements, e);
  }

  /** The loop of RepetitionLexer.ReadElements after the rule has failed: the run is complete. */
  lemma FailStep(rule: Rule, run: Run, elements: seq<Element>, before: ScanState,
                 previous: Option<seq<char>>, budget: nat, error: SyntaxError, n: nat)
    requires run == Prepend(Texts(elements), Attempts(rule, before, previous, budget))
    requires budget > 0
    requires rule(Input(before, previous)) == Failed(error, n)
    ensures n <= |before.remaining|
    ensures run == Run(Texts(elements), Some(error), n, before.Advance(n))
  {
  }

  lemma DoneStep(rule: Rule, run: Run, elements: seq<Element>, s: ScanState, previous: Option<seq<char>>)
    requires run == Prepend(Texts(elements), Attempts(rule, s, previous, 0))
    ensures run == Run(Texts(elements), None, 0, s)
  {
  }

  lemma PrefixExtend(a: seq<char>, t: seq<char>, s: seq<char>)
    requires a <= s && t <= s[|a|..]
    ensures a + t <= s
  {
    assert (a + t) == s[..|a| + |t|];
  }

  /** `lastResult?.Element`. */
  function ElementOf(lastResult: Option<ReadResult>): Element?
  {
    if lastResult.Some? && lastResult.value.Success? then lastResult.value.element else null
  }

  /** `lastResult?.Error`. */
  function ErrorOf(lastResult: Option<ReadResult>): Option<SyntaxError>
  {
    if lastResult.Some? && lastResult.value.Failure? then Some(lastResult.value.error) else None
  }

  /** The exception, if any, that the RepetitionLexer constructor throws for these arguments. */
  function RepetitionArgumentError(repeatingElementLexer: RuleLexer?, lowerBound: int, upperBound: int): (e: Option<ArgumentError>)
    ensures e.None? <==> repeatingElementLexer != null && 0 <= lowerBound < upperBound
    ensures repeatingElementLexer == null ==> e == Some(ArgumentNull("repeatingElementLexer"))
    ensures repeatingElementLexer != null && lowerBound < 0 ==> e == Some(ArgumentOutOfRange("lowerBound", "Precondition: lowerBound >= 0"))
    ensures repeatingElementLexer != null && 0 <= lowerBound && upperBound <= lowerBound ==> e == Some(ArgumentOutOfRange("upperBound", "Precondition: upperBound > lowerBound"))
  {
    if repeatingElementLexer == null then Some(ArgumentNull("repeatingElementLexer"))
    else if lowerBound < 0 then Some(ArgumentOutOfRange("lowerBound", "Precondition: lowerBound >= 0"))
    else if upperBound <= lowerBound then Some(ArgumentOutOfRange("upperBound", "Precondition: upperBound > lowerBound"))
    else None
  }

  class RepetitionLexer {
    const repeatingElementLexer: RuleLexer
    const lowerBound: int
    const upperBound: int

    ghost predicate Valid()
    {
      0 <= lowerBound < upperBound
    }

    constructor (repeatingElementLexer: RuleLexer, lowerBound: int, upperBound: int)
      requires RepetitionArgumentError(repeatingElementLexer, lowerBound, upperBound).None?
      ensures Valid()
      ensures this.repeatingElementLexer == repeatingElementLexer
      ensures this.lowerBound == lowerBound && this.upperBound == upperBound
    {
      this.repeatingElementLexer := repeatingElementLexer;
      this.lowerBound := lowerBound;
      this.upperBound := upperBound;
    }

    /** `new RepetitionLexer(...)`: either the exception it throws, or a valid instance. */
    static method Create(repeatingElementLexer: RuleLexer?, lowerBound: int, upperBound: int)
      returns (r: Result<RepetitionLexer, ArgumentError>)
      ensures r.Err? <==> RepetitionArgumentError(repeatingElementLexer, lowerBound, upperBound).Some?
      ensures r.Err? ==> Some(r.error) == RepetitionArgumentError(repeatingElementLexer, lowerBound, upperBound)
      ensures r.Ok? ==>
        && fresh(r.value) && r.value.Valid()
        && r.value.repeatingElementLexer == repeatingElementLexer
        && r.value.lowerBound == lowerBound && r.value.upperBound == upperBound
    {
      var e := RepetitionArgumentError(repeatingElementLexer, lowerBound, upperBound);
      if e.Some? {
        return Err(e.value);
      }
      var lexer := new RepetitionLexer(repeatingElementLexer, lowerBound, upperBound);
      return Ok(lexer);
    }

    /**
     * Reads between `lowerBound` and `upperBound` elements. The argument
     * `previousElementOrNull` is accepted and not used.
     */
    method Read(scanner: TextScanner?, previousElementOrNull: Element?) returns (r: Result<ReadResult, ArgumentError>)
      requires Valid()
      modifies scanner, repeatingElementLexer
      ensures scanner == null ==> r == Err(ArgumentNull("scanner")) && unchanged(repeatingElementLexer)
      ensures scanner != null ==> r.Ok?
      ensures scanner != null ==>
        var spec := Repeat(repeatingElementLexer.rule, lowerBound, upperBound, old(scanner.State()));
        && scanner.State() == spec.after
        && (r.value.Success? <==> spec.Accepted?)
        && (spec.Rejected? ==> r.value == Failure(spec.error))
      ensures scanner != null && r.value.Success? ==>
        var e := r.value.element;
        var run := Attempts(repeatingElementLexer.rule, old(scanner.State()), None, upperBound);
        && fresh(e)
        && e.shape.Repetition?
        && Texts(e.shape.elements) == run.texts
        && e.text == Concat(run.texts)
        && e.context == old(scanner.State()).Context()
        && repeatingElementLexer.previousArguments
             == old(repeatingElementLexer.previousArguments) + Chain(e.shape.elements, AttemptCount(run))
      ensures scanner != null ==>
        var run := Attempts(repeatingElementLexer.rule, old(scanner.State()), None, upperBound);
        var calls := repeatingElementLexer.previousArguments;
        var n := |old(repeatingElementLexer.previousArguments)|;
        && |calls| == n + AttemptCount(run)
        && calls[..n] == old(repeatingElementLexer.previousArguments)
        && calls[n] == null
        && forall k :: n < k < n + AttemptCount(run) ==> calls[k] != null && calls[k].text == run.texts[k - n - 1]
    {
      if scanner == null {
        return Err(ArgumentNull("scanner"));
      }
      var context := scanner.GetContext();
      ghost var run := Attempts(repeatingElementLexer.rule, scanner.State(), None, upperBound);
      var elements, lastResult := ReadElements(scanner);
      if |elements| >= lowerBound {
        var repetition := new Element(Concat(Texts(elements)), context, Repetition(elements));
        return Ok(Success(repetition));
      }
      if |elements| != 0 {
        UnreadAll(scanner, elements);
      }
      return Ok(Failure(SyntaxError(RepetitionFailureMessage, None, context, ErrorOf(lastResult))));
    }

    /**
     * The counted loop of Read: the repeating lexer is called until `upperBound`
     * elements are read or one call fails, each call given the element the
     * previous call returned.
     */
    method ReadElements(scanner: TextScanner) returns (elements: seq<Element>, lastResult: Option<ReadResult>)
      requires Valid()
      modifies scanner, repeatingElementLexer
      ensures var run := Attempts(repeatingElementLexer.rule, old(scanner.State()), None, upperBound);
        && Texts(elements) == run.texts
        && ErrorOf(lastResult) == run.stop
        && scanner.State() == run.final
        && repeatingElementLexer.previousArguments
             == old(repeatingElementLexer.previousArguments) + Chain(elements, AttemptCount(run))
    {
      ghost var s0 := scanner.State();
      ghost var log0 := repeatingElementLexer.previousArguments;
      ghost var rule := repeatingElementLexer.rule;
      ghost var run := Attempts(rule, s0, None, upperBound);
      elements := [];
      lastResult := None;
      for i := 0 to upperBound
        invariant |elements| == i
        invariant Reading(rule, run, elements, lastResult, scanner.State(), repeatingElementLexer.previousArguments, log0, upperBound - i)
      {
        var result := ReadNext(scanner, elements, lastResult, run, upperBound - i, log0);
        lastResult := Some(result);
        if result.Failure? {
          break;
        }
        elements := elements + [result.element];
      }
      if lastResult.None? || lastResult.value.Success? {
        DoneStep(rule, run, elements, scanner.State(), TextOf(ElementOf(lastResult)));
      }
    }

    /** One iteration of the loop of ReadElements: one call of the repeating lexer. */
    method ReadNext(scanner: TextScanner, elements: seq<Element>, lastResult: Option<ReadResult>,
                    ghost run: Run, ghost budget: nat, ghost log0: seq<Element?>)
      returns (result: ReadResult)
      requires budget > 0
      requires Reading(repeatingElementLexer.rule, run, elements, lastResult, scanner.State(),
                       repeatingElementLexer.previousArguments, log0, budget)
      modifies scanner, repeatingElementLexer
      ensures result.Failure? ==>
        && run == Run(Texts(elements), Some(result.error), run.leftover, scanner.State())
        && repeatingElementLexer.previousArguments == log0 + Chain(elements, |elements| + 1)
      ensures result.Success? ==>
        Reading(repeatingElementLexer.rule, run, elements + [result.element], Some(result), scanner.State(),
                repeatingElementLexer.previousArguments, log0, budget - 1)
    {
      ghost var rule := repeatingElementLexer.rule;
      ghost var before := scanner.State();
      var previous := ElementOf(lastResult);
      result := repeatingElementLexer.ReadElement(scanner, previous);
      if result.Failure? {
        FailStep(rule, run, elements, before, TextOf(previous), budget, result.error,
                 rule(Input(before, TextOf(previous))).Consumed());
        ChainStep(log0, repeatingElementLexer.previousArguments, elements, previous);
      } else {
        MatchStep(rule, run, elements, before, TextOf(previous), budget, result.element);
        ChainGrow(log0, repeatingElementLexer.previousArguments, elements, previous, result.element);
      }
    }
  }

  /**
   * The state of the loop of RepetitionLexer.ReadElements: `lastResult` holds the
   * last element read, the whole run is what was read followed by what the
   * remaining `budget` calls will read, and every call so far is logged.
   */
  ghost predicate Reading(rule: Rule, run: Run, elements: seq<Element>, lastResult: Option<ReadResult>,
                          s: ScanState, log: seq<Element?>, log0: seq<Element?>, budget: nat)
  {
    && lastResult == (if elements == [] then None else Some(Success(elements[|elements| - 1])))
    && run == Prepend(Texts(elements), Attempts(rule, s, TextOf(ElementOf(lastResult)), budget))
    && log == log0 + Chain(elements, |elements|)
  }

  /** Puts the texts of `elements` back into the scanner, last element first. */
  method UnreadAll(scanner: TextScanner, elements: seq<Element>)
    modifies scanner
    ensures scanner.State() == old(scanner.State()).Unread(Concat(Texts(elements)))
  {
    ghost var stopped := scanner.State();
    for k := |elements| downto 0
      invariant scanner.State() == stopped.Unread(Concat(Texts(elements[k..])))
    {
      ghost var rest := Concat(Texts(elements[k + 1..]));
      assert Concat(Texts(elements[k..])) == elements[k].text + rest by {
        assert Texts(elements[k..])[1..] == Texts(elements[k + 1..]);
      }
      scanner.Unread(elements[k].text);
      UnreadUnread(stopped, elements[k].text, rest);
    }
    assert elements[0..] == elements;
  }
}
