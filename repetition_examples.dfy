/**
 * The repetition `2*4"x"` over short inputs: the boundary cases below, at and
 * above the bounds.
 */
module TextFxAbnfExamples {
  import opened Wrappers
  import opened Text
  import opened TextFx
  import opened TextFxAbnf

  /** A rule matching one `'x'`, and failing without reading anything otherwise. */
  const X: Rule := (i: Input) =>
    if |i.state.remaining| > 0 && i.state.remaining[0] == 'x' then Matched(1)
    else Failed(SyntaxError("Expected 'x'.", None, i.state.Context(), None), 0)

  /** `"xxx"`: three matches, then a failure at the end of the input; accepted since 2 <= 3 <= 4. */
  lemma {:induction false} RepeatThree()
    ensures var r := Repeat(X, 2, 4, ScanState("xxx", 0));
      r.Accepted? && |r.texts| == 3 && r.after == ScanState("", 3)
  {
    var s := ScanState("xxx", 0);
    assert s.Advance(1) == ScanState("xx", 1);
    assert s.Advance(1).Advance(1) == ScanState("x", 2);
    assert s.Advance(1).Advance(1).Advance(1) == ScanState("", 3);
  }

  /** `"x"`: one match, fewer than 2, so rejected; the scanner is back at offset 0 and the error chains the failure. */
  lemma {:induction false} RepeatOne()
    ensures var r := Repeat(X, 2, 4, ScanState("x", 0));
      && r.Rejected?
      && r.after == ScanState("x", 0)
      && r.error.innerError == Some(SyntaxError("Expected 'x'.", None, TextContext(1), None))
  {
    var s := ScanState("x", 0);
    assert s.Advance(1) == ScanState("", 1);
    assert Concat(["x"]) == "x";
  }

  /** `"xxxxx"`: four matches, the upper bound; one `'x'` is left unread. */
  lemma {:induction false} RepeatFive()
    ensures var r := Repeat(X, 2, 4, ScanState("xxxxx", 0));
      r.Accepted? && |r.texts| == 4 && r.after == ScanState("x", 4)
  {
    var s := ScanState("xxxxx", 0);
    assert s.Advance(1) == ScanState("xxxx", 1);
    assert s.Advance(1).Advance(1) == ScanState("xxx", 2);
    assert s.Advance(1).Advance(1).Advance(1) == ScanState("xx", 3);
    assert s.Advance(1).Advance(1).Advance(1).Advance(1) == ScanState("x", 4);
  }
}
