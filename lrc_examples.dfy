/** Worked examples of the time tag. */
module LrcExamples {
  import opened Records
  import opened Lrc

  /** A two-digit fraction counts tens of milliseconds: `01.50` is 1500 ms. */
  lemma TwoDigitFraction()
    ensures FirstTag("[00:01.50]A", 0) == Some(Tag(0, 10, 1500))
  {
    assert TagAt("[00:01.50]A", 0) == Some(Tag(0, 10, 1500));
  }

  /** A three-digit fraction is milliseconds, and the greedy match takes all three digits. */
  lemma ThreeDigitFraction()
    ensures FirstTag("[01:02.345]A", 0) == Some(Tag(0, 11, 62345))
  {
    assert TagAt("[01:02.345]A", 0) == Some(Tag(0, 11, 62345));
  }

  /** The tag need not open the line: the leftmost one is taken. */
  lemma TagInsideLine()
    ensures FirstTag("A[00:03:07]", 0) == Some(Tag(1, 10, 3070))
  {
    assert TagAt("A[00:03:07]", 0).None?;
    assert TagAt("A[00:03:07]", 1) == Some(Tag(1, 10, 3070));
  }
}
