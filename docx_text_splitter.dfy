/**
 * Splitting a text in two near a target index without cutting a word
 * (src/utils/docxTextSplitter.ts).
 */
module DocxTextSplitter {
  import opened Strings

  /** No index in `lo < j <= hi` that exists in `text` holds a space. */
  predicate NoSpaceIn(text: string, lo: int, hi: int) {
    forall j :: lo < j <= hi && 0 <= j < |text| ==> text[j] != ' '
  }

  /**
   * The backward scan from `i`: the first index at or below `i`, and above 0, holding a space;
   * 0 if there is none; `i` itself when `i` is not positive.
   */
  function ScanBack(text: string, i: int): (r: int)
    ensures r <= i
    ensures r > 0 ==> r < |text| && text[r] == ' ' && NoSpaceIn(text, r, i)
    ensures r <= 0 ==> r == (if i <= 0 then i else 0) && NoSpaceIn(text, 0, i)
    decreases i
  {
    if i <= 0 then i
    else if i < |text| && text[i] == ' ' then i
    else ScanBack(text, i - 1)
  }

  /**
   * Where the text is cut: the largest index in `0 < k <= approximateMiddle` holding a space,
   * or `approximateMiddle` itself when there is none (a space at index 0 does not count).
   */
  function SplitPoint(text: string, approximateMiddle: int): (k: int)
    ensures || (0 < k <= approximateMiddle && k < |text| && text[k] == ' '
                && NoSpaceIn(text, k, approximateMiddle))
            || (k == approximateMiddle && NoSpaceIn(text, 0, approximateMiddle))
  {
    var k := ScanBack(text, approximateMiddle);
    if k == 0 then approximateMiddle else k
  }

  /** The two halves: the text before and from the split point, each trimmed. */
  function SplitAtWordBoundary(text: string, approximateMiddle: int): (string, string) {
    var k := SplitPoint(text, approximateMiddle);
    (Trim(Before(text, k)), Trim(From(text, k)))
  }

  /** `splitTextAtWordBoundary`: the loop walks back from `approximateMiddle` to a space. */
  method SplitTextAtWordBoundary(text: string, approximateMiddle: int) returns (first: string, second: string)
    ensures (first, second) == SplitAtWordBoundary(text, approximateMiddle)
  {
    var splitIndex := approximateMiddle;
    while splitIndex > 0 && !(splitIndex < |text| && text[splitIndex] == ' ')
      invariant splitIndex <= approximateMiddle
      invariant ScanBack(text, splitIndex) == ScanBack(text, approximateMiddle)
      decreases splitIndex
    {
      splitIndex := splitIndex - 1;
    }
    if splitIndex == 0 {
      splitIndex := approximateMiddle;
    }
    first := Trim(Before(text, splitIndex));
    second := Trim(From(text, splitIndex));
  }

  /**
   * The halves are the trimmed pieces of one cut of the text: putting the untrimmed pieces
   * back together gives the text, and neither half starts or ends with white space.
   */
  lemma SplitHalvesComeFromOneCut(text: string, approximateMiddle: int)
    ensures var (first, second) := SplitAtWordBoundary(text, approximateMiddle);
            var k := ClampIndex(SplitPoint(text, approximateMiddle), |text|);
            && text[..k] + text[k..] == text
            && first == Trim(text[..k]) && second == Trim(text[k..])
            && (first == [] || (!IsWhitespace(first[0]) && !IsWhitespace(first[|first| - 1])))
            && (second == [] || (!IsWhitespace(second[0]) && !IsWhitespace(second[|second| - 1])))
  {
    var k := ClampIndex(SplitPoint(text, approximateMiddle), |text|);
    assert text[..k] + text[k..] == text;
  }

  /**
   * When there is a space in `0 < j <= approximateMiddle`, the cut falls on the last such
   * space: the first half is everything before it, and the second half everything after it,
   * so no word is cut in two.
   */
  lemma {:induction false} SplitOnSpaceCutsNoWord(text: string, approximateMiddle: int, j: nat)
    requires 0 < j <= approximateMiddle && j < |text| && text[j] == ' '
    ensures var k := SplitPoint(text, approximateMiddle);
            && j <= k < |text| && text[k] == ' '
            && SplitAtWordBoundary(text, approximateMiddle) == (Trim(text[..k]), Trim(text[k + 1..]))
  {
    var k := SplitPoint(text, approximateMiddle);
    assert !NoSpaceIn(text, 0, approximateMiddle);
    assert 0 < k < |text| && text[k] == ' ';
    assert Before(text, k) == text[..k] && From(text, k) == text[k..];
    assert text[k..][1..] == text[k + 1..];
    TrimDropsLeadingWhitespace(text[k..]);
  }

  /**
   * With no space in `0 < j <= approximateMiddle` and the target at or past the end, the cut
   * falls at the end: the first half is the whole text trimmed and the second is empty.
   */
  lemma FallbackPastEnd(text: string, approximateMiddle: int)
    requires approximateMiddle >= |text|
    requires NoSpaceIn(text, 0, approximateMiddle)
    ensures SplitAtWordBoundary(text, approximateMiddle) == (Trim(text), "")
  {
    assert text[..|text|] == text;
  }

  /** A worked example: "the quick brown fox" cut near 7 gives "the" and the rest. */
  lemma QuickBrownFox(text: string)
    requires text == "the quick brown fox"
    ensures SplitAtWordBoundary(text, 7) == ("the", "quick brown fox")
  {
    QuickBrownFoxPieces(text);
    SplitOnSpaceCutsNoWord(text, 7, 3);
    TrimmedWords("the", "quick brown fox");
  }

  lemma TrimmedWords(a: string, b: string)
    requires a == "the" && b == "quick brown fox"
    ensures Trim(a) == a && Trim(b) == b
  {
    TrimOfTrimmed(a);
    TrimOfTrimmed(b);
  }

  lemma QuickBrownFoxPieces(text: string)
    requires text == "the quick brown fox"
    ensures SplitPoint(text, 7) == 3 && text[3] == ' '
    ensures text[..3] == "the" && text[4..] == "quick brown fox"
  {
    assert text[7] == 'c' && text[6] == 'i' && text[5] == 'u' && text[4] == 'q' && text[3] == ' ';
    assert ScanBack(text, 3) == 3;
    assert ScanBack(text, 5) == 3;
    assert ScanBack(text, 7) == 3;
  }
}
