/**
 * The formatted text area (src/components/FormattedTextArea.tsx): the style shown at a
 * character position, looked up in the formatted ranges, and the list button, which puts a
 * bullet on the line holding the cursor or takes it off.
 */
module FormattedTextArea {
  import opened Wrappers
  import opened Strings
  import opened UseFormatting

  /** The style properties the lookup sets: weight, style, decoration and colour. */
  datatype Styles = Styles(bold: bool, italic: bool, underline: bool, color: Option<string>)

  const NO_STYLES: Styles := Styles(false, false, false, None)

  /** A range that paints a position: it covers it, has 'color', and a colour that is a non-empty string. */
  predicate Colours(r: FormattedRange, position: int) {
    Covers(r, position) && "color" in r.formats && r.color.Some? && r.color.value != ""
  }

  /** One range's contribution: a covering range switches on its formats and, if it paints, sets its colour. */
  function ApplyRange(styles: Styles, r: FormattedRange, position: int): Styles {
    if !Covers(r, position) then styles
    else Styles(styles.bold || "bold" in r.formats,
                styles.italic || "italic" in r.formats,
                styles.underline || "underline" in r.formats,
                if Colours(r, position) then r.color else styles.color)
  }

  /** The styles after the ranges have been applied one after the other, in list order. */
  function StylesFor(ranges: seq<FormattedRange>, position: int): Styles {
    if ranges == [] then NO_STYLES
    else ApplyRange(StylesFor(ranges[..|ranges| - 1], position), ranges[|ranges| - 1], position)
  }

  /** `getStylesForPosition`: a loop over the ranges filling in a style object. */
  method GetStylesForPosition(ranges: seq<FormattedRange>, position: int) returns (styles: Styles)
    ensures styles == StylesFor(ranges, position)
  {
    styles := NO_STYLES;
    for i := 0 to |ranges|
      invariant styles == StylesFor(ranges[..i], position)
    {
      var range := ranges[i];
      if position >= range.start && position < range.end {
        if "bold" in range.formats { styles := styles.(bold := true); }
        if "italic" in range.formats { styles := styles.(italic := true); }
        if "underline" in range.formats { styles := styles.(underline := true); }
        if "color" in range.formats && range.color.Some? && range.color.value != "" {
          styles := styles.(color := range.color);
        }
      }
      assert ranges[..i + 1][..i] == ranges[..i];
    }
    assert ranges[..|ranges|] == ranges;
  }

  predicate SomeRangeSets(ranges: seq<FormattedRange>, position: int, format: string) {
    exists i :: 0 <= i < |ranges| && Covers(ranges[i], position) && format in ranges[i].formats
  }

  /**
   * A flag is on exactly when some range covering the position carries the format: bold,
   * italic and underline are only ever switched on, whatever the order.
   */
  lemma {:induction false} FlagsComeFromCoveringRanges(ranges: seq<FormattedRange>, position: int)
    ensures StylesFor(ranges, position).bold <==> SomeRangeSets(ranges, position, "bold")
    ensures StylesFor(ranges, position).italic <==> SomeRangeSets(ranges, position, "italic")
    ensures StylesFor(ranges, position).underline <==> SomeRangeSets(ranges, position, "underline")
  {
    if ranges != [] {
      var init := ranges[..|ranges| - 1];
      FlagsComeFromCoveringRanges(init, position);
      forall f ensures SomeRangeSets(ranges, position, f) <==>
                       SomeRangeSets(init, position, f) || (Covers(ranges[|ranges| - 1], position) && f in ranges[|ranges| - 1].formats)
      {
        if SomeRangeSets(ranges, position, f) {
          var i :| 0 <= i < |ranges| && Covers(ranges[i], position) && f in ranges[i].formats;
          if i < |ranges| - 1 { assert init[i] == ranges[i]; }
        }
        if SomeRangeSets(init, position, f) {
          var i :| 0 <= i < |init| && Covers(init[i], position) && f in init[i].formats;
          assert ranges[i] == init[i];
        }
      }
    }
  }

  /**
   * The colour is that of the last range in the list that paints the position; there is none
   * exactly when no range paints it. A later range overrides an earlier one.
   */
  lemma {:induction false} ColourComesFromLastPaintingRange(ranges: seq<FormattedRange>, position: int)
    ensures StylesFor(ranges, position).color.None? <==> forall i :: 0 <= i < |ranges| ==> !Colours(ranges[i], position)
    ensures StylesFor(ranges, position).color.Some? ==>
              exists i :: 0 <= i < |ranges| && Colours(ranges[i], position)
                          && ranges[i].color == StylesFor(ranges, position).color
                          && forall j :: i < j < |ranges| ==> !Colours(ranges[j], position)
  {
    if ranges != [] {
      var n := |ranges| - 1;
      var init := ranges[..n];
      ColourComesFromLastPaintingRange(init, position);
      assert forall i :: 0 <= i < n ==> ranges[i] == init[i];
      if !Colours(ranges[n], position) && StylesFor(ranges, position).color.Some? {
        var i :| 0 <= i < |init| && Colours(init[i], position)
                 && init[i].color == StylesFor(init, position).color
                 && forall j :: i < j < |init| ==> !Colours(init[j], position);
        assert Colours(ranges[i], position) && ranges[i].color == StylesFor(ranges, position).color;
        assert forall j :: i < j < |ranges| ==> !Colours(ranges[j], position);
      }
    }
  }

  /** A range appended last is applied last: it adds its formats and, if it paints, its colour wins. */
  lemma AppendedRangeAppliesLast(ranges: seq<FormattedRange>, r: FormattedRange, position: int)
    ensures StylesFor(ranges + [r], position) == ApplyRange(StylesFor(ranges, position), r, position)
  {
    assert (ranges + [r])[..|ranges|] == ranges;
  }

  /**
   * The character just typed shows the active formats: each active flag is on at its
   * position, and with 'color' active and a non-empty current colour it takes that colour.
   */
  lemma TypedCharacterShowsActiveFormats(ranges: seq<FormattedRange>, activeFormats: set<string>, currentColor: string, cursor: nat)
    requires activeFormats != {} && cursor > 0
    ensures var typed := TypedRange(activeFormats, currentColor, cursor).value;
            var styles := StylesFor(ranges + [typed], cursor - 1);
            && ("bold" in activeFormats ==> styles.bold)
            && ("italic" in activeFormats ==> styles.italic)
            && ("underline" in activeFormats ==> styles.underline)
            && ("color" in activeFormats && currentColor != "" ==> styles.color == Some(currentColor))
  {
    var typed := TypedRange(activeFormats, currentColor, cursor).value;
    AppendedRangeAppliesLast(ranges, typed, cursor - 1);
  }

  /** Making a fresh selection bold shows every character of the selection in bold. */
  lemma BoldSelectionShowsBold(ranges: seq<FormattedRange>, start: nat, end: nat, currentColor: string, position: int)
    requires FindRange(ranges, start, end).None?
    requires start <= position < end
    ensures StylesFor(RangesAfterApply(ranges, start, end, "bold", currentColor), position).bold
  {
    AppendedRangeAppliesLast(ranges, NewRange(start, end, "bold", currentColor), position);
  }

  // ---------------------------------------------------------------------------------------------
  // The list button.

  /** The text area as the list button reads it: its name, its text and where the cursor is. */
  datatype TextAreaState = TextAreaState(name: string, value: string, selectionStart: nat)

  /** The change event the button emits: the text area's name and the new text. */
  datatype ChangeEvent = ChangeEvent(name: string, value: string)

  const BULLET: string := "• "

  /** Where line `i` starts in the text the lines were split from. */
  function LineOffset(lines: seq<string>, i: nat): nat
    requires i <= |lines|
  {
    if i == 0 then 0 else LineOffset(lines, i - 1) + |lines[i - 1]| + 1
  }

  /** The cursor at `start` does not pass the end of line `j`. */
  predicate Reaches(lines: seq<string>, start: int, j: nat)
    requires j < |lines|
  {
    LineOffset(lines, j) + |lines[j]| >= start
  }

  /** The line the cursor is on, scanning from line `i`: the first one whose end the cursor does not pass; line 0 if none. */
  function CursorLineFrom(lines: seq<string>, start: int, i: nat): (k: nat)
    requires |lines| >= 1 && i <= |lines|
    decreases |lines| - i
    ensures k < |lines|
    ensures (exists j :: i <= j < |lines| && Reaches(lines, start, j)) ==>
              i <= k && Reaches(lines, start, k) && forall j :: i <= j < k ==> !Reaches(lines, start, j)
    ensures (forall j :: i <= j < |lines| ==> !Reaches(lines, start, j)) ==> k == 0
  {
    if i == |lines| then 0
    else if Reaches(lines, start, i) then i
    else CursorLineFrom(lines, start, i + 1)
  }

  function CursorLine(lines: seq<string>, start: int): nat
    requires |lines| >= 1
  {
    CursorLineFrom(lines, start, 0)
  }

  /** The line with its bullet taken off, or with a bullet put in front. */
  function ToggleBullet(line: string): string {
    if StartsWith(line, BULLET) then line[|BULLET|..] else BULLET + line
  }

  /** The text after the list button: the cursor line's bullet toggled. */
  function ListFormatted(text: string, start: int): string {
    var lines := Split(text, '\n');
    var k := CursorLine(lines, start);
    Join(lines[k := ToggleBullet(lines[k])], '\n')
  }

  /** `handleListFormat`: nothing without a text area; otherwise the new text, under the text area's name. */
  method HandleListFormat(textarea: Option<TextAreaState>) returns (event: Option<ChangeEvent>)
    ensures textarea.None? ==> event.None?
    ensures textarea.Some? ==>
              event == Some(ChangeEvent(textarea.value.name, ListFormatted(textarea.value.value, textarea.value.selectionStart)))
  {
    if textarea.None? {
      return None;
    }
    var start := textarea.value.selectionStart;
    var text := textarea.value.value;
    var lines := Split(text, '\n');
    var currentLineStart := 0;
    var currentLineIndex := 0;
    var i := 0;
    while i < |lines|
      invariant 0 <= i <= |lines|
      invariant currentLineStart == LineOffset(lines, i)
      invariant forall j :: 0 <= j < i ==> !Reaches(lines, start, j)
      invariant currentLineIndex == 0
    {
      if currentLineStart + |lines[i]| >= start {
        currentLineIndex := i;
        assert Reaches(lines, start, i);
        assert currentLineIndex == CursorLine(lines, start);
        break;
      }
      currentLineStart := currentLineStart + |lines[i]| + 1;
      i := i + 1;
    }
    assert currentLineIndex == CursorLine(lines, start);
    var currentLine := lines[currentLineIndex];
    if StartsWith(currentLine, BULLET) {
      lines := lines[currentLineIndex := currentLine[2..]];
    } else {
      lines := lines[currentLineIndex := BULLET + currentLine];
    }
    var newText := Join(lines, '\n');
    return Some(ChangeEvent(textarea.value.name, newText));
  }

  lemma NoNewlineInToggled(line: string)
    requires '\n' !in line
    ensures '\n' !in ToggleBullet(line)
  {
    if !StartsWith(line, BULLET) {
      assert forall c :: c in BULLET + line ==> c in BULLET || c in line;
    }
  }

  /**
   * The list button changes only the cursor line: splitting the new text gives the same
   * number of lines, the cursor line with its bullet toggled, and every other line as it was.
   */
  lemma ListFormatChangesOnlyCursorLine(text: string, start: int)
    ensures var lines := Split(text, '\n');
            var k := CursorLine(lines, start);
            var after := Split(ListFormatted(text, start), '\n');
            && |after| == |lines|
            && after[k] == ToggleBullet(lines[k])
            && forall j :: 0 <= j < |lines| && j != k ==> after[j] == lines[j]
  {
    var lines := Split(text, '\n');
    var k := CursorLine(lines, start);
    NoNewlineInToggled(lines[k]);
    SplitJoin(lines[k := ToggleBullet(lines[k])], '\n');
  }

  /** The text grows by the two characters of the bullet, or shrinks by them when the cursor line had one. */
  lemma ListFormatChangesLengthByTwo(text: string, start: int)
    ensures var lines := Split(text, '\n');
            var k := CursorLine(lines, start);
            |ListFormatted(text, start)| == if StartsWith(lines[k], BULLET) then |text| - 2 else |text| + 2
  {
    var lines := Split(text, '\n');
    var k := CursorLine(lines, start);
    JoinSplit(text, '\n');
    JoinLength(lines, '\n');
    JoinLength(lines[k := ToggleBullet(lines[k])], '\n');
    SumLengthsUpdate(lines, k, ToggleBullet(lines[k]));
  }

  /** Toggling a line twice gives it back unless it starts with two bullets. */
  lemma ToggleBulletTwice(line: string)
    requires !StartsWith(line, BULLET + BULLET)
    ensures ToggleBullet(ToggleBullet(line)) == line
  {
    if StartsWith(line, BULLET) {
      assert line == BULLET + line[2..];
    } else {
      assert (BULLET + line)[2..] == line;
    }
  }

  /**
   * Pressing the button twice gives the text back when the second press finds the cursor on
   * the same line and that line did not start with two bullets.
   */
  lemma ListFormatTwiceRestores(text: string, start: int)
    requires CursorLine(Split(ListFormatted(text, start), '\n'), start) == CursorLine(Split(text, '\n'), start)
    requires !StartsWith(Split(text, '\n')[CursorLine(Split(text, '\n'), start)], BULLET + BULLET)
    ensures ListFormatted(ListFormatted(text, start), start) == text
  {
    var lines := Split(text, '\n');
    var k := CursorLine(lines, start);
    var once := ListFormatted(text, start);
    ListFormatChangesOnlyCursorLine(text, start);
    var after := Split(once, '\n');
    ToggleBulletTwice(lines[k]);
    assert after[k := ToggleBullet(after[k])] == lines;
    assert ListFormatted(once, start) == Join(lines, '\n');
    JoinSplit(text, '\n');
  }

  /**
   * The second press does not always find the same line. The lemma keeps `selectionStart`
   * unchanged between the presses: with it at the end of a bulleted first line, the first
   * press takes the bullet off, which leaves that position past the end of the shortened line,
   * so the second press puts a bullet on the second line instead.
   */
  lemma ListFormatTwiceCanMoveToNextLine(a: string, b: string)
    requires '\n' !in a && '\n' !in b && b != [] && !StartsWith(b, BULLET)
    ensures ListFormatted(BULLET + a + "\n" + b, |a| + 2) == a + "\n" + b
    ensures ListFormatted(a + "\n" + b, |a| + 2) == a + "\n" + BULLET + b
    ensures a + "\n" + BULLET + b != BULLET + a + "\n" + b
  {
    FirstPressTakesBulletOff(a, b);
    SecondPressBulletsNextLine(a, b);
    var text, twice := BULLET + a + "\n" + b, a + "\n" + BULLET + b;
    assert twice[|a| + 2] == ' ' && text[|a| + 2] == '\n';
  }

  /** Two lines joined by a newline split back into those lines. */
  lemma TwoLinesSplit(a: string, b: string)
    requires '\n' !in a && '\n' !in b
    ensures Split(a + "\n" + b, '\n') == [a, b]
  {
    var s := a + "\n" + b;
    assert s[..|a|] == a && s[|a| + 1..] == b;
    SplitInTwo(s, '\n', |a|);
  }

  /** Two lines joined by a newline. */
  lemma JoinTwoLines(a: string, b: string)
    ensures Join([a, b], '\n') == a + "\n" + b
  {
    JoinCons(a, [b], '\n');
    assert [a] + [b] == [a, b];
  }

  /** One unfolding of the list button on a text whose lines, cursor line and toggled line are known. */
  lemma ListFormattedVia(text: string, start: int, lines: seq<string>, k: nat, toggled: string)
    requires Split(text, '\n') == lines && k < |lines|
    requires CursorLine(lines, start) == k && ToggleBullet(lines[k]) == toggled
    ensures ListFormatted(text, start) == Join(lines[k := toggled], '\n')
  {
  }

  lemma FirstPressTakesBulletOff(a: string, b: string)
    requires '\n' !in a && '\n' !in b
    ensures ListFormatted(BULLET + a + "\n" + b, |a| + 2) == a + "\n" + b
  {
    var first := BULLET + a;
    assert BULLET + a + "\n" + b == first + "\n" + b;
    forall i | 0 <= i < |first| ensures first[i] != '\n' {
      if i >= 2 {
        assert first[i] == a[i - 2];
      }
    }
    TwoLinesSplit(first, b);
    var lines := [first, b];
    assert Reaches(lines, |a| + 2, 0);
    assert CursorLine(lines, |a| + 2) == 0;
    assert first[..2] == BULLET && first[2..] == a;
    ListFormattedVia(first + "\n" + b, |a| + 2, lines, 0, a);
    assert lines[0 := a] == [a, b];
    JoinTwoLines(a, b);
  }

  lemma SecondPressBulletsNextLine(a: string, b: string)
    requires '\n' !in a && '\n' !in b && b != [] && !StartsWith(b, BULLET)
    ensures ListFormatted(a + "\n" + b, |a| + 2) == a + "\n" + BULLET + b
  {
    TwoLinesSplit(a, b);
    var lines := [a, b];
    assert LineOffset(lines, 1) == |a| + 1;
    assert !Reaches(lines, |a| + 2, 0) && Reaches(lines, |a| + 2, 1);
    assert CursorLine(lines, |a| + 2) == 1;
    ListFormattedVia(a + "\n" + b, |a| + 2, lines, 1, BULLET + b);
    assert lines[1 := BULLET + b] == [a, BULLET + b];
    JoinTwoLines(a, BULLET + b);
    assert a + "\n" + (BULLET + b) == a + "\n" + BULLET + b;
  }
}
