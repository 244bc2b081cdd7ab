/**
 * The formatting state of a text area (src/components/formatting/useFormatting.ts): the
 * formats switched on for text still to be typed, the current colour, and the list of
 * formatted character ranges. The text area's selection is read from the DOM in the source;
 * here it is a parameter, `None` when the text area is not mounted.
 */
module UseFormatting {
  import opened Wrappers

  /** A formatted range `[start, end)`, its set of format names, and its colour if it has one. */
  datatype FormattedRange = FormattedRange(start: nat, end: nat, formats: set<string>, color: Option<string>)

  /** The text area's selection, `selectionStart` and `selectionEnd`. */
  datatype Selection = Selection(start: nat, end: nat)

  /** A range affects a character position when the position lies in `[start, end)`. */
  predicate Covers(r: FormattedRange, position: int) {
    r.start <= position < r.end
  }

  predicate SameBounds(r: FormattedRange, start: nat, end: nat) {
    r.start == start && r.end == end
  }

  /** `findIndex` of the first range with exactly these bounds, scanning from index `from`. */
  function FindRangeFrom(ranges: seq<FormattedRange>, start: nat, end: nat, from: nat): (r: Option<nat>)
    requires from <= |ranges|
    decreases |ranges| - from
    ensures r.None? <==> forall i :: from <= i < |ranges| ==> !SameBounds(ranges[i], start, end)
    ensures r.Some? ==> from <= r.value < |ranges| && SameBounds(ranges[r.value], start, end)
                        && forall i :: from <= i < r.value ==> !SameBounds(ranges[i], start, end)
  {
    if from == |ranges| then None
    else if SameBounds(ranges[from], start, end) then Some(from)
    else FindRangeFrom(ranges, start, end, from + 1)
  }

  function FindRange(ranges: seq<FormattedRange>, start: nat, end: nat): Option<nat> {
    FindRangeFrom(ranges, start, end, 0)
  }

  /** A format switched off if it is on, on if it is off. */
  function Toggle(formats: set<string>, format: string): set<string> {
    if format in formats then formats - {format} else formats + {format}
  }

  /** The range made for a selection no range matches: just this format, coloured only for 'color'. */
  function NewRange(start: nat, end: nat, format: string, currentColor: string): FormattedRange {
    FormattedRange(start, end, {format}, if format == "color" then Some(currentColor) else None)
  }

  /**
   * An existing range with the format toggled: taking 'color' off deletes the colour, putting it
   * on sets the current colour; toggling any other format leaves the colour alone.
   */
  function ToggledRange(r: FormattedRange, format: string, currentColor: string): FormattedRange {
    FormattedRange(r.start, r.end, Toggle(r.formats, format),
                   if format != "color" then r.color
                   else if format in r.formats then None
                   else Some(currentColor))
  }

  /** The ranges after applying a format to the selection `[start, end)`. */
  function RangesAfterApply(ranges: seq<FormattedRange>, start: nat, end: nat, format: string, currentColor: string): seq<FormattedRange> {
    match FindRange(ranges, start, end)
    case None => ranges + [NewRange(start, end, format, currentColor)]
    case Some(i) =>
      var t := ToggledRange(ranges[i], format, currentColor);
      if t.formats == {} then ranges[..i] + ranges[i + 1..] else ranges[i := t]
  }

  /** The range recorded for the character just typed, if any format is active and a character precedes the cursor. */
  function TypedRange(activeFormats: set<string>, currentColor: string, cursor: nat): Option<FormattedRange> {
    if |activeFormats| > 0 && cursor > 0 then
      Some(FormattedRange(cursor - 1, cursor, activeFormats, if "color" in activeFormats then Some(currentColor) else None))
    else None
  }

  /** The state of the `useFormatting` hook. */
  class Formatting {
    var activeFormats: set<string>
    var currentColor: string
    var formattedRanges: seq<FormattedRange>

    constructor()
      ensures activeFormats == {} && currentColor == "#000000" && formattedRanges == []
    {
      activeFormats := {};
      currentColor := "#000000";
      formattedRanges := [];
    }

    /** `setCurrentColor`. */
    method SetCurrentColor(color: string)
      modifies this
      ensures currentColor == color
      ensures activeFormats == old(activeFormats) && formattedRanges == old(formattedRanges)
    {
      currentColor := color;
    }

    /**
     * `applyFormatToSelection`: with a selection, toggles the format on the range with exactly
     * the selection's bounds (or adds a range); with only a cursor, toggles the format for text
     * still to be typed. Nothing happens when the text area is not mounted.
     */
    method ApplyFormatToSelection(format: string, textarea: Option<Selection>)
      modifies this
      ensures textarea.None? ==>
                activeFormats == old(activeFormats) && formattedRanges == old(formattedRanges)
      ensures textarea.Some? && textarea.value.start != textarea.value.end ==>
                && formattedRanges == RangesAfterApply(old(formattedRanges), textarea.value.start, textarea.value.end, format, old(currentColor))
                && activeFormats == old(activeFormats)
      ensures textarea.Some? && textarea.value.start == textarea.value.end ==>
                activeFormats == Toggle(old(activeFormats), format) && formattedRanges == old(formattedRanges)
      ensures currentColor == old(currentColor)
    {
      if textarea.None? {
        return;
      }
      var start, end := textarea.value.start, textarea.value.end;
      if start != end {
        var existing := FindRange(formattedRanges, start, end);
        if existing.Some? {
          var i := existing.value;
          var range := formattedRanges[i];
          if format in range.formats {
            range := range.(formats := range.formats - {format});
            if format == "color" {
              range := range.(color := None);
            }
          } else {
            range := range.(formats := range.formats + {format});
            if format == "color" {
              range := range.(color := Some(currentColor));
            }
          }
          if range.formats == {} {
            formattedRanges := formattedRanges[..i] + formattedRanges[i + 1..];
          } else {
            formattedRanges := formattedRanges[i := range];
          }
        } else {
          formattedRanges := formattedRanges + [NewRange(start, end, format, currentColor)];
        }
      } else {
        var newActiveFormats := activeFormats;
        if format in activeFormats {
          newActiveFormats := newActiveFormats - {format};
        } else {
          newActiveFormats := newActiveFormats + {format};
        }
        activeFormats := newActiveFormats;
      }
    }

    /**
     * `handleTextChange`: records the character before the cursor with the active formats,
     * then forwards the change; with the text area not mounted it does neither.
     */
    method HandleTextChange(textarea: Option<nat>) returns (forwarded: bool)
      modifies this
      ensures forwarded <==> textarea.Some?
      ensures textarea.None? ==> formattedRanges == old(formattedRanges)
      ensures textarea.Some? ==>
                formattedRanges == old(formattedRanges)
                  + (match TypedRange(old(activeFormats), old(currentColor), textarea.value)
                     case None => []
                     case Some(r) => [r])
      ensures activeFormats == old(activeFormats) && currentColor == old(currentColor)
    {
      if textarea.None? {
        return false;
      }
      var cursorPosition := textarea.value;
      if |activeFormats| > 0 && cursorPosition > 0 {
        var newRange := FormattedRange(cursorPosition - 1, cursorPosition, activeFormats,
                                       if "color" in activeFormats then Some(currentColor) else None);
        formattedRanges := formattedRanges + [newRange];
      }
      return true;
    }
  }

  // ---------------------------------------------------------------------------------------------

  /** Toggling a format flips exactly that format, so toggling it twice restores the set. */
  lemma ToggleTwiceRestores(formats: set<string>, format: string)
    ensures format in Toggle(formats, format) <==> format !in formats
    ensures forall g :: g != format ==> (g in Toggle(formats, format) <==> g in formats)
    ensures Toggle(Toggle(formats, format), format) == formats
  {
  }

  /** A selection no range matches gains one new range, added last, holding just the format. */
  lemma ApplyToFreshSelectionAppends(ranges: seq<FormattedRange>, start: nat, end: nat, format: string, color: string)
    requires forall i :: 0 <= i < |ranges| ==> !SameBounds(ranges[i], start, end)
    ensures var r := RangesAfterApply(ranges, start, end, format, color);
            && |r| == |ranges| + 1 && r[..|ranges|] == ranges
            && r[|ranges|].start == start && r[|ranges|].end == end && r[|ranges|].formats == {format}
            && (r[|ranges|].color == Some(color) <==> format == "color")
            && (format != "color" ==> r[|ranges|].color == None)
  {
  }

  /**
   * On the first range with exactly the selection's bounds the format is toggled: the range
   * stays in place unless that leaves it with no format, in which case it is removed; every
   * other range is untouched.
   */
  lemma ApplyToExactRangeToggles(ranges: seq<FormattedRange>, start: nat, end: nat, format: string, color: string, i: nat)
    requires i < |ranges| && SameBounds(ranges[i], start, end)
    requires forall j :: 0 <= j < i ==> !SameBounds(ranges[j], start, end)
    ensures var r := RangesAfterApply(ranges, start, end, format, color);
            var formats := Toggle(ranges[i].formats, format);
            && (formats == {} ==> r == ranges[..i] + ranges[i + 1..])
            && (formats != {} ==>
                  && |r| == |ranges|
                  && r[i].start == start && r[i].end == end && r[i].formats == formats
                  && (format == "color" ==> r[i].color == (if "color" in formats then Some(color) else None))
                  && (format != "color" ==> r[i].color == ranges[i].color)
                  && forall j :: 0 <= j < |ranges| && j != i ==> r[j] == ranges[j])
  {
    assert FindRange(ranges, start, end) == Some(i);
  }

  /**
   * Ranges are matched only on exact bounds, never merged or split: every range with other
   * bounds survives unchanged, and every range in the result either was there before or has
   * exactly the selection's bounds.
   */
  lemma {:induction false} ApplyNeverMergesOrSplits(ranges: seq<FormattedRange>, start: nat, end: nat, format: string, color: string)
    ensures var r := RangesAfterApply(ranges, start, end, format, color);
            && (forall j :: 0 <= j < |ranges| && !SameBounds(ranges[j], start, end) ==> ranges[j] in r)
            && (forall x :: x in r ==> x in ranges || SameBounds(x, start, end))
  {
    var r := RangesAfterApply(ranges, start, end, format, color);
    match FindRange(ranges, start, end)
    case None =>
      assert forall j :: 0 <= j < |ranges| ==> r[j] == ranges[j];
    case Some(i) =>
      var t := ToggledRange(ranges[i], format, color);
      if t.formats == {} {
        forall j | 0 <= j < |ranges| && !SameBounds(ranges[j], start, end) ensures ranges[j] in r {
          if j < i { assert r[j] == ranges[j]; } else { assert r[j - 1] == ranges[j]; }
        }
        forall x | x in r ensures x in ranges {
          var k :| 0 <= k < |r| && r[k] == x;
          if k < i { assert ranges[k] == x; } else { assert ranges[k + 1] == x; }
        }
      } else {
        forall j | 0 <= j < |ranges| && !SameBounds(ranges[j], start, end) ensures ranges[j] in r {
          assert r[j] == ranges[j];
        }
      }
  }

  /** Applying a format twice to a selection no range matched leaves the ranges as they were. */
  lemma ApplyTwiceToFreshSelectionRestores(ranges: seq<FormattedRange>, start: nat, end: nat, format: string, color: string)
    requires FindRange(ranges, start, end).None?
    ensures RangesAfterApply(RangesAfterApply(ranges, start, end, format, color), start, end, format, color) == ranges
  {
    var once := RangesAfterApply(ranges, start, end, format, color);
    assert once == ranges + [NewRange(start, end, format, color)];
    assert forall i :: 0 <= i < |ranges| ==> once[i] == ranges[i] && !SameBounds(once[i], start, end);
    assert SameBounds(once[|ranges|], start, end);
    var found := FindRangeFrom(once, start, end, 0);
    assert found.Some?;
    assert found.value == |ranges|;
    assert once[..|ranges|] + once[|ranges| + 1..] == ranges;
  }

  /**
   * Typing records a range exactly when a format is active and the cursor is past the first
   * character; the range covers just the character before the cursor and carries all the
   * active formats, coloured exactly when 'color' is active.
   */
  lemma TypedRangeCoversTypedCharacter(activeFormats: set<string>, color: string, cursor: nat)
    ensures TypedRange(activeFormats, color, cursor).Some? <==> activeFormats != {} && cursor > 0
    ensures var r := TypedRange(activeFormats, color, cursor);
            r.Some? ==>
              && (forall p :: Covers(r.value, p) <==> p == cursor - 1)
              && r.value.formats == activeFormats
              && (r.value.color.Some? <==> "color" in activeFormats)
  {
    if activeFormats != {} {
      var f :| f in activeFormats;
      assert |activeFormats| > 0;
    }
  }
}
