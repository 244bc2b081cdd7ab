/**
 * Keyboard shortcuts of the formatted text area (src/components/formatting/useKeyboardShortcuts.ts):
 * with Ctrl or Cmd held, B, I and U ask for bold, italic and underline.
 */
module UseKeyboardShortcuts {
  import opened Wrappers

  /** What a key press does: whether the browser's default is prevented, and the format to apply. */
  datatype KeyOutcome = KeyOutcome(preventDefault: bool, format: Option<string>)

  /** `toLowerCase` on the ASCII capitals; other characters are left as they are. */
  function ToLowerAscii(c: char): char {
    if 'A' <= c <= 'Z' then (c as int - 'A' as int + 'a' as int) as char else c
  }

  function ToLower(s: string): (r: string)
    ensures |r| == |s| && forall i :: 0 <= i < |s| ==> r[i] == ToLowerAscii(s[i])
  {
    seq(|s|, i requires 0 <= i < |s| => ToLowerAscii(s[i]))
  }

  /** `handleKeyDown`: the modifier is Ctrl or Cmd; the lower-cased key picks the format. */
  function HandleKeyDown(key: string, ctrlKey: bool, metaKey: bool): KeyOutcome {
    var modifier := ctrlKey || metaKey;
    if !modifier then KeyOutcome(false, None)
    else
      match ToLower(key)
      case "b" => KeyOutcome(true, Some("bold"))
      case "i" => KeyOutcome(true, Some("italic"))
      case "u" => KeyOutcome(true, Some("underline"))
      case _ => KeyOutcome(false, None)
  }

  /** The three formats the shortcuts know. */
  function ShortcutKey(format: string): Option<char> {
    if format == "bold" then Some('b')
    else if format == "italic" then Some('i')
    else if format == "underline" then Some('u')
    else None
  }

  /**
   * A key press does something exactly when a modifier is held and the key is B, I or U in
   * either case; then the default is prevented and the format is the one the letter names.
   */
  lemma ShortcutsPickTheirFormat(key: string, ctrlKey: bool, metaKey: bool)
    ensures var r := HandleKeyDown(key, ctrlKey, metaKey);
            && (r.preventDefault <==> r.format.Some?)
            && (r.format.Some? <==>
                  (ctrlKey || metaKey) && |key| == 1 && key[0] in {'b', 'B', 'i', 'I', 'u', 'U'})
            && (r.format.Some? ==> ShortcutKey(r.format.value) == Some(ToLowerAscii(key[0])))
  {
    var r := HandleKeyDown(key, ctrlKey, metaKey);
    var lower := ToLower(key);
    if ctrlKey || metaKey {
      if |key| == 1 {
        assert lower == [ToLowerAscii(key[0])];
      } else {
        assert |lower| != 1;
        assert lower != "b" && lower != "i" && lower != "u";
      }
    }
  }

  /** Either modifier alone is enough, and without one no key does anything. */
  lemma EitherModifierWorks(key: string)
    ensures HandleKeyDown(key, true, false) == HandleKeyDown(key, false, true) == HandleKeyDown(key, true, true)
    ensures HandleKeyDown(key, false, false) == KeyOutcome(false, None)
  {
  }
}
