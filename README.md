# Scientific poster form and .docx export — a Dafny model

This project models the core of a React application in which a researcher fills in a form for a
scientific poster and exports it as a Word document. The form has a title, authors, an
institution, an optional e-mail, six body sections (introduction, objective, methodology, results
and discussion, conclusion, references), up to two images with captions, and an optional logo.

The model covers these parts:

- **Export pipeline** (`src/utils/`):
  - cleaning the HTML-like text of a field into plain runs (`docxTextParser.ts`);
  - cutting the results text at a word boundary near 40% (`docxTextSplitter.ts`);
  - the image row, caption and logo-header paragraphs (`docxImageHandler.ts`, `imageUtils.ts`);
  - the style constants (`docxStyles.ts`) and paragraph helpers (`docxParagraphs.ts`);
  - the two-column poster document (`docxGenerator.ts`);
  - the five alternative page layouts (`bannerLayouts.ts`).
- **Rich text editor** (`src/components/`):
  - formatted ranges and active formats (`formatting/useFormatting.ts`);
  - the style lookup at a position and the bullet-list button (`FormattedTextArea.tsx`);
  - Ctrl/Cmd shortcuts (`formatting/useKeyboardShortcuts.ts`).
- **Form state hooks** (`src/hooks/`):
  - `useBannerForm.ts`, with field length limits, uploads, captions, the logo, validation and `[IMGn]` tag insertion;
  - the split hooks under `banner/`: `useImageHandling.ts`, `useFormValidation.ts` and `useFormActions.ts`.

The `docx` library's classes are replaced by a tree of datatypes that mirrors their constructor
arguments (module `Docx`). Serialization to bytes is not modelled.

Pure helpers are functions, and each has lemmas stating what it guarantees. Code that loops or
updates state is written as methods:

- `parseFormattedText`, `createImageParagraphs`, `splitTextAtWordBoundary`, `getStylesForPosition`,
  `handleListFormat` and `validateForm` are methods whose loops are proved against a
  specification function.
- The hook states are classes (`UseFormatting.Formatting`, `UseBannerForm.BannerForm`,
  `BannerHookTypes.BannerHookState`). Each handler changes only the fields it names, and states
  the new state in terms of the old one.

Three facts about the code that the model follows:

- The exporter does not interpret inline markers such as `{bold}…{/bold}`. It only strips
  HTML-like tags, so every run it emits is plain text in the body font (`FormattedRunsArePlain`).
- `[IMGn]` placeholders are only inserted into the text; nothing resolves them. The poster places
  all images in a fixed spot: after the second part of the results, in the right column.
- The "modern" layout halves the results with a raw `slice` at `length / 2`. That cut can fall
  inside a word. The word-boundary cut is used only by the two-column exporter.

## Model

| member | source | states |
|---|---|---|
| Strings.Trim | src/utils/docxTextSplitter.ts:14-15 | `trim` keeps the slice between the leading and trailing white space. The result has no white space at either end, and it is empty exactly when the input is all white space. |
| Strings.TrimKeepsText | src/utils/docxTextParser.ts:22 | Trimming removes only white space: the non-white-space characters are unchanged. |
| Strings.BeforeFrom | src/utils/docxTextSplitter.ts:14-15 | `substring(0, k)` followed by `substring(k)` gives back the string, for any `k` (JavaScript clamps it). |
| Strings.Split | src/utils/docxTextParser.ts:33 | `split` on one character returns at least one piece, and no piece contains the separator. |
| Strings.JoinSplit | src/components/FormattedTextArea.tsx:52-71 | Joining what `split` returned gives back the text. |
| Strings.SplitJoin | src/components/FormattedTextArea.tsx:52-71 | Splitting a join gives back the pieces, provided no piece contains the separator. |
| Strings.JoinLength | src/components/FormattedTextArea.tsx:71 | A join is as long as its pieces plus one separator between each pair. |
| Strings.NatToString | src/hooks/useBannerForm.ts:137 | `${n}` is a non-empty string of decimal digits with no leading zero, and the digits denote n. |
| DocxStyles.MillimetresToTwips | src/utils/docxStyles.ts:3-5 | Converts millimetres to twips (1440 per inch), rounded to the nearest twip. |
| DocxStyles.PageMarginsAreAbnt | src/utils/docxStyles.ts:3-11 | The page margins are 3 cm left and right and 2.5 cm top and bottom, in twips. |
| DocxStyles.TwoCellsFillTable | src/utils/docxStyles.ts:30-39 | Two 50% cells fill the 100% table width. |
| DocxTextSplitter.ScanBack | src/utils/docxTextSplitter.ts:3-6 | The backward scan stops at the first index above 0, at or below the start, that holds a space. It stops at 0 when there is none. |
| DocxTextSplitter.SplitPoint | src/utils/docxTextSplitter.ts:3-11 | The cut is either the last space at or before the middle (above index 0), or the middle itself when no such space exists. |
| DocxTextSplitter.SplitTextAtWordBoundary | src/utils/docxTextSplitter.ts:1-17 | The scanning loop returns exactly the two trimmed pieces of the specification. |
| DocxTextSplitter.SplitHalvesComeFromOneCut | src/utils/docxTextSplitter.ts:13-16 | The two results are the trims of the two sides of a single cut of the text. Neither has white space at its ends. |
| DocxTextSplitter.SplitOnSpaceCutsNoWord | src/utils/docxTextSplitter.ts:3-16 | When a space lies at or before the middle, the cut falls on a space at or after it. The parts are the text before that space and the text after it, so no word is broken. |
| DocxTextSplitter.FallbackPastEnd | src/utils/docxTextSplitter.ts:9-15 | With no space and a middle past the end, the whole trimmed text goes first and the second part is empty. |
| DocxTextSplitter.QuickBrownFox | src/utils/docxTextSplitter.ts:1-17 | "the quick brown fox" with middle 7 gives ("the", "quick brown fox"). |
| DocxTextParser.MatchLength | src/utils/docxTextParser.ts:9-20 | A blank-lines match starts and ends with a newline, and a tag match starts with `<`. |
| DocxTextParser.BlankLinesMatchIsWhitespace | src/utils/docxTextParser.ts:19 | What `/\n\s*\n/` matches is all white space. |
| DocxTextParser.ReplaceAllChars | src/utils/docxTextParser.ts:9-20 | Every character of a global replace comes from the input or from the replacement. |
| DocxTextParser.RemovingTagsLeavesNone | src/utils/docxTextParser.ts:15 | After `/<[^>]+>/g` is removed, no tag is left. |
| DocxTextParser.CleanedTextHasNoTags | src/utils/docxTextParser.ts:4-23 | The cleaned text contains no tag at any position. |
| DocxTextParser.CollapsingLeavesNoBlankLines | src/utils/docxTextParser.ts:19 | After blank lines are collapsed, no two newlines have only white space between them. |
| DocxTextParser.CleanedTextHasNoBlankLines | src/utils/docxTextParser.ts:4-23 | The cleaned text has no blank line. |
| DocxTextParser.CleanedLinesHoldText | src/utils/docxTextParser.ts:25-51 | Every line of a non-empty cleaned text trims to something non-empty, so every line yields a run. |
| DocxTextParser.CollapsingKeepsText | src/utils/docxTextParser.ts:19 | Collapsing blank lines removes only white space. |
| DocxTextParser.CleaningKeepsText | src/utils/docxTextParser.ts:18-22 | After the tags are rewritten, the rest of the cleaning removes only white space. |
| DocxTextParser.BreakTagSpellings | src/utils/docxTextParser.ts:11 | `<br>`, `<br/>` and `<br />` are all line breaks; `<bra>` is not. |
| DocxTextParser.RunsOfLines | src/utils/docxTextParser.ts:37-48 | The first k lines yield at most k runs. |
| DocxTextParser.RunsOfTextLines | src/utils/docxTextParser.ts:37-48 | When every line trims to text, each line yields exactly one run, in order. |
| DocxTextParser.ParseFormattedText | src/utils/docxTextParser.ts:25-51 | The loop over the lines builds exactly the runs of the specification. |
| DocxTextParser.RunsFollowCleanedLines | src/utils/docxTextParser.ts:25-51 | Empty cleaned text gives no runs. Otherwise there is one run per line, holding the trimmed line in the default font and size. Every run but the last ends with a line break. |
| DocxTextParser.FormattedRunsArePlain | src/utils/docxTextParser.ts:40-46 | Every run is plain text in the default font and size: not bold, italic or underlined, and with no colour. |
| DocxTextParser.CleanHtml | src/utils/docxTextParser.ts:4-23 | `cleanHtml`, a specification function. Its contract is carried by `CleanedTextHasNoTags`, `CleanedTextHasNoBlankLines`, `CleanedLinesHoldText` and `CleaningKeepsText`: no tag, no blank line, every line holds text, and only white space is removed after the tag rewrite. |
| DocxTextParser.FormattedRuns | src/utils/docxTextParser.ts:25-51 | The runs `parseFormattedText` returns, a specification function. `ParseFormattedText` is proved equal to it, and `RunsFollowCleanedLines` and `FormattedRunsArePlain` state its contract: one plain, trimmed run per cleaned line, with a break on every run but the last. |
| DocxParagraphs.TitleParagraphHoldsTitleLines | src/utils/docxParagraphs.ts:5-9 | The title paragraph is centred, has 400 after it, and holds one run per line of the cleaned title. |
| DocxParagraphs.SectionParagraphsHeadingFirst | src/utils/docxParagraphs.ts:11-20 | A heading paragraph with 200 after it, then the content paragraph with 400 after it, both plain. |
| DocxParagraphs.CreateTitleParagraph | src/utils/docxParagraphs.ts:5-9 | `createTitleParagraph`, whose contract is carried by `TitleParagraphHoldsTitleLines`. |
| DocxParagraphs.CreateSectionParagraphs | src/utils/docxParagraphs.ts:11-20 | `createSectionParagraphs`, whose contract is carried by `SectionParagraphsHeadingFirst`. |
| ImageUtils.SecondField | src/utils/imageUtils.ts:11 | `split(',')[1]` is defined exactly when the string contains a comma. |
| ImageUtils.CreateImageRunOptions | src/utils/imageUtils.ts:10-22 | The payload is the second comma field. The size is as given, the type is SVG, and the PNG fallback has the same size. |
| ImageUtils.SecondFieldBetweenCommas | src/utils/imageUtils.ts:11 | The second field is the text between the first comma and the next one. |
| ImageUtils.PayloadOfDataUrl | src/utils/imageUtils.ts:11 | For a data URL with one comma, the payload is what follows the comma. |
| DocxImageHandler.ReadAll | src/utils/docxImageHandler.ts:8-9 | All images are read, in order, when every read succeeds. Otherwise the failure is one image's error. |
| DocxImageHandler.ImageRowParagraph | src/utils/docxImageHandler.ts:12-18 | The image paragraph holds one image run per image, in order. |
| DocxImageHandler.CreateImageParagraphs | src/utils/docxImageHandler.ts:4-37 | The method, with its caption loop, returns exactly the result of the specification. |
| DocxImageHandler.CaptionParagraphsAppend | src/utils/docxImageHandler.ts:23-33 | One more caption adds a paragraph at the end exactly when that caption is not empty. |
| DocxImageHandler.CaptionsPairInOrder | src/utils/docxImageHandler.ts:23-33 | The caption paragraphs are those of the non-empty captions, in order. |
| DocxImageHandler.ImageParagraphsPairImagesWithCaptions | src/utils/docxImageHandler.ts:4-37 | No images give no paragraphs. Otherwise the call fails exactly when some image cannot be read. On success it gives one centred row of 200×150 images, followed by one centred paragraph per non-empty caption. |
| DocxImageHandler.CreateLogoHeader | src/utils/docxImageHandler.ts:39-62 | The method returns exactly the logo header of the specification. |
| DocxImageHandler.LogoHeaderHoldsOneImage | src/utils/docxImageHandler.ts:39-62 | The header uses the user's logo if there is one, or else the default logo. It succeeds exactly when that image can be read, and then holds one left-aligned 100×100 image. |
| DocxImageHandler.ImageParagraphs | src/utils/docxImageHandler.ts:4-37 | The result of `createImageParagraphs`, a specification function. `CreateImageParagraphs` is proved equal to it, and `ImageParagraphsPairImagesWithCaptions` states its contract. |
| DocxImageHandler.LogoHeader | src/utils/docxImageHandler.ts:39-62 | The result of `createLogoHeader`, a specification function. `CreateLogoHeader` is proved equal to it, and `LogoHeaderHoldsOneImage` states its contract. |
| DocxGenerator.ApproximateMiddle | src/utils/docxGenerator.ts:45 | `Math.ceil(length * 0.4)`: the least m with 5m ≥ 2·length. This integer formula agrees with the double-precision product for every string length. Where 2·length/5 is whole, the product rounds back to that whole number. Elsewhere its fraction is at least 1/5, far above the rounding error. |
| DocxGenerator.GenerationFailsOnUnreadableInput | src/utils/docxGenerator.ts:42-190 | The document is produced exactly when the logo and every image can be read. A failing logo is the reported error even when images fail too. |
| DocxGenerator.PosterHasTitleBlockThenTable | src/utils/docxGenerator.ts:62-155 | The body is centred title (with the Title style), authors and institution paragraphs, then one table built from the two columns. |
| DocxGenerator.GeneratedDocumentShape | src/utils/docxGenerator.ts:50-183 | A produced document has one section with the ABNT margins and the logo header, plus the Title and Normal styles. |
| DocxGenerator.PosterTableGeometry | src/utils/docxGenerator.ts:79-155 | One row of two 4500-twip cells, whose widths sum to the 9000-twip fixed table. The inner margins are 100 and there are no borders. |
| DocxGenerator.LeftColumnAlternates | src/utils/docxGenerator.ts:83-116 | Headings (Introdução, Objetivo, Metodologia, Resultados e Discussão) alternate with justified body paragraphs. The last body paragraph holds the first part of the results. |
| DocxGenerator.BodyIsNoHeading | src/utils/docxGenerator.ts:28-40 | A body paragraph is never a heading. |
| DocxGenerator.RightColumnOrder | src/utils/docxGenerator.ts:117-144 | In order: the second part of the results, the image paragraphs, then Conclusão and Referências, each with its body. |
| DocxGenerator.ResultsSplitKeepsText | src/utils/docxGenerator.ts:44-46 | The two columns together hold all the non-white-space text of the results, in order. |
| DocxGenerator.StylesDefineTitle | src/utils/docxGenerator.ts:158-182 | The Title style is bold and twice the Normal size, in the default font, centred, with 240 after it. |
| DocxGenerator.GenerateBannerDocx | src/utils/docxGenerator.ts:42-189 | `generateBannerDocx`. Its contract is carried by `GenerationFailsOnUnreadableInput`, `GeneratedDocumentShape` and `PosterHasTitleBlockThenTable`. |
| DocxGenerator.CreateSectionTitle | src/utils/docxGenerator.ts:28-40 | `createSectionTitle`. `LeftColumnAlternates`, `RightColumnOrder` and `BodyIsNoHeading` state what its headings are and that no body paragraph is one. |
| DocxGenerator.LeftColumn | src/utils/docxGenerator.ts:83-116 | The left cell's paragraphs, whose contract is carried by `LeftColumnAlternates`. |
| DocxGenerator.RightColumn | src/utils/docxGenerator.ts:117-144 | The right cell's paragraphs, whose contract is carried by `RightColumnOrder`. |
| DocxGenerator.PosterTable | src/utils/docxGenerator.ts:79-155 | The two-column table, whose contract is carried by `PosterTableGeometry`. |
| BannerLayouts.LayoutFollowsPlan | src/utils/bannerLayouts.ts:19-459 | Each layout puts each form text where its placement plan says. |
| BannerLayouts.ClassicSlots | src/utils/bannerLayouts.ts:19-86 | The classic layout reads the six body fields in form order. |
| BannerLayouts.ModernSlots | src/utils/bannerLayouts.ts:89-168 | The modern layout reads the results in two halves and the other fields whole, in form order. |
| BannerLayouts.ZFlowSlots | src/utils/bannerLayouts.ts:171-272 | The Z-flow layout reads the six body fields in form order. |
| BannerLayouts.CircularSlots | src/utils/bannerLayouts.ts:275-358 | The circular layout reads objective first, then the other five in form order. |
| BannerLayouts.HierarchicalSlots | src/utils/bannerLayouts.ts:361-459 | The hierarchical layout reads the six body fields in form order. |
| BannerLayouts.BodySlotsPlaceBodyOnce | src/utils/bannerLayouts.ts:19-86 | The form-order placement places each body field exactly once. |
| BannerLayouts.ModernSlotsPlaceBodyOnce | src/utils/bannerLayouts.ts:89-168 | The modern placement places each body field once, with the results as both halves and never whole. |
| BannerLayouts.CircularSlotsPlaceBodyOnce | src/utils/bannerLayouts.ts:275-358 | The circular placement places each body field once, with objective first. |
| BannerLayouts.PlanPlacesEachBodyFieldOnce | src/utils/bannerLayouts.ts:19-459 | Every layout places each of the six body fields exactly once. All but the circular layout keep form order. |
| BannerLayouts.HalvesRejoin | src/utils/bannerLayouts.ts:134-145 | The two `slice` halves of the results join back into the text, and the second is as long as the first or one longer. |
| BannerLayouts.LayoutRowsAreEven | src/utils/bannerLayouts.ts:19-459 | In every layout table, every row has at least one cell and splits the 9000 twips evenly among its cells. |
| BannerLayouts.LayoutTablesFillWidth | src/utils/bannerLayouts.ts:19-459 | Every rendered table is 9000 twips wide with no borders. Its rows' cell widths sum to 9000, and every cell has the cell margins. |
| BannerLayouts.LayoutParagraphsCentred | src/utils/bannerLayouts.ts:275-459 | Every paragraph standing between the tables is centred, and no paragraph inside a table cell has an alignment. Classic, modern and Z-flow are a single table. Circular is the objective (400 after), the table, then the references (400 before), at lines 292-298 and 350-354. Hierarchical has the methodology between its two tables with 400 before and after, at lines 410-414. |
| BannerLayouts.RenderKeepsStructure | src/utils/bannerLayouts.ts:19-459 | Building the docx blocks keeps every paragraph, row, cell and cell width of the layout. |
| BannerLayouts.BuildLayoutSection | src/utils/bannerLayouts.ts:19-35 | A layout succeeds exactly when the logo header does, and otherwise fails with its error. It gives a landscape 11906×16838 page with the ABNT margins and the logo header. |
| BannerLayouts.LayoutTableNamesFive | src/utils/bannerLayouts.ts:461-467 | The layout table has exactly five names. Each maps to a different layout, and every layout has a name. |
| BannerLayouts.CreateClassicLayout | src/utils/bannerLayouts.ts:19-86 | `createClassicLayout`. Its contract is carried by `ClassicSlots` with `LayoutFollowsPlan`, and by `LayoutTablesFillWidth` and `BuildLayoutSection`. |
| BannerLayouts.CreateModernLayout | src/utils/bannerLayouts.ts:89-168 | `createModernLayout`. Its contract is carried by `ModernSlots` with `LayoutFollowsPlan`, and by `LayoutTablesFillWidth` and `BuildLayoutSection`. |
| BannerLayouts.CreateZFlowLayout | src/utils/bannerLayouts.ts:171-272 | `createZFlowLayout`. Its contract is carried by `ZFlowSlots` with `LayoutFollowsPlan`, and by `LayoutTablesFillWidth` and `BuildLayoutSection`. |
| BannerLayouts.CreateCircularLayout | src/utils/bannerLayouts.ts:275-358 | `createCircularLayout`. Its contract is carried by `CircularSlots` with `LayoutFollowsPlan`, by `LayoutParagraphsCentred`, and by `LayoutTablesFillWidth` and `BuildLayoutSection`. |
| BannerLayouts.CreateHierarchicalLayout | src/utils/bannerLayouts.ts:361-459 | `createHierarchicalLayout`. Its contract is carried by `HierarchicalSlots` with `LayoutFollowsPlan`, by `LayoutParagraphsCentred`, and by `LayoutTablesFillWidth` and `BuildLayoutSection`. |
| BannerLayouts.BuildLayout | src/utils/bannerLayouts.ts:461-467 | Calling the builder that the `layouts` table (the constant `LAYOUTS`) names. `LayoutTableNamesFive` states the table's contract. |
| UseFormatting.FindRangeFrom | src/components/formatting/useFormatting.ts:26-28 | `findIndex` returns the first range with exactly these bounds, or none when no range has them. |
| UseFormatting.Formatting.constructor | src/components/formatting/useFormatting.ts:5-8 | No active format, colour `#000000`, no ranges. |
| UseFormatting.Formatting.SetCurrentColor | src/components/formatting/useFormatting.ts:6 | Changes only the colour. |
| UseFormatting.Formatting.ApplyFormatToSelection | src/components/formatting/useFormatting.ts:10-64 | Without a text area nothing changes. With a selection, the ranges are updated and the active formats stay. Without one, only the active format is toggled. |
| UseFormatting.Formatting.HandleTextChange | src/components/formatting/useFormatting.ts:66-84 | Always forwards the event when there is a text area. It appends the typed character's range exactly when a format is active and the cursor is past 0. |
| UseFormatting.ToggleTwiceRestores | src/components/formatting/useFormatting.ts:52-61 | Toggling flips only that format, and toggling twice restores the set. |
| UseFormatting.ApplyToFreshSelectionAppends | src/components/formatting/useFormatting.ts:19-50 | A selection no range matches adds one range at the end, holding just this format. It is coloured exactly for 'color'. |
| UseFormatting.ApplyToExactRangeToggles | src/components/formatting/useFormatting.ts:30-48 | A matching range has the format toggled. Adding 'color' sets its colour to the current colour, and removing 'color' deletes it. It is removed when its last format goes, and other ranges stay. |
| UseFormatting.ApplyNeverMergesOrSplits | src/components/formatting/useFormatting.ts:26-50 | Ranges with other bounds survive unchanged, and any new range has exactly the selection's bounds. |
| UseFormatting.ApplyTwiceToFreshSelectionRestores | src/components/formatting/useFormatting.ts:18-51 | Applying a format twice to a fresh selection restores the ranges. |
| UseFormatting.TypedRangeCoversTypedCharacter | src/components/formatting/useFormatting.ts:72-81 | The typed range exists exactly when a format is active and the cursor is past 0. It covers only the character before the cursor, with the active formats. |
| UseFormatting.RangesAfterApply | src/components/formatting/useFormatting.ts:19-50 | The ranges after a format is applied to a selection, a specification function. Its contract is carried by `ApplyToFreshSelectionAppends`, `ApplyToExactRangeToggles`, `ApplyNeverMergesOrSplits` and `ApplyTwiceToFreshSelectionRestores`. |
| UseFormatting.TypedRange | src/components/formatting/useFormatting.ts:72-81 | The range recorded for a typed character, a specification function. Its contract is carried by `TypedRangeCoversTypedCharacter`. |
| FormattedTextArea.GetStylesForPosition | src/components/FormattedTextArea.tsx:31-44 | The loop gives the styles of the ranges applied in list order. |
| FormattedTextArea.FlagsComeFromCoveringRanges | src/components/FormattedTextArea.tsx:34-38 | Bold, italic and underline are on exactly when some range covering the position carries that format. |
| FormattedTextArea.ColourComesFromLastPaintingRange | src/components/FormattedTextArea.tsx:34-41 | The colour is that of the last covering range that has 'color' and a non-empty colour, and none when there is no such range. |
| FormattedTextArea.AppendedRangeAppliesLast | src/components/FormattedTextArea.tsx:34-41 | A range added at the end is applied after all the others. |
| FormattedTextArea.TypedCharacterShowsActiveFormats | src/components/FormattedTextArea.tsx:31-44 | The character just typed shows every active format, and the current colour when 'color' is active. |
| FormattedTextArea.BoldSelectionShowsBold | src/components/FormattedTextArea.tsx:35-36 | After bold is applied to a fresh selection, every position in it shows bold. |
| FormattedTextArea.CursorLineFrom | src/components/FormattedTextArea.tsx:53-62 | The cursor line is the first line whose end the cursor does not pass, or line 0 when there is none. |
| FormattedTextArea.HandleListFormat | src/components/FormattedTextArea.tsx:46-80 | Without a text area there is no event. Otherwise the event carries the text area's name and the text with the cursor line's bullet toggled. |
| FormattedTextArea.ListFormatChangesOnlyCursorLine | src/components/FormattedTextArea.tsx:52-71 | The new text has the same lines, except that the cursor line has its bullet toggled. |
| FormattedTextArea.ListFormatChangesLengthByTwo | src/components/FormattedTextArea.tsx:64-71 | The text shrinks by two when the cursor line had a bullet, and grows by two otherwise. |
| FormattedTextArea.ToggleBulletTwice | src/components/FormattedTextArea.tsx:64-69 | Toggling a line twice restores it, unless it starts with two bullets. |
| FormattedTextArea.ListFormatTwiceRestores | src/components/FormattedTextArea.tsx:46-80 | Two presses restore the text when the second press finds the same line and that line did not start with two bullets. |
| FormattedTextArea.ListFormatTwiceCanMoveToNextLine | src/components/FormattedTextArea.tsx:56-69 | Counterexample for any one-line texts a and b, with b non-empty and not bulleted. Start from the bullet, then a, a newline and b, with the cursor just after a. The lemma keeps `selectionStart` unchanged between the presses. The first press takes the bullet off, and the unchanged cursor position now falls on the next line. The second press bullets b, so the text is not restored. |
| UseKeyboardShortcuts.ToLower | src/components/formatting/useKeyboardShortcuts.ts:8 | Lower-casing keeps the length and lower-cases each letter. |
| UseKeyboardShortcuts.ShortcutsPickTheirFormat | src/components/formatting/useKeyboardShortcuts.ts:4-23 | A key acts exactly when Ctrl or Cmd is held and the key is B, I or U in either case. It then prevents the default and names bold, italic or underline. |
| UseKeyboardShortcuts.EitherModifierWorks | src/components/formatting/useKeyboardShortcuts.ts:5-7 | Either modifier alone is enough; with no modifier, nothing happens. |
| UseKeyboardShortcuts.HandleKeyDown | src/components/formatting/useKeyboardShortcuts.ts:4-23 | The `keydown` handler. Its contract is carried by `ShortcutsPickTheirFormat` and `EitherModifierWorks`. |
| FormData.SetText | src/hooks/useBannerForm.ts:50 | `{ ...prev, [name]: value }` sets the named field and leaves every other field, the images, the captions and the logo unchanged. |
| FormData.Blanks | src/hooks/useBannerForm.ts:71 | `Array(n).fill('')` is n empty captions. |
| FormData.SetCaption | src/hooks/useBannerForm.ts:83-89 | Only caption `index` changes. An index past the end grows the list with empty captions, and a negative index changes nothing. |
| FormTransitions.UploadAppendsWithBlankCaptions | src/hooks/useBannerForm.ts:70-76 | The old images and captions are kept, and the files are appended in order with empty captions. Captions stay paired with images when the total stays at two or fewer, and the texts are untouched. |
| FormTransitions.UploadKeepsSizeLimit | src/hooks/useBannerForm.ts:63-76 | Accepting only batches within the limit keeps every image within it. |
| FormTransitions.ImageTag | src/hooks/useBannerForm.ts:137 | `[IMG${n}]` begins with `[IMG` and ends with `]`, and what lies between is the decimal string of n, which denotes n. |
| FormTransitions.ImageTagExamples | src/hooks/useBannerForm.ts:137 | The second image's tag is `[IMG2]` and the twelfth image's is `[IMG12]`. |
| FormTransitions.ImageTagSitsAtCursor | src/hooks/useBannerForm.ts:139 | The tag sits at the clamped cursor, with the old text unchanged before and after it. Removing the tag gives the old text back. |
| FormTransitions.ImageTagsDiffer | src/hooks/useBannerForm.ts:136-137 | Different image numbers give different tags. |
| Strings.NatToStringInjective | src/hooks/useBannerForm.ts:137 | Two numbers with the same decimal string are equal. |
| UseFormValidation.ValidateForm | src/hooks/banner/useFormValidation.ts:4-26 | Valid exactly when every required field holds text. The errors are those of the specification. |
| UseFormValidation.RequiredFieldsListed | src/hooks/banner/useFormValidation.ts:5-14 | The list names exactly the eight required fields: all text fields except objective and email. |
| UseFormValidation.ErrorsOfMarksEmptyFields | src/hooks/banner/useFormValidation.ts:15-22 | The map's keys are the names of the empty listed fields, and every value is true. |
| UseFormValidation.ValidationErrorsMarkEmptyRequiredFields | src/hooks/banner/useFormValidation.ts:4-26 | Errors mark exactly the empty required fields and never hold false. The map is empty exactly when the form is valid. |
| UseFormValidation.ValidationReadsOnlyRequiredFields | src/hooks/banner/useFormValidation.ts:5-14 | Objective, e-mail, images, captions and logo play no part in validation. |
| UseFormActions.ResetForm | src/hooks/banner/useFormActions.ts:11-20 | Resets to the initial form, no previews, no errors and a cleared save status. |
| UseFormActions.HandleInputChange | src/hooks/banner/useFormActions.ts:22-33 | Sets only the named field, with no length limit. The field's error becomes false and the save status is cleared. |
| UseFormActions.InputChangeClearsOnlyItsValidationError | src/hooks/banner/useFormActions.ts:22-33 | A non-empty input is no longer reported by validation, and every other field is reported as before. |
| BannerHookTypes.BannerHookState.constructor | src/hooks/banner/types.ts:3-7 | The hook state with the declared `SaveStatus` shape, holding the given form. Its other starting values are a choice of the model, because no file of the model sets them: no errors, no previews, and a cleared save status. |
| UseImageHandling.UploadAsWritten | src/hooks/banner/useImageHandling.ts:8-12 | As written, the upload handler always throws. |
| UseImageHandling.ImageInsertAsWritten | src/hooks/banner/useImageHandling.ts:44-52 | As written, the insert handler returns when there is no text area and throws otherwise. |
| UseImageHandling.HandlersAsWrittenNeverChangeTheForm | src/hooks/banner/useImageHandling.ts:10 | As written, no batch is ever taken and no tag is ever inserted. |
| UseImageHandling.OversizedFileSlipsThrough | src/hooks/banner/useImageHandling.ts:14-18 | A file one byte over the limit passes the check as written, but not the intended check. |
| UseImageHandling.HandleImageUpload | src/hooks/banner/useImageHandling.ts:8-28 | Corrected: a batch is taken exactly when the total stays at two or fewer and every file is within the limit. It is then appended with empty captions and previews, keeping the pairing and the size invariant. |
| UseImageHandling.HandleCaptionChange | src/hooks/banner/useImageHandling.ts:30-36 | Only the caption at the index changes. |
| UseImageHandling.HandleLogoUpload | src/hooks/banner/useImageHandling.ts:38-42 | The logo is set exactly when the file is within the limit. |
| UseImageHandling.HandleImageInsert | src/hooks/banner/useImageHandling.ts:44-60 | Corrected: with a text area, the tag numbered by the current image count (the latest upload) is spliced in at the cursor. With no images it inserts `[IMG0]`, which names no image. |
| UseBannerForm.InputLimits | src/hooks/useBannerForm.ts:35-48 | The limits are title 120, authors 150, introduction 500, methodology 400, results 600, conclusion 400 and references 300. Institution, objective and e-mail take any length. |
| UseBannerForm.ClearError | src/hooks/useBannerForm.ts:51-53 | A set error flag becomes false; an absent or already cleared flag is left alone. |
| UseBannerForm.AcceptedInputKeepsLengthLimits | src/hooks/useBannerForm.ts:45-50 | Accepted input keeps every field within its limit. |
| UseBannerForm.BannerForm.constructor | src/hooks/useBannerForm.ts:8-25 | Empty texts (with e-mail as ""), no images, logo or errors, and no previews. |
| UseBannerForm.BannerForm.HandleInputChange | src/hooks/useBannerForm.ts:31-54 | Text over the limit changes nothing. Otherwise only the field changes and its set error flag is cleared. The pairing, length and size invariants are kept. |
| UseBannerForm.BannerForm.HandleImageUpload | src/hooks/useBannerForm.ts:56-81 | A batch is taken exactly when the total stays at two or fewer and every file is within the limit. It is appended with empty captions and previews. |
| UseBannerForm.BannerForm.HandleCaptionChange | src/hooks/useBannerForm.ts:83-89 | Only the caption changes. Captions stay paired with images for an index in range. |
| UseBannerForm.BannerForm.HandleLogoUpload | src/hooks/useBannerForm.ts:91-97 | The logo is set exactly when the file is within the limit. |
| UseBannerForm.BannerForm.ValidateForm | src/hooks/useBannerForm.ts:99-120 | Replaces the errors with the flags of the empty required fields, and returns whether there are none. |
| UseBannerForm.BannerForm.HandleImageInsert | src/hooks/useBannerForm.ts:122-150 | Without images or a text area, nothing changes. Otherwise the tag numbered by the current image count (the latest upload) is spliced in at the cursor, and the cursor lands just after it. |
| UseBannerForm.RestoredCursorFollowsTag | src/hooks/useBannerForm.ts:139-147 | The restored cursor sits right after the tag, with the old text before it. |

## Left out

- Browser and file I/O are parameters or outside the model:
  - Reading a file as a data URL (`FileReader`) is the `dataUrl` field of `ImageFile`.
  - Fetching the default logo is the `defaultLogo` parameter.
  - `URL.createObjectURL` previews are represented by the files they were made for.
  - Toasts, `console.error`, `textarea.focus()` and the `setTimeout` that restores the cursor are left out; the restored cursor is returned instead.
  - `downloadAsDocx`, with its link, click and object URL, is left out.
- Serialization by `Packer.toBlob` is not modelled. The `docx` classes are mirrored by datatypes.
- `document.querySelector` and `textareaRef.current` become an optional cursor or selection parameter.
- React's asynchronous state batching and re-rendering are not modelled. Each handler runs to completion on the current state.
- Where the caret goes after the list button writes a new value into the text area is not modelled. A browser moves it to the end of the text; the list lemmas keep `selectionStart` where it was.
- `DocxGenerator.GenerationFailsOnUnreadableInput`: `Promise.all` rejects with whichever image read fails first in time. The model reports the first failing image in list order.
- `Strings.IsWhitespace`: `\s` and `trim` are modelled over a fixed set of white-space characters. The remaining Unicode space separators and line terminators are left out.
- String lengths count Dafny characters, not UTF-16 code units. "•" is a single unit in both.
- `UseKeyboardShortcuts.ToLower`: `toLowerCase` is modelled only for ASCII capitals.
- `MAX_IMAGE_SIZE_KB` is imported from `src/utils/docxStyles.ts`, but that file does not define it. The limit is therefore a parameter (`maxImageSizeKb`).
- Input names other than the ten text fields, non-integer caption indices and `undefined` text values are not modelled. Inputs are named by the `TextField` enumeration.
- `UseFormatting.Formatting.ApplyFormatToSelection`: an existing range's `formats` set is mutated in place and may be shared. The model replaces the range by value, so aliasing is not captured.
- Cookie persistence (`src/hooks/banner/useCookieStorage.ts`) is not part of this model.
- The rendering components are not part of this model: previews, inputs, toolbar, colour picker and text-area sizing.
- Inline markers such as `{bold}` are not parsed anywhere in the source, so the model has none. `[IMGn]` tags are never resolved, as in the source.
- `src/models/formData.tsx` is a second form type without `objective`. The model uses `src/models/formData.ts`.

## Findings

| source | as written | input that shows it | evidently intended | confidence | as-written member | corrected member |
|---|---|---|---|---|---|---|
| src/hooks/banner/useImageHandling.ts:10 | `handleImageUpload` reads `formData`, but the hook has no variable of that name. The handler throws a ReferenceError before any setter runs. | any batch, e.g. one 1 KB file into an empty form | check and extend the current form, as `src/hooks/useBannerForm.ts:58-76` does | high (not executed) | UseImageHandling.UploadAsWritten | UseImageHandling.HandleImageUpload |
| src/hooks/banner/useImageHandling.ts:51-52 | `handleImageInsert` reads the undeclared `formData` once a text area is found, and throws. | any call while the results text area is present | splice the tag into the current results text | high (not executed) | UseImageHandling.ImageInsertAsWritten | UseImageHandling.HandleImageInsert |
| src/hooks/banner/useImageHandling.ts:14-18 | The size check's `return` inside `forEach` leaves only the callback, so oversized files are appended. | one file of `MAX_IMAGE_SIZE_KB·1024 + 1` bytes into an empty form | reject the batch when any file is over the limit, as `src/hooks/useBannerForm.ts:63-68` does | high (not executed) | UseImageHandling.OversizedFileSlipsThrough | UseImageHandling.HandleImageUpload |
