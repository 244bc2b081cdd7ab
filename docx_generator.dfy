/**
 * The poster document (src/utils/docxGenerator.ts): the title block, then one fixed
 * two-column table whose left column holds the introduction, objective, methodology and the
 * first part of the results, and whose right column holds the rest of the results, the
 * images, the conclusion and the references. Serialising the document to a file is not
 * modelled; the document value is the result.
 */
module DocxGenerator {
  import opened Wrappers
  import opened Strings
  import opened Docx
  import opened DocxStyles
  import opened FormData
  import opened DocxTextParser
  import opened DocxTextSplitter
  import opened DocxImageHandler

  /** `Math.ceil(length * 0.4)`, computed exactly: where the first column's share of the results ends. */
  function ApproximateMiddle(length: nat): (m: nat)
    ensures 2 * length <= 5 * m < 2 * length + 5
    ensures m <= length
  {
    (2 * length + 4) / 5
  }

  /** `createSectionTitle`: the heading alone in a bold run of the default font and size, 240 before and 120 after. */
  function CreateSectionTitle(title: string): Paragraph {
    Paragraph([TextRun(title, Some(DEFAULT_FONT), Some(DEFAULT_FONT_SIZE), true, false, false, None, 0)],
              None, Some(Spacing(Some(240), Some(120))), None)
  }

  /** A body paragraph of the table: the text's runs, justified, with the paragraph spacing. */
  function JustifiedParagraph(text: string): Paragraph {
    Paragraph(FormattedRuns(text), Some(Justified), Some(PARAGRAPH_SPACING), None)
  }

  /** The two parts of the results: cut at the last space at or before 40% of the text. */
  function ResultsHalves(form: BannerFormData): (string, string) {
    SplitAtWordBoundary(form.resultsAndDiscussion, ApproximateMiddle(|form.resultsAndDiscussion|))
  }

  const LEFT_CELL_MARGINS: Margins := CELL_MARGINS.(right := 100)
  const RIGHT_CELL_MARGINS: Margins := CELL_MARGINS.(left := 100)

  function LeftColumn(form: BannerFormData, firstHalf: string): seq<Paragraph> {
    [ CreateSectionTitle("Introdução"), JustifiedParagraph(form.introduction),
      CreateSectionTitle("Objetivo"), JustifiedParagraph(form.objective),
      CreateSectionTitle("Metodologia"), JustifiedParagraph(form.methodology),
      CreateSectionTitle("Resultados e Discussão"), JustifiedParagraph(firstHalf) ]
  }

  function RightColumn(form: BannerFormData, secondHalf: string, imageParagraphs: seq<Paragraph>): seq<Paragraph> {
    [JustifiedParagraph(secondHalf)]
    + imageParagraphs
    + [ CreateSectionTitle("Conclusão"), JustifiedParagraph(form.conclusion),
        CreateSectionTitle("Referências"), JustifiedParagraph(form.references) ]
  }

  /** The fixed two-column table: 9000 twips, columns of 4500, no borders. */
  function PosterTable(left: seq<Paragraph>, right: seq<Paragraph>): Table {
    Table([Row([Cell(left, Width(4500, Dxa), LEFT_CELL_MARGINS, NO_BORDERS),
                Cell(right, Width(4500, Dxa), RIGHT_CELL_MARGINS, NO_BORDERS)])],
          Width(9000, Dxa), NO_BORDERS, Some([4500, 4500]), Some(Fixed))
  }

  /** The body of the section: title, authors, institution, then the table. */
  function PosterBlocks(form: BannerFormData, imageParagraphs: seq<Paragraph>): seq<Block> {
    var (firstHalf, secondHalf) := ResultsHalves(form);
    [ Para(Paragraph(FormattedRuns(form.title), Some(Center), Some(Spacing(Some(0), Some(240))), Some("Title"))),
      Para(Paragraph(FormattedRuns(form.authors), Some(Center), Some(Spacing(Some(0), Some(120))), None)),
      Para(Paragraph(FormattedRuns(form.institution), Some(Center), Some(Spacing(Some(0), Some(240))), None)),
      Tbl(PosterTable(LeftColumn(form, firstHalf), RightColumn(form, secondHalf, imageParagraphs))) ]
  }

  const TITLE_STYLE: ParagraphStyle :=
    ParagraphStyle("Title", "Title", RunStyle(48, true, DEFAULT_FONT), Some(Spacing(Some(0), Some(240))), Some(Center))

  const NORMAL_STYLE: ParagraphStyle :=
    ParagraphStyle("Normal", "Normal", RunStyle(DEFAULT_FONT_SIZE, false, DEFAULT_FONT), None, None)

  /**
   * `generateBannerDocx`, up to serialisation: the logo header is awaited first, then the
   * image paragraphs; the first of them to fail is the error the call rethrows.
   */
  function GenerateBannerDocx(form: BannerFormData, defaultLogo: Result<string>): Result<Document> {
    match LogoHeader(form.logo, defaultLogo)
    case Failure(e) => Failure(e)
    case Success(logoHeader) =>
      match ImageParagraphs(form.images, form.imageCaptions)
      case Failure(e) => Failure(e)
      case Success(imageParagraphs) =>
        Success(Document(
          [Section(PageProperties(PAGE_MARGINS, None, None), Header(logoHeader.children),
                   PosterBlocks(form, imageParagraphs))],
          [TITLE_STYLE, NORMAL_STYLE]))
  }

  // ---------------------------------------------------------------------------------------------

  /** A heading made by `createSectionTitle`: one bold run of the default font and size. */
  predicate IsHeading(p: Paragraph) {
    |p.children| == 1 && p.children[0].TextRun? && p.children[0].bold
    && p.children[0].font == Some(DEFAULT_FONT) && p.children[0].size == Some(DEFAULT_FONT_SIZE)
  }

  /**
   * The document is produced exactly when the logo and every image can be read. A logo that
   * cannot be read is the error even when images cannot be read either; otherwise the error is
   * an unreadable image's.
   */
  lemma GenerationFailsOnUnreadableInput(form: BannerFormData, defaultLogo: Result<string>)
    ensures var logo := if form.logo.Some? then form.logo.value.dataUrl else defaultLogo;
            var r := GenerateBannerDocx(form, defaultLogo);
            && (r.Success? <==> logo.Success? && forall i :: 0 <= i < |form.images| ==> form.images[i].dataUrl.Success?)
            && (logo.Failure? ==> r == Failure(logo.error))
            && (logo.Success? && r.Failure? ==>
                  exists i :: 0 <= i < |form.images| && form.images[i].dataUrl == Failure(r.error))
  {
  }

  /**
   * The body of the poster: the title in the "Title" style, the authors and the institution,
   * all centered, then the table, whose columns hold the two parts of the results.
   */
  lemma PosterHasTitleBlockThenTable(form: BannerFormData, imageParagraphs: seq<Paragraph>)
    ensures var bs := PosterBlocks(form, imageParagraphs);
            && |bs| == 4
            && bs[0].Para? && bs[1].Para? && bs[2].Para? && bs[3].Tbl?
            && bs[0].paragraph.style == Some("Title") && bs[1].paragraph.style == None && bs[2].paragraph.style == None
            && bs[0].paragraph.children == FormattedRuns(form.title)
            && bs[1].paragraph.children == FormattedRuns(form.authors)
            && bs[2].paragraph.children == FormattedRuns(form.institution)
            && bs[0].paragraph.alignment == bs[1].paragraph.alignment == bs[2].paragraph.alignment == Some(Center)
            && bs[3].table == PosterTable(LeftColumn(form, ResultsHalves(form).0),
                                          RightColumn(form, ResultsHalves(form).1, imageParagraphs))
  {
    var halves := ResultsHalves(form);
    var table := PosterTable(LeftColumn(form, halves.0), RightColumn(form, halves.1, imageParagraphs));
    assert PosterBlocks(form, imageParagraphs)[3] == Tbl(table);
  }

  /**
   * A produced document has one section with the ABNT margins and the default page size and
   * orientation, a header holding the logo paragraph, the poster body around the image
   * paragraphs, and the two styles.
   */
  lemma GeneratedDocumentShape(form: BannerFormData, defaultLogo: Result<string>)
    requires GenerateBannerDocx(form, defaultLogo).Success?
    ensures var d := GenerateBannerDocx(form, defaultLogo).value;
            && |d.sections| == 1
            && d.sections[0].page == PageProperties(PAGE_MARGINS, None, None)
            && d.sections[0].header == LogoHeader(form.logo, defaultLogo).value
            && d.sections[0].children == PosterBlocks(form, ImageParagraphs(form.images, form.imageCaptions).value)
            && d.paragraphStyles == [TITLE_STYLE, NORMAL_STYLE]
  {
  }

  /**
   * The table has one row of two 4500-twip cells whose widths are the declared column
   * widths, and which together fill the 9000-twip table; the layout is fixed, there are no
   * borders, and the inner margins next to the column gap are 100 instead of 200.
   */
  lemma PosterTableGeometry(left: seq<Paragraph>, right: seq<Paragraph>)
    ensures var t := PosterTable(left, right);
            && |t.rows| == 1 && |t.rows[0].cells| == 2
            && t.columnWidths.Some? && |t.columnWidths.value| == 2
            && (forall c :: 0 <= c < 2 ==> t.rows[0].cells[c].width == Width(t.columnWidths.value[c], Dxa))
            && Sum(t.columnWidths.value) == t.width.size == CellWidths(t.rows[0].cells) == 9000
            && t.layout == Some(Fixed) && t.borders == NO_BORDERS
            && t.rows[0].cells[0].margins.right == t.rows[0].cells[1].margins.left == 100
            && t.rows[0].cells[0].margins.left == t.rows[0].cells[1].margins.right == CELL_MARGINS.left
  {
    var t := PosterTable(left, right);
    var cells := t.rows[0].cells;
    assert t.columnWidths.value[1..] == [4500] && [4500][1..] == [];
    assert Sum(t.columnWidths.value) == 9000;
    assert cells[1..] == [cells[1]] && [cells[1]][1..] == [];
    assert CellWidths([cells[1]]) == 4500;
  }

  /**
   * Reading the left column, headings and bodies alternate: a heading (bold, never a body
   * run) before each of the introduction, the objective, the methodology and the first part
   * of the results, each body justified.
   */
  lemma LeftColumnAlternates(form: BannerFormData, firstHalf: string)
    ensures var ps := LeftColumn(form, firstHalf);
            && |ps| == 8
            && IsHeading(ps[0]) && !IsHeading(ps[1]) && IsHeading(ps[2]) && !IsHeading(ps[3])
            && IsHeading(ps[4]) && !IsHeading(ps[5]) && IsHeading(ps[6]) && !IsHeading(ps[7])
            && ps[1].alignment == ps[3].alignment == ps[5].alignment == ps[7].alignment == Some(Justified)
            && ps[0].children[0].text == "Introdução" && ps[1].children == FormattedRuns(form.introduction)
            && ps[2].children[0].text == "Objetivo" && ps[3].children == FormattedRuns(form.objective)
            && ps[4].children[0].text == "Metodologia" && ps[5].children == FormattedRuns(form.methodology)
            && ps[6].children[0].text == "Resultados e Discussão" && ps[7].children == FormattedRuns(firstHalf)
  {
    BodyIsNoHeading(form.introduction);
    BodyIsNoHeading(form.objective);
    BodyIsNoHeading(form.methodology);
    BodyIsNoHeading(firstHalf);
  }

  /** A body paragraph never reads as a heading: its runs are not bold. */
  lemma BodyIsNoHeading(text: string)
    ensures !IsHeading(JustifiedParagraph(text))
  {
    FormattedRunsArePlain(text);
  }

  /**
   * Reading the right column: the rest of the results, then the image paragraphs unchanged,
   * then the "Conclusão" heading and the conclusion, then the "Referências" heading and the
   * references.
   */
  lemma RightColumnOrder(form: BannerFormData, secondHalf: string, imageParagraphs: seq<Paragraph>)
    ensures var ps := RightColumn(form, secondHalf, imageParagraphs);
            var n := |imageParagraphs|;
            && |ps| == n + 5
            && ps[0] == JustifiedParagraph(secondHalf) && !IsHeading(ps[0])
            && ps[1..n + 1] == imageParagraphs
            && ps[n + 1] == CreateSectionTitle("Conclusão") && IsHeading(ps[n + 1])
            && ps[n + 2] == JustifiedParagraph(form.conclusion) && !IsHeading(ps[n + 2])
            && ps[n + 3] == CreateSectionTitle("Referências") && IsHeading(ps[n + 3])
            && ps[n + 4] == JustifiedParagraph(form.references) && !IsHeading(ps[n + 4])
  {
    ParagraphsAroundImages(JustifiedParagraph(secondHalf), imageParagraphs,
                           CreateSectionTitle("Conclusão"), JustifiedParagraph(form.conclusion),
                           CreateSectionTitle("Referências"), JustifiedParagraph(form.references));
    BodyIsNoHeading(secondHalf);
    BodyIsNoHeading(form.conclusion);
    BodyIsNoHeading(form.references);
  }

  /** Where each paragraph of one paragraph, the images, then four paragraphs ends up. */
  lemma ParagraphsAroundImages(p: Paragraph, images: seq<Paragraph>, c: Paragraph, d: Paragraph, e: Paragraph, f: Paragraph)
    ensures var ps := [p] + images + [c, d, e, f];
            var n := |images|;
            && |ps| == n + 5 && ps[0] == p && ps[1..n + 1] == images
            && ps[n + 1] == c && ps[n + 2] == d && ps[n + 3] == e && ps[n + 4] == f
  {
    var ps := [p] + images + [c, d, e, f];
    assert ps[1..|images| + 1] == images;
  }

  /**
   * Splitting the results between the columns loses no visible character and adds none: the
   * non-blank characters of the two parts, in order, are those of the whole text.
   */
  lemma ResultsSplitKeepsText(form: BannerFormData)
    ensures NonWhitespace(ResultsHalves(form).0) + NonWhitespace(ResultsHalves(form).1)
            == NonWhitespace(form.resultsAndDiscussion)
  {
    var text := form.resultsAndDiscussion;
    var m := ApproximateMiddle(|text|);
    SplitHalvesComeFromOneCut(text, m);
    var k := ClampIndex(SplitPoint(text, m), |text|);
    TrimKeepsText(text[..k]);
    TrimKeepsText(text[k..]);
    NonWhitespaceAppend(text[..k], text[k..]);
  }

  /**
   * The title paragraph names a style the document defines; the title style is centered,
   * bold, twice the size of the normal style, with the title paragraph's own spacing, and both
   * styles use the default font.
   */
  lemma StylesDefineTitle()
    ensures TITLE_STYLE.id == "Title" && NORMAL_STYLE.id == "Normal"
    ensures TITLE_STYLE.run.size == 2 * NORMAL_STYLE.run.size
    ensures TITLE_STYLE.run.bold && !NORMAL_STYLE.run.bold
    ensures TITLE_STYLE.run.font == NORMAL_STYLE.run.font == DEFAULT_FONT
    ensures TITLE_STYLE.alignment == Some(Center) && TITLE_STYLE.spacing == Some(Spacing(Some(0), Some(240)))
  {
  }
}
