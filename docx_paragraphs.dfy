/** The paragraph helpers of the layouts (src/utils/docxParagraphs.ts). */
module DocxParagraphs {
  import opened Wrappers
  import opened Strings
  import opened Docx
  import opened DocxStyles
  import opened DocxTextParser

  /** `createTitleParagraph`: the title's runs, centered, with the paragraph spacing. */
  function CreateTitleParagraph(title: string): Paragraph {
    Paragraph(FormattedRuns(title), Some(Center), Some(PARAGRAPH_SPACING), None)
  }

  /** `createSectionParagraphs`: a heading paragraph with 200 after, then the content paragraph. */
  function CreateSectionParagraphs(title: string, content: string): seq<Paragraph> {
    [ Paragraph(FormattedRuns(title), None, Some(Spacing(None, Some(200))), None),
      Paragraph(FormattedRuns(content), None, Some(PARAGRAPH_SPACING), None) ]
  }

  /**
   * The title paragraph is centered, has 400 after it, and holds one run per line of the
   * cleaned title, each with that line's trimmed text and nothing bold.
   */
  lemma TitleParagraphHoldsTitleLines(title: string)
    ensures var p := CreateTitleParagraph(title);
            var c := CleanHtml(title);
            && p.alignment == Some(Center)
            && p.spacing == Some(Spacing(None, Some(400)))
            && (c == "" ==> p.children == [])
            && (c != "" ==> RunsMatchLines(p.children, Split(c, '\n')))
  {
    RunsFollowCleanedLines(title);
  }

  /**
   * Exactly two paragraphs, heading first: the heading's runs come from the heading text, with
   * 200 after; the content's runs come from the content, with 400 after. Neither paragraph
   * sets an alignment, and all their runs are plain: the heading is not bold.
   */
  lemma SectionParagraphsHeadingFirst(title: string, content: string)
    ensures var ps := CreateSectionParagraphs(title, content);
            && |ps| == 2
            && ps[0].children == FormattedRuns(title) && ps[1].children == FormattedRuns(content)
            && ps[0].spacing == Some(Spacing(None, Some(200)))
            && ps[1].spacing == Some(Spacing(None, Some(400)))
            && ps[0].alignment == None && ps[1].alignment == None
            && PlainRuns(ps[0].children) && PlainRuns(ps[1].children)
  {
    FormattedRunsArePlain(content);
    FormattedRunsArePlain(title);
  }
}
