/**
 * The part of the word-processor document object graph the exporter builds: the arguments
 * given to the `docx` library's Paragraph, TextRun, ImageRun, Table, TableRow, TableCell,
 * Header and Document constructors, kept as plain values. Properties the source leaves out of
 * a constructor call are `None` (or `false` for a run flag); lengths are in twips (DXA) unless
 * a `Width` says it is a percentage.
 */
module Docx {
  import opened Wrappers

  datatype Alignment = Left | Center | Justified

  /** Space before and after a paragraph. */
  datatype Spacing = Spacing(before: Option<nat>, after: Option<nat>)

  datatype WidthType = Dxa | Percentage

  datatype Width = Width(size: nat, kind: WidthType)

  datatype Margins = Margins(top: nat, right: nat, bottom: nat, left: nat)

  /** `BorderStyle.NONE`, the only border style the exporter uses. */
  datatype BorderStyle = NoBorder

  datatype Borders = Borders(top: BorderStyle, bottom: BorderStyle, left: BorderStyle, right: BorderStyle)

  datatype ImageType = Svg | Png

  datatype Transformation = Transformation(width: int, height: int)

  datatype Fallback = Fallback(kind: ImageType, width: int, height: int)

  /** The options object handed to `new ImageRun(...)`; `data` is the base64 payload. */
  datatype ImageRunOptions = ImageRunOptions(
    data: Option<string>,
    transformation: Transformation,
    kind: ImageType,
    fallback: Fallback)

  /** A text run (its `lineBreaks` is the `break` option: line breaks before the text) or an image. */
  datatype Run =
    | TextRun(text: string, font: Option<string>, size: Option<nat>, bold: bool, italic: bool,
              underline: bool, color: Option<string>, lineBreaks: nat)
    | ImageRun(options: ImageRunOptions)

  datatype Paragraph = Paragraph(
    children: seq<Run>,
    alignment: Option<Alignment>,
    spacing: Option<Spacing>,
    style: Option<string>)

  datatype Cell = Cell(children: seq<Paragraph>, width: Width, margins: Margins, borders: Borders)

  datatype Row = Row(cells: seq<Cell>)

  datatype TableLayout = Fixed

  datatype Table = Table(
    rows: seq<Row>,
    width: Width,
    borders: Borders,
    columnWidths: Option<seq<nat>>,
    layout: Option<TableLayout>)

  /** A child of a document section: a paragraph or a table. */
  datatype Block = Para(paragraph: Paragraph) | Tbl(table: Table)

  datatype PageSize = PageSize(width: nat, height: nat)

  datatype Orientation = Landscape

  datatype PageProperties = PageProperties(margin: Margins, size: Option<PageSize>, orientation: Option<Orientation>)

  datatype Header = Header(children: seq<Paragraph>)

  /** One section of a document: page geometry, the default header and the body. */
  datatype Section = Section(page: PageProperties, header: Header, children: seq<Block>)

  datatype RunStyle = RunStyle(size: nat, bold: bool, font: string)

  datatype ParagraphStyle = ParagraphStyle(id: string, name: string, run: RunStyle, spacing: Option<Spacing>, alignment: Option<Alignment>)

  datatype Document = Document(sections: seq<Section>, paragraphStyles: seq<ParagraphStyle>)

  /** Sum of the widths of a row's cells. */
  function CellWidths(cells: seq<Cell>): nat {
    if cells == [] then 0 else cells[0].width.size + CellWidths(cells[1..])
  }

  function Sum(xs: seq<nat>): nat {
    if xs == [] then 0 else xs[0] + Sum(xs[1..])
  }
}
