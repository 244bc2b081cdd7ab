/**
 * The fixed page and table geometry of the poster (src/utils/docxStyles.ts): ABNT page
 * margins in twips, the body font, cell margins, invisible borders and column widths.
 */
module DocxStyles {
  import opened Wrappers
  import opened Docx

  /**
   * A length in millimetres in twips (1440 per inch of 25.4 mm), rounded to the nearest twip:
   * the result is within half a twip of the exact value mm * 7200 / 127.
   */
  function MillimetresToTwips(mm: nat): (t: nat)
    ensures -127 <= 2 * (t * 127 - mm * 7200) <= 127
  {
    (mm * 14400 + 127) / 254
  }

  /** Top and bottom 2.5 cm, left and right 3 cm. */
  const PAGE_MARGINS: Margins := Margins(top := 1417, right := 1701, bottom := 1417, left := 1701)

  const DEFAULT_FONT: string := "Times New Roman"

  /** In half-points: 12 pt. */
  const DEFAULT_FONT_SIZE: nat := 24

  const CELL_MARGINS: Margins := Margins(top := 200, right := 200, bottom := 200, left := 200)

  const NO_BORDERS: Borders := Borders(top := NoBorder, bottom := NoBorder, left := NoBorder, right := NoBorder)

  const CELL_WIDTH: Width := Width(50, Percentage)

  const TABLE_WIDTH: Width := Width(100, Percentage)

  const PARAGRAPH_SPACING: Spacing := Spacing(before := None, after := Some(400))

  const IMAGE_WIDTH: nat := 1500

  const IMAGE_HEIGHT: nat := 1000

  /** The page margins are the ABNT ones: 3 cm at the sides, 2.5 cm at the top and the bottom. */
  lemma PageMarginsAreAbnt()
    ensures PAGE_MARGINS.left == PAGE_MARGINS.right == MillimetresToTwips(30)
    ensures PAGE_MARGINS.top == PAGE_MARGINS.bottom == MillimetresToTwips(25)
  {
  }

  /** Two columns of CELL_WIDTH exactly fill TABLE_WIDTH. */
  lemma TwoCellsFillTable()
    ensures CELL_WIDTH.kind == TABLE_WIDTH.kind == Percentage
    ensures 2 * CELL_WIDTH.size == TABLE_WIDTH.size
  {
  }
}
