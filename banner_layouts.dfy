/**
 * The five poster layouts (src/utils/bannerLayouts.ts): each builds one landscape section
 * with the logo header and places the six body fields of the form in tables and centered
 * paragraphs. Each builder is given the form and what fetching the default logo yields.
 */
module BannerLayouts {
  import opened Wrappers
  import opened Strings
  import opened Docx
  import opened DocxStyles
  import opened FormData
  import opened DocxTextParser
  import opened DocxImageHandler

  const DEFAULT_LOGO_PATH: string := "/escola-estadual-logo.png"

  /** The page of every layout: the ABNT margins, 11906 by 16838, landscape. */
  const LAYOUT_PAGE: PageProperties :=
    PageProperties(PAGE_MARGINS, Some(PageSize(11906, 16838)), Some(Landscape))

  const AFTER_200: Option<Spacing> := Some(Spacing(None, Some(200)))

  /** A paragraph of a layout before its text is parsed: the form text, its alignment and spacing. */
  datatype TextParagraph = TextParagraph(text: string, alignment: Option<Alignment>, spacing: Option<Spacing>)

  /** A table cell of a layout: its width in twips and its paragraphs. */
  datatype TextCell = TextCell(width: nat, paragraphs: seq<TextParagraph>)

  /** A block of a layout: a paragraph, or a table given as rows of cells. */
  datatype TextBlock = TextPara(paragraph: TextParagraph) | TextGrid(rows: seq<seq<TextCell>>)

  /** `new Paragraph({ children: parseFormattedText(text), ... })`. */
  function RenderParagraph(p: TextParagraph): Paragraph {
    Paragraph(FormattedRuns(p.text), p.alignment, p.spacing, None)
  }

  /** A cell of a layout table: its width in twips, the cell margins, no borders. */
  function RenderCell(c: TextCell): Cell {
    Cell(seq(|c.paragraphs|, k requires 0 <= k < |c.paragraphs| => RenderParagraph(c.paragraphs[k])),
         Width(c.width, Dxa), CELL_MARGINS, NO_BORDERS)
  }

  function RenderRow(cells: seq<TextCell>): Row {
    Row(seq(|cells|, j requires 0 <= j < |cells| => RenderCell(cells[j])))
  }

  /** A table of a layout: 9000 twips wide, no borders. */
  function RenderBlock(b: TextBlock): Block {
    match b
    case TextPara(p) => Para(RenderParagraph(p))
    case TextGrid(rows) =>
      Tbl(Table(seq(|rows|, i requires 0 <= i < |rows| => RenderRow(rows[i])),
                Width(9000, Dxa), NO_BORDERS, None, None))
  }

  function Render(blocks: seq<TextBlock>): seq<Block> {
    seq(|blocks|, i requires 0 <= i < |blocks| => RenderBlock(blocks[i]))
  }

  /** `resultsAndDiscussion.slice(0, length / 2)`: the fractional index is truncated. */
  function FirstHalfOf(text: string): string {
    Before(text, |text| / 2)
  }

  /** `resultsAndDiscussion.slice(length / 2)`. */
  function SecondHalfOf(text: string): string {
    From(text, |text| / 2)
  }

  function ClassicTexts(form: BannerFormData): seq<TextBlock> {
    [ TextGrid([[
        TextCell(4500, [
          TextParagraph(form.introduction, None, AFTER_200),
          TextParagraph(form.objective, None, AFTER_200),
          TextParagraph(form.methodology, None, AFTER_200)]),
        TextCell(4500, [
          TextParagraph(form.resultsAndDiscussion, None, AFTER_200),
          TextParagraph(form.conclusion, None, AFTER_200),
          TextParagraph(form.references, None, None)])]]) ]
  }

  function ModernTexts(form: BannerFormData): seq<TextBlock> {
    [ TextGrid([[
        TextCell(3000, [
          TextParagraph(form.introduction, None, AFTER_200),
          TextParagraph(form.objective, None, None)]),
        TextCell(3000, [
          TextParagraph(form.methodology, None, AFTER_200),
          TextParagraph(FirstHalfOf(form.resultsAndDiscussion), None, None)]),
        TextCell(3000, [
          TextParagraph(SecondHalfOf(form.resultsAndDiscussion), None, AFTER_200),
          TextParagraph(form.conclusion, None, AFTER_200),
          TextParagraph(form.references, None, None)])]]) ]
  }

  function ZFlowTexts(form: BannerFormData): seq<TextBlock> {
    [ TextGrid([
        [TextCell(4500, [TextParagraph(form.introduction, None, None)]),
         TextCell(4500, [TextParagraph(form.objective, None, None)])],
        [TextCell(4500, [TextParagraph(form.methodology, None, None)]),
         TextCell(4500, [TextParagraph(form.resultsAndDiscussion, None, None)])],
        [TextCell(4500, [TextParagraph(form.conclusion, None, None)]),
         TextCell(4500, [TextParagraph(form.references, None, None)])]]) ]
  }

  function CircularTexts(form: BannerFormData): seq<TextBlock> {
    [ TextPara(TextParagraph(form.objective, Some(Center), Some(Spacing(None, Some(400))))),
      TextGrid([[
        TextCell(2250, [TextParagraph(form.introduction, None, None)]),
        TextCell(2250, [TextParagraph(form.methodology, None, None)]),
        TextCell(2250, [TextParagraph(form.resultsAndDiscussion, None, None)]),
        TextCell(2250, [TextParagraph(form.conclusion, None, None)])]]),
      TextPara(TextParagraph(form.references, Some(Center), Some(Spacing(Some(400), None)))) ]
  }

  function HierarchicalTexts(form: BannerFormData): seq<TextBlock> {
    [ TextGrid([[
        TextCell(4500, [TextParagraph(form.introduction, None, None)]),
        TextCell(4500, [TextParagraph(form.objective, None, None)])]]),
      TextPara(TextParagraph(form.methodology, Some(Center), Some(Spacing(Some(400), Some(400))))),
      TextGrid([[
        TextCell(3000, [TextParagraph(form.resultsAndDiscussion, None, None)]),
        TextCell(3000, [TextParagraph(form.conclusion, None, None)]),
        TextCell(3000, [TextParagraph(form.references, None, None)])]]) ]
  }

  /** A layout section: the layout page, the logo header, and the layout's blocks; fails when the logo cannot be read. */
  function LayoutSection(form: BannerFormData, defaultLogo: Result<string>, children: seq<Block>): Result<Section> {
    match LogoHeader(form.logo, defaultLogo)
    case Failure(e) => Failure(e)
    case Success(header) => Success(Section(LAYOUT_PAGE, header, children))
  }

  function CreateClassicLayout(form: BannerFormData, defaultLogo: Result<string>): Result<Section> {
    LayoutSection(form, defaultLogo, Render(ClassicTexts(form)))
  }

  function CreateModernLayout(form: BannerFormData, defaultLogo: Result<string>): Result<Section> {
    LayoutSection(form, defaultLogo, Render(ModernTexts(form)))
  }

  function CreateZFlowLayout(form: BannerFormData, defaultLogo: Result<string>): Result<Section> {
    LayoutSection(form, defaultLogo, Render(ZFlowTexts(form)))
  }

  function CreateCircularLayout(form: BannerFormData, defaultLogo: Result<string>): Result<Section> {
    LayoutSection(form, defaultLogo, Render(CircularTexts(form)))
  }

  function CreateHierarchicalLayout(form: BannerFormData, defaultLogo: Result<string>): Result<Section> {
    LayoutSection(form, defaultLogo, Render(HierarchicalTexts(form)))
  }

  /** The keys of the `layouts` table. */
  datatype LayoutId = Classic | Modern | ZFlow | Circular | Hierarchical

  /** The `layouts` table: a layout name to its builder. */
  const LAYOUTS: map<string, LayoutId> :=
    map["classic" := Classic, "modern" := Modern, "zFlow" := ZFlow,
        "circular" := Circular, "hierarchical" := Hierarchical]

  /** The blocks of a layout, before rendering. */
  function LayoutTexts(id: LayoutId, form: BannerFormData): seq<TextBlock> {
    match id
    case Classic => ClassicTexts(form)
    case Modern => ModernTexts(form)
    case ZFlow => ZFlowTexts(form)
    case Circular => CircularTexts(form)
    case Hierarchical => HierarchicalTexts(form)
  }

  /** Calling the builder the table holds for `id`. */
  function BuildLayout(id: LayoutId, form: BannerFormData, defaultLogo: Result<string>): Result<Section> {
    match id
    case Classic => CreateClassicLayout(form, defaultLogo)
    case Modern => CreateModernLayout(form, defaultLogo)
    case ZFlow => CreateZFlowLayout(form, defaultLogo)
    case Circular => CreateCircularLayout(form, defaultLogo)
    case Hierarchical => CreateHierarchicalLayout(form, defaultLogo)
  }

  // ---------------------------------------------------------------------------------------------
  // The placement plan: which text goes where, independent of the builders above.

  /** A text a layout places: a whole field, or one half of a field cut in the middle. */
  datatype Slot = Whole(field: TextField) | FirstHalf(field: TextField) | SecondHalf(field: TextField)

  function SlotText(form: BannerFormData, s: Slot): string {
    match s
    case Whole(f) => GetText(form, f)
    case FirstHalf(f) => FirstHalfOf(GetText(form, f))
    case SecondHalf(f) => SecondHalfOf(GetText(form, f))
  }

  /** A block of the plan: a paragraph, or a table as rows of cells of paragraphs. */
  datatype PlanBlock = PlanText(slot: Slot) | PlanGrid(rows: seq<seq<seq<Slot>>>)

  /** Where each layout places the body fields, in reading order. */
  function Plan(id: LayoutId): seq<PlanBlock> {
    match id
    case Classic =>
      [PlanGrid([[[Whole(Introduction), Whole(Objective), Whole(Methodology)],
                  [Whole(ResultsAndDiscussion), Whole(Conclusion), Whole(References)]]])]
    case Modern =>
      [PlanGrid([[[Whole(Introduction), Whole(Objective)],
                  [Whole(Methodology), FirstHalf(ResultsAndDiscussion)],
                  [SecondHalf(ResultsAndDiscussion), Whole(Conclusion), Whole(References)]]])]
    case ZFlow =>
      [PlanGrid([[[Whole(Introduction)], [Whole(Objective)]],
                 [[Whole(Methodology)], [Whole(ResultsAndDiscussion)]],
                 [[Whole(Conclusion)], [Whole(References)]]])]
    case Circular =>
      [PlanText(Whole(Objective)),
       PlanGrid([[[Whole(Introduction)], [Whole(Methodology)], [Whole(ResultsAndDiscussion)], [Whole(Conclusion)]]]),
       PlanText(Whole(References))]
    case Hierarchical =>
      [PlanGrid([[[Whole(Introduction)], [Whole(Objective)]]]),
       PlanText(Whole(Methodology)),
       PlanGrid([[[Whole(ResultsAndDiscussion)], [Whole(Conclusion)], [Whole(References)]]])]
  }

  /** A cell holds one paragraph per slot, each with its slot's text. */
  predicate CellFollows(c: TextCell, slots: seq<Slot>, form: BannerFormData) {
    |c.paragraphs| == |slots| && forall k :: 0 <= k < |slots| ==> c.paragraphs[k].text == SlotText(form, slots[k])
  }

  predicate RowFollows(cells: seq<TextCell>, slots: seq<seq<Slot>>, form: BannerFormData) {
    |cells| == |slots| && forall j :: 0 <= j < |slots| ==> CellFollows(cells[j], slots[j], form)
  }

  predicate BlockFollows(b: TextBlock, pb: PlanBlock, form: BannerFormData) {
    match pb
    case PlanText(s) => b.TextPara? && b.paragraph.text == SlotText(form, s)
    case PlanGrid(rows) =>
      b.TextGrid? && |b.rows| == |rows|
      && forall i :: 0 <= i < |rows| ==> RowFollows(b.rows[i], rows[i], form)
  }

  /** The blocks are the plan's blocks in order, each text where its plan block puts it. */
  predicate Follows(blocks: seq<TextBlock>, plan: seq<PlanBlock>, form: BannerFormData) {
    |blocks| == |plan| && forall i :: 0 <= i < |plan| ==> BlockFollows(blocks[i], plan[i], form)
  }

  /** Every layout places the texts where its plan says, in the plan's order. */
  lemma LayoutFollowsPlan(id: LayoutId, form: BannerFormData)
    ensures Follows(LayoutTexts(id, form), Plan(id), form)
  {
    match id
    case Classic => ClassicFollowsPlan(form);
    case Modern => ModernFollowsPlan(form);
    case ZFlow => ZFlowFollowsPlan(form);
    case Circular => CircularFollowsPlan(form);
    case Hierarchical => HierarchicalFollowsPlan(form);
  }

  lemma ClassicFollowsPlan(form: BannerFormData)
    ensures Follows(ClassicTexts(form), Plan(Classic), form)
  {
  }

  lemma ModernFollowsPlan(form: BannerFormData)
    ensures Follows(ModernTexts(form), Plan(Modern), form)
  {
  }

  lemma ZFlowFollowsPlan(form: BannerFormData)
    ensures Follows(ZFlowTexts(form), Plan(ZFlow), form)
  {
  }

  lemma CircularFollowsPlan(form: BannerFormData)
    ensures Follows(CircularTexts(form), Plan(Circular), form)
  {
  }

  lemma HierarchicalFollowsPlan(form: BannerFormData)
    ensures Follows(HierarchicalTexts(form), Plan(Hierarchical), form)
  {
  }

  // ---------------------------------------------------------------------------------------------
  // Which fields each layout places, and in what order.

  /** The slots of a plan in reading order: blocks, then rows, then cells, then paragraphs. */
  function PlanSlots(plan: seq<PlanBlock>): seq<Slot> {
    if plan == [] then [] else BlockSlots(plan[0]) + PlanSlots(plan[1..])
  }

  function BlockSlots(b: PlanBlock): seq<Slot> {
    match b
    case PlanText(s) => [s]
    case PlanGrid(rows) => RowsSlots(rows)
  }

  function RowsSlots(rows: seq<seq<seq<Slot>>>): seq<Slot> {
    if rows == [] then [] else CellsSlots(rows[0]) + RowsSlots(rows[1..])
  }

  function CellsSlots(cells: seq<seq<Slot>>): seq<Slot> {
    if cells == [] then [] else cells[0] + CellsSlots(cells[1..])
  }

  /** The six fields that make up the poster body. */
  predicate IsBodyField(f: TextField) {
    f.Introduction? || f.Objective? || f.Methodology? || f.ResultsAndDiscussion? || f.Conclusion? || f.References?
  }

  /** A field's text is on the page: whole, or as both of its halves. */
  predicate Placed(slots: seq<Slot>, f: TextField) {
    Whole(f) in slots || (FirstHalf(f) in slots && SecondHalf(f) in slots)
  }

  /** The position of a field in the form. */
  function FieldRank(f: TextField): nat {
    match f
    case Title => 0
    case Authors => 1
    case Institution => 2
    case Email => 3
    case Introduction => 4
    case Objective => 5
    case Methodology => 6
    case ResultsAndDiscussion => 7
    case Conclusion => 8
    case References => 9
  }

  /** The slots follow the form's field order. */
  predicate InFormOrder(slots: seq<Slot>) {
    forall i :: 0 < i < |slots| ==> FieldRank(slots[i - 1].field) <= FieldRank(slots[i].field)
  }

  lemma CellsSlotsCons(x: seq<Slot>, rest: seq<seq<Slot>>)
    ensures CellsSlots([x] + rest) == x + CellsSlots(rest)
  {
    assert ([x] + rest)[1..] == rest;
  }

  lemma CellsSlotsOne(x: seq<Slot>)
    ensures CellsSlots([x]) == x
  {
    assert [x][1..] == [];
  }

  lemma RowsSlotsOne(x: seq<seq<Slot>>)
    ensures RowsSlots([x]) == CellsSlots(x)
  {
    assert [x][1..] == [];
  }

  lemma PlanSlotsCons(x: PlanBlock, rest: seq<PlanBlock>)
    ensures PlanSlots([x] + rest) == BlockSlots(x) + PlanSlots(rest)
  {
    assert ([x] + rest)[1..] == rest;
  }

  lemma PlanSlotsOne(x: PlanBlock)
    ensures PlanSlots([x]) == BlockSlots(x)
  {
    assert [x][1..] == [];
  }

  lemma CellsSlotsOfDisplay(a: seq<Slot>, b: seq<Slot>, c: seq<Slot>, d: seq<Slot>)
    ensures CellsSlots([a]) == a
    ensures CellsSlots([a, b]) == a + b
    ensures CellsSlots([a, b, c]) == a + b + c
    ensures CellsSlots([a, b, c, d]) == a + b + c + d
  {
    CellsSlotsOne(a);
    CellsSlotsOne(b);
    CellsSlotsOne(c);
    CellsSlotsOne(d);
    CellsSlotsCons(c, [d]);
    CellsSlotsCons(b, [c]);
    CellsSlotsCons(a, [b]);
    assert [c] + [d] == [c, d] && [b] + [c] == [b, c] && [a] + [b] == [a, b];
    CellsSlotsCons(b, [c, d]);
    CellsSlotsCons(a, [b, c]);
    assert [b] + [c, d] == [b, c, d] && [a] + [b, c] == [a, b, c];
    CellsSlotsCons(a, [b, c, d]);
    assert [a] + [b, c, d] == [a, b, c, d];
  }

  lemma RowsSlotsOfThree(rows: seq<seq<seq<Slot>>>)
    requires |rows| == 3
    ensures RowsSlots(rows) == CellsSlots(rows[0]) + CellsSlots(rows[1]) + CellsSlots(rows[2])
  {
    var tail := rows[1..];
    var last := tail[1..];
    assert tail[0] == rows[1] && last == [rows[2]];
    RowsSlotsOne(rows[2]);
    assert RowsSlots(tail) == CellsSlots(rows[1]) + RowsSlots(last);
    assert RowsSlots(rows) == CellsSlots(rows[0]) + RowsSlots(tail);
  }

  lemma PlanSlotsOfDisplay(a: PlanBlock, b: PlanBlock, c: PlanBlock)
    ensures PlanSlots([a]) == BlockSlots(a)
    ensures PlanSlots([a, b, c]) == BlockSlots(a) + BlockSlots(b) + BlockSlots(c)
  {
    PlanSlotsOne(a);
    PlanSlotsOne(c);
    PlanSlotsCons(b, [c]);
    assert [b] + [c] == [b, c];
    PlanSlotsCons(a, [b, c]);
    assert [a] + [b, c] == [a, b, c];
  }

  /** The six body fields in the form's order. */
  const BODY_SLOTS: seq<Slot> :=
    [Whole(Introduction), Whole(Objective), Whole(Methodology),
     Whole(ResultsAndDiscussion), Whole(Conclusion), Whole(References)]

  /** The modern layout's slots: the results as two halves. */
  const MODERN_SLOTS: seq<Slot> :=
    [Whole(Introduction), Whole(Objective), Whole(Methodology), FirstHalf(ResultsAndDiscussion),
     SecondHalf(ResultsAndDiscussion), Whole(Conclusion), Whole(References)]

  /** The circular layout's slots: the objective first. */
  const CIRCULAR_SLOTS: seq<Slot> :=
    [Whole(Objective), Whole(Introduction), Whole(Methodology),
     Whole(ResultsAndDiscussion), Whole(Conclusion), Whole(References)]

  lemma ClassicSlots()
    ensures PlanSlots(Plan(Classic)) == BODY_SLOTS
  {
    var rows := Plan(Classic)[0].rows;
    CellsSlotsOfDisplay(rows[0][0], rows[0][1], [], []);
    RowsSlotsOne(rows[0]);
    PlanSlotsOfDisplay(Plan(Classic)[0], PlanText(Whole(Title)), PlanText(Whole(Title)));
  }

  lemma ModernSlots()
    ensures PlanSlots(Plan(Modern)) == MODERN_SLOTS
  {
    var rows := Plan(Modern)[0].rows;
    CellsSlotsOfDisplay(rows[0][0], rows[0][1], rows[0][2], []);
    RowsSlotsOne(rows[0]);
    PlanSlotsOfDisplay(Plan(Modern)[0], PlanText(Whole(Title)), PlanText(Whole(Title)));
  }

  lemma ZFlowSlots()
    ensures PlanSlots(Plan(ZFlow)) == BODY_SLOTS
  {
    var rows := Plan(ZFlow)[0].rows;
    CellsSlotsOfDisplay(rows[0][0], rows[0][1], [], []);
    CellsSlotsOfDisplay(rows[1][0], rows[1][1], [], []);
    CellsSlotsOfDisplay(rows[2][0], rows[2][1], [], []);
    RowsSlotsOfThree(rows);
    PlanSlotsOfDisplay(Plan(ZFlow)[0], PlanText(Whole(Title)), PlanText(Whole(Title)));
  }

  lemma CircularSlots()
    ensures PlanSlots(Plan(Circular)) == CIRCULAR_SLOTS
  {
    var rows := Plan(Circular)[1].rows;
    CellsSlotsOfDisplay(rows[0][0], rows[0][1], rows[0][2], rows[0][3]);
    RowsSlotsOne(rows[0]);
    PlanSlotsOfDisplay(Plan(Circular)[0], Plan(Circular)[1], Plan(Circular)[2]);
  }

  lemma HierarchicalSlots()
    ensures PlanSlots(Plan(Hierarchical)) == BODY_SLOTS
  {
    var top := Plan(Hierarchical)[0].rows;
    var bottom := Plan(Hierarchical)[2].rows;
    CellsSlotsOfDisplay(top[0][0], top[0][1], [], []);
    CellsSlotsOfDisplay(bottom[0][0], bottom[0][1], bottom[0][2], []);
    RowsSlotsOne(top[0]);
    RowsSlotsOne(bottom[0]);
    PlanSlotsOfDisplay(Plan(Hierarchical)[0], Plan(Hierarchical)[1], Plan(Hierarchical)[2]);
  }

  /** Each body field is placed, nothing else is, no slot repeats, and no field is both whole and halved. */
  predicate PlacesBodyOnce(slots: seq<Slot>) {
    PlacesBodyFields(slots) && NoRepeats(slots) && NeverWholeAndHalved(slots)
  }

  predicate PlacesBodyFields(slots: seq<Slot>) {
    forall f :: IsBodyField(f) <==> Placed(slots, f)
  }

  predicate NoRepeats(slots: seq<Slot>) {
    forall i, j :: 0 <= i < j < |slots| ==> slots[i] != slots[j]
  }

  predicate NeverWholeAndHalved(slots: seq<Slot>) {
    forall f :: !(Whole(f) in slots && (FirstHalf(f) in slots || SecondHalf(f) in slots))
  }

  lemma BodySlotsPlaceBodyOnce(slots: seq<Slot>)
    requires slots == BODY_SLOTS
    ensures PlacesBodyOnce(slots) && InFormOrder(slots)
  {
    assert forall i :: 0 <= i < |slots| ==> slots[i].Whole? && FieldRank(slots[i].field) == i + 4;
    forall f ensures IsBodyField(f) <==> Placed(slots, f) {
      if IsBodyField(f) {
        assert Whole(f) in slots;
      } else {
        assert Whole(f) !in slots && FirstHalf(f) !in slots;
      }
    }
  }

  lemma ModernSlotsPlaceBodyOnce(slots: seq<Slot>)
    requires slots == MODERN_SLOTS
    ensures PlacesBodyOnce(slots) && InFormOrder(slots)
  {
    ModernPlacesBodyFields();
    ModernNoRepeats();
    ModernNeverWholeAndHalved();
  }

  lemma ModernPlacesBodyFields()
    ensures PlacesBodyFields(MODERN_SLOTS)
  {
    var slots := MODERN_SLOTS;
    forall f ensures IsBodyField(f) <==> Placed(slots, f) {
      if f == ResultsAndDiscussion {
        assert slots[3] == FirstHalf(f) && slots[4] == SecondHalf(f);
      } else if IsBodyField(f) {
        assert Whole(f) in slots;
      } else {
        assert Whole(f) !in slots && FirstHalf(f) !in slots;
      }
    }
  }

  lemma ModernNoRepeats()
    ensures NoRepeats(MODERN_SLOTS)
  {
  }

  lemma ModernNeverWholeAndHalved()
    ensures NeverWholeAndHalved(MODERN_SLOTS)
  {
    var slots := MODERN_SLOTS;
    forall f ensures !(Whole(f) in slots && (FirstHalf(f) in slots || SecondHalf(f) in slots)) {
      assert FirstHalf(f) in slots || SecondHalf(f) in slots ==> f == ResultsAndDiscussion;
    }
  }

  lemma CircularSlotsPlaceBodyOnce(slots: seq<Slot>)
    requires slots == CIRCULAR_SLOTS
    ensures PlacesBodyOnce(slots) && slots[0] == Whole(Objective) && InFormOrder(slots[1..])
  {
    CircularPlacesBodyFields();
    CircularNoRepeats();
    CircularNeverWholeAndHalved();
    assert slots[1..] == [Whole(Introduction), Whole(Methodology),
                          Whole(ResultsAndDiscussion), Whole(Conclusion), Whole(References)];
  }

  lemma CircularPlacesBodyFields()
    ensures PlacesBodyFields(CIRCULAR_SLOTS)
  {
    var slots := CIRCULAR_SLOTS;
    forall f ensures IsBodyField(f) <==> Placed(slots, f) {
      if IsBodyField(f) {
        assert Whole(f) in slots;
      } else {
        assert Whole(f) !in slots && FirstHalf(f) !in slots;
      }
    }
  }

  lemma CircularNoRepeats()
    ensures NoRepeats(CIRCULAR_SLOTS)
  {
  }

  lemma CircularNeverWholeAndHalved()
    ensures NeverWholeAndHalved(CIRCULAR_SLOTS)
  {
    assert forall i :: 0 <= i < |CIRCULAR_SLOTS| ==> CIRCULAR_SLOTS[i].Whole?;
  }

  /**
   * Every layout puts each of the six body fields on the page exactly once (the modern layout
   * as two halves of the results), and never the title, the authors, the institution or the
   * e-mail, which the layouts leave to the caller. The fields come in the form's order, except
   * that the circular layout puts the objective first.
   */
  lemma PlanPlacesEachBodyFieldOnce(id: LayoutId)
    ensures PlacesBodyOnce(PlanSlots(Plan(id)))
    ensures id != Circular ==> InFormOrder(PlanSlots(Plan(id)))
    ensures id == Circular ==> PlanSlots(Plan(id))[0] == Whole(Objective) && InFormOrder(PlanSlots(Plan(id))[1..])
  {
    match id
    case Classic => ClassicSlots(); BodySlotsPlaceBodyOnce(PlanSlots(Plan(id)));
    case Modern => ModernSlots(); ModernSlotsPlaceBodyOnce(PlanSlots(Plan(id)));
    case ZFlow => ZFlowSlots(); BodySlotsPlaceBodyOnce(PlanSlots(Plan(id)));
    case Circular => CircularSlots(); CircularSlotsPlaceBodyOnce(PlanSlots(Plan(id)));
    case Hierarchical => HierarchicalSlots(); BodySlotsPlaceBodyOnce(PlanSlots(Plan(id)));
  }

  /**
   * The modern layout's two halves of the results put back together give the whole text;
   * the first half is the shorter one, by at most one character.
   */
  lemma HalvesRejoin(text: string)
    ensures FirstHalfOf(text) + SecondHalfOf(text) == text
    ensures |FirstHalfOf(text)| <= |SecondHalfOf(text)| <= |FirstHalfOf(text)| + 1
  {
    BeforeFrom(text, |text| / 2);
  }

  // ---------------------------------------------------------------------------------------------
  // Geometry: every table row spans the 9000-twip table.

  /** The sum of the widths of a row's cells. */
  function TextWidths(cells: seq<TextCell>): nat {
    if cells == [] then 0 else cells[0].width + TextWidths(cells[1..])
  }

  /** A row with cells that splits the 9000 twips evenly among them. */
  predicate EvenRow(row: seq<TextCell>) {
    row != [] && forall c :: 0 <= c < |row| ==> row[c].width * |row| == 9000
  }

  /** Every row of every table is even. */
  predicate EvenRows(blocks: seq<TextBlock>) {
    forall i, r :: 0 <= i < |blocks| && blocks[i].TextGrid? && 0 <= r < |blocks[i].rows| ==>
      EvenRow(blocks[i].rows[r])
  }

  lemma LayoutRowsAreEven(id: LayoutId, form: BannerFormData)
    ensures EvenRows(LayoutTexts(id, form))
  {
  }

  lemma {:induction false} EqualWidthsSum(cells: seq<TextCell>, w: nat)
    requires forall c :: 0 <= c < |cells| ==> cells[c].width == w
    ensures TextWidths(cells) == |cells| * w
  {
    if cells != [] {
      EqualWidthsSum(cells[1..], w);
    }
  }

  /** The widths of a rendered row are the widths of its cells. */
  lemma {:induction false} RenderedRowWidths(cells: seq<TextCell>)
    ensures |RenderRow(cells).cells| == |cells|
    ensures CellWidths(RenderRow(cells).cells) == TextWidths(cells)
  {
    if cells != [] {
      RenderedRowWidths(cells[1..]);
      assert RenderRow(cells).cells[1..] == RenderRow(cells[1..]).cells;
    }
  }

  /**
   * Every table of every layout is 9000 twips wide with no borders, and in each of its rows
   * the cell widths add up to the table's width; every cell has the cell margins and no
   * borders.
   */
  lemma LayoutTablesFillWidth(id: LayoutId, form: BannerFormData)
    ensures var blocks := Render(LayoutTexts(id, form));
            forall i :: 0 <= i < |blocks| && blocks[i].Tbl? ==>
              && blocks[i].table.width == Width(9000, Dxa)
              && blocks[i].table.borders == NO_BORDERS
              && forall r :: 0 <= r < |blocks[i].table.rows| ==>
                   && CellWidths(blocks[i].table.rows[r].cells) == 9000
                   && forall c :: 0 <= c < |blocks[i].table.rows[r].cells| ==>
                        blocks[i].table.rows[r].cells[c].margins == CELL_MARGINS
                        && blocks[i].table.rows[r].cells[c].borders == NO_BORDERS
  {
    LayoutRowsAreEven(id, form);
    RenderedTablesFillWidth(LayoutTexts(id, form));
  }

  lemma RenderedTablesFillWidth(texts: seq<TextBlock>)
    requires EvenRows(texts)
    ensures var blocks := Render(texts);
            forall i :: 0 <= i < |blocks| && blocks[i].Tbl? ==>
              && blocks[i].table.width == Width(9000, Dxa)
              && blocks[i].table.borders == NO_BORDERS
              && forall r :: 0 <= r < |blocks[i].table.rows| ==>
                   && CellWidths(blocks[i].table.rows[r].cells) == 9000
                   && forall c :: 0 <= c < |blocks[i].table.rows[r].cells| ==>
                        blocks[i].table.rows[r].cells[c].margins == CELL_MARGINS
                        && blocks[i].table.rows[r].cells[c].borders == NO_BORDERS
  {
    forall i, r | 0 <= i < |texts| && texts[i].TextGrid? && 0 <= r < |texts[i].rows|
      ensures CellWidths(RenderRow(texts[i].rows[r]).cells) == 9000
    {
      EvenRowFillsWidth(texts[i].rows[r]);
    }
  }

  lemma EvenRowFillsWidth(row: seq<TextCell>)
    requires EvenRow(row)
    ensures CellWidths(RenderRow(row).cells) == 9000
  {
    RenderedRowWidths(row);
    EqualWidthsSum(row, row[0].width);
  }

  /**
   * Rendering keeps the layout's structure: the same blocks in the same order, paragraphs
   * where the layout has paragraphs and tables where it has tables, with the same rows, cells
   * and paragraphs, each paragraph rendered from the text in that place.
   */
  lemma RenderKeepsStructure(blocks: seq<TextBlock>)
    ensures var r := Render(blocks);
            && |r| == |blocks|
            && forall i :: 0 <= i < |blocks| ==>
                 && (r[i].Para? <==> blocks[i].TextPara?)
                 && (blocks[i].TextPara? ==> r[i].paragraph == RenderParagraph(blocks[i].paragraph))
                 && (blocks[i].TextGrid? ==>
                       && |r[i].table.rows| == |blocks[i].rows|
                       && forall j :: 0 <= j < |blocks[i].rows| ==>
                            && |r[i].table.rows[j].cells| == |blocks[i].rows[j]|
                            && forall c :: 0 <= c < |blocks[i].rows[j]| ==>
                                 && |r[i].table.rows[j].cells[c].children| == |blocks[i].rows[j][c].paragraphs|
                                 && r[i].table.rows[j].cells[c].width == Width(blocks[i].rows[j][c].width, Dxa)
                                 && forall k :: 0 <= k < |blocks[i].rows[j][c].paragraphs| ==>
                                      r[i].table.rows[j].cells[c].children[k] == RenderParagraph(blocks[i].rows[j][c].paragraphs[k]))
  {
  }

  /**
   * A layout fails exactly when its logo cannot be read; otherwise it is one landscape page
   * of 11906 by 16838 twips with the ABNT margins, the logo header, and the rendered blocks of
   * the layout.
   */
  lemma BuildLayoutSection(id: LayoutId, form: BannerFormData, defaultLogo: Result<string>)
    ensures var r := BuildLayout(id, form, defaultLogo);
            var h := LogoHeader(form.logo, defaultLogo);
            && (r.Success? <==> h.Success?)
            && (r.Failure? ==> r.error == h.error)
            && (r.Success? ==>
                  && r.value.page.orientation == Some(Landscape)
                  && r.value.page.size == Some(PageSize(11906, 16838))
                  && r.value.page.margin == PAGE_MARGINS
                  && r.value.header == h.value
                  && r.value.children == Render(LayoutTexts(id, form)))
  {
  }

  /** The table names exactly the five layouts, each under its own name. */
  lemma LayoutTableNamesFive()
    ensures LAYOUTS.Keys == {"classic", "modern", "zFlow", "circular", "hierarchical"}
    ensures forall a, b :: a in LAYOUTS && b in LAYOUTS && a != b ==> LAYOUTS[a] != LAYOUTS[b]
    ensures forall id: LayoutId :: id in LAYOUTS.Values
  {
    assert LAYOUTS["classic"] == Classic && LAYOUTS["modern"] == Modern && LAYOUTS["zFlow"] == ZFlow;
    assert LAYOUTS["circular"] == Circular && LAYOUTS["hierarchical"] == Hierarchical;
    forall id: LayoutId ensures id in LAYOUTS.Values {
      var name := match id
        case Classic => "classic"
        case Modern => "modern"
        case ZFlow => "zFlow"
        case Circular => "circular"
        case Hierarchical => "hierarchical";
      assert name in LAYOUTS && LAYOUTS[name] == id;
    }
  }

  /** Paragraphs between tables are centred; paragraphs in table cells carry no alignment. */
  predicate CentredOutsideTables(blocks: seq<TextBlock>) {
    && (forall i :: 0 <= i < |blocks| && blocks[i].TextPara? ==> blocks[i].paragraph.alignment == Some(Center))
    && (forall i, r, c, k ::
          0 <= i < |blocks| && blocks[i].TextGrid? && 0 <= r < |blocks[i].rows|
          && 0 <= c < |blocks[i].rows[r]| && 0 <= k < |blocks[i].rows[r][c].paragraphs| ==>
            blocks[i].rows[r][c].paragraphs[k].alignment == None)
  }

  lemma LayoutTextsCentred(id: LayoutId, form: BannerFormData)
    ensures CentredOutsideTables(LayoutTexts(id, form))
  {
  }

  /** Rendering carries each paragraph's alignment over unchanged. */
  lemma RenderKeepsAlignment(blocks: seq<TextBlock>)
    requires CentredOutsideTables(blocks)
    ensures var bs := Render(blocks);
            && (forall i :: 0 <= i < |bs| && bs[i].Para? ==> bs[i].paragraph.alignment == Some(Center))
            && (forall i, r, c, k ::
                  0 <= i < |bs| && bs[i].Tbl? && 0 <= r < |bs[i].table.rows|
                  && 0 <= c < |bs[i].table.rows[r].cells| && 0 <= k < |bs[i].table.rows[r].cells[c].children| ==>
                    bs[i].table.rows[r].cells[c].children[k].alignment == None)
  {
    var bs := Render(blocks);
    forall i, r, c, k |
      0 <= i < |bs| && bs[i].Tbl? && 0 <= r < |bs[i].table.rows|
      && 0 <= c < |bs[i].table.rows[r].cells| && 0 <= k < |bs[i].table.rows[r].cells[c].children|
      ensures bs[i].table.rows[r].cells[c].children[k].alignment == None
    {
      var row := blocks[i].rows[r];
      assert bs[i].table.rows[r] == RenderRow(row);
      assert bs[i].table.rows[r].cells[c] == RenderCell(row[c]);
      assert bs[i].table.rows[r].cells[c].children[k] == RenderParagraph(row[c].paragraphs[k]);
    }
  }

  /**
   * Alignment and spacing of the layouts' paragraphs: a paragraph standing on its own between
   * the tables is centred, and a paragraph inside a table cell has no alignment of its own.
   * Only the circular layout (objective above the table with 400 after, references below it
   * with 400 before) and the hierarchical layout (methodology between its tables with 400
   * before and after) have such paragraphs; the others are a single table.
   */
  lemma LayoutParagraphsCentred(id: LayoutId, form: BannerFormData)
    ensures var bs := Render(LayoutTexts(id, form));
            && (forall i :: 0 <= i < |bs| && bs[i].Para? ==> bs[i].paragraph.alignment == Some(Center))
            && (forall i, r, c, k ::
                  0 <= i < |bs| && bs[i].Tbl? && 0 <= r < |bs[i].table.rows|
                  && 0 <= c < |bs[i].table.rows[r].cells| && 0 <= k < |bs[i].table.rows[r].cells[c].children| ==>
                    bs[i].table.rows[r].cells[c].children[k].alignment == None)
            && (id.Classic? || id.Modern? || id.ZFlow? ==> |bs| == 1 && bs[0].Tbl?)
            && (id.Circular? ==>
                  && |bs| == 3 && bs[0].Para? && bs[1].Tbl? && bs[2].Para?
                  && bs[0].paragraph.children == FormattedRuns(form.objective)
                  && bs[0].paragraph.spacing == Some(Spacing(None, Some(400)))
                  && bs[2].paragraph.children == FormattedRuns(form.references)
                  && bs[2].paragraph.spacing == Some(Spacing(Some(400), None)))
            && (id.Hierarchical? ==>
                  && |bs| == 3 && bs[0].Tbl? && bs[1].Para? && bs[2].Tbl?
                  && bs[1].paragraph.children == FormattedRuns(form.methodology)
                  && bs[1].paragraph.spacing == Some(Spacing(Some(400), Some(400))))
  {
    var texts := LayoutTexts(id, form);
    LayoutTextsCentred(id, form);
    RenderKeepsAlignment(texts);
  }
}
