/** Layout-based PDF text extraction: lines into blocks, the roles of table rows, and the
    extraction as a whole. */
module PdfBlocks {
  import opened Collecting
  import opened Grouping
  import opened InlineText
  import opened Options
  import opened PdfLayout
  import opened Sorting

  const BLOCK_BREAK_MIN := 18.0

  datatype BlockType = Metadata | ListItem | Heading | TableRow | Paragraph

  datatype Block = Block(kind: BlockType, lines: seq<Line>, text: string, cells: seq<string>)

  predicate EmptyLineGap(previous: Line, line: Line) {
    && line.page == previous.page
    && line.frame.top - previous.frame.bottom
       > if previous.frame.fontSize * 1.8 > BLOCK_BREAK_MIN then previous.frame.fontSize * 1.8 else BLOCK_BREAK_MIN
  }

  /** A block ends at an empty-line gap or before a forced marker; `marker` stands for the
      pattern of bullets and numbered items. */
  function BlockBreaks(marker: Line -> bool): (seq<Line>, Line) -> bool {
    AfterLast((previous: Line, line: Line) => EmptyLineGap(previous, line) || marker(line))
  }

  lemma BlockTest(marker: Line -> bool, current: seq<Line>, line: Line)
    ensures BlockBreaks(marker)(current, line) <==>
              current != [] && (EmptyLineGap(current[|current| - 1], line) || marker(line))
  {
  }

  // ----- what a block holds

  /** The texts with the separator between them. */
  function JoinWith(separator: string, texts: seq<string>): string {
    if texts == [] then ""
    else if |texts| == 1 then texts[0]
    else JoinWith(separator, texts[..|texts| - 1]) + separator + texts[|texts| - 1]
  }

  function IfNotEmpty(text: string): Option<string> {
    if text == "" then None else Some(text)
  }

  function LineCells(line: Line): seq<string> {
    Collected(IfNotEmpty, line.cells)
  }

  function Texts(lines: seq<Line>): seq<string> {
    seq(|lines|, i requires 0 <= i < |lines| => lines[i].text)
  }

  /** A table row prints its cells, every other block its lines. */
  function BlockOf(kind: BlockType, lines: seq<Line>): Block {
    var cells := if kind == TableRow then Concat(LineCells, lines) else [];
    Block(kind, lines, if cells != [] then JoinWith(" | ", cells) else NormalizeInline(JoinWith(" ", Texts(lines))), cells)
  }

  function KindOf(kindOf: Line -> BlockType, lines: seq<Line>): BlockType {
    if lines == [] then Paragraph else kindOf(lines[0])
  }

  /** The block of a group of lines, if it has a text. */
  function Closed(kindOf: Line -> BlockType): seq<Line> -> Option<Block> {
    (lines: seq<Line>) =>
      var block := BlockOf(KindOf(kindOf, lines), lines);
      if block.text == "" then None else Some(block)
  }

  /** The groups of lines that make up the blocks. */
  function LineGroups(lines: seq<Line>, marker: Line -> bool): seq<seq<Line>> {
    Group(BlockBreaks(marker), [], lines)
  }

  function BlocksOf(lines: seq<Line>, marker: Line -> bool, kindOf: Line -> BlockType): seq<Block> {
    Collected(Closed(kindOf), LineGroups(lines, marker))
  }

  // ----- the loops

  method MergeCells(lines: seq<Line>) returns (cells: seq<string>)
    ensures cells == Concat(LineCells, lines)
  {
    cells := [];
    for i := 0 to |lines|
      invariant cells == Concat(LineCells, lines[..i])
    {
      assert lines[..i + 1][..i] == lines[..i];
      var kept := KeepNonEmpty(lines[i].cells);
      cells := cells + kept;
    }
    assert lines[..|lines|] == lines;
  }

  method KeepNonEmpty(texts: seq<string>) returns (kept: seq<string>)
    ensures kept == Collected(IfNotEmpty, texts)
  {
    kept := [];
    for k := 0 to |texts|
      invariant kept == Collected(IfNotEmpty, texts[..k])
    {
      assert texts[..k + 1][..k] == texts[..k];
      if texts[k] != "" {
        kept := kept + [texts[k]];
      }
    }
    assert texts[..|texts|] == texts;
  }

  /** Closes the current lines: they become a block, if it has a text. */
  method FlushCurrent(blocks: seq<Block>, kind: BlockType, lines: seq<Line>) returns (r: seq<Block>)
    ensures var block := BlockOf(kind, lines);
      r == if block.text == "" then blocks else blocks + [block]
  {
    var cells := [];
    if kind == TableRow {
      cells := MergeCells(lines);
    }
    var text := if cells != [] then JoinWith(" | ", cells) else NormalizeInline(JoinWith(" ", Texts(lines)));
    r := if text == "" then blocks else blocks + [Block(kind, lines, text, cells)];
  }

  lemma ClosedAppend(closed: seq<seq<Line>>, lines: seq<Line>, kindOf: Line -> BlockType)
    ensures var block := BlockOf(KindOf(kindOf, lines), lines);
      Collected(Closed(kindOf), closed + [lines])
        == Collected(Closed(kindOf), closed) + if block.text == "" then [] else [block]
  {
    assert (closed + [lines])[..|closed|] == closed;
  }

  /** What one line does to the groups closed so far. */
  lemma BlockStep(closed: seq<seq<Line>>, current: seq<Line>, lines: seq<Line>, i: nat, marker: Line -> bool)
    requires i < |lines|
    ensures var line, rest, breaks := lines[i], lines[i + 1..], BlockBreaks(marker);
      closed + Group(breaks, current, lines[i..])
        == (if current == [] then closed + Group(breaks, [line], rest)
            else if EmptyLineGap(current[|current| - 1], line) || marker(line)
            then closed + [current] + Group(breaks, [line], rest)
            else closed + Group(breaks, current + [line], rest))
  {
    SplitAt(lines, i);
    BlockTest(marker, current, lines[i]);
    GroupStep(BlockBreaks(marker), closed, current, lines[i], lines[i + 1..]);
    assert [] + [lines[i]] == [lines[i]];
  }

  method GroupLinesIntoBlocks(lines: seq<Line>, marker: Line -> bool, kindOf: Line -> BlockType)
      returns (blocks: seq<Block>)
    ensures blocks == BlocksOf(lines, marker, kindOf)
  {
    blocks := [];
    var current: seq<Line> := [];
    var kind := Paragraph;
    ghost var closed: seq<seq<Line>> := [];
    for i := 0 to |lines|
      invariant closed + Group(BlockBreaks(marker), current, lines[i..]) == LineGroups(lines, marker)
      invariant blocks == Collected(Closed(kindOf), closed)
      invariant kind == KindOf(kindOf, current)
      invariant current == [] ==> i == 0
    {
      var line := lines[i];
      BlockStep(closed, current, lines, i, marker);
      if current == [] {
        current, kind := [line], kindOf(line);
      } else if EmptyLineGap(current[|current| - 1], line) || marker(line) {
        blocks := FlushCurrent(blocks, kind, current);
        ClosedAppend(closed, current, kindOf);
        closed := closed + [current];
        current, kind := [line], kindOf(line);
      } else {
        current := current + [line];
      }
    }
    if current != [] {
      blocks := FlushCurrent(blocks, kind, current);
      ClosedAppend(closed, current, kindOf);
      closed := closed + [current];
    }
    assert closed == LineGroups(lines, marker);
  }

  // ----- what the blocks print

  /** What a block prints: its cells, without the separators, or its text. */
  function BlockInk(block: Block): string {
    if block.cells != [] then Concat(Ink, block.cells) else Ink(block.text)
  }

  lemma {:induction false} SpacedInk(texts: seq<string>)
    ensures Ink(JoinWith(" ", texts)) == Concat(Ink, texts)
  {
    if |texts| == 1 {
      assert Concat(Ink, texts[..0]) == "";
    } else if |texts| > 1 {
      var last := |texts| - 1;
      var before := JoinWith(" ", texts[..last]);
      SpacedInk(texts[..last]);
      InkAppend(before, " ");
      InkAppend(before + " ", texts[last]);
    }
  }

  lemma {:induction false} TextsInk(lines: seq<Line>)
    ensures Concat(Ink, Texts(lines)) == Concat(LineInk, lines)
  {
    if lines != [] {
      var last := |lines| - 1;
      TextsInk(lines[..last]);
      assert Texts(lines)[..last] == Texts(lines[..last]);
    }
  }

  lemma LineCellsKept(line: Line)
    requires Printed(line)
    ensures LineCells(line) == line.cells
  {
    forall i | 0 <= i < |line.cells| ensures IfNotEmpty(line.cells[i]) == Some(line.cells[i]) {
      assert line.cells[i] in line.cells;
      assert Ink("") == "";
    }
    AllCollected(IfNotEmpty, line.cells, line.cells, |line.cells|);
    assert line.cells[..|line.cells|] == line.cells;
  }

  lemma {:induction false} MergedCellsPrint(lines: seq<Line>)
    requires forall l :: l in lines ==> Printed(l)
    ensures Concat(Ink, Concat(LineCells, lines)) == Concat(LineInk, lines)
    ensures forall c :: c in Concat(LineCells, lines) ==> Ink(c) != ""
  {
    if lines != [] {
      var last := lines[|lines| - 1];
      MergedCellsPrint(lines[..|lines| - 1]);
      assert last in lines;
      LineCellsKept(last);
      ConcatPlus(Ink, Concat(LineCells, lines[..|lines| - 1]), last.cells);
    }
  }

  lemma TableRowPrints(lines: seq<Line>)
    requires forall l :: l in lines ==> Printed(l)
    requires Concat(LineCells, lines) != []
    ensures var block := BlockOf(TableRow, lines);
      BlockInk(block) == Concat(LineInk, lines) && Concat(LineInk, lines) != "" && block.text != ""
  {
    var cells := Concat(LineCells, lines);
    MergedCellsPrint(lines);
    assert cells[|cells| - 1] in cells;
    assert cells[|cells| - 1] != "";
  }

  lemma TextBlockPrints(kind: BlockType, lines: seq<Line>)
    requires kind != TableRow || Concat(LineCells, lines) == []
    ensures var block := BlockOf(kind, lines);
      BlockInk(block) == Concat(LineInk, lines) && (block.text == "" <==> Concat(LineInk, lines) == "")
  {
    TextsInk(lines);
    SpacedInk(Texts(lines));
    NormalizeKeepsInk(JoinWith(" ", Texts(lines)));
  }

  /** A block of printed lines prints what they print, and has a text if they print something. */
  lemma BlockPrints(kind: BlockType, lines: seq<Line>)
    requires forall l :: l in lines ==> Printed(l)
    ensures var block := BlockOf(kind, lines);
      BlockInk(block) == Concat(LineInk, lines) && (block.text == "" <==> Concat(LineInk, lines) == "")
  {
    if kind == TableRow && Concat(LineCells, lines) != [] {
      TableRowPrints(lines);
    } else {
      TextBlockPrints(kind, lines);
    }
  }

  lemma GroupPrinted(groups: seq<seq<Line>>, i: nat)
    requires i < |groups| && forall l :: l in Flatten(groups) ==> Printed(l)
    ensures forall l :: l in groups[i] ==> Printed(l)
  {
    forall l | l in groups[i] ensures Printed(l) {
      InFlatten(groups, i, l);
    }
  }

  function BlockLines(blocks: seq<Block>): seq<seq<Line>> {
    seq(|blocks|, i requires 0 <= i < |blocks| => blocks[i].lines)
  }

  lemma GroupHasText(kind: BlockType, lines: seq<Line>)
    requires lines != [] && forall l :: l in lines ==> Printed(l)
    ensures BlockOf(kind, lines).text != ""
  {
    BlockPrints(kind, lines);
    assert lines[|lines| - 1] in lines;
  }

  /** Each group of printed lines has its block. */
  lemma EachGroupHasBlock(groups: seq<seq<Line>>, kindOf: Line -> BlockType, i: nat)
    requires i < |groups| && groups[i] != [] && forall l :: l in Flatten(groups) ==> Printed(l)
    ensures Closed(kindOf)(groups[i]) == Some(BlockOf(kindOf(groups[i][0]), groups[i]))
  {
    GroupPrinted(groups, i);
    GroupHasText(kindOf(groups[i][0]), groups[i]);
  }

  lemma GroupsAreLines(lines: seq<Line>, marker: Line -> bool)
    ensures IsGrouping(BlockBreaks(marker), LineGroups(lines, marker), lines)
    ensures forall i :: 0 <= i < |LineGroups(lines, marker)| ==> LineGroups(lines, marker)[i] != []
  {
    GroupIsGrouping(BlockBreaks(marker), [], lines);
    assert [] + lines == lines;
    forall i | 0 <= i < |LineGroups(lines, marker)| ensures LineGroups(lines, marker)[i] != [] {
      assert Coherent(BlockBreaks(marker), LineGroups(lines, marker)[i]);
    }
  }

  lemma BlocksAre(groups: seq<seq<Line>>, kindOf: Line -> BlockType)
    requires forall l :: l in Flatten(groups) ==> Printed(l)
    requires forall i :: 0 <= i < |groups| ==> groups[i] != []
    ensures Collected(Closed(kindOf), groups)
         == seq(|groups|, i requires 0 <= i < |groups| => BlockOf(kindOf(groups[i][0]), groups[i]))
  {
    var blocks := seq(|groups|, i requires 0 <= i < |groups| => BlockOf(kindOf(groups[i][0]), groups[i]));
    forall i | 0 <= i < |groups| ensures Closed(kindOf)(groups[i]) == Some(blocks[i]) {
      EachGroupHasBlock(groups, kindOf, i);
    }
    AllCollected(Closed(kindOf), groups, blocks, |groups|);
    assert groups[..|groups|] == groups && blocks[..|blocks|] == blocks;
  }

  /** No printed line is lost: the blocks are the lines in order, cut exactly at empty-line
      gaps and markers, each of its first line's type. */
  lemma NoLineLost(lines: seq<Line>, marker: Line -> bool, kindOf: Line -> BlockType)
    requires forall l :: l in lines ==> Printed(l)
    ensures var blocks := BlocksOf(lines, marker, kindOf);
      && IsGrouping(BlockBreaks(marker), BlockLines(blocks), lines)
      && forall i :: 0 <= i < |blocks| ==>
           blocks[i].lines != [] && blocks[i] == BlockOf(kindOf(blocks[i].lines[0]), blocks[i].lines)
  {
    var groups, blocks := LineGroups(lines, marker), BlocksOf(lines, marker, kindOf);
    GroupsAreLines(lines, marker);
    BlocksAre(groups, kindOf);
    assert BlockLines(blocks) == groups;
    forall i | 0 <= i < |blocks|
      ensures blocks[i].lines != [] && blocks[i] == BlockOf(kindOf(blocks[i].lines[0]), blocks[i].lines)
    {
      assert blocks[i].lines == groups[i];
    }
  }

  function LinesInk(lines: seq<Line>): string {
    Concat(LineInk, lines)
  }

  lemma GroupPrints(groups: seq<seq<Line>>, kindOf: Line -> BlockType, i: nat)
    requires i < |groups| && forall l :: l in Flatten(groups) ==> Printed(l)
    ensures var block := Closed(kindOf)(groups[i]);
      LinesInk(groups[i]) == if block.None? then [] else BlockInk(block.value)
  {
    GroupPrinted(groups, i);
    BlockPrints(KindOf(kindOf, groups[i]), groups[i]);
  }

  lemma GroupsPrint(groups: seq<seq<Line>>, kindOf: Line -> BlockType)
    requires forall l :: l in Flatten(groups) ==> Printed(l)
    ensures Concat(BlockInk, Collected(Closed(kindOf), groups)) == Concat(LineInk, Flatten(groups))
  {
    var close := Closed(kindOf);
    forall i | 0 <= i < |groups|
      ensures LinesInk(groups[i]) == if close(groups[i]).None? then [] else BlockInk(close(groups[i]).value)
    {
      GroupPrints(groups, kindOf, i);
    }
    CollectedGives(close, groups, |groups|, LinesInk, BlockInk);
    ConcatFlatten(LineInk, LinesInk, groups, |groups|);
    assert groups[..|groups|] == groups;
  }

  /** The blocks print exactly what the lines print, in order. */
  lemma BlocksPrint(lines: seq<Line>, marker: Line -> bool, kindOf: Line -> BlockType)
    requires forall l :: l in lines ==> Printed(l)
    ensures Concat(BlockInk, BlocksOf(lines, marker, kindOf)) == Concat(LineInk, lines)
  {
    GroupsAreLines(lines, marker);
    GroupsPrint(LineGroups(lines, marker), kindOf);
  }

  // ----- the roles of table rows

  datatype Role = NotTable | Header | DataRow | Unknown

  /** `cells` are the row's cell texts after stripping and dropping blanks. */
  datatype Row = Row(kind: BlockType, cells: seq<string>)

  datatype Annotation = Annotation(role: Role, headers: Option<seq<string>>)

  predicate CanBeHeader(looksLikeHeader: seq<string> -> bool, row: Row) {
    row.kind == TableRow && row.cells != [] && looksLikeHeader(row.cells)
  }

  /** The run of table rows from `j` to `i` is unbroken. */
  ghost predicate Run(rows: seq<Row>, j: int, i: int) {
    0 <= j <= i < |rows| && forall k :: j <= k <= i ==> rows[k].kind == TableRow
  }

  /** `j` is where the header of row `i` stands: the first fitting row of its run. */
  ghost predicate HeaderAt(looksLikeHeader: seq<string> -> bool, rows: seq<Row>, j: int, i: int) {
    && Run(rows, j, i) && CanBeHeader(looksLikeHeader, rows[j])
    && forall k :: Run(rows, k, i) && CanBeHeader(looksLikeHeader, rows[k]) ==> j <= k
  }

  /** What the annotation of each row means. */
  ghost predicate Annotated(looksLikeHeader: seq<string> -> bool, rows: seq<Row>, i: int, a: Annotation)
    requires 0 <= i < |rows|
  {
    && (a.role == NotTable <==> rows[i].kind != TableRow)
    && (a.role == Header <==> HeaderAt(looksLikeHeader, rows, i, i))
    && (a.role == Unknown <==> rows[i].kind == TableRow && rows[i].cells == [])
    && (a.headers.Some? ==> exists j :: HeaderAt(looksLikeHeader, rows, j, i) && a.headers.value == rows[j].cells)
    && (a.headers.None? ==> forall j :: !HeaderAt(looksLikeHeader, rows, j, i))
  }

  method AnnotateTableBlocks(rows: seq<Row>, looksLikeHeader: seq<string> -> bool) returns (r: seq<Annotation>)
    ensures |r| == |rows|
    ensures forall i :: 0 <= i < |rows| ==> Annotated(looksLikeHeader, rows, i, r[i])
  {
    r := [];
    var headers := None;
    var previous := None;
    ghost var at := -1;
    for i := 0 to |rows|
      invariant |r| == i
      invariant forall k :: 0 <= k < i ==> Annotated(looksLikeHeader, rows, k, r[k])
      invariant previous == if i == 0 then None else Some(rows[i - 1].kind)
      invariant headers.Some? ==> i > 0 && HeaderAt(looksLikeHeader, rows, at, i - 1) && headers.value == rows[at].cells
      invariant headers.None? ==> forall j :: i > 0 ==> !(Run(rows, j, i - 1) && CanBeHeader(looksLikeHeader, rows[j]))
    {
      var row := rows[i];
      RunExtends(rows, i);
      if row.kind != TableRow {
        headers := None;
        r := r + [Annotation(NotTable, None)];
      } else {
        if previous != Some(TableRow) {
          headers := None;
        }
        if row.cells != [] && headers.None? && looksLikeHeader(row.cells) {
          headers := Some(row.cells);
          at := i;
          r := r + [Annotation(Header, Some(row.cells))];
        } else {
          r := r + [Annotation(if row.cells != [] then DataRow else Unknown, headers)];
        }
      }
      previous := Some(row.kind);
    }
  }

  lemma RunExtends(rows: seq<Row>, i: nat)
    requires i < |rows|
    ensures forall j :: Run(rows, j, i) <==> rows[i].kind == TableRow && (j == i || Run(rows, j, i - 1))
  {
    forall j ensures Run(rows, j, i) <==> rows[i].kind == TableRow && (j == i || Run(rows, j, i - 1)) {
    }
  }

  // ----- the extraction

  /** The lines that are not dropped as repeated edge lines or page numbers. */
  function Kept(keep: Line -> bool): Line -> Option<Line> {
    (line: Line) => if keep(line) then Some(line) else None
  }

  lemma KeptArePrinted(lines: seq<Line>, keep: Line -> bool)
    requires forall l :: l in lines ==> Printed(l)
    ensures forall l :: l in Collected(Kept(keep), lines) ==> Printed(l)
  {
    CollectedHave(Kept(keep), lines, Printed);
  }

  /** What the words of a page print, in reading order. */
  function PageInk(words: seq<Word>): string {
    Concat(WordInk, Sort(ReadingOrder(), words))
  }

  /** The lines of all pages, which are numbered from one. */
  function PagesRead(pages: seq<seq<Word>>, frame: seq<Word> -> Frame): seq<Line> {
    if pages == [] then []
    else PagesRead(pages[..|pages| - 1], frame) + PageLines(pages[|pages| - 1], |pages|, frame)
  }

  method ReadPages(pages: seq<seq<Word>>, frame: seq<Word> -> Frame) returns (lines: seq<Line>)
    ensures lines == PagesRead(pages, frame)
    ensures Concat(LineInk, lines) == Concat(PageInk, pages)
    ensures forall l :: l in lines ==> Printed(l)
  {
    lines := [];
    for i := 0 to |pages|
      invariant lines == PagesRead(pages[..i], frame)
      invariant Concat(LineInk, lines) == Concat(PageInk, pages[..i])
      invariant forall l :: l in lines ==> Printed(l)
    {
      var more := GroupWordsIntoLines(pages[i], i + 1, frame);
      PageIsPrinted(pages[i], i + 1, frame);
      LinesArePrinted(WordLines(pages[i]), i + 1, frame);
      ConcatPlus(LineInk, lines, more);
      assert pages[..i + 1][..i] == pages[..i];
      lines := lines + more;
    }
    assert pages[..|pages|] == pages;
  }

  method FilterLines(lines: seq<Line>, keep: Line -> bool) returns (kept: seq<Line>)
    ensures kept == Collected(Kept(keep), lines)
  {
    kept := [];
    for i := 0 to |lines|
      invariant kept == Collected(Kept(keep), lines[..i])
    {
      assert lines[..i + 1][..i] == lines[..i];
      if keep(lines[i]) {
        kept := kept + [lines[i]];
      }
    }
    assert lines[..|lines|] == lines;
  }

  /** From words to blocks no printed character is lost or moved: the lines print the words
      of each page in reading order, and the blocks print the lines that are kept. */
  method ExtractPdfLayout(pages: seq<seq<Word>>, frame: seq<Word> -> Frame, keep: Line -> bool,
                          marker: Line -> bool, kindOf: Line -> BlockType)
      returns (lines: seq<Line>, kept: seq<Line>, blocks: seq<Block>)
    ensures lines == PagesRead(pages, frame) && Concat(LineInk, lines) == Concat(PageInk, pages)
    ensures kept == Collected(Kept(keep), lines)
    ensures blocks == BlocksOf(kept, marker, kindOf) && Concat(BlockInk, blocks) == Concat(LineInk, kept)
    ensures IsGrouping(BlockBreaks(marker), BlockLines(blocks), kept)
  {
    lines := ReadPages(pages, frame);
    kept := FilterLines(lines, keep);
    KeptArePrinted(lines, keep);
    blocks := GroupLinesIntoBlocks(kept, marker, kindOf);
    BlocksPrint(kept, marker, kindOf);
    NoLineLost(kept, marker, kindOf);
  }
}
