/** What the extraction makes of a page, written out in points and texts. */
module PdfOutcomes {
  import opened Collecting
  import opened Grouping
  import opened InlineSpacing
  import opened Options
  import opened PdfBlocks
  import opened PdfLayout
  import opened Sorting

  // ----- the order of reading

  /** A height in tenths of a point: the nearest whole number, the even one of two. */
  lemma TenthExactly(height: real, tenths: int)
    ensures RoundTenth(height) == tenths <==>
              var off := height * 10.0 - tenths as real;
              -0.5 < off < 0.5 || (tenths % 2 == 0 && -0.5 <= off <= 0.5)
  {
  }

  /** A page is read from the top down and each rounded height from left to right; of two words
      at one place the one that comes first on the page is read first. */
  lemma ReadInOrder(words: seq<Word>, i: nat, j: nat)
    requires i < j < |Flatten(WordLines(words))|
    ensures var read := Flatten(WordLines(words));
      && multiset(read) == multiset(words)
      && (RoundTenth(read[i].top) < RoundTenth(read[j].top)
          || (RoundTenth(read[i].top) == RoundTenth(read[j].top) && read[i].x0 <= read[j].x0))
  {
    LinesAreGroups(words);
    assert TotalPreorder(ReadingOrder());
    SortSorts(ReadingOrder(), words);
    assert ReadingOrder()(Sort(ReadingOrder(), words)[i], Sort(ReadingOrder(), words)[j]);
  }

  // ----- lines

  function Power(n: nat): real {
    if n == 0 then 1.0 else 2.0 * Power(n - 1)
  }

  /** The heights of the first `n` words, each weighing as much as all before it together. */
  function WeighedHeights(line: seq<Word>, n: nat): real
    requires 0 < n <= |line|
  {
    if n == 1 then line[0].top else WeighedHeights(line, n - 1) + Power(n - 2) * line[n - 1].top
  }

  lemma {:induction false} HeightExactly(line: seq<Word>, n: nat)
    requires 0 < n <= |line|
    ensures Power(n - 1) * TopAfter(line, n) == WeighedHeights(line, n)
  {
    if n > 1 {
      HeightExactly(line, n - 1);
      var p, before, top := Power(n - 2), TopAfter(line, n - 1), line[n - 1].top;
      assert Power(n - 1) == 2.0 * p;
      Doubled(p, before, top);
    }
  }

  lemma Doubled(p: real, a: real, b: real)
    ensures 2.0 * p * ((a + b) / 2.0) == p * a + p * b
  {
  }

  /** Three points at most from the height of the words before it. */
  predicate Near(w: Word, height: real) {
    -3.0 <= w.top - height <= 3.0
  }

  lemma NearIsNoBreak(line: seq<Word>, w: Word)
    requires line != []
    ensures LineBreaks()(line, w) <==> !Near(w, TopAfter(line, |line|))
  {
    assert RunningTop(line) == TopAfter(line, |line|);
    assert LineBreaks()(line, w) <==> Abs(w.top - RunningTop(line)) > LINE_TOP_TOLERANCE;
  }

  /** Within a line every word is near the height of those before it, and the first word of the
      next line is not. */
  lemma LinesCutExactly(words: seq<Word>, i: nat)
    requires i < |WordLines(words)|
    ensures var lines := WordLines(words);
      && lines[i] != []
      && (forall k :: 0 < k < |lines[i]| ==> Near(lines[i][k], TopAfter(lines[i], k)))
      && (i + 1 < |lines| ==> lines[i + 1] != [] && !Near(lines[i + 1][0], TopAfter(lines[i], |lines[i]|)))
  {
    var lines := WordLines(words);
    LinesAreGroups(words);
    NearTogether(lines[i]);
    if i + 1 < |lines| {
      assert Coherent(LineBreaks(), lines[i + 1]);
      NearIsNoBreak(lines[i], lines[i + 1][0]);
    }
  }

  lemma NearTogether(line: seq<Word>)
    requires Coherent(LineBreaks(), line)
    ensures forall k :: 0 < k < |line| ==> Near(line[k], TopAfter(line, k))
  {
    forall k | 0 < k < |line| ensures Near(line[k], TopAfter(line, k)) {
      NearIsNoBreak(line[..k], line[k]);
      TopOfPrefix(line, k);
    }
  }

  lemma TopOfPrefix(line: seq<Word>, k: nat)
    requires 0 < k <= |line|
    ensures RunningTop(line[..k]) == TopAfter(line, k)
  {
    PrefixTop(line, k, k);
  }

  lemma {:induction false} PrefixTop(line: seq<Word>, k: nat, n: nat)
    requires 0 < n <= k <= |line|
    ensures TopAfter(line[..k], n) == TopAfter(line, n)
  {
    if n > 1 {
      PrefixTop(line, k, n - 1);
    }
  }

  // ----- cells

  /** Twenty-eight points or more from the right edge of a word, or from its left edge where no
      right edge is recorded, to the next word. */
  predicate FarApart(a: Word, b: Word) {
    b.x0 - (if a.x1 == 0.0 then a.x0 else a.x1) >= 28.0
  }

  /** The tokens are cut into cells exactly where they stand far apart. */
  lemma CellsCutExactly(tokens: seq<Word>, i: nat)
    requires i < |CellsOf(tokens)|
    ensures var cells := CellsOf(tokens);
      && Flatten(cells) == tokens && cells[i] != []
      && (forall k :: 0 < k < |cells[i]| ==> !FarApart(cells[i][k - 1], cells[i][k]))
      && (i + 1 < |cells| ==> cells[i + 1] != [] && FarApart(cells[i][|cells[i]| - 1], cells[i + 1][0]))
  {
    var cells := CellsOf(tokens);
    CellsAreGroups(tokens);
    assert Coherent(AfterLast(WideGap()), cells[i]);
    forall k | 0 < k < |cells[i]| ensures !FarApart(cells[i][k - 1], cells[i][k]) {
      assert !AfterLast(WideGap())(cells[i][..k], cells[i][k]);
      WideGapTest(cells[i][..k], cells[i][k]);
    }
    if i + 1 < |cells| {
      assert Coherent(AfterLast(WideGap()), cells[i + 1]);
      WideGapTest(cells[i], cells[i + 1][0]);
    }
  }

  predicate GapAt(words: seq<Word>, i: int) {
    0 < i < |words| && FarApart(words[i - 1], words[i])
  }

  function Gaps(words: seq<Word>): set<int> {
    set i | 0 < i < |words| && GapAt(words, i)
  }

  lemma GapsAppend(words: seq<Word>, w: Word)
    ensures var n := |words|;
      Gaps(words + [w]) == Gaps(words) + if n > 0 && FarApart(words[n - 1], w) then {n} else {}
  {
    var all := words + [w];
    forall i | 0 < i < |words| ensures GapAt(all, i) <==> GapAt(words, i) {
      assert all[i - 1] == words[i - 1] && all[i] == words[i];
    }
  }

  /** The wide gaps that are counted are the places where neighbours stand far apart. */
  lemma {:induction false} GapsCounted(words: seq<Word>)
    ensures Cuts(WideGap(), words) == |Gaps(words)|
  {
    if words == [] {
      assert Gaps(words) == {};
    } else {
      var n := |words| - 1;
      var init := words[..n];
      GapsCounted(init);
      CutsAppend(WideGap(), init, words[n]);
      GapsAppend(init, words[n]);
      assert words == init + [words[n]];
    }
  }

  // ----- blocks

  /** A line stands apart from the one before it on its page when it begins more than eighteen
      points, and more than one and four fifths of the font size, below the other's end. */
  predicate StandsApart(previous: Line, line: Line) {
    && line.page == previous.page
    && line.frame.top - previous.frame.bottom > 18.0
    && 5.0 * (line.frame.top - previous.frame.bottom) > 9.0 * previous.frame.fontSize
  }

  /** Blocks are cut exactly where a line stands apart or carries a marker. */
  lemma BlocksCutExactly(lines: seq<Line>, marker: Line -> bool, i: nat)
    requires i < |LineGroups(lines, marker)|
    ensures var groups := LineGroups(lines, marker);
      && Flatten(groups) == lines && groups[i] != []
      && (forall k :: 0 < k < |groups[i]| ==> !StandsApart(groups[i][k - 1], groups[i][k]) && !marker(groups[i][k]))
      && (i + 1 < |groups| ==>
            groups[i + 1] != []
            && (StandsApart(groups[i][|groups[i]| - 1], groups[i + 1][0]) || marker(groups[i + 1][0])))
  {
    var groups := LineGroups(lines, marker);
    GroupsAreLines(lines, marker);
    assert Coherent(BlockBreaks(marker), groups[i]);
    forall k | 0 < k < |groups[i]| ensures !StandsApart(groups[i][k - 1], groups[i][k]) && !marker(groups[i][k]) {
      assert !BlockBreaks(marker)(groups[i][..k], groups[i][k]);
      BlockTest(marker, groups[i][..k], groups[i][k]);
    }
    if i + 1 < |groups| {
      assert BlockBreaks(marker)(groups[i], groups[i + 1][0]);
      BlockTest(marker, groups[i], groups[i + 1][0]);
    }
  }

  function Barred(cell: string): string {
    cell + " | "
  }

  lemma {:induction false} JoinedByBars(cells: seq<string>)
    requires cells != []
    ensures JoinWith(" | ", cells) + " | " == Concat(Barred, cells)
  {
    var n := |cells| - 1;
    if n == 0 {
      assert Concat(Barred, cells[..0]) == "";
    } else {
      JoinedByBars(cells[..n]);
    }
  }

  function AfterBlank(line: Line): string {
    " " + line.text
  }

  lemma {:induction false} JoinedByBlanks(lines: seq<Line>)
    requires lines != []
    ensures " " + JoinWith(" ", Texts(lines)) == Concat(AfterBlank, lines)
  {
    var n := |lines| - 1;
    assert Texts(lines)[..n] == Texts(lines[..n]);
    if n == 0 {
      assert Concat(AfterBlank, lines[..0]) == "";
    } else {
      JoinedByBlanks(lines[..n]);
    }
  }

  /** A table row with cells reads cell by cell with bars between them; any other block reads as
      its lines one after the other, put in order. */
  lemma BlockTextExactly(kind: BlockType, lines: seq<Line>)
    requires lines != []
    ensures var block := BlockOf(kind, lines);
      && block.lines == lines && block.kind == kind
      && block.cells == (if kind == TableRow then Concat(LineCells, lines) else [])
      && (if block.cells != [] then block.text + " | " == Concat(Barred, block.cells)
          else block.text == Spaced(AfterOpening, None, false, Concat(AfterBlank, lines)))
  {
    var block := BlockOf(kind, lines);
    if block.cells != [] {
      JoinedByBars(block.cells);
    } else {
      var text := JoinWith(" ", Texts(lines));
      JoinedByBlanks(lines);
      NormalizeExactly(text);
      assert (" " + text)[1..] == text;
      BlankBeforeFirst(AfterOpening, text);
    }
  }
}
