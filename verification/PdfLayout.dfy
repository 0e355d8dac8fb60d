/** Layout-based PDF text extraction: words into lines, and the text and cells of a line.
    Coordinates are exact reals. */
module PdfLayout {
  import opened Collecting
  import opened Options
  import opened Grouping
  import opened InlineText
  import opened Sorting
  import opened Whitespace

  datatype Word = Word(text: string, x0: real, x1: real, top: real)

  const LINE_TOP_TOLERANCE := 3.0
  const SPACE_GAP := 9.0
  const WIDE_GAP := 28.0

  function Abs(r: real): real {
    if r < 0.0 then -r else r
  }

  /** To one decimal, halves to the even neighbour, as Python's `round`; in tenths. */
  function RoundTenth(r: real): int {
    var whole := (r * 10.0).Floor;
    var rest := r * 10.0 - whole as real;
    if rest < 0.5 || (rest == 0.5 && whole % 2 == 0) then whole else whole + 1
  }

  function ReadingOrder(): (Word, Word) -> bool {
    (a: Word, b: Word) =>
      RoundTenth(a.top) < RoundTenth(b.top) || (RoundTenth(a.top) == RoundTenth(b.top) && a.x0 <= b.x0)
  }

  // ----- words into lines

  /** The reference height after the first `n` words: each word moves it halfway to its own. */
  function TopAfter(line: seq<Word>, n: nat): real
    requires 0 < n <= |line|
  {
    if n == 1 then line[0].top else (TopAfter(line, n - 1) + line[n - 1].top) / 2.0
  }

  function RunningTop(line: seq<Word>): real
    requires line != []
  {
    TopAfter(line, |line|)
  }

  lemma {:induction false} TopAfterPrefix(line: seq<Word>, w: Word, n: nat)
    requires 0 < n <= |line|
    ensures TopAfter(line + [w], n) == TopAfter(line, n)
  {
    if n > 1 {
      TopAfterPrefix(line, w, n - 1);
    }
  }

  function LineBreaks(): (seq<Word>, Word) -> bool {
    (line: seq<Word>, w: Word) => line != [] && Abs(w.top - RunningTop(line)) > LINE_TOP_TOLERANCE
  }

  /** The groups of words that make up the lines of a page. */
  function WordLines(words: seq<Word>): seq<seq<Word>> {
    Group(LineBreaks(), [], Sort(ReadingOrder(), words))
  }

  /** The lines already closed, followed by what the open line and the words from `i` on give. */
  function LinesFrom(closed: seq<seq<Word>>, line: seq<Word>, words: seq<Word>, i: nat): seq<seq<Word>>
    requires i <= |words|
    decreases |words| - i
  {
    if i == |words| then (if line == [] then closed else closed + [line])
    else if line != [] && Abs(words[i].top - RunningTop(line)) > LINE_TOP_TOLERANCE then
      LinesFrom(closed + [line], [words[i]], words, i + 1)
    else LinesFrom(closed, line + [words[i]], words, i + 1)
  }

  lemma {:induction false} LinesFromGroups(closed: seq<seq<Word>>, line: seq<Word>, words: seq<Word>, i: nat)
    requires i <= |words|
    ensures LinesFrom(closed, line, words, i) == closed + Group(LineBreaks(), line, words[i..])
    decreases |words| - i
  {
    if i == |words| {
      assert closed + [] == closed;
    } else {
      var w := words[i];
      SplitAt(words, i);
      GroupStep(LineBreaks(), closed, line, w, words[i + 1..]);
      if line != [] && Abs(w.top - RunningTop(line)) > LINE_TOP_TOLERANCE {
        LinesFromGroups(closed + [line], [w], words, i + 1);
      } else {
        LinesFromGroups(closed, line + [w], words, i + 1);
      }
    }
  }

  lemma SplitAt<T>(s: seq<T>, i: nat)
    requires i < |s|
    ensures s[i..] == [s[i]] + s[i + 1..]
  {
  }

  lemma RunningTopStep(line: seq<Word>, w: Word)
    ensures RunningTop(line + [w]) == if line == [] then w.top else (RunningTop(line) + w.top) / 2.0
  {
    if line != [] {
      TopAfterPrefix(line, w, |line|);
    }
  }

  /** What one word does to the lines closed so far and the open one. */
  lemma LineStep(closed: seq<seq<Word>>, line: seq<Word>, words: seq<Word>, i: nat, top: Option<real>)
    requires i < |words| && top == if line == [] then None else Some(RunningTop(line))
    ensures var w := words[i]; var goesOn := top.None? || Abs(w.top - top.value) <= LINE_TOP_TOLERANCE;
      && LinesFrom(closed, line, words, i)
           == (if goesOn then LinesFrom(closed, line + [w], words, i + 1) else LinesFrom(closed + [line], [w], words, i + 1))
      && RunningTop(line + [w]) == (if top.None? then w.top else (top.value + w.top) / 2.0)
      && RunningTop([w]) == w.top
  {
    RunningTopStep(line, words[i]);
  }

  method CutIntoLines(words: seq<Word>) returns (lines: seq<seq<Word>>)
    ensures lines == WordLines(words)
  {
    var ordered := Sort(ReadingOrder(), words);
    lines := [];
    var current: seq<Word> := [];
    var top := None;
    ghost var all := LinesFrom([], [], ordered, 0);
    for i := 0 to |ordered|
      invariant LinesFrom(lines, current, ordered, i) == all
      invariant top == if current == [] then None else Some(RunningTop(current))
    {
      var w := ordered[i];
      LineStep(lines, current, ordered, i, top);
      if top.None? || Abs(w.top - top.value) <= LINE_TOP_TOLERANCE {
        current := current + [w];
        top := Some(if top.None? then w.top else (top.value + w.top) / 2.0);
      } else {
        lines := lines + [current];
        current := [w];
        top := Some(w.top);
      }
    }
    if current != [] {
      lines := lines + [current];
    }
    LinesFromGroups([], [], ordered, 0);
    assert ordered[0..] == ordered;
  }

  /** The lines are the words in reading order, cut exactly where the height test fails. */
  lemma LinesAreGroups(words: seq<Word>)
    ensures IsGrouping(LineBreaks(), WordLines(words), Sort(ReadingOrder(), words))
    ensures multiset(Flatten(WordLines(words))) == multiset(words)
  {
    var ordered := Sort(ReadingOrder(), words);
    GroupIsGrouping(LineBreaks(), [], ordered);
    assert [] + ordered == ordered;
    SortPermutes(ReadingOrder(), words);
  }

  // ----- the text of a row of words

  /** The printed characters of a word. */
  function WordInk(w: Word): string {
    Ink(w.text)
  }

  /** The right edge; a missing one is recorded as zero and read as the left edge. */
  function RightEdge(w: Word): real {
    if w.x1 == 0.0 then w.x0 else w.x1
  }

  predicate Blank(w: Word) {
    Strip(w.text) == ""
  }

  /** The token after the text, with a blank between unless the text is empty or the token
      starts with closing punctuation. */
  function LayOn(text: string, token: string): string {
    if text == "" || token == "" || Closing(token[0]) then text + token else text + " " + token
  }

  function Laid(words: seq<Word>): string {
    if words == [] then "" else LayOn(Laid(words[..|words| - 1]), Strip(words[|words| - 1].text))
  }

  function Joined(words: seq<Word>): string {
    NormalizeInline(Laid(words))
  }

  /** The distance to the word before never decides: whenever there is one, a blank is due
      already. */
  method JoinWordTokens(words: seq<Word>) returns (text: string)
    ensures text == Joined(words)
  {
    text := "";
    var previousEdge := None;
    for i := 0 to |words|
      invariant text == Laid(words[..i])
      invariant previousEdge.Some? ==> text != ""
    {
      var w := words[i];
      var token := Strip(w.text);
      assert words[..i + 1][..i] == words[..i];
      if token == "" {
        continue;
      }
      var addSpace := text != "";
      if previousEdge.Some? && w.x0 - previousEdge.value > SPACE_GAP {
        addSpace := true;
      }
      if Closing(token[0]) {
        addSpace := false;
      }
      text := if addSpace then text + " " + token else text + token;
      previousEdge := Some(RightEdge(w));
    }
    assert words[..|words|] == words;
    text := NormalizeInline(text);
  }

  lemma LayOnInk(text: string, token: string)
    ensures Ink(LayOn(text, token)) == Ink(text) + Ink(token)
  {
    InkAppend(text, token);
    InkAppend(text, " ");
    InkAppend(text + " ", token);
    assert Ink(" ") == "";
    assert Ink(text) + "" == Ink(text);
  }

  lemma {:induction false} LaidInk(words: seq<Word>)
    ensures Ink(Laid(words)) == Concat(WordInk, words)
  {
    if words != [] {
      LaidInk(words[..|words| - 1]);
      StripInk(words[|words| - 1].text);
      LayOnInk(Laid(words[..|words| - 1]), Strip(words[|words| - 1].text));
    }
  }

  /** The text prints what the words print, in their order, and it is neat. */
  lemma JoinedInk(words: seq<Word>)
    ensures Ink(Joined(words)) == Concat(WordInk, words)
    ensures Joined(words) == "" <==> Ink(Joined(words)) == ""
    ensures Neat(Joined(words))
  {
    LaidInk(words);
    NormalizeKeepsInk(Laid(words));
    NormalizedIsNeat(Laid(words));
  }

  // ----- words into cells

  function WideGap(): (Word, Word) -> bool {
    (a: Word, b: Word) => b.x0 - RightEdge(a) >= WIDE_GAP
  }

  function NonBlankFrom(words: seq<Word>, i: nat): seq<Word>
    requires i <= |words|
    decreases |words| - i
  {
    if i == |words| then []
    else if Blank(words[i]) then NonBlankFrom(words, i + 1)
    else [words[i]] + NonBlankFrom(words, i + 1)
  }

  function NonBlank(words: seq<Word>): seq<Word> {
    NonBlankFrom(words, 0)
  }

  lemma {:induction false} NonBlankTokens(words: seq<Word>, i: nat)
    requires i <= |words|
    ensures forall w :: w in NonBlankFrom(words, i) ==> !Blank(w)
    decreases |words| - i
  {
    if i < |words| {
      NonBlankTokens(words, i + 1);
    }
  }

  lemma BlankPrintsNothing(w: Word)
    ensures Blank(w) <==> WordInk(w) == ""
  {
    StripInk(w.text);
  }

  lemma {:induction false} NonBlankInk(words: seq<Word>, i: nat)
    requires i <= |words|
    ensures Concat(WordInk, NonBlankFrom(words, i)) == Concat(WordInk, words[i..])
    decreases |words| - i
  {
    if i < |words| {
      var rest := NonBlankFrom(words, i + 1);
      NonBlankInk(words, i + 1);
      BlankPrintsNothing(words[i]);
      SplitAt(words, i);
      ConcatFirst(WordInk, words[i], words[i + 1..]);
      if Blank(words[i]) {
        assert NonBlankFrom(words, i) == rest;
      } else {
        ConcatFirst(WordInk, words[i], rest);
        assert NonBlankFrom(words, i) == [words[i]] + rest;
      }
    }
  }

  /** The cells of a line: consecutive tokens without a wide gap between them. */
  function CellsOf(tokens: seq<Word>): seq<seq<Word>> {
    Group(AfterLast(WideGap()), [], tokens)
  }

  lemma WideGapTest(cell: seq<Word>, w: Word)
    ensures AfterLast(WideGap())(cell, w) <==> cell != [] && w.x0 - RightEdge(cell[|cell| - 1]) >= WIDE_GAP
  {
  }

  /** The cells already closed, followed by what the open cell and the words from `i` on give. */
  function CellsFrom(closed: seq<seq<Word>>, cell: seq<Word>, words: seq<Word>, i: nat): seq<seq<Word>>
    requires i <= |words|
    decreases |words| - i
  {
    if i == |words| then (if cell == [] then closed else closed + [cell])
    else if Blank(words[i]) then CellsFrom(closed, cell, words, i + 1)
    else if cell != [] && words[i].x0 - RightEdge(cell[|cell| - 1]) >= WIDE_GAP then
      CellsFrom(closed + [cell], [words[i]], words, i + 1)
    else CellsFrom(closed, cell + [words[i]], words, i + 1)
  }

  lemma {:induction false} CellsFromGroups(closed: seq<seq<Word>>, cell: seq<Word>, words: seq<Word>, i: nat)
    requires i <= |words|
    ensures CellsFrom(closed, cell, words, i)
         == closed + Group(AfterLast(WideGap()), cell, NonBlankFrom(words, i))
    decreases |words| - i
  {
    if i == |words| {
      assert closed + [] == closed;
    } else if Blank(words[i]) {
      CellsFromGroups(closed, cell, words, i + 1);
    } else {
      var w := words[i];
      WideGapTest(cell, w);
      GroupStep(AfterLast(WideGap()), closed, cell, w, NonBlankFrom(words, i + 1));
      if cell != [] && w.x0 - RightEdge(cell[|cell| - 1]) >= WIDE_GAP {
        CellsFromGroups(closed + [cell], [w], words, i + 1);
      } else {
        CellsFromGroups(closed, cell + [w], words, i + 1);
      }
    }
  }

  function WordsInk(words: seq<Word>): string {
    Concat(WordInk, words)
  }

  /** The text of a cell, if it is not empty. */
  function CellText(cell: seq<Word>): Option<string> {
    var text := Joined(cell);
    if text == "" then None else Some(text)
  }

  /** The texts of the cells of a line. */
  function Cells(words: seq<Word>): seq<string> {
    Collected(CellText, CellsOf(NonBlank(words)))
  }

  /** Blank tokens are skipped, so a gap is measured from the last token that is not blank. */
  method CutIntoCells(words: seq<Word>) returns (cells: seq<seq<Word>>)
    ensures cells == CellsOf(NonBlank(words))
  {
    cells := [];
    var cell: seq<Word> := [];
    var previousEdge := None;
    for i := 0 to |words|
      invariant CellsFrom(cells, cell, words, i) == CellsFrom([], [], words, 0)
      invariant previousEdge == if cell == [] then None else Some(RightEdge(cell[|cell| - 1]))
    {
      var w := words[i];
      if Blank(w) {
        continue;
      }
      if previousEdge.Some? && w.x0 - previousEdge.value >= WIDE_GAP && cell != [] {
        cells := cells + [cell];
        cell := [];
      }
      assert [] + [w] == [w];
      cell := cell + [w];
      previousEdge := Some(RightEdge(w));
    }
    if cell != [] {
      cells := cells + [cell];
    }
    CellsFromGroups([], [], words, 0);
  }

  method JoinCells(cells: seq<seq<Word>>) returns (texts: seq<string>)
    ensures texts == Collected(CellText, cells)
  {
    texts := [];
    for i := 0 to |cells|
      invariant texts == Collected(CellText, cells[..i])
    {
      var text := JoinWordTokens(cells[i]);
      assert cells[..i + 1][..i] == cells[..i];
      if text != "" {
        texts := texts + [text];
      }
    }
    assert cells[..|cells|] == cells;
  }

  method SplitWordsIntoCells(words: seq<Word>) returns (texts: seq<string>)
    ensures texts == Cells(words)
  {
    var cells := CutIntoCells(words);
    texts := JoinCells(cells);
  }

  /** The cells are the tokens in order, cut exactly at the wide gaps; so there is one
      cell more than there are wide gaps. */
  lemma CellsAreGroups(tokens: seq<Word>)
    ensures IsGrouping(AfterLast(WideGap()), CellsOf(tokens), tokens)
    ensures |CellsOf(tokens)| == if tokens == [] then 0 else 1 + Cuts(WideGap(), tokens)
  {
    GroupIsGrouping(AfterLast(WideGap()), [], tokens);
    assert [] + tokens == tokens;
    if tokens != [] {
      GroupCount(WideGap(), [tokens[0]], tokens[1..]);
      assert [tokens[0]] + tokens[1..] == tokens;
      assert [] + [tokens[0]] == [tokens[0]];
    }
  }

  lemma CellPrints(tokens: seq<Word>, i: nat)
    requires i < |CellsOf(tokens)| && forall w :: w in tokens ==> !Blank(w)
    ensures Ink(Joined(CellsOf(tokens)[i])) != "" && CellText(CellsOf(tokens)[i]).Some?
  {
    var cells := CellsOf(tokens);
    CellsAreGroups(tokens);
    assert Coherent(AfterLast(WideGap()), cells[i]);
    InFlatten(cells, i, cells[i][0]);
    BlankPrintsNothing(cells[i][0]);
    ConcatEmpty(WordInk, cells[i]);
    JoinedInk(cells[i]);
  }

  /** No cell of a line is dropped for want of a text. */
  lemma EachCellHasText(words: seq<Word>)
    ensures var cells := CellsOf(NonBlank(words));
      && |Cells(words)| == |cells|
      && forall i :: 0 <= i < |cells| ==> Cells(words)[i] == Joined(cells[i]) && Ink(Cells(words)[i]) != ""
  {
    var cells := CellsOf(NonBlank(words));
    var texts := seq(|cells|, i requires 0 <= i < |cells| => Joined(cells[i]));
    NonBlankTokens(words, 0);
    forall i | 0 <= i < |cells| ensures CellText(cells[i]) == Some(texts[i]) && Ink(texts[i]) != "" {
      CellPrints(NonBlank(words), i);
    }
    AllCollected(CellText, cells, texts, |cells|);
    assert cells[..|cells|] == cells && texts[..|texts|] == texts;
  }

  /** A line's cells print exactly what its words print. */
  lemma CellsPrint(words: seq<Word>)
    ensures Concat(Ink, Cells(words)) == Concat(WordInk, words)
  {
    var cells := CellsOf(NonBlank(words));
    forall i | 0 <= i < |cells|
      ensures WordsInk(cells[i]) == if CellText(cells[i]).None? then [] else Ink(CellText(cells[i]).value)
    {
      JoinedInk(cells[i]);
    }
    CollectedGives(CellText, cells, |cells|, WordsInk, Ink);
    ConcatFlatten(WordInk, WordsInk, cells, |cells|);
    assert cells[..|cells|] == cells;
    CellsAreGroups(NonBlank(words));
    NonBlankInk(words, 0);
    assert words[0..] == words;
  }

  function Gap(a: Word, b: Word): real {
    var gap := b.x0 - RightEdge(a);
    if gap < 0.0 then 0.0 else gap
  }

  method MeasureWordGaps(words: seq<Word>) returns (wideGapCount: nat, maxGap: real)
    ensures wideGapCount == Cuts(WideGap(), words)
    ensures forall i :: 0 < i < |words| ==> Gap(words[i - 1], words[i]) <= maxGap
    ensures maxGap == 0.0 || exists i :: 0 < i < |words| && maxGap == Gap(words[i - 1], words[i])
  {
    wideGapCount, maxGap := 0, 0.0;
    ghost var widest := 0;
    var previousEdge := None;
    for i := 0 to |words|
      invariant previousEdge == if i == 0 then None else Some(RightEdge(words[i - 1]))
      invariant wideGapCount == Cuts(WideGap(), words[..i])
      invariant 0.0 <= maxGap
      invariant forall j :: 0 < j < i ==> Gap(words[j - 1], words[j]) <= maxGap
      invariant maxGap == 0.0 || (0 < widest < i && maxGap == Gap(words[widest - 1], words[widest]))
    {
      var w := words[i];
      assert words[..i + 1] == words[..i] + [w];
      CutsAppend(WideGap(), words[..i], w);
      if previousEdge.Some? {
        var gap := if w.x0 - previousEdge.value < 0.0 then 0.0 else w.x0 - previousEdge.value;
        assert gap == Gap(words[i - 1], w);
        if gap > maxGap {
          maxGap := gap;
          widest := i;
        }
        if gap >= WIDE_GAP {
          wideGapCount := wideGapCount + 1;
        }
      }
      previousEdge := Some(RightEdge(w));
    }
    assert words[..|words|] == words;
  }

  lemma {:induction false} NonBlankAll(words: seq<Word>, i: nat)
    requires i <= |words| && forall k :: 0 <= k < |words| ==> !Blank(words[k])
    ensures NonBlankFrom(words, i) == words[i..]
    decreases |words| - i
  {
    if i < |words| {
      NonBlankAll(words, i + 1);
    }
  }

  /** The two separate walks over a line of non-blank tokens agree: one more cell than wide
      gaps, and the cells print the tokens. */
  method CellsAndGapsAgree(words: seq<Word>) returns (cells: seq<string>, wideGapCount: nat)
    requires words != [] && forall i :: 0 <= i < |words| ==> !Blank(words[i])
    ensures |cells| == wideGapCount + 1 && Concat(Ink, cells) == Concat(WordInk, words)
  {
    var maxGap;
    cells := SplitWordsIntoCells(words);
    wideGapCount, maxGap := MeasureWordGaps(words);
    NonBlankAll(words, 0);
    CellsAreGroups(words);
    EachCellHasText(words);
    CellsPrint(words);
  }

  // ----- the lines of a page

  datatype Frame = Frame(top: real, bottom: real, fontSize: real)

  datatype Line = Line(text: string, page: int, frame: Frame, wideGaps: nat, cells: seq<string>)

  function LineOf(words: seq<Word>, page: int, frame: seq<Word> -> Frame): Line {
    Line(Joined(words), page, frame(words), Cuts(WideGap(), words), Cells(words))
  }

  /** What is recorded of a line, if it has a text; `frame` stands for its extent and median
      font size. */
  function Recorded(page: int, frame: seq<Word> -> Frame): seq<Word> -> Option<Line> {
    (words: seq<Word>) => if Joined(words) == "" then None else Some(LineOf(words, page, frame))
  }

  function PageLines(words: seq<Word>, page: int, frame: seq<Word> -> Frame): seq<Line> {
    Collected(Recorded(page, frame), WordLines(words))
  }

  method RecordLines(groups: seq<seq<Word>>, page: int, frame: seq<Word> -> Frame) returns (lines: seq<Line>)
    ensures lines == Collected(Recorded(page, frame), groups)
  {
    lines := [];
    for i := 0 to |groups|
      invariant lines == Collected(Recorded(page, frame), groups[..i])
    {
      assert groups[..i + 1][..i] == groups[..i];
      var text := JoinWordTokens(groups[i]);
      if text != "" {
        var wideGaps, maxGap := MeasureWordGaps(groups[i]);
        var cells := SplitWordsIntoCells(groups[i]);
        lines := lines + [Line(text, page, frame(groups[i]), wideGaps, cells)];
      }
    }
    assert groups[..|groups|] == groups;
  }

  method GroupWordsIntoLines(words: seq<Word>, page: int, frame: seq<Word> -> Frame) returns (lines: seq<Line>)
    ensures lines == PageLines(words, page, frame)
  {
    var groups := CutIntoLines(words);
    lines := RecordLines(groups, page, frame);
  }

  function LineInk(line: Line): string {
    Ink(line.text)
  }

  /** A line as the extraction leaves it: it prints something, and so does each of its cells,
      which together print the same. */
  predicate Printed(line: Line) {
    && LineInk(line) != "" && Concat(Ink, line.cells) == LineInk(line)
    && forall c :: c in line.cells ==> Ink(c) != ""
  }

  lemma LinePrints(words: seq<Word>, page: int, frame: seq<Word> -> Frame)
    ensures var line := Recorded(page, frame)(words);
      && Concat(WordInk, words) == (if line.None? then "" else LineInk(line.value))
      && (line.Some? ==> Printed(line.value))
  {
    JoinedInk(words);
    EachCellHasText(words);
    CellsPrint(words);
  }

  lemma LinesPrint(groups: seq<seq<Word>>, page: int, frame: seq<Word> -> Frame)
    ensures Concat(LineInk, Collected(Recorded(page, frame), groups)) == Concat(WordInk, Flatten(groups))
  {
    var record := Recorded(page, frame);
    forall i | 0 <= i < |groups|
      ensures WordsInk(groups[i]) == if record(groups[i]).None? then [] else LineInk(record(groups[i]).value)
    {
      LinePrints(groups[i], page, frame);
    }
    CollectedGives(record, groups, |groups|, WordsInk, LineInk);
    ConcatFlatten(WordInk, WordsInk, groups, |groups|);
    assert groups[..|groups|] == groups;
  }

  /** No printed character of a page is lost: its lines print its words in reading order. */
  lemma PageIsPrinted(words: seq<Word>, page: int, frame: seq<Word> -> Frame)
    ensures Concat(LineInk, PageLines(words, page, frame)) == Concat(WordInk, Sort(ReadingOrder(), words))
  {
    LinesAreGroups(words);
    LinesPrint(WordLines(words), page, frame);
  }

  /** The cells of each line print what the line prints. */
  lemma LinesArePrinted(groups: seq<seq<Word>>, page: int, frame: seq<Word> -> Frame)
    ensures forall l :: l in Collected(Recorded(page, frame), groups) ==> Printed(l)
  {
    var record := Recorded(page, frame);
    forall i | 0 <= i < |groups| && record(groups[i]).Some? ensures Printed(record(groups[i]).value) {
      LinePrints(groups[i], page, frame);
    }
    CollectedHave(record, groups, Printed);
  }
}
