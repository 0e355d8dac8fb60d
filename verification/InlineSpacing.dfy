/** Putting a text in order, told in one pass: the printed characters as they come, with a blank
    between two of them exactly where the text has one and none is forbidden there. */
module InlineSpacing {
  import opened InlineText
  import opened Options
  import opened PdfLayout
  import opened Whitespace

  /** How many of the program's three passes are accounted for: single blanks, none before
      closing punctuation, none after an opening bracket. */
  datatype Passes = Collapsed | BeforeClosing | AfterOpening

  /** A blank may stand between two characters. */
  predicate MayPart(passes: Passes, a: char, b: char) {
    && (passes.Collapsed? || b !in ",.;:!?%)]}")
    && (passes.AfterOpening? ==> a !in "([{")
  }

  /** `last` is the character printed before, `blank` tells whether white space came after it. */
  function Spaced(passes: Passes, last: Option<char>, blank: bool, s: string): string
    decreases |s|
  {
    if s == "" then ""
    else if IsSpace(s[0]) then Spaced(passes, last, true, s[1..])
    else
      var parted := blank && last.Some? && MayPart(passes, last.value, s[0]);
      (if parted then " " else "") + [s[0]] + Spaced(passes, Some(s[0]), false, s[1..])
  }

  // ----- the three passes

  lemma {:induction false} SkipBlanks(passes: Passes, last: Option<char>, s: string)
    ensures Spaced(passes, last, true, DropSpaces(s)) == Spaced(passes, last, true, s)
  {
    if s != "" && IsSpace(s[0]) {
      SkipBlanks(passes, last, s[1..]);
    }
  }

  lemma {:induction false} AtEndAppend(a: string, b: string)
    requires DropSpacesAtEnd(b) != ""
    ensures DropSpacesAtEnd(a + b) == a + DropSpacesAtEnd(b)
  {
    var n := |b| - 1;
    assert (a + b)[|a + b| - 1] == b[n];
    if IsSpace(b[n]) {
      AtEndAppend(a, b[..n]);
      assert (a + b)[..|a + b| - 1] == a + b[..n];
    }
  }

  lemma AtEndOne(c: char)
    requires !IsSpace(c)
    ensures DropSpacesAtEnd([c]) == [c] && DropSpacesAtEnd([c, ' ']) == [c]
  {
    assert [c, ' '][..1] == [c];
  }

  lemma {:induction false} CollapseSpaced(last: char, s: string)
    requires !IsSpace(last)
    ensures DropSpacesAtEnd([last] + Collapse(s)) == [last] + Spaced(Collapsed, Some(last), false, s)
    decreases |s|
  {
    AtEndOne(last);
    if s == "" {
      assert [last] + Collapse(s) == [last];
    } else if !IsSpace(s[0]) {
      CollapseSpaced(s[0], s[1..]);
      AtEndAppend([last], [s[0]] + Collapse(s[1..]));
      assert "" + [s[0]] == [s[0]];
    } else {
      var rest := DropSpaces(s[1..]);
      DropSpacesFirst(s[1..]);
      SkipBlanks(Collapsed, Some(last), s[1..]);
      CollapseRun(last, rest);
      assert [last] + Collapse(s) == [last, ' '] + Collapse(rest);
    }
  }

  lemma {:induction false} CollapseRun(last: char, rest: string)
    requires !IsSpace(last) && (rest == "" || !IsSpace(rest[0]))
    ensures DropSpacesAtEnd([last, ' '] + Collapse(rest)) == [last] + Spaced(Collapsed, Some(last), true, rest)
    decreases |rest|
  {
    AtEndOne(last);
    if rest == "" {
      assert [last, ' '] + Collapse(rest) == [last, ' '];
    } else {
      CollapseSpaced(rest[0], rest[1..]);
      AtEndAppend([last, ' '], [rest[0]] + Collapse(rest[1..]));
      var after := Spaced(Collapsed, Some(rest[0]), false, rest[1..]);
      assert [last, ' '] + ([rest[0]] + after) == [last] + (" " + [rest[0]] + after);
    }
  }

  lemma DropSpacesCollapse(s: string)
    ensures DropSpaces(Collapse(s)) == Collapse(DropSpaces(s))
  {
    if s != "" && IsSpace(s[0]) {
      var rest := DropSpaces(s[1..]);
      DropSpacesFirst(s[1..]);
      assert Collapse(s)[1..] == Collapse(rest);
      assert DropSpaces(Collapse(rest)) == Collapse(rest);
    }
  }

  lemma {:induction false} BlankBeforeFirst(passes: Passes, s: string)
    ensures Spaced(passes, None, true, s) == Spaced(passes, None, false, s)
  {
  }

  lemma StripSpaced(text: string)
    ensures Strip(Collapse(text)) == Spaced(Collapsed, None, false, text)
  {
    var front := DropSpaces(text);
    DropSpacesFirst(text);
    DropSpacesCollapse(text);
    SkipBlanks(Collapsed, None, text);
    BlankBeforeFirst(Collapsed, text);
    if front != "" {
      CollapseSpaced(front[0], front[1..]);
    }
  }

  lemma {:induction false} ClosingSpaced(last: Option<char>, blank: bool, s: string)
    ensures DropBeforeClosing(Spaced(Collapsed, last, blank, s)) == Spaced(BeforeClosing, last, blank, s)
    decreases |s|
  {
    if s != "" && IsSpace(s[0]) {
      ClosingSpaced(last, true, s[1..]);
    } else if s != "" {
      var before, after := Spaced(Collapsed, Some(s[0]), false, s[1..]), Spaced(BeforeClosing, Some(s[0]), false, s[1..]);
      ClosingSpaced(Some(s[0]), false, s[1..]);
      ClosingStep([s[0]] + before);
      var gap := if blank && last.Some? then " " else "";
      Regrouped(gap, [s[0]], before);
      Regrouped(if Closing(s[0]) then "" else gap, [s[0]], after);
      assert "" + ([s[0]] + before) == [s[0]] + before && "" + ([s[0]] + after) == [s[0]] + after;
    }
  }

  lemma ClosingStep(s: string)
    requires s != "" && !IsSpace(s[0])
    ensures DropBeforeClosing(s) == [s[0]] + DropBeforeClosing(s[1..])
    ensures DropBeforeClosing(" " + s) == (if Closing(s[0]) then "" else " ") + DropBeforeClosing(s)
  {
    assert (" " + s)[1..] == s;
    assert DropSpaces(" " + s) == DropSpaces(s) == s;
    assert "" + DropBeforeClosing(s) == DropBeforeClosing(s);
  }

  lemma {:induction false} OpeningSpaced(last: char, blank: bool, s: string)
    requires !IsSpace(last)
    ensures DropAfterOpening([last] + Spaced(BeforeClosing, Some(last), blank, s))
         == [last] + Spaced(AfterOpening, Some(last), blank, s)
    decreases |s|
  {
    if s == "" {
      assert [last] + "" == [last];
    } else if IsSpace(s[0]) {
      OpeningSpaced(last, true, s[1..]);
    } else {
      var before, after := Spaced(BeforeClosing, Some(s[0]), false, s[1..]), Spaced(AfterOpening, Some(s[0]), false, s[1..]);
      OpeningSpaced(s[0], false, s[1..]);
      OpeningStep(last, [s[0]] + before);
      var gap := if blank && MayPart(BeforeClosing, last, s[0]) then " " else "";
      Regrouped(gap, [s[0]], before);
      Regrouped(if Opening(last) then "" else gap, [s[0]], after);
      Regrouped([last], if Opening(last) then "" else gap, [s[0]] + after);
      assert "" + ([s[0]] + before) == [s[0]] + before && [last] + "" == [last];
    }
  }

  lemma OpeningFirst(a: char, rest: string)
    ensures DropAfterOpening([a] + rest) == [a] + DropAfterOpening(if Opening(a) then DropSpaces(rest) else rest)
  {
    assert ([a] + rest)[1..] == rest;
  }

  lemma OpeningStep(a: char, rest: string)
    requires !IsSpace(a) && rest != "" && !IsSpace(rest[0])
    ensures DropAfterOpening([a] + rest) == [a] + DropAfterOpening(rest)
    ensures DropAfterOpening([a] + (" " + rest)) == [a] + (if Opening(a) then "" else " ") + DropAfterOpening(rest)
  {
    assert DropSpaces(rest) == rest;
    OpeningFirst(a, rest);
    OpeningFirst(a, [' '] + rest);
    OpeningFirst(' ', rest);
    OneBlank(rest);
    Regrouped([a], if Opening(a) then "" else " ", DropAfterOpening(rest));
  }

  lemma OneBlank(rest: string)
    ensures " " + rest == [' '] + rest && DropSpaces([' '] + rest) == DropSpaces(rest)
  {
    assert ([' '] + rest)[1..] == rest;
  }

  lemma {:induction false} FirstSpaced(blank: bool, s: string)
    ensures DropAfterOpening(Spaced(BeforeClosing, None, blank, s)) == Spaced(AfterOpening, None, blank, s)
    decreases |s|
  {
    if s != "" && IsSpace(s[0]) {
      FirstSpaced(true, s[1..]);
    } else if s != "" {
      OpeningSpaced(s[0], false, s[1..]);
    }
  }

  /** The three passes over the text amount to the one. */
  lemma NormalizeExactly(text: string)
    ensures NormalizeInline(text) == Spaced(AfterOpening, None, false, text)
  {
    StripSpaced(text);
    ClosingSpaced(None, false, text);
    FirstSpaced(false, text);
  }

  // ----- the text of a row of words

  /** What is printed last, and whether white space follows it. */
  function Behind(last: Option<char>, blank: bool, s: string): (Option<char>, bool)
    decreases |s|
  {
    if s == "" then (last, blank)
    else if IsSpace(s[0]) then Behind(last, true, s[1..])
    else Behind(Some(s[0]), false, s[1..])
  }

  lemma {:induction false} SpacedAppend(last: Option<char>, blank: bool, a: string, b: string)
    ensures var (l, k) := Behind(last, blank, a);
      && Spaced(AfterOpening, last, blank, a + b) == Spaced(AfterOpening, last, blank, a) + Spaced(AfterOpening, l, k, b)
      && Behind(last, blank, a + b) == Behind(l, k, b)
    decreases |a|
  {
    if a == "" {
      assert a + b == b;
    } else {
      assert (a + b)[1..] == a[1..] + b && (a + b)[0] == a[0];
      if IsSpace(a[0]) {
        SpacedAppend(last, true, a[1..], b);
      } else {
        SpacedAppend(Some(a[0]), false, a[1..], b);
        var (l, k) := Behind(last, blank, a);
        var parted := blank && last.Some? && MayPart(AfterOpening, last.value, a[0]);
        Regrouped((if parted then " " else "") + [a[0]], Spaced(AfterOpening, Some(a[0]), false, a[1..]),
                  Spaced(AfterOpening, l, k, b));
      }
    }
  }

  lemma Regrouped(a: string, b: string, c: string)
    ensures a + (b + c) == a + b + c
  {
  }

  lemma {:induction false} OnlyBlanks(last: Option<char>, blank: bool, s: string)
    requires forall i :: 0 <= i < |s| ==> IsSpace(s[i])
    ensures Spaced(AfterOpening, last, blank, s) == ""
    ensures Behind(last, blank, s) == (last, blank || s != "")
    decreases |s|
  {
    if s != "" {
      OnlyBlanks(last, true, s[1..]);
    }
  }

  predicate AllBlank(s: string) {
    forall i :: 0 <= i < |s| ==> IsSpace(s[i])
  }

  lemma {:induction false} DroppedBlank(s: string)
    ensures |DropSpaces(s)| <= |s| && AllBlank(s[..|s| - |DropSpaces(s)|])
  {
    if s != "" && IsSpace(s[0]) {
      DroppedBlank(s[1..]);
    }
  }

  lemma {:induction false} DroppedBlankAtEnd(s: string)
    ensures DropSpacesAtEnd(s) <= s && AllBlank(s[|DropSpacesAtEnd(s)|..])
  {
    AtEndPrefix(s);
    if s != "" && IsSpace(s[|s| - 1]) {
      DroppedBlankAtEnd(s[..|s| - 1]);
    }
  }

  lemma StripParts(s: string) returns (lead: string, trail: string)
    ensures s == lead + (Strip(s) + trail) && AllBlank(lead) && AllBlank(trail)
  {
    var front := DropSpaces(s);
    DroppedBlank(s);
    DropSpacesSuffix(s);
    DroppedBlankAtEnd(front);
    lead, trail := s[..|s| - |front|], front[|Strip(s)|..];
    assert s == lead + front && front == Strip(s) + trail;
  }

  /** A word behind a blank reads as its token does; white space at its ends does not count. */
  lemma WordSpaced(last: Option<char>, blank: bool, s: string)
    ensures Spaced(AfterOpening, last, blank, " " + s) == Spaced(AfterOpening, last, true, Strip(s))
    ensures Behind(last, blank, " " + s).0 == Behind(last, true, Strip(s)).0
  {
    var lead, trail := StripParts(s);
    var (l, k) := Behind(last, true, Strip(s));
    assert " " + s == (" " + lead) + (Strip(s) + trail);
    OnlyBlanks(last, blank, " " + lead);
    SpacedAppend(last, blank, " " + lead, Strip(s) + trail);
    SpacedAppend(last, true, Strip(s), trail);
    OnlyBlanks(l, k, trail);
  }

  /** At the beginning, and before closing punctuation, white space makes no difference. */
  lemma BlankForgotten(last: Option<char>, token: string)
    requires token == "" || (!IsSpace(token[0]) && (last == None || Closing(token[0])))
    ensures Spaced(AfterOpening, last, true, token) == Spaced(AfterOpening, last, false, token)
    ensures Behind(last, true, token).0 == Behind(last, false, token).0
  {
  }

  /** The words' texts one after the other, each behind a blank. */
  function Spread(words: seq<Word>): string {
    if words == [] then "" else Spread(words[..|words| - 1]) + (" " + words[|words| - 1].text)
  }

  lemma {:induction false} Emptied(last: Option<char>, blank: bool, s: string)
    requires s != "" && !IsSpace(s[0])
    ensures Behind(last, blank, s).0.Some?
  {
    StaysPrinted(s[0], false, s[1..]);
  }

  lemma {:induction false} StaysPrinted(last: char, blank: bool, s: string)
    ensures Behind(Some(last), blank, s).0.Some?
    decreases |s|
  {
    if s != "" {
      StaysPrinted(if IsSpace(s[0]) then last else s[0], IsSpace(s[0]), s[1..]);
    }
  }

  lemma LaySpaced(text: string, token: string)
    requires (text == "" || Behind(None, false, text).0.Some?) && (token == "" || !IsSpace(token[0]))
    ensures var last := Behind(None, false, text).0; var r := LayOn(text, token);
      && Spaced(AfterOpening, None, false, r) == Spaced(AfterOpening, None, false, text) + Spaced(AfterOpening, last, true, token)
      && Behind(None, false, r).0 == Behind(last, true, token).0
      && (r == "" || Behind(None, false, r).0.Some?)
  {
    var (last, blank) := Behind(None, false, text);
    var r := LayOn(text, token);
    if token == "" {
      assert text + token == text;
    } else if text == "" || Closing(token[0]) {
      assert r == text + token;
      SpacedAppend(None, false, text, token);
      BlankForgotten(last, token);
      Emptied(last, true, token);
    } else {
      assert r == text + (" " + token);
      SpacedAppend(None, false, text, " " + token);
      Emptied(last, true, token);
      assert (" " + token)[1..] == token;
    }
  }

  lemma {:induction false} LaidSpaced(words: seq<Word>)
    ensures var laid, spread := Laid(words), Spread(words);
      && Spaced(AfterOpening, None, false, laid) == Spaced(AfterOpening, None, false, spread)
      && Behind(None, false, laid).0 == Behind(None, false, spread).0
      && (laid == "" || Behind(None, false, laid).0.Some?)
  {
    if words != [] {
      var init, t := words[..|words| - 1], words[|words| - 1].text;
      LaidSpaced(init);
      StripFirst(t);
      LaySpaced(Laid(init), Strip(t));
      var (last, blank) := Behind(None, false, Spread(init));
      SpacedAppend(None, false, Spread(init), " " + t);
      WordSpaced(last, blank, t);
    }
  }

  /** The text of a row of words is theirs in order, with a blank between any two words and
      wherever a word has one, except before closing punctuation and after an opening bracket. */
  lemma JoinedExactly(words: seq<Word>)
    ensures Joined(words) == Spaced(AfterOpening, None, false, Spread(words))
  {
    NormalizeExactly(Laid(words));
    LaidSpaced(words);
  }
}
