/** Putting the text of a line in order: single blanks, none before closing punctuation
    and none after an opening bracket. */
module InlineText {
  import opened Whitespace

  predicate Closing(c: char) {
    c in ",.;:!?%)]}"
  }

  predicate Opening(c: char) {
    c in "([{"
  }

  /** What is printed: the characters that are not blank. */
  function Ink(s: string): string {
    if s == "" then "" else (if IsSpace(s[0]) then "" else [s[0]]) + Ink(s[1..])
  }

  /** Each run of blanks becomes one. */
  function Collapse(s: string): string
    decreases |s|
  {
    if s == "" then ""
    else if IsSpace(s[0]) then " " + Collapse(DropSpaces(s[1..]))
    else [s[0]] + Collapse(s[1..])
  }

  predicate LeadsToClosing(s: string) {
    var rest := DropSpaces(s);
    rest != "" && Closing(rest[0])
  }

  function DropBeforeClosing(s: string): string {
    if s == "" then ""
    else if IsSpace(s[0]) && LeadsToClosing(s) then DropBeforeClosing(s[1..])
    else [s[0]] + DropBeforeClosing(s[1..])
  }

  function DropAfterOpening(s: string): string
    decreases |s|
  {
    if s == "" then ""
    else [s[0]] + DropAfterOpening(if Opening(s[0]) then DropSpaces(s[1..]) else s[1..])
  }

  function NormalizeInline(text: string): string {
    DropAfterOpening(DropBeforeClosing(Strip(Collapse(text))))
  }

  // ----- nothing printed is lost

  lemma {:induction false} InkAppend(a: string, b: string)
    ensures Ink(a + b) == Ink(a) + Ink(b)
  {
    if a == "" {
      assert a + b == b;
    } else {
      assert (a + b)[1..] == a[1..] + b;
      InkAppend(a[1..], b);
    }
  }

  lemma {:induction false} DropSpacesInk(s: string)
    ensures Ink(DropSpaces(s)) == Ink(s)
  {
    if s != "" && IsSpace(s[0]) {
      DropSpacesInk(s[1..]);
    }
  }

  lemma {:induction false} DropSpacesAtEndInk(s: string)
    ensures Ink(DropSpacesAtEnd(s)) == Ink(s)
  {
    if s != "" && IsSpace(s[|s| - 1]) {
      var n := |s| - 1;
      DropSpacesAtEndInk(s[..n]);
      InkAppend(s[..n], s[n..]);
      assert s == s[..n] + s[n..];
      assert s[n..][1..] == "";
    }
  }

  lemma {:induction false} InkOfInked(s: string)
    requires s != "" && !IsSpace(s[0])
    ensures Ink(s) != ""
  {
  }

  /** Stripping keeps the ink, and leaves nothing only of a text without ink. */
  lemma StripInk(s: string)
    ensures Ink(Strip(s)) == Ink(s)
    ensures Strip(s) == "" <==> Ink(s) == ""
  {
    DropSpacesInk(s);
    DropSpacesAtEndInk(DropSpaces(s));
    StripFirst(s);
    if Strip(s) != "" {
      InkOfInked(Strip(s));
    }
  }

  lemma {:induction false} DropSpacesFirst(s: string)
    ensures DropSpaces(s) == "" || !IsSpace(DropSpaces(s)[0])
  {
    if s != "" && IsSpace(s[0]) {
      DropSpacesFirst(s[1..]);
    }
  }

  lemma {:induction false} AtEndPrefix(s: string)
    ensures var r := DropSpacesAtEnd(s);
      r <= s && (r == "" || !IsSpace(r[|r| - 1]))
  {
    if s != "" && IsSpace(s[|s| - 1]) {
      AtEndPrefix(s[..|s| - 1]);
    }
  }

  lemma StripFirst(s: string)
    ensures Strip(s) == "" || (!IsSpace(Strip(s)[0]) && !IsSpace(Strip(s)[|Strip(s)| - 1]))
  {
    DropSpacesFirst(s);
    AtEndPrefix(DropSpaces(s));
  }

  lemma {:induction false} CollapseInk(s: string)
    ensures Ink(Collapse(s)) == Ink(s)
    decreases |s|
  {
    if s != "" {
      if IsSpace(s[0]) {
        var rest := DropSpaces(s[1..]);
        CollapseInk(rest);
        DropSpacesInk(s[1..]);
        assert (" " + Collapse(rest))[1..] == Collapse(rest);
      } else {
        CollapseInk(s[1..]);
        assert ([s[0]] + Collapse(s[1..]))[1..] == Collapse(s[1..]);
      }
    }
  }

  lemma {:induction false} BeforeClosingInk(s: string)
    ensures Ink(DropBeforeClosing(s)) == Ink(s)
  {
    if s != "" {
      BeforeClosingInk(s[1..]);
      assert ([s[0]] + DropBeforeClosing(s[1..]))[1..] == DropBeforeClosing(s[1..]);
    }
  }

  lemma {:induction false} AfterOpeningInk(s: string)
    ensures Ink(DropAfterOpening(s)) == Ink(s)
    decreases |s|
  {
    if s != "" {
      var rest := if Opening(s[0]) then DropSpaces(s[1..]) else s[1..];
      AfterOpeningInk(rest);
      DropSpacesInk(s[1..]);
      assert ([s[0]] + DropAfterOpening(rest))[1..] == DropAfterOpening(rest);
    }
  }

  /** Every printed character is kept, in order; so a text is emptied only if it was blank. */
  lemma NormalizeKeepsInk(text: string)
    ensures Ink(NormalizeInline(text)) == Ink(text)
    ensures NormalizeInline(text) == "" <==> Ink(text) == ""
  {
    CollapseInk(text);
    StripInk(Collapse(text));
    BeforeClosingInk(Strip(Collapse(text)));
    AfterOpeningInk(DropBeforeClosing(Strip(Collapse(text))));
    NormalizedIsNeat(text);
    if NormalizeInline(text) != "" {
      InkOfInked(NormalizeInline(text));
    }
  }

  // ----- what the normal form looks like

  /** Every two neighbours go together. */
  predicate Pairs(ok: (char, char) -> bool, s: string) {
    |s| > 1 ==> ok(s[0], s[1]) && Pairs(ok, s[1..])
  }

  /** Blanks are plain ones. */
  ghost predicate Plain(s: string) {
    forall i :: 0 <= i < |s| && IsSpace(s[i]) ==> s[i] == ' '
  }

  ghost predicate EndsInked(s: string) {
    s == "" || !IsSpace(s[|s| - 1])
  }

  predicate Apart(a: char, b: char) {
    !(IsSpace(a) && IsSpace(b))
  }

  predicate Flows(a: char, b: char) {
    Apart(a, b) && !(IsSpace(a) && Closing(b))
  }

  predicate Fits(a: char, b: char) {
    Flows(a, b) && !(Opening(a) && IsSpace(b))
  }

  /** Plain blanks, none at the end, and neighbours that go together. */
  ghost predicate Ready(ok: (char, char) -> bool, s: string) {
    Plain(s) && EndsInked(s) && Pairs(ok, s)
  }

  /** Single inner blanks, none before closing punctuation, none after an opening bracket. */
  ghost predicate Neat(s: string) {
    Ready(Fits, s) && (s == "" || !IsSpace(s[0]))
  }

  lemma PrependPair(ok: (char, char) -> bool, c: char, s: string)
    requires Pairs(ok, s) && (s == "" || ok(c, s[0]))
    ensures Pairs(ok, [c] + s)
  {
    assert ([c] + s)[1..] == s;
  }

  lemma PrependReady(ok: (char, char) -> bool, c: char, s: string)
    requires Ready(ok, s) && (s == "" || ok(c, s[0])) && (IsSpace(c) ==> c == ' ' && s != "")
    ensures Ready(ok, [c] + s)
  {
    PrependPair(ok, c, s);
  }

  lemma RestReady(ok: (char, char) -> bool, s: string)
    requires Ready(ok, s) && s != ""
    ensures Ready(ok, s[1..])
  {
  }

  lemma {:induction false} PrefixPairs(ok: (char, char) -> bool, s: string, n: nat)
    requires Pairs(ok, s) && n <= |s|
    ensures Pairs(ok, s[..n])
  {
    if n > 1 {
      PrefixPairs(ok, s[1..], n - 1);
      assert s[..n][1..] == s[1..][..n - 1];
    }
  }

  lemma {:induction false} DropSpacesPairs(ok: (char, char) -> bool, s: string)
    requires Pairs(ok, s)
    ensures Pairs(ok, DropSpaces(s))
  {
    if s != "" && IsSpace(s[0]) {
      DropSpacesPairs(ok, s[1..]);
    }
  }

  lemma {:induction false} CollapseTidies(s: string)
    ensures var r := Collapse(s); Plain(r) && Pairs(Apart, r)
    ensures s != "" && !IsSpace(s[0]) ==> Collapse(s) != "" && Collapse(s)[0] == s[0]
    decreases |s|
  {
    if s != "" {
      var rest := if IsSpace(s[0]) then DropSpaces(s[1..]) else s[1..];
      CollapseTidies(rest);
      DropSpacesFirst(s[1..]);
      PrependPair(Apart, if IsSpace(s[0]) then ' ' else s[0], Collapse(rest));
    }
  }

  lemma {:induction false} DropSpacesSuffix(s: string)
    ensures DropSpaces(s) == s[|s| - |DropSpaces(s)|..]
  {
    if s != "" && IsSpace(s[0]) {
      DropSpacesSuffix(s[1..]);
    }
  }

  lemma StripTidies(s: string)
    requires Plain(s) && Pairs(Apart, s)
    ensures Ready(Apart, Strip(s)) && (Strip(s) == "" || !IsSpace(Strip(s)[0]))
  {
    var front := DropSpaces(s);
    DropSpacesSuffix(s);
    AtEndPrefix(front);
    StripFirst(s);
    DropSpacesPairs(Apart, s);
    PrefixPairs(Apart, front, |Strip(s)|);
    assert Strip(s) == front[..|Strip(s)|];
  }

  /** On single blanks the run to look past is the one blank. */
  lemma LeadsAcrossOne(s: string)
    requires Ready(Apart, s) && s != "" && IsSpace(s[0])
    ensures |s| > 1 && !IsSpace(s[1]) && DropSpaces(s) == s[1..] && (LeadsToClosing(s) <==> Closing(s[1]))
  {
    assert Apart(s[0], s[1]);
    assert DropSpaces(s[1..]) == s[1..];
  }

  lemma {:induction false} BeforeClosingFlows(s: string)
    requires Ready(Apart, s)
    ensures Ready(Flows, DropBeforeClosing(s))
    ensures s != "" && !IsSpace(s[0]) ==> DropBeforeClosing(s) != "" && DropBeforeClosing(s)[0] == s[0]
  {
    if s != "" {
      RestReady(Apart, s);
      BeforeClosingFlows(s[1..]);
      if IsSpace(s[0]) {
        LeadsAcrossOne(s);
        if !Closing(s[1]) {
          PrependReady(Flows, s[0], DropBeforeClosing(s[1..]));
        }
      } else {
        PrependReady(Flows, s[0], DropBeforeClosing(s[1..]));
      }
    }
  }

  /** What is still to be read after the first character. */
  function AfterFirst(s: string): string
    requires s != ""
  {
    if Opening(s[0]) then DropSpaces(s[1..]) else s[1..]
  }

  lemma AfterFirstFlows(s: string)
    requires s != "" && Ready(Flows, s)
    ensures var r := AfterFirst(s);
      |r| < |s| && Ready(Flows, r) && (r != "" ==> Fits(s[0], r[0]))
  {
    var r := AfterFirst(s);
    DropSpacesSuffix(s[1..]);
    DropSpacesFirst(s[1..]);
    DropSpacesPairs(Flows, s[1..]);
  }

  lemma {:induction false} AfterOpeningFits(s: string)
    requires Ready(Flows, s)
    ensures var r := DropAfterOpening(s); Ready(Fits, r) && (s != "" ==> r != "" && r[0] == s[0])
    decreases |s|
  {
    if s != "" {
      var rest := AfterFirst(s);
      AfterFirstFlows(s);
      AfterOpeningFits(rest);
      PrependReady(Fits, s[0], DropAfterOpening(rest));
    }
  }

  lemma NormalizedIsNeat(text: string)
    ensures Neat(NormalizeInline(text))
  {
    CollapseTidies(text);
    var stripped := Strip(Collapse(text));
    StripTidies(Collapse(text));
    BeforeClosingFlows(stripped);
    AfterOpeningFits(DropBeforeClosing(stripped));
  }

  lemma {:induction false} NothingToCollapse(s: string)
    requires Plain(s) && Pairs(Apart, s)
    ensures Collapse(s) == s
  {
    if s != "" {
      NothingToCollapse(s[1..]);
      assert |s| > 1 ==> Apart(s[0], s[1]);
      assert IsSpace(s[0]) ==> DropSpaces(s[1..]) == s[1..];
    }
  }

  lemma {:induction false} NothingBeforeClosing(s: string)
    requires Ready(Apart, s) && Pairs(Flows, s)
    ensures DropBeforeClosing(s) == s
  {
    if s != "" {
      NothingBeforeClosing(s[1..]);
      if IsSpace(s[0]) {
        LeadsAcrossOne(s);
        assert Flows(s[0], s[1]);
      }
    }
  }

  lemma {:induction false} NothingAfterOpening(s: string)
    requires Pairs(Fits, s)
    ensures DropAfterOpening(s) == s
  {
    if s != "" {
      NothingAfterOpening(s[1..]);
      assert |s| > 1 ==> Fits(s[0], s[1]);
      assert Opening(s[0]) ==> DropSpaces(s[1..]) == s[1..];
    }
  }

  /** The normal forms are the neat texts: normalising yields one and leaves one alone. */
  lemma NeatIsNormal(text: string)
    ensures Neat(text) <==> NormalizeInline(text) == text
    ensures NormalizeInline(NormalizeInline(text)) == NormalizeInline(text)
  {
    NormalizedIsNeat(text);
    NeatStays(NormalizeInline(text));
    if Neat(text) {
      NeatStays(text);
    }
  }

  lemma {:induction false} FitsFlowsApart(s: string)
    requires Pairs(Fits, s)
    ensures Pairs(Flows, s) && Pairs(Apart, s)
  {
    if |s| > 1 {
      FitsFlowsApart(s[1..]);
    }
  }

  lemma NeatStays(s: string)
    requires Neat(s)
    ensures NormalizeInline(s) == s
  {
    FitsFlowsApart(s);
    NothingToCollapse(s);
    assert Strip(s) == s;
    NothingBeforeClosing(s);
    NothingAfterOpening(s);
  }
}
