/** Cutting a text into chunks for training: sentences are packed in order, greedily, and
    a sentence too long for a chunk is sliced. */
module Chunking {
  import opened Options
  import opened Whitespace

  predicate EndsSentence(c: char) {
    c == '.' || c == '!' || c == '?'
  }

  // ----- splitting and joining

  /** `split()`: the maximal runs of non-space characters; `word` is the run being read. */
  function Words(word: string, text: string): seq<string>
    decreases |text|
  {
    var done := if word == "" then [] else [word];
    if text == "" then done
    else if IsSpace(text[0]) then done + Words("", text[1..])
    else Words(word + [text[0]], text[1..])
  }

  function Join(parts: seq<string>): string {
    if parts == [] then ""
    else if |parts| == 1 then parts[0]
    else parts[0] + " " + Join(parts[1..])
  }

  function Normalize(text: string): string {
    Join(Words("", text))
  }

  /** Splits at the spaces that follow a sentence end; `sentence` is the one being read. */
  function Sentences(sentence: string, text: string): seq<string>
    decreases |text|
  {
    if text == "" then [sentence]
    else if IsSpace(text[0]) && sentence != "" && EndsSentence(sentence[|sentence| - 1]) then
      [sentence] + Sentences("", DropSpaces(text[1..]))
    else Sentences(sentence + [text[0]], text[1..])
  }

  /** Text as `Normalize` leaves it: single blanks, none at either end. */
  ghost predicate Tidy(s: string) {
    forall i :: 0 <= i < |s| && IsSpace(s[i]) ==> s[i] == ' ' && 0 < i < |s| - 1 && !IsSpace(s[i + 1])
  }

  ghost predicate Word(s: string) {
    s != "" && forall i :: 0 <= i < |s| ==> !IsSpace(s[i])
  }

  lemma {:induction false} WordsAreWords(word: string, text: string)
    requires word == "" || Word(word)
    ensures forall w :: w in Words(word, text) ==> Word(w)
    decreases |text|
  {
    if text != "" {
      if IsSpace(text[0]) {
        WordsAreWords("", text[1..]);
      } else {
        WordsAreWords(word + [text[0]], text[1..]);
      }
    }
  }

  lemma {:induction false} JoinedWordsTidy(words: seq<string>)
    requires forall w :: w in words ==> Word(w)
    ensures Tidy(Join(words))
    ensures words != [] ==> Join(words) != "" && !IsSpace(Join(words)[0])
  {
    if |words| == 1 {
      assert words[0] in words;
    } else if |words| > 1 {
      JoinedWordsTidy(words[1..]);
      assert words[0] in words;
      TidyAcrossBlank(words[0], Join(words[1..]));
    }
  }

  lemma TidyAcrossBlank(a: string, b: string)
    requires Word(a) && Tidy(b) && b != "" && !IsSpace(b[0])
    ensures Tidy(a + " " + b)
  {
    var s := a + " " + b;
    forall i | 0 <= i < |s| && IsSpace(s[i])
      ensures s[i] == ' ' && 0 < i < |s| - 1 && !IsSpace(s[i + 1])
    {
      if i > |a| {
        assert s[i] == b[i - |a| - 1];
      }
    }
  }

  /** Normalised text is tidy, so the search for blank lines between paragraphs finds none. */
  lemma NormalizedIsTidy(text: string)
    ensures Tidy(Normalize(text))
    ensures '\n' !in Normalize(text)
  {
    WordsAreWords("", text);
    JoinedWordsTidy(Words("", text));
  }

  lemma StripTidy(s: string)
    requires Tidy(s)
    ensures Strip(s) == s
  {
  }

  /** The sentences are tidy, non-empty, and joined by blanks they are the text again. */
  lemma {:induction false} SentencesRestore(sentence: string, text: string)
    requires Tidy(sentence + text) && sentence + text != ""
    ensures var ss := Sentences(sentence, text);
      && Join(ss) == sentence + text
      && (forall s :: s in ss ==> Tidy(s) && s != "")
      && ss != []
    decreases |text|
  {
    if text == "" {
      assert sentence + text == sentence;
    } else if IsSpace(text[0]) && sentence != "" && EndsSentence(sentence[|sentence| - 1]) {
      var rest := text[1..];
      var all := sentence + text;
      assert all[|sentence|] == text[0];
      assert rest != "" && !IsSpace(rest[0]) by { assert all[|sentence| + 1] == rest[0]; }
      assert DropSpaces(rest) == rest;
      SuffixTidy(sentence, text);
      assert "" + rest == rest;
      SentencesRestore("", rest);
      assert sentence + text == sentence + " " + rest;
    } else {
      assert (sentence + [text[0]]) + text[1..] == sentence + text;
      SentencesRestore(sentence + [text[0]], text[1..]);
    }
  }

  lemma SuffixTidy(sentence: string, text: string)
    requires Tidy(sentence + text) && text != "" && sentence != "" && IsSpace(text[0])
    requires !IsSpace(sentence[|sentence| - 1])
    ensures Tidy(sentence) && Tidy(text[1..])
  {
    var all := sentence + text;
    forall i | 0 <= i < |sentence| && IsSpace(sentence[i])
      ensures sentence[i] == ' ' && 0 < i < |sentence| - 1 && !IsSpace(sentence[i + 1])
    {
      assert all[i] == sentence[i] && all[i + 1] == sentence[i + 1];
    }
    var rest := text[1..];
    assert all[|sentence|] == text[0];
    forall i | 0 <= i < |rest| && IsSpace(rest[i])
      ensures rest[i] == ' ' && 0 < i < |rest| - 1 && !IsSpace(rest[i + 1])
    {
      var j := i + |sentence| + 1;
      assert all[j] == rest[i];
      assert i + 1 < |rest| ==> all[j + 1] == rest[i + 1];
      assert all[|sentence| + 1] == rest[0];
    }
  }

  // ----- packing

  /** A chunk; a glued one continues the chunk before it in mid-sentence. */
  datatype Piece = Piece(text: string, glued: bool)

  function Slices(s: string, maxChunk: nat): seq<string>
    requires 0 < maxChunk
  {
    if s == "" then []
    else if |s| <= maxChunk then [s]
    else [s[..maxChunk]] + Slices(s[maxChunk..], maxChunk)
  }

  function Glue(slices: seq<string>, glued: bool): seq<Piece> {
    if slices == [] then [] else [Piece(slices[0], glued)] + Glue(slices[1..], true)
  }

  function Flush(buf: string): seq<Piece> {
    if buf == "" then [] else [Piece(buf, false)]
  }

  function Pack(buf: string, sentences: seq<string>, maxChunk: nat): seq<Piece>
    requires 0 < maxChunk
    decreases |sentences|
  {
    if sentences == [] then Flush(buf)
    else
      var s := sentences[0];
      if |buf| + |s| + 1 <= maxChunk then Pack(Strip(buf + " " + s), sentences[1..], maxChunk)
      else if |s| <= maxChunk then Flush(buf) + Pack(s, sentences[1..], maxChunk)
      else Flush(buf) + Glue(Slices(s, maxChunk), false) + Pack("", sentences[1..], maxChunk)
  }

  function Texts(pieces: seq<Piece>): seq<string> {
    if pieces == [] then [] else [pieces[0].text] + Texts(pieces[1..])
  }

  /** The chunks before the short ones are dropped. */
  function Pieces(text: string, maxChunk: nat): seq<Piece>
    requires 0 < maxChunk
  {
    var raw := Normalize(text);
    if raw == "" then []
    else if |raw| <= maxChunk then [Piece(raw, false)]
    else Pack("", Sentences("", raw), maxChunk)
  }

  function LongEnough(parts: seq<string>): seq<string> {
    if parts == [] then []
    else (if |Strip(parts[0])| > 20 then [parts[0]] else []) + LongEnough(parts[1..])
  }

  /** `None` is the error of a range with step zero; a negative limit drops every sentence. */
  method ChunkTextForTraining(text: string, maxChunk: int) returns (chunks: Option<seq<string>>)
    ensures maxChunk > 0 ==> chunks == Some(LongEnough(Texts(Pieces(text, maxChunk))))
    ensures maxChunk == 0 ==> chunks == if Normalize(text) == "" then Some([]) else None
    ensures maxChunk < 0 ==> chunks == Some([])
  {
    var raw := Normalize(text);
    if raw == "" {
      return Some([]);
    }
    var parts: seq<string> := [raw];
    if |raw| > maxChunk {
      NormalizedIsTidy(text);
      assert "" + raw == raw;
      SentencesRestore("", raw);
      var packed := PackSentences(Sentences("", raw), maxChunk);
      if packed.None? {
        return None;
      }
      parts := packed.value;
    }
    var long := DropShort(parts);
    chunks := Some(long);
  }

  method DropShort(parts: seq<string>) returns (chunks: seq<string>)
    ensures chunks == LongEnough(parts)
  {
    chunks := [];
    for i := 0 to |parts|
      invariant LongEnough(parts) == chunks + LongEnough(parts[i..])
    {
      LongEnoughStep(chunks, parts, i);
      if |Strip(parts[i])| > 20 {
        chunks := chunks + [parts[i]];
      }
    }
  }

  lemma LongEnoughStep(chunks: seq<string>, parts: seq<string>, i: nat)
    requires i < |parts|
    ensures chunks + LongEnough(parts[i..]) ==
            (if |Strip(parts[i])| > 20 then chunks + [parts[i]] else chunks) + LongEnough(parts[i + 1..])
  {
    assert parts[i..][1..] == parts[i + 1..];
  }

  method PackSentences(sentences: seq<string>, maxChunk: int) returns (packed: Option<seq<string>>)
    requires sentences != [] && forall s :: s in sentences ==> Tidy(s) && s != ""
    ensures maxChunk > 0 ==> packed == Some(Texts(Pack("", sentences, maxChunk)))
    ensures maxChunk == 0 ==> packed == None
    ensures maxChunk < 0 ==> packed == Some([])
  {
    var parts: seq<string> := [];
    var buf := "";
    for i := 0 to |sentences|
      invariant maxChunk > 0 ==> PackFrom(parts, buf, sentences[i..], maxChunk) == PackFrom([], "", sentences, maxChunk)
      invariant maxChunk <= 0 ==> parts == [] && buf == ""
      invariant maxChunk == 0 ==> i == 0
    {
      var sentence := Strip(sentences[i]);
      StripTidy(sentences[i]);
      if sentence == "" {
        continue;
      }
      var failed;
      failed, parts, buf := PackOne(parts, buf, sentence, maxChunk, sentences[i + 1..]);
      if failed {
        return None;
      }
      TakeFirst(sentences[i..], []);
    }
    if maxChunk > 0 {
      PackEnds(parts, buf, sentences[|sentences|..], maxChunk);
      PackBegins(sentences, maxChunk);
    }
    if buf != "" {
      parts := parts + [buf];
    }
    packed := Some(parts);
  }

  lemma PackEnds(parts: seq<string>, buf: string, rest: seq<string>, maxChunk: nat)
    requires 0 < maxChunk && rest == []
    ensures PackFrom(parts, buf, rest, maxChunk) == if buf == "" then parts else parts + [buf]
  {
    FlushTexts(buf);
  }

  lemma PackBegins(sentences: seq<string>, maxChunk: nat)
    requires 0 < maxChunk
    ensures PackFrom([], "", sentences, maxChunk) == Texts(Pack("", sentences, maxChunk))
  {
  }

  /** The chunks closed so far, followed by what the buffer and the rest will give. */
  function PackFrom(parts: seq<string>, buf: string, rest: seq<string>, maxChunk: nat): seq<string>
    requires 0 < maxChunk
  {
    parts + Texts(Pack(buf, rest, maxChunk))
  }

  /** The loop's body: one sentence joins the buffer, replaces it, or is sliced. */
  method PackOne(parts: seq<string>, buf: string, sentence: string, maxChunk: int, ghost rest: seq<string>)
    returns (failed: bool, nextParts: seq<string>, nextBuf: string)
    requires sentence != ""
    ensures maxChunk > 0 ==>
              !failed && PackFrom(nextParts, nextBuf, rest, maxChunk) == PackFrom(parts, buf, [sentence] + rest, maxChunk)
    ensures maxChunk <= 0 && buf == "" ==> failed == (maxChunk == 0) && nextParts == parts && nextBuf == ""
  {
    failed, nextParts, nextBuf := false, parts, buf;
    if maxChunk > 0 {
      PackStep(parts, buf, sentence, rest, maxChunk);
    }
    if |buf| + |sentence| + 1 <= maxChunk {
      nextBuf := Strip(buf + " " + sentence);
    } else {
      if buf != "" {
        nextParts := parts + [buf];
      }
      if |sentence| <= maxChunk {
        nextBuf := sentence;
      } else {
        var sliced := AppendSlices(nextParts, sentence, maxChunk);
        if sliced.None? {
          return true, nextParts, nextBuf;
        }
        nextParts := sliced.value;
        nextBuf := "";
      }
    }
  }

  /** What one sentence does to the chunks built so far. */
  lemma PackStep(parts: seq<string>, buf: string, s: string, rest: seq<string>, maxChunk: nat)
    requires 0 < maxChunk
    ensures var closed := if buf == "" then parts else parts + [buf];
      PackFrom(parts, buf, [s] + rest, maxChunk) ==
        if |buf| + |s| + 1 <= maxChunk then PackFrom(parts, Strip(buf + " " + s), rest, maxChunk)
        else if |s| <= maxChunk then PackFrom(closed, s, rest, maxChunk)
        else PackFrom(closed + Slices(s, maxChunk), "", rest, maxChunk)
  {
    var flushed := if buf == "" then [] else [buf];
    if |buf| + |s| + 1 <= maxChunk {
      PackAccepts(buf, s, rest, maxChunk);
    } else {
      PackFlushes(buf, s, rest, maxChunk);
      assert parts + flushed == if buf == "" then parts else parts + [buf];
      if |s| <= maxChunk {
        Regroup(parts, flushed, Texts(Pack(s, rest, maxChunk)));
      } else {
        Regroup(parts, flushed, Slices(s, maxChunk) + Texts(Pack("", rest, maxChunk)));
        Regroup(parts + flushed, Slices(s, maxChunk), Texts(Pack("", rest, maxChunk)));
      }
    }
  }

  lemma Regroup(a: seq<string>, b: seq<string>, c: seq<string>)
    ensures a + (b + c) == (a + b) + c
  {
  }

  lemma PackAccepts(buf: string, s: string, rest: seq<string>, maxChunk: nat)
    requires 0 < maxChunk && |buf| + |s| + 1 <= maxChunk
    ensures Pack(buf, [s] + rest, maxChunk) == Pack(Strip(buf + " " + s), rest, maxChunk)
  {
    assert ([s] + rest)[1..] == rest;
  }

  /** What leaves the buffer when the next sentence does not fit. */
  lemma PackFlushes(buf: string, s: string, rest: seq<string>, maxChunk: nat)
    requires 0 < maxChunk && |buf| + |s| + 1 > maxChunk
    ensures Texts(Pack(buf, [s] + rest, maxChunk)) == (if buf == "" then [] else [buf])
      + (if |s| <= maxChunk then Texts(Pack(s, rest, maxChunk))
         else Slices(s, maxChunk) + Texts(Pack("", rest, maxChunk)))
  {
    assert ([s] + rest)[1..] == rest;
    var first := Flush(buf);
    FlushTexts(buf);
    if |s| <= maxChunk {
      TextsAppend(first, Pack(s, rest, maxChunk));
    } else {
      var slices := Glue(Slices(s, maxChunk), false);
      TextsOfGlue(Slices(s, maxChunk), false);
      TextsAppend(first + slices, Pack("", rest, maxChunk));
      TextsAppend(first, slices);
      Regroup(Texts(first), Slices(s, maxChunk), Texts(Pack("", rest, maxChunk)));
    }
  }

  lemma FlushTexts(buf: string)
    ensures Texts(Flush(buf)) == if buf == "" then [] else [buf]
  {
  }

  method AppendSlices(parts: seq<string>, sentence: string, maxChunk: int) returns (r: Option<seq<string>>)
    ensures maxChunk > 0 ==> r == Some(parts + Slices(sentence, maxChunk))
    ensures maxChunk == 0 ==> r == None
    ensures maxChunk < 0 ==> r == Some(parts)
  {
    if maxChunk == 0 {
      return None;
    }
    var sliced := parts;
    var i := 0;
    while 0 < maxChunk && i < |sentence|
      invariant 0 <= i && (maxChunk < 0 ==> sliced == parts)
      invariant maxChunk > 0 ==> parts + Slices(sentence, maxChunk) == sliced + Slices(Drop(sentence, i), maxChunk)
    {
      var slice := sentence[i..if i + maxChunk <= |sentence| then i + maxChunk else |sentence|];
      ghost var here := Drop(sentence, i);
      SliceStep(here, maxChunk);
      assert slice == if maxChunk <= |here| then here[..maxChunk] else here;
      assert Drop(Drop(sentence, i), maxChunk) == Drop(sentence, i + maxChunk);
      ghost var later := Slices(Drop(sentence, i + maxChunk), maxChunk);
      assert sliced + ([slice] + later) == (sliced + [slice]) + later;
      sliced := sliced + [slice];
      i := i + maxChunk;
    }
    assert maxChunk > 0 ==> Slices(Drop(sentence, i), maxChunk) == [];
    assert sliced + [] == sliced;
    r := Some(sliced);
  }

  function Drop(s: string, n: nat): string {
    if n <= |s| then s[n..] else ""
  }

  lemma SliceStep(s: string, maxChunk: nat)
    requires 0 < maxChunk && s != ""
    ensures Slices(s, maxChunk) == [if maxChunk <= |s| then s[..maxChunk] else s] + Slices(Drop(s, maxChunk), maxChunk)
  {
    if |s| <= maxChunk {
      assert Drop(s, maxChunk) == "" && s[..|s|] == s;
      assert Slices(s, maxChunk) == [s] + [];
    }
  }

  lemma {:induction false} TextsOfGlue(slices: seq<string>, glued: bool)
    ensures Texts(Glue(slices, glued)) == slices
  {
    if slices != [] {
      TextsOfGlue(slices[1..], true);
    }
  }

  lemma {:induction false} TextsAppend(a: seq<Piece>, b: seq<Piece>)
    ensures Texts(a + b) == Texts(a) + Texts(b)
  {
    if a == [] {
      assert a + b == b;
    } else {
      assert (a + b)[1..] == a[1..] + b;
      TextsAppend(a[1..], b);
    }
  }

  // ----- nothing is lost, nothing is too long

  /** Lays the pieces out again: a blank before each piece unless it is glued. */
  function Layout(pieces: seq<Piece>): string {
    if pieces == [] then ""
    else (if pieces[0].glued then "" else " ") + pieces[0].text + Layout(pieces[1..])
  }

  function LayoutAll(sentences: seq<string>): string {
    if sentences == [] then "" else " " + sentences[0] + LayoutAll(sentences[1..])
  }

  lemma {:induction false} LayoutAppend(a: seq<Piece>, b: seq<Piece>)
    ensures Layout(a + b) == Layout(a) + Layout(b)
  {
    if a == [] {
      assert a + b == b;
    } else {
      assert (a + b)[1..] == a[1..] + b;
      LayoutAppend(a[1..], b);
    }
  }

  lemma {:induction false} GlueLayout(slices: seq<string>, glued: bool)
    requires slices != []
    ensures Layout(Glue(slices, glued)) == (if glued then "" else " ") + Concat(slices)
  {
    var rest := slices[1..];
    assert Glue(slices, glued)[1..] == Glue(rest, true);
    if rest != [] {
      GlueLayout(rest, true);
      assert "" + Concat(rest) == Concat(rest);
    }
    RegroupText(if glued then "" else " ", slices[0], Concat(rest));
  }

  function Concat(slices: seq<string>): string {
    if slices == [] then "" else slices[0] + Concat(slices[1..])
  }

  lemma {:induction false} SlicesRestore(s: string, maxChunk: nat)
    requires 0 < maxChunk
    ensures Concat(Slices(s, maxChunk)) == s
    ensures forall p :: p in Slices(s, maxChunk) ==> |p| <= maxChunk
    ensures s != "" ==> Slices(s, maxChunk) != []
  {
    if s != "" {
      if |s| <= maxChunk {
        assert Concat([s]) == s + Concat([]) == s;
      } else {
        SlicesRestore(s[maxChunk..], maxChunk);
        assert s == s[..maxChunk] + s[maxChunk..];
      }
    }
  }

  lemma TidyAppend(buf: string, s: string)
    requires Tidy(buf) && Tidy(s) && s != ""
    ensures var next := Strip(buf + " " + s);
      && Tidy(next) && next != ""
      && next == (if buf == "" then s else buf + " " + s)
  {
    if buf == "" {
      assert (" " + s)[1..] == s;
      assert DropSpaces(" " + s) == s by { assert !IsSpace(s[0]); }
      StripTidy(s);
    } else {
      var all := buf + " " + s;
      assert Tidy(all) by {
        forall i | 0 <= i < |all| && IsSpace(all[i])
          ensures all[i] == ' ' && 0 < i < |all| - 1 && !IsSpace(all[i + 1])
        {
          if i > |buf| {
            assert all[i] == s[i - |buf| - 1];
          }
        }
      }
      StripTidy(all);
    }
  }

  function Lead(buf: string): string {
    if buf == "" then "" else " " + buf
  }

  lemma FlushLayout(buf: string)
    ensures Layout(Flush(buf)) == Lead(buf)
  {
    if buf != "" {
      assert Layout([Piece(buf, false)]) == " " + buf + Layout([]) == " " + buf;
    }
  }

  lemma SlicedLayout(buf: string, s: string, rest: seq<Piece>, maxChunk: nat)
    requires 0 < maxChunk && s != ""
    ensures Layout(Flush(buf) + Glue(Slices(s, maxChunk), false) + rest) == Lead(buf) + (" " + s + Layout(rest))
  {
    var slices := Glue(Slices(s, maxChunk), false);
    SlicesRestore(s, maxChunk);
    GlueLayout(Slices(s, maxChunk), false);
    LayoutAppend(Flush(buf) + slices, rest);
    LayoutAppend(Flush(buf), slices);
    FlushLayout(buf);
    RegroupText(Lead(buf), " " + s, Layout(rest));
  }

  lemma RegroupText(a: string, b: string, c: string)
    ensures a + b + c == a + (b + c)
  {
  }

  lemma AcceptLayout(buf: string, s: string, tail: string)
    requires Tidy(buf) && Tidy(s) && s != ""
    ensures Tidy(Strip(buf + " " + s))
    ensures Lead(Strip(buf + " " + s)) + tail == Lead(buf) + (" " + s + tail)
  {
    TidyAppend(buf, s);
    if buf != "" {
      LeadAppend(buf, s, tail);
    }
  }

  lemma LeadAppend(buf: string, s: string, tail: string)
    requires buf != ""
    ensures Lead(buf + " " + s) + tail == Lead(buf) + (" " + s + tail)
  {
    RegroupText(buf, " ", s);
    RegroupText(" ", buf, " " + s);
    RegroupText(" " + buf, " " + s, tail);
  }

  lemma {:induction false} PackLayout(buf: string, sentences: seq<string>, maxChunk: nat)
    requires 0 < maxChunk && Tidy(buf)
    requires forall s :: s in sentences ==> Tidy(s) && s != ""
    ensures Layout(Pack(buf, sentences, maxChunk)) == Lead(buf) + LayoutAll(sentences)
    decreases |sentences|
  {
    if sentences == [] {
      FlushLayout(buf);
    } else {
      var s, rest := sentences[0], sentences[1..];
      assert s in sentences;
      if |buf| + |s| + 1 <= maxChunk {
        AcceptLayout(buf, s, LayoutAll(rest));
        PackLayout(Strip(buf + " " + s), rest, maxChunk);
      } else if |s| <= maxChunk {
        PackLayout(s, rest, maxChunk);
        LayoutAppend(Flush(buf), Pack(s, rest, maxChunk));
        FlushLayout(buf);
      } else {
        PackLayout("", rest, maxChunk);
        SlicedLayout(buf, s, Pack("", rest, maxChunk), maxChunk);
        assert "" + LayoutAll(rest) == LayoutAll(rest);
      }
    }
  }

  lemma {:induction false} PackFits(buf: string, sentences: seq<string>, maxChunk: nat)
    requires 0 < maxChunk && |buf| <= maxChunk && Tidy(buf)
    requires forall s :: s in sentences ==> Tidy(s) && s != ""
    ensures forall p :: p in Pack(buf, sentences, maxChunk) ==> |p.text| <= maxChunk
    decreases |sentences|
  {
    if sentences != [] {
      var s, rest := sentences[0], sentences[1..];
      assert s in sentences;
      if |buf| + |s| + 1 <= maxChunk {
        TidyAppend(buf, s);
        PackFits(Strip(buf + " " + s), rest, maxChunk);
      } else if |s| <= maxChunk {
        PackFits(s, rest, maxChunk);
      } else {
        PackFits("", rest, maxChunk);
        SlicesRestore(s, maxChunk);
        GlueTexts(Slices(s, maxChunk), false);
      }
    }
  }

  lemma {:induction false} GlueTexts(slices: seq<string>, glued: bool)
    ensures forall p :: p in Glue(slices, glued) ==> p.text in slices
  {
    if slices != [] {
      GlueTexts(slices[1..], true);
    }
  }

  lemma {:induction false} LayoutOfJoin(sentences: seq<string>)
    requires sentences != []
    ensures LayoutAll(sentences) == " " + Join(sentences)
  {
    if |sentences| > 1 {
      LayoutOfJoin(sentences[1..]);
    }
  }

  /** Before short chunks are dropped no character is lost, added or moved: laid out again,
      the chunks are the normalised text, and none is longer than the limit. */
  lemma ChunksConserveText(text: string, maxChunk: nat)
    requires 0 < maxChunk
    ensures var pieces := Pieces(text, maxChunk);
      && Layout(pieces) == (if Normalize(text) == "" then "" else " " + Normalize(text))
      && (forall p :: p in pieces ==> |p.text| <= maxChunk)
  {
    var raw := Normalize(text);
    if |raw| > maxChunk {
      NormalizedIsTidy(text);
      assert "" + raw == raw;
      SentencesRestore("", raw);
      PackLayout("", Sentences("", raw), maxChunk);
      PackFits("", Sentences("", raw), maxChunk);
      LayoutOfJoin(Sentences("", raw));
    }
  }

  // ----- when every sentence fits: no grouping uses fewer chunks

  ghost predicate AllFit(sentences: seq<string>, maxChunk: nat) {
    forall s :: s in sentences ==> 0 < |s| <= maxChunk
  }

  function Flatten(groups: seq<seq<string>>): seq<string> {
    if groups == [] then [] else groups[0] + Flatten(groups[1..])
  }

  /** An in-order grouping of the sentences into chunks that respect the limit. */
  ghost predicate Grouping(groups: seq<seq<string>>, sentences: seq<string>, maxChunk: nat) {
    && Flatten(groups) == sentences
    && forall g :: g in groups ==> g != [] && |Join(g)| <= maxChunk
  }

  /** How many chunks greedy packing closes, given the length of the open one. */
  function Count(open: nat, sentences: seq<string>, maxChunk: nat): nat
    decreases |sentences|
  {
    if sentences == [] then (if open == 0 then 0 else 1)
    else
      var n := |sentences[0]|;
      if open == 0 then Count(n, sentences[1..], maxChunk)
      else if open + 1 + n <= maxChunk then Count(open + 1 + n, sentences[1..], maxChunk)
      else 1 + Count(n, sentences[1..], maxChunk)
  }

  lemma {:induction false} PackCount(buf: string, sentences: seq<string>, maxChunk: nat)
    requires 0 < maxChunk && |buf| <= maxChunk && Tidy(buf) && AllFit(sentences, maxChunk)
    requires forall s :: s in sentences ==> Tidy(s)
    ensures |Pack(buf, sentences, maxChunk)| == Count(|buf|, sentences, maxChunk)
    ensures forall p :: p in Pack(buf, sentences, maxChunk) ==> !p.glued
    decreases |sentences|
  {
    if sentences != [] {
      var s, rest := sentences[0], sentences[1..];
      assert s in sentences;
      if |buf| + |s| + 1 <= maxChunk {
        TidyAppend(buf, s);
        PackCount(Strip(buf + " " + s), rest, maxChunk);
      } else {
        PackCount(s, rest, maxChunk);
      }
    }
  }

  /** A fuller open chunk never helps, and starting one costs at most one chunk. */
  lemma {:induction false} CountMonotone(less: nat, more: nat, sentences: seq<string>, maxChunk: nat)
    requires less <= more <= maxChunk && AllFit(sentences, maxChunk)
    ensures Count(less, sentences, maxChunk) <= Count(more, sentences, maxChunk)
    ensures Count(more, sentences, maxChunk) <= 1 + Count(less, sentences, maxChunk)
    decreases |sentences|
  {
    if sentences != [] {
      var n, rest := |sentences[0]|, sentences[1..];
      assert sentences[0] in sentences;
      var a := if less == 0 then n else if less + 1 + n <= maxChunk then less + 1 + n else n;
      var b := if more == 0 then n else if more + 1 + n <= maxChunk then more + 1 + n else n;
      if a <= b {
        CountMonotone(a, b, rest, maxChunk);
      } else {
        CountMonotone(b, a, rest, maxChunk);
      }
    }
  }

  lemma JoinLength(first: string, rest: seq<string>)
    ensures |Join([first] + rest)| == |first| + (if rest == [] then 0 else 1 + |Join(rest)|)
  {
    assert ([first] + rest)[1..] == rest;
  }

  lemma CountStep(open: nat, s: string, rest: seq<string>, maxChunk: nat)
    ensures Count(open, [s] + rest, maxChunk) ==
      if open == 0 then Count(|s|, rest, maxChunk)
      else if open + 1 + |s| <= maxChunk then Count(open + 1 + |s|, rest, maxChunk)
      else 1 + Count(|s|, rest, maxChunk)
  {
    assert ([s] + rest)[1..] == rest;
  }

  lemma TakeFirst<T>(group: seq<T>, rest: seq<T>)
    requires group != []
    ensures group == [group[0]] + group[1..] && group + rest == [group[0]] + (group[1..] + rest)
    ensures group[1..] == [] ==> group[1..] + rest == rest
  {
  }

  /** The length of the open chunk with a text of `n` characters behind it. */
  function Grown(open: nat, n: nat): nat {
    if open == 0 then n else open + 1 + n
  }

  /** A sentence that fits behind the open chunk joins it. */
  lemma CountGrows(open: nat, s: string, rest: seq<string>, maxChunk: nat)
    requires Grown(open, |s|) <= maxChunk
    ensures Count(open, [s] + rest, maxChunk) == Count(Grown(open, |s|), rest, maxChunk)
  {
    CountStep(open, s, rest, maxChunk);
  }

  /** A group that fits behind the open chunk joins it entirely. */
  lemma {:induction false} GroupStaysTogether(open: nat, group: seq<string>, rest: seq<string>, maxChunk: nat)
    requires AllFit(group, maxChunk) && group != [] && Grown(open, |Join(group)|) <= maxChunk
    ensures Count(open, group + rest, maxChunk) == Count(Grown(open, |Join(group)|), rest, maxChunk)
    decreases |group|
  {
    var s, others := group[0], group[1..];
    TakeFirst(group, rest);
    assert 0 < |s| by {
      assert s in group;
    }
    JoinLength(s, others);
    CountGrows(open, s, others + rest, maxChunk);
    if others != [] {
      AllFitTail(group, maxChunk);
      assert Grown(open, |Join(group)|) == Grown(Grown(open, |s|), |Join(others)|);
      GroupStaysTogether(Grown(open, |s|), others, rest, maxChunk);
    }
  }

  lemma AllFitTail(sentences: seq<string>, maxChunk: nat)
    requires AllFit(sentences, maxChunk) && sentences != []
    ensures AllFit(sentences[1..], maxChunk)
  {
  }

  lemma {:induction false} GreedyIsFewest(groups: seq<seq<string>>, sentences: seq<string>, maxChunk: nat)
    requires AllFit(sentences, maxChunk) && Grouping(groups, sentences, maxChunk)
    ensures Count(0, sentences, maxChunk) <= |groups|
    decreases |groups|
  {
    if groups != [] {
      var first, others := groups[0], groups[1..];
      var rest := Flatten(others);
      assert groups == [first] + others;
      assert first in groups;
      assert sentences == first + rest;
      assert Grouping(others, rest, maxChunk) by {
        assert forall g :: g in others ==> g in groups;
      }
      GroupStaysTogether(0, first, rest, maxChunk);
      GreedyIsFewest(others, rest, maxChunk);
      CountMonotone(0, |Join(first)|, rest, maxChunk);
    }
  }

  lemma JoinTexts(first: string, rest: seq<string>)
    requires rest != []
    ensures Join([first] + rest) == first + " " + Join(rest)
  {
    assert ([first] + rest)[1..] == rest;
  }

  lemma {:induction false} LayoutUnglued(pieces: seq<Piece>)
    requires pieces != [] && forall p :: p in pieces ==> !p.glued
    ensures Layout(pieces) == " " + Join(Texts(pieces))
  {
    if |pieces| > 1 {
      var first, rest := pieces[0].text, pieces[1..];
      LayoutUnglued(rest);
      JoinTexts(first, Texts(rest));
      RegroupText(first, " ", Join(Texts(rest)));
      RegroupText(" ", first, " " + Join(Texts(rest)));
    }
  }

  /** When every sentence fits, the chunks joined with blanks are the normalised text, and
      every in-order grouping of the sentences into chunks of that size has at least as many. */
  lemma ChunksOptimal(text: string, maxChunk: nat, groups: seq<seq<string>>)
    requires 0 < maxChunk && Normalize(text) != ""
    requires AllFit(Sentences("", Normalize(text)), maxChunk)
    requires Grouping(groups, Sentences("", Normalize(text)), maxChunk)
    ensures var pieces := Pieces(text, maxChunk);
      && Join(Texts(pieces)) == Normalize(text)
      && |pieces| <= |groups|
  {
    var raw := Normalize(text);
    var sentences := Sentences("", raw);
    var pieces := Pieces(text, maxChunk);
    NormalizedIsTidy(text);
    assert "" + raw == raw;
    SentencesRestore("", raw);
    if |raw| > maxChunk {
      PackCount("", sentences, maxChunk);
      GreedyIsFewest(groups, sentences, maxChunk);
      ChunksConserveText(text, maxChunk);
      LayoutUnglued(pieces);
      assert (" " + Join(Texts(pieces)))[1..] == (" " + raw)[1..];
    }
  }

  // ----- the words, sentences and chunks, written out

  lemma {:induction false} WordsUpTo(word: string, a: string, c: char, b: string)
    requires IsSpace(c)
    ensures Words(word, a + [c] + b) == Words(word, a) + Words("", b)
    decreases |a|
  {
    var text := a + [c] + b;
    if a == "" {
      assert text[1..] == b;
    } else {
      assert text[1..] == a[1..] + [c] + b;
      if IsSpace(a[0]) {
        WordsUpTo("", a[1..], c, b);
      } else {
        WordsUpTo(word + [a[0]], a[1..], c, b);
      }
    }
  }

  lemma {:induction false} OneWord(word: string, a: string)
    requires forall i :: 0 <= i < |a| ==> !IsSpace(a[i])
    ensures Words(word, a) == if word + a == "" then [] else [word + a]
    decreases |a|
  {
    if a == "" {
      assert word + a == word;
    } else {
      assert word + [a[0]] + a[1..] == word + a;
      OneWord(word + [a[0]], a[1..]);
    }
  }

  /** White space separates words and is no part of them, and nothing else does. */
  lemma WordsExactly(a: string, c: char, b: string)
    requires IsSpace(c)
    ensures Words("", a + [c] + b) == Words("", a) + Words("", b)
    ensures (forall i :: 0 <= i < |a| ==> !IsSpace(a[i])) ==> Words("", a) == if a == "" then [] else [a]
  {
    WordsUpTo("", a, c, b);
    if forall i :: 0 <= i < |a| ==> !IsSpace(a[i]) {
      OneWord("", a);
      assert "" + a == a;
    }
  }

  /** A full stop, exclamation or question mark with a blank behind it. */
  ghost predicate Breaks(s: string) {
    exists j :: 0 < j < |s| && s[j - 1] in ".!?" && s[j] == ' '
  }

  /** A text is cut behind each such mark, and nowhere else. */
  lemma {:induction false} SentencesExactly(sentence: string, text: string)
    requires Tidy(sentence + text) && sentence + text != "" && !Breaks(sentence)
    ensures var ss := Sentences(sentence, text);
      && Join(ss) == sentence + text
      && (forall s :: s in ss ==> s != "" && !Breaks(s))
      && (forall i :: 0 <= i < |ss| - 1 ==> ss[i] != "" && ss[i][|ss[i]| - 1] in ".!?")
    decreases |text|
  {
    SentencesRestore(sentence, text);
    if text != "" {
      if IsSpace(text[0]) && sentence != "" && EndsSentence(sentence[|sentence| - 1]) {
        var rest, all := text[1..], sentence + text;
        assert all[|sentence|] == text[0];
        assert rest != "" && !IsSpace(rest[0]) by { assert all[|sentence| + 1] == rest[0]; }
        assert DropSpaces(rest) == rest;
        SuffixTidy(sentence, text);
        assert "" + rest == rest;
        SentencesExactly("", rest);
      } else {
        assert (sentence + [text[0]]) + text[1..] == sentence + text;
        SentencesExactly(sentence + [text[0]], text[1..]);
      }
    }
  }

  /** A sliced text: every slice but the last is of full length, and none is empty. */
  lemma {:induction false} SlicesExactly(s: string, maxChunk: nat)
    requires 0 < maxChunk
    ensures var slices := Slices(s, maxChunk);
      && Concat(slices) == s
      && (forall i :: 0 <= i < |slices| - 1 ==> |slices[i]| == maxChunk)
      && (slices != [] ==> 0 < |slices[|slices| - 1]| <= maxChunk)
  {
    SlicesRestore(s, maxChunk);
    if |s| > maxChunk {
      SlicesExactly(s[maxChunk..], maxChunk);
    }
  }

  /** Cutting the sentences into groups as long as they fit: a sentence too long for a chunk is
      alone, and no group could take in the sentence that follows it. */
  predicate Packs(groups: seq<seq<string>>, sentences: seq<string>, maxChunk: nat) {
    if groups == [] then sentences == []
    else
      var g := groups[0];
      && g != [] && g <= sentences
      && var rest := sentences[|g|..];
         && (if |g[0]| > maxChunk then |g| == 1
             else |Join(g)| <= maxChunk && (rest == [] || |Join(g)| + 1 + |rest[0]| > maxChunk))
         && Packs(groups[1..], rest, maxChunk)
  }

  /** A chunk for each group: its sentences joined by blanks, or the slices of the long one. */
  function Rendered(groups: seq<seq<string>>, maxChunk: nat): seq<Piece>
    requires 0 < maxChunk
  {
    if groups == [] then []
    else
      var g := groups[0];
      (if g != [] && |g[0]| > maxChunk then Glue(Slices(g[0], maxChunk), false) else [Piece(Join(g), false)])
      + Rendered(groups[1..], maxChunk)
  }

  lemma {:induction false} JoinAppends(a: seq<string>, s: string)
    ensures Join(a + [s]) == if a == [] then s else Join(a) + " " + s
  {
    if a == [] {
      assert a + [s] == [s];
    } else {
      JoinAppends(a[1..], s);
      assert (a + [s])[1..] == a[1..] + [s] && (a + [s])[0] == a[0];
      if |a| > 1 {
        RegroupText(a[0] + " ", Join(a[1..]), " " + s);
        assert Join(a) + " " + s == a[0] + " " + (Join(a[1..]) + " " + s);
      }
    }
  }

  lemma JoinFilled(a: seq<string>)
    requires a != [] && forall s :: s in a ==> s != ""
    ensures Join(a) != "" && |Join(a)| >= |a[0]|
  {
    assert a[0] in a;
  }

  lemma GroupFirst(g: seq<string>, others: seq<seq<string>>, rest: seq<string>, maxChunk: nat)
    requires 0 < maxChunk && g != [] && Packs(others, rest, maxChunk)
    requires if |g[0]| > maxChunk then |g| == 1
             else |Join(g)| <= maxChunk && (rest == [] || |Join(g)| + 1 + |rest[0]| > maxChunk)
    ensures Packs([g] + others, g + rest, maxChunk)
    ensures Rendered([g] + others, maxChunk) ==
              (if |g[0]| > maxChunk then Glue(Slices(g[0], maxChunk), false) else [Piece(Join(g), false)])
              + Rendered(others, maxChunk)
  {
    assert ([g] + others)[1..] == others && (g + rest)[|g|..] == rest;
  }

  ghost predicate Filled(sentences: seq<string>) {
    forall s :: s in sentences ==> Tidy(s) && s != ""
  }

  /** Packing is exactly that; `open` are the sentences in the buffer. */
  lemma {:induction false} PackGroups(open: seq<string>, sentences: seq<string>, maxChunk: nat) returns (groups: seq<seq<string>>)
    requires 0 < maxChunk && Tidy(Join(open)) && |Join(open)| <= maxChunk && Filled(open) && Filled(sentences)
    ensures Packs(groups, open + sentences, maxChunk)
    ensures Pack(Join(open), sentences, maxChunk) == Rendered(groups, maxChunk)
    decreases |sentences|
  {
    if sentences == [] {
      groups := PackLast(open, maxChunk);
      assert open + sentences == open;
    } else {
      var s, rest := sentences[0], sentences[1..];
      assert s in sentences && Filled(rest) && [s] + rest == sentences;
      if |Join(open)| + |s| + 1 <= maxChunk {
        OneMore(open, s);
        assert open + [s] + rest == open + sentences;
        groups := PackGroups(open + [s], rest, maxChunk);
      } else {
        var later := PackGroups(if |s| <= maxChunk then [s] else [], rest, maxChunk);
        PackFlushed(Join(open), sentences, maxChunk);
        if |s| > maxChunk {
          later := SlicedFirst(s, later, rest, maxChunk);
        }
        groups := PackClosed(open, later, sentences, maxChunk);
      }
    }
  }

  lemma PackFlushed(buf: string, sentences: seq<string>, maxChunk: nat)
    requires 0 < maxChunk && sentences != [] && |buf| + |sentences[0]| + 1 > maxChunk
    ensures var s, rest := sentences[0], sentences[1..];
      Pack(buf, sentences, maxChunk) ==
        Flush(buf) + (if |s| <= maxChunk then Pack(s, rest, maxChunk)
                      else Glue(Slices(s, maxChunk), false) + Pack("", rest, maxChunk))
  {
  }

  lemma SlicedFirst(s: string, groups: seq<seq<string>>, rest: seq<string>, maxChunk: nat) returns (all: seq<seq<string>>)
    requires 0 < maxChunk && |s| > maxChunk && Packs(groups, [] + rest, maxChunk)
    ensures Packs(all, [s] + rest, maxChunk)
    ensures Rendered(all, maxChunk) == Glue(Slices(s, maxChunk), false) + Rendered(groups, maxChunk)
  {
    assert [] + rest == rest;
    GroupFirst([s], groups, rest, maxChunk);
    all := [[s]] + groups;
  }

  lemma OneMore(open: seq<string>, s: string)
    requires Tidy(Join(open)) && Filled(open) && Tidy(s) && s != ""
    ensures Strip(Join(open) + " " + s) == Join(open + [s]) && Tidy(Join(open + [s])) && Filled(open + [s])
    ensures |Join(open + [s])| <= |Join(open)| + |s| + 1
  {
    TidyAppend(Join(open), s);
    JoinAppends(open, s);
    OpenFilled(open);
  }

  lemma OpenFilled(open: seq<string>)
    requires Filled(open)
    ensures Join(open) == "" <==> open == []
  {
    if open != [] {
      JoinFilled(open);
    }
  }

  lemma PackLast(open: seq<string>, maxChunk: nat) returns (groups: seq<seq<string>>)
    requires 0 < maxChunk && |Join(open)| <= maxChunk && Filled(open)
    ensures Packs(groups, open, maxChunk) && Flush(Join(open)) == Rendered(groups, maxChunk)
  {
    OpenFilled(open);
    groups := [];
    if open != [] {
      JoinFilled(open);
      GroupFirst(open, [], [], maxChunk);
      groups := [open] + [];
      assert open + [] == open;
    }
  }

  lemma PackClosed(open: seq<string>, later: seq<seq<string>>, sentences: seq<string>, maxChunk: nat)
    returns (groups: seq<seq<string>>)
    requires 0 < maxChunk && |Join(open)| <= maxChunk && Filled(open)
    requires sentences != [] && |Join(open)| + |sentences[0]| + 1 > maxChunk && Packs(later, sentences, maxChunk)
    ensures Packs(groups, open + sentences, maxChunk)
    ensures Rendered(groups, maxChunk) == Flush(Join(open)) + Rendered(later, maxChunk)
  {
    OpenFilled(open);
    groups := later;
    if open == [] {
      assert open + sentences == sentences;
    } else {
      JoinFilled(open);
      GroupFirst(open, later, sentences, maxChunk);
      groups := [open] + later;
    }
  }

  /** The chunks of a text before the short ones are dropped. */
  lemma PiecesExactly(text: string, maxChunk: nat) returns (groups: seq<seq<string>>)
    requires 0 < maxChunk && Normalize(text) != ""
    ensures Packs(groups, Sentences("", Normalize(text)), maxChunk) && Pieces(text, maxChunk) == Rendered(groups, maxChunk)
  {
    var raw := Normalize(text);
    var sentences := Sentences("", raw);
    NormalizedIsTidy(text);
    assert "" + raw == raw;
    SentencesRestore("", raw);
    if |raw| <= maxChunk {
      assert sentences[0] in sentences;
      JoinFilled(sentences);
      GroupFirst(sentences, [], [], maxChunk);
      groups := [sentences] + [];
      assert sentences + [] == sentences;
    } else {
      groups := PackGroups([], sentences, maxChunk);
      assert [] + sentences == sentences;
    }
  }

  /** Of the chunks those are kept that have more than twenty characters between the blanks at
      their ends. */
  lemma {:induction false} LongEnoughExactly(a: seq<string>, s: string, b: seq<string>)
    ensures LongEnough(a + [s] + b) == LongEnough(a) + (if |Strip(s)| > 20 then [s] else []) + LongEnough(b)
  {
    var all := a + [s] + b;
    if a == [] {
      assert all[1..] == b;
    } else {
      assert all[1..] == a[1..] + [s] + b;
      LongEnoughExactly(a[1..], s, b);
    }
  }
}
