/** White space as Python's `str.split`, `str.strip` and the pattern `\s` see it, within ASCII. */
module Whitespace {

  predicate IsSpace(c: char) {
    c == ' ' || 9 <= c as int <= 13 || 28 <= c as int <= 31
  }

  function DropSpaces(s: string): (r: string)
    ensures |r| <= |s|
  {
    if s != "" && IsSpace(s[0]) then DropSpaces(s[1..]) else s
  }

  function DropSpacesAtEnd(s: string): string {
    if s != "" && IsSpace(s[|s| - 1]) then DropSpacesAtEnd(s[..|s| - 1]) else s
  }

  function Strip(s: string): string {
    DropSpacesAtEnd(DropSpaces(s))
  }

  /** Blank, tab, line feed, vertical tab, form feed, carriage return and the four separators. */
  lemma SpacesAre(c: char)
    ensures IsSpace(c) <==> c in " \t\n\r" || c in {11 as char, 12 as char, 28 as char, 29 as char, 30 as char, 31 as char}
  {
    assert " \t\n\r" == [' ', '\t', '\n', '\r'];
  }

  /** What is cut off at either end is white space, and what is left has none at its ends. */
  lemma StripExactly(s: string, from: nat, to: nat)
    requires from <= to <= |s| && (forall i :: 0 <= i < from || to <= i < |s| ==> IsSpace(s[i]))
    requires from < to ==> !IsSpace(s[from]) && !IsSpace(s[to - 1])
    ensures Strip(s) == s[from..to]
  {
    DropsUpTo(s, from, to);
    DropsFrom(DropSpaces(s), if from == to then 0 else to - from);
  }

  lemma {:induction false} DropsUpTo(s: string, from: nat, to: nat)
    requires from <= to <= |s| && (forall i :: 0 <= i < from || to <= i < |s| ==> IsSpace(s[i]))
    requires from < to ==> !IsSpace(s[from])
    ensures DropSpaces(s) == if from == to then "" else s[from..]
  {
    if s != "" && IsSpace(s[0]) {
      if from == 0 {
        DropsUpTo(s[1..], 0, 0);
      } else {
        DropsUpTo(s[1..], from - 1, to - 1);
        assert from < to ==> s[1..][from - 1..] == s[from..];
      }
    }
  }

  lemma {:induction false} DropsFrom(s: string, to: nat)
    requires to <= |s| && (forall i :: to <= i < |s| ==> IsSpace(s[i]))
    requires 0 < to ==> !IsSpace(s[to - 1])
    ensures DropSpacesAtEnd(s) == s[..to]
  {
    if s != "" && IsSpace(s[|s| - 1]) {
      var n := |s| - 1;
      DropsFrom(s[..n], to);
      assert s[..n][..to] == s[..to];
    } else {
      assert to == |s|;
    }
  }
}
