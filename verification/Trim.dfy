/** Python's `strip`, `lstrip` and `rfind`, over any alphabet with a notion of blank. */
module Trim {

  lemma Associate<T>(s: seq<T>, t: seq<T>, u: seq<T>)
    ensures s + t + u == s + (t + u)
  {
  }

  lemma LastOfConcat<T>(s: seq<T>, t: seq<T>)
    ensures t != [] ==> (s + t)[|s + t| - 1] == t[|t| - 1]
  {
  }

  function LStrip<T>(s: seq<T>, blank: T -> bool): (r: seq<T>)
    ensures |r| <= |s|
  {
    if s == [] then [] else if blank(s[0]) then LStrip(s[1..], blank) else s
  }

  function RStrip<T>(s: seq<T>, blank: T -> bool): (r: seq<T>)
    ensures |r| <= |s|
  {
    if s == [] then [] else if blank(s[|s| - 1]) then RStrip(s[..|s| - 1], blank) else s
  }

  function Strip<T>(s: seq<T>, blank: T -> bool): seq<T> {
    RStrip(LStrip(s, blank), blank)
  }

  ghost predicate Trimmed<T>(s: seq<T>, blank: T -> bool) {
    s != [] ==> !blank(s[0]) && !blank(s[|s| - 1])
  }

  ghost predicate AllBlank<T>(s: seq<T>, blank: T -> bool) {
    forall i | 0 <= i < |s| :: blank(s[i])
  }

  /** Stripping cuts a sequence into blank head, trimmed middle and blank tail. */
  lemma StripParts<T>(s: seq<T>, blank: T -> bool) returns (head: seq<T>, tail: seq<T>)
    ensures s == head + Strip(s, blank) + tail
    ensures AllBlank(head, blank) && AllBlank(tail, blank)
    ensures Trimmed(Strip(s, blank), blank)
  {
    head := LeftPart(s, blank);
    var l := LStrip(s, blank);
    tail := RightPart(l, blank);
    Rejoin(s, head, l, Strip(s, blank), tail);
    StripTrimmed(s, blank);
  }

  lemma Rejoin<T>(s: seq<T>, head: seq<T>, rest: seq<T>, mid: seq<T>, tail: seq<T>)
    requires s == head + rest && rest == mid + tail
    ensures s == head + mid + tail
  {
  }

  lemma StripTrimmed<T>(s: seq<T>, blank: T -> bool)
    ensures Trimmed(Strip(s, blank), blank)
  {
    var l := LStrip(s, blank);
    var head := LeftPart(s, blank);
    var tail := RightPart(l, blank);
    assert Strip(s, blank) != [] ==> Strip(s, blank)[0] == l[0];
  }

  lemma LeftPart<T>(s: seq<T>, blank: T -> bool) returns (head: seq<T>)
    ensures s == head + LStrip(s, blank) && AllBlank(head, blank)
    ensures LStrip(s, blank) != [] ==> !blank(LStrip(s, blank)[0])
  {
    head := [];
    if s != [] && blank(s[0]) {
      head := LeftPart(s[1..], blank);
      head := [s[0]] + head;
    }
  }

  lemma RightPart<T>(s: seq<T>, blank: T -> bool) returns (tail: seq<T>)
    ensures s == RStrip(s, blank) + tail && AllBlank(tail, blank)
    ensures RStrip(s, blank) != [] ==> !blank(RStrip(s, blank)[|RStrip(s, blank)| - 1])
  {
    tail := [];
    if s != [] && blank(s[|s| - 1]) {
      tail := RightPart(s[..|s| - 1], blank);
      tail := tail + [s[|s| - 1]];
    }
  }

  /** A trimmed sequence is its own `strip`. */
  lemma StripOfTrimmed<T>(s: seq<T>, blank: T -> bool)
    requires Trimmed(s, blank)
    ensures Strip(s, blank) == s && LStrip(s, blank) == s
  {
  }

  lemma StripBlank<T>(s: seq<T>, blank: T -> bool)
    requires AllBlank(s, blank)
    ensures Strip(s, blank) == [] && LStrip(s, blank) == []
  {
    if s != [] { StripBlank(s[1..], blank); }
  }

  /** `strip` returns nothing only for a blank sequence. */
  lemma StripEmpty<T>(s: seq<T>, blank: T -> bool)
    requires Strip(s, blank) == []
    ensures AllBlank(s, blank)
  {
    var head, tail := StripParts(s, blank);
    assert s == head + tail;
  }

  lemma LStripBlankPrefix<T>(s: seq<T>, t: seq<T>, blank: T -> bool)
    requires AllBlank(s, blank)
    ensures LStrip(s + t, blank) == LStrip(t, blank)
  {
    if s == [] {
      assert s + t == t;
    } else {
      assert (s + t)[1..] == s[1..] + t;
      LStripBlankPrefix(s[1..], t, blank);
    }
  }

  lemma LStripSolidPrefix<T>(s: seq<T>, t: seq<T>, blank: T -> bool)
    requires !AllBlank(s, blank)
    ensures LStrip(s + t, blank) == LStrip(s, blank) + t
  {
    if blank(s[0]) {
      assert (s + t)[1..] == s[1..] + t;
      LStripSolidPrefix(s[1..], t, blank);
    }
  }

  /** The non-blank elements, in order. */
  function Solid<T>(s: seq<T>, blank: T -> bool): seq<T> {
    if s == [] then [] else (if blank(s[0]) then [] else [s[0]]) + Solid(s[1..], blank)
  }

  lemma SolidConcat<T>(s: seq<T>, t: seq<T>, blank: T -> bool)
    ensures Solid(s + t, blank) == Solid(s, blank) + Solid(t, blank)
  {
    if s == [] {
      assert s + t == t;
    } else {
      assert (s + t)[1..] == s[1..] + t;
      SolidConcat(s[1..], t, blank);
    }
  }

  lemma SolidBlank<T>(s: seq<T>, blank: T -> bool)
    requires AllBlank(s, blank)
    ensures Solid(s, blank) == []
  {
  }

  lemma SolidStrip<T>(s: seq<T>, blank: T -> bool)
    ensures Solid(Strip(s, blank), blank) == Solid(s, blank)
    ensures Solid(LStrip(s, blank), blank) == Solid(s, blank)
  {
    var head, tail := StripParts(s, blank);
    var m := Strip(s, blank);
    SolidConcat(head + m, tail, blank);
    SolidConcat(head, m, blank);
    SolidBlank(head, blank);
    SolidBlank(tail, blank);
    var front := LeftPart(s, blank);
    SolidConcat(front, LStrip(s, blank), blank);
    SolidBlank(front, blank);
  }

  /** The code points `str.strip` removes. */
  predicate IsSpace(c: char) {
    '\t' <= c <= '\r' || '\U{1c}' <= c <= ' ' || c == '\U{85}' || c == '\U{a0}' || c == '\U{1680}' ||
    '\U{2000}' <= c <= '\U{200a}' || c == '\U{2028}' || c == '\U{2029}' || c == '\U{202f}' ||
    c == '\U{205f}' || c == '\U{3000}'
  }

  predicate OccursAt(s: string, pat: string, i: int) {
    0 <= i && i + |pat| <= |s| && s[i..i + |pat|] == pat
  }

  /** `s.rfind(pat, 0, end)`: the last occurrence that ends by `end`, or -1. */
  function RFind(s: string, pat: string, end: nat): (i: int)
    requires end <= |s|
    ensures -1 <= i && (i >= 0 ==> i + |pat| <= end)
  {
    RFindFrom(s, pat, end - |pat|)
  }

  function RFindFrom(s: string, pat: string, k: int): (i: int)
    ensures -1 <= i && (i >= 0 ==> i <= k)
    decreases k + 1
  {
    if k < 0 then -1 else if OccursAt(s, pat, k) then k else RFindFrom(s, pat, k - 1)
  }

  lemma {:induction false} RFindFromIsLast(s: string, pat: string, k: int)
    ensures var i := RFindFrom(s, pat, k);
            (i == -1 || OccursAt(s, pat, i)) && forall j | i < j <= k :: !OccursAt(s, pat, j)
    decreases k + 1
  {
    if k >= 0 { RFindFromIsLast(s, pat, k - 1); }
  }

  /** An occurrence of `pat` at a positive index that lies within the first `room + 1` characters. */
  ghost predicate BreakAt(s: string, pat: string, room: nat, i: int) {
    0 < i && OccursAt(s, pat, i) && i + |pat| <= room + 1
  }

  ghost predicate LastBreakAt(s: string, pat: string, room: nat, i: int) {
    BreakAt(s, pat, room, i) && forall j | BreakAt(s, pat, room, j) :: j <= i
  }

  ghost predicate NoBreak(s: string, pat: string, room: nat) {
    forall j :: !BreakAt(s, pat, room, j)
  }

  /** Where both splitters cut. */
  function BreakPoint(s: string, room: nat): (cut: nat)
    requires 1 <= room < |s|
    ensures 1 <= cut <= room
  {
    var paragraph := RFind(s, "\n\n", room + 1);
    if paragraph > 0 then paragraph else
    var line := RFind(s, "\n", room + 1);
    if line > 0 then line else
    var space := RFind(s, " ", room + 1);
    if space > 0 then space else room
  }

  /** The last paragraph break that fits, else the last line break, else the last space, else exactly
      the room that is left. */
  ghost predicate IsBestCut(s: string, room: nat, cut: int) {
    if !NoBreak(s, "\n\n", room) then LastBreakAt(s, "\n\n", room, cut)
    else if !NoBreak(s, "\n", room) then LastBreakAt(s, "\n", room, cut)
    else if !NoBreak(s, " ", room) then LastBreakAt(s, " ", room, cut)
    else cut == room
  }

  /** Both splitters cut there. */
  lemma BreakPointIsLast(s: string, room: nat)
    requires 1 <= room < |s|
    ensures IsBestCut(s, room, BreakPoint(s, room))
  {
    RFindBreak(s, "\n\n", room);
    RFindBreak(s, "\n", room);
    RFindBreak(s, " ", room);
  }

  lemma RFindBreak(s: string, pat: string, room: nat)
    requires 1 <= room < |s|
    ensures var i := RFind(s, pat, room + 1);
            if i > 0 then LastBreakAt(s, pat, room, i) else NoBreak(s, pat, room)
  {
    RFindFromIsLast(s, pat, room + 1 - |pat|);
  }
}
