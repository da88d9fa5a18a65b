/** Which texts the whole repairer leaves alone, and what it drops of the others. */
module RepairLimits {
  import opened Trim
  import opened Markup
  import opened HtmlRepair

  lemma PartialTail(s: Text) returns (w: Text)
    ensures s == DropPartialTag(s) + w && forall x | x in w :: x.Ch?
  {
    w := [];
    if s != [] {
      if s[0] == Ch('<') && Unfinished(s[1..]) {
        w := s;
      } else {
        w := PartialTail(s[1..]);
        assert s == [s[0]] + (DropPartialTag(s[1..]) + w);
      }
    }
  }

  /** How wide what must survive repairing is. */
  function KeptWidth(s: Text): nat {
    Width(Kept(s))
  }

  lemma KeptWidthConcat(s: Text, t: Text)
    ensures KeptWidth(s + t) == KeptWidth(s) + KeptWidth(t)
  {
    KeptConcat(s, t);
    WidthConcat(Kept(s), Kept(t));
  }

  lemma KeptWidthOfChars(s: Text)
    requires forall x | x in s :: x.Ch?
    ensures KeptWidth(s) == |s|
  {
    if s != [] {
      KeptWidthOfChars(s[1..]);
      WidthConcat([s[0]], Kept(s[1..]));
    }
  }

  lemma UnixStringShorter(s: string)
    ensures |UnixString(s)| <= |s| && (|UnixString(s)| == |s| ==> UnixString(s) == s)
  {
    if |s| >= 2 && s[0] == '\r' && s[1] == '\n' {
      UnixStringShorter(s[2..]);
    } else if s != "" {
      UnixStringShorter(s[1..]);
    }
  }

  /** A canonical closing tag holds no line break. */
  lemma UnixStringPlain(s: string)
    requires '\r' !in s
    ensures UnixString(s) == s
  {
    if s != "" {
      assert s[0] in s;
      UnixStringPlain(s[1..]);
    }
  }

  lemma AllowedNamesPlain(name: string)
    requires name in ALLOWED_TAG_NAMES
    ensures '\r' !in name && '\r' !in ClosingTag(name).raw
  {
    assert '\r' !in name;
    CloserPlain(name);
  }

  lemma CloserPlain(name: string)
    requires '\r' !in name
    ensures '\r' !in ClosingTag(name).raw
  {
    assert ClosingTag(name).raw == "</" + name + ">";
  }

  lemma UnixSymWidth(x: Sym)
    requires Lawful(x)
    ensures KeptWidth([UnixSym(x)]) <= KeptWidth([x])
    ensures KeptWidth([UnixSym(x)]) == KeptWidth([x]) ==> UnixSym(x) == x
  {
    if x.Mark? {
      UnixStringShorter(x.tag.raw);
      if x.tag.Close? {
        AllowedNamesPlain(x.tag.name);
        UnixStringPlain(x.tag.raw);
      }
      assert Kept([x]) == KeptSym(x) && Kept([UnixSym(x)]) == KeptSym(UnixSym(x));
    }
  }

  /** In lawful text, replacing line ends makes what must survive shorter, unless there are none. */
  lemma {:induction false} UnixNarrows(s: Text)
    requires AllLawful(s)
    ensures KeptWidth(Unix(s)) <= KeptWidth(s) && (KeptWidth(Unix(s)) == KeptWidth(s) ==> Unix(s) == s)
    decreases |s|
  {
    if |s| >= 2 && s[0] == Ch('\r') && s[1] == Ch('\n') {
      var rest := s[2..];
      assert s == [s[0], s[1]] + rest;
      UnixNarrows(rest);
      KeptWidthConcat([s[0], s[1]], rest);
      KeptWidthConcat([Ch('\n')], Unix(rest));
      KeptWidthOfChars([s[0], s[1]]);
      KeptWidthOfChars([Ch('\n')]);
    } else if s != [] {
      var rest := s[1..];
      assert s == [s[0]] + rest && Lawful(s[0]);
      UnixNarrows(rest);
      UnixSymWidth(s[0]);
      KeptWidthConcat([s[0]], rest);
      KeptWidthConcat([UnixSym(s[0])], Unix(rest));
    }
  }

  /** What stripping and dropping a partial tag leave of the width. */
  lemma TrimmedNarrows(text: Text)
    ensures var u := Strip(text, IsBlank);
            var v := DropPartialTag(u);
            KeptWidth(v) <= KeptWidth(text) && (KeptWidth(v) == KeptWidth(text) ==> u == text && v == text)
  {
    var u := Strip(text, IsBlank);
    var head, tail := StripParts(text, IsBlank);
    var w := PartialTail(u);
    KeptWidthConcat(head + u, tail);
    KeptWidthConcat(head, u);
    KeptWidthConcat(DropPartialTag(u), w);
    KeptWidthOfChars(w);
    KeptWidthOfChars(head);
    KeptWidthOfChars(tail);
  }

  /** Some `<` is followed, up to the end of the text, by characters other than `>` and line feeds
      only. */
  ghost predicate EndsInsideTag(s: Text) {
    exists i :: TagBeginsAt(s, i)
  }

  predicate TagBeginsAt(s: Text, i: int) {
    0 <= i < |s| && s[i] == Ch('<') && forall j | i < j < |s| :: s[j].Ch? && s[j].c != '>' && s[j].c != '\n'
  }

  lemma DropsExactly(s: Text)
    ensures DropPartialTag(s) == s <==> !EndsInsideTag(s)
  {
    if s != [] {
      DropsExactly(s[1..]);
      assert s == [s[0]] + s[1..];
      assert TagBeginsAt(s, 0) <==> s[0] == Ch('<') && Unfinished(s[1..]);
      if EndsInsideTag(s[1..]) {
        var i :| TagBeginsAt(s[1..], i);
        assert TagBeginsAt(s, i + 1);
      }
      if EndsInsideTag(s) && !TagBeginsAt(s, 0) {
        var i :| TagBeginsAt(s, i);
        assert TagBeginsAt(s[1..], i - 1);
      }
    }
  }

  /** A carriage return right before a line feed. */
  ghost predicate HasCrLf(s: string) {
    exists i | 0 <= i < |s| - 1 :: s[i] == '\r' && s[i + 1] == '\n'
  }

  predicate CrLfAt(s: Text, i: int) {
    0 <= i < |s| - 1 && s[i] == Ch('\r') && s[i + 1] == Ch('\n')
  }

  /** No such pair in the text, and none inside its tags. */
  ghost predicate PlainLineEnds(s: Text) {
    (forall i :: !CrLfAt(s, i)) && forall x | x in s && x.Mark? :: !HasCrLf(x.tag.raw)
  }

  lemma UnixStringExactly(s: string)
    ensures UnixString(s) == s <==> !HasCrLf(s)
  {
    UnixStringShorter(s);
    if |s| >= 2 && s[0] == '\r' && s[1] == '\n' {
      UnixStringShorter(s[2..]);
    } else if s != "" {
      UnixStringExactly(s[1..]);
      assert s == [s[0]] + s[1..];
      if HasCrLf(s[1..]) {
        var i :| 0 <= i < |s[1..]| - 1 && s[1..][i] == '\r' && s[1..][i + 1] == '\n';
        assert s[i + 1] == '\r' && s[i + 2] == '\n';
      }
      if HasCrLf(s) {
        var i :| 0 <= i < |s| - 1 && s[i] == '\r' && s[i + 1] == '\n';
        assert s[1..][i - 1] == '\r' && s[1..][i] == '\n';
      }
    }
  }

  lemma UnixShorter(s: Text)
    ensures |Unix(s)| <= |s|
  {
  }

  lemma PlainLineEndsCons(s: Text)
    requires s != [] && !CrLfAt(s, 0)
    ensures PlainLineEnds(s) <==> (s[0].Mark? ==> !HasCrLf(s[0].tag.raw)) && PlainLineEnds(s[1..])
  {
    var rest := s[1..];
    forall i | i != 0 ensures CrLfAt(s, i) <==> CrLfAt(rest, i - 1) {}
    if PlainLineEnds(s) {
      forall i ensures !CrLfAt(rest, i) { assert CrLfAt(rest, i) ==> CrLfAt(s, i + 1); }
      assert s[0] in s;
    }
    assert forall x :: x in s <==> x == s[0] || x in rest;
  }

  lemma {:induction false} UnixExactly(s: Text)
    ensures Unix(s) == s <==> PlainLineEnds(s)
    decreases |s|
  {
    if CrLfAt(s, 0) {
      UnixShorter(s[2..]);
    } else if s != [] {
      UnixExactly(s[1..]);
      PlainLineEndsCons(s);
      assert s == [s[0]] + s[1..];
      if s[0].Mark? { UnixStringExactly(s[0].tag.raw); }
    }
  }

  lemma StripExactly(s: Text)
    ensures Strip(s, IsBlank) == s <==> Trimmed(s, IsBlank)
  {
    StripTrimmed(s, IsBlank);
    if Trimmed(s, IsBlank) { StripOfTrimmed(s, IsBlank); }
  }

  /** The whole repairer returns a text unchanged if and only if the text is clean, has no outer
      blanks and no carriage return before a line feed, and does not end inside a tag. */
  lemma LeavesAloneExactly(text: Text)
    ensures Repaired(text) == text <==>
            Clean(text) && PlainLineEnds(text) && Trimmed(text, IsBlank) && !EndsInsideTag(text)
  {
    RepairedIsClean(text);
    UnixExactly(text);
    StripExactly(text);
    DropsExactly(text);
    if Repaired(text) == text {
      CleanMeansWellNested(text);
      UnixNarrows(text);
      TrimmedNarrows(Unix(text));
      RepairKeeps(DropPartialTag(Strip(Unix(text), IsBlank)), []);
    } else if Unix(text) == text && Strip(text, IsBlank) == text && DropPartialTag(text) == text {
      if Clean(text) { CleanIsFixed(text, []); }
    }
  }

  // ---------------------------------------------------------------- an unfinished tag is dropped

  /** Characters that a tag which has begun may go on with. */
  predicate GoesOn(w: string) {
    forall c | c in w :: c != '>' && c != '\n' && c != '\r'
  }

  lemma DropAppended(u: Text, w: Text)
    requires Unfinished(w)
    ensures DropPartialTag(u + ([Ch('<')] + w)) == DropPartialTag(u)
  {
    var s := u + ([Ch('<')] + w);
    if u == [] {
      assert s == [Ch('<')] + w && s[1..] == w;
    } else {
      assert s[1..] == u[1..] + ([Ch('<')] + w);
      DropAppended(u[1..], w);
      UnfinishedConcat(u[1..], [Ch('<')] + w);
    }
  }

  lemma UnfinishedConcat(u: Text, w: Text)
    requires Unfinished(w)
    ensures Unfinished(u + w) <==> Unfinished(u)
  {
    assert forall x :: x in u + w <==> x in u || x in w;
  }

  lemma {:induction false} UnixConcat(u: Text, t: Text)
    requires t == [] || t[0] != Ch('\n')
    ensures Unix(u + t) == Unix(u) + Unix(t)
    decreases |u|
  {
    if u == [] {
      assert u + t == t;
    } else if CrLfAt(u, 0) {
      assert (u + t)[2..] == u[2..] + t;
      UnixConcat(u[2..], t);
    } else {
      assert (u + t)[1..] == u[1..] + t;
      UnixConcat(u[1..], t);
    }
  }

  lemma UnixOfChars(w: string)
    requires '\r' !in w
    ensures Unix(Chars(w)) == Chars(w)
  {
    if w != "" {
      assert w[0] in w && Chars(w)[1..] == Chars(w[1..]);
      UnixOfChars(w[1..]);
    }
  }

  lemma UnixUnfolds(u: Text)
    requires u != []
    ensures Unix(u) == if CrLfAt(u, 0) then [Ch('\n')] + Unix(u[2..]) else [UnixSym(u[0])] + Unix(u[1..])
  {
  }

  lemma {:induction false} UnixEnds(u: Text)
    requires u != []
    ensures Unix(u) != [] && Unix(u)[|Unix(u)| - 1] == UnixSym(u[|u| - 1])
    ensures u[0] != Ch('\r') ==> Unix(u)[0] == UnixSym(u[0])
    decreases |u|
  {
    UnixUnfolds(u);
    var rest := if CrLfAt(u, 0) then u[2..] else u[1..];
    if rest != [] {
      assert rest[|rest| - 1] == u[|u| - 1];
      UnixEnds(rest);
    }
  }

  lemma UnixTrimmed(u: Text)
    requires Trimmed(u, IsBlank)
    ensures Trimmed(Unix(u), IsBlank)
  {
    if u != [] { UnixEnds(u); }
  }

  lemma RStripBehind(v: Text, w: Text)
    requires v != [] && !IsBlank(v[|v| - 1])
    ensures RStrip(v + w, IsBlank) == v + RStrip(w, IsBlank)
  {
    if w == [] {
      assert v + w == v;
    } else if IsBlank(w[|w| - 1]) {
      assert (v + w)[..|v + w| - 1] == v + w[..|w| - 1];
      RStripBehind(v, w[..|w| - 1]);
    }
  }

  lemma StripBehind(v: Text, w: Text)
    requires Trimmed(v, IsBlank) && Unfinished(w)
    ensures Strip(v + ([Ch('<')] + w), IsBlank) == v + ([Ch('<')] + RStrip(w, IsBlank)) && Unfinished(RStrip(w, IsBlank))
  {
    var front := v + [Ch('<')];
    Associate(v, [Ch('<')], w);
    Associate(v, [Ch('<')], RStrip(w, IsBlank));
    assert front[0] == (if v == [] then Ch('<') else v[0]) && (front + w)[0] == front[0];
    RStripBehind(front, w);
    var tail := RightPart(w, IsBlank);
    assert forall x | x in RStrip(w, IsBlank) :: x in RStrip(w, IsBlank) + tail;
  }

  /** A tag that has begun but not ended is dropped with all it has so far: the repaired text is that
      of what came before. */
  lemma UnfinishedTagIsDropped(u: Text, w: string)
    requires Trimmed(u, IsBlank) && GoesOn(w)
    ensures Repaired(u + ([Ch('<')] + Chars(w))) == Repaired(u)
  {
    var v, begun := Unix(u), [Ch('<')] + Chars(w);
    CharsConcat("<", w);
    assert Chars("<") == [Ch('<')] && begun == Chars("<" + w);
    UnixConcat(u, begun);
    UnixOfChars("<" + w);
    UnixTrimmed(u);
    CharsUnfinished(w);
    StripBehind(v, Chars(w));
    DropAppended(v, RStrip(Chars(w), IsBlank));
    StripOfTrimmed(v, IsBlank);
  }

  /** So of half-streamed text without earlier tags everything before the tag is left, the blanks
      before it included: `hello <b` becomes `hello `. */
  lemma HalfTagIsDropped(text: string, w: string)
    requires text != "" && !IsSpace(text[0]) && '<' !in text && '\r' !in text
    requires GoesOn(w) && (w != "" ==> !IsSpace(w[|w| - 1]))
    ensures Repaired(Chars(text + "<" + w)) == Chars(text)
  {
    var whole := Chars(text + "<" + w);
    UnixOfChars(text + "<" + w);
    assert !IsBlank(whole[0]) && !IsBlank(whole[|whole| - 1]);
    StripOfTrimmed(whole, IsBlank);
    assert whole == Chars(text) + ([Ch('<')] + Chars(w));
    CharsUnfinished(w);
    DropAppended(Chars(text), Chars(w));
    PlainIsWhole(Chars(text));
    RepairChars(text, [], []);
    assert Chars(text) + [] == Chars(text);
  }

  lemma CharsUnfinished(w: string)
    requires GoesOn(w)
    ensures Unfinished(Chars(w)) && '\r' !in w
  {
    forall x | x in Chars(w) ensures x.Ch? && x.c in w {
      var i :| 0 <= i < |Chars(w)| && Chars(w)[i] == x;
      assert x == Ch(w[i]);
    }
  }

  /** For one, a carriage return before a line feed does not survive. */
  lemma CarriageReturnIsLost()
    ensures Repaired(Chars("a\r\nb")) == Chars("a\nb")
  {
    var text, unix := Chars("a\r\nb"), Chars("a\nb");
    assert text[1..][2..] == Chars("b") && Chars("b")[1..] == [];
    assert Unix(Chars("b")) == Chars("b");
    assert Unix(text[1..]) == [Ch('\n')] + Chars("b");
    assert Unix(text) == unix;
    StripOfTrimmed(unix, IsBlank);
    assert unix == [Ch('a')] + ([Ch('\n')] + Chars("b"));
    PlainIsWhole(unix);
    RepairChars("a\nb", [], []);
    assert unix + [] == unix;
  }

  lemma PlainIsWhole(s: Text)
    requires Ch('<') !in s
    ensures DropPartialTag(s) == s
  {
    if s != [] {
      assert s[0] in s;
      PlainIsWhole(s[1..]);
    }
  }
}
