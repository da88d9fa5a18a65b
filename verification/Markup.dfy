/** Telegram HTML as a sequence of characters and tags, and what a reader sees in it. */
module Markup {
  import opened Trim

  /** One bracketed token. `Void` neither opens nor closes an element; its name is empty when the
      token names no element at all. */
  datatype Tag = Open(name: string, raw: string) | Close(name: string, raw: string) | Void(name: string, raw: string)

  datatype Sym = Ch(c: char) | Mark(tag: Tag)

  /** An element that is open, with the opening tag as it was written. */
  datatype Frame = Frame(name: string, raw: string)

  type Text = seq<Sym>

  function SymWidth(s: Sym): nat {
    match s
    case Ch(_) => 1
    case Mark(tag) => |tag.raw|
  }

  /** `len` of the string that the markup stands for. */
  function Width(s: Text): nat {
    if s == [] then 0 else SymWidth(s[0]) + Width(s[1..])
  }

  predicate IsBlank(s: Sym) {
    s.Ch? && IsSpace(s.c)
  }

  function Chars(s: string): Text {
    seq(|s|, i requires 0 <= i < |s| => Ch(s[i]))
  }

  function ClosingTag(name: string): Tag {
    Close(name, "</" + name + ">")
  }

  function Closer(name: string): Sym {
    Mark(ClosingTag(name))
  }

  /** The closers of a stack of names, innermost first. */
  function Closers(stack: seq<string>): Text {
    if stack == [] then [] else [Closer(stack[|stack| - 1])] + Closers(stack[..|stack| - 1])
  }

  function Names(open: seq<Frame>): seq<string> {
    seq(|open|, i requires 0 <= i < |open| => open[i].name)
  }

  /** The closing tags of all open elements, innermost first. */
  function Closing(open: seq<Frame>): Text {
    Closers(Names(open))
  }

  lemma ClosingUnfolds(open: seq<Frame>)
    requires open != []
    ensures Closing(open) == [Mark(ClosingTag(open[|open| - 1].name))] + Closing(open[..|open| - 1])
  {
    assert Names(open)[..|open| - 1] == Names(open[..|open| - 1]);
  }

  /** The opening tags of all open elements, as written, outermost first. */
  function Reopening(open: seq<Frame>): Text {
    if open == [] then []
    else Reopening(open[..|open| - 1]) + [Mark(Open(open[|open| - 1].name, open[|open| - 1].raw))]
  }

  /** Closing `name` forgets the innermost open element of that name, if there is one. */
  function Unwind(open: seq<Frame>, name: string): seq<Frame> {
    if open == [] then []
    else if open[|open| - 1].name == name then open[..|open| - 1]
    else Unwind(open[..|open| - 1], name) + [open[|open| - 1]]
  }

  function Enter(open: seq<Frame>, s: Sym): seq<Frame> {
    match s
    case Mark(Open(name, raw)) => open + [Frame(name, raw)]
    case Mark(Close(name, _)) => Unwind(open, name)
    case _ => open
  }

  /** The elements open after reading `s` with `open` already open. */
  function After(s: Text, open: seq<Frame>): seq<Frame> {
    if s == [] then open else After(s[1..], Enter(open, s[0]))
  }

  /** What a reader sees: each visible character and each void tag, with the opening tags around it. */
  function Reading(s: Text, open: seq<Frame>): seq<(Sym, seq<Frame>)> {
    if s == [] then [] else Seen(s[0], open) + Reading(s[1..], Enter(open, s[0]))
  }

  function Seen(s: Sym, open: seq<Frame>): seq<(Sym, seq<Frame>)> {
    if (s.Ch? && !IsSpace(s.c)) || (s.Mark? && s.tag.Void?) then [(s, open)] else []
  }

  /** Every closing tag closes the innermost open element. */
  ghost predicate Nested(s: Text, open: seq<Frame>) {
    s != [] ==>
      (s[0].Mark? && s[0].tag.Close? ==> open != [] && open[|open| - 1].name == s[0].tag.name) &&
      Nested(s[1..], Enter(open, s[0]))
  }

  /** Properly nested, and nothing left open. */
  ghost predicate WellNested(s: Text) {
    Nested(s, []) && After(s, []) == []
  }

  lemma WidthConcat(s: Text, t: Text)
    ensures Width(s + t) == Width(s) + Width(t)
  {
    if s == [] {
      assert s + t == t;
    } else {
      assert (s + t)[1..] == s[1..] + t;
      WidthConcat(s[1..], t);
    }
  }

  lemma WidthChars(s: string)
    ensures Width(Chars(s)) == |s|
  {
    if s != "" {
      assert Chars(s)[1..] == Chars(s[1..]);
      WidthChars(s[1..]);
    }
  }

  lemma WidthStrip(s: Text)
    ensures Width(Strip(s, IsBlank)) <= Width(LStrip(s, IsBlank)) <= Width(s)
  {
    var head := LeftPart(s, IsBlank);
    var l := LStrip(s, IsBlank);
    var tail := RightPart(l, IsBlank);
    WidthConcat(head, l);
    WidthConcat(Strip(s, IsBlank), tail);
  }

  lemma CharsConcat(s: string, t: string)
    ensures Chars(s + t) == Chars(s) + Chars(t)
  {
  }

  lemma ReadCons(x: Sym, s: Text, open: seq<Frame>)
    ensures Reading([x] + s, open) == Seen(x, open) + Reading(s, Enter(open, x))
    ensures After([x] + s, open) == After(s, Enter(open, x))
    ensures Nested([x] + s, open) <==> Nested([x], open) && Nested(s, Enter(open, x))
  {
    assert ([x] + s)[1..] == s;
  }

  lemma ReadConcat(s: Text, t: Text, open: seq<Frame>)
    ensures Reading(s + t, open) == Reading(s, open) + Reading(t, After(s, open))
    ensures After(s + t, open) == After(t, After(s, open))
    ensures Nested(s + t, open) <==> Nested(s, open) && Nested(t, After(s, open))
  {
    if s == [] {
      assert s + t == t;
    } else {
      var x, rest := s[0], s[1..];
      assert s == [x] + rest && s + t == [x] + (rest + t);
      ReadCons(x, rest + t, open);
      ReadCons(x, rest, open);
      ReadConcat(rest, t, Enter(open, x));
      Associate(Seen(x, open), Reading(rest, Enter(open, x)), Reading(t, After(s, open)));
    }
  }

  lemma ReadBlank(s: Text, open: seq<Frame>)
    requires AllBlank(s, IsBlank)
    ensures Reading(s, open) == [] && After(s, open) == open && Nested(s, open)
  {
    if s != [] { ReadBlank(s[1..], open); }
  }

  /** Stripping changes nothing a reader sees. */
  lemma ReadStrip(s: Text, open: seq<Frame>)
    ensures Reading(Strip(s, IsBlank), open) == Reading(s, open)
    ensures After(Strip(s, IsBlank), open) == After(s, open)
    ensures Nested(Strip(s, IsBlank), open) <==> Nested(s, open)
  {
    var head, tail := StripParts(s, IsBlank);
    var mid := Strip(s, IsBlank);
    ReadConcat(head + mid, tail, open);
    ReadConcat(head, mid, open);
    ReadBlank(head, open);
    ReadBlank(tail, After(mid, open));
  }

  /** The markup for one more open element. */
  lemma MarkupSnoc(open: seq<Frame>, last: Frame)
    ensures Reopening(open + [last]) == Reopening(open) + [Mark(Open(last.name, last.raw))]
    ensures Closing(open + [last]) == [Mark(ClosingTag(last.name))] + Closing(open)
  {
    assert (open + [last])[..|open|] == open;
    ClosingUnfolds(open + [last]);
  }

  lemma ReadOpening(open: seq<Frame>, last: Frame)
    ensures var s := [Mark(Open(last.name, last.raw))];
            Reading(s, open) == [] && After(s, open) == open + [last] && Nested(s, open)
  {
  }

  lemma ReadReopening(open: seq<Frame>)
    ensures Reading(Reopening(open), []) == [] && After(Reopening(open), []) == open
    ensures Nested(Reopening(open), [])
  {
    if open != [] {
      var outer, last := open[..|open| - 1], open[|open| - 1];
      assert open == outer + [last];
      ReadReopening(outer);
      ReadReopened(Reopening(outer), outer, last);
    }
  }

  lemma ReadReopened(s: Text, outer: seq<Frame>, last: Frame)
    requires Reading(s, []) == [] && After(s, []) == outer && Nested(s, [])
    ensures var t := s + [Mark(Open(last.name, last.raw))];
            Reading(t, []) == [] && After(t, []) == outer + [last] && Nested(t, [])
  {
    ReadConcat(s, [Mark(Open(last.name, last.raw))], []);
    ReadOpening(outer, last);
  }

  lemma ReadClosing(open: seq<Frame>)
    ensures Reading(Closing(open), open) == [] && After(Closing(open), open) == []
    ensures Nested(Closing(open), open)
  {
    if open != [] {
      ReadClosing(open[..|open| - 1]);
      ClosingUnfolds(open);
      assert Closing(open)[1..] == Closing(open[..|open| - 1]);
    }
  }

  /** Characters open and close nothing. */
  lemma ReadChars(s: string, open: seq<Frame>)
    ensures After(Chars(s), open) == open && Nested(Chars(s), open)
  {
    if s != "" {
      assert Chars(s)[1..] == Chars(s[1..]);
      ReadChars(s[1..], open);
    }
  }

  lemma AllBlankChars(s: string)
    ensures AllBlank(Chars(s), IsBlank) <==> AllBlank(s, IsSpace)
  {
    forall i | 0 <= i < |s| ensures IsBlank(Chars(s)[i]) <==> IsSpace(s[i]) {}
  }

  /** A token of the regular-expression split: a maximal run of characters, or one tag. */
  datatype Token = Plain(s: string) | Bracket(tag: Tag)

  /** The leading run of characters. */
  function LeadingRun(s: Text): string {
    if s == [] || s[0].Mark? then "" else [s[0].c] + LeadingRun(s[1..])
  }

  lemma LeadingRunIsPrefix(s: Text)
    ensures |LeadingRun(s)| <= |s| && s == Chars(LeadingRun(s)) + s[|LeadingRun(s)|..]
  {
    if s != [] && s[0].Ch? {
      var rest, run := s[1..], LeadingRun(s[1..]);
      LeadingRunIsPrefix(rest);
      CharsConcat([s[0].c], run);
      assert Chars([s[0].c]) == [s[0]];
      assert s[1 + |run|..] == rest[|run|..];
      assert s == [s[0]] + (Chars(run) + rest[|run|..]);
    }
  }

  function Tokenize(s: Text): seq<Token> {
    if s == [] then []
    else if s[0].Mark? then [Bracket(s[0].tag)] + Tokenize(s[1..])
    else
      var run := LeadingRun(s);
      LeadingRunIsPrefix(s);
      [Plain(run)] + Tokenize(s[|run|..])
  }

  function Flatten(tokens: seq<Token>): Text {
    if tokens == [] then []
    else (match tokens[0] case Plain(s) => Chars(s) case Bracket(tag) => [Mark(tag)]) + Flatten(tokens[1..])
  }

  /** The split loses nothing. */
  lemma FlattenTokenize(s: Text)
    ensures Flatten(Tokenize(s)) == s
  {
    if s != [] {
      if s[0].Mark? {
        FlattenTokenize(s[1..]);
      } else {
        var run := LeadingRun(s);
        LeadingRunIsPrefix(s);
        FlattenTokenize(s[|run|..]);
        assert Tokenize(s)[1..] == Tokenize(s[|run|..]);
      }
    }
  }
}
