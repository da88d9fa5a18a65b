/** How wide the messages of the HTML splitter get, and on which texts it halts at all. */
module SplitterLimits {
  import opened Trim
  import opened Markup
  import opened HtmlSplitter

  // ---------------------------------------------------------------- width

  /** At every tag, the reopened tags, their closers and the tag itself fit one message. */
  ghost predicate TagsFit(tokens: seq<Token>, open: seq<Frame>, limit: nat) {
    tokens != [] ==>
      (tokens[0].Bracket? ==> Overhead(open) + |tokens[0].tag.raw| <= limit) &&
      TagsFit(tokens[1..], TokenEnter(open, tokens[0]), limit)
  }

  ghost predicate CloserWithin(token: Token, k: nat) {
    token.Bracket? && token.tag.Open? ==> |ClosingTag(token.tag.name).raw| <= k
  }

  /** No closing tag that the splitter may add is wider than `k`. */
  ghost predicate ClosersWithin(tokens: seq<Token>, k: nat) {
    forall t | t in tokens :: CloserWithin(t, k)
  }

  ghost predicate Bounded(a: Acc, bound: nat) {
    && Width(LStrip(a.current, IsBlank)) + Width(Closing(a.open)) <= bound
    && forall c | c in a.chunks :: Width(c) <= bound
  }

  lemma EnterWidth(open: seq<Frame>, tag: Tag, k: nat)
    requires tag.Open? ==> |ClosingTag(tag.name).raw| <= k
    ensures Width(Closing(Enter(open, Mark(tag)))) <= Width(Closing(open)) + k
    ensures Width(Reopening(Enter(open, Mark(tag)))) <= Width(Reopening(open)) + |tag.raw|
  {
    match tag
    case Open(name, raw) =>
      MarkupSnoc(open, Frame(name, raw));
      WidthConcat(Reopening(open), [Mark(tag)]);
    case Close(name, _) => UnwindWidth(open, name);
    case Void(_, _) =>
  }

  lemma UnwindWidth(open: seq<Frame>, name: string)
    ensures Width(Closing(Unwind(open, name))) <= Width(Closing(open))
    ensures Width(Reopening(Unwind(open, name))) <= Width(Reopening(open))
  {
    if open != [] {
      var outer, last := open[..|open| - 1], open[|open| - 1];
      ClosingUnfolds(open);
      WidthConcat(Reopening(outer), [Mark(Open(last.name, last.raw))]);
      if last.name != name {
        UnwindWidth(outer, name);
        var kept := Unwind(outer, name);
        MarkupSnoc(kept, last);
        WidthConcat(Reopening(kept), [Mark(Open(last.name, last.raw))]);
      }
    }
  }

  lemma FlushBounded(a: Acc, bound: nat)
    requires Bounded(a, bound) && Overhead(a.open) <= bound
    ensures Bounded(Flush(a), bound)
  {
    WidthStrip(Reopening(a.open));
    var body := Solidified(a.current);
    if body != [] {
      var whole := body + Closing(a.open);
      WidthConcat(body, Closing(a.open));
      WidthStrip(a.current);
      WidthStrip(whole);
    }
  }

  lemma AppendTagWidth(current: Text, tag: Tag)
    ensures Width(LStrip(current + [Mark(tag)], IsBlank)) <= Width(LStrip(current, IsBlank)) + |tag.raw|
    ensures Solidified(current) == [] ==> Width(LStrip(current + [Mark(tag)], IsBlank)) == |tag.raw|
  {
    if AllBlank(current, IsBlank) {
      LStripBlankPrefix(current, [Mark(tag)], IsBlank);
    } else {
      LStripSolidPrefix(current, [Mark(tag)], IsBlank);
      WidthConcat(LStrip(current, IsBlank), [Mark(tag)]);
      if Solidified(current) == [] { StripEmpty(current, IsBlank); assert false; }
    }
  }

  lemma PutTagBounded(a: Acc, tag: Tag, limit: nat, k: nat)
    requires Bounded(a, limit + k) && Overhead(a.open) + |tag.raw| <= limit
    requires tag.Open? ==> |ClosingTag(tag.name).raw| <= k
    ensures Bounded(PutTag(a, tag, limit), limit + k)
  {
    var projected := Width(a.current) + |tag.raw| + Width(Closing(a.open));
    WidthStrip(a.current);
    EnterWidth(a.open, tag, k);
    AppendTagWidth(a.current, tag);
    if projected > limit && Solidified(a.current) != [] {
      FlushBounded(a, limit + k);
      WidthStrip(Reopening(a.open));
      AppendTagWidth(Reopening(a.open), tag);
    }
  }

  lemma RoundBounded(a: Acc, remaining: string, limit: nat, bound: nat)
    requires Bounded(a, bound) && remaining != "" && Overhead(a.open) < limit <= bound
    ensures Bounded(TextRound(a, remaining, limit).0, bound)
  {
    var available := Room(a, limit);
    if available >= |remaining| {
      RoundThatFits(a, remaining, limit);
      WidthConcat(a.current, Chars(remaining));
      WidthChars(remaining);
      WidthStrip(a.current + Chars(remaining));
    } else if available <= 0 {
      RoundThatFlushes(a, remaining, limit);
      FlushBounded(a, bound);
    } else {
      var cut := BreakPoint(remaining, available);
      RoundThatCuts(a, remaining, limit, cut);
      var piece := Chars(remaining[..cut]);
      WidthConcat(a.current, piece);
      WidthChars(remaining[..cut]);
      WidthStrip(a.current + piece);
      FlushBounded(a.(current := a.current + piece), bound);
    }
  }

  lemma {:induction false} PutTextBounded(a: Acc, remaining: string, limit: nat, bound: nat)
    requires Bounded(a, bound) && limit <= bound && (remaining != "" ==> Overhead(a.open) < limit)
    ensures Bounded(PutText(a, remaining, limit), bound)
    decreases |remaining|, Room(a, limit) <= 0
  {
    if remaining != "" {
      RoundProgress(a, remaining, limit);
      RoundBounded(a, remaining, limit, bound);
      var (b, rest) := TextRound(a, remaining, limit);
      PutTextBounded(b, rest, limit, bound);
    }
  }

  lemma {:induction false} RunBounded(tokens: seq<Token>, a: Acc, limit: nat, k: nat)
    requires RunsFit(tokens, a.open, limit) && TagsFit(tokens, a.open, limit) && ClosersWithin(tokens, k)
    requires Bounded(a, limit + k) && Overhead(a.open) <= limit + k
    ensures Bounded(Run(tokens, a, limit), limit + k) && Overhead(Run(tokens, a, limit).open) <= limit + k
  {
    if tokens != [] {
      PutTextKeepsOpen(tokens, a, limit);
      var b := Put(tokens[0], a, limit);
      assert CloserWithin(tokens[0], k);
      match tokens[0] {
        case Plain(s) => PutTextBounded(a, s, limit, limit + k);
        case Bracket(tag) => PutTagBounded(a, tag, limit, k); EnterWidth(a.open, tag, k);
      }
      RunBounded(tokens[1..], b, limit, k);
    }
  }

  /** With `k` the widest closing tag of the text, every message is at most `limit + k` wide: a tag
      opened close to the limit adds its closer afterwards. */
  lemma MessagesBounded(text: Text, limit: nat, k: nat)
    requires Splittable(text, limit)
    requires Width(Solidified(text)) > limit ==>
               TagsFit(Tokenize(Solidified(text)), [], limit) && ClosersWithin(Tokenize(Solidified(text)), k)
    ensures forall c | c in Messages(text, limit) :: Width(c) <= limit + k
  {
    if Width(Solidified(text)) > limit {
      var tokens := Tokenize(Solidified(text));
      RunBounded(tokens, START, limit, k);
      var a := Run(tokens, START, limit);
      FlushBounded(a, limit + k);
      DropBlankSubset(Finished(a).chunks);
    }
  }

  const BOLD := Open("b", "<b>")
  const BOLD_FRAMES := [Frame("b", "<b>")]

  /** `aaaaa<b>` */
  const FULL_LINE := Chars("aaaaa") + [Mark(BOLD)]

  lemma FullLine()
    ensures Width(FULL_LINE) == 8 && Trimmed(FULL_LINE, IsBlank)
    ensures Closing(BOLD_FRAMES) == [Mark(ClosingTag("b"))] && Width(Closing(BOLD_FRAMES)) == 4
    ensures Reopening(BOLD_FRAMES) == [Mark(BOLD)] && Width(Reopening(BOLD_FRAMES)) == 3
  {
    WidthChars("aaaaa");
    WidthConcat(Chars("aaaaa"), [Mark(BOLD)]);
  }

  lemma FillLine()
    ensures Put(Plain("aaaaa"), START, 8) == Acc([], Chars("aaaaa"), [])
    ensures PutTag(Acc([], Chars("aaaaa"), []), BOLD, 8) == Acc([], FULL_LINE, BOLD_FRAMES)
  {
    RoundThatFits(START, "aaaaa", 8);
    assert [] + Chars("aaaaa") == Chars("aaaaa");
    FullLine();
    WidthChars("aaaaa");
  }

  lemma OverfillLine()
    ensures Flush(Acc([], FULL_LINE, BOLD_FRAMES)) ==
            Acc([FULL_LINE + Closing(BOLD_FRAMES)], [Mark(BOLD)], BOLD_FRAMES)
    ensures Width(FULL_LINE + Closing(BOLD_FRAMES)) == 12
  {
    FullLine();
    var chunk := FULL_LINE + Closing(BOLD_FRAMES);
    StripOfTrimmed(FULL_LINE, IsBlank);
    assert chunk[0] == FULL_LINE[0];
    StripOfTrimmed(chunk, IsBlank);
    WidthConcat(FULL_LINE, Closing(BOLD_FRAMES));
  }

  /** The bound is reached: with limit 8 the text `aaaaa<b>c` makes a first message 12 wide. */
  lemma BoundIsReached()
    ensures var tokens := [Plain("aaaaa"), Bracket(BOLD), Plain("c")];
            RunsFit(tokens, [], 8) && TagsFit(tokens, [], 8) && ClosersWithin(tokens, 4) &&
            Run(tokens, START, 8).chunks == [FULL_LINE + Closing(BOLD_FRAMES)] &&
            Width(FULL_LINE + Closing(BOLD_FRAMES)) == 8 + 4
  {
    var tokens := [Plain("aaaaa"), Bracket(BOLD), Plain("c")];
    assert tokens[1..] == [Bracket(BOLD), Plain("c")] && tokens[1..][1..] == [Plain("c")];
    FullLine();
    FillLine();
    OverfillLine();
    var a := Acc([], FULL_LINE, BOLD_FRAMES);
    RoundThatFlushes(a, "c", 8);
    RoundThatFits(Flush(a), "c", 8);
    assert Run([Plain("c")], a, 8).chunks == Flush(a).chunks;
  }

  /** Text without opening tags stays within the limit. */
  lemma PlainMessagesWithinLimit(text: Text, limit: nat)
    requires limit >= 1 && forall s | s in text :: s.Ch?
    ensures Splittable(text, limit)
    ensures forall c | c in Messages(text, limit) :: Width(c) <= limit
  {
    var head, tail := StripParts(text, IsBlank);
    var normalized := Solidified(text);
    assert forall s | s in normalized :: s in text;
    NoTags(normalized, limit);
    MessagesBounded(text, limit, 0);
  }

  lemma NoTags(s: Text, limit: nat)
    requires limit >= 1 && forall x | x in s :: x.Ch?
    ensures RunsFit(Tokenize(s), [], limit) && TagsFit(Tokenize(s), [], limit) && ClosersWithin(Tokenize(s), 0)
  {
    if s != [] {
      assert s[0] in s;
      var run := LeadingRun(s);
      LeadingRunIsPrefix(s);
      NoTags(s[|run|..], limit);
      assert Tokenize(s)[1..] == Tokenize(s[|run|..]);
    }
  }

  // ---------------------------------------------------------------- halting

  /** The splitter's loops as a machine: what is built, what remains of the current run, and the
      tokens still to come. */
  datatype Machine = Machine(acc: Acc, remaining: string, todo: seq<Token>)

  predicate Halted(m: Machine) {
    m.remaining == "" && m.todo == []
  }

  function Next(m: Machine, limit: nat): Machine {
    if m.remaining != "" then
      var (b, rest) := TextRound(m.acc, m.remaining, limit);
      Machine(b, rest, m.todo)
    else if m.todo == [] then m
    else
      match m.todo[0]
      case Plain(s) => Machine(m.acc, s, m.todo[1..])
      case Bracket(tag) => Machine(PutTag(m.acc, tag, limit), "", m.todo[1..])
  }

  function Steps(m: Machine, limit: nat, n: nat): Machine
    decreases n
  {
    if n == 0 then m else Steps(Next(m, limit), limit, n - 1)
  }

  predicate Fits(m: Machine, limit: nat) {
    (m.remaining != "" ==> Overhead(m.acc.open) < limit) && RunsFit(m.todo, m.acc.open, limit)
  }

  /** The current message always starts with at least the tags that would be reopened. */
  ghost predicate Covers(m: Machine) {
    Width(Reopening(m.acc.open)) <= Width(m.acc.current)
  }

  lemma NextKeepsFit(m: Machine, limit: nat)
    requires Covers(m)
    ensures Covers(Next(m, limit)) && (Fits(Next(m, limit), limit) <==> Fits(m, limit))
  {
    if m.remaining != "" {
      WidthConcat(m.acc.current, Chars(m.remaining));
      RoundProgress(m.acc, m.remaining, limit);
      RoundCovers(m.acc, m.remaining, limit);
    } else if m.todo != [] && m.todo[0].Bracket? {
      TagCovers(m.acc, m.todo[0].tag, limit);
    }
  }

  lemma RoundCovers(a: Acc, remaining: string, limit: nat)
    requires Width(Reopening(a.open)) <= Width(a.current) && remaining != ""
    ensures var (b, rest) := TextRound(a, remaining, limit);
            Width(Reopening(b.open)) <= Width(b.current) && (Overhead(a.open) >= limit ==> rest == remaining)
  {
    WidthConcat(a.current, Chars(remaining));
  }

  lemma TagCovers(a: Acc, tag: Tag, limit: nat)
    requires Width(Reopening(a.open)) <= Width(a.current)
    ensures var b := PutTag(a, tag, limit);
            b.open == Enter(a.open, Mark(tag)) && Width(Reopening(b.open)) <= Width(b.current)
  {
    EnterWidth(a.open, tag, if tag.Open? then |ClosingTag(tag.name).raw| else 0);
    WidthConcat(a.current, [Mark(tag)]);
    WidthConcat(Reopening(a.open), [Mark(tag)]);
  }

  lemma {:induction false} HaltedFits(m: Machine, limit: nat, n: nat)
    requires Covers(m) && Halted(Steps(m, limit, n))
    ensures Fits(m, limit)
    decreases n
  {
    if n > 0 {
      NextKeepsFit(m, limit);
      HaltedFits(Next(m, limit), limit, n - 1);
    }
  }

  /** What the recursive functions compute from a machine's state. */
  function Outcome(m: Machine, limit: nat): Acc
    requires Fits(m, limit)
  {
    TextKeepsOpen(m.acc, m.remaining, limit);
    Run(m.todo, PutText(m.acc, m.remaining, limit), limit)
  }

  lemma NextKeepsOutcome(m: Machine, limit: nat)
    requires Covers(m) && Fits(m, limit)
    ensures Fits(Next(m, limit), limit) && Outcome(Next(m, limit), limit) == Outcome(m, limit)
  {
    NextKeepsFit(m, limit);
    if m.remaining != "" {
      PutTextUnfolds(m.acc, m.remaining, limit);
    } else if m.todo != [] {
      PutTextKeepsOpen(m.todo, m.acc, limit);
    }
  }

  /** The lexicographic measure that every step decreases. */
  lemma NextIsSmaller(m: Machine, limit: nat)
    requires Fits(m, limit) && !Halted(m)
    ensures var n := Next(m, limit);
            |n.todo| < |m.todo| || (n.todo == m.todo && |n.remaining| < |m.remaining|) ||
            (n.todo == m.todo && n.remaining == m.remaining && Room(m.acc, limit) <= 0 < Room(n.acc, limit))
  {
    if m.remaining != "" { RoundProgress(m.acc, m.remaining, limit); }
  }

  /** A machine that fits halts, with exactly what the recursive functions compute. */
  lemma {:induction false} FittingHalts(m: Machine, limit: nat) returns (n: nat)
    requires Covers(m) && Fits(m, limit)
    ensures Halted(Steps(m, limit, n)) && Steps(m, limit, n).acc == Outcome(m, limit)
    decreases |m.todo|, |m.remaining|, Room(m.acc, limit) <= 0
  {
    if Halted(m) {
      n := 0;
    } else {
      NextKeepsFit(m, limit);
      NextKeepsOutcome(m, limit);
      NextIsSmaller(m, limit);
      n := FittingHalts(Next(m, limit), limit);
      n := n + 1;
    }
  }

  ghost predicate Halts(m: Machine, limit: nat) {
    exists n: nat :: Halted(Steps(m, limit, n))
  }

  /** The loops over a text that does not fit one message halt if and only if, at every run of
      characters, closing and reopening the open tags costs less than the limit. */
  lemma HaltsExactlyWhenRunsFit(text: Text, limit: nat)
    ensures var tokens := Tokenize(Solidified(text));
            Halts(Machine(START, "", tokens), limit) <==> RunsFit(tokens, [], limit)
  {
    var m := Machine(START, "", Tokenize(Solidified(text)));
    if Halts(m, limit) {
      var n: nat :| Halted(Steps(m, limit, n));
      HaltedFits(m, limit, n);
    }
    if Fits(m, limit) {
      var n := FittingHalts(m, limit);
    }
  }

  /** A link whose opening tag leaves no room, and a word in it. */
  function LinkedWord(raw: string, word: string): Text {
    [Mark(Open("a", raw))] + Chars(word)
  }

  lemma LinkedWordTokens(raw: string, word: string)
    requires word != "" && Trimmed(word, IsSpace)
    ensures Solidified(LinkedWord(raw, word)) == LinkedWord(raw, word)
    ensures Width(LinkedWord(raw, word)) == |raw| + |word|
    ensures Tokenize(LinkedWord(raw, word)) == [Bracket(Open("a", raw)), Plain(word)]
  {
    var text := LinkedWord(raw, word);
    assert text[|text| - 1] == Ch(word[|word| - 1]) && text[1..] == Chars(word);
    StripOfTrimmed(text, IsBlank);
    WidthConcat([Mark(Open("a", raw))], Chars(word));
    WidthChars(word);
    RunTokens(word);
  }

  lemma RunTokens(word: string)
    requires word != ""
    ensures LeadingRun(Chars(word)) == word && Tokenize(Chars(word)) == [Plain(word)]
  {
    assert Chars(word)[1..] == Chars(word[1..]);
    if |word| > 1 { RunTokens(word[1..]); }
    LeadingRunIsPrefix(Chars(word));
    assert Chars(word)[|word|..] == [];
  }

  /** So some texts never come to an end: any text of a link and a word that is wider than the limit,
      where the opening tag and its closer alone fill the limit. */
  lemma LongLinkNeverHalts(raw: string, word: string, limit: nat)
    requires word != "" && Trimmed(word, IsSpace)
    requires |raw| + |"</a>"| >= limit && |raw| + |word| > limit
    ensures var text := LinkedWord(raw, word);
            Width(Solidified(text)) > limit && !Halts(Machine(START, "", Tokenize(Solidified(text))), limit)
  {
    LinkedWordTokens(raw, word);
    var tokens, open := [Bracket(Open("a", raw)), Plain(word)], [Frame("a", raw)];
    assert tokens[1..] == [Plain(word)] && TokenEnter([], tokens[0]) == open;
    LinkOverhead(raw);
    assert !RunsFit(tokens[1..], open, limit);
    HaltsExactlyWhenRunsFit(LinkedWord(raw, word), limit);
  }

  lemma LinkOverhead(raw: string)
    ensures Overhead([Frame("a", raw)]) == |raw| + |"</a>"|
  {
    var open, closer := [Frame("a", raw)], ClosingTag("a");
    MarkupSnoc([], Frame("a", raw));
    assert [] + open == open && closer.raw == "</a>";
    assert Reopening(open) == [Mark(Open("a", raw))] && Closing(open) == [Mark(closer)];
    assert Width([Mark(Open("a", raw))]) == |raw| + Width([]);
    assert Width([Mark(closer)]) == |closer.raw| + Width([]);
  }

  /** For one, the splitter does not halt on this link when the limit is 10. */
  lemma ShortLimitNeverHalts()
    ensures !Halts(Machine(START, "", Tokenize(Solidified(LinkedWord("<a href=x>", "word")))), 10)
  {
    LongLinkNeverHalts("<a href=x>", "word", 10);
  }
}
