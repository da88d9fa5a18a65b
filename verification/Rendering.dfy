/** From rendered HTML to repaired messages: how the splitter and the repairer work together. */
module Rendering {
  import opened Trim
  import opened Markup
  import opened PlainSplitter
  import opened HtmlSplitter
  import opened HtmlRepair
  import opened RepairLimits

  /** The tag ends in a slash, if blanks before the bracket are not counted. */
  predicate EndsInSlash(raw: string) {
    |raw| >= 2 &&
    var inner := Strip(raw[1..|raw| - 1], IsSpace);
    inner != "" && inner[|inner| - 1] == '/'
  }

  /** The splitter and the repairer take the tag for the same kind. Their patterns differ: with a
      blank after the slash, `<b / >` opens an element for the one and not for the other; and a
      closing tag with anything behind its name is one for the repairer only. */
  predicate ReadAlikeByBoth(tag: Tag) {
    && '\r' !in tag.raw
    && |tag.raw| >= 3 && tag.raw[0] == '<' && tag.raw[|tag.raw| - 1] == '>'
    && match tag
       case Open(_, raw) => raw[1] != '/' && !IsSpace(raw[1]) && !EndsInSlash(raw)
       case Void(_, raw) => raw[1] != '/' && !IsSpace(raw[1]) && raw[|raw| - 2] == '/'
       case Close(name, raw) => raw == "</" + name + ">"
  }

  /** What Telegram HTML is made of: escaped text and allowed tags that are not void elements, with
      plain line feeds. */
  ghost predicate Proper(x: Sym) {
    Lawful(x) && x != Ch('<') && x != Ch('\r') && !IsVoidOpening(x) && (x.Mark? ==> ReadAlikeByBoth(x.tag))
  }

  ghost predicate AllProper(s: Text) {
    forall x | x in s :: Proper(x)
  }

  ghost predicate ProperFrame(f: Frame) {
    Proper(Mark(Open(f.name, f.raw)))
  }

  ghost predicate ProperAcc(a: Acc) {
    && AllProper(a.current)
    && (forall f | f in a.open :: ProperFrame(f))
    && forall c | c in a.chunks :: AllProper(c)
  }

  lemma ProperCloser(name: string)
    requires name in ALLOWED_TAG_NAMES
    ensures Proper(Mark(ClosingTag(name)))
  {
    AllowedNamesPlain(name);
    var raw := ClosingTag(name).raw;
    assert raw == "</" + name + ">" && raw[0] == '<' && raw[|raw| - 1] == '>';
  }

  lemma ProperMarkup(open: seq<Frame>)
    requires forall f | f in open :: ProperFrame(f)
    ensures AllProper(Reopening(open)) && AllProper(Closing(open))
  {
    if open != [] {
      var last := open[|open| - 1];
      assert ProperFrame(last);
      ProperCloser(last.name);
      ProperMarkup(open[..|open| - 1]);
      ClosingUnfolds(open);
    }
  }

  lemma ProperStrip(s: Text)
    requires AllProper(s)
    ensures AllProper(Solidified(s))
  {
    var head, tail := StripParts(s, IsBlank);
    forall x | x in Solidified(s) ensures x in s {
      var i :| 0 <= i < |Solidified(s)| && Solidified(s)[i] == x;
      assert s[|head| + i] == x;
    }
  }

  lemma ProperFlush(a: Acc)
    requires ProperAcc(a)
    ensures ProperAcc(Flush(a))
  {
    ProperMarkup(a.open);
    ProperStrip(a.current);
    ProperStrip(Solidified(a.current) + Closing(a.open));
  }

  lemma ProperUnwind(open: seq<Frame>, name: string)
    ensures forall f | f in Unwind(open, name) :: f in open
  {
  }

  lemma ProperTag(a: Acc, tag: Tag, limit: nat)
    requires ProperAcc(a) && Proper(Mark(tag))
    ensures ProperAcc(PutTag(a, tag, limit))
  {
    ProperFlush(a);
    if tag.Close? { ProperUnwind(a.open, tag.name); }
  }

  /** Text that is escaped and has plain line feeds. */
  predicate Escaped(s: string) {
    '<' !in s && '\r' !in s
  }

  lemma ProperChars(s: string)
    ensures AllProper(Chars(s)) <==> Escaped(s)
  {
    if !Escaped(s) {
      var i :| 0 <= i < |s| && (s[i] == '<' || s[i] == '\r');
      assert Chars(s)[i] == Ch(s[i]) && !Proper(Chars(s)[i]);
    }
    forall x | x in Chars(s) ensures x.Ch? && x.c in s {
      var i :| 0 <= i < |s| && Chars(s)[i] == x;
      assert x == Ch(s[i]);
    }
  }

  lemma ProperCut(a: Acc, remaining: string, cut: nat)
    requires ProperAcc(a) && Escaped(remaining) && cut <= |remaining|
    ensures ProperAcc(CutAt(a, remaining, cut).0) && Escaped(CutAt(a, remaining, cut).1)
  {
    ProperChars(remaining[..cut]);
    ProperFlush(a.(current := a.current + Chars(remaining[..cut])));
    var head := LeftPart(remaining[cut..], IsSpace);
    assert forall c | c in LStrip(remaining[cut..], IsSpace) :: c in remaining[cut..];
  }

  lemma {:induction false} ProperText(a: Acc, remaining: string, limit: nat)
    requires ProperAcc(a) && Escaped(remaining) && (remaining != "" ==> Overhead(a.open) < limit)
    ensures ProperAcc(PutText(a, remaining, limit))
    decreases |remaining|, Room(a, limit) <= 0
  {
    if remaining != "" {
      RoundProgress(a, remaining, limit);
      var (b, rest) := TextRound(a, remaining, limit);
      ProperChars(remaining);
      ProperFlush(a);
      if 0 < Room(a, limit) < |remaining| {
        ProperCut(a, remaining, BreakPoint(remaining, Room(a, limit)));
      }
      ProperText(b, rest, limit);
    }
  }

  lemma {:induction false} ProperRun(tokens: seq<Token>, a: Acc, limit: nat)
    requires RunsFit(tokens, a.open, limit) && ProperAcc(a) && AllProper(Flatten(tokens))
    ensures ProperAcc(Run(tokens, a, limit))
  {
    if tokens != [] {
      PutTextKeepsOpen(tokens, a, limit);
      var rest := Flatten(tokens[1..]);
      match tokens[0] {
        case Plain(s) =>
          assert forall x | x in Chars(s) :: x in Chars(s) + rest;
          ProperChars(s);
          ProperText(a, s, limit);
        case Bracket(tag) =>
          assert Mark(tag) in [Mark(tag)] + rest;
          ProperTag(a, tag, limit);
      }
      assert forall x | x in rest :: x in Flatten(tokens);
      ProperRun(tokens[1..], Put(tokens[0], a, limit), limit);
    }
  }

  lemma ProperMessages(text: Text, limit: nat)
    requires Splittable(text, limit) && AllProper(text)
    ensures forall c | c in Messages(text, limit) :: AllProper(c)
  {
    ProperStrip(text);
    var normalized := Solidified(text);
    if Width(normalized) > limit {
      FlattenTokenize(normalized);
      ProperRun(Tokenize(normalized), START, limit);
      var a := Run(Tokenize(normalized), START, limit);
      ProperFlush(a);
      DropBlankSubset(Finished(a).chunks);
    }
  }

  lemma NothingToDrop(s: Text)
    requires AllProper(s)
    ensures DropPartialTag(s) == s && DropVoids(s) == s && Unix(s) == s
  {
    if s != [] {
      assert Proper(s[0]);
      if s[0].Mark? { UnixStringPlain(s[0].tag.raw); }
      NothingToDrop(s[1..]);
    }
  }

  /** The queue's producer repairs every message before sending it; for well-nested proper text
      that changes nothing. */
  lemma RepairingMessagesChangesNothing(text: Text, limit: nat)
    requires Splittable(text, limit) && WellNested(text) && AllProper(text)
    ensures forall c | c in Messages(text, limit) :: Repaired(c) == c
  {
    ProperMessages(text, limit);
    ChunksWellNested(text, limit);
    forall c | c in Messages(text, limit) ensures Repaired(c) == c {
      assert AllProper(c) && Closed(c) && WellNested(c);
      NothingToDrop(c);
      CleanMeansWellNested(c);
      UnixExactly(c);
      DropsExactly(c);
      LeavesAloneExactly(c);
    }
  }

  // ---------------------------------------------------------------- the final answer

  /** `_build_final_rendered_chunks`: the collapsed thinking goes into the first answer message
      when both fit one message, and becomes a message of its own otherwise. */
  function FinalMessages(answer: Text, thinking: Text): seq<Text>
    requires Splittable(answer, TELEGRAM_TEXT_LIMIT)
  {
    var chunks := Messages(answer, TELEGRAM_TEXT_LIMIT);
    if thinking == [] then chunks
    else if chunks == [] then [thinking]
    else if Width(thinking) + 2 + Width(chunks[0]) <= TELEGRAM_TEXT_LIMIT then
      [thinking + Chars("\n\n") + chunks[0]] + chunks[1..]
    else [thinking] + chunks
  }

  /** The reader sees the thinking and then the answer, and prepending never makes a message too
      wide. */
  lemma FinalMessagesReadInOrder(answer: Text, thinking: Text)
    requires Splittable(answer, TELEGRAM_TEXT_LIMIT) && After(thinking, []) == []
    ensures ReadAll(FinalMessages(answer, thinking)) == Reading(thinking, []) + Reading(answer, [])
    ensures forall c | c in FinalMessages(answer, thinking) ::
              c == thinking || c in Messages(answer, TELEGRAM_TEXT_LIMIT) || Width(c) <= TELEGRAM_TEXT_LIMIT
  {
    var chunks := Messages(answer, TELEGRAM_TEXT_LIMIT);
    SplittingKeepsReading(answer, TELEGRAM_TEXT_LIMIT);
    if thinking == [] {
    } else if chunks != [] && Width(thinking) + 2 + Width(chunks[0]) <= TELEGRAM_TEXT_LIMIT {
      JoinReads(thinking, chunks[0]);
      var first := thinking + Chars("\n\n") + chunks[0];
      assert ([first] + chunks[1..])[1..] == chunks[1..];
      Associate(Reading(thinking, []), Reading(chunks[0], []), ReadAll(chunks[1..]));
    } else {
      assert ([thinking] + chunks)[1..] == chunks;
      assert FinalMessages(answer, thinking) == [thinking] + chunks;
    }
  }

  lemma JoinReads(thinking: Text, chunk: Text)
    requires After(thinking, []) == []
    ensures var joined := thinking + Chars("\n\n") + chunk;
            Reading(joined, []) == Reading(thinking, []) + Reading(chunk, []) &&
            Width(joined) == Width(thinking) + 2 + Width(chunk)
  {
    var gap := Chars("\n\n");
    GapReads(gap, chunk);
    ReadConcat(thinking, gap + chunk, []);
    Associate(thinking, gap, chunk);
    WidthConcat(thinking, gap + chunk);
    WidthConcat(gap, chunk);
    WidthChars("\n\n");
  }

  lemma GapReads(gap: Text, chunk: Text)
    requires gap == Chars("\n\n")
    ensures Reading(gap + chunk, []) == Reading(chunk, [])
  {
    AllBlankChars("\n\n");
    ReadBlank(gap, []);
    ReadConcat(gap, chunk, []);
  }
}
