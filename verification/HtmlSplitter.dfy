/** `_split_telegram_html_text`: Telegram HTML cut into messages, closing the open tags at the end
    of each message and reopening them at the start of the next. */
module HtmlSplitter {
  import opened Trim
  import opened Markup
  import opened PlainSplitter

  /** The variables the source's nested functions share. */
  datatype Acc = Acc(chunks: seq<Text>, current: Text, open: seq<Frame>)

  function Solidified(s: Text): Text {
    Strip(s, IsBlank)
  }

  /** `flush_current`. */
  function Flush(a: Acc): Acc {
    var body := Solidified(a.current);
    if body == [] then a.(current := Reopening(a.open))
    else
      var chunk := Solidified(body + Closing(a.open));
      Acc(if chunk != [] then a.chunks + [chunk] else a.chunks, Reopening(a.open), a.open)
  }

  /** One bracketed token. */
  function PutTag(a: Acc, tag: Tag, limit: nat): Acc {
    var projected := Width(a.current) + |tag.raw| + Width(Closing(a.open));
    var b := if projected > limit && Solidified(a.current) != [] then Flush(a) else a;
    Acc(b.chunks, b.current + [Mark(tag)], Enter(b.open, Mark(tag)))
  }

  /** What is left of the limit for characters. */
  function Room(a: Acc, limit: nat): int {
    limit - Width(a.current) - Width(Closing(a.open))
  }

  /** One round of the loop over the characters that remain of a run. */
  function TextRound(a: Acc, remaining: string, limit: nat): (Acc, string)
    requires remaining != ""
  {
    if |remaining| <= Room(a, limit) then (a.(current := a.current + Chars(remaining)), "")
    else if Room(a, limit) <= 0 then (Flush(a), remaining)
    else CutAt(a, remaining, BreakPoint(remaining, Room(a, limit)))
  }

  /** Takes the first `cut` characters, flushes, and drops the blanks that would start the next message. */
  function CutAt(a: Acc, remaining: string, cut: nat): (Acc, string)
    requires cut <= |remaining|
  {
    (Flush(a.(current := a.current + Chars(remaining[..cut]))), LStrip(remaining[cut..], IsSpace))
  }

  /** The markup that a cut costs while these elements are open. */
  function Overhead(open: seq<Frame>): nat {
    Width(Reopening(open)) + Width(Closing(open))
  }

  /** All the rounds for one run. */
  function PutText(a: Acc, remaining: string, limit: nat): Acc
    requires remaining != "" ==> Overhead(a.open) < limit
    decreases |remaining|, Room(a, limit) <= 0
  {
    if remaining == "" then a
    else
      RoundProgress(a, remaining, limit);
      var (b, rest) := TextRound(a, remaining, limit);
      PutText(b, rest, limit)
  }

  lemma RoundProgress(a: Acc, remaining: string, limit: nat)
    requires remaining != ""
    ensures var (b, rest) := TextRound(a, remaining, limit);
            b.open == a.open && (|rest| < |remaining| ||
            (rest == remaining && b == Flush(a) && Room(a, limit) <= 0))
  {
    var available := Room(a, limit);
    if 0 < available < |remaining| {
      var cut := BreakPoint(remaining, available);
      assert |LStrip(remaining[cut..], IsSpace)| <= |remaining[cut..]|;
    }
  }

  /** The loop over the tokens. */
  function Run(tokens: seq<Token>, a: Acc, limit: nat): Acc
    requires RunsFit(tokens, a.open, limit)
  {
    if tokens == [] then a
    else
      PutTextKeepsOpen(tokens, a, limit);
      Run(tokens[1..], Put(tokens[0], a, limit), limit)
  }

  function Put(token: Token, a: Acc, limit: nat): Acc
    requires RunsFit([token], a.open, limit)
  {
    match token
    case Plain(s) => PutText(a, s, limit)
    case Bracket(tag) => PutTag(a, tag, limit)
  }

  function TokenEnter(open: seq<Frame>, token: Token): seq<Frame> {
    match token
    case Plain(_) => open
    case Bracket(tag) => Enter(open, Mark(tag))
  }

  /** At every run, closing and reopening what is open leaves room for at least one character. */
  predicate RunsFit(tokens: seq<Token>, open: seq<Frame>, limit: nat) {
    tokens != [] ==>
      (tokens[0].Plain? && tokens[0].s != "" ==> Overhead(open) < limit) &&
      RunsFit(tokens[1..], TokenEnter(open, tokens[0]), limit)
  }

  lemma PutTextKeepsOpen(tokens: seq<Token>, a: Acc, limit: nat)
    requires tokens != [] && RunsFit(tokens, a.open, limit)
    ensures RunsFit([tokens[0]], a.open, limit)
    ensures Put(tokens[0], a, limit).open == TokenEnter(a.open, tokens[0])
  {
    if tokens[0].Plain? { TextKeepsOpen(a, tokens[0].s, limit); }
  }

  lemma TextKeepsOpen(a: Acc, remaining: string, limit: nat)
    requires remaining != "" ==> Overhead(a.open) < limit
    ensures PutText(a, remaining, limit).open == a.open
    decreases |remaining|, Room(a, limit) <= 0
  {
    if remaining != "" {
      RoundProgress(a, remaining, limit);
      var (b, rest) := TextRound(a, remaining, limit);
      TextKeepsOpen(b, rest, limit);
    }
  }

  function DropBlank(chunks: seq<Text>): seq<Text> {
    if chunks == [] then []
    else (if Solidified(chunks[0]) != [] then [chunks[0]] else []) + DropBlank(chunks[1..])
  }

  lemma DropBlankSubset(chunks: seq<Text>)
    ensures forall c | c in DropBlank(chunks) :: c in chunks
  {
  }

  const START := Acc([], [], [])

  /** The text, stripped, fits one message or leaves room for every run. */
  predicate Splittable(text: Text, limit: nat) {
    Width(Solidified(text)) > limit ==> RunsFit(Tokenize(Solidified(text)), [], limit)
  }

  /** The flush at the end. */
  function Finished(a: Acc): Acc {
    if Solidified(a.current) != [] then Flush(a) else a
  }

  /** The messages for a text. */
  function Messages(text: Text, limit: nat): seq<Text>
    requires Splittable(text, limit)
  {
    var normalized := Solidified(text);
    if normalized == [] then []
    else if Width(normalized) <= limit then [normalized]
    else
      var a := Run(Tokenize(normalized), START, limit);
      DropBlank(Finished(a).chunks)
  }

  // ---------------------------------------------------------------- the imperative form

  method FlushCurrent(a: Acc) returns (b: Acc)
    ensures b == Flush(a)
  {
    var body := Solidified(a.current);
    if body == [] {
      return a.(current := Reopening(a.open));
    }
    var chunk := Solidified(body + Closing(a.open));
    b := a;
    if chunk != [] {
      b := b.(chunks := b.chunks + [chunk]);
    }
    b := b.(current := Reopening(a.open));
  }

  /** `register_tag`: a closing tag scans the open elements from the innermost outwards and deletes
      the first of its name. */
  method RegisterTag(open: seq<Frame>, tag: Tag) returns (updated: seq<Frame>)
    ensures updated == Enter(open, Mark(tag))
  {
    updated := open;
    match tag
    case Close(name, _) =>
      var index := |open| - 1;
      while index >= 0
        invariant -1 <= index < |open|
        invariant forall j | index < j < |open| :: open[j].name != name
      {
        if open[index].name == name {
          UnwindAt(open, name, index);
          return open[..index] + open[index + 1..];
        }
        index := index - 1;
      }
      UnwindMissing(open, name);
    case Open(name, raw) => updated := open + [Frame(name, raw)];
    case Void(_, _) =>
  }

  lemma UnwindAt(open: seq<Frame>, name: string, index: nat)
    requires index < |open| && open[index].name == name
    requires forall j | index < j < |open| :: open[j].name != name
    ensures Unwind(open, name) == open[..index] + open[index + 1..]
  {
    var last := |open| - 1;
    if index < last {
      UnwindAt(open[..last], name, index);
      assert open[..last][..index] == open[..index];
      assert open[index + 1..] == open[..last][index + 1..] + [open[last]];
    }
  }

  lemma UnwindMissing(open: seq<Frame>, name: string)
    requires forall j | 0 <= j < |open| :: open[j].name != name
    ensures Unwind(open, name) == open
  {
    if open != [] { UnwindMissing(open[..|open| - 1], name); }
  }

  /** The whole function. It is only called where it halts: see `HaltsExactlyWhenRunsFit`. */
  method SplitHtml(text: Text, limit: nat := 0) returns (chunks: seq<Text>)
    requires Splittable(text, EffectiveLimit(limit))
    ensures chunks == Messages(text, EffectiveLimit(limit))
    ensures ReadAll(chunks) == Reading(text, [])
  {
    var bound := EffectiveLimit(limit);
    var normalized := Solidified(text);
    SplittingKeepsReading(text, bound);
    if normalized == [] {
      return [];
    }
    if Width(normalized) <= bound {
      return [normalized];
    }
    var acc := PlaceAll(Tokenize(normalized), bound);
    if Solidified(acc.current) != [] {
      acc := FlushCurrent(acc);
    }
    chunks := DropBlank(acc.chunks);
  }

  /** The loop `for token in tokens`. */
  method PlaceAll(tokens: seq<Token>, limit: nat) returns (acc: Acc)
    requires RunsFit(tokens, [], limit)
    ensures acc == Run(tokens, START, limit)
  {
    acc := START;
    var i := 0;
    while i < |tokens|
      invariant 0 <= i <= |tokens|
      invariant RunsFit(tokens[i..], acc.open, limit)
      invariant Run(tokens[i..], acc, limit) == Run(tokens, START, limit)
    {
      assert tokens[i..][1..] == tokens[i + 1..];
      PutTextKeepsOpen(tokens[i..], acc, limit);
      match tokens[i] {
        case Bracket(tag) => acc := PlaceTag(acc, tag, limit);
        case Plain(s) => acc := PlaceRun(acc, s, limit);
      }
      i := i + 1;
    }
  }

  method PlaceTag(a: Acc, tag: Tag, limit: nat) returns (acc: Acc)
    ensures acc == PutTag(a, tag, limit)
  {
    acc := a;
    var projected := Width(acc.current) + |tag.raw| + Width(Closing(acc.open));
    if projected > limit && Solidified(acc.current) != [] {
      acc := FlushCurrent(acc);
    }
    var nowOpen := RegisterTag(acc.open, tag);
    acc := Acc(acc.chunks, acc.current + [Mark(tag)], nowOpen);
  }

  /** The loop `while remaining`. */
  method PlaceRun(a: Acc, run: string, limit: nat) returns (acc: Acc)
    requires run != "" ==> Overhead(a.open) < limit
    ensures acc == PutText(a, run, limit)
  {
    acc := a;
    var remaining := run;
    while remaining != ""
      invariant acc.open == a.open
      invariant PutText(acc, remaining, limit) == PutText(a, run, limit)
      decreases |remaining|, Room(acc, limit) <= 0
    {
      if |remaining| <= Room(acc, limit) {
        RoundThatFits(acc, remaining, limit);
        acc := acc.(current := acc.current + Chars(remaining));
        remaining := "";
        continue;
      }
      var available := Room(acc, limit);
      if available <= 0 {
        RoundThatFlushes(acc, remaining, limit);
        acc := FlushCurrent(acc);
        continue;
      }
      var cut := BreakPoint(remaining, available);
      RoundThatCuts(acc, remaining, limit, cut);
      acc := acc.(current := acc.current + Chars(remaining[..cut]));
      remaining := remaining[cut..];
      acc := FlushCurrent(acc);
      remaining := LStrip(remaining, IsSpace);
    }
  }

  lemma RoundThatFits(a: Acc, remaining: string, limit: nat)
    requires remaining != "" && Overhead(a.open) < limit
    requires |remaining| <= Room(a, limit)
    ensures TextRound(a, remaining, limit) == (a.(current := a.current + Chars(remaining)), "")
    ensures PutText(a, remaining, limit) == PutText(a.(current := a.current + Chars(remaining)), "", limit)
  {
  }

  lemma RoundThatFlushes(a: Acc, remaining: string, limit: nat)
    requires remaining != "" && Overhead(a.open) < limit
    requires Room(a, limit) <= 0
    ensures TextRound(a, remaining, limit) == (Flush(a), remaining)
    ensures Flush(a).open == a.open && Room(Flush(a), limit) > 0
    ensures PutText(a, remaining, limit) == PutText(Flush(a), remaining, limit)
  {
  }

  lemma RoundThatCuts(a: Acc, remaining: string, limit: nat, cut: nat)
    requires remaining != "" && Overhead(a.open) < limit
    requires 0 < Room(a, limit) < |remaining|
    requires cut == BreakPoint(remaining, Room(a, limit))
    ensures var b := Flush(a.(current := a.current + Chars(remaining[..cut])));
            var rest := LStrip(remaining[cut..], IsSpace);
            b.open == a.open && |rest| < |remaining| &&
            TextRound(a, remaining, limit) == (b, rest) &&
            PutText(a, remaining, limit) == PutText(b, rest, limit)
  {
    assert |LStrip(remaining[cut..], IsSpace)| <= |remaining[cut..]|;
    PutTextUnfolds(a, remaining, limit);
  }

  lemma PutTextUnfolds(a: Acc, remaining: string, limit: nat)
    requires remaining != "" && Overhead(a.open) < limit
    ensures TextRound(a, remaining, limit).0.open == a.open
    ensures PutText(a, remaining, limit) ==
            PutText(TextRound(a, remaining, limit).0, TextRound(a, remaining, limit).1, limit)
  {
    RoundProgress(a, remaining, limit);
  }

  // ---------------------------------------------------------------- meaning is kept

  /** What a reader sees in a list of messages, each read on its own. */
  function ReadAll(chunks: seq<Text>): seq<(Sym, seq<Frame>)> {
    if chunks == [] then [] else Reading(chunks[0], []) + ReadAll(chunks[1..])
  }

  function Shown(a: Acc): seq<(Sym, seq<Frame>)> {
    ReadAll(a.chunks) + Reading(a.current, [])
  }

  ghost predicate Closed(chunk: Text) {
    chunk != [] && Trimmed(chunk, IsBlank) && After(chunk, []) == []
  }

  ghost predicate Sound(a: Acc) {
    After(a.current, []) == a.open && forall c | c in a.chunks :: Closed(c)
  }

  ghost predicate AllNested(a: Acc) {
    Nested(a.current, []) && forall c | c in a.chunks :: Nested(c, [])
  }

  lemma ReadAllAppend(chunks: seq<Text>, c: Text)
    ensures ReadAll(chunks + [c]) == ReadAll(chunks) + Reading(c, [])
  {
    if chunks == [] {
      assert ReadAll([c]) == Reading(c, []) + ReadAll([]);
    } else {
      assert (chunks + [c])[1..] == chunks[1..] + [c];
      ReadAllAppend(chunks[1..], c);
    }
  }

  /** `b` is what `a` becomes by taking in `piece`: nothing a reader sees is lost, added or moved. */
  ghost predicate TakesIn(a: Acc, b: Acc, piece: Text) {
    && Sound(b)
    && b.open == After(piece, a.open)
    && Shown(b) == Shown(a) + Reading(piece, a.open)
    && (AllNested(a) && Nested(piece, a.open) ==> AllNested(b))
  }

  /** Two texts that read alike inside the same open elements. */
  ghost predicate ReadAlike(s: Text, t: Text, open: seq<Frame>) {
    Reading(s, open) == Reading(t, open) && After(s, open) == After(t, open) && (Nested(s, open) <==> Nested(t, open))
  }

  lemma TakesInBoth(a: Acc, b: Acc, c: Acc, p: Text, q: Text)
    requires TakesIn(a, b, p) && TakesIn(b, c, q)
    ensures TakesIn(a, c, p + q)
  {
    ReadConcat(p, q, a.open);
    Associate(Shown(a), Reading(p, a.open), Reading(q, b.open));
  }

  /** The message that flushing makes. */
  lemma ChunkReads(current: Text, open: seq<Frame>) returns (chunk: Text)
    requires After(current, []) == open && Solidified(current) != []
    ensures chunk == Solidified(Solidified(current) + Closing(open)) && Closed(chunk)
    ensures Reading(chunk, []) == Reading(current, []) && (Nested(current, []) ==> Nested(chunk, []))
  {
    var body := Solidified(current);
    var whole := body + Closing(open);
    chunk := Solidified(whole);
    ReadStrip(current, []);
    ReadConcat(body, Closing(open), []);
    ReadClosing(open);
    ReadStrip(whole, []);
    StripTrimmed(current, IsBlank);
    StripTrimmed(whole, IsBlank);
    NotAllBlank(body, Closing(open));
  }

  lemma NotAllBlank(body: Text, closing: Text)
    requires body != [] && !IsBlank(body[0])
    ensures Solidified(body + closing) != []
  {
    assert !AllBlank(body + closing, IsBlank) by {
      assert (body + closing)[0] == body[0];
    }
    if Solidified(body + closing) == [] {
      StripEmpty(body + closing, IsBlank);
      assert false;
    }
  }

  lemma FlushSound(a: Acc)
    requires Sound(a)
    ensures TakesIn(a, Flush(a), [])
  {
    ReadReopening(a.open);
    if Solidified(a.current) != [] {
      var chunk := ChunkReads(a.current, a.open);
      assert Flush(a) == Acc(a.chunks + [chunk], Reopening(a.open), a.open);
      ReadAllAppend(a.chunks, chunk);
    } else {
      ReadStrip(a.current, []);
    }
  }

  lemma AppendSound(a: Acc, piece: Text)
    requires Sound(a)
    ensures TakesIn(a, Acc(a.chunks, a.current + piece, After(piece, a.open)), piece)
  {
    ReadConcat(a.current, piece, []);
    Associate(ReadAll(a.chunks), Reading(a.current, []), Reading(piece, a.open));
  }

  lemma PutTagSound(a: Acc, tag: Tag, limit: nat)
    requires Sound(a)
    ensures TakesIn(a, PutTag(a, tag, limit), [Mark(tag)])
  {
    assert After([Mark(tag)], a.open) == Enter(a.open, Mark(tag));
    var projected := Width(a.current) + |tag.raw| + Width(Closing(a.open));
    if projected > limit && Solidified(a.current) != [] {
      FlushSound(a);
      var b := Flush(a);
      AppendSound(b, [Mark(tag)]);
      TakesInBoth(a, b, PutTag(a, tag, limit), [], [Mark(tag)]);
      assert [] + [Mark(tag)] == [Mark(tag)];
    } else {
      AppendSound(a, [Mark(tag)]);
    }
  }

  lemma LStrippedReadsAlike(s: string, open: seq<Frame>)
    ensures ReadAlike(Chars(LStrip(s, IsSpace)), Chars(s), open)
  {
    var head := LeftPart(s, IsSpace);
    CharsConcat(head, LStrip(s, IsSpace));
    ReadConcat(Chars(head), Chars(LStrip(s, IsSpace)), open);
    AllBlankChars(head);
    ReadBlank(Chars(head), open);
  }

  lemma CutReadsAlike(s: string, cut: nat, open: seq<Frame>)
    requires cut <= |s|
    ensures ReadAlike(Chars(s[..cut]) + Chars(LStrip(s[cut..], IsSpace)), Chars(s), open)
  {
    var front, back := s[..cut], s[cut..];
    assert s == front + back;
    CharsConcat(front, back);
    ReadConcat(Chars(front), Chars(back), open);
    ReadConcat(Chars(front), Chars(LStrip(back, IsSpace)), open);
    LStrippedReadsAlike(back, After(Chars(front), open));
  }

  /** A round takes in a piece of the run; the piece and the rest read like the run. */
  ghost predicate RoundReads(a: Acc, remaining: string, limit: nat, piece: Text)
    requires remaining != ""
  {
    var (b, rest) := TextRound(a, remaining, limit);
    TakesIn(a, b, piece) && ReadAlike(piece + Chars(rest), Chars(remaining), a.open)
  }

  lemma RoundSound(a: Acc, remaining: string, limit: nat) returns (piece: Text)
    requires Sound(a) && remaining != "" && Overhead(a.open) < limit
    ensures RoundReads(a, remaining, limit, piece)
  {
    var available := Room(a, limit);
    if available >= |remaining| {
      piece := FittingRoundSound(a, remaining, limit);
    } else if available <= 0 {
      piece := FlushingRoundSound(a, remaining, limit);
    } else {
      var cut := BreakPoint(remaining, available);
      RoundThatCuts(a, remaining, limit, cut);
      piece := CutRoundSound(a, remaining, cut);
    }
  }

  lemma FittingRoundSound(a: Acc, remaining: string, limit: nat) returns (piece: Text)
    requires Sound(a) && remaining != "" && Overhead(a.open) < limit
    requires |remaining| <= Room(a, limit)
    ensures RoundReads(a, remaining, limit, piece)
  {
    RoundThatFits(a, remaining, limit);
    piece := Chars(remaining);
    AppendSound(a, piece);
    ReadChars(remaining, a.open);
    assert piece + Chars("") == piece;
  }

  lemma FlushingRoundSound(a: Acc, remaining: string, limit: nat) returns (piece: Text)
    requires Sound(a) && remaining != "" && Overhead(a.open) < limit
    requires Room(a, limit) <= 0
    ensures RoundReads(a, remaining, limit, piece)
  {
    RoundThatFlushes(a, remaining, limit);
    piece := [];
    FlushSound(a);
    assert piece + Chars(remaining) == Chars(remaining);
  }

  lemma CutRoundSound(a: Acc, remaining: string, cut: nat) returns (piece: Text)
    requires Sound(a) && cut <= |remaining|
    ensures TakesIn(a, Flush(a.(current := a.current + Chars(remaining[..cut]))), piece)
    ensures ReadAlike(piece + Chars(LStrip(remaining[cut..], IsSpace)), Chars(remaining), a.open)
  {
    piece := Chars(remaining[..cut]);
    var b := a.(current := a.current + piece);
    ReadChars(remaining[..cut], a.open);
    AppendSound(a, piece);
    FlushSound(b);
    TakesInBoth(a, b, Flush(b), piece, []);
    assert piece + [] == piece;
    CutReadsAlike(remaining, cut, a.open);
  }

  lemma {:induction false} PutTextSound(a: Acc, remaining: string, limit: nat)
    requires Sound(a) && (remaining != "" ==> Overhead(a.open) < limit)
    ensures TakesIn(a, PutText(a, remaining, limit), Chars(remaining))
    decreases |remaining|, Room(a, limit) <= 0
  {
    if remaining != "" {
      RoundProgress(a, remaining, limit);
      var piece := RoundSound(a, remaining, limit);
      var (b, rest) := TextRound(a, remaining, limit);
      PutTextSound(b, rest, limit);
      TakesInBoth(a, b, PutText(b, rest, limit), piece, Chars(rest));
    }
  }

  lemma PutSound(token: Token, a: Acc, limit: nat)
    requires Sound(a) && RunsFit([token], a.open, limit)
    ensures TakesIn(a, Put(token, a, limit), Flatten([token]))
  {
    match token
    case Plain(s) =>
      PutTextSound(a, s, limit);
      assert Flatten([token]) == Chars(s);
    case Bracket(tag) =>
      PutTagSound(a, tag, limit);
      assert Flatten([token]) == [Mark(tag)];
  }

  lemma {:induction false} RunSound(tokens: seq<Token>, a: Acc, limit: nat)
    requires Sound(a) && RunsFit(tokens, a.open, limit)
    ensures TakesIn(a, Run(tokens, a, limit), Flatten(tokens))
  {
    if tokens != [] {
      PutTextKeepsOpen(tokens, a, limit);
      PutSound(tokens[0], a, limit);
      var b := Put(tokens[0], a, limit);
      RunSound(tokens[1..], b, limit);
      TakesInBoth(a, b, Run(tokens, a, limit), Flatten([tokens[0]]), Flatten(tokens[1..]));
      assert Flatten(tokens) == Flatten([tokens[0]]) + Flatten(tokens[1..]);
    }
  }

  lemma DropBlankKeepsClosed(chunks: seq<Text>)
    requires forall c | c in chunks :: Closed(c)
    ensures DropBlank(chunks) == chunks
  {
    if chunks != [] {
      assert chunks[0] in chunks;
      StripOfTrimmed(chunks[0], IsBlank);
      DropBlankKeepsClosed(chunks[1..]);
    }
  }

  /** The last flush leaves only reopened tags behind. */
  lemma LastFlush(b: Acc) returns (a: Acc)
    requires Sound(b)
    ensures a == Finished(b)
    ensures Sound(a) && ReadAll(a.chunks) == Shown(b) && (AllNested(b) ==> AllNested(a))
  {
    a := Finished(b);
    FlushSound(b);
    ReadStrip(b.current, []);
    ReadReopening(b.open);
    assert Reading(a.current, []) == [];
    assert Shown(a) == ReadAll(a.chunks) + [] == ReadAll(a.chunks);
    assert Shown(b) + [] == Shown(b);
  }

  /** The long path, where the text does not fit one message. */
  lemma LongSplit(text: Text, limit: nat) returns (a: Acc)
    requires Splittable(text, limit) && Width(Solidified(text)) > limit
    ensures Messages(text, limit) == a.chunks && Sound(a)
    ensures ReadAll(a.chunks) == Reading(text, [])
    ensures Nested(text, []) ==> AllNested(a)
  {
    var normalized := Solidified(text);
    var tokens := Tokenize(normalized);
    FlattenTokenize(normalized);
    ReadStrip(text, []);
    RunSound(tokens, START, limit);
    a := LastFlush(Run(tokens, START, limit));
    DropBlankKeepsClosed(a.chunks);
  }

  /** Reading all messages in order shows exactly what reading the text shows: the same visible
      characters and void tags, in the same order, each inside the same opening tags. */
  lemma SplittingKeepsReading(text: Text, limit: nat)
    requires Splittable(text, limit)
    ensures ReadAll(Messages(text, limit)) == Reading(text, [])
  {
    ReadStrip(text, []);
    if Width(Solidified(text)) > limit {
      var a := LongSplit(text, limit);
    } else if Solidified(text) != [] {
      assert ReadAll([Solidified(text)]) == Reading(Solidified(text), []) + ReadAll([]);
    }
  }

  /** Each message of a well-nested text is well nested by itself, trimmed and not empty. */
  lemma ChunksWellNested(text: Text, limit: nat)
    requires Splittable(text, limit) && WellNested(text)
    ensures forall c | c in Messages(text, limit) :: Closed(c) && WellNested(c)
  {
    ReadStrip(text, []);
    StripTrimmed(text, IsBlank);
    if Width(Solidified(text)) > limit {
      var a := LongSplit(text, limit);
    }
  }
}
