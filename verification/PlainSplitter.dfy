/** `split_telegram_text`: plain text cut into messages that Telegram accepts. */
module PlainSplitter {
  import opened Trim

  const TELEGRAM_TEXT_LIMIT: nat := 4000

  /** `limit or TELEGRAM_TEXT_LIMIT`: zero, like an absent limit, means the default. */
  function EffectiveLimit(limit: nat): (r: nat)
    ensures r >= 1
  {
    if limit == 0 then TELEGRAM_TEXT_LIMIT else limit
  }

  /** Where the loop cuts, and the chunk it takes: a cut whose chunk would be blank is replaced
      by a cut at the limit. */
  function TakeChunk(remaining: string, limit: nat): (r: (string, nat))
    requires 1 <= limit < |remaining|
    ensures 1 <= r.1 <= limit
  {
    var cut := BreakPoint(remaining, limit);
    var chunk := Strip(remaining[..cut], IsSpace);
    if chunk == "" then (Strip(remaining[..limit], IsSpace), limit) else (chunk, cut)
  }

  /** The chunks that the loop still has to produce. */
  function Pieces(remaining: string, limit: nat): seq<string>
    requires limit >= 1
    decreases |remaining|
  {
    if |remaining| > limit then
      var (chunk, cut) := TakeChunk(remaining, limit);
      [chunk] + Pieces(LStrip(remaining[cut..], IsSpace), limit)
    else if remaining == "" then [] else [remaining]
  }

  function Concat(chunks: seq<string>): string {
    if chunks == [] then "" else chunks[0] + Concat(chunks[1..])
  }

  method SplitText(text: string, limit: nat := 0) returns (chunks: seq<string>)
    ensures chunks == Pieces(Strip(text, IsSpace), EffectiveLimit(limit))
    ensures FaithfulChunks(chunks, text, EffectiveLimit(limit))
  {
    var bound := EffectiveLimit(limit);
    var stripped := Strip(text, IsSpace);
    if stripped == "" {
      SplittingKeepsText(text, bound);
      return [];
    }
    chunks := [];
    var remaining := stripped;
    while |remaining| > bound
      invariant chunks + Pieces(remaining, bound) == Pieces(stripped, bound)
      decreases |remaining|
    {
      var cut := BreakPoint(remaining, bound);
      var chunk := Strip(remaining[..cut], IsSpace);
      PiecesStep(remaining, bound, cut, chunk);
      if chunk == "" {
        chunk := Strip(remaining[..bound], IsSpace);
        cut := bound;
      }
      Associate(chunks, [chunk], Pieces(LStrip(remaining[cut..], IsSpace), bound));
      chunks := chunks + [chunk];
      remaining := LStrip(remaining[cut..], IsSpace);
    }
    if remaining != "" {
      chunks := chunks + [remaining];
    }
    SplittingKeepsText(text, bound);
  }

  ghost predicate GoodChunk(c: string, limit: nat) {
    1 <= |c| <= limit && Trimmed(c, IsSpace)
  }

  /** All chunks are good, and together they show the visible characters of the text in order. */
  ghost predicate FaithfulChunks(chunks: seq<string>, text: string, limit: nat) {
    && (forall c | c in chunks :: GoodChunk(c, limit))
    && Solid(Concat(chunks), IsSpace) == Solid(text, IsSpace)
  }

  /** Every chunk is non-empty, trimmed and within the limit, and no visible character is lost,
      duplicated or moved. */
  lemma SplittingKeepsText(text: string, limit: nat)
    requires limit >= 1
    ensures FaithfulChunks(Pieces(Strip(text, IsSpace), limit), text, limit)
  {
    var head, tail := StripParts(text, IsSpace);
    PiecesOfTrimmed(Strip(text, IsSpace), limit);
    SolidStrip(text, IsSpace);
  }

  lemma {:induction false} PiecesOfTrimmed(remaining: string, limit: nat)
    requires limit >= 1 && Trimmed(remaining, IsSpace)
    ensures FaithfulChunks(Pieces(remaining, limit), remaining, limit)
    decreases |remaining|
  {
    if |remaining| > limit {
      var (chunk, cut) := TakeChunk(remaining, limit);
      TakenChunk(remaining, limit);
      var rest := LStrip(remaining[cut..], IsSpace);
      RestTrimmed(remaining, cut);
      PiecesOfTrimmed(rest, limit);
      var later := Pieces(rest, limit);
      assert Pieces(remaining, limit) == [chunk] + later;
      SolidConcat(chunk, Concat(later), IsSpace);
      SolidCut(remaining, cut);
    } else if remaining != "" {
      assert Concat([remaining]) == remaining;
    }
  }

  lemma PiecesStep(remaining: string, limit: nat, cut: nat, chunk: string)
    requires 1 <= limit < |remaining|
    requires cut == BreakPoint(remaining, limit) && chunk == Strip(remaining[..cut], IsSpace)
    ensures chunk != "" ==>
              Pieces(remaining, limit) == [chunk] + Pieces(LStrip(remaining[cut..], IsSpace), limit)
    ensures chunk == "" ==>
              Pieces(remaining, limit) ==
              [Strip(remaining[..limit], IsSpace)] + Pieces(LStrip(remaining[limit..], IsSpace), limit)
  {
  }

  lemma RestTrimmed(s: string, cut: nat)
    requires cut < |s| && Trimmed(s, IsSpace)
    ensures Trimmed(LStrip(s[cut..], IsSpace), IsSpace)
  {
    var head := LeftPart(s[cut..], IsSpace);
    var rest := LStrip(s[cut..], IsSpace);
    assert rest == "" || rest[|rest| - 1] == s[cut..][|s| - cut - 1];
  }

  lemma SolidCut(s: string, cut: nat)
    requires cut <= |s|
    ensures Solid(s, IsSpace) == Solid(s[..cut], IsSpace) + Solid(LStrip(s[cut..], IsSpace), IsSpace)
  {
    assert s == s[..cut] + s[cut..];
    SolidConcat(s[..cut], s[cut..], IsSpace);
    SolidStrip(s[cut..], IsSpace);
  }

  /** The fallback for a blank chunk never fires on trimmed text: the chunk is the stripped cut. */
  lemma TakenChunk(remaining: string, limit: nat)
    requires 1 <= limit < |remaining| && Trimmed(remaining, IsSpace)
    ensures TakeChunk(remaining, limit).1 == BreakPoint(remaining, limit)
    ensures GoodChunk(TakeChunk(remaining, limit).0, limit)
    ensures Solid(TakeChunk(remaining, limit).0, IsSpace) == Solid(remaining[..TakeChunk(remaining, limit).1], IsSpace)
  {
    var cut := BreakPoint(remaining, limit);
    var part := remaining[..cut];
    var head, tail := StripParts(part, IsSpace);
    assert part[0] == remaining[0];
    if Strip(part, IsSpace) == "" { StripEmpty(part, IsSpace); assert false; }
    SolidStrip(part, IsSpace);
  }

  // ---------------------------------------------------------------- messages are as long as they may be

  /** While the text does not fit, each message is what lies before the best cut, without outer
      blanks, and the next one begins behind the cut and its blanks; the last one is the rest. */
  ghost predicate CutBest(chunks: seq<string>, remaining: string, limit: nat)
    decreases |chunks|
  {
    if |remaining| <= limit then chunks == if remaining == "" then [] else [remaining]
    else
      chunks != [] &&
      exists cut | 1 <= cut <= limit ::
        IsBestCut(remaining, limit, cut) && chunks[0] == Strip(remaining[..cut], IsSpace) &&
        CutBest(chunks[1..], LStrip(remaining[cut..], IsSpace), limit)
  }

  /** So no message ends before it must, and none at a worse break than necessary. */
  lemma {:induction false} MessagesAreCutBest(remaining: string, limit: nat)
    requires limit >= 1 && Trimmed(remaining, IsSpace)
    ensures CutBest(Pieces(remaining, limit), remaining, limit)
    decreases |remaining|
  {
    if |remaining| > limit {
      var (chunk, cut) := TakeChunk(remaining, limit);
      TakenChunk(remaining, limit);
      BreakPointIsLast(remaining, limit);
      RestTrimmed(remaining, cut);
      MessagesAreCutBest(LStrip(remaining[cut..], IsSpace), limit);
      assert Pieces(remaining, limit)[1..] == Pieces(LStrip(remaining[cut..], IsSpace), limit);
    }
  }
}
