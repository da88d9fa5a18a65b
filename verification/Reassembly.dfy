/** Streamed answers put together again: the two merge functions, and partial flushes. */
module Reassembly {
  import opened Options
  import opened Trim
  import opened SessionRecords

  /** What to do with an incoming text. */
  datatype Action = Ignore | Append(text: string) | Replace(text: string)

  function Combined(s: Session): string {
    s.streamed + s.pending
  }

  // ---------------------------------------------------------------- the small loops

  function CommonPrefix(left: string, right: string): (n: nat)
    ensures n <= |left| && n <= |right|
  {
    if left == "" || right == "" || left[0] != right[0] then 0 else 1 + CommonPrefix(left[1..], right[1..])
  }

  function CommonSuffix(left: string, right: string): (n: nat)
    ensures n <= |left| && n <= |right|
  {
    if left == "" || right == "" || left[|left| - 1] != right[|right| - 1] then 0
    else 1 + CommonSuffix(left[..|left| - 1], right[..|right| - 1])
  }

  predicate Overlaps(left: string, right: string, size: nat) {
    size <= |left| && size <= |right| && left[|left| - size..] == right[..size]
  }

  /** The largest overlap not above `size`. */
  function OverlapUpTo(left: string, right: string, size: nat): (n: nat)
    ensures n <= size && n <= |right|
  {
    if size == 0 then 0 else if Overlaps(left, right, size) then size else OverlapUpTo(left, right, size - 1)
  }

  function SuffixPrefixOverlap(left: string, right: string): nat {
    OverlapUpTo(left, right, if |left| < |right| then |left| else |right|)
  }

  lemma OverlapOverlaps(left: string, right: string)
    ensures Overlaps(left, right, SuffixPrefixOverlap(left, right))
  {
    OverlapUpToOverlaps(left, right, MinNat(|left|, |right|));
  }

  lemma OverlapUpToOverlaps(left: string, right: string, size: nat)
    requires size <= |left| && size <= |right|
    ensures Overlaps(left, right, OverlapUpTo(left, right, size))
  {
    assert left[|left|..] == right[..0];
  }

  /** `_common_prefix_length`: the longest common prefix. */
  method CommonPrefixLength(left: string, right: string) returns (index: nat)
    ensures index == CommonPrefix(left, right)
    ensures index <= |left| && index <= |right| && left[..index] == right[..index]
    ensures index < |left| && index < |right| ==> left[index] != right[index]
  {
    index := 0;
    while index < |left| && index < |right| && left[index] == right[index]
      invariant index <= |left| && index <= |right| && left[..index] == right[..index]
      invariant CommonPrefix(left, right) == index + CommonPrefix(left[index..], right[index..])
    {
      assert left[index..][1..] == left[index + 1..] && right[index..][1..] == right[index + 1..];
      assert left[..index + 1] == left[..index] + [left[index]] && right[..index + 1] == right[..index] + [right[index]];
      index := index + 1;
    }
  }

  /** `_common_suffix_length`: the longest common suffix. */
  method CommonSuffixLength(left: string, right: string) returns (index: nat)
    ensures index == CommonSuffix(left, right)
    ensures index <= |left| && index <= |right|
    ensures index < |left| && index < |right| ==> left[|left| - 1 - index] != right[|right| - 1 - index]
  {
    index := 0;
    assert left[..|left|] == left && right[..|right|] == right;
    while index < |left| && index < |right| && left[|left| - (index + 1)] == right[|right| - (index + 1)]
      invariant index <= |left| && index <= |right|
      invariant CommonSuffix(left, right) == index + CommonSuffix(left[..|left| - index], right[..|right| - index])
    {
      var l, r := left[..|left| - index], right[..|right| - index];
      assert l[..|l| - 1] == left[..|left| - (index + 1)] && r[..|r| - 1] == right[..|right| - (index + 1)];
      index := index + 1;
    }
  }

  /** `_suffix_prefix_overlap`: the longest suffix of `left` that is a prefix of `right`. */
  method LongestOverlap(left: string, right: string) returns (size: nat)
    ensures size == SuffixPrefixOverlap(left, right) && Overlaps(left, right, size)
    ensures forall k: nat | k > size :: !Overlaps(left, right, k)
  {
    size := if |left| < |right| then |left| else |right|;
    while size > 0
      invariant size <= |left| && size <= |right|
      invariant SuffixPrefixOverlap(left, right) == OverlapUpTo(left, right, size)
      invariant forall k: nat | k > size :: !Overlaps(left, right, k)
    {
      if left[|left| - size..] == right[..size] {
        return;
      }
      size := size - 1;
    }
    assert left[|left|..] == right[..0];
  }

  // ---------------------------------------------------------------- the merge functions

  predicate StartsWith(text: string, prefix: string) {
    prefix != "" && prefix <= text
  }

  /** `merge_streamed_agent_delta_text` */
  function MergeDelta(s: Session, incoming: string): Action {
    var combined := Combined(s);
    if incoming == "" then Ignore
    else if incoming == s.pending || incoming == s.streamed || incoming == combined || incoming == s.delivered then Ignore
    else if StartsWith(incoming, combined) then Append(incoming[|combined|..])
    else if StartsWith(incoming, s.pending) then Append(incoming[|s.pending|..])
    else if StartsWith(incoming, s.streamed) then Append(incoming[|s.streamed|..])
    else if StartsWith(incoming, s.delivered) then Append(incoming[|s.delivered|..])
    else if combined != "" && incoming <= combined then Ignore
    else Append(incoming)
  }

  function MinNat(a: nat, b: nat): nat { if a < b then a else b }

  function MaxNat(a: nat, b: nat): nat { if a < b then b else a }

  /** Four fifths of the shorter length, but at least 48. */
  function SimilarityBar(a: string, b: string): nat {
    MaxNat(48, MinNat(|a|, |b|) * 4 / 5)
  }

  predicate Similar(a: string, b: string) {
    a != "" && CommonPrefix(a, b) + CommonSuffix(a, b) >= SimilarityBar(a, b)
  }

  /** `merge_incremental_assistant_text` */
  function MergeIncremental(s: Session, incoming: string): Action {
    var combined := Combined(s);
    if incoming == "" then Ignore
    else if incoming == s.delivered || incoming == combined || incoming == s.pending || incoming == s.streamed then Ignore
    else if StartsWith(incoming, combined) then Append(incoming[|combined|..])
    else if StartsWith(incoming, s.pending) then Append(incoming[|s.pending|..])
    else if StartsWith(incoming, s.streamed) then Append(incoming[|s.streamed|..])
    else if StartsWith(incoming, s.delivered) then Append(incoming[|s.delivered|..])
    else if combined != "" && incoming <= combined then Ignore
    else if Similar(combined, incoming) || Similar(s.delivered, incoming) then Replace(incoming)
    else
      var overlap := if combined != "" then SuffixPrefixOverlap(combined, incoming) else 0;
      if overlap >= MaxNat(16, MinNat(|combined|, |incoming|) / 3) then Append(incoming[overlap..])
      else Append(incoming)
  }

  /** What the drain does with the action. */
  function Applied(s: Session, action: Action): Session {
    match action
    case Ignore => s
    case Append(text) => s.(pending := s.pending + text)
    case Replace(text) => if text == "" then s else s.(pending := text, streamed := "")
  }

  function Merged(s: Session, delta: bool, incoming: string): Session {
    Applied(s, if delta then MergeDelta(s, incoming) else MergeIncremental(s, incoming))
  }

  /** The incoming text repeats, extends or begins nothing of what is there. */
  predicate IsUnrelated(s: Session, incoming: string) {
    var combined := Combined(s);
    incoming != "" && incoming != s.delivered && incoming != combined && incoming != s.pending && incoming != s.streamed &&
    !StartsWith(incoming, combined) && !StartsWith(incoming, s.pending) && !StartsWith(incoming, s.streamed) &&
    !StartsWith(incoming, s.delivered) && !(combined != "" && incoming <= combined)
  }

  ghost predicate IsLongestOverlap(left: string, right: string, size: nat) {
    Overlaps(left, right, size) && forall k: nat | k > size :: !Overlaps(left, right, k)
  }

  /** An overlap counts from a third of the shorter text on, but only from 16 characters. */
  function OverlapBar(a: string, b: string): nat {
    MaxNat(16, MinNat(|a|, |b|) / 3)
  }

  lemma OverlapIsLongest(left: string, right: string)
    ensures IsLongestOverlap(left, right, SuffixPrefixOverlap(left, right))
  {
    OverlapOverlaps(left, right);
    NoneLonger(left, right, MinNat(|left|, |right|));
  }

  lemma NoneLonger(left: string, right: string, size: nat)
    ensures forall k: nat | OverlapUpTo(left, right, size) < k <= size :: !Overlaps(left, right, k)
  {
  }

  /** An unrelated delta is appended. Any other unrelated text replaces the answer if it is similar to
      it or to what was delivered; else it is joined to the answer, and what the end of the answer and
      its beginning share, if that is enough, appears once. */
  lemma UnrelatedTextMerges(s: Session, incoming: string)
    requires IsUnrelated(s, incoming)
    ensures Combined(Merged(s, true, incoming)) == Combined(s) + incoming
    ensures var c, t := Combined(s), Merged(s, false, incoming);
            if Similar(c, incoming) || Similar(s.delivered, incoming) then Combined(t) == incoming
            else exists k: nat :: IsLongestOverlap(c, incoming, k) &&
                   Combined(t) == c + if k >= OverlapBar(c, incoming) then incoming[k..] else incoming
  {
    var c := Combined(s);
    Associate(s.streamed, s.pending, incoming);
    OverlapIsLongest(c, incoming);
    var k := SuffixPrefixOverlap(c, incoming);
    Associate(s.streamed, s.pending, incoming[k..]);
  }

  /** The incoming text is there already: as a whole, in part, or as what was delivered. */
  predicate IsRepeated(s: Session, incoming: string) {
    incoming == Combined(s) || incoming == s.pending || incoming == s.streamed || incoming == s.delivered
  }

  /** What the incoming text goes on from: the whole answer if it begins with it, else what waits, what
      is streamed, or what was delivered. */
  function GoesOnFrom(s: Session, incoming: string): string {
    if StartsWith(incoming, Combined(s)) then Combined(s)
    else if StartsWith(incoming, s.pending) then s.pending
    else if StartsWith(incoming, s.streamed) then s.streamed
    else if StartsWith(incoming, s.delivered) then s.delivered
    else ""
  }

  /** Both merge functions ignore a text that repeats what is there, or the beginning of it, and of one
      that goes on from it they add the rest only; so nothing appears twice. */
  lemma KnownTextAddsItsRest(s: Session, delta: bool, incoming: string)
    requires incoming != ""
    ensures IsRepeated(s, incoming) ==> Merged(s, delta, incoming) == s
    ensures !IsRepeated(s, incoming) && GoesOnFrom(s, incoming) != "" ==>
              Combined(Merged(s, delta, incoming)) == Combined(s) + incoming[|GoesOnFrom(s, incoming)|..]
    ensures !IsRepeated(s, incoming) && GoesOnFrom(s, incoming) == "" && Combined(s) != "" && incoming <= Combined(s) ==>
              Merged(s, delta, incoming) == s
  {
    var from := GoesOnFrom(s, incoming);
    if from != "" { Associate(s.streamed, s.pending, incoming[|from|..]); }
  }

  /** A delta that is meant to go on from the answer is appended exactly if it is unrelated to it. */
  lemma DeltaIsAppendedExactly(s: Session, delta: string)
    requires delta != ""
    ensures Combined(Merged(s, true, delta)) == Combined(s) + delta <==> IsUnrelated(s, delta)
  {
    if IsUnrelated(s, delta) {
      UnrelatedTextMerges(s, delta);
    } else {
      KnownTextAddsItsRest(s, true, delta);
    }
  }

  /** One that is not: of the deltas `ha` and `ha` only one is left. */
  lemma RepeatedDeltaIsLost(s: Session)
    requires s.pending == "" && s.streamed == "" && s.delivered == ""
    ensures Combined(Merged(Merged(s, true, "ha"), true, "ha")) == "ha"
  {
    LongerPrefixAppended(s, true, "ha");
    ShorterPrefixIgnored(Merged(s, true, "ha"), true, "ha");
  }

  lemma CommonPrefixIsLongest(a: string, b: string, k: nat)
    requires k <= |a| && k <= |b|
    ensures a[..k] == b[..k] <==> k <= CommonPrefix(a, b)
    decreases k
  {
    if k > 0 {
      CommonPrefixIsLongest(a[1..], b[1..], k - 1);
      assert a[..k] == [a[0]] + a[1..][..k - 1] && b[..k] == [b[0]] + b[1..][..k - 1];
    }
  }

  lemma CommonSuffixIsLongest(a: string, b: string, k: nat)
    requires k <= |a| && k <= |b|
    ensures a[|a| - k..] == b[|b| - k..] <==> k <= CommonSuffix(a, b)
    decreases k
  {
    if k > 0 {
      var c, d := a[..|a| - 1], b[..|b| - 1];
      CommonSuffixIsLongest(c, d, k - 1);
      assert a[|a| - k..] == c[|c| - (k - 1)..] + [a[|a| - 1]] && b[|b| - k..] == d[|d| - (k - 1)..] + [b[|b| - 1]];
    }
  }

  /** The texts share `p` characters in front and `q` at the end. */
  predicate SharesEnds(a: string, b: string, p: nat, q: nat) {
    p <= |a| && p <= |b| && q <= |a| && q <= |b| && a[..p] == b[..p] && a[|a| - q..] == b[|b| - q..]
  }

  /** Two texts are similar exactly if a common beginning and a common end together make up four fifths
      of the shorter one, and at least 48 characters. */
  lemma SimilarExactly(a: string, b: string)
    ensures Similar(a, b) <==>
            exists p: nat, q: nat :: SharesEnds(a, b, p, q) && p + q >= 48 && p + q >= MinNat(|a|, |b|) * 4 / 5
  {
    var p, q := CommonPrefix(a, b), CommonSuffix(a, b);
    CommonPrefixIsLongest(a, b, p);
    CommonSuffixIsLongest(a, b, q);
    assert SharesEnds(a, b, p, q);
    if i: nat, j: nat :| SharesEnds(a, b, i, j) && i + j >= 48 && i + j >= MinNat(|a|, |b|) * 4 / 5 {
      CommonPrefixIsLongest(a, b, i);
      CommonSuffixIsLongest(a, b, j);
    }
  }

  // ---------------------------------------------------------------- snapshots in any order

  /** A snapshot as it arrives: which merge function handles it, and its text. */
  datatype Arrival = Arrival(delta: bool, text: string)

  function ReceiveAll(s: Session, arrivals: seq<Arrival>): Session
    decreases |arrivals|
  {
    if arrivals == [] then s else ReceiveAll(Merged(s, arrivals[0].delta, arrivals[0].text), arrivals[1..])
  }

  predicate AllPrefixesOf(arrivals: seq<Arrival>, text: string) {
    forall a | a in arrivals :: a.text <= text
  }

  function LongestArrival(arrivals: seq<Arrival>, start: nat): nat {
    if arrivals == [] then start else LongestArrival(arrivals[1..], MaxNat(start, |arrivals[0].text|))
  }

  /** A prefix no longer than what is pending is ignored by either merge function. */
  lemma ShorterPrefixIgnored(s: Session, delta: bool, snapshot: string)
    requires s.streamed == "" && s.delivered == "" && snapshot <= s.pending
    ensures Merged(s, delta, snapshot) == s
  {
    assert Combined(s) == s.pending;
  }

  lemma PrefixMerges(s: Session, delta: bool, snapshot: string, text: string)
    requires s.streamed == "" && s.delivered == "" && s.pending <= text && snapshot <= text
    ensures Merged(s, delta, snapshot) == s.(pending := text[..MaxNat(|s.pending|, |snapshot|)])
  {
    if |snapshot| <= |s.pending| {
      ShorterPrefixIgnored(s, delta, snapshot);
    } else {
      LongerPrefixAppended(s, delta, snapshot);
    }
  }

  lemma LongerPrefixAppended(s: Session, delta: bool, snapshot: string)
    requires s.streamed == "" && s.delivered == "" && s.pending <= snapshot && s.pending != snapshot
    ensures Merged(s, delta, snapshot) == s.(pending := snapshot)
  {
    assert Combined(s) == s.pending;
    assert snapshot == s.pending + snapshot[|s.pending|..];
    assert snapshot[0..] == snapshot;
  }

  /** With nothing flushed or delivered, prefixes of one text in any order, with repeats, through
      either merge function, leave the longest prefix received. */
  lemma {:induction false} AnyOrderLeavesLongest(s: Session, arrivals: seq<Arrival>, text: string)
    requires s.streamed == "" && s.delivered == "" && s.pending <= text && AllPrefixesOf(arrivals, text)
    ensures LongestArrival(arrivals, |s.pending|) <= |text|
    ensures ReceiveAll(s, arrivals) == s.(pending := text[..LongestArrival(arrivals, |s.pending|)])
    decreases |arrivals|
  {
    if arrivals != [] {
      var first := arrivals[0];
      assert first in arrivals;
      PrefixMerges(s, first.delta, first.text, text);
      AnyOrderLeavesLongest(Merged(s, first.delta, first.text), arrivals[1..], text);
    }
  }

  // ---------------------------------------------------------------- partial flushes

  /** The text that a flush delivers. */
  function FlushText(s: Session): string {
    var text := Strip(s.pending, IsSpace);
    if s.phase == Commentary || s.streamed == "" then text
    else if Strip(s.streamed, IsSpace) <= text then text
    else Strip(s.streamed + s.pending, IsSpace)
  }

  function Consumed(s: Session): Session {
    s.(pending := "", pendingAt := None)
  }

  /** `flush_buffer` without `mark_agent`. `chatKnown`: there is a chat to deliver to; `accepted`:
      the chunks could be queued; `messages`: message ids are known for them. */
  function FlushedPartial(s: Session, chatKnown: bool, accepted: bool, messages: bool, now: int): Session {
    if Blank(s.pending) then s
    else if !s.attached || !chatKnown then Consumed(s)
    else if FlushText(s) == s.delivered then Consumed(s)
    else if !accepted then s
    else Consumed(s).(streamed := FlushText(s), phase := Answer, delivered := FlushText(s), lastAgentAt := Some(now),
                          hasMessages := messages)
  }

  /** The session shows a prefix of its text already, and that prefix was delivered. */
  ghost predicate Streaming(s: Session) {
    s.attached && s.phase != Commentary && s.delivered == s.streamed
  }

  /** The tail that waits begins with the text that was streamed already. */
  predicate TailRepeatsStream(s: Session) {
    s.streamed != "" && Strip(s.streamed, IsSpace) <= Strip(s.pending, IsSpace)
  }

  lemma StripShorter(text: string)
    ensures |Strip(text, IsSpace)| <= |text| && (|Strip(text, IsSpace)| == |text| ==> Strip(text, IsSpace) == text)
  {
    var head, tail := StripParts(text, IsSpace);
  }

  /** What a successful partial flush leaves of the answer: the text it shows, or, if that text is
      shown already, what was streamed. */
  lemma FlushLeaves(s: Session, messages: bool, now: int)
    requires s.attached && !Blank(s.pending)
    ensures Combined(FlushedPartial(s, true, true, messages, now)) == if FlushText(s) == s.delivered then s.streamed else FlushText(s)
  {
    var t := FlushedPartial(s, true, true, messages, now);
    assert t.pending == "" && Combined(t) == t.streamed;
  }

  /** The text that a flush shows takes in what was streamed. */
  predicate ShowsAll(s: Session) {
    s.streamed == "" || (s.phase != Commentary && !TailRepeatsStream(s))
  }

  lemma FlushTextIsAnswerExactly(s: Session)
    requires !Blank(s.pending)
    ensures FlushText(s) == Combined(s) <==> Strip(Combined(s), IsSpace) == Combined(s) && ShowsAll(s)
  {
    StripShorter(s.pending);
    StripShorter(Combined(s));
    assert Strip("", IsSpace) == "";
    assert s.streamed == "" ==> Combined(s) == s.pending;
  }

  /** A successful partial flush of an attached session keeps the answer, streamed and pending
      together, exactly when nothing visible waits, or the answer has no outer blanks, is not what
      was delivered last, and its waiting tail does not begin with the streamed text. */
  lemma FlushKeepsAnswerExactly(s: Session, messages: bool, now: int)
    requires s.attached
    ensures Combined(FlushedPartial(s, true, true, messages, now)) == Combined(s) <==>
            Blank(s.pending) ||
            (Strip(Combined(s), IsSpace) == Combined(s) && Combined(s) != s.delivered && ShowsAll(s))
  {
    assert Strip("", IsSpace) == "";
    if !Blank(s.pending) {
      FlushLeaves(s, messages, now);
      FlushTextIsAnswerExactly(s);
      assert |Combined(s)| > |s.streamed|;
    }
  }

  /** While the delivered text is the streamed text, the last condition falls away. */
  lemma StreamingFlush(s: Session, messages: bool, now: int)
    requires Streaming(s)
    ensures var t := FlushedPartial(s, true, true, messages, now);
            Streaming(t) &&
            (Combined(t) == Combined(s) <==>
               Blank(s.pending) || (Strip(Combined(s), IsSpace) == Combined(s) && !TailRepeatsStream(s)))
  {
    FlushKeepsAnswerExactly(s, messages, now);
    assert Strip("", IsSpace) == "";
    assert s.pending != "" ==> |Combined(s)| > |s.delivered|;
  }

  // ---------------------------------------------------------------- growing snapshots and flushes

  datatype Event = Snapshot(delta: bool, text: string) | Flush(messages: bool, now: int)

  function Happen(s: Session, event: Event): Session {
    match event
    case Snapshot(delta, text) => Merged(s, delta, text)
    case Flush(messages, now) => FlushedPartial(s, true, true, messages, now)
  }

  function HappenAll(s: Session, events: seq<Event>): Session
    decreases |events|
  {
    if events == [] then s else HappenAll(Happen(s, events[0]), events[1..])
  }

  /** Each snapshot extends the one before and has no outer blanks; no flush finds a tail that
      begins with the streamed text. */
  ghost predicate Growing(s: Session, events: seq<Event>, latest: string)
    decreases |events|
  {
    events != [] ==>
      match events[0]
      case Snapshot(_, text) =>
        latest <= text && Strip(text, IsSpace) == text && Growing(Happen(s, events[0]), events[1..], text)
      case Flush(_, _) =>
        (Blank(s.pending) || !TailRepeatsStream(s)) && Growing(Happen(s, events[0]), events[1..], latest)
  }

  function Latest(events: seq<Event>, start: string): string {
    if events == [] then start
    else Latest(events[1..], if events[0].Snapshot? then events[0].text else start)
  }

  /** Either merge function appends what a longer snapshot adds. */
  lemma GrowingSnapshotActions(s: Session, text: string)
    requires Streaming(s) && Combined(s) <= text && text != Combined(s)
    ensures MergeDelta(s, text) == Append(text[|Combined(s)|..])
    ensures MergeIncremental(s, text) == Append(text[|Combined(s)|..])
  {
    var combined := Combined(s);
    assert |s.pending| <= |combined| < |text| && |s.delivered| <= |combined|;
    if combined == "" {
      assert s.pending == "" && s.streamed == "";
      assert text[0..] == text;
    }
  }

  /** A snapshot that extends the answer becomes the answer. */
  lemma GrowingSnapshotMerges(s: Session, delta: bool, text: string)
    requires Streaming(s) && Combined(s) <= text
    ensures Streaming(Merged(s, delta, text)) && Combined(Merged(s, delta, text)) == text
  {
    var combined := Combined(s);
    if text == combined {
      assert Merged(s, delta, text) == s;
    } else {
      GrowingSnapshotActions(s, text);
      Associate(s.streamed, s.pending, text[|combined|..]);
      assert text == combined + text[|combined|..];
    }
  }

  /** For growing snapshots, handled by either merge function and interleaved with successful
      partial flushes, streamed and pending text together are always the latest snapshot. */
  lemma {:induction false} GrowingSnapshotsSurviveFlushes(s: Session, events: seq<Event>, latest: string)
    requires Streaming(s) && Combined(s) == latest && Strip(latest, IsSpace) == latest && Growing(s, events, latest)
    ensures Streaming(HappenAll(s, events)) && Combined(HappenAll(s, events)) == Latest(events, latest)
    ensures Strip(Latest(events, latest), IsSpace) == Latest(events, latest)
    decreases |events|
  {
    if events != [] {
      match events[0] {
        case Snapshot(delta, text) =>
          GrowingSnapshotMerges(s, delta, text);
          GrowingSnapshotsSurviveFlushes(Happen(s, events[0]), events[1..], text);
        case Flush(messages, now) =>
          StreamingFlush(s, messages, now);
          GrowingSnapshotsSurviveFlushes(Happen(s, events[0]), events[1..], latest);
      }
    }
  }

  /** The first beginning is merged and shown ... */
  lemma BeginningIsShown(s: Session, messages: bool, now: int)
    requires s.attached && s.phase == NoPhase && s.pending == "" && s.streamed == "" && s.delivered == ""
    ensures var t := Happen(Happen(s, Snapshot(true, "ha")), Flush(messages, now));
            Streaming(t) && t.streamed == "ha" && t.pending == ""
  {
    LongerPrefixAppended(s, true, "ha");
    assert Strip("ha", IsSpace) == "ha" by { StripOfTrimmed("ha", IsSpace); }
  }

  /** ... the second one is merged ... */
  lemma RepetitionIsMerged(s: Session)
    requires Streaming(s) && s.streamed == "ha" && s.pending == ""
    ensures Happen(s, Snapshot(true, "haha")) == s.(pending := "ha")
  {
    assert Combined(s) == "ha" && "haha"[..2] == "ha" && "haha"[2..] == "ha";
    GrowingSnapshotActions(s, "haha");
  }

  /** ... but not shown. */
  lemma RepetitionIsDropped(s: Session, messages: bool, now: int)
    requires Streaming(s) && s.streamed == "ha" && s.pending == "ha"
    ensures Combined(Happen(s, Flush(messages, now))) == "ha"
  {
    assert Strip("ha", IsSpace) == "ha" by { StripOfTrimmed("ha", IsSpace); }
    FlushLeaves(s, messages, now);
  }

  lemma FirstHappens(s: Session, event: Event, later: seq<Event>)
    ensures HappenAll(s, [event] + later) == HappenAll(Happen(s, event), later)
  {
    assert ([event] + later)[1..] == later;
  }

  /** So a repeated beginning is lost: a session that has said nothing yet receives `ha`, flushes,
      receives the longer snapshot `haha`, and flushes again; only `ha` is left. */
  lemma RepeatedBeginningIsLost(s: Session, messages: bool, now: int)
    requires s.attached && s.phase == NoPhase && s.pending == "" && s.streamed == "" && s.delivered == ""
    ensures var events := [Snapshot(true, "ha"), Flush(messages, now), Snapshot(true, "haha"), Flush(messages, now)];
            Combined(HappenAll(s, events)) == "ha"
  {
    var a, b, c := Snapshot(true, "ha"), Flush(messages, now), Snapshot(true, "haha");
    BeginningIsShown(s, messages, now);
    var shown := Happen(Happen(s, a), b);
    RepetitionIsMerged(shown);
    RepetitionIsDropped(Happen(shown, c), messages, now);
    FirstHappens(s, a, [b] + ([c] + ([b] + [])));
    FirstHappens(Happen(s, a), b, [c] + ([b] + []));
    FirstHappens(shown, c, [b] + []);
    FirstHappens(Happen(shown, c), b, []);
    assert [a, b, c, b] == [a] + ([b] + ([c] + ([b] + [])));
  }

  /** Another one: `ha` was shown and delivered, then a completed message put it into the waiting
      text again; the next flush takes it for shown and leaves nothing. */
  lemma RedeliveredAnswerIsLost(s: Session, messages: bool, now: int)
    requires s.attached && s.phase == Answer && s.delivered == "ha" && s.streamed == "" && s.pending == "ha"
    ensures Combined(s) == "ha" && Combined(FlushedPartial(s, true, true, messages, now)) == ""
  {
    assert Strip("ha", IsSpace) == "ha" by { StripOfTrimmed("ha", IsSpace); }
    FlushLeaves(s, messages, now);
  }
}
