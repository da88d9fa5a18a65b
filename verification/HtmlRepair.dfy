/** `repair_partial_telegram_html`: half-streamed HTML made well nested. */
module HtmlRepair {
  import opened Trim
  import opened Markup

  const ALLOWED_TAG_NAMES: set<string> := {
    "b", "strong", "i", "em", "u", "ins", "s", "strike", "del", "code", "pre", "a", "blockquote",
    "tg-spoiler", "tg-emoji", "tg-time"
  }

  const SELF_CLOSING_NAMES: set<string> := {"tg-emoji", "tg-time"}

  /** `html.escape(text, quote=False)`. */
  function Escape(s: string): string {
    if s == "" then ""
    else (match s[0] case '&' => "&amp;" case '<' => "&lt;" case '>' => "&gt;" case c => [c]) + Escape(s[1..])
  }

  /** The stack below the innermost `name`. */
  function Below(stack: seq<string>, name: string): (r: seq<string>)
    requires name in stack
    ensures |r| < |stack| && r == stack[..|r|] && stack[|r|] == name
  {
    if stack[|stack| - 1] == name then stack[..|stack| - 1] else Below(stack[..|stack| - 1], name)
  }

  /** The loop over the tokens, with the names that are open, and the closers at the end. */
  function RepairFrom(s: Text, stack: seq<string>): Text {
    if s == [] then Closers(stack)
    else
      var (piece, next) := RepairSym(s[0], stack);
      piece + RepairFrom(s[1..], next)
  }

  function RepairSym(s: Sym, stack: seq<string>): (Text, seq<string>) {
    match s
    case Ch(_) => ([s], stack)
    case Mark(tag) =>
      if tag.name !in ALLOWED_TAG_NAMES then (Chars(Escape(tag.raw)), stack)
      else if tag.Close? then
        if tag.name !in stack then ([], stack)
        else (Closers(stack[|Below(stack, tag.name)|..]), Below(stack, tag.name))
      else ([s], if tag.Open? && tag.name !in SELF_CLOSING_NAMES then stack + [tag.name] else stack)
  }

  /** `re.sub(r"<[^>\n]*$", "", text)`: a tag that has begun but not ended yet is dropped. */
  function DropPartialTag(s: Text): Text {
    if s == [] then [] else if s[0] == Ch('<') && Unfinished(s[1..]) then [] else [s[0]] + DropPartialTag(s[1..])
  }

  predicate Unfinished(s: Text) {
    forall x | x in s :: x.Ch? && x.c != '>' && x.c != '\n'
  }

  /** `replace("\r\n", "\n")`, in a string ... */
  function UnixString(s: string): string {
    if s == "" then ""
    else if |s| >= 2 && s[0] == '\r' && s[1] == '\n' then ['\n'] + UnixString(s[2..])
    else [s[0]] + UnixString(s[1..])
  }

  /** ... and in a text, inside its tags too. */
  function Unix(s: Text): Text {
    if s == [] then []
    else if |s| >= 2 && s[0] == Ch('\r') && s[1] == Ch('\n') then [Ch('\n')] + Unix(s[2..])
    else [UnixSym(s[0])] + Unix(s[1..])
  }

  function UnixSym(x: Sym): Sym {
    match x
    case Ch(_) => x
    case Mark(tag) => Mark(tag.(raw := UnixString(tag.raw)))
  }

  function Repaired(text: Text): Text {
    RepairFrom(DropPartialTag(Strip(Unix(text), IsBlank)), [])
  }

  // ---------------------------------------------------------------- the imperative form

  method Repair(text: Text) returns (repaired: Text)
    ensures repaired == Repaired(text)
    ensures Clean(repaired)
  {
    RepairedIsClean(text);
    var normalized := Strip(Unix(text), IsBlank);
    if normalized == [] {
      return [];
    }
    normalized := DropPartialTag(normalized);
    var tokens := Tokenize(normalized);
    FlattenTokenize(normalized);
    var pieces: Text, stack: seq<string> := [], [];
    var i := 0;
    while i < |tokens|
      invariant 0 <= i <= |tokens|
      invariant pieces + RepairFrom(Flatten(tokens[i..]), stack) == Repaired(text)
    {
      RepairToken(tokens[i..], stack, pieces);
      assert tokens[i..][1..] == tokens[i + 1..];
      match tokens[i] {
        case Plain(s) => pieces := pieces + Chars(s);
        case Bracket(tag) =>
          var piece;
          piece, stack := RepairTag(tag, stack);
          pieces := pieces + piece;
      }
      i := i + 1;
    }
    var rest := PopAll(stack);
    repaired := pieces + rest;
  }

  /** The body of the loop for one bracketed token: what is appended, and the stack afterwards. */
  method RepairTag(tag: Tag, stack: seq<string>) returns (piece: Text, next: seq<string>)
    ensures (piece, next) == RepairSym(Mark(tag), stack)
  {
    piece, next := [], stack;
    if tag.name !in ALLOWED_TAG_NAMES {
      return Chars(Escape(tag.raw)), stack;
    }
    if tag.Close? {
      if tag.name in stack {
        piece, next := PopThrough(stack, tag.name);
      }
      return;
    }
    piece := [Mark(tag)];
    if tag.Open? && tag.name !in SELF_CLOSING_NAMES {
      next := stack + [tag.name];
    }
  }

  /** `while stack: ... if open_tag == tag_name: break`. */
  method PopThrough(stack: seq<string>, name: string) returns (closers: Text, rest: seq<string>)
    requires name in stack
    ensures rest == Below(stack, name) && closers == Closers(stack[|rest|..])
  {
    closers, rest := [], stack;
    while rest != []
      invariant name in rest && rest == stack[..|rest|] && Below(rest, name) == Below(stack, name)
      invariant closers == Closers(stack[|rest|..])
      decreases |rest|
    {
      var openTag := rest[|rest| - 1];
      ClosersPrepend(stack, |rest| - 1);
      closers := closers + [Closer(openTag)];
      rest := rest[..|rest| - 1];
      if openTag == name {
        break;
      }
    }
  }

  /** `while stack: pieces.append(...)`. */
  method PopAll(stack: seq<string>) returns (closers: Text)
    ensures closers == Closers(stack)
  {
    closers := [];
    var rest := stack;
    while rest != []
      invariant rest == stack[..|rest|] && closers == Closers(stack[|rest|..])
      decreases |rest|
    {
      ClosersPrepend(stack, |rest| - 1);
      closers := closers + [Closer(rest[|rest| - 1])];
      rest := rest[..|rest| - 1];
    }
    assert stack[0..] == stack;
  }

  /** Popping one more name appends its closer. */
  lemma ClosersPrepend(stack: seq<string>, k: nat)
    requires k < |stack|
    ensures Closers(stack[k..]) == Closers(stack[k + 1..]) + [Closer(stack[k])]
  {
    ClosersSnoc(stack[k], stack[k + 1..]);
    assert [stack[k]] + stack[k + 1..] == stack[k..];
  }

  lemma ClosersSnoc(name: string, stack: seq<string>)
    ensures Closers([name] + stack) == Closers(stack) + [Closer(name)]
  {
    if stack != [] {
      var last := |stack| - 1;
      assert ([name] + stack)[..|stack|] == [name] + stack[..last];
      ClosersSnoc(name, stack[..last]);
    }
  }

  lemma {:induction false} RepairChars(run: string, s: Text, stack: seq<string>)
    ensures RepairFrom(Chars(run) + s, stack) == Chars(run) + RepairFrom(s, stack)
  {
    if run == "" {
      assert Chars(run) + s == s;
    } else {
      var x, rest := Ch(run[0]), Chars(run[1..]);
      assert Chars(run) == [x] + rest;
      Associate([x], rest, s);
      RepairCons(x, rest + s, stack);
      RepairChars(run[1..], s, stack);
      Associate([x], rest, RepairFrom(s, stack));
    }
  }

  /** What one token contributes to the output. */
  lemma RepairToken(tokens: seq<Token>, stack: seq<string>, pieces: Text)
    requires tokens != []
    ensures tokens[0].Plain? ==>
              pieces + RepairFrom(Flatten(tokens), stack) ==
              pieces + Chars(tokens[0].s) + RepairFrom(Flatten(tokens[1..]), stack)
    ensures tokens[0].Bracket? ==>
              pieces + RepairFrom(Flatten(tokens), stack) ==
              pieces + RepairSym(Mark(tokens[0].tag), stack).0 +
              RepairFrom(Flatten(tokens[1..]), RepairSym(Mark(tokens[0].tag), stack).1)
  {
    var rest := Flatten(tokens[1..]);
    match tokens[0]
    case Plain(s) =>
      RepairChars(s, rest, stack);
      Associate(pieces, Chars(s), RepairFrom(rest, stack));
    case Bracket(tag) =>
      RepairCons(Mark(tag), rest, stack);
      Associate(pieces, RepairSym(Mark(tag), stack).0, RepairFrom(rest, RepairSym(Mark(tag), stack).1));
  }

  lemma RepairCons(x: Sym, s: Text, stack: seq<string>)
    ensures RepairFrom([x] + s, stack) == RepairSym(x, stack).0 + RepairFrom(s, RepairSym(x, stack).1)
  {
    assert ([x] + s)[1..] == s;
  }

  // ---------------------------------------------------------------- what repairing achieves

  /** Only allowed tags, canonical closers, every closer closing the innermost open element, and
      in the end nothing open. */
  ghost predicate CleanFrom(s: Text, stack: seq<string>) {
    if s == [] then stack == []
    else match s[0]
      case Ch(_) => CleanFrom(s[1..], stack)
      case Mark(Open(name, _)) =>
        name in ALLOWED_TAG_NAMES && CleanFrom(s[1..], if name in SELF_CLOSING_NAMES then stack else stack + [name])
      case Mark(Void(name, _)) => name in ALLOWED_TAG_NAMES && CleanFrom(s[1..], stack)
      case Mark(Close(_, _)) =>
        stack != [] && s[0] == Closer(stack[|stack| - 1]) && CleanFrom(s[1..], stack[..|stack| - 1])
  }

  ghost predicate Clean(s: Text) {
    CleanFrom(s, [])
  }

  /** The names the repairer pushes. */
  ghost predicate Pushed(stack: seq<string>) {
    forall n | n in stack :: n in ALLOWED_TAG_NAMES && n !in SELF_CLOSING_NAMES
  }

  lemma CleanClosers(part: seq<string>, below: seq<string>, s: Text)
    requires CleanFrom(s, below)
    ensures CleanFrom(Closers(part) + s, below + part)
  {
    if part == [] {
      assert Closers(part) + s == s && below + part == below;
    } else {
      var last := |part| - 1;
      CleanClosers(part[..last], below, s);
      assert Closers(part) + s == [Closer(part[last])] + (Closers(part[..last]) + s);
      assert (below + part)[..|below| + last] == below + part[..last];
    }
  }

  lemma CleanChars(run: string, s: Text, stack: seq<string>)
    requires CleanFrom(s, stack)
    ensures CleanFrom(Chars(run) + s, stack)
  {
    if run == "" {
      assert Chars(run) + s == s;
    } else {
      CleanChars(run[1..], s, stack);
      assert Chars(run) + s == [Ch(run[0])] + (Chars(run[1..]) + s);
    }
  }

  /** For every input the output is clean. */
  lemma {:induction false} RepairFromIsClean(s: Text, stack: seq<string>)
    requires Pushed(stack)
    ensures CleanFrom(RepairFrom(s, stack), stack)
  {
    if s == [] {
      CleanClosers(stack, [], []);
      assert Closers(stack) + [] == Closers(stack) && [] + stack == stack;
    } else {
      var (piece, next) := RepairSym(s[0], stack);
      var rest := RepairFrom(s[1..], next);
      RepairFromIsClean(s[1..], next);
      if piece == [s[0]] {
        assert (piece + rest)[1..] == rest;
      } else if s[0].tag.name !in ALLOWED_TAG_NAMES {
        CleanChars(Escape(s[0].tag.raw), rest, stack);
      } else if s[0].tag.name in stack {
        CleanClosers(stack[|next|..], next, rest);
        assert next + stack[|next|..] == stack;
      } else {
        assert piece + rest == rest;
      }
    }
  }

  lemma RepairedIsClean(text: Text)
    ensures Clean(Repaired(text))
  {
    RepairFromIsClean(DropPartialTag(Strip(Unix(text), IsBlank)), []);
  }

  lemma CleanStep(s: Text, stack: seq<string>)
    requires s != [] && Pushed(stack) && CleanFrom(s, stack)
    ensures var (piece, next) := RepairSym(s[0], stack);
            piece == [s[0]] && Pushed(next) && CleanFrom(s[1..], next)
  {
    if s[0].Mark? && s[0].tag.Close? {
      var last := |stack| - 1;
      assert Below(stack, stack[last]) == stack[..last];
      assert stack[last..] == [stack[last]] && Closers([stack[last]]) == [s[0]];
    }
  }

  /** Clean input is left alone. */
  lemma {:induction false} CleanIsFixed(s: Text, stack: seq<string>)
    requires Pushed(stack) && CleanFrom(s, stack)
    ensures RepairFrom(s, stack) == s
  {
    if s != [] {
      CleanStep(s, stack);
      CleanIsFixed(s[1..], RepairSym(s[0], stack).1);
      assert s == [s[0]] + s[1..];
    }
  }

  /** At token level the repairer changes nothing exactly on clean input; so it is idempotent. */
  lemma FixedExactlyWhenClean(s: Text)
    ensures RepairFrom(s, []) == s <==> Clean(s)
    ensures RepairFrom(RepairFrom(s, []), []) == RepairFrom(s, [])
  {
    RepairFromIsClean(s, []);
    CleanIsFixed(RepairFrom(s, []), []);
    if Clean(s) { CleanIsFixed(s, []); }
  }

  /** What must survive repairing: all characters, all allowed opening and void tags, and
      forbidden tags as text. */
  function Kept(s: Text): Text {
    if s == [] then [] else KeptSym(s[0]) + Kept(s[1..])
  }

  function KeptSym(s: Sym): Text {
    match s
    case Ch(_) => [s]
    case Mark(tag) =>
      if tag.name !in ALLOWED_TAG_NAMES then Chars(Escape(tag.raw))
      else if tag.Close? then []
      else [s]
  }

  lemma KeptConcat(s: Text, t: Text)
    ensures Kept(s + t) == Kept(s) + Kept(t)
  {
    if s == [] {
      assert s + t == t;
    } else {
      assert (s + t)[1..] == s[1..] + t;
      KeptConcat(s[1..], t);
    }
  }

  lemma KeptChars(run: string)
    ensures Kept(Chars(run)) == Chars(run)
  {
    if run != "" {
      assert Chars(run)[1..] == Chars(run[1..]);
      KeptChars(run[1..]);
    }
  }

  lemma KeptClosers(stack: seq<string>)
    requires Pushed(stack)
    ensures Kept(Closers(stack)) == []
  {
    if stack != [] {
      KeptClosers(stack[..|stack| - 1]);
      assert Closers(stack)[1..] == Closers(stack[..|stack| - 1]);
    }
  }

  /** Repairing keeps all text and all allowed opening tags, in order. */
  lemma {:induction false} RepairKeeps(s: Text, stack: seq<string>)
    requires Pushed(stack)
    ensures Kept(RepairFrom(s, stack)) == Kept(s)
  {
    if s == [] {
      KeptClosers(stack);
    } else {
      var (piece, next) := RepairSym(s[0], stack);
      RepairKeeps(s[1..], next);
      KeptConcat(piece, RepairFrom(s[1..], next));
      assert Kept([s[0]]) == KeptSym(s[0]);
      if s[0].Mark? && s[0].tag.name !in ALLOWED_TAG_NAMES {
        KeptChars(Escape(s[0].tag.raw));
      } else if s[0].Mark? && s[0].tag.Close? && s[0].tag.name in stack {
        KeptClosers(stack[|next|..]);
      }
    }
  }

  /** What a reader of escaped text sees: the three entities stand for their characters. */
  function Unescape(s: string): string {
    if s == "" then ""
    else if "&amp;" <= s then "&" + Unescape(s[5..])
    else if "&lt;" <= s then "<" + Unescape(s[4..])
    else if "&gt;" <= s then ">" + Unescape(s[4..])
    else [s[0]] + Unescape(s[1..])
  }

  lemma UnescapeFirst(c: char, rest: string)
    ensures Unescape(Escape([c]) + rest) == [c] + Unescape(rest)
  {
    var e := Escape([c]);
    assert [c][1..] == "" && (e + rest)[|e|..] == rest;
    match c {
      case '&' => assert e == "&amp;" && e <= e + rest;
      case '<' => assert e == "&lt;" && (e + rest)[1] == 'l' && e <= e + rest;
      case '>' => assert e == "&gt;" && (e + rest)[1] == 'g' && e <= e + rest;
      case _ => assert e == [c] && (e + rest)[0] == c;
    }
  }

  lemma EscapeFirst(s: string)
    requires s != ""
    ensures Escape(s) == Escape([s[0]]) + Escape(s[1..])
  {
    assert [s[0]][1..] == "";
  }

  /** A forbidden tag is shown as it was written, and Telegram finds no tag in it. */
  lemma EscapeShowsText(s: string)
    ensures Unescape(Escape(s)) == s && '<' !in Escape(s) && '>' !in Escape(s)
  {
    if s != "" {
      EscapeFirst(s);
      EscapeShowsText(s[1..]);
      UnescapeFirst(s[0], Escape(s[1..]));
      EscapedChar(s[0]);
      assert s == [s[0]] + s[1..];
    }
  }

  lemma EscapedChar(c: char)
    ensures '<' !in Escape([c]) && '>' !in Escape([c])
  {
    assert [c][1..] == "";
  }

  // ---------------------------------------------------------------- where the kept text stands

  /** The names open after a symbol, for a reader to whom a closing tag closes everything down to the
      innermost element of its name, and nothing if there is none. */
  function Through(stack: seq<string>, x: Sym): seq<string> {
    if x.Ch? || x.tag.name !in ALLOWED_TAG_NAMES then stack
    else match x.tag
      case Open(name, _) => if name in SELF_CLOSING_NAMES then stack else stack + [name]
      case Close(name, _) => if name in stack then Below(stack, name) else stack
      case Void(_, _) => stack
  }

  function Inside(s: Text, stack: seq<string>): seq<(Sym, seq<string>)> {
    seq(|s|, i requires 0 <= i < |s| => (s[i], stack))
  }

  /** Everything that must survive, each with the names of the elements it stands in. */
  function Placed(s: Text, stack: seq<string>): seq<(Sym, seq<string>)> {
    if s == [] then [] else Inside(KeptSym(s[0]), stack) + Placed(s[1..], Through(stack, s[0]))
  }

  lemma PlacedCons(x: Sym, s: Text, stack: seq<string>)
    ensures Placed([x] + s, stack) == Inside(KeptSym(x), stack) + Placed(s, Through(stack, x))
  {
    assert ([x] + s)[1..] == s;
  }

  lemma {:induction false} PlacedChars(run: string, s: Text, stack: seq<string>)
    ensures Placed(Chars(run) + s, stack) == Inside(Chars(run), stack) + Placed(s, stack)
  {
    if run == "" {
      assert Chars(run) + s == s;
    } else {
      var rest := Chars(run[1..]);
      assert Chars(run) == [Ch(run[0])] + rest;
      assert Chars(run) + s == [Ch(run[0])] + (rest + s);
      PlacedCons(Ch(run[0]), rest + s, stack);
      PlacedChars(run[1..], s, stack);
      assert Inside(Chars(run), stack) == Inside([Ch(run[0])], stack) + Inside(rest, stack);
      Associate(Inside([Ch(run[0])], stack), Inside(rest, stack), Placed(s, stack));
    }
  }

  /** The closers of the upper part of a stack keep nothing and close that part. */
  lemma {:induction false} PlacedClosers(below: seq<string>, part: seq<string>, s: Text)
    requires Pushed(part)
    ensures Placed(Closers(part) + s, below + part) == Placed(s, below)
  {
    if part == [] {
      assert Closers(part) + s == s && below + part == below;
    } else {
      var last, outer := part[|part| - 1], part[..|part| - 1];
      assert Closers(part) + s == [Closer(last)] + (Closers(outer) + s);
      PlacedCons(Closer(last), Closers(outer) + s, below + part);
      assert last in part && (below + part)[|below + part| - 1] == last;
      assert (below + part)[..|below + part| - 1] == below + outer;
      assert Inside(KeptSym(Closer(last)), below + part) == [];
      PlacedClosers(below, outer, s);
    }
  }

  lemma PassedThrough(x: Sym, stack: seq<string>)
    ensures RepairSym(x, stack).1 == Through(stack, x)
  {
  }

  lemma ClosedPlaced(name: string, rest: Text, stack: seq<string>)
    requires Pushed(stack) && name in stack
    ensures Placed(Closers(stack[|Below(stack, name)|..]) + rest, stack) == Placed(rest, Below(stack, name))
  {
    var next := Below(stack, name);
    assert next + stack[|next|..] == stack;
    PlacedClosers(next, stack[|next|..], rest);
  }

  /** What one symbol becomes stands where the symbol stood. */
  lemma PiecePlaced(x: Sym, rest: Text, stack: seq<string>)
    requires Pushed(stack)
    ensures Placed(RepairSym(x, stack).0 + rest, stack) == Inside(KeptSym(x), stack) + Placed(rest, Through(stack, x))
  {
    if x.Ch? {
      PlacedCons(x, rest, stack);
    } else if x.tag.name !in ALLOWED_TAG_NAMES {
      PlacedChars(Escape(x.tag.raw), rest, stack);
    } else if !x.tag.Close? {
      PlacedCons(x, rest, stack);
    } else if x.tag.name in stack {
      ClosedPlaced(x.tag.name, rest, stack);
      assert Inside([], stack) + Placed(rest, Through(stack, x)) == Placed(rest, Through(stack, x));
    } else {
      assert [] + rest == rest;
      assert Inside([], stack) + Placed(rest, stack) == Placed(rest, stack);
    }
  }

  /** Repairing leaves every kept character and tag inside the elements in which a reader, to whom a
      closing tag closes through, found it; a closing tag that closes nothing is dropped. */
  lemma {:induction false} RepairKeepsPlaces(s: Text, stack: seq<string>)
    requires Pushed(stack)
    ensures Placed(RepairFrom(s, stack), stack) == Placed(s, stack)
  {
    if s == [] {
      PlacedClosers([], stack, []);
      assert Closers(stack) + [] == Closers(stack) && [] + stack == stack;
    } else {
      var (piece, next) := RepairSym(s[0], stack);
      PassedThrough(s[0], stack);
      PiecePlaced(s[0], RepairFrom(s[1..], next), stack);
      StaysPushed(s[0], stack);
      RepairKeepsPlaces(s[1..], next);
    }
  }

  lemma StaysPushed(x: Sym, stack: seq<string>)
    requires Pushed(stack)
    ensures Pushed(Through(stack, x))
  {
  }

  // ---------------------------------------------------------------- clean markup and well-nested markup

  predicate IsVoidOpening(x: Sym) {
    x.Mark? && x.tag.Open? && x.tag.name in SELF_CLOSING_NAMES
  }

  function DropVoids(s: Text): Text {
    if s == [] then [] else (if IsVoidOpening(s[0]) then [] else [s[0]]) + DropVoids(s[1..])
  }

  /** An allowed tag; a closing tag must also be written canonically. */
  predicate Lawful(x: Sym) {
    x.Ch? || (x.tag.name in ALLOWED_TAG_NAMES && (x.tag.Close? ==> x.tag == ClosingTag(x.tag.name)))
  }

  ghost predicate AllLawful(s: Text) {
    forall x | x in s :: Lawful(x)
  }

  /** Clean markup is exactly markup of lawful tags that, void elements aside, is well nested. */
  lemma CleanMeansWellNested(s: Text)
    ensures Clean(s) <==> AllLawful(s) && WellNested(DropVoids(s))
  {
    assert Names([]) == [];
    CleanFromMeansNested(s, []);
  }

  lemma {:induction false} CleanFromMeansNested(s: Text, open: seq<Frame>)
    requires Pushed(Names(open))
    ensures CleanFrom(s, Names(open)) <==>
            AllLawful(s) && Nested(DropVoids(s), open) && After(DropVoids(s), open) == []
  {
    if s != [] {
      var x := s[0];
      assert s == [x] + s[1..];
      assert AllLawful(s) <==> Lawful(x) && AllLawful(s[1..]);
      assert IsVoidOpening(x) ==> DropVoids(s) == DropVoids(s[1..]);
      assert !IsVoidOpening(x) ==> DropVoids(s)[0] == x && DropVoids(s)[1..] == DropVoids(s[1..]);
      if x.Mark? && x.tag.Open? && x.tag.name in ALLOWED_TAG_NAMES && !IsVoidOpening(x) {
        var more := open + [Frame(x.tag.name, x.tag.raw)];
        assert Names(more) == Names(open) + [x.tag.name];
        CleanFromMeansNested(s[1..], more);
      } else if x.Mark? && x.tag.Close? {
        if open != [] && open[|open| - 1].name == x.tag.name {
          assert Names(open)[..|open| - 1] == Names(open[..|open| - 1]);
          assert x.tag.name in Names(open) by { assert Names(open)[|open| - 1] == x.tag.name; }
          CleanFromMeansNested(s[1..], open[..|open| - 1]);
        }
      } else {
        CleanFromMeansNested(s[1..], open);
      }
    }
  }
}
