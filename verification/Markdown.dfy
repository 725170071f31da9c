/** The help renderer `RenderMarkdown`: a line-driven loop, proved equal to a reading of the source as
    a list of blocks, whose HTML uses only the fixed tag set. */
module Markdown {
  import opened Common
  import opened Html

  // ---------------------------------------------------------------------
  // Lines

  /** `unicode.IsSpace`. */
  predicate IsSpace(c: char) {
    || '\t' <= c <= '\r' || c == ' ' || c == '\U{85}' || c == '\U{A0}' || c == '\U{1680}'
    || '\U{2000}' <= c <= '\U{200A}' || c == '\U{2028}' || c == '\U{2029}' || c == '\U{202F}'
    || c == '\U{205F}' || c == '\U{3000}'
  }

  function TrimLeft(s: string): (t: string) {
    if s != "" && IsSpace(s[0]) then TrimLeft(s[1..]) else s
  }

  function TrimRight(s: string): (t: string) {
    if s != "" && IsSpace(s[|s| - 1]) then TrimRight(s[..|s| - 1]) else s
  }

  /** `strings.TrimSpace`. */
  function Trim(s: string): (t: string) {
    TrimRight(TrimLeft(s))
  }

  /** `strings.Split(s, "\n")`. */
  function Lines(s: string): (ls: seq<string>)
    ensures ls != []
  {
    if s == "" then [""]
    else if s[0] == '\n' then [""] + Lines(s[1..])
    else
      var rest := Lines(s[1..]);
      [[s[0]] + rest[0]] + rest[1..]
  }

  /** `strings.Join(ls, "\n")`. */
  function Join(ls: seq<string>): (s: string) {
    if ls == [] then "" else if |ls| == 1 then ls[0] else ls[0] + "\n" + Join(ls[1..])
  }

  lemma {:induction false} JoinMore(a: string, ls: seq<string>)
    requires ls != []
    ensures Join([a] + ls) == a + "\n" + Join(ls)
  {
    assert ([a] + ls)[1..] == ls;
  }

  lemma {:induction false} JoinPush(c: char, ls: seq<string>)
    requires ls != []
    ensures Join([[c] + ls[0]] + ls[1..]) == [c] + Join(ls)
  {
    if |ls| == 1 {
      assert [[c] + ls[0]] + ls[1..] == [[c] + ls[0]];
    } else {
      JoinMore([c] + ls[0], ls[1..]);
      assert [c] + ls[0] + "\n" + Join(ls[1..]) == [c] + (ls[0] + "\n" + Join(ls[1..]));
    }
  }

  lemma {:induction false} JoinLines(s: string)
    ensures Join(Lines(s)) == s
  {
    if s != "" {
      JoinLines(s[1..]);
      var rest := Lines(s[1..]);
      if s[0] == '\n' {
        JoinMore("", rest);
        assert s == "" + "\n" + s[1..];
      } else {
        JoinPush(s[0], rest);
        assert s == [s[0]] + s[1..];
      }
    }
  }

  function Digits(s: string): (n: nat)
    ensures n <= |s|
  {
    if s != "" && '0' <= s[0] <= '9' then 1 + Digits(s[1..]) else 0
  }

  datatype ListKind = Bullets | Numbers

  /** What a line outside a code fence is, once trimmed. The patterns need text after their marker. */
  datatype Kind = FenceMark | Blank | HeadingLine(text: string) | ItemLine(list: ListKind, text: string)
                | Paragraph(text: string)

  function Classify(line: string): (k: Kind) {
    var t := Trim(line);
    if StartsWith(t, "```") then FenceMark
    else if t == "" then Blank
    else if StartsWith(t, "### ") && |t| > 4 then HeadingLine(Trim(t[4..]))
    else if StartsWith(t, "- ") && |t| > 2 then ItemLine(Bullets, t[2..])
    else
      var n := Digits(t);
      if n > 0 && StartsWith(t[n..], ". ") && |t| > n + 2 then ItemLine(Numbers, t[n + 2..])
      else Paragraph(t)
  }

  /** A source line and what it is. */
  datatype Line = Line(text: string, kind: Kind)

  function Read(ls: seq<string>): (lines: seq<Line>)
    ensures |lines| == |ls|
    ensures forall i :: 0 <= i < |ls| ==> lines[i] == Line(ls[i], Classify(ls[i]))
  {
    seq(|ls|, i requires 0 <= i < |ls| => Line(ls[i], Classify(ls[i])))
  }

  function Texts(lines: seq<Line>): (ls: seq<string>)
    ensures |ls| == |lines|
    ensures forall i :: 0 <= i < |lines| ==> ls[i] == lines[i].text
  {
    seq(|lines|, i requires 0 <= i < |lines| => lines[i].text)
  }

  // ---------------------------------------------------------------------
  // Blocks

  datatype Block =
    | Heading(text: string)
    | Para(text: string)
    | ListBlock(kind: ListKind, items: seq<string>)
    | Fence(lines: seq<string>)

  /** The number of lines before the next fence mark. */
  function FenceEnd(ls: seq<Line>): (n: nat)
    ensures n <= |ls|
  {
    if ls == [] || ls[0].kind.FenceMark? then 0 else 1 + FenceEnd(ls[1..])
  }

  /** The items of one kind that the lines start with. */
  function Items(kind: ListKind, ls: seq<Line>): (items: seq<string>)
    ensures |items| <= |ls|
  {
    if ls != [] && ls[0].kind.ItemLine? && ls[0].kind.list == kind
    then [ls[0].kind.text] + Items(kind, ls[1..]) else []
  }

  /** The lines as blocks: a fence runs to the next mark or the end, a list is a run of items of one kind. */
  function Blocks(ls: seq<Line>): (bs: seq<Block>)
    decreases |ls|
  {
    if ls == [] then [] else
      match ls[0].kind
      case FenceMark => [Fence(Texts(ls[1..][..FenceEnd(ls[1..])]))] + Blocks(AfterFence(ls[1..]))
      case Blank => Blocks(ls[1..])
      case HeadingLine(text) => [Heading(text)] + Blocks(ls[1..])
      case Paragraph(text) => [Para(text)] + Blocks(ls[1..])
      case ItemLine(kind, text) =>
        [ListBlock(kind, [text] + Items(kind, ls[1..]))] + Blocks(ls[1..][|Items(kind, ls[1..])|..])
  }

  /** The lines after the closing fence mark, if there is one. */
  function AfterFence(ls: seq<Line>): (rest: seq<Line>)
    ensures |rest| <= |ls|
  {
    if FenceEnd(ls) == |ls| then [] else ls[FenceEnd(ls) + 1..]
  }

  function ListTag(k: ListKind): (t: Tag) {
    if k == Bullets then Ul else Ol
  }

  function ItemsHtml(items: seq<string>): (s: string) {
    if items == [] then "" else Element(Li, Inline(items[0]), ItemsHtml(items[1..]))
  }

  /** One block, followed by the rest of the page. */
  function BlockHtml(b: Block, rest: string): (s: string) {
    match b
    case Heading(text) => Element(H3, Escape(text), rest)
    case Para(text) => Element(P, Inline(text), rest)
    case ListBlock(kind, items) => Element(ListTag(kind), ItemsHtml(items), rest)
    case Fence(lines) => Element(Pre, Element(Code, Escape(Join(lines)), ""), rest)
  }

  function PageHtml(bs: seq<Block>): (s: string) {
    if bs == [] then "" else BlockHtml(bs[0], PageHtml(bs[1..]))
  }

  function Render(md: string): (s: string) {
    PageHtml(Blocks(Read(Lines(md))))
  }

  // ---------------------------------------------------------------------
  // Only the fixed tags

  /** Each tag is closed as often as it is opened, block tags are nested, and each inline tag alternates
      inside its own block. */
  ghost predicate PageOk(ts: seq<Token>) {
    && Safe(ts) && Alternates(ts, Strong) && Alternates(ts, Code)
    && (forall tag :: Net(ts, tag) == 0)
    && Nest(ts, []) == Some([])
  }

  /** Tokens that leave every stack as they found it, safe and balanced. */
  ghost predicate Closed(ts: seq<Token>) {
    && Safe(ts) && Alternates(ts, Strong) && Alternates(ts, Code)
    && (forall tag :: Net(ts, tag) == 0)
    && (forall stack :: Nest(ts, stack) == Some(stack))
  }

  lemma {:induction false} InlineClosed(ts: seq<Token>)
    requires InlineOk(ts)
    ensures Closed(ts)
  {
    forall stack ensures Nest(ts, stack) == Some(stack) {
      NestInline(ts, stack);
    }
  }

  lemma {:induction false} EscapedClosed(s: string)
    ensures Closed(Chars(Escape(s))) && Spell(Chars(Escape(s))) == Escape(s)
  {
    EscapePlain(s);
    SpellChars(Escape(s));
    forall tag ensures Net(Chars(Escape(s)), tag) == 0 {
      CharsNet(Escape(s), tag);
    }
    SpansWithout(Chars(Escape(s)), Strong, false);
    SpansWithout(Chars(Escape(s)), Code, false);
    InlineClosed(Chars(Escape(s)));
  }

  lemma {:induction false} TaggedSafe(tag: Tag, inner: seq<Token>, rest: seq<Token>)
    requires Safe(inner) && Safe(rest)
    ensures Safe(Tagged(tag, inner, rest))
  {
  }

  lemma {:induction false} TaggedNest(tag: Tag, inner: seq<Token>, rest: seq<Token>, stack: seq<Tag>)
    requires Closed(inner) && Closed(rest)
    ensures Nest(Tagged(tag, inner, rest), stack) == Some(stack)
  {
    var tail := inner + ([Close(tag)] + rest);
    assert Tagged(tag, inner, rest)[1..] == tail;
    assert ([Close(tag)] + rest)[1..] == rest;
    var pushed := if tag == Code || tag == Strong then stack else [tag] + stack;
    assert Nest(inner, pushed) == Some(pushed);
    NestAppend(inner, [Close(tag)] + rest, pushed);
    assert pushed != stack ==> pushed[1..] == stack;
    assert Nest(rest, stack) == Some(stack);
  }

  predicate IsBlock(tag: Tag) {
    tag != Code && tag != Strong
  }

  lemma {:induction false} BlockAlternates(tag: Tag, inner: seq<Token>, rest: seq<Token>, t: Tag)
    requires IsBlock(tag) && !IsBlock(t) && Alternates(inner, t) && Alternates(rest, t)
    ensures Alternates(Tagged(tag, inner, rest), t)
  {
    var tail := [Close(tag)] + rest;
    assert Tagged(tag, inner, rest)[1..] == inner + tail && tail[1..] == rest;
    SpansAppend(inner, tail, t, false);
  }

  lemma {:induction false} TaggedAlternates(tag: Tag, inner: seq<Token>, rest: seq<Token>)
    requires IsBlock(tag) || Without(inner, Code)
    requires tag != Strong && Closed(inner) && Closed(rest)
    ensures Alternates(Tagged(tag, inner, rest), Strong) && Alternates(Tagged(tag, inner, rest), Code)
  {
    if IsBlock(tag) {
      BlockAlternates(tag, inner, rest, Strong);
      BlockAlternates(tag, inner, rest, Code);
    } else {
      SpansTagged(Code, inner, rest);
      SpansSkip(Open(Code), inner + ([Close(Code)] + rest), Strong, false);
      SpansAppend(inner, [Close(Code)] + rest, Strong, false);
      SpansSkip(Close(Code), rest, Strong, false);
    }
  }

  lemma {:induction false} TaggedClosed(tag: Tag, inner: seq<Token>, rest: seq<Token>)
    requires IsBlock(tag) || Without(inner, Code)
    requires tag != Strong && Closed(inner) && Closed(rest)
    ensures Closed(Tagged(tag, inner, rest))
  {
    TaggedSafe(tag, inner, rest);
    TaggedAlternates(tag, inner, rest);
    forall t ensures Net(Tagged(tag, inner, rest), t) == 0 {
      TaggedNet(tag, inner, rest, t);
    }
    forall stack ensures Nest(Tagged(tag, inner, rest), stack) == Some(stack) {
      TaggedNest(tag, inner, rest, stack);
    }
  }

  /** A tag around closed tokens spells the corresponding element and is closed again. */
  lemma {:induction false} ElementTokens(tag: Tag, inner: seq<Token>, rest: seq<Token>) returns (ts: seq<Token>)
    requires IsBlock(tag) || Without(inner, Code)
    requires tag != Strong && Closed(inner) && Closed(rest)
    ensures Closed(ts) && Spell(ts) == Element(tag, Spell(inner), Spell(rest))
  {
    ts := Tagged(tag, inner, rest);
    TaggedClosed(tag, inner, rest);
    TaggedSpell(tag, inner, rest);
  }

  lemma {:induction false} ItemsTokens(items: seq<string>) returns (ts: seq<Token>)
    ensures Closed(ts) && Spell(ts) == ItemsHtml(items)
  {
    if items == [] {
      ts := [];
    } else {
      var rest := ItemsTokens(items[1..]);
      InlineSafe(items[0]);
      InlineClosed(InlineTokens(items[0]));
      ts := ElementTokens(Li, InlineTokens(items[0]), rest);
    }
  }

  lemma {:induction false} BlockTokens(b: Block, rest: seq<Token>) returns (ts: seq<Token>)
    requires Closed(rest)
    ensures Closed(ts) && Spell(ts) == BlockHtml(b, Spell(rest))
  {
    match b {
      case Heading(text) =>
        EscapedClosed(text);
        ts := ElementTokens(H3, Chars(Escape(text)), rest);
      case Para(text) =>
        InlineSafe(text);
        InlineClosed(InlineTokens(text));
        ts := ElementTokens(P, InlineTokens(text), rest);
      case ListBlock(kind, items) =>
        var inner := ItemsTokens(items);
        ts := ElementTokens(ListTag(kind), inner, rest);
      case Fence(lines) =>
        EscapedClosed(Join(lines));
        var inner := ElementTokens(Code, Chars(Escape(Join(lines))), []);
        ts := ElementTokens(Pre, inner, rest);
    }
  }

  lemma {:induction false} PageTokens(bs: seq<Block>) returns (ts: seq<Token>)
    ensures Closed(ts) && Spell(ts) == PageHtml(bs)
  {
    if bs == [] {
      ts := [];
    } else {
      var rest := PageTokens(bs[1..]);
      ts := BlockTokens(bs[0], rest);
    }
  }

  /** For every source: the page reads, in exactly one way, as characters other than angle brackets and
      tags of the fixed set; each tag is closed as often as it is opened, block tags are well nested,
      and strong and code tags alternate between opening and closing inside their own block. */
  lemma {:induction false} RenderIsTagSafe(md: string)
    ensures exists ts :: Safe(ts) && Spell(ts) == Render(md)
    ensures forall ts :: Safe(ts) && Spell(ts) == Render(md) ==> PageOk(ts)
  {
    var page := PageTokens(Blocks(Read(Lines(md))));
    assert Nest(page, []) == Some([]);
    forall ts | Safe(ts) && Spell(ts) == Render(md) ensures PageOk(ts) {
      SpellInjective(ts, page);
    }
  }

  // ---------------------------------------------------------------------
  // The loop

  /** What the renderer holds back between two lines. */
  datatype Mode = Text | InList(kind: ListKind, items: seq<string>) | InCode(lines: seq<string>)

  /** The blocks still to come: what is held back continues into the remaining lines. */
  function Pending(m: Mode, ls: seq<Line>): (bs: seq<Block>) {
    match m
    case Text => Blocks(ls)
    case InList(kind, items) =>
      [ListBlock(kind, items + Items(kind, ls))] + Blocks(ls[|Items(kind, ls)|..])
    case InCode(lines) => [Fence(lines + Texts(ls[..FenceEnd(ls)]))] + Blocks(AfterFence(ls))
  }

  /** What is given out when something else follows. */
  function Flushed(m: Mode): (bs: seq<Block>) {
    match m
    case Text => []
    case InList(kind, items) => [ListBlock(kind, items)]
    case InCode(lines) => [Fence(lines)]
  }

  /** What one line gives out. */
  function Emitted(m: Mode, line: Line): (bs: seq<Block>) {
    if m.InCode? then (if line.kind.FenceMark? then Flushed(m) else []) else
      match line.kind
      case HeadingLine(text) => Flushed(m) + [Heading(text)]
      case Paragraph(text) => Flushed(m) + [Para(text)]
      case ItemLine(kind, text) => if m.InList? && m.kind == kind then [] else Flushed(m)
      case _ => Flushed(m)
  }

  /** What one line leaves held back. */
  function Next(m: Mode, line: Line): (n: Mode) {
    if m.InCode? then (if line.kind.FenceMark? then Text else InCode(m.lines + [line.text])) else
      match line.kind
      case FenceMark => InCode([])
      case ItemLine(kind, text) =>
        if m.InList? && m.kind == kind then InList(kind, m.items + [text]) else InList(kind, [text])
      case _ => Text
  }

  lemma {:induction false} CodeStep(lines: seq<string>, ls: seq<Line>)
    requires ls != []
    ensures var m := InCode(lines); Pending(m, ls) == Emitted(m, ls[0]) + Pending(Next(m, ls[0]), ls[1..])
  {
    if ls[0].kind.FenceMark? {
      assert lines + Texts(ls[..0]) == lines;
    } else {
      var n := FenceEnd(ls[1..]);
      assert lines + Texts(ls[..n + 1]) == lines + [ls[0].text] + Texts(ls[1..][..n]);
      assert AfterFence(ls) == AfterFence(ls[1..]);
    }
  }

  lemma {:induction false} TextStep(ls: seq<Line>)
    requires ls != []
    ensures Pending(Text, ls) == Emitted(Text, ls[0]) + Pending(Next(Text, ls[0]), ls[1..])
  {
    if ls[0].kind.FenceMark? {
      var body := Texts(ls[1..][..FenceEnd(ls[1..])]);
      assert [] + body == body;
    }
  }

  lemma {:induction false} ListGrows(kind: ListKind, items: seq<string>, ls: seq<Line>)
    requires ls != [] && ls[0].kind.ItemLine? && ls[0].kind.list == kind
    ensures Pending(InList(kind, items), ls) == Pending(InList(kind, items + [ls[0].kind.text]), ls[1..])
  {
    var text := ls[0].kind.text;
    var more := Items(kind, ls[1..]);
    assert items + ([text] + more) == items + [text] + more;
    assert ls[|more| + 1..] == ls[1..][|more|..];
  }

  lemma {:induction false} ListEnds(kind: ListKind, items: seq<string>, ls: seq<Line>)
    requires Items(kind, ls) == []
    ensures Pending(InList(kind, items), ls) == [ListBlock(kind, items)] + Blocks(ls)
  {
    assert items + [] == items;
    assert ls[0..] == ls;
  }

  /** A line that does not belong to the list gives it out and is then read as ordinary text. */
  lemma {:induction false} Interrupted(m: Mode, line: Line)
    requires m.InList? && !(line.kind.ItemLine? && line.kind.list == m.kind)
    ensures Emitted(m, line) == Flushed(m) + Emitted(Text, line)
    ensures Next(m, line) == Next(Text, line)
  {
  }

  lemma {:induction false} InterruptedRest(m: Mode, ls: seq<Line>)
    requires ls != [] && m.InList? && Items(m.kind, ls) == []
    ensures Pending(m, ls) == Flushed(m) + (Emitted(Text, ls[0]) + Pending(Next(Text, ls[0]), ls[1..]))
  {
    TextStep(ls);
    ListEnds(m.kind, m.items, ls);
  }

  lemma {:induction false} ListContinues(m: Mode, ls: seq<Line>)
    requires ls != [] && m.InList? && Items(m.kind, ls) != []
    ensures Pending(m, ls) == Emitted(m, ls[0]) + Pending(Next(m, ls[0]), ls[1..])
  {
    ListGrows(m.kind, m.items, ls);
  }

  lemma {:induction false} ListInterrupted(m: Mode, ls: seq<Line>)
    requires ls != [] && m.InList? && Items(m.kind, ls) == []
    ensures Pending(m, ls) == Emitted(m, ls[0]) + Pending(Next(m, ls[0]), ls[1..])
  {
    InterruptedRest(m, ls);
    Regroup(Flushed(m), Emitted(Text, ls[0]), Pending(Next(Text, ls[0]), ls[1..]));
    Interrupted(m, ls[0]);
  }

  lemma {:induction false} ListStep(m: Mode, ls: seq<Line>)
    requires ls != [] && m.InList?
    ensures Pending(m, ls) == Emitted(m, ls[0]) + Pending(Next(m, ls[0]), ls[1..])
  {
    if Items(m.kind, ls) != [] {
      ListContinues(m, ls);
    } else {
      ListInterrupted(m, ls);
    }
  }

  /** Each line moves a prefix of the blocks from what is to come to what is given out. */
  lemma {:induction false} LineStep(m: Mode, ls: seq<Line>)
    requires ls != []
    ensures Pending(m, ls) == Emitted(m, ls[0]) + Pending(Next(m, ls[0]), ls[1..])
  {
    match m {
      case Text => TextStep(ls);
      case InList(kind, items) => ListStep(m, ls);
      case InCode(lines) => CodeStep(lines, ls);
    }
  }

  lemma {:induction false} PendingEnd(m: Mode)
    ensures Pending(m, []) == Flushed(m)
  {
    if m.InList? {
      assert m.items + [] == m.items;
    } else if m.InCode? {
      assert m.lines + [] == m.lines;
    }
  }

  lemma {:induction false} ElementAppend(tag: Tag, inner: string, rest: string)
    ensures Element(tag, inner, rest) == Element(tag, inner, "") + rest
  {
  }

  lemma {:induction false} PageAppend(a: seq<Block>, b: seq<Block>)
    ensures PageHtml(a + b) == PageHtml(a) + PageHtml(b)
  {
    if a == [] {
      assert a + b == b;
    } else {
      assert (a + b)[1..] == a[1..] + b;
      PageAppend(a[1..], b);
      BlockAppend(a[0], PageHtml(a[1..] + b));
      BlockAppend(a[0], PageHtml(a[1..]));
    }
  }

  lemma {:induction false} BlockAppend(b: Block, rest: string)
    ensures BlockHtml(b, rest) == BlockHtml(b, "") + rest
  {
    match b {
      case Heading(text) => ElementAppend(H3, Escape(text), rest);
      case Para(text) => ElementAppend(P, Inline(text), rest);
      case ListBlock(kind, items) => ElementAppend(ListTag(kind), ItemsHtml(items), rest);
      case Fence(lines) => ElementAppend(Pre, Element(Code, Escape(Join(lines)), ""), rest);
    }
  }

  // ---------------------------------------------------------------------
  // Code on the page

  function ModeAfter(m: Mode, ls: seq<Line>): (n: Mode)
    decreases |ls|
  {
    if ls == [] then m else ModeAfter(Next(m, ls[0]), ls[1..])
  }

  function EmittedAll(m: Mode, ls: seq<Line>): (bs: seq<Block>)
    decreases |ls|
  {
    if ls == [] then [] else Emitted(m, ls[0]) + EmittedAll(Next(m, ls[0]), ls[1..])
  }

  lemma {:induction false} PendingAppend(m: Mode, ls: seq<Line>, rest: seq<Line>)
    ensures Pending(m, ls + rest) == EmittedAll(m, ls) + Pending(ModeAfter(m, ls), rest)
    decreases |ls|
  {
    if ls == [] {
      assert ls + rest == rest;
    } else {
      assert (ls + rest)[1..] == ls[1..] + rest;
      LineStep(m, ls + rest);
      PendingAppend(Next(m, ls[0]), ls[1..], rest);
    }
  }

  /** Do the lines end inside a code fence? */
  predicate EndsInside(ls: seq<Line>) {
    ModeAfter(Text, ls).InCode?
  }

  ghost predicate NoMark(ls: seq<Line>) {
    forall i :: 0 <= i < |ls| ==> !ls[i].kind.FenceMark?
  }

  lemma {:induction false} CodeHeld(lines: seq<string>, body: seq<Line>)
    requires NoMark(body)
    ensures EmittedAll(InCode(lines), body) == [] && ModeAfter(InCode(lines), body) == InCode(lines + Texts(body))
    decreases |body|
  {
    if body == [] {
      assert lines + Texts(body) == lines;
    } else {
      CodeHeld(lines + [body[0].text], body[1..]);
      assert lines + [body[0].text] + Texts(body[1..]) == lines + Texts(body);
    }
  }

  /** Code held back, and then the closing mark. */
  lemma {:induction false} CodeCloses(body: seq<Line>, end: Line, after: seq<Line>)
    requires NoMark(body) && end.kind.FenceMark?
    ensures Pending(InCode([]), body + ([end] + after)) == [Fence(Texts(body))] + Blocks(after)
  {
    PendingAppend(InCode([]), body, [end] + after);
    CodeHeld([], body);
    assert [] + Texts(body) == Texts(body) && ([end] + after)[1..] == after;
    LineStep(InCode(Texts(body)), [end] + after);
  }

  /** Code held back to the end. */
  lemma {:induction false} CodeRunsOut(body: seq<Line>)
    requires NoMark(body)
    ensures Pending(InCode([]), body) == [Fence(Texts(body))]
  {
    PendingAppend(InCode([]), body, []);
    CodeHeld([], body);
    assert [] + Texts(body) == Texts(body) && body + [] == body;
    PendingEnd(InCode(Texts(body)));
  }

  lemma {:induction false} Interrupts(m: Mode, start: Line, rest: seq<Line>)
    requires !m.InCode? && start.kind.FenceMark?
    ensures Pending(m, [start] + rest) == Flushed(m) + Pending(InCode([]), rest)
  {
    assert ([start] + rest)[1..] == rest;
    LineStep(m, [start] + rest);
  }

  lemma {:induction false} BlocksOf(ls: seq<Line>)
    ensures Blocks(ls) == EmittedAll(Text, ls) + Flushed(ModeAfter(Text, ls))
  {
    PendingAppend(Text, ls, []);
    PendingEnd(ModeAfter(Text, ls));
    assert ls + [] == ls;
  }

  lemma {:induction false} Regroup(a: seq<Block>, b: seq<Block>, c: seq<Block>)
    ensures a + (b + c) == a + b + c
  {
  }

  lemma {:induction false} OpensAfter(m: Mode, ls: seq<Line>, start: Line, rest: seq<Line>)
    requires !ModeAfter(m, ls).InCode? && start.kind.FenceMark?
    ensures Pending(m, ls + ([start] + rest)) ==
      EmittedAll(m, ls) + (Flushed(ModeAfter(m, ls)) + Pending(InCode([]), rest))
  {
    PendingAppend(m, ls, [start] + rest);
    Interrupts(ModeAfter(m, ls), start, rest);
  }

  /** A fence mark after lines that do not end inside a fence gives out what they held back. */
  lemma {:induction false} FenceOpens(before: seq<Line>, start: Line, rest: seq<Line>)
    requires !EndsInside(before) && start.kind.FenceMark?
    ensures Blocks(before + ([start] + rest)) == Blocks(before) + Pending(InCode([]), rest)
  {
    OpensAfter(Text, before, start, rest);
    BlocksOf(before);
    Regroup(EmittedAll(Text, before), Flushed(ModeAfter(Text, before)), Pending(InCode([]), rest));
  }

  function CodeHtml(code: string): (s: string) {
    "<pre><code>" + (Escape(code) + "</code></pre>")
  }

  lemma {:induction false} ElementIs(tag: Tag, open: string, x: string, close: string)
    requires Glyph(Open(tag)) == open && Glyph(Close(tag)) == close
    ensures Element(tag, x, "") == open + (x + close)
  {
    assert close + "" == close;
  }

  lemma {:induction false} ElementInElement(o1: string, o2: string, x: string, c2: string, c1: string)
    ensures o1 + ((o2 + (x + c2)) + c1) == (o1 + o2) + (x + (c2 + c1))
  {
  }

  lemma {:induction false} PreGlyphs()
    ensures Glyph(Open(Pre)) == "<pre>" && Glyph(Close(Pre)) == "</pre>"
  {
    assert "<" + "pre" + ">" == "<pre>" && "</" + "pre" + ">" == "</pre>";
  }

  lemma {:induction false} CodeGlyphs()
    ensures Glyph(Open(Code)) == "<code>" && Glyph(Close(Code)) == "</code>"
  {
    assert "<" + "code" + ">" == "<code>" && "</" + "code" + ">" == "</code>";
  }

  lemma {:induction false} PreCodeOpen()
    ensures "<pre>" + "<code>" == "<pre><code>"
  {
  }

  lemma {:induction false} PreCodeClose()
    ensures "</code>" + "</pre>" == "</code></pre>"
  {
  }

  /** One element alone inside another. */
  lemma {:induction false} NestedIs(outer: Tag, inner: Tag, o1: string, o2: string, x: string, c2: string, c1: string)
    requires Glyph(Open(outer)) == o1 && Glyph(Close(outer)) == c1
    requires Glyph(Open(inner)) == o2 && Glyph(Close(inner)) == c2
    ensures Element(outer, Element(inner, x, ""), "") == (o1 + o2) + (x + (c2 + c1))
  {
    ElementIs(inner, o2, x, c2);
    ElementIs(outer, o1, o2 + (x + c2), c1);
    ElementInElement(o1, o2, x, c2, c1);
  }

  lemma {:induction false} CodeTags(x: string)
    ensures Element(Pre, Element(Code, x, ""), "") == "<pre><code>" + (x + "</code></pre>")
  {
    PreGlyphs();
    CodeGlyphs();
    NestedIs(Pre, Code, "<pre>", "<code>", x, "</code>", "</pre>");
    PreCodeOpen();
    PreCodeClose();
  }

  lemma {:induction false} FenceHtml(code: string)
    ensures PageHtml([Fence(Texts(Read(Lines(code))))]) == CodeHtml(code)
  {
    assert Texts(Read(Lines(code))) == Lines(code);
    JoinLines(code);
    PageOne(Fence(Lines(code)));
    CodeTags(Escape(code));
  }

  /** Code between two fence marks, wherever it stands and whatever it contains short of another mark:
      on the page it is the escaped code in its two tags, between the pages of what comes before and
      after. */
  lemma {:induction false} CodeOnPage(before: seq<Line>, start: Line, code: string, end: Line, after: seq<Line>)
    requires !EndsInside(before) && NoMark(Read(Lines(code))) && start.kind.FenceMark? && end.kind.FenceMark?
    ensures PageHtml(Blocks(before + ([start] + (Read(Lines(code)) + ([end] + after)))))
         == PageHtml(Blocks(before)) + (CodeHtml(code) + PageHtml(Blocks(after)))
  {
    var body := Read(Lines(code));
    FenceOpens(before, start, body + ([end] + after));
    CodeCloses(body, end, after);
    PageAppend(Blocks(before), [Fence(Texts(body))] + Blocks(after));
    PageAppend([Fence(Texts(body))], Blocks(after));
    FenceHtml(code);
  }

  /** A fence that is never closed runs to the end. */
  lemma {:induction false} OpenCodeOnPage(before: seq<Line>, start: Line, code: string)
    requires !EndsInside(before) && NoMark(Read(Lines(code))) && start.kind.FenceMark?
    ensures PageHtml(Blocks(before + ([start] + Read(Lines(code))))) == PageHtml(Blocks(before)) + CodeHtml(code)
  {
    var body := Read(Lines(code));
    FenceOpens(before, start, body);
    CodeRunsOut(body);
    PageAppend(Blocks(before), [Fence(Texts(body))]);
    FenceHtml(code);
  }

  lemma {:induction false} LinesAppend(s: string, t: string)
    ensures Lines(s + ("\n" + t)) == Lines(s) + Lines(t)
  {
    var st := s + ("\n" + t);
    if s == "" {
      assert st[0] == '\n' && st[1..] == t;
    } else {
      assert st[0] == s[0] && st[1..] == s[1..] + ("\n" + t);
      LinesAppend(s[1..], t);
    }
  }

  lemma {:induction false} ReadAppend(s: string, t: string)
    ensures Read(Lines(s + ("\n" + t))) == Read(Lines(s)) + Read(Lines(t))
  {
    LinesAppend(s, t);
  }

  predicate IsFenceMark(line: string) {
    Lines(line) == [line] && Classify(line).FenceMark?
  }

  lemma {:induction false} ReadMark(line: string)
    requires IsFenceMark(line)
    ensures Read(Lines(line)) == [Line(line, FenceMark)]
  {
  }

  /** The same for a whole source: rendering it and unescaping what stands between the tags gives the
      code back, line breaks and spaces included. */
  lemma {:induction false} CodeVerbatim(before: string, start: string, code: string, end: string, after: string)
    requires !EndsInside(Read(Lines(before))) && NoMark(Read(Lines(code))) && IsFenceMark(start) && IsFenceMark(end)
    ensures Render(before + ("\n" + (start + ("\n" + (code + ("\n" + (end + ("\n" + after)))))))) ==
      Render(before) + (CodeHtml(code) + Render(after))
    ensures Unescape(Escape(code)) == code
  {
    var tail := end + ("\n" + after);
    var body := code + ("\n" + tail);
    ReadAppend(end, after);
    ReadAppend(code, tail);
    ReadAppend(start, body);
    ReadAppend(before, start + ("\n" + body));
    ReadMark(start);
    ReadMark(end);
    CodeOnPage(Read(Lines(before)), Line(start, FenceMark), code, Line(end, FenceMark), Read(Lines(after)));
    UnescapeEscape(code);
  }

  // ---------------------------------------------------------------------
  // Which line gives which tag

  /** No space at either end. */
  predicate Edged(s: string) {
    s != "" && !IsSpace(s[0]) && !IsSpace(s[|s| - 1])
  }

  predicate Ended(s: string) {
    s != "" && !IsSpace(s[|s| - 1])
  }

  ghost predicate Spaces(s: string) {
    forall i :: 0 <= i < |s| ==> IsSpace(s[i])
  }

  lemma {:induction false} TrimLeftSpaces(a: string, s: string)
    requires Spaces(a)
    ensures TrimLeft(a + s) == TrimLeft(s)
  {
    if a == "" {
      assert a + s == s;
    } else {
      assert (a + s)[1..] == a[1..] + s;
      TrimLeftSpaces(a[1..], s);
    }
  }

  lemma {:induction false} TrimRightSpaces(s: string, b: string)
    requires Spaces(b)
    ensures TrimRight(s + b) == TrimRight(s)
  {
    if b == "" {
      assert s + b == s;
    } else {
      assert (s + b)[..|s + b| - 1] == s + b[..|b| - 1];
      TrimRightSpaces(s, b[..|b| - 1]);
    }
  }

  /** Spaces around a line do not matter. */
  lemma {:induction false} Trimmed(a: string, s: string, b: string)
    requires Spaces(a) && Spaces(b) && (s == "" || Edged(s))
    ensures Trim(a + (s + b)) == s
  {
    TrimLeftSpaces(a, s + b);
    if s == "" {
      assert s + b == b + "";
      TrimLeftSpaces(b, "");
    } else {
      assert TrimLeft(s + b) == s + b;
      TrimRightSpaces(s, b);
    }
  }

  lemma {:induction false} SameTrimmed(a: string, s: string, b: string)
    requires Spaces(a) && Spaces(b) && (s == "" || Edged(s))
    ensures Classify(a + (s + b)) == Classify(s)
  {
    Trimmed(a, s, b);
    assert "" + (s + "") == s;
    Trimmed("", s, "");
  }

  lemma {:induction false} TrimEdged(s: string)
    requires Edged(s)
    ensures Trim(s) == s
  {
  }

  /** The three-hash heading; spaces before its text do not matter. */
  lemma {:induction false} HeadingOf(b: string, x: string)
    requires Spaces(b) && Edged(x)
    ensures Classify("### " + (b + x)) == HeadingLine(x)
  {
    var s := "### " + (b + x);
    assert s[0] == '#' && s[|s| - 1] == x[|x| - 1] && !IsSpace('#');
    TrimEdged(s);
    assert s[..4] == "### " && s[4..] == b + x;
    NotPrefix(s, "```");
    assert b + x == b + (x + "");
    Trimmed(b, x, "");
  }

  /** A bulleted item keeps the spaces before its text. */
  lemma {:induction false} BulletOf(x: string)
    requires Ended(x)
    ensures Classify("- " + x) == ItemLine(Bullets, x)
  {
    var s := "- " + x;
    assert s[0] == '-' && s[|s| - 1] == x[|x| - 1] && !IsSpace('-');
    TrimEdged(s);
    assert s[..2] == "- " && s[2..] == x;
    NotPrefix(s, "```");
    NotPrefix(s, "### ");
  }

  lemma {:induction false} NotPrefix(s: string, p: string)
    requires s != "" && p != "" && s[0] != p[0]
    ensures !StartsWith(s, p)
  {
    if |p| <= |s| {
      assert s[..|p|][0] == s[0];
    }
  }

  ghost predicate AllDigits(d: string) {
    forall i :: 0 <= i < |d| ==> '0' <= d[i] <= '9'
  }

  lemma {:induction false} DigitsOf(d: string, rest: string)
    requires AllDigits(d) && (rest == "" || !('0' <= rest[0] <= '9'))
    ensures Digits(d + rest) == |d|
  {
    if d == "" {
      assert d + rest == rest;
    } else {
      assert (d + rest)[1..] == d[1..] + rest;
      DigitsOf(d[1..], rest);
    }
  }

  lemma {:induction false} NumberOf(d: string, x: string)
    requires d != "" && AllDigits(d) && Ended(x)
    ensures Classify(d + (". " + x)) == ItemLine(Numbers, x)
  {
    var s := d + (". " + x);
    assert s[0] == d[0] && s[|s| - 1] == x[|x| - 1];
    TrimEdged(s);
    DigitsOf(d, ". " + x);
    assert s[|d|..] == ". " + x && (". " + x)[..2] == ". " && s[|d| + 2..] == x;
    NotPrefix(s, "```");
    NotPrefix(s, "### ");
    NotPrefix(s, "- ");
  }

  /** A fence mark may carry anything after its three backquotes. */
  lemma {:induction false} FenceOf(x: string)
    ensures Classify("```" + x).FenceMark?
  {
    var s := "```" + x;
    assert s[0] == '`' && s[1] == '`' && s[2] == '`';
    assert TrimLeft(s) == s;
    TrimRightKeeps(s, 3);
    assert Trim(s)[..3] == s[..3] && s[..3] == "```";
  }

  lemma {:induction false} TrimRightKeeps(s: string, n: nat)
    requires 0 < n <= |s| && !IsSpace(s[n - 1])
    ensures |TrimRight(s)| >= n && TrimRight(s)[..n] == s[..n]
  {
    if IsSpace(s[|s| - 1]) {
      TrimRightKeeps(s[..|s| - 1], n);
      assert s[..|s| - 1][..n] == s[..n];
    }
  }

  /** Everything else is a paragraph. */
  lemma {:induction false} ParagraphOf(x: string)
    requires Edged(x) && !StartsWith(x, "```") && !StartsWith(x, "### ") && !StartsWith(x, "- ")
    requires Digits(x) == 0 || !StartsWith(x[Digits(x)..], ". ")
    ensures Classify(x) == Paragraph(x)
  {
    TrimEdged(x);
  }

  /** Only spaces are a blank line. */
  lemma {:induction false} BlankOf(s: string)
    requires Spaces(s)
    ensures Classify(s) == Blank
  {
    assert s == s + ("" + "");
    Trimmed(s, "", "");
  }

  lemma {:induction false} OneLine(s: string)
    requires Lacks(s, '\n')
    ensures Lines(s) == [s]
  {
    if s != "" {
      OneLine(s[1..]);
      assert [s[0]] + s[1..] == s;
    }
  }

  /** A page of a single line is the block that line gives. */
  lemma {:induction false} LinePage(line: string)
    requires Lacks(line, '\n')
    ensures Render(line) == PageHtml(BlockOf(Line(line, Classify(line))))
  {
    OneLine(line);
    var l := Line(line, Classify(line));
    assert Read(Lines(line)) == [l];
    SingleBlock(l);
  }

  lemma {:induction false} RenderHeading(x: string)
    requires Edged(x) && Lacks(x, '\n')
    ensures Render("### " + x) == "<h3>" + (Escape(x) + "</h3>")
  {
    assert "" + x == x;
    HeadingOf("", x);
    LinePage("### " + x);
    HeadingPage(x);
  }

  lemma {:induction false} RenderBullet(x: string)
    requires Ended(x) && Lacks(x, '\n')
    ensures Render("- " + x) == ("<ul>" + "<li>") + (Inline(x) + ("</li>" + "</ul>"))
  {
    BulletOf(x);
    LinePage("- " + x);
    BulletPage(x);
  }

  lemma {:induction false} NumberLacks(d: string, x: string)
    requires AllDigits(d) && Lacks(x, '\n')
    ensures Lacks(d + (". " + x), '\n')
  {
    assert Lacks(". " + x, '\n');
  }

  lemma {:induction false} RenderNumber(d: string, x: string)
    requires d != "" && AllDigits(d) && Ended(x) && Lacks(x, '\n')
    ensures Render(d + (". " + x)) == ("<ol>" + "<li>") + (Inline(x) + ("</li>" + "</ol>"))
  {
    NumberOf(d, x);
    NumberLacks(d, x);
    LinePage(d + (". " + x));
    NumberPage(x);
  }

  lemma {:induction false} RenderParagraph(x: string)
    requires Edged(x) && !StartsWith(x, "```") && !StartsWith(x, "### ") && !StartsWith(x, "- ")
    requires Digits(x) == 0 || !StartsWith(x[Digits(x)..], ". ")
    requires Lacks(x, '\n')
    ensures Render(x) == "<p>" + (Inline(x) + "</p>")
  {
    ParagraphOf(x);
    LinePage(x);
    ParaPage(x);
  }

  function BlockOf(l: Line): (bs: seq<Block>) {
    match l.kind
    case FenceMark => [Fence([])]
    case Blank => []
    case HeadingLine(x) => [Heading(x)]
    case Paragraph(x) => [Para(x)]
    case ItemLine(kind, x) => [ListBlock(kind, [x])]
  }

  lemma {:induction false} SingleBlock(l: Line)
    ensures Blocks([l]) == BlockOf(l)
  {
    LineStep(Text, [l]);
    assert [l][1..] == [];
    PendingEnd(Next(Text, l));
  }

  lemma {:induction false} HeadingGlyphs()
    ensures Glyph(Open(H3)) == "<h3>" && Glyph(Close(H3)) == "</h3>"
  {
    assert "<" + "h3" + ">" == "<h3>" && "</" + "h3" + ">" == "</h3>";
  }

  lemma {:induction false} ParaGlyphs()
    ensures Glyph(Open(P)) == "<p>" && Glyph(Close(P)) == "</p>"
  {
    assert "<" + "p" + ">" == "<p>" && "</" + "p" + ">" == "</p>";
  }

  lemma {:induction false} BulletGlyphs()
    ensures Glyph(Open(Ul)) == "<ul>" && Glyph(Close(Ul)) == "</ul>"
  {
    assert "<" + "ul" + ">" == "<ul>" && "</" + "ul" + ">" == "</ul>";
  }

  lemma {:induction false} NumberGlyphs()
    ensures Glyph(Open(Ol)) == "<ol>" && Glyph(Close(Ol)) == "</ol>"
  {
    assert "<" + "ol" + ">" == "<ol>" && "</" + "ol" + ">" == "</ol>";
  }

  lemma {:induction false} ItemGlyphs()
    ensures Glyph(Open(Li)) == "<li>" && Glyph(Close(Li)) == "</li>"
  {
    assert "<" + "li" + ">" == "<li>" && "</" + "li" + ">" == "</li>";
  }

  lemma {:induction false} HeadingPage(x: string)
    ensures PageHtml([Heading(x)]) == "<h3>" + (Escape(x) + "</h3>")
  {
    PageOne(Heading(x));
    HeadingGlyphs();
    ElementIs(H3, "<h3>", Escape(x), "</h3>");
  }

  lemma {:induction false} ParaPage(x: string)
    ensures PageHtml([Para(x)]) == "<p>" + (Inline(x) + "</p>")
  {
    PageOne(Para(x));
    ParaGlyphs();
    ElementIs(P, "<p>", Inline(x), "</p>");
  }

  lemma {:induction false} OneItem(x: string)
    ensures ItemsHtml([x]) == Element(Li, Inline(x), "")
  {
    assert [x][1..] == [];
  }

  lemma {:induction false} BulletPage(x: string)
    ensures PageHtml([ListBlock(Bullets, [x])]) == ("<ul>" + "<li>") + (Inline(x) + ("</li>" + "</ul>"))
  {
    PageOne(ListBlock(Bullets, [x]));
    OneItem(x);
    BulletGlyphs();
    ItemGlyphs();
    NestedIs(Ul, Li, "<ul>", "<li>", Inline(x), "</li>", "</ul>");
  }

  lemma {:induction false} NumberPage(x: string)
    ensures PageHtml([ListBlock(Numbers, [x])]) == ("<ol>" + "<li>") + (Inline(x) + ("</li>" + "</ol>"))
  {
    PageOne(ListBlock(Numbers, [x]));
    OneItem(x);
    NumberGlyphs();
    ItemGlyphs();
    NestedIs(Ol, Li, "<ol>", "<li>", Inline(x), "</li>", "</ol>");
  }

  function ItemTexts(kind: ListKind, ls: seq<Line>): (items: seq<string>)
    requires forall i :: 0 <= i < |ls| ==> ls[i].kind.ItemLine? && ls[i].kind.list == kind
  {
    if ls == [] then [] else [ls[0].kind.text] + ItemTexts(kind, ls[1..])
  }

  /** Items of one kind in a row are one list, in order. */
  lemma {:induction false} OneList(kind: ListKind, ls: seq<Line>)
    requires ls != [] && forall i :: 0 <= i < |ls| ==> ls[i].kind.ItemLine? && ls[i].kind.list == kind
    ensures Blocks(ls) == [ListBlock(kind, ItemTexts(kind, ls))]
  {
    ItemsAre(kind, ls[1..]);
    assert ls[1..][|ls| - 1..] == [];
  }

  lemma {:induction false} ItemsAre(kind: ListKind, ls: seq<Line>)
    requires forall i :: 0 <= i < |ls| ==> ls[i].kind.ItemLine? && ls[i].kind.list == kind
    ensures Items(kind, ls) == ItemTexts(kind, ls) && |Items(kind, ls)| == |ls|
  {
    if ls != [] {
      ItemsAre(kind, ls[1..]);
    }
  }

  lemma {:induction false} ItemsSnoc(items: seq<string>, item: string)
    ensures ItemsHtml(items + [item]) == ItemsHtml(items) + Element(Li, Inline(item), "")
  {
    if items != [] {
      assert (items + [item])[1..] == items[1..] + [item];
      ItemsSnoc(items[1..], item);
      ElementAppend(Li, Inline(items[0]), ItemsHtml(items[1..] + [item]));
      ElementAppend(Li, Inline(items[0]), ItemsHtml(items[1..]));
    }
  }

  lemma {:induction false} PageOne(b: Block)
    ensures PageHtml([b]) == BlockHtml(b, "")
  {
  }

  /** The closure `flushList`: what it appends to the output. */
  method FlushList(listKind: Option<ListKind>, listBuf: seq<string>) returns (html: string)
    ensures html == if listKind.None? then "" else BlockHtml(ListBlock(listKind.value, listBuf), "")
  {
    if listKind == None {
      return "";
    }
    var body := "";
    for i := 0 to |listBuf|
      invariant body == ItemsHtml(listBuf[..i])
    {
      assert listBuf[..i + 1] == listBuf[..i] + [listBuf[i]];
      ItemsSnoc(listBuf[..i], listBuf[i]);
      body := body + Element(Li, Inline(listBuf[i]), "");
    }
    assert listBuf[..|listBuf|] == listBuf;
    html := Element(ListTag(listKind.value), body, "");
  }

  /** The closure `flushCode`: what it appends to the output. */
  function FlushCode(codeBuf: seq<string>): (html: string) {
    Element(Pre, Element(Code, Escape(Join(codeBuf)), ""), "")
  }

  /** The renderer's variables between two lines, as one value. */
  function ModeOf(listKind: Option<ListKind>, listBuf: seq<string>, inCode: bool, codeBuf: seq<string>): (m: Mode) {
    if inCode then InCode(codeBuf) else if listKind.Some? then InList(listKind.value, listBuf) else Text
  }

  /** One line of the loop: the text appended to the output and the new variables. */
  method RenderLine(line: string, listKind: Option<ListKind>, listBuf: seq<string>, inCode: bool, codeBuf: seq<string>)
      returns (html: string, listKind': Option<ListKind>, listBuf': seq<string>, inCode': bool, codeBuf': seq<string>)
    requires inCode ==> listKind == None
    requires listKind == None ==> listBuf == []
    requires !inCode ==> codeBuf == []
    ensures inCode' ==> listKind' == None
    ensures listKind' == None ==> listBuf' == []
    ensures !inCode' ==> codeBuf' == []
    ensures html == PageHtml(Emitted(ModeOf(listKind, listBuf, inCode, codeBuf), Line(line, Classify(line))))
    ensures ModeOf(listKind', listBuf', inCode', codeBuf') ==
      Next(ModeOf(listKind, listBuf, inCode, codeBuf), Line(line, Classify(line)))
  {
    ghost var m := ModeOf(listKind, listBuf, inCode, codeBuf);
    html, listKind', listBuf', inCode', codeBuf' := "", listKind, listBuf, inCode, codeBuf;
    var kind := Classify(line);
    if kind.FenceMark? && inCode {
      html := FlushCode(codeBuf);
      codeBuf', inCode' := [], false;
      PageOne(Fence(codeBuf));
    } else if inCode {
      codeBuf' := codeBuf + [line];
    } else if kind.ItemLine? && listKind == Some(kind.list) {
      listBuf' := listBuf + [kind.text];
    } else {
      html := FlushList(listKind, listBuf);
      listKind', listBuf' := None, [];
      if listKind.Some? {
        PageOne(ListBlock(listKind.value, listBuf));
      }
      assert html == PageHtml(Flushed(m));
      match kind {
        case FenceMark => inCode' := true;
        case Blank =>
        case HeadingLine(text) =>
          PageAppend(Flushed(m), [Heading(text)]);
          PageOne(Heading(text));
          html := html + Element(H3, Escape(text), "");
        case ItemLine(list, text) => listKind', listBuf' := Some(list), [text];
        case Paragraph(text) =>
          PageAppend(Flushed(m), [Para(text)]);
          PageOne(Para(text));
          html := html + Element(P, Inline(text), "");
      }
    }
  }

  /** Blocks given out and blocks to come, from one line to the next. */
  lemma {:induction false} Progress(done: seq<Block>, m: Mode, lines: seq<Line>, i: nat)
    requires i < |lines|
    requires Blocks(lines) == done + Pending(m, lines[i..])
    ensures Blocks(lines) == done + Emitted(m, lines[i]) + Pending(Next(m, lines[i]), lines[i + 1..])
  {
    LineStep(m, lines[i..]);
    assert lines[i..][1..] == lines[i + 1..];
  }

  /** What is written after the last line. */
  method Finish(listKind: Option<ListKind>, listBuf: seq<string>, inCode: bool, codeBuf: seq<string>)
      returns (html: string)
    requires inCode ==> listKind == None
    ensures html == PageHtml(Flushed(ModeOf(listKind, listBuf, inCode, codeBuf)))
  {
    html := FlushList(listKind, listBuf);
    if inCode {
      html := html + FlushCode(codeBuf);
      PageOne(Fence(codeBuf));
    } else if listKind.Some? {
      PageOne(ListBlock(listKind.value, listBuf));
    }
  }

  /** The renderer: it gives out the HTML of the source read as blocks. */
  method RenderMarkdown(md: string) returns (html: string)
    ensures html == Render(md)
  {
    var lines := Lines(md);
    html := "";
    var listKind: Option<ListKind>, listBuf: seq<string>, inCode, codeBuf: seq<string> := None, [], false, [];
    ghost var read, done: seq<Block> := Read(lines), [];
    assert read[0..] == read;
    for i := 0 to |lines|
      invariant inCode ==> listKind == None
      invariant listKind == None ==> listBuf == []
      invariant !inCode ==> codeBuf == []
      invariant html == PageHtml(done)
      invariant Blocks(read) == done + Pending(ModeOf(listKind, listBuf, inCode, codeBuf), read[i..])
    {
      ghost var m := ModeOf(listKind, listBuf, inCode, codeBuf);
      Progress(done, m, read, i);
      var more;
      more, listKind, listBuf, inCode, codeBuf := RenderLine(lines[i], listKind, listBuf, inCode, codeBuf);
      PageAppend(done, Emitted(m, read[i]));
      done := done + Emitted(m, read[i]);
      html := html + more;
    }
    ghost var m := ModeOf(listKind, listBuf, inCode, codeBuf);
    PendingEnd(m);
    PageAppend(done, Flushed(m));
    var rest := Finish(listKind, listBuf, inCode, codeBuf);
    html := html + rest;
  }
}
