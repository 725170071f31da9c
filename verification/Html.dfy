/** Escaping and the two inline constructs of the help renderer, on character sequences, together with
    the tokens of the HTML they produce. */
module Html {
  import opened Common

  // ---------------------------------------------------------------------
  // Escaping

  /** `html.EscapeString`, character by character. */
  function Entity(c: char): (s: string)
    ensures s != ""
  {
    if c == '&' then "&amp;"
    else if c == '<' then "&lt;"
    else if c == '>' then "&gt;"
    else if c == '"' then "&#34;"
    else if c == '\'' then "&#39;"
    else [c]
  }

  function Escape(s: string): (e: string) {
    if s == "" then "" else Entity(s[0]) + Escape(s[1..])
  }

  predicate StartsWith(s: string, p: string) {
    |p| <= |s| && s[..|p|] == p
  }

  /** The entities `Escape` writes, read back. */
  function Unescape(s: string): (u: string)
    decreases |s|
  {
    if s == "" then ""
    else if StartsWith(s, "&amp;") then "&" + Unescape(s[5..])
    else if StartsWith(s, "&lt;") then "<" + Unescape(s[4..])
    else if StartsWith(s, "&gt;") then ">" + Unescape(s[4..])
    else if StartsWith(s, "&#34;") then "\"" + Unescape(s[5..])
    else if StartsWith(s, "&#39;") then "'" + Unescape(s[5..])
    else [s[0]] + Unescape(s[1..])
  }

  lemma {:induction false} UnescapeEntity(c: char, rest: string)
    ensures Unescape(Entity(c) + rest) == [c] + Unescape(rest)
  {
    var s := Entity(c) + rest;
    assert s[..|Entity(c)|] == Entity(c) && s[|Entity(c)|..] == rest;
    if |Entity(c)| == 1 {
      assert s[0] == c;
    } else if c != '&' {
      assert s[1] == Entity(c)[1] && Entity(c)[1] != 'a';
      if |Entity(c)| == 5 {
        assert s[3] == Entity(c)[3];
      }
    }
  }

  /** Escaped text determines its source. */
  lemma {:induction false} UnescapeEscape(s: string)
    ensures Unescape(Escape(s)) == s
  {
    if s != "" {
      UnescapeEntity(s[0], Escape(s[1..]));
      UnescapeEscape(s[1..]);
    }
  }

  ghost predicate Plain(s: string) {
    forall i :: 0 <= i < |s| ==> s[i] != '<' && s[i] != '>'
  }

  predicate IsSpecial(c: char) {
    c == '&' || c == '<' || c == '>' || c == '"' || c == '\''
  }

  /** No bracket and no quote survives, so escaped text fits between tags and inside an attribute. */
  lemma {:induction false} EscapeIsInert(s: string, i: nat)
    requires i < |Escape(s)| && IsSpecial(Escape(s)[i])
    ensures Escape(s)[i] == '&'
  {
    if i >= |Entity(s[0])| {
      EscapeIsInert(s[1..], i - |Entity(s[0])|);
    }
  }

  lemma {:induction false} EscapeChangesIff(s: string)
    ensures Escape(s) == s <==> forall i :: 0 <= i < |s| ==> !IsSpecial(s[i])
  {
    if s != "" {
      EscapeChangesIff(s[1..]);
      assert s == [s[0]] + s[1..];
      if IsSpecial(s[0]) {
        EscapeNotShorter(s[1..]);
        assert |Escape(s)| > |s|;
      } else {
        assert Escape(s) == [s[0]] + Escape(s[1..]);
        assert Escape(s)[1..] == Escape(s[1..]);
        assert forall i :: 0 <= i < |s[1..]| ==> s[1..][i] == s[i + 1];
        assert forall i :: 1 <= i < |s| ==> s[i] == s[1..][i - 1];
      }
    }
  }

  lemma {:induction false} EscapeNotShorter(s: string)
    ensures |Escape(s)| >= |s|
  {
    if s != "" {
      EscapeNotShorter(s[1..]);
    }
  }

  lemma {:induction false} EscapePlain(s: string)
    ensures Plain(Escape(s))
  {
    if s != "" {
      EscapePlain(s[1..]);
    }
  }

  // ---------------------------------------------------------------------
  // Bold and inline code

  /** The end of the shortest bold text that is closed at j or later: no line break, then two asterisks. */
  function BoldEnd(s: string, j: nat): (r: Option<nat>)
    ensures r.Some? ==> j <= r.value && r.value + 2 <= |s|
    decreases |s| - j
  {
    if j + 2 > |s| then None
    else if s[j] == '*' && s[j + 1] == '*' then Some(j)
    else if s[j] == '\n' then None
    else BoldEnd(s, j + 1)
  }

  /** Where bold text that starts here ends; it has at least one character. */
  function BoldAt(s: string): (r: Option<nat>)
    ensures r.Some? ==> 3 <= r.value && r.value + 2 <= |s|
  {
    if |s| >= 5 && s[0] == '*' && s[1] == '*' && s[2] != '\n' then BoldEnd(s, 3) else None
  }

  /** `boldPattern.ReplaceAllString`: leftmost matches, shortest content. */
  function Bold(s: string): (r: string)
    decreases |s|
  {
    if s == "" then ""
    else if BoldAt(s).Some? then
      var j := BoldAt(s).value;
      Element(Strong, s[2..j], Bold(s[j + 2..]))
    else [s[0]] + Bold(s[1..])
  }

  /** The position of the first backquote, or the length. */
  function Tick(s: string): (i: nat)
    ensures i <= |s|
    ensures i < |s| ==> s[i] == '`'
  {
    if s == "" || s[0] == '`' then 0 else 1 + Tick(s[1..])
  }

  /** What the first backquotes of a sequence do: there is no further span, or two backquotes follow
      each other and the second may start one, or a span with at least one element is found. */
  datatype Ticks<T> = NoSpan | Adjacent(before: T, rest: T) | Span(before: T, inner: T, rest: T)

  /** The text before and after the first backquote. */
  function TextCut(s: string): (r: Option<(string, string)>)
    ensures r.Some? ==> |r.value.0| + |r.value.1| < |s|
  {
    if Tick(s) == |s| then None else Some((s[..Tick(s)], s[Tick(s) + 1..]))
  }

  function TextTicks(s: string): (t: Ticks<string>)
    ensures t.Adjacent? || t.Span? ==> |t.rest| < |s|
  {
    match TextCut(s)
    case None => NoSpan
    case Some((before, after)) =>
      match TextCut(after)
      case None => NoSpan
      case Some((inner, rest)) => if inner == "" then Adjacent(before, after) else Span(before, inner, rest)
  }

  /** `inlineCodeExpr.ReplaceAllString`: a backquote, at least one other character, a backquote. */
  function CodeSpans(s: string): (r: string)
    decreases |s|
  {
    match TextTicks(s)
    case NoSpan => s
    case Adjacent(before, rest) => before + ("`" + CodeSpans(rest))
    case Span(before, inner, rest) => before + Element(Code, inner, CodeSpans(rest))
  }

  /** `inlineMarkdown`. */
  function Inline(s: string): (r: string) {
    CodeSpans(Bold(Escape(s)))
  }

  // ---------------------------------------------------------------------
  // Tokens

  datatype Tag = H3 | P | Ul | Ol | Li | Pre | Code | Strong

  datatype Token = Char(c: char) | Open(tag: Tag) | Close(tag: Tag)

  function Name(t: Tag): (s: string)
    ensures s != ""
  {
    match t
    case H3 => "h3"
    case P => "p"
    case Ul => "ul"
    case Ol => "ol"
    case Li => "li"
    case Pre => "pre"
    case Code => "code"
    case Strong => "strong"
  }

  function Glyph(t: Token): (s: string)
    ensures s != ""
  {
    match t
    case Char(c) => [c]
    case Open(tag) => "<" + Name(tag) + ">"
    case Close(tag) => "</" + Name(tag) + ">"
  }

  /** A tag around a text, and what follows. */
  function Element(tag: Tag, inner: string, rest: string): (s: string) {
    Glyph(Open(tag)) + (inner + (Glyph(Close(tag)) + rest))
  }

  function Spell(ts: seq<Token>): (s: string) {
    if ts == [] then "" else Glyph(ts[0]) + Spell(ts[1..])
  }

  function Chars(s: string): (ts: seq<Token>)
    ensures |ts| == |s|
    ensures forall i :: 0 <= i < |s| ==> ts[i] == Char(s[i])
  {
    seq(|s|, i requires 0 <= i < |s| => Char(s[i]))
  }

  lemma {:induction false} SpellAppend(a: seq<Token>, b: seq<Token>)
    ensures Spell(a + b) == Spell(a) + Spell(b)
  {
    if a == [] {
      assert a + b == b;
    } else {
      assert (a + b)[1..] == a[1..] + b;
      SpellAppend(a[1..], b);
    }
  }

  lemma {:induction false} SpellChars(s: string)
    ensures Spell(Chars(s)) == s
  {
    if s != "" {
      assert Chars(s)[1..] == Chars(s[1..]);
      SpellChars(s[1..]);
    }
  }

  lemma {:induction false} SpellLength(ts: seq<Token>)
    ensures |Spell(ts)| >= |ts|
  {
    if ts != [] {
      SpellLength(ts[1..]);
    }
  }

  /** No angle bracket outside a tag. */
  ghost predicate Safe(ts: seq<Token>) {
    forall i :: 0 <= i < |ts| ==> ts[i] != Char('<') && ts[i] != Char('>')
  }

  /** Opening minus closing tags. */
  function Net(ts: seq<Token>, tag: Tag): (n: int) {
    if ts == [] then 0 else
      Net(ts[1..], tag) + (if ts[0] == Open(tag) then 1 else if ts[0] == Close(tag) then -1 else 0)
  }

  lemma {:induction false} NetAppend(a: seq<Token>, b: seq<Token>, tag: Tag)
    ensures Net(a + b, tag) == Net(a, tag) + Net(b, tag)
  {
    if a == [] {
      assert a + b == b;
    } else {
      assert (a + b)[1..] == a[1..] + b;
      NetAppend(a[1..], b, tag);
    }
  }

  predicate IsInline(t: Token) {
    t.Char? || t.tag == Code || t.tag == Strong
  }

  ghost predicate AllInline(ts: seq<Token>) {
    forall i :: 0 <= i < |ts| ==> IsInline(ts[i])
  }

  /** Bold and code spans may overlap, so only block tags are matched with a stack. */
  function Nest(ts: seq<Token>, stack: seq<Tag>): (r: Option<seq<Tag>>) {
    if ts == [] then Some(stack)
    else if IsInline(ts[0]) then Nest(ts[1..], stack)
    else if ts[0].Open? then Nest(ts[1..], [ts[0].tag] + stack)
    else if stack != [] && stack[0] == ts[0].tag then Nest(ts[1..], stack[1..])
    else None
  }

  lemma {:induction false} NestAppend(a: seq<Token>, b: seq<Token>, stack: seq<Tag>)
    requires Nest(a, stack).Some?
    ensures Nest(a + b, stack) == Nest(b, Nest(a, stack).value)
  {
    if a == [] {
      assert a + b == b;
    } else {
      assert (a + b)[1..] == a[1..] + b;
      NestAppend(a[1..], b, if IsInline(a[0]) then stack else if a[0].Open? then [a[0].tag] + stack else stack[1..]);
    }
  }

  lemma {:induction false} NestInline(ts: seq<Token>, stack: seq<Tag>)
    requires AllInline(ts)
    ensures Nest(ts, stack) == Some(stack)
  {
    if ts != [] {
      NestInline(ts[1..], stack);
    }
  }

  /** One inline tag read along the text: it is open or not, opens only when it is not, closes only when
      it is, and is not open where a block tag stands. */
  function Spans(ts: seq<Token>, tag: Tag, open: bool): (r: Option<bool>) {
    if ts == [] then Some(open)
    else if ts[0].Char? then Spans(ts[1..], tag, open)
    else if ts[0].tag == tag then if ts[0].Open? == open then None else Spans(ts[1..], tag, !open)
    else if IsInline(ts[0]) || !open then Spans(ts[1..], tag, open)
    else None
  }

  /** Inside its block the tag alternates between opening and closing, and ends closed. */
  predicate Alternates(ts: seq<Token>, tag: Tag) {
    Spans(ts, tag, false) == Some(false)
  }

  lemma {:induction false} SpansAppend(a: seq<Token>, b: seq<Token>, tag: Tag, open: bool)
    requires Spans(a, tag, open).Some?
    ensures Spans(a + b, tag, open) == Spans(b, tag, Spans(a, tag, open).value)
  {
    if a == [] {
      assert a + b == b;
    } else {
      assert (a + b)[1..] == a[1..] + b;
      SpansAppend(a[1..], b, tag, if a[0].Char? || a[0].tag != tag then open else !open);
    }
  }

  ghost predicate Without(ts: seq<Token>, tag: Tag) {
    AllInline(ts) && forall i :: 0 <= i < |ts| ==> ts[i].Char? || ts[i].tag != tag
  }

  lemma {:induction false} SpansWithout(ts: seq<Token>, tag: Tag, open: bool)
    requires Without(ts, tag)
    ensures Spans(ts, tag, open) == Some(open)
  {
    if ts != [] {
      SpansWithout(ts[1..], tag, open);
    }
  }

  /** The tag around inner tokens that do not use it. */
  lemma {:induction false} SpansTagged(tag: Tag, inner: seq<Token>, rest: seq<Token>)
    requires Without(inner, tag) && Alternates(rest, tag)
    ensures Alternates(Tagged(tag, inner, rest), tag)
  {
    var tail := [Close(tag)] + rest;
    assert Tagged(tag, inner, rest)[1..] == inner + tail && tail[1..] == rest;
    SpansWithout(inner, tag, true);
    SpansAppend(inner, tail, tag, true);
  }

  lemma {:induction false} InlineParts(a: seq<Token>, b: seq<Token>)
    ensures Safe(a + b) && AllInline(a + b) <==> Safe(a) && AllInline(a) && Safe(b) && AllInline(b)
  {
    var ab := a + b;
    assert forall i :: 0 <= i < |a| ==> ab[i] == a[i];
    assert forall i :: 0 <= i < |b| ==> ab[|a| + i] == b[i];
  }

  lemma {:induction false} CharsNet(s: string, tag: Tag)
    ensures Net(Chars(s), tag) == 0
  {
    if s != "" {
      assert Chars(s)[1..] == Chars(s[1..]);
      CharsNet(s[1..], tag);
    }
  }

  /** A tag around tokens, and what follows. */
  function Tagged(tag: Tag, inner: seq<Token>, rest: seq<Token>): (ts: seq<Token>) {
    [Open(tag)] + (inner + ([Close(tag)] + rest))
  }

  lemma {:induction false} TaggedSpell(tag: Tag, inner: seq<Token>, rest: seq<Token>)
    ensures Spell(Tagged(tag, inner, rest)) == Element(tag, Spell(inner), Spell(rest))
  {
    SpellAppend([Open(tag)], inner + ([Close(tag)] + rest));
    SpellAppend(inner, [Close(tag)] + rest);
    SpellAppend([Close(tag)], rest);
    SpellOne(Open(tag));
    SpellOne(Close(tag));
  }

  lemma {:induction false} SpellOne(t: Token)
    ensures Spell([t]) == Glyph(t)
  {
  }

  lemma {:induction false} TaggedNet(tag: Tag, inner: seq<Token>, rest: seq<Token>, t: Tag)
    ensures Net(Tagged(tag, inner, rest), t) == Net(inner, t) + Net(rest, t)
  {
    NetAppend([Open(tag)], inner + ([Close(tag)] + rest), t);
    NetAppend(inner, [Close(tag)] + rest, t);
    NetAppend([Close(tag)], rest, t);
  }

  lemma {:induction false} TaggedInline(tag: Tag, inner: seq<Token>, rest: seq<Token>)
    requires tag == Code || tag == Strong
    requires Safe(inner) && AllInline(inner) && Safe(rest) && AllInline(rest)
    ensures Safe(Tagged(tag, inner, rest)) && AllInline(Tagged(tag, inner, rest))
  {
  }

  /** Inline tokens: safe, free of block tags, each tag alternating and in equal number. */
  ghost predicate InlineOk(ts: seq<Token>) {
    && Safe(ts) && AllInline(ts) && Alternates(ts, Strong) && Alternates(ts, Code)
    && forall tag :: Net(ts, tag) == 0
  }

  // ---------------------------------------------------------------------
  // The tokens of inline text

  function BoldTokens(s: string): (ts: seq<Token>)
    decreases |s|
  {
    if s == "" then []
    else if BoldAt(s).Some? then
      var j := BoldAt(s).value;
      Tagged(Strong, Chars(s[2..j]), BoldTokens(s[j + 2..]))
    else [Char(s[0])] + BoldTokens(s[1..])
  }

  lemma {:induction false} BoldSpelled(s: string)
    ensures Spell(BoldTokens(s)) == Bold(s)
    decreases |s|
  {
    if s != "" {
      if BoldAt(s).Some? {
        var j := BoldAt(s).value;
        BoldSpelled(s[j + 2..]);
        SpellChars(s[2..j]);
        TaggedSpell(Strong, Chars(s[2..j]), BoldTokens(s[j + 2..]));
      } else {
        BoldSpelled(s[1..]);
        SpellAppend([Char(s[0])], BoldTokens(s[1..]));
        SpellOne(Char(s[0]));
      }
    }
  }

  lemma {:induction false} BoldInline(s: string)
    requires Plain(s)
    ensures Safe(BoldTokens(s)) && AllInline(BoldTokens(s))
    decreases |s|
  {
    if s != "" {
      if BoldAt(s).Some? {
        var j := BoldAt(s).value;
        BoldInline(s[j + 2..]);
        TaggedInline(Strong, Chars(s[2..j]), BoldTokens(s[j + 2..]));
      } else {
        BoldInline(s[1..]);
        InlineParts([Char(s[0])], BoldTokens(s[1..]));
      }
    }
  }

  lemma {:induction false} BoldNet(s: string, tag: Tag)
    ensures Net(BoldTokens(s), tag) == 0
    decreases |s|
  {
    if s != "" {
      if BoldAt(s).Some? {
        var j := BoldAt(s).value;
        BoldNet(s[j + 2..], tag);
        CharsNet(s[2..j], tag);
        TaggedNet(Strong, Chars(s[2..j]), BoldTokens(s[j + 2..]), tag);
      } else {
        BoldNet(s[1..], tag);
        NetAppend([Char(s[0])], BoldTokens(s[1..]), tag);
      }
    }
  }

  lemma {:induction false} BoldWithoutCode(s: string)
    requires Plain(s)
    ensures Without(BoldTokens(s), Code)
    decreases |s|
  {
    BoldInline(s);
    if s != "" {
      if BoldAt(s).Some? {
        BoldWithoutCode(s[BoldAt(s).value + 2..]);
      } else {
        BoldWithoutCode(s[1..]);
      }
    }
  }

  lemma {:induction false} BoldAlternates(s: string)
    ensures Alternates(BoldTokens(s), Strong)
    decreases |s|
  {
    if s != "" {
      if BoldAt(s).Some? {
        var j := BoldAt(s).value;
        BoldAlternates(s[j + 2..]);
        SpansTagged(Strong, Chars(s[2..j]), BoldTokens(s[j + 2..]));
      } else {
        BoldAlternates(s[1..]);
        assert BoldTokens(s)[1..] == BoldTokens(s[1..]);
      }
    }
  }

  /** The position of the first backquote token, or the length. */
  function TickToken(ts: seq<Token>): (i: nat)
    ensures i <= |ts|
    ensures i < |ts| ==> ts[i] == Char('`')
  {
    if ts == [] || ts[0] == Char('`') then 0 else 1 + TickToken(ts[1..])
  }

  function TokenCut(ts: seq<Token>): (r: Option<(seq<Token>, seq<Token>)>)
    ensures r.Some? ==> |r.value.0| + |r.value.1| < |ts|
    ensures r.Some? ==> ts == r.value.0 + ([Char('`')] + r.value.1)
  {
    if TickToken(ts) == |ts| then None else Some((ts[..TickToken(ts)], ts[TickToken(ts) + 1..]))
  }

  function TokenTicks(ts: seq<Token>): (t: Ticks<seq<Token>>)
    ensures t.Adjacent? || t.Span? ==> |t.rest| < |ts|
  {
    match TokenCut(ts)
    case None => NoSpan
    case Some((before, after)) =>
      match TokenCut(after)
      case None => NoSpan
      case Some((inner, rest)) => if inner == [] then Adjacent(before, after) else Span(before, inner, rest)
  }

  function CodeTokens(ts: seq<Token>): (r: seq<Token>)
    decreases |ts|
  {
    match TokenTicks(ts)
    case NoSpan => ts
    case Adjacent(before, rest) => before + ([Char('`')] + CodeTokens(rest))
    case Span(before, inner, rest) => before + Tagged(Code, inner, CodeTokens(rest))
  }

  lemma {:induction false} TickSkip(p: string, s: string)
    requires forall i :: 0 <= i < |p| ==> p[i] != '`'
    ensures Tick(p + s) == |p| + Tick(s)
  {
    if p == "" {
      assert p + s == s;
    } else {
      assert (p + s)[1..] == p[1..] + s;
      TickSkip(p[1..], s);
    }
  }

  lemma {:induction false} GlyphTick(t: Token)
    requires t != Char('`')
    ensures forall i :: 0 <= i < |Glyph(t)| ==> Glyph(t)[i] != '`'
  {
  }

  /** The first backquote of the text is the first backquote token. */
  lemma {:induction false} TickSpelled(ts: seq<Token>)
    ensures Tick(Spell(ts)) == |Spell(ts[..TickToken(ts)])|
  {
    if ts != [] && ts[0] != Char('`') {
      TickSpelled(ts[1..]);
      GlyphTick(ts[0]);
      TickSkip(Glyph(ts[0]), Spell(ts[1..]));
      assert ts[..TickToken(ts)][1..] == ts[1..][..TickToken(ts[1..])];
    }
  }

  /** Text cut at a token boundary. */
  lemma {:induction false} SpellCut(ts: seq<Token>, i: nat)
    requires i <= |ts|
    ensures Spell(ts) == Spell(ts[..i]) + Spell(ts[i..])
  {
    assert ts == ts[..i] + ts[i..];
    SpellAppend(ts[..i], ts[i..]);
  }

  lemma {:induction false} TextParts(before: string, after: string)
    requires Tick(before + ("`" + after)) == |before|
    ensures TextCut(before + ("`" + after)) == Some((before, after))
  {
    var s := before + ("`" + after);
    assert s[..|before|] == before && s[|before| + 1..] == after;
  }

  /** The first backquote cuts text and tokens in the same place. */
  lemma {:induction false} CutSpelled(ts: seq<Token>)
    ensures match TokenCut(ts)
      case None => TextCut(Spell(ts)) == None
      case Some((before, after)) => TextCut(Spell(ts)) == Some((Spell(before), Spell(after)))
  {
    var i := TickToken(ts);
    TickSpelled(ts);
    if i < |ts| {
      SpellCut(ts, i);
      assert ts[i..][1..] == ts[i + 1..];
      TextParts(Spell(ts[..i]), Spell(ts[i + 1..]));
    } else {
      assert ts[..i] == ts;
    }
  }

  function SpellTicks(t: Ticks<seq<Token>>): (r: Ticks<string>) {
    match t
    case NoSpan => NoSpan
    case Adjacent(before, rest) => Adjacent(Spell(before), Spell(rest))
    case Span(before, inner, rest) => Span(Spell(before), Spell(inner), Spell(rest))
  }

  lemma {:induction false} TicksSpelled(ts: seq<Token>)
    ensures TextTicks(Spell(ts)) == SpellTicks(TokenTicks(ts))
  {
    CutSpelled(ts);
    match TokenCut(ts) {
      case None =>
      case Some((before, after)) =>
        CutSpelled(after);
        match TokenCut(after) {
          case None =>
          case Some((inner, rest)) => SpellLength(inner);
        }
    }
  }

  lemma {:induction false} CodeSpelled(ts: seq<Token>)
    ensures CodeSpans(Spell(ts)) == Spell(CodeTokens(ts))
    decreases |ts|
  {
    TicksSpelled(ts);
    match TokenTicks(ts) {
      case NoSpan =>
      case Adjacent(before, rest) =>
        CodeSpelled(rest);
        SpellAppend(before, [Char('`')] + CodeTokens(rest));
        SpellAppend([Char('`')], CodeTokens(rest));
        SpellOne(Char('`'));
      case Span(before, inner, rest) =>
        CodeSpelled(rest);
        SpellAppend(before, Tagged(Code, inner, CodeTokens(rest)));
        TaggedSpell(Code, inner, CodeTokens(rest));
    }
  }

  lemma {:induction false} TicksParts(ts: seq<Token>)
    ensures match TokenTicks(ts)
      case NoSpan => true
      case Adjacent(before, rest) => ts == before + ([Char('`')] + rest)
      case Span(before, inner, rest) => ts == before + ([Char('`')] + (inner + ([Char('`')] + rest)))
  {
  }

  lemma {:induction false} CodeInline(ts: seq<Token>)
    requires Safe(ts) && AllInline(ts)
    ensures Safe(CodeTokens(ts)) && AllInline(CodeTokens(ts))
    decreases |ts|
  {
    TicksParts(ts);
    match TokenTicks(ts) {
      case NoSpan =>
      case Adjacent(before, rest) =>
        InlineParts(before, [Char('`')] + rest);
        InlineParts([Char('`')], rest);
        CodeInline(rest);
        InlineParts([Char('`')], CodeTokens(rest));
        InlineParts(before, [Char('`')] + CodeTokens(rest));
      case Span(before, inner, rest) =>
        InlineParts(before, [Char('`')] + (inner + ([Char('`')] + rest)));
        InlineParts([Char('`')], inner + ([Char('`')] + rest));
        InlineParts(inner, [Char('`')] + rest);
        InlineParts([Char('`')], rest);
        CodeInline(rest);
        TaggedInline(Code, inner, CodeTokens(rest));
        InlineParts(before, Tagged(Code, inner, CodeTokens(rest)));
    }
  }

  lemma {:induction false} TickNet(before: seq<Token>, rest: seq<Token>, tag: Tag)
    ensures Net(before + ([Char('`')] + rest), tag) == Net(before, tag) + Net(rest, tag)
  {
    NetAppend(before, [Char('`')] + rest, tag);
    NetAppend([Char('`')], rest, tag);
  }

  lemma {:induction false} CodeNet(ts: seq<Token>, tag: Tag)
    ensures Net(CodeTokens(ts), tag) == Net(ts, tag)
    decreases |ts|
  {
    TicksParts(ts);
    match TokenTicks(ts) {
      case NoSpan =>
      case Adjacent(before, rest) =>
        CodeNet(rest, tag);
        TickNet(before, rest, tag);
        TickNet(before, CodeTokens(rest), tag);
      case Span(before, inner, rest) =>
        CodeNet(rest, tag);
        TickNet(before, inner + ([Char('`')] + rest), tag);
        TickNet(inner, rest, tag);
        NetAppend(before, Tagged(Code, inner, CodeTokens(rest)), tag);
        TaggedNet(Code, inner, CodeTokens(rest), tag);
    }
  }

  lemma {:induction false} WithoutParts(a: seq<Token>, b: seq<Token>, tag: Tag)
    requires Without(a + b, tag)
    ensures Without(a, tag) && Without(b, tag)
  {
    var ab := a + b;
    assert forall i :: 0 <= i < |a| ==> ab[i] == a[i];
    assert forall i :: 0 <= i < |b| ==> ab[|a| + i] == b[i];
  }

  /** Code spans never overlap. */
  lemma {:induction false} CodeAlternates(ts: seq<Token>)
    requires Without(ts, Code)
    ensures Alternates(CodeTokens(ts), Code)
    decreases |ts|
  {
    TicksParts(ts);
    match TokenTicks(ts) {
      case NoSpan => SpansWithout(ts, Code, false);
      case Adjacent(before, rest) =>
        WithoutParts(before, [Char('`')] + rest, Code);
        WithoutParts([Char('`')], rest, Code);
        CodeAlternates(rest);
        SpansWithout(before, Code, false);
        SpansAppend(before, [Char('`')] + CodeTokens(rest), Code, false);
        assert ([Char('`')] + CodeTokens(rest))[1..] == CodeTokens(rest);
      case Span(before, inner, rest) =>
        WithoutParts(before, [Char('`')] + (inner + ([Char('`')] + rest)), Code);
        WithoutParts([Char('`')], inner + ([Char('`')] + rest), Code);
        WithoutParts(inner, [Char('`')] + rest, Code);
        WithoutParts([Char('`')], rest, Code);
        CodeAlternates(rest);
        SpansWithout(before, Code, false);
        SpansAppend(before, Tagged(Code, inner, CodeTokens(rest)), Code, false);
        SpansTagged(Code, inner, CodeTokens(rest));
    }
  }

  /** A token that another tag's span passes over. */
  lemma {:induction false} SpansSkip(t: Token, rest: seq<Token>, tag: Tag, open: bool)
    requires t.Char? || (IsInline(t) && t.tag != tag)
    ensures Spans([t] + rest, tag, open) == Spans(rest, tag, open)
  {
    assert ([t] + rest)[1..] == rest;
  }

  /** The spans of the first part, and on from there. */
  lemma {:induction false} SpansSplit(a: seq<Token>, b: seq<Token>, tag: Tag, open: bool)
    requires Spans(a + b, tag, open).Some?
    ensures Spans(a, tag, open).Some? && Spans(a + b, tag, open) == Spans(b, tag, Spans(a, tag, open).value)
  {
    if a == [] {
      assert a + b == b;
    } else {
      assert (a + b)[1..] == a[1..] + b;
      SpansSplit(a[1..], b, tag, if a[0].Char? || a[0].tag != tag then open else !open);
    }
  }

  /** Turning backquotes into code tags leaves the bold spans as they were. */
  lemma {:induction false} CodeKeepsBold(ts: seq<Token>, open: bool)
    requires Spans(ts, Strong, open).Some?
    ensures Spans(CodeTokens(ts), Strong, open) == Spans(ts, Strong, open)
    decreases |ts|
  {
    TicksParts(ts);
    var tick := Char('`');
    match TokenTicks(ts) {
      case NoSpan =>
      case Adjacent(before, rest) =>
        SpansSplit(before, [tick] + rest, Strong, open);
        var o := Spans(before, Strong, open).value;
        SpansSkip(tick, rest, Strong, o);
        CodeKeepsBold(rest, o);
        SpansAppend(before, [tick] + CodeTokens(rest), Strong, open);
        SpansSkip(tick, CodeTokens(rest), Strong, o);
      case Span(before, inner, rest) =>
        SpansSplit(before, [tick] + (inner + ([tick] + rest)), Strong, open);
        var o := Spans(before, Strong, open).value;
        SpansSkip(tick, inner + ([tick] + rest), Strong, o);
        SpansSplit(inner, [tick] + rest, Strong, o);
        var p := Spans(inner, Strong, o).value;
        SpansSkip(tick, rest, Strong, p);
        CodeKeepsBold(rest, p);
        SpansAppend(before, Tagged(Code, inner, CodeTokens(rest)), Strong, open);
        SpansSkip(Open(Code), inner + ([Close(Code)] + CodeTokens(rest)), Strong, o);
        SpansAppend(inner, [Close(Code)] + CodeTokens(rest), Strong, o);
        SpansSkip(Close(Code), CodeTokens(rest), Strong, p);
    }
  }

  function InlineTokens(s: string): (ts: seq<Token>) {
    CodeTokens(BoldTokens(Escape(s)))
  }

  /** Inline text of any source: every angle bracket belongs to a strong or code tag, and each of these
      alternates between opening and closing and ends closed. */
  lemma {:induction false} InlineSafe(s: string)
    ensures Spell(InlineTokens(s)) == Inline(s) && InlineOk(InlineTokens(s))
  {
    EscapePlain(s);
    BoldSpelled(Escape(s));
    BoldInline(Escape(s));
    CodeSpelled(BoldTokens(Escape(s)));
    CodeInline(BoldTokens(Escape(s)));
    BoldAlternates(Escape(s));
    CodeKeepsBold(BoldTokens(Escape(s)), false);
    BoldWithoutCode(Escape(s));
    CodeAlternates(BoldTokens(Escape(s)));
    forall tag ensures Net(InlineTokens(s), tag) == 0 {
      BoldNet(Escape(s), tag);
      CodeNet(BoldTokens(Escape(s)), tag);
    }
  }

  // ---------------------------------------------------------------------
  // The source of inline text

  /** The Markdown that a token stands for. */
  function Mark(t: Token): (s: string) {
    if t.Char? then [t.c] else if t.tag == Strong then "**" else if t.tag == Code then "`" else ""
  }

  function Source(ts: seq<Token>): (s: string) {
    if ts == [] then "" else Mark(ts[0]) + Source(ts[1..])
  }

  lemma {:induction false} SourceAppend(a: seq<Token>, b: seq<Token>)
    ensures Source(a + b) == Source(a) + Source(b)
  {
    if a == [] {
      assert a + b == b;
    } else {
      assert (a + b)[1..] == a[1..] + b;
      SourceAppend(a[1..], b);
    }
  }

  lemma {:induction false} SourceChars(s: string)
    ensures Source(Chars(s)) == s
  {
    if s != "" {
      assert Chars(s)[1..] == Chars(s[1..]);
      SourceChars(s[1..]);
    }
  }

  lemma {:induction false} SourceCons(t: Token, rest: seq<Token>)
    ensures Source([t] + rest) == Mark(t) + Source(rest)
  {
  }

  lemma {:induction false} TaggedSource(tag: Tag, inner: seq<Token>, rest: seq<Token>)
    ensures Source(Tagged(tag, inner, rest)) == Mark(Open(tag)) + (Source(inner) + (Mark(Open(tag)) + Source(rest)))
  {
    SourceCons(Open(tag), inner + ([Close(tag)] + rest));
    SourceAppend(inner, [Close(tag)] + rest);
    SourceCons(Close(tag), rest);
  }

  lemma {:induction false} BoldCut(s: string)
    requires BoldAt(s).Some?
    ensures var j := BoldAt(s).value; s == "**" + (s[2..j] + ("**" + s[j + 2..]))
  {
    var j := BoldAt(s).value;
    BoldEndMark(s, 3);
    assert s[..2] == "**" && s[j..j + 2] == "**";
    assert s == s[..2] + (s[2..j] + (s[j..j + 2] + s[j + 2..]));
  }

  lemma {:induction false} BoldEndMark(s: string, j: nat)
    requires BoldEnd(s, j).Some?
    ensures s[BoldEnd(s, j).value..][..2] == "**"
    decreases |s| - j
  {
    if !(s[j] == '*' && s[j + 1] == '*') {
      BoldEndMark(s, j + 1);
    }
  }

  lemma {:induction false} BoldSource(s: string)
    ensures Source(BoldTokens(s)) == s
    decreases |s|
  {
    if s != "" {
      if BoldAt(s).Some? {
        var j := BoldAt(s).value;
        BoldSource(s[j + 2..]);
        SourceChars(s[2..j]);
        TaggedSource(Strong, Chars(s[2..j]), BoldTokens(s[j + 2..]));
        BoldCut(s);
      } else {
        BoldSource(s[1..]);
        SourceCons(Char(s[0]), BoldTokens(s[1..]));
      }
    }
  }

  lemma {:induction false} CodeSource(ts: seq<Token>)
    ensures Source(CodeTokens(ts)) == Source(ts)
    decreases |ts|
  {
    TicksParts(ts);
    match TokenTicks(ts) {
      case NoSpan =>
      case Adjacent(before, rest) =>
        CodeSource(rest);
        TickSource(before, rest);
        TickSource(before, CodeTokens(rest));
      case Span(before, inner, rest) =>
        CodeSource(rest);
        TickSource(before, inner + ([Char('`')] + rest));
        TickSource(inner, rest);
        SourceAppend(before, Tagged(Code, inner, CodeTokens(rest)));
        TaggedSource(Code, inner, CodeTokens(rest));
    }
  }

  lemma {:induction false} TickSource(before: seq<Token>, rest: seq<Token>)
    ensures Source(before + ([Char('`')] + rest)) == Source(before) + ("`" + Source(rest))
  {
    SourceAppend(before, [Char('`')] + rest);
    SourceCons(Char('`'), rest);
  }

  // ---------------------------------------------------------------------
  // The output read back

  /** The two characters that tell a tag's name from the others. */
  function Initial(tag: Tag): (i: (char, char)) {
    match tag
    case H3 => ('h', '3')
    case P => ('p', '>')
    case Ul => ('u', 'l')
    case Ol => ('o', 'l')
    case Li => ('l', 'i')
    case Pre => ('p', 'r')
    case Code => ('c', 'o')
    case Strong => ('s', 't')
  }

  lemma {:induction false} InitialOf(tag: Tag)
    ensures (Name(tag) + ">")[0] == Initial(tag).0 && (Name(tag) + ">")[1] == Initial(tag).1
  {
  }

  lemma {:induction false} OpenChars(tag: Tag, x: string)
    ensures var s := Glyph(Open(tag)) + x;
      |s| > 2 && s[0] == '<' && s[1] == Initial(tag).0 && s[2] == Initial(tag).1
  {
    InitialOf(tag);
    assert Glyph(Open(tag)) + x == "<" + ((Name(tag) + ">") + x);
  }

  lemma {:induction false} CloseChars(tag: Tag, x: string)
    ensures var s := Glyph(Close(tag)) + x;
      |s| > 3 && s[0] == '<' && s[1] == '/' && s[2] == Initial(tag).0 && s[3] == Initial(tag).1
  {
    InitialOf(tag);
    assert Glyph(Close(tag)) + x == "</" + ((Name(tag) + ">") + x);
  }

  /** The first token can be told from the text. */
  lemma {:induction false} FirstToken(t: Token, x: string, u: Token, y: string)
    requires Glyph(t) + x == Glyph(u) + y && t != Char('<') && u != Char('<')
    ensures t == u
  {
    TokenChars(t, x);
    TokenChars(u, y);
  }

  lemma {:induction false} TokenChars(t: Token, x: string)
    ensures var s := Glyph(t) + x;
      match t
      case Char(c) => s[0] == c
      case Open(tag) => |s| > 2 && s[0] == '<' && s[1] == Initial(tag).0 && s[2] == Initial(tag).1
      case Close(tag) =>
        |s| > 3 && s[0] == '<' && s[1] == '/' && s[2] == Initial(tag).0 && s[3] == Initial(tag).1
  {
    match t {
      case Char(c) =>
      case Open(tag) => OpenChars(tag, x);
      case Close(tag) => CloseChars(tag, x);
    }
  }

  lemma {:induction false} SameRest(p: string, x: string, y: string)
    requires p + x == p + y
    ensures x == y
  {
    assert x == (p + x)[|p|..] && y == (p + y)[|p|..];
  }

  /** Text without stray angle brackets reads back in one way only. */
  lemma {:induction false} SpellInjective(a: seq<Token>, b: seq<Token>)
    requires Safe(a) && Safe(b) && Spell(a) == Spell(b)
    ensures a == b
  {
    if a != [] && b != [] {
      FirstToken(a[0], Spell(a[1..]), b[0], Spell(b[1..]));
      SameRest(Glyph(a[0]), Spell(a[1..]), Spell(b[1..]));
      SpellInjective(a[1..], b[1..]);
      assert a == [a[0]] + a[1..] && b == [b[0]] + b[1..];
    } else {
      SpellLength(a);
      SpellLength(b);
    }
  }

  /** Nothing of inline text is lost, added or moved: however the output is read as characters and tags,
      with the tags taken as their markers and the entities as their characters it is the source. */
  lemma {:induction false} InlineReversible(s: string, ts: seq<Token>)
    requires Safe(ts) && Spell(ts) == Inline(s)
    ensures Unescape(Source(ts)) == s
  {
    InlineSafe(s);
    SpellInjective(ts, InlineTokens(s));
    BoldSource(Escape(s));
    CodeSource(BoldTokens(Escape(s)));
    UnescapeEscape(s);
  }

  /** So different texts have different output. */
  lemma {:induction false} InlineInjective(s: string, t: string)
    requires Inline(s) == Inline(t)
    ensures s == t
  {
    InlineSafe(s);
    InlineReversible(s, InlineTokens(s));
    InlineReversible(t, InlineTokens(s));
  }

  // ---------------------------------------------------------------------
  // What is bold and what is code

  /** Two asterisks at e, and neither two asterisks nor a line break from j up to it. */
  ghost predicate ClosesAt(s: string, j: nat, e: nat) {
    && j <= e && e + 2 <= |s| && s[e] == '*' && s[e + 1] == '*'
    && forall k :: j <= k < e ==> s[k] != '\n' && !(s[k] == '*' && s[k + 1] == '*')
  }

  lemma {:induction false} BoldEndIff(s: string, j: nat, e: nat)
    ensures BoldEnd(s, j) == Some(e) <==> ClosesAt(s, j, e)
    decreases |s| - j
  {
    if j + 2 <= |s| && !(s[j] == '*' && s[j + 1] == '*') && s[j] != '\n' {
      BoldEndIff(s, j + 1, e);
    }
  }

  /** Bold text starts here and ends at e exactly when two asterisks, one character and the nearest closing
      pair on the same line say so. */
  lemma {:induction false} BoldAtIff(s: string, e: nat)
    ensures BoldAt(s) == Some(e) <==>
      |s| >= 5 && s[0] == '*' && s[1] == '*' && s[2] != '\n' && ClosesAt(s, 3, e)
  {
    BoldEndIff(s, 3, e);
  }

  /** No character of the text is this one. */
  ghost predicate Lacks(s: string, c: char) {
    forall i :: 0 <= i < |s| ==> s[i] != c
  }

  lemma {:induction false} BoldSkipsOne(c: char, s: string)
    requires c != '*'
    ensures Bold([c] + s) == [c] + Bold(s)
  {
    assert ([c] + s)[1..] == s;
  }

  lemma {:induction false} BoldSkips(p: string, s: string)
    requires Lacks(p, '*')
    ensures Bold(p + s) == p + Bold(s)
  {
    if p == "" {
      assert p + s == s;
    } else {
      assert p + s == [p[0]] + (p[1..] + s);
      BoldSkipsOne(p[0], p[1..] + s);
      BoldSkips(p[1..], s);
    }
  }

  lemma {:induction false} BoldSpan(x: string, rest: string)
    requires x != "" && Lacks(x, '*') && Lacks(x, '\n')
    ensures Bold("**" + (x + ("**" + rest))) == Element(Strong, x, Bold(rest))
  {
    var s, e := "**" + (x + ("**" + rest)), |x| + 2;
    assert s[e] == '*' && s[e + 1] == '*' && s[2..e] == x && s[e + 2..] == rest;
    forall k | 2 <= k < e ensures s[k] == x[k - 2] {
    }
    BoldAtIff(s, e);
  }

  lemma {:induction false} CodeSpan(p: string, x: string, rest: string)
    requires Lacks(p, '`') && Lacks(x, '`') && x != ""
    ensures CodeSpans(p + ("`" + (x + ("`" + rest)))) == p + Element(Code, x, CodeSpans(rest))
  {
    CutAtTick(p, x + ("`" + rest));
    CutAtTick(x, rest);
  }

  lemma {:induction false} CutAtTick(p: string, rest: string)
    requires Lacks(p, '`')
    ensures TextCut(p + ("`" + rest)) == Some((p, rest))
  {
    TickSkip(p, "`" + rest);
    TextParts(p, rest);
  }

  lemma {:induction false} NoTicks(s: string)
    requires Lacks(s, '`')
    ensures CodeSpans(s) == s
  {
    TickSkip(s, "");
    assert s + "" == s;
  }

  lemma {:induction false} EscapeAppend(a: string, b: string)
    ensures Escape(a + b) == Escape(a) + Escape(b)
  {
    if a == "" {
      assert a + b == b;
    } else {
      assert (a + b)[1..] == a[1..] + b;
      EscapeAppend(a[1..], b);
    }
  }

  lemma {:induction false} EscapeLacks(s: string, c: char)
    requires Lacks(s, c) && (c == '*' || c == '`' || c == '\n')
    ensures Lacks(Escape(s), c)
  {
    if s != "" {
      EscapeLacks(s[1..], c);
    }
  }

  lemma {:induction false} EscapeNonEmpty(s: string)
    requires s != ""
    ensures Escape(s) != ""
  {
  }

  /** Text without asterisks and backquotes is only escaped. */
  lemma {:induction false} InlinePlain(s: string)
    requires Lacks(s, '*') && Lacks(s, '`')
    ensures Inline(s) == Escape(s)
  {
    EscapeLacks(s, '*');
    EscapeLacks(s, '`');
    BoldSkips(Escape(s), "");
    assert Escape(s) + "" == Escape(s);
    NoTicks(Escape(s));
  }

  lemma {:induction false} EscapeMarks(p: string, mark: string, x: string, q: string)
    requires mark == "**" || mark == "`"
    ensures Escape(p + (mark + (x + (mark + q)))) == Escape(p) + (mark + (Escape(x) + (mark + Escape(q))))
  {
    EscapeAppend(p, mark + (x + (mark + q)));
    EscapeAppend(mark, x + (mark + q));
    EscapeAppend(x, mark + q);
    EscapeAppend(mark, q);
    assert Escape(mark) == mark by {
      assert "**"[1..] == "*" && "*"[1..] == "" && "`"[1..] == "";
    }
  }

  lemma {:induction false} ElementLacksTicks(p: string, x: string, q: string)
    requires Lacks(p, '`') && Lacks(x, '`') && Lacks(q, '`')
    ensures Lacks(p + Element(Strong, x, q), '`')
  {
    GlyphTick(Open(Strong));
    GlyphTick(Close(Strong));
  }

  /** Closed bold text becomes a strong element and the text around it is only escaped. */
  lemma {:induction false} InlineBold(p: string, x: string, q: string)
    requires x != "" && Lacks(x, '\n') && Lacks(p, '*') && Lacks(x, '*') && Lacks(q, '*')
    requires Lacks(p, '`') && Lacks(x, '`') && Lacks(q, '`')
    ensures Inline(p + ("**" + (x + ("**" + q)))) == Escape(p) + Element(Strong, Escape(x), Escape(q))
  {
    EscapeMarks(p, "**", x, q);
    EscapeLacks(p, '*');
    EscapeLacks(x, '*');
    EscapeLacks(x, '\n');
    EscapeLacks(q, '*');
    EscapeNonEmpty(x);
    BoldSkips(Escape(p), "**" + (Escape(x) + ("**" + Escape(q))));
    BoldSpan(Escape(x), Escape(q));
    BoldSkips(Escape(q), "");
    assert Escape(q) + "" == Escape(q);
    EscapeLacks(p, '`');
    EscapeLacks(x, '`');
    EscapeLacks(q, '`');
    ElementLacksTicks(Escape(p), Escape(x), Escape(q));
    NoTicks(Escape(p) + Element(Strong, Escape(x), Escape(q)));
  }

  lemma {:induction false} NotBold(s: string)
    requires Lacks(s, '*')
    ensures Bold(s) == s
  {
    BoldSkips(s, "");
    assert s + "" == s;
  }

  /** Text between backquotes becomes a code element. */
  lemma {:induction false} InlineCode(p: string, x: string, q: string)
    requires x != "" && Lacks(p, '*') && Lacks(x, '*') && Lacks(q, '*')
    requires Lacks(p, '`') && Lacks(x, '`') && Lacks(q, '`')
    ensures Inline(p + ("`" + (x + ("`" + q)))) == Escape(p) + Element(Code, Escape(x), Escape(q))
  {
    EscapeMarks(p, "`", x, q);
    var e := Escape(p) + ("`" + (Escape(x) + ("`" + Escape(q))));
    EscapeLacks(p, '*');
    EscapeLacks(x, '*');
    EscapeLacks(q, '*');
    NotBold(e);
    EscapeLacks(p, '`');
    EscapeLacks(x, '`');
    EscapeLacks(q, '`');
    EscapeNonEmpty(x);
    CodeSpan(Escape(p), Escape(x), Escape(q));
    NoTicks(Escape(q));
  }
}
