/** The inline markdown parser of tui/src/markdown.rs: code spans first, then bold,
    then italic. A span carries the kind its style shows and the text it displays;
    code is displayed with a space on either side.

    `Markup` puts the markers back. The parser and `Markup` are inverse to each other:
    every line is recovered from its spans, and every list of spans in the parser's
    normal form is recovered from its text. */
module Markdown {

  datatype Kind = Plain | Bold | Italic | Code

  datatype Span = Span(kind: Kind, content: string)

  datatype Cut = NoCut | Cut(start: nat, len: nat)

  // ----- Searching

  /** First position of `c`, or -1. */
  function FindChar(s: string, c: char): (i: int)
    ensures -1 <= i < |s|
    ensures i >= 0 ==> s[i] == c && c !in s[..i]
    ensures i < 0 ==> c !in s
  {
    if s == [] then -1
    else if s[0] == c then 0
    else
      var i := FindChar(s[1..], c);
      if i < 0 then (assert s == [s[0]] + s[1..]; -1) else (assert s[..i + 1] == [s[0]] + s[1..][..i]; i + 1)
  }

  predicate StarsAt(s: string, i: int) {
    0 <= i && i + 1 < |s| && s[i] == '*' && s[i + 1] == '*'
  }

  /** First position of a double star, or -1. */
  function FindStars(s: string): (i: int)
    ensures -1 <= i
    ensures i >= 0 ==> StarsAt(s, i)
    ensures forall j :: StarsAt(s, j) ==> 0 <= i <= j
  {
    if |s| < 2 then -1
    else if StarsAt(s, 0) then 0
    else
      var i := FindStars(s[1..]);
      assert forall j :: StarsAt(s, j) ==> StarsAt(s[1..], j - 1);
      if i < 0 then -1 else (assert StarsAt(s, i + 1); i + 1)
  }

  /** An opening and a closing backtick. */
  function CodeCut(s: string): (cut: Cut)
    ensures cut.Cut? ==> cut.start + cut.len + 2 <= |s|
  {
    var start := FindChar(s, '`');
    if start < 0 then NoCut
    else
      var end := FindChar(s[start + 1..], '`');
      if end < 0 then NoCut else Cut(start, end)
  }

  /** An opening and a closing double star. */
  function BoldCut(s: string): (cut: Cut)
    ensures cut.Cut? ==> cut.start + cut.len + 4 <= |s|
  {
    var start := FindStars(s);
    if start < 0 then NoCut
    else
      var end := FindStars(s[start + 2..]);
      if end < 0 then NoCut else Cut(start, end)
  }

  /** A star, some text without one, and a star. */
  function ItalicCut(s: string): (cut: Cut)
    ensures cut.Cut? ==> cut.start + cut.len + 2 <= |s|
  {
    var start := FindChar(s, '*');
    if start < 0 then NoCut
    else
      var after := s[start + 1..];
      if after != [] && after[0] == '*' then NoCut
      else
        var end := FindChar(after, '*');
        if end > 0 then Cut(start, end) else NoCut
  }

  // ----- Parsing

  function PlainIf(s: string): seq<Span> {
    if s == [] then [] else [Span(Plain, s)]
  }

  /** The marker fits twice around `cut.len` characters from `cut.start` on. */
  predicate Fits(rest: string, marker: nat, cut: Cut) {
    cut.Cut? && cut.start + cut.len + 2 * marker <= |rest|
  }

  /** The text between the two markers, and the text after them. */
  function Between(rest: string, marker: nat, cut: Cut): string
    requires Fits(rest, marker, cut)
  {
    rest[cut.start + marker..cut.start + marker + cut.len]
  }

  function After(rest: string, marker: nat, cut: Cut): (tail: string)
    requires Fits(rest, marker, cut)
    ensures |tail| == |rest| - cut.start - cut.len - 2 * marker
  {
    rest[cut.start + cut.len + 2 * marker..]
  }

  /** Bold and italic spans of a segment. */
  function Emphasis(rest: string): seq<Span>
    decreases |rest|
  {
    if rest == [] then []
    else
      var b := BoldCut(rest);
      if b.Cut? then
        PlainIf(rest[..b.start]) + [Span(Bold, Between(rest, 2, b))] + Emphasis(After(rest, 2, b))
      else
        var i := ItalicCut(rest);
        if i.Cut? then
          PlainIf(rest[..i.start]) + [Span(Italic, Between(rest, 1, i))] + Emphasis(After(rest, 1, i))
        else [Span(Plain, rest)]
  }

  function Padded(code: string): string {
    " " + code + " "
  }

  /** All spans of a line. */
  function Spans(rest: string): seq<Span>
    decreases |rest|
  {
    if rest == [] then []
    else
      var c := CodeCut(rest);
      if c.Cut? then
        Emphasis(rest[..c.start]) + [Span(Code, Padded(Between(rest, 1, c)))] + Spans(After(rest, 1, c))
      else Emphasis(rest)
  }

  function Inline(text: string): seq<Span> {
    if Spans(text) == [] then [Span(Plain, "")] else Spans(text)
  }

  // ----- The loops

  /** `split_at` the opening marker, then slice the tail. */
  method SplitOff(rest: string, marker: nat, cut: Cut) returns (before: string, inner: string, left: string)
    requires Fits(rest, marker, cut)
    ensures before == rest[..cut.start] && inner == Between(rest, marker, cut) && left == After(rest, marker, cut)
  {
    var tail := rest[cut.start..];
    before := rest[..cut.start];
    inner := tail[marker..marker + cut.len];
    left := tail[marker + cut.len + marker..];
  }

  /** One round of `push_emphasis`: the spans it pushes and the text it leaves. */
  method EmphasisRound(rest: string) returns (pushed: seq<Span>, left: string)
    requires rest != []
    ensures |left| < |rest| && Emphasis(rest) == pushed + Emphasis(left)
  {
    var before, inner;
    var bold := BoldCut(rest);
    if bold.Cut? {
      before, inner, left := SplitOff(rest, 2, bold);
      pushed := PlainIf(before) + [Span(Bold, inner)];
      return;
    }
    var italic := ItalicCut(rest);
    if italic.Cut? {
      before, inner, left := SplitOff(rest, 1, italic);
      pushed := PlainIf(before) + [Span(Italic, inner)];
      return;
    }
    pushed, left := [Span(Plain, rest)], [];
  }

  /** `push_emphasis`. */
  method PushEmphasis(text: string, spans: seq<Span>) returns (r: seq<Span>)
    ensures r == spans + Emphasis(text)
  {
    r := spans;
    var rest := text;
    while rest != []
      invariant r + Emphasis(rest) == spans + Emphasis(text)
      decreases |rest|
    {
      var pushed, left := EmphasisRound(rest);
      r, rest := r + pushed, left;
    }
  }

  /** One round of `inline`. */
  method InlineRound(rest: string, spans: seq<Span>) returns (r: seq<Span>, left: string)
    requires rest != []
    ensures |left| < |rest| && spans + Spans(rest) == r + Spans(left)
  {
    var code := CodeCut(rest);
    if code.Cut? {
      var before, inner;
      before, inner, left := SplitOff(rest, 1, code);
      r := PushEmphasis(before, spans);
      r := r + [Span(Code, Padded(inner))];
    } else {
      r := PushEmphasis(rest, spans);
      left := [];
    }
  }

  /** `inline`. */
  method InlineSpans(text: string) returns (spans: seq<Span>)
    ensures spans == Inline(text)
  {
    spans := [];
    var rest := text;
    while rest != []
      invariant spans + Spans(rest) == Spans(text)
      decreases |rest|
    {
      spans, rest := InlineRound(rest, spans);
    }
    if spans == [] {
      spans := [Span(Plain, "")];
    }
  }

  // ----- Nothing is lost

  /** The source text of one span: its markers around its text, without the padding of code. */
  function MarkupOf(s: Span): string {
    match s.kind
    case Plain => s.content
    case Bold => "**" + s.content + "**"
    case Italic => "*" + s.content + "*"
    case Code => if |s.content| < 2 then s.content else "`" + s.content[1..|s.content| - 1] + "`"
  }

  function Flatten(f: Span -> string, spans: seq<Span>): string {
    if spans == [] then [] else f(spans[0]) + Flatten(f, spans[1..])
  }

  function Markup(spans: seq<Span>): string {
    Flatten(MarkupOf, spans)
  }

  lemma {:induction false} FlattenAppend(f: Span -> string, a: seq<Span>, b: seq<Span>)
    ensures Flatten(f, a + b) == Flatten(f, a) + Flatten(f, b)
  {
    if a == [] {
      assert a + b == b;
    } else {
      FlattenAppend(f, a[1..], b);
      assert (a + b)[0] == a[0] && (a + b)[1..] == a[1..] + b;
    }
  }

  lemma FlattenThree(f: Span -> string, a: seq<Span>, s: Span, b: seq<Span>)
    ensures Flatten(f, a + [s] + b) == Flatten(f, a) + f(s) + Flatten(f, b)
  {
    FlattenAppend(f, a + [s], b);
    FlattenAppend(f, a, [s]);
    assert Flatten(f, [s][1..]) == [];
  }

  lemma MarkupOne(s: Span)
    ensures Markup([s]) == MarkupOf(s)
  {
    assert [] + [s] + [] == [s];
    FlattenThree(MarkupOf, [], s, []);
  }

  /** Text before a marked span, the span, and what follows. */
  lemma MarkupThree(before: seq<Span>, s: Span, after: seq<Span>)
    ensures Markup(before + [s] + after) == Markup(before) + MarkupOf(s) + Markup(after)
  {
    FlattenThree(MarkupOf, before, s, after);
  }

  lemma MarkupPlainIf(s: string)
    ensures Markup(PlainIf(s)) == s
  {
    if s != [] { MarkupOne(Span(Plain, s)); }
  }

  /** A text cut at two equal markers. */
  lemma CutText(s: string, mark: string, cut: Cut)
    requires Fits(s, |mark|, cut)
    requires s[cut.start..cut.start + |mark|] == mark
    requires s[cut.start + |mark| + cut.len..cut.start + cut.len + 2 * |mark|] == mark
    ensures s == s[..cut.start] + (mark + Between(s, |mark|, cut) + mark) + After(s, |mark|, cut)
  {}

  lemma BoldText(s: string)
    requires BoldCut(s).Cut?
    ensures var b := BoldCut(s);
            s == s[..b.start] + ("**" + Between(s, 2, b) + "**") + After(s, 2, b)
  {
    var b := BoldCut(s);
    assert StarsAt(s[b.start + 2..], b.len);
    assert s[b.start..b.start + 2] == "**" && s[b.start + 2 + b.len..b.start + b.len + 4] == "**";
    CutText(s, "**", b);
  }

  lemma ItalicText(s: string)
    requires ItalicCut(s).Cut?
    ensures var i := ItalicCut(s);
            s == s[..i.start] + ("*" + Between(s, 1, i) + "*") + After(s, 1, i)
  {
    var i := ItalicCut(s);
    assert s[i.start + 1..][i.len] == s[i.start + 1 + i.len];
    assert s[i.start..i.start + 1] == "*" && s[i.start + 1 + i.len..i.start + i.len + 2] == "*";
    CutText(s, "*", i);
  }

  lemma CodeText(s: string)
    requires CodeCut(s).Cut?
    ensures var c := CodeCut(s);
            s == s[..c.start] + ("`" + Between(s, 1, c) + "`") + After(s, 1, c)
  {
    var c := CodeCut(s);
    assert s[c.start + 1..][c.len] == s[c.start + 1 + c.len];
    assert s[c.start..c.start + 1] == "`" && s[c.start + 1 + c.len..c.start + c.len + 2] == "`";
    CutText(s, "`", c);
  }

  lemma {:induction false} EmphasisLossless(rest: string)
    ensures Markup(Emphasis(rest)) == rest
    decreases |rest|
  {
    if rest == [] { return; }
    var b, i := BoldCut(rest), ItalicCut(rest);
    if b.Cut? {
      var tail := After(rest, 2, b);
      EmphasisLossless(tail);
      MarkupPlainIf(rest[..b.start]);
      MarkupThree(PlainIf(rest[..b.start]), Span(Bold, Between(rest, 2, b)), Emphasis(tail));
      BoldText(rest);
    } else if i.Cut? {
      var tail := After(rest, 1, i);
      EmphasisLossless(tail);
      MarkupPlainIf(rest[..i.start]);
      MarkupThree(PlainIf(rest[..i.start]), Span(Italic, Between(rest, 1, i)), Emphasis(tail));
      ItalicText(rest);
    } else {
      MarkupOne(Span(Plain, rest));
    }
  }

  lemma MarkupOfCode(inner: string)
    ensures MarkupOf(Span(Code, Padded(inner))) == "`" + inner + "`"
  {
    assert Padded(inner)[1..|Padded(inner)| - 1] == inner;
  }

  lemma {:induction false} SpansLossless(rest: string)
    ensures Markup(Spans(rest)) == rest
    decreases |rest|
  {
    if rest == [] { return; }
    var c := CodeCut(rest);
    if c.Cut? {
      var tail, inner := After(rest, 1, c), Between(rest, 1, c);
      SpansLossless(tail);
      EmphasisLossless(rest[..c.start]);
      MarkupThree(Emphasis(rest[..c.start]), Span(Code, Padded(inner)), Spans(tail));
      MarkupOfCode(inner);
      CodeText(rest);
    } else {
      EmphasisLossless(rest);
    }
  }

  /** Main result, first half: for every line, putting the markers back gives the line. */
  lemma InlineLossless(text: string)
    ensures Markup(Inline(text)) == text
  {
    SpansLossless(text);
    if Spans(text) == [] { MarkupOne(Span(Plain, "")); }
  }

  // ----- The parser's normal form

  /** No double star starts in `s`, even if a star follows. */
  ghost predicate OpenEnded(s: string) {
    forall j :: !StarsAt(s + "*", j)
  }

  /** Plain text in front of the first marked span. */
  function Lead(spans: seq<Span>): string {
    if spans != [] && spans[0].kind.Plain? then spans[0].content else []
  }

  /** Position of the first marked span. */
  function MarkedAt(spans: seq<Span>): nat {
    if spans != [] && spans[0].kind.Plain? then 1 else 0
  }

  /** The spans of a segment: bold spans, each at the first double star that has a partner,
      then italic spans once no partner is left, then plain text that holds neither. */
  ghost predicate NormalSegment(spans: seq<Span>)
    decreases |spans|
  {
    spans == []
    || (var p, k := Lead(spans), MarkedAt(spans);
        && (k == 1 ==> p != [])
        && if k == |spans| then BoldCut(p).NoCut? && ItalicCut(p).NoCut?
           else
             && NormalSegment(spans[k + 1..])
             && match spans[k].kind
                case Bold => OpenEnded(p) && OpenEnded(spans[k].content)
                case Italic => '*' !in p && spans[k].content != [] && '*' !in spans[k].content
                               && BoldCut(Markup(spans)).NoCut?
                case _ => false)
  }

  /** How a segment with a marked span starts. */
  lemma SegmentText(spans: seq<Span>)
    requires spans != [] && MarkedAt(spans) < |spans|
    ensures var k := MarkedAt(spans);
            Markup(spans) == Lead(spans) + MarkupOf(spans[k]) + Markup(spans[k + 1..])
  {
    var k := MarkedAt(spans);
    assert spans == spans[..k] + [spans[k]] + spans[k + 1..];
    MarkupThree(spans[..k], spans[k], spans[k + 1..]);
    if k == 1 {
      assert spans[..1] == [spans[0]];
      MarkupOne(spans[0]);
    }
  }

  lemma LeadOf(p: string, s: Span, rest: seq<Span>)
    requires !s.kind.Plain?
    ensures var spans := PlainIf(p) + [s] + rest;
            && MarkedAt(spans) == |PlainIf(p)| && Lead(spans) == p
            && spans[MarkedAt(spans)] == s && spans[MarkedAt(spans) + 1..] == rest
  {}

  lemma FirstStars(p: string, x: string)
    requires OpenEnded(p)
    ensures FindStars(p + "**" + x) == |p|
  {
    var s := p + "**" + x;
    assert StarsAt(s, |p|);
    assert forall j :: StarsAt(s, j) && j < |p| ==> StarsAt(p + "*", j);
  }

  lemma FirstChar(p: string, c: char, x: string)
    requires c !in p
    ensures FindChar(p + [c] + x, c) == |p|
  {
    var s := p + [c] + x;
    var i := FindChar(s, c);
    assert s[|p|] == c;
    assert forall j :: 0 <= j < i ==> s[..i][j] == s[j];
    assert forall j :: 0 <= j < |p| ==> s[j] == p[j];
  }

  lemma CutIs(s: string, p: string, mark: string, inner: string, x: string)
    requires s == p + mark + inner + mark + x
    ensures var cut := Cut(|p|, |inner|);
            && Fits(s, |mark|, cut) && s[..|p|] == p
            && Between(s, |mark|, cut) == inner && After(s, |mark|, cut) == x
            && s[|p| + |mark|..] == inner + mark + x
  {}

  lemma BoldCutIs(p: string, b: string, x: string)
    requires OpenEnded(p) && OpenEnded(b)
    ensures BoldCut(p + "**" + b + "**" + x) == Cut(|p|, |b|)
  {
    var s := p + "**" + b + "**" + x;
    CutIs(s, p, "**", b, x);
    assert s == p + "**" + (b + "**" + x);
    FirstStars(p, b + "**" + x);
    FirstStars(b, x);
  }

  lemma ItalicCutIs(p: string, i: string, x: string)
    requires '*' !in p && '*' !in i && i != []
    ensures ItalicCut(p + "*" + i + "*" + x) == Cut(|p|, |i|)
  {
    var s := p + "*" + i + "*" + x;
    CutIs(s, p, "*", i, x);
    assert s == p + "*" + (i + "*" + x);
    FirstChar(p, '*', i + "*" + x);
    FirstChar(i, '*', x);
  }

  lemma CodeCutIs(p: string, c: string, x: string)
    requires '`' !in p && '`' !in c
    ensures CodeCut(p + "`" + c + "`" + x) == Cut(|p|, |c|)
  {
    var s := p + "`" + c + "`" + x;
    CutIs(s, p, "`", c, x);
    assert s == p + "`" + (c + "`" + x);
    FirstChar(p, '`', c + "`" + x);
    FirstChar(c, '`', x);
  }

  lemma Reassociate(p: string, mark: string, inner: string, x: string)
    ensures p + (mark + inner + mark) + x == p + mark + inner + mark + x
  {}

  lemma PlainIfLead(spans: seq<Span>)
    requires MarkedAt(spans) == 1 ==> Lead(spans) != []
    ensures PlainIf(Lead(spans)) == spans[..MarkedAt(spans)]
  {}

  lemma EmphasisCutBold(text: string, p: string, m: string, x: string)
    requires text == p + "**" + m + "**" + x && OpenEnded(p) && OpenEnded(m)
    ensures Emphasis(text) == PlainIf(p) + [Span(Bold, m)] + Emphasis(x)
  {
    BoldCutIs(p, m, x);
    CutIs(text, p, "**", m, x);
  }

  lemma EmphasisCutItalic(text: string, p: string, m: string, x: string)
    requires text == p + "*" + m + "*" + x && BoldCut(text).NoCut?
    requires '*' !in p && '*' !in m && m != []
    ensures Emphasis(text) == PlainIf(p) + [Span(Italic, m)] + Emphasis(x)
  {
    ItalicCutIs(p, m, x);
    CutIs(text, p, "*", m, x);
  }

  /** Parsing undoes `Markup` on segments in normal form. */
  lemma {:induction false} EmphasisOfMarkup(spans: seq<Span>)
    requires NormalSegment(spans)
    ensures Emphasis(Markup(spans)) == spans
    decreases |spans|
  {
    if spans == [] { return; }
    var p, k := Lead(spans), MarkedAt(spans);
    if k == |spans| {
      assert spans == [Span(Plain, p)];
      MarkupOne(spans[0]);
    } else {
      var m, rest := spans[k], spans[k + 1..];
      assert spans == spans[..k] + [m] + rest;
      EmphasisOfMarkup(rest);
      SegmentText(spans);
      PlainIfLead(spans);
      if m.kind.Bold? {
        Reassociate(p, "**", m.content, Markup(rest));
        EmphasisCutBold(Markup(spans), p, m.content, Markup(rest));
      } else {
        Reassociate(p, "*", m.content, Markup(rest));
        EmphasisCutItalic(Markup(spans), p, m.content, Markup(rest));
      }
    }
  }

  lemma BoldParts(s: string)
    requires BoldCut(s).Cut?
    ensures OpenEnded(s[..BoldCut(s).start]) && OpenEnded(Between(s, 2, BoldCut(s)))
  {
    var b := BoldCut(s);
    var after := s[b.start + 2..];
    forall j ensures !StarsAt(s[..b.start] + "*", j) {
      if StarsAt(s[..b.start] + "*", j) { assert StarsAt(s, j); }
    }
    forall j ensures !StarsAt(Between(s, 2, b) + "*", j) {
      assert Between(s, 2, b) == after[..b.len];
      if StarsAt(after[..b.len] + "*", j) { assert StarsAt(after, j); }
    }
  }

  lemma NormalBold(p: string, m: string, rest: seq<Span>)
    requires OpenEnded(p) && OpenEnded(m) && NormalSegment(rest)
    ensures NormalSegment(PlainIf(p) + [Span(Bold, m)] + rest)
  {
    LeadOf(p, Span(Bold, m), rest);
  }

  lemma NormalItalic(p: string, m: string, rest: seq<Span>)
    requires '*' !in p && '*' !in m && m != [] && NormalSegment(rest)
    requires BoldCut(Markup(PlainIf(p) + [Span(Italic, m)] + rest)).NoCut?
    ensures NormalSegment(PlainIf(p) + [Span(Italic, m)] + rest)
  {
    LeadOf(p, Span(Italic, m), rest);
  }

  lemma ItalicParts(s: string)
    requires ItalicCut(s).Cut?
    ensures var i := ItalicCut(s);
            '*' !in s[..i.start] && '*' !in Between(s, 1, i) && Between(s, 1, i) != []
  {
    var i := ItalicCut(s);
    assert Between(s, 1, i) == s[i.start + 1..][..i.len];
  }

  /** What the parser returns for a segment is in normal form. */
  lemma {:induction false} EmphasisNormal(rest: string)
    ensures NormalSegment(Emphasis(rest))
    decreases |rest|
  {
    if rest == [] { return; }
    var b, i := BoldCut(rest), ItalicCut(rest);
    EmphasisLossless(rest);
    if b.Cut? {
      EmphasisNormal(After(rest, 2, b));
      BoldParts(rest);
      NormalBold(rest[..b.start], Between(rest, 2, b), Emphasis(After(rest, 2, b)));
    } else if i.Cut? {
      EmphasisNormal(After(rest, 1, i));
      ItalicParts(rest);
      NormalItalic(rest[..i.start], Between(rest, 1, i), Emphasis(After(rest, 1, i)));
    }
  }

  /** Position of the first code span; the length if there is none. */
  function CodeAt(spans: seq<Span>): (k: nat)
    ensures k <= |spans|
    ensures k < |spans| ==> spans[k].kind.Code?
    ensures forall j :: 0 <= j < k ==> !spans[j].kind.Code?
  {
    if spans == [] then 0 else if spans[0].kind.Code? then 0 else 1 + CodeAt(spans[1..])
  }

  function Unpadded(content: string): string {
    if |content| < 2 then content else content[1..|content| - 1]
  }

  /** The spans of a line: segments without a backtick, each followed by a code span, and a
      last segment in which no backtick has a partner. */
  ghost predicate NormalLine(spans: seq<Span>)
    decreases |spans|
  {
    var k := CodeAt(spans);
    && NormalSegment(spans[..k])
    && if k == |spans| then CodeCut(Markup(spans)).NoCut?
       else
         && '`' !in Markup(spans[..k])
         && spans[k].content == " " + Unpadded(spans[k].content) + " " && '`' !in Unpadded(spans[k].content)
         && NormalLine(spans[k + 1..])
  }

  lemma {:induction false} SegmentHasNoCode(spans: seq<Span>, j: nat)
    requires NormalSegment(spans) && j < |spans|
    ensures !spans[j].kind.Code?
    decreases |spans|
  {
    var k := MarkedAt(spans);
    if j > k {
      SegmentHasNoCode(spans[k + 1..], j - k - 1);
      assert spans[k + 1..][j - k - 1] == spans[j];
    }
  }

  lemma CodeAtOf(a: seq<Span>, c: Span, b: seq<Span>)
    requires c.kind.Code? && forall j :: 0 <= j < |a| ==> !a[j].kind.Code?
    ensures CodeAt(a + [c] + b) == |a|
    ensures (a + [c] + b)[..|a|] == a && (a + [c] + b)[|a|] == c && (a + [c] + b)[|a| + 1..] == b
  {
    assert (a + [c] + b)[|a|] == c;
  }

  lemma SpansCut(text: string, p: string, inner: string, x: string)
    requires text == p + "`" + inner + "`" + x && '`' !in p && '`' !in inner
    ensures Spans(text) == Emphasis(p) + [Span(Code, Padded(inner))] + Spans(x)
  {
    CodeCutIs(p, inner, x);
    CutIs(text, p, "`", inner, x);
  }

  lemma MarkupWithCode(seg: seq<Span>, inner: string, rest: seq<Span>)
    ensures Markup(seg + [Span(Code, Padded(inner))] + rest) == Markup(seg) + "`" + inner + "`" + Markup(rest)
  {
    MarkupThree(seg, Span(Code, Padded(inner)), rest);
    MarkupOfCode(inner);
    Reassociate(Markup(seg), "`", inner, Markup(rest));
  }

  lemma CodeLineOfMarkup(seg: seq<Span>, inner: string, rest: seq<Span>)
    requires '`' !in Markup(seg) && '`' !in inner && Emphasis(Markup(seg)) == seg && Spans(Markup(rest)) == rest
    ensures var spans := seg + [Span(Code, Padded(inner))] + rest; Spans(Markup(spans)) == spans
  {
    var spans := seg + [Span(Code, Padded(inner))] + rest;
    MarkupWithCode(seg, inner, rest);
    SpansCut(Markup(spans), Markup(seg), inner, Markup(rest));
  }

  lemma LastLineOfMarkup(spans: seq<Span>)
    requires NormalSegment(spans) && CodeCut(Markup(spans)).NoCut?
    ensures Spans(Markup(spans)) == spans
  {
    EmphasisOfMarkup(spans);
  }

  lemma LineParts(spans: seq<Span>, k: nat)
    requires k < |spans| && spans[k].kind.Code? && spans[k].content == Padded(Unpadded(spans[k].content))
    ensures spans == spans[..k] + [Span(Code, Padded(Unpadded(spans[k].content)))] + spans[k + 1..]
  {
    assert spans[k] == Span(Code, Padded(Unpadded(spans[k].content)));
  }

  /** Parsing undoes `Markup` on lines in normal form. */
  lemma {:induction false} SpansOfMarkup(spans: seq<Span>)
    requires NormalLine(spans)
    ensures Spans(Markup(spans)) == spans
    decreases |spans|
  {
    var k := CodeAt(spans);
    if k == |spans| {
      assert spans[..k] == spans;
      LastLineOfMarkup(spans);
    } else {
      LineParts(spans, k);
      EmphasisOfMarkup(spans[..k]);
      SpansOfMarkup(spans[k + 1..]);
      CodeLineOfMarkup(spans[..k], Unpadded(spans[k].content), spans[k + 1..]);
    }
  }

  lemma LineWithCode(seg: seq<Span>, inner: string, tail: seq<Span>)
    requires NormalSegment(seg) && '`' !in Markup(seg) && '`' !in inner && NormalLine(tail)
    ensures NormalLine(seg + [Span(Code, Padded(inner))] + tail)
  {
    forall j | 0 <= j < |seg| ensures !seg[j].kind.Code? { SegmentHasNoCode(seg, j); }
    CodeAtOf(seg, Span(Code, Padded(inner)), tail);
    assert Unpadded(Padded(inner)) == inner;
  }

  lemma LineWithoutCode(seg: seq<Span>)
    requires NormalSegment(seg) && CodeCut(Markup(seg)).NoCut?
    ensures NormalLine(seg)
  {
    forall j | 0 <= j < |seg| ensures !seg[j].kind.Code? { SegmentHasNoCode(seg, j); }
    assert seg[..CodeAt(seg)] == seg;
  }

  lemma CodeParts(s: string)
    requires CodeCut(s).Cut?
    ensures '`' !in s[..CodeCut(s).start] && '`' !in Between(s, 1, CodeCut(s))
  {
    var c := CodeCut(s);
    assert Between(s, 1, c) == s[c.start + 1..][..c.len];
  }

  /** What the parser returns for a line is in normal form. */
  lemma {:induction false} SpansNormal(rest: string)
    ensures NormalLine(Spans(rest))
    decreases |rest|
  {
    if rest == [] { return; }
    var c := CodeCut(rest);
    if c.Cut? {
      var p := rest[..c.start];
      EmphasisNormal(p);
      EmphasisLossless(p);
      SpansNormal(After(rest, 1, c));
      CodeParts(rest);
      LineWithCode(Emphasis(p), Between(rest, 1, c), Spans(After(rest, 1, c)));
    } else {
      EmphasisNormal(rest);
      EmphasisLossless(rest);
      LineWithoutCode(Emphasis(rest));
    }
  }

  /** Main result, second half: the parser returns spans in normal form, and every nonempty
      list in normal form is what the parser returns for its text. With `InlineLossless`,
      lines and normal forms correspond one to one. */
  lemma InlineNormal(text: string, spans: seq<Span>)
    ensures if text == [] then Inline(text) == [Span(Plain, "")] else NormalLine(Inline(text))
    ensures NormalLine(spans) && spans != [] ==> Inline(Markup(spans)) == spans
  {
    SpansNormal(text);
    SpansLossless(text);
    if NormalLine(spans) { SpansOfMarkup(spans); }
  }
}
