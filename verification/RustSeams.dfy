/** Where the marker of a projected text can come from: the seams between the production pieces, and text that spells
    the marker outside of comments and literals. */
module RustSeams {
  import opened Wrappers
  import opened RustMask
  import opened RustTestSpans
  import opened RustResync
  import opened RustProjection

  // ---------------------------------------------------------------- the marker is code

  predicate Quiet(c: char) { c != '/' && c != '"' && c != '\'' && c != 'b' && c != 'r' }

  /** No character of `w` starts a comment or a literal, whatever follows. */
  ghost predicate Calm(w: string) {
    && (forall k :: 0 <= k < |w| ==> Quiet(w[k]))
    && (forall k :: 0 <= k < |w| && w[k] == 'c' ==> k + 1 < |w| && Quiet(w[k + 1]))
  }

  lemma MarkerIsCalm()
    ensures Calm(Marker)
  {
  }

  lemma MarkerHead(k: nat)
    requires k < |Marker|
    ensures Marker[k] == '#' <==> k == 0
    ensures |Marker| == 32 && Marker[1] == '['
  {
  }

  lemma PlainChar(s: string, i: nat)
    requires i < |s| && Quiet(s[i]) && (s[i] == 'c' ==> i + 1 < |s| && Quiet(s[i + 1]))
    ensures Next(s, i) == Token(i + 1, true)
  {
    StartsTwo(s, i, '/', '/');
    StartsTwo(s, i, '/', '*');
    StartsTwo(s, i, 'b', 'r');
    StartsTwo(s, i, 'c', 'r');
    StartsTwo(s, i, 'b', '"');
    StartsTwo(s, i, 'c', '"');
  }

  lemma PlainToken(s: string, i: nat)
    requires i < |s| && Quiet(s[i]) && (s[i] == 'c' ==> i + 1 < |s| && Quiet(s[i + 1]))
    ensures Tokens(s)[i] == Token(i + 1, true)
  {
    PlainChar(s, i);
    TokensAt(s, i);
  }

  lemma CalmToken(s: string, w: string, i: nat, k: nat)
    requires StartsWith(s, w, i) && Calm(w) && k < |w|
    ensures i + k < |s| && Tokens(s)[i + k] == Token(i + k + 1, true)
  {
    CharAt(s, w, i, k);
    if k + 1 < |w| { CharAt(s, w, i, k + 1); }
    PlainToken(s, i + k);
  }

  /** From `i` to `j` every character is a token of code. */
  ghost predicate Run(ts: seq<Token>, i: nat, j: nat) {
    i <= j <= |ts| && forall k :: i <= k < j ==> ts[k] == Token(k + 1, true)
  }

  lemma CalmRun(s: string, w: string, i: nat)
    requires StartsWith(s, w, i) && Calm(w)
    ensures Run(Tokens(s), i, i + |w|)
  {
    forall k | i <= k < i + |w| ensures Tokens(s)[k] == Token(k + 1, true) { CalmToken(s, w, i, k - i); }
  }

  lemma RunReached(ts: seq<Token>, i: nat, j: nat)
    requires Cuts(ts) && Run(ts, i, j) && Reach(ts, 0, i)
    ensures Reach(ts, 0, j)
  {
    ReachRun(ts, i, j);
    ReachTrans(ts, 0, i, j);
  }

  /** Such a word at the start of a token is read character by character, as code. */
  lemma CalmReached(s: string, w: string, i: nat)
    requires StartsWith(s, w, i) && Calm(w) && Cuts(Tokens(s)) && Reach(Tokens(s), 0, i)
    ensures Reach(Tokens(s), 0, i + |w|)
  {
    CalmRun(s, w, i);
    RunReached(Tokens(s), i, i + |w|);
  }

  lemma HashIsCode(s: string, k: nat)
    requires k < |s| && s[k] == '#' && Cuts(Tokens(s)) && Reach(Tokens(s), 0, k)
    ensures Tokens(s)[k] == Token(k + 1, true) && Mask(s, 0)[k] == '#'
  {
    PlainToken(s, k);
    VisibleIsCode(s, k);
  }

  // ---------------------------------------------------------------- spans start and end between tokens

  /** A place where an item is cut out of the text. */
  ghost predicate Cleaves(s: string, span: Span) {
    && span.start + 1 < span.end <= |s| && s[span.start] == '#' && s[span.start + 1] != '#'
    && Cuts(Tokens(s)) && Reach(Tokens(s), 0, span.start) && Reach(Tokens(s), 0, span.end)
  }

  /** The character before the end of an item. */
  lemma LastOfItem(m: string, i: nat, e: nat)
    requires i <= |m| && EndsItem(m, i, e)
    ensures i < e <= |m| && (m[e - 1] == ';' || m[e - 1] == '}')
  {
    var o := FirstOpener(m, i);
    if m[o] != ';' {
      assert Depth(m, o, o) == 0;
      assert Depth(m, o, e) == Depth(m, o, e - 1) + Shift(m[e - 1]);
    }
  }

  lemma AfterHash(m: string, i: nat)
    requires i < |m| && MatchAttribute(m, i).Some?
    ensures i + 1 < MatchAttribute(m, i).value && m[i] == '#' && m[i + 1] != '#'
  {
    var words := AttributeWords;
    var j := SkipSpace(m, i + 1);
    assert words[0] == "[";
    assert MatchWords(m, j + 1, words[1..]).Some?;
    forall w | w in words ensures '#' !in w {}
    WordsHaveNoHash(m, i + 1, words, i + 1);
  }

  lemma CodeEnds(s: string, k: nat)
    requires k < |s| && Mask(s, 0)[k] in {'#', ';', '}'}
    ensures s[k] == Mask(s, 0)[k] && Cuts(Tokens(s)) && Reach(Tokens(s), 0, k) && Reach(Tokens(s), 0, k + 1)
  {
    VisibleIsCode(s, k);
    ReachNext(Tokens(s), k);
  }

  lemma OneHash(s: string, a: nat)
    requires a + 1 < |s| && Mask(s, 0)[a] == '#' && Mask(s, 0)[a + 1] != '#'
    ensures s[a] == '#' && s[a + 1] != '#' && Cuts(Tokens(s)) && Reach(Tokens(s), 0, a)
  {
    CodeEnds(s, a);
    if s[a + 1] == '#' { HashIsCode(s, a + 1); }
  }

  /** What is seen of an item in the masked text. */
  ghost predicate Shape(m: string, span: Span) {
    && span.start + 1 < span.end <= |m| && m[span.start] == '#' && m[span.start + 1] != '#'
    && (m[span.end - 1] == ';' || m[span.end - 1] == '}')
  }

  lemma ItemShape(m: string, span: Span)
    requires IsItem(m, span)
    ensures Shape(m, span)
  {
    AfterHash(m, span.start);
    LastOfItem(m, MatchAttribute(m, span.start).value, span.end);
  }

  lemma ShapeCleaves(s: string, span: Span)
    requires Shape(Mask(s, 0), span)
    ensures Cleaves(s, span)
  {
    OneHash(s, span.start);
    CodeEnds(s, span.end - 1);
  }

  ghost predicate AllCleave(s: string, spans: seq<Span>) {
    forall k :: 0 <= k < |spans| ==> Cleaves(s, spans[k])
  }

  lemma ItemsCleave(s: string)
    ensures Ordered(SpansOf(s), 0, |s|) && AllCleave(s, SpansOf(s))
  {
    SpansAreTheTestItems(s);
    forall k | 0 <= k < |SpansOf(s)| ensures Cleaves(s, SpansOf(s)[k]) {
      ItemShape(Mask(s, 0), SpansOf(s)[k]);
      ShapeCleaves(s, SpansOf(s)[k]);
    }
  }

  // ---------------------------------------------------------------- the text and its projection

  /** Behind `p` the text `u` is the projection of `s` behind `cursor`, and both are between two tokens. */
  ghost predicate Laid(s: string, spans: seq<Span>, cursor: nat, u: string, p: nat) {
    && Ordered(spans, cursor, |s|) && AllCleave(s, spans)
    && cursor <= |s| && p <= |u| && u[p..] == Rest(s, spans, cursor)
    && Cuts(Tokens(s)) && Reach(Tokens(s), 0, cursor) && Cuts(Tokens(u)) && Reach(Tokens(u), 0, p)
  }

  lemma TwoParts(u: string, p: nat, a: string, r: string)
    requires p <= |u| && u[p..] == a + r
    ensures p + |a| <= |u| && u[p..p + |a|] == a && u[p + |a|..] == r
  {
    assert |u[p..]| == |a| + |r|;
    assert u[p..p + |a|] == u[p..][..|a|];
    assert u[p + |a|..] == u[p..][|a|..];
  }

  lemma ThreeParts(u: string, p: nat, a: string, w: string, r: string)
    requires p <= |u| && u[p..] == a + (w + r)
    ensures var q := p + |a|; StartsWith(u, w, q) && u[p..q] == a && u[q + |w|..] == r
  {
    TwoParts(u, p, a, w + r);
    TwoParts(u, p + |a|, w, r);
  }

  lemma SliceChar(s: string, i: nat, e: nat, u: string, p: nat, q: nat, k: nat)
    requires i <= k < e <= |s| && p <= q <= |u| && u[p..q] == s[i..e]
    ensures q - p == e - i && s[k] == u[k + (p - i)]
  {
    assert s[i..e][k - i] == s[k] && u[p..q][k - i] == u[p + (k - i)];
  }

  /** The piece before an item. */
  lemma AgreeBefore(s: string, i: nat, span: Span, u: string, p: nat, q: nat)
    requires i <= span.start && Cleaves(s, span) && p <= q && StartsWith(u, Marker, q) && u[p..q] == s[i..span.start]
    ensures Agree(s, u, p - i, i, span.start)
  {
    var e := span.start;
    assert q - p == e - i by { assert |u[p..q]| == |s[i..e]|; }
    MarkerHead(0);
    CharAt(u, Marker, q, 0);
    CharAt(u, Marker, q, 1);
    forall k | i <= k < e ensures s[k] == u[k + (p - i)] { SliceChar(s, i, e, u, p, q, k); }
  }

  /** The last piece. */
  lemma AgreeLast(s: string, i: nat, u: string, p: nat)
    requires i <= |s| && p <= |u| && u[p..] == s[i..]
    ensures Agree(s, u, p - i, i, |s|)
  {
    assert |u[p..]| == |s[i..]|;
    assert u[p..|u|] == s[i..|s|];
    forall k | i <= k < |s| ensures s[k] == u[k + (p - i)] { SliceChar(s, i, |s|, u, p, |u|, k); }
  }

  lemma TableReached(ts: seq<Token>, tu: seq<Token>, d: int, i: nat, e: nat, p: nat, q: nat)
    requires SameTokens(ts, tu, d, i, e) && p == i + d && q == e + d
    requires Reach(ts, 0, i) && Reach(ts, 0, e) && Reach(tu, 0, p)
    ensures Reach(ts, i, e) && Reach(tu, 0, q)
  {
    ReachLinear(ts, 0, i, e);
    ReachSame(ts, tu, d, i, e);
    ReachTrans(tu, 0, p, q);
  }

  /** The starts of tokens of a piece. */
  lemma PieceReached(s: string, u: string, ts: seq<Token>, tu: seq<Token>, d: int, i: nat, e: nat, p: nat, q: nat)
    requires ts == Tokens(s) && tu == Tokens(u) && Cuts(ts) && Cuts(tu) && p == i + d && q == e + d
    requires Agree(s, u, d, i, e) && Reach(ts, 0, i) && Reach(ts, 0, e) && Reach(tu, 0, p)
    ensures Reach(ts, i, e) && SameTokens(ts, tu, d, i, e) && Reach(tu, 0, q)
  {
    TablesSame(s, u, d, i, e);
    TableReached(ts, tu, d, i, e, p, q);
  }

  lemma MarkerReached(u: string, q: nat)
    requires StartsWith(u, Marker, q) && Cuts(Tokens(u)) && Reach(Tokens(u), 0, q)
    ensures Reach(Tokens(u), 0, q + |Marker|)
  {
    MarkerIsCalm();
    CalmReached(u, Marker, q);
  }

  lemma LaidText(s: string, spans: seq<Span>, cursor: nat, u: string, p: nat, q: nat)
    requires Ordered(spans, cursor, |s|) && cursor <= |s| && p <= |u| && u[p..] == Rest(s, spans, cursor) && spans != []
    requires q == p + (spans[0].start - cursor)
    ensures Ordered(spans[1..], spans[0].end, |s|)
    ensures StartsWith(u, Marker, q) && u[p..q] == s[cursor..spans[0].start]
    ensures u[q + |Marker|..] == Rest(s, spans[1..], spans[0].end)
  {
    RestStep(s, spans, cursor);
    ThreeParts(u, p, s[cursor..spans[0].start], Marker, Rest(s, spans[1..], spans[0].end));
  }

  lemma ReachItem(s: string, i: nat, span: Span, u: string, p: nat, q: nat)
    requires i <= span.start && Cleaves(s, span) && Reach(Tokens(s), 0, i) && q == p + (span.start - i)
    requires Agree(s, u, p - i, i, span.start) && StartsWith(u, Marker, q) && Cuts(Tokens(u)) && Reach(Tokens(u), 0, p)
    ensures Reach(Tokens(u), 0, q) && Reach(Tokens(u), 0, q + |Marker|)
  {
    PieceReached(s, u, Tokens(s), Tokens(u), p - i, i, span.start, p, q);
    MarkerReached(u, q);
  }

  /** The piece before the next item, and the place of that item. */
  lemma LaidFirst(s: string, spans: seq<Span>, cursor: nat, u: string, p: nat, q: nat)
    requires Laid(s, spans, cursor, u, p) && spans != [] && q == p + (spans[0].start - cursor)
    ensures Cleaves(s, spans[0]) && StartsWith(u, Marker, q) && Agree(s, u, p - cursor, cursor, spans[0].start)
    ensures Reach(Tokens(u), 0, q) && Reach(Tokens(u), 0, q + |Marker|)
  {
    LaidText(s, spans, cursor, u, p, q);
    AgreeBefore(s, cursor, spans[0], u, p, q);
    ReachItem(s, cursor, spans[0], u, p, q);
  }

  /** What follows the next item. */
  lemma LaidNext(s: string, spans: seq<Span>, cursor: nat, u: string, p: nat, q: nat)
    requires Laid(s, spans, cursor, u, p) && spans != [] && q == p + (spans[0].start - cursor)
    ensures Laid(s, spans[1..], spans[0].end, u, q + |Marker|)
  {
    LaidText(s, spans, cursor, u, p, q);
    LaidFirst(s, spans, cursor, u, p, q);
  }

  // ---------------------------------------------------------------- seams

  /** The places of the markers between the pieces, when the first piece starts at `p`. */
  ghost function Seams(pieces: seq<string>, p: nat): seq<nat> {
    if |pieces| <= 1 then [] else [p + |pieces[0]|] + Seams(pieces[1..], p + |pieces[0]| + |Marker|)
  }

  /** The marker at the start of a token. */
  ghost predicate CodeMarker(u: string, k: nat) {
    StartsWith(u, Marker, k) && Cuts(Tokens(u)) && Reach(Tokens(u), 0, k)
  }

  lemma SeamsStep(s: string, spans: seq<Span>, cursor: nat, p: nat)
    requires Ordered(spans, cursor, |s|) && cursor <= |s| && spans != []
    ensures Ordered(spans[1..], spans[0].end, |s|)
    ensures var q := p + (spans[0].start - cursor);
      Seams(Pieces(s, spans, cursor), p) == [q] + Seams(Pieces(s, spans[1..], spans[0].end), q + |Marker|)
  {
    TailOrdered(spans, cursor, |s|);
    assert Pieces(s, spans, cursor)[1..] == Pieces(s, spans[1..], spans[0].end);
  }

  /** At every seam there is a marker that the lexer reads as code. */
  lemma {:induction false} SeamsAreCode(s: string, spans: seq<Span>, cursor: nat, u: string, p: nat, k: nat)
    requires Laid(s, spans, cursor, u, p) && k in Seams(Pieces(s, spans, cursor), p)
    ensures CodeMarker(u, k)
    decreases |spans|
  {
    if spans != [] {
      var q := p + (spans[0].start - cursor);
      LaidFirst(s, spans, cursor, u, p, q);
      LaidNext(s, spans, cursor, u, p, q);
      SeamsStep(s, spans, cursor, p);
      if k != q { SeamsAreCode(s, spans[1..], spans[0].end, u, q + |Marker|, k); }
    }
  }

  /** From `cursor` on, text outside the spans that spells the marker is in a comment or a literal. */
  ghost predicate MarkersMasked(s: string, spans: seq<Span>, cursor: nat) {
    forall k :: cursor <= k < |s| && StartsWith(s, Marker, k) && !Covered(spans, k) ==> Mask(s, 0)[k] != '#'
  }

  lemma MarkerFits(s: string, u: string, d: int, i: nat, e: nat, k: nat)
    requires Agree(s, u, d, i, e) && StartsWith(u, Marker, k) && i + d <= k < e + d
    ensures k + |Marker| <= e + d && StartsWith(s, Marker, k - d) && s[k - d] == '#'
  {
    var j := Min(|Marker| - 1, e + d - k);
    CharAt(u, Marker, k, j);
    MarkerHead(j);
    MarkerHead(0);
    assert k + |Marker| <= e + d;
    forall j | 0 <= j < |Marker| ensures s[k - d + j] == Marker[j] { CharAt(u, Marker, k, j); }
    StartsBy(s, Marker, k - d);
  }

  /** A marker that the lexer reads as code in a piece is one in the text of the piece. */
  lemma MarkerOfPiece(s: string, u: string, ts: seq<Token>, tu: seq<Token>, d: int, i: nat, e: nat, k: nat)
    requires ts == Tokens(s) && tu == Tokens(u) && Cuts(ts) && Cuts(tu)
    requires Agree(s, u, d, i, e) && Reach(ts, 0, i) && Reach(ts, 0, e) && Reach(tu, 0, i + d)
    requires i + d <= k < e + d && Reach(tu, 0, k)
    ensures Reach(ts, 0, k - d)
  {
    PieceReached(s, u, ts, tu, d, i, e, i + d, e + d);
    ReachLinear(tu, 0, i + d, k);
    ReachBack(ts, tu, d, i, k - d, e);
    ReachTrans(ts, 0, i, k - d);
  }

  lemma VisibleMarker(s: string, u: string, d: int, i: nat, e: nat, k: nat)
    requires Agree(s, u, d, i, e) && i + d <= k < e + d && CodeMarker(u, k) && Reach(Tokens(u), 0, i + d)
    requires Cuts(Tokens(s)) && Reach(Tokens(s), 0, i) && Reach(Tokens(s), 0, e)
    ensures StartsWith(s, Marker, k - d) && Mask(s, 0)[k - d] == '#'
  {
    MarkerFits(s, u, d, i, e, k);
    MarkerOfPiece(s, u, Tokens(s), Tokens(u), d, i, e, k);
    HashIsCode(s, k - d);
  }

  lemma BeforeSpans(spans: seq<Span>, cursor: nat, len: nat, k: nat)
    requires Ordered(spans, cursor, len) && (spans != [] ==> k < spans[0].start)
    ensures !Covered(spans, k)
  {
  }

  lemma CoveredTail(spans: seq<Span>, k: nat)
    requires spans != [] && spans[0].end <= k
    ensures Covered(spans, k) ==> Covered(spans[1..], k)
  {
    if Covered(spans, k) {
      var j :| 0 <= j < |spans| && spans[j].start <= k < spans[j].end;
      assert spans[j] == spans[1..][j - 1];
    }
  }

  lemma MaskedTail(s: string, spans: seq<Span>, cursor: nat)
    requires Ordered(spans, cursor, |s|) && spans != [] && MarkersMasked(s, spans, cursor)
    ensures MarkersMasked(s, spans[1..], spans[0].end)
  {
    forall k | spans[0].end <= k < |s| && StartsWith(s, Marker, k) && !Covered(spans[1..], k) ensures Mask(s, 0)[k] != '#' {
      assert !Covered(spans, k) by { CoveredTail(spans, k); }
    }
  }

  lemma NoneInPiece(s: string, spans: seq<Span>, cursor: nat, u: string, p: nat, e: nat, k: nat)
    requires Ordered(spans, cursor, |s|) && MarkersMasked(s, spans, cursor) && (spans != [] ==> e == spans[0].start)
    requires Agree(s, u, p - cursor, cursor, e) && Cuts(Tokens(u)) && Reach(Tokens(u), 0, p) && p <= k < p + (e - cursor)
    requires Cuts(Tokens(s)) && Reach(Tokens(s), 0, cursor) && Reach(Tokens(s), 0, e)
    ensures !CodeMarker(u, k)
  {
    if CodeMarker(u, k) {
      VisibleMarker(s, u, p - cursor, cursor, e, k);
      BeforeSpans(spans, cursor, |s|, k - (p - cursor));
    }
  }

  lemma InsideMarker(u: string, q: nat, k: nat)
    requires StartsWith(u, Marker, q) && StartsWith(u, Marker, k) && q <= k < q + |Marker|
    ensures k == q
  {
    CharAt(u, Marker, q, k - q);
    CharAt(u, Marker, k, 0);
    MarkerHead(k - q);
    MarkerHead(0);
  }

  lemma NoneInLastPiece(s: string, cursor: nat, u: string, p: nat, k: nat)
    requires Laid(s, [], cursor, u, p) && MarkersMasked(s, [], cursor) && p <= k
    ensures !CodeMarker(u, k)
  {
    AgreeLast(s, cursor, u, p);
    ReachEnd(Tokens(s), 0);
    if k < |u| { NoneInPiece(s, [], cursor, u, p, |s|, k); }
  }

  lemma NoneBeforeItem(s: string, spans: seq<Span>, cursor: nat, u: string, p: nat, k: nat)
    requires Laid(s, spans, cursor, u, p) && spans != [] && MarkersMasked(s, spans, cursor)
    requires p <= k < p + (spans[0].start - cursor)
    ensures !CodeMarker(u, k)
  {
    LaidFirst(s, spans, cursor, u, p, p + (spans[0].start - cursor));
    NoneInPiece(s, spans, cursor, u, p, spans[0].start, k);
  }

  /** A marker read as code is the first seam, or comes after it. */
  lemma FirstSeam(s: string, spans: seq<Span>, cursor: nat, u: string, p: nat, q: nat, k: nat)
    requires Laid(s, spans, cursor, u, p) && spans != [] && MarkersMasked(s, spans, cursor) && p <= k && CodeMarker(u, k)
    requires q == p + (spans[0].start - cursor)
    ensures k == q || q + |Marker| <= k
  {
    if k < q {
      NoneBeforeItem(s, spans, cursor, u, p, k);
    } else if k < q + |Marker| {
      LaidText(s, spans, cursor, u, p, q);
      InsideMarker(u, q, k);
    }
  }

  lemma LaterSeam(s: string, spans: seq<Span>, cursor: nat, p: nat, q: nat, k: nat)
    requires Ordered(spans, cursor, |s|) && cursor <= |s| && spans != [] && q == p + (spans[0].start - cursor)
    requires Ordered(spans[1..], spans[0].end, |s|)
    requires k == q || k in Seams(Pieces(s, spans[1..], spans[0].end), q + |Marker|)
    ensures k in Seams(Pieces(s, spans, cursor), p)
  {
    SeamsStep(s, spans, cursor, p);
  }

  /** If no production text spells the marker as code, a marker read as code is a seam. */
  lemma {:induction false} CodeMarkersAreSeams(s: string, spans: seq<Span>, cursor: nat, u: string, p: nat, k: nat)
    requires Laid(s, spans, cursor, u, p) && MarkersMasked(s, spans, cursor) && p <= k && CodeMarker(u, k)
    ensures k in Seams(Pieces(s, spans, cursor), p)
    decreases |spans|
  {
    if spans == [] {
      NoneInLastPiece(s, cursor, u, p, k);
    } else {
      var q := p + (spans[0].start - cursor);
      FirstSeam(s, spans, cursor, u, p, q, k);
      LaidNext(s, spans, cursor, u, p, q);
      if k != q {
        MaskedTail(s, spans, cursor);
        CodeMarkersAreSeams(s, spans[1..], spans[0].end, u, q + |Marker|, k);
      }
      LaterSeam(s, spans, cursor, p, q, k);
    }
  }

  // ---------------------------------------------------------------- equal projections

  ghost predicate Increasing(x: seq<nat>) { forall j, k :: 0 <= j < k < |x| ==> x[j] < x[k] }

  lemma {:induction false} SeamsIncrease(pieces: seq<string>, p: nat)
    ensures Increasing(Seams(pieces, p)) && |Seams(pieces, p)| == (if pieces == [] then 0 else |pieces| - 1)
    ensures forall k :: 0 <= k < |Seams(pieces, p)| ==> p <= Seams(pieces, p)[k]
    decreases |pieces|
  {
    if |pieces| > 1 { SeamsIncrease(pieces[1..], p + |pieces[0]| + |Marker|); }
  }

  /** As many increasing numbers as there are, all taken from `x`, are `x`. */
  lemma {:induction false} TakenAbove(x: seq<nat>, y: seq<nat>, k: nat)
    requires Increasing(x) && Increasing(y) && |x| == |y| && (forall j :: 0 <= j < |y| ==> y[j] in x) && k < |x|
    ensures x[k] <= y[k]
    decreases k
  {
    if k > 0 { TakenAbove(x, y, k - 1); }
    var j :| 0 <= j < |x| && x[j] == y[k];
    assert k > 0 ==> x[k - 1] < x[j];
  }

  lemma {:induction false} TakenBelow(x: seq<nat>, y: seq<nat>, k: nat)
    requires Increasing(x) && Increasing(y) && |x| == |y| && (forall j :: 0 <= j < |y| ==> y[j] in x) && k < |x|
    ensures y[k] <= x[k]
    decreases |x| - k
  {
    if k + 1 < |x| { TakenBelow(x, y, k + 1); }
    var j :| 0 <= j < |x| && x[j] == y[k];
    assert k + 1 < |x| ==> x[j] < x[k + 1];
  }

  lemma AllTaken(x: seq<nat>, y: seq<nat>)
    requires Increasing(x) && Increasing(y) && |x| == |y| && forall j :: 0 <= j < |y| ==> y[j] in x
    ensures x == y
  {
    forall k | 0 <= k < |x| ensures x[k] == y[k] {
      TakenAbove(x, y, k);
      TakenBelow(x, y, k);
    }
  }

  lemma SamePieces(a0: string, a: string, b0: string, b: string)
    requires |a0| == |b0| && a0 + (Marker + a) == b0 + (Marker + b)
    ensures a0 == b0 && a == b
  {
    var u := a0 + (Marker + a);
    assert a0 == u[..|a0|] == b0;
    assert a == u[|a0| + |Marker|..] == b;
  }

  /** Equal texts cut at the same seams have the same pieces. */
  lemma {:induction false} SeamsDetermine(a: seq<string>, b: seq<string>, p: nat)
    requires |a| == |b| > 0 && Join(a, Marker) == Join(b, Marker) && Seams(a, p) == Seams(b, p)
    ensures a == b
    decreases |a|
  {
    if |a| > 1 {
      var ra, rb := Seams(a[1..], p + |a[0]| + |Marker|), Seams(b[1..], p + |b[0]| + |Marker|);
      assert Seams(a, p)[0] == p + |a[0]| && Seams(b, p)[0] == p + |b[0]|;
      assert ra == Seams(a, p)[1..] == rb;
      SamePieces(a[0], Join(a[1..], Marker), b[0], Join(b[1..], Marker));
      SeamsDetermine(a[1..], b[1..], p + |a[0]| + |Marker|);
      assert a == [a[0]] + a[1..] && b == [b[0]] + b[1..];
    }
  }

  /** Every text outside the test items that spells the marker is in a comment or a literal. */
  ghost predicate MarkersAreText(s: string) { MarkersMasked(s, SpansOf(s), 0) }

  lemma LaidOut(s: string, u: string)
    requires u == Join(Production(s), Marker)
    ensures Laid(s, SpansOf(s), 0, u, 0)
  {
    ItemsCleave(s);
    TokensCut(s);
    TokensCut(u);
    assert u[0..] == u;
  }

  /** One version whose markers are all text is enough to tell the pieces. */
  lemma ProjectionDetermines(s: string, t: string)
    requires MarkersAreText(s) && |Production(s)| == |Production(t)| && Join(Production(s), Marker) == Join(Production(t), Marker)
    ensures Production(s) == Production(t)
  {
    var u := Join(Production(s), Marker);
    LaidOut(s, u);
    LaidOut(t, u);
    var x, y := Seams(Production(s), 0), Seams(Production(t), 0);
    SeamsIncrease(Production(s), 0);
    SeamsIncrease(Production(t), 0);
    forall j | 0 <= j < |y| ensures y[j] in x {
      SeamsAreCode(t, SpansOf(t), 0, u, 0, y[j]);
      CodeMarkersAreSeams(s, SpansOf(s), 0, u, 0, y[j]);
    }
    AllTaken(x, y);
    SeamsDetermine(Production(s), Production(t), 0);
  }

  /** If the old or the new version spells the marker, outside its test items, only in comments and literals, then
      the check accepts exactly the changes that keep every piece of production text, piece by piece; so deleting the
      test items gives the same text. The other version is arbitrary, and so are the test items. */
  lemma AcceptsExactlyTestChanges(baseline: string, current: string)
    requires MarkersAreText(baseline) || MarkersAreText(current)
    ensures TestOnlyChange(baseline, current) <==>
      current != baseline && SpansOf(baseline) != [] && Production(baseline) == Production(current)
    ensures TestOnlyChange(baseline, current) ==> WithoutTests(baseline) == WithoutTests(current)
  {
    if TestOnlyChange(baseline, current) {
      if MarkersAreText(baseline) {
        ProjectionDetermines(baseline, current);
      } else {
        ProjectionDetermines(current, baseline);
      }
    }
  }

  // ---------------------------------------------------------------- text without the marker

  ghost predicate Occurs(t: string, s: string) { exists i: nat :: StartsWith(s, t, i) }

  ghost predicate LackMarker(pieces: seq<string>) {
    forall k :: 0 <= k < |pieces| ==> !Occurs(Marker, pieces[k])
  }

  lemma OccursIn(s: string, i: nat, e: nat, k: nat)
    requires i <= k && e <= |s| && k + |Marker| <= e && StartsWith(s, Marker, k)
    ensures Occurs(Marker, s[i..e])
  {
    forall j | 0 <= j < |Marker| ensures s[i..e][k - i + j] == Marker[j] { CharAt(s, Marker, k, j); }
    StartsBy(s[i..e], Marker, k - i);
  }

  /** A marker that starts before a hash ends there at the latest. */
  lemma EndsBefore(s: string, k: nat, e: nat)
    requires StartsWith(s, Marker, k) && k < e < |s| && s[e] == '#'
    ensures k + |Marker| <= e
  {
    var j := Min(|Marker| - 1, e - k);
    CharAt(s, Marker, k, j);
    MarkerHead(j);
  }

  lemma {:induction false} OccursInPiece(s: string, spans: seq<Span>, cursor: nat, k: nat)
    requires Ordered(spans, cursor, |s|) && AllCleave(s, spans) && StartsWith(s, Marker, k) && cursor <= k <= |s|
    requires !Covered(spans, k)
    ensures !LackMarker(Pieces(s, spans, cursor))
    decreases |spans|
  {
    var pieces := Pieces(s, spans, cursor);
    if spans == [] {
      OccursIn(s, cursor, |s|, k);
      assert pieces[0] == s[cursor..|s|];
    } else if k < spans[0].start {
      assert Cleaves(s, spans[0]);
      EndsBefore(s, k, spans[0].start);
      OccursIn(s, cursor, spans[0].start, k);
      assert pieces[0] == s[cursor..spans[0].start];
    } else {
      assert spans[0].end <= k;
      assert !Covered(spans[1..], k) by { NotCoveredTail(spans, k); }
      TailOrdered(spans, cursor, |s|);
      OccursInPiece(s, spans[1..], spans[0].end, k);
      assert pieces[1..] == Pieces(s, spans[1..], spans[0].end);
      var j :| 0 <= j < |pieces[1..]| && Occurs(Marker, pieces[1..][j]);
      assert pieces[j + 1] == pieces[1..][j];
    }
  }

  lemma NotCoveredTail(spans: seq<Span>, k: nat)
    requires spans != [] && !Covered(spans, k)
    ensures !Covered(spans[1..], k)
  {
    forall j | 0 <= j < |spans[1..]| ensures !(spans[1..][j].start <= k < spans[1..][j].end) {
      assert spans[1..][j] == spans[j + 1];
    }
  }

  /** In particular, production text without the marker is enough. */
  lemma LackingIsText(s: string)
    requires LackMarker(Production(s))
    ensures MarkersAreText(s)
  {
    ItemsCleave(s);
    forall k | 0 <= k < |s| ensures StartsWith(s, Marker, k) && !Covered(SpansOf(s), k) ==> Mask(s, 0)[k] != '#' {
      if StartsWith(s, Marker, k) && !Covered(SpansOf(s), k) { OccursInPiece(s, SpansOf(s), 0, k); }
    }
  }
}
