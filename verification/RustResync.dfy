/** Tokens do not change when the text behind them is replaced by other text that starts with an attribute. */
module RustResync {
  import opened Wrappers
  import opened RustMask

  /** Behind position `e` of `s`, which is `e + d` of `t`, both texts end, or both go on with one hash. */
  ghost predicate Edge(s: string, t: string, d: int, e: nat) {
    || (e == |s| && e + d == |t|)
    || (e + 1 < |s| && 0 <= e + d && e + d + 1 < |t| && s[e] == '#' == t[e + d] && s[e + 1] != '#' && t[e + d + 1] == '[')
  }

  /** From `i` to `e` the text `s` is the text `t`, `d` places further on. */
  ghost predicate Agree(s: string, t: string, d: int, i: nat, e: nat) {
    && i <= e <= |s| && 0 <= i + d && e + d <= |t| && Edge(s, t, d, e)
    && forall k :: i <= k < e ==> s[k] == t[k + d]
  }

  // ---------------------------------------------------------------- one token

  lemma StartsTwo(s: string, i: nat, a: char, b: char)
    ensures StartsWith(s, [a, b], i) <==> TwoAt(s, i, a, b)
  {
    if i + 2 <= |s| { assert s[i..i + 2] == [s[i], s[i + 1]]; }
  }

  lemma TwoSame(s: string, t: string, d: int, i: nat, e: nat, a: char, b: char)
    requires Agree(s, t, d, i, e) && i < e && b != '#'
    ensures StartsWith(s, [a, b], i) <==> StartsWith(t, [a, b], i + d)
    ensures StartsWith(s, [a, b], i) ==> i + 2 <= e
    ensures TwoAt(s, i, a, b) <==> TwoAt(t, i + d, a, b)
  {
    StartsTwo(s, i, a, b);
    StartsTwo(t, i + d, a, b);
  }

  lemma {:induction false} LineEndSame(s: string, t: string, d: int, i: nat, e: nat)
    requires Agree(s, t, d, i, e) && LineEnd(s, i) <= e
    ensures LineEnd(t, i + d) == LineEnd(s, i) + d
    decreases e - i
  {
    if i < e && !IsBreak(s[i]) { LineEndSame(s, t, d, i + 1, e); }
  }

  lemma {:induction false} BlockEndSame(s: string, t: string, d: int, i: nat, e: nat, depth: nat)
    requires Agree(s, t, d, i, e) && BlockEnd(s, i, depth) <= e
    ensures BlockEnd(t, i + d, depth) == BlockEnd(s, i, depth) + d
    decreases e - i
  {
    if depth > 0 && i < e {
      TwoSame(s, t, d, i, e, '/', '*');
      TwoSame(s, t, d, i, e, '*', '/');
      if TwoAt(s, i, '/', '*') {
        BlockEndSame(s, t, d, i + 2, e, depth + 1);
      } else if TwoAt(s, i, '*', '/') {
        BlockEndSame(s, t, d, i + 2, e, depth - 1);
      } else {
        BlockEndSame(s, t, d, i + 1, e, depth);
      }
    }
  }

  lemma {:induction false} HashesSame(s: string, t: string, d: int, i: nat, e: nat)
    requires Agree(s, t, d, i, e)
    ensures Hashes(t, i + d) == Hashes(s, i) + d
    decreases e - i
  {
    if i < e && s[i] == '#' { HashesSame(s, t, d, i + 1, e); }
    if i == e < |s| { assert Hashes(s, e) == e + 1 && Hashes(t, e + d) == e + d + 1; }
  }

  lemma RawPrefixSame(s: string, t: string, d: int, i: nat, e: nat)
    requires Agree(s, t, d, i, e) && i < e
    ensures RawPrefix(t, i + d) == RawPrefix(s, i) + d && RawPrefix(s, i) <= e
  {
    TwoSame(s, t, d, i, e, 'b', 'r');
    TwoSame(s, t, d, i, e, 'c', 'r');
  }

  /** A raw string of `s` whose opening quote is before `e` is one of `t`, and no other text of `t` is. */
  lemma RawSame(s: string, t: string, d: int, i: nat, e: nat)
    requires Agree(s, t, d, i, e) && i < e
    ensures IsRaw(t, i + d) <==> IsRaw(s, i) && Hashes(s, RawPrefix(s, i)) < e
  {
    RawPrefixSame(s, t, d, i, e);
    HashesSame(s, t, d, RawPrefix(s, i), e);
  }

  ghost predicate Terminator(term: string) {
    |term| >= 1 && term[0] == '"' && forall k :: 1 <= k < |term| ==> term[k] == '#'
  }

  lemma CharAt(s: string, w: string, i: nat, k: nat)
    requires StartsWith(s, w, i) && k < |w|
    ensures i + k < |s| && s[i + k] == w[k]
  {
    assert s[i..i + |w|][k] == s[i + k];
  }

  lemma StartsBy(s: string, w: string, i: nat)
    requires i + |w| <= |s| && forall k :: 0 <= k < |w| ==> s[i + k] == w[k]
    ensures StartsWith(s, w, i)
  {
    assert s[i..i + |w|] == w;
  }

  lemma TerminatorFits(s: string, t: string, d: int, i: nat, e: nat, term: string)
    requires Agree(s, t, d, i, e) && i < e && Terminator(term) && StartsWith(t, term, i + d)
    ensures i + |term| <= e + 1 && i + |term| <= |s|
  {
    CharAt(t, term, i + d, Min(|term| - 1, e + 1 - i));
  }

  lemma TerminatorBack(s: string, t: string, d: int, i: nat, e: nat, term: string)
    requires Agree(s, t, d, i, e) && i < e && Terminator(term) && StartsWith(t, term, i + d)
    ensures StartsWith(s, term, i)
  {
    TerminatorFits(s, t, d, i, e, term);
    forall k | 0 <= k < |term| ensures s[i + k] == term[k] { CharAt(t, term, i + d, k); }
    StartsBy(s, term, i);
  }

  /** The terminator of a raw string is found in both texts, or in none. */
  lemma TerminatorSame(s: string, t: string, d: int, i: nat, e: nat, term: string)
    requires Agree(s, t, d, i, e) && i < e && Terminator(term)
    ensures StartsWith(t, term, i + d) ==> StartsWith(s, term, i)
    ensures StartsWith(s, term, i) && i + |term| <= e ==> StartsWith(t, term, i + d)
  {
    if StartsWith(t, term, i + d) { TerminatorBack(s, t, d, i, e, term); }
    if StartsWith(s, term, i) && i + |term| <= e {
      forall k | 0 <= k < |term| ensures t[i + d + k] == term[k] { CharAt(s, term, i, k); }
      StartsBy(t, term, i + d);
    }
  }

  lemma {:induction false} AfterFirstSame(s: string, t: string, d: int, i: nat, e: nat, term: string)
    requires Agree(s, t, d, i, e) && Terminator(term) && AfterFirst(s, term, i) <= e
    ensures AfterFirst(t, term, i + d) == AfterFirst(s, term, i) + d
    decreases e - i
  {
    if i < e {
      TerminatorSame(s, t, d, i, e, term);
      if !StartsWith(s, term, i) { AfterFirstSame(s, t, d, i + 1, e, term); }
    }
  }

  /** The opening of a raw string whose token ends before `e`. */
  lemma RawOpens(s: string, t: string, d: int, i: nat, e: nat)
    requires Agree(s, t, d, i, e) && i < e && IsRaw(s, i) && RawEnd(s, i) <= e
    ensures var p := RawPrefix(s, i); var q := Hashes(s, p);
      && p <= q < e && IsRaw(t, i + d) && RawPrefix(t, i + d) == p + d && Hashes(t, p + d) == q + d
  {
    RawPrefixSame(s, t, d, i, e);
    HashesSame(s, t, d, RawPrefix(s, i), e);
    RawSame(s, t, d, i, e);
  }

  lemma TailEndSame(s: string, t: string, d: int, i: nat, e: nat, n: nat)
    requires Agree(s, t, d, i, e) && TailEnd(s, i, n) <= e
    ensures TailEnd(t, i + d, n) == TailEnd(s, i, n) + d
  {
    AfterFirstSame(s, t, d, i, e, "\"" + Repeat('#', n));
  }

  lemma AgreeFrom(s: string, t: string, d: int, i: nat, e: nat, j: nat)
    requires Agree(s, t, d, i, e) && i <= j <= e
    ensures Agree(s, t, d, j, e)
  {
  }

  lemma RawTailSame(s: string, t: string, d: int, i: nat, e: nat, p: nat, q: nat)
    requires Agree(s, t, d, i, e) && i <= p <= q < e && TailEnd(s, q + 1, q - p) <= e
    ensures TailEnd(t, q + 1 + d, q - p) == TailEnd(s, q + 1, q - p) + d
  {
    AgreeFrom(s, t, d, i, e, q + 1);
    TailEndSame(s, t, d, q + 1, e, q - p);
  }

  lemma RawEndIs(s: string, i: nat, p: nat, q: nat, j: nat, n: nat, x: nat)
    requires i < |s| && IsRaw(s, i) && p == RawPrefix(s, i) && q == Hashes(s, p) && j == q + 1 && n == q - p
    ensures j <= |s| && (x == RawEnd(s, i) <==> x == TailEnd(s, j, n))
  {
  }

  lemma RawTailFound(s: string, t: string, d: int, i: nat, e: nat, p: nat, q: nat, x: nat)
    requires Agree(s, t, d, i, e) && i <= p <= q < e && IsRaw(s, i) && x == RawEnd(s, i) <= e
    requires p == RawPrefix(s, i) && q == Hashes(s, p)
    ensures TailEnd(t, q + 1 + d, q - p) == x + d
  {
    RawEndIs(s, i, p, q, q + 1, q - p, x);
    RawTailSame(s, t, d, i, e, p, q);
  }

  lemma RawParts(s: string, t: string, d: int, i: nat, e: nat, x: nat) returns (p: nat, q: nat)
    requires Agree(s, t, d, i, e) && i < e && IsRaw(s, i) && x == RawEnd(s, i) <= e
    ensures IsRaw(t, i + d) && p == RawPrefix(t, i + d) && q == Hashes(t, p) && p <= q < |t|
    ensures TailEnd(t, q + 1, q - p) == x + d
  {
    RawOpens(s, t, d, i, e);
    p := RawPrefix(s, i);
    q := Hashes(s, p);
    RawTailFound(s, t, d, i, e, p, q, x);
    p, q := p + d, q + d;
  }

  lemma RawEndSame(s: string, t: string, d: int, i: nat, e: nat, x: nat)
    requires Agree(s, t, d, i, e) && i < e && IsRaw(s, i) && x == RawEnd(s, i) <= e
    ensures IsRaw(t, i + d) && x + d == RawEnd(t, i + d)
  {
    var p, q := RawParts(s, t, d, i, e, x);
    RawEndIs(t, i + d, p, q, q + 1, q - p, x + d);
  }

  lemma {:induction false} StringEndSame(s: string, t: string, d: int, i: nat, e: nat, escaped: bool)
    requires Agree(s, t, d, i, e) && StringEnd(s, i, escaped) <= e
    ensures StringEnd(t, i + d, escaped) == StringEnd(s, i, escaped) + d
    decreases e - i
  {
    if i < e {
      if escaped {
        StringEndSame(s, t, d, i + 1, e, false);
      } else if s[i] == '\\' {
        StringEndSame(s, t, d, i + 1, e, true);
      } else if s[i] != '"' {
        StringEndSame(s, t, d, i + 1, e, false);
      }
    }
  }

  lemma StringPrefixSame(s: string, t: string, d: int, i: nat, e: nat)
    requires Agree(s, t, d, i, e) && i < e
    ensures StringPrefix(t, i + d) == StringPrefix(s, i) && i + StringPrefix(s, i) <= e
  {
    TwoSame(s, t, d, i, e, 'b', '"');
    TwoSame(s, t, d, i, e, 'c', '"');
  }

  lemma QuotedSame(s: string, t: string, d: int, i: nat, e: nat)
    requires Agree(s, t, d, i, e) && i + QuotedChar(s, i) <= e
    ensures QuotedChar(t, i + d) == QuotedChar(s, i)
  {
  }

  lemma CharSame(s: string, t: string, d: int, i: nat, e: nat)
    requires Agree(s, t, d, i, e) && i < e && i + CharLiteral(s, i) <= e
    ensures CharLiteral(t, i + d) == CharLiteral(s, i)
  {
    if s[i] == 'b' { QuotedSame(s, t, d, i + 1, e); } else { QuotedSame(s, t, d, i, e); }
  }

  /** A token that ends before `e` in `s` is the same token in `t`. */
  lemma NextSame(s: string, t: string, d: int, i: nat, e: nat)
    requires Agree(s, t, d, i, e) && i < e && Next(s, i).end <= e
    ensures Next(t, i + d) == Token(Next(s, i).end + d, Next(s, i).code)
  {
    TwoSame(s, t, d, i, e, '/', '/');
    TwoSame(s, t, d, i, e, '/', '*');
    if StartsWith(s, "//", i) {
      LineEndSame(s, t, d, i, e);
    } else if StartsWith(s, "/*", i) {
      BlockEndSame(s, t, d, i + 2, e, 1);
    } else {
      NextLiteralSame(s, t, d, i, e);
    }
  }

  lemma NextRawSame(s: string, t: string, d: int, i: nat, e: nat)
    requires Agree(s, t, d, i, e) && i < e && Next(s, i).end <= e && IsRaw(s, i)
    requires !StartsWith(s, "//", i) && !StartsWith(s, "/*", i)
    requires !StartsWith(t, "//", i + d) && !StartsWith(t, "/*", i + d)
    ensures Next(t, i + d) == Token(Next(s, i).end + d, Next(s, i).code)
  {
    RawEndSame(s, t, d, i, e, RawEnd(s, i));
  }

  lemma NextLiteralSame(s: string, t: string, d: int, i: nat, e: nat)
    requires Agree(s, t, d, i, e) && i < e && Next(s, i).end <= e
    requires !StartsWith(s, "//", i) && !StartsWith(s, "/*", i)
    requires !StartsWith(t, "//", i + d) && !StartsWith(t, "/*", i + d)
    ensures Next(t, i + d) == Token(Next(s, i).end + d, Next(s, i).code)
  {
    if IsRaw(s, i) {
      NextRawSame(s, t, d, i, e);
    } else {
      RawSame(s, t, d, i, e);
      NextShortSame(s, t, d, i, e);
    }
  }

  lemma NextShortSame(s: string, t: string, d: int, i: nat, e: nat)
    requires Agree(s, t, d, i, e) && i < e && Next(s, i).end <= e && !IsRaw(s, i) && !IsRaw(t, i + d)
    requires !StartsWith(s, "//", i) && !StartsWith(s, "/*", i)
    requires !StartsWith(t, "//", i + d) && !StartsWith(t, "/*", i + d)
    ensures Next(t, i + d) == Token(Next(s, i).end + d, Next(s, i).code)
  {
    StringPrefixSame(s, t, d, i, e);
    if StringPrefix(s, i) > 0 {
      StringEndSame(s, t, d, i + StringPrefix(s, i), e, false);
    } else {
      CharSame(s, t, d, i, e);
    }
  }

  // ---------------------------------------------------------------- many tokens

  /** `k` is the start of a token, or the end, when tokens are cut from `i` on. */
  ghost predicate Reach(ts: seq<Token>, i: nat, k: nat)
    requires Cuts(ts)
    decreases |ts| - i
  {
    i == k || (i < |ts| && ts[i].end <= k && Reach(ts, ts[i].end, k))
  }

  lemma {:induction false} ReachTrans(ts: seq<Token>, i: nat, j: nat, k: nat)
    requires Cuts(ts) && i <= |ts| && Reach(ts, i, j) && Reach(ts, j, k)
    ensures Reach(ts, i, k) && i <= j
    decreases |ts| - i
  {
    if i != j { ReachTrans(ts, ts[i].end, j, k); }
    ReachForward(ts, j, k);
  }

  lemma {:induction false} ReachForward(ts: seq<Token>, i: nat, k: nat)
    requires Cuts(ts) && Reach(ts, i, k)
    ensures i <= k
    decreases |ts| - i
  {
    if i != k { ReachForward(ts, ts[i].end, k); }
  }

  /** Two starts lie on the same chain. */
  lemma {:induction false} ReachLinear(ts: seq<Token>, i: nat, j: nat, k: nat)
    requires Cuts(ts) && Reach(ts, i, j) && Reach(ts, i, k) && j <= k
    ensures Reach(ts, j, k)
    decreases |ts| - i
  {
    if i != j {
      ReachForward(ts, ts[i].end, j);
      ReachLinear(ts, ts[i].end, j, k);
    }
  }

  lemma {:induction false} ReachEnd(ts: seq<Token>, i: nat)
    requires Cuts(ts) && i <= |ts|
    ensures Reach(ts, i, |ts|)
    decreases |ts| - i
  {
    if i < |ts| { ReachEnd(ts, ts[i].end); }
  }

  lemma ReachNext(ts: seq<Token>, k: nat)
    requires Cuts(ts) && k < |ts| && Reach(ts, 0, k)
    ensures Reach(ts, 0, ts[k].end)
  {
    ReachTrans(ts, 0, k, ts[k].end);
  }

  /** A run of characters of code. */
  lemma {:induction false} ReachRun(ts: seq<Token>, i: nat, j: nat)
    requires Cuts(ts) && i <= j <= |ts| && forall k :: i <= k < j ==> ts[k] == Token(k + 1, true)
    ensures Reach(ts, i, j)
    decreases j - i
  {
    if i < j { ReachRun(ts, i + 1, j); }
  }

  lemma {:induction false} ReachCode(ts: seq<Token>, i: nat, k: nat)
    requires Cuts(ts) && i <= k < |ts|
    ensures CodeAt(ts, i, k) <==> Reach(ts, i, k) && ts[k].code
    decreases |ts| - i
  {
    if k >= ts[i].end {
      ReachCode(ts, ts[i].end, k);
    } else if i != k {
      assert !ts[i].code;
    }
  }

  /** A character of the masked text that is not blank is a token of code. */
  lemma VisibleIsCode(s: string, k: nat)
    requires k < |s|
    ensures Cuts(Tokens(s))
    ensures Mask(s, 0)[k] != ' ' && !IsBreak(Mask(s, 0)[k]) ==>
      Reach(Tokens(s), 0, k) && Tokens(s)[k] == Token(k + 1, true) && s[k] == Mask(s, 0)[k]
    ensures Reach(Tokens(s), 0, k) && Tokens(s)[k].code ==> s[k] == Mask(s, 0)[k]
  {
    TokensCut(s);
    MaskChar(s, Tokens(s), 0, k);
    ReachCode(Tokens(s), 0, k);
  }

  lemma TokensSame(s: string, t: string, d: int, i: nat, e: nat)
    requires Agree(s, t, d, i, e) && i < e && Cuts(Tokens(s)) && Tokens(s)[i].end <= e
    ensures i + d < |t| && Tokens(t)[i + d] == Token(Tokens(s)[i].end + d, Tokens(s)[i].code)
  {
    TokensAt(s, i);
    TokensAt(t, i + d);
    NextSame(s, t, d, i, e);
  }

  /** The tables of two texts from `i` to `e`: the same tokens, `d` places further on. */
  ghost predicate SameTokens(ts: seq<Token>, tt: seq<Token>, d: int, i: nat, e: nat) {
    && Cuts(ts) && Cuts(tt) && i <= e <= |ts| && 0 <= i + d && e + d <= |tt|
    && forall k :: i <= k < e && ts[k].end <= e ==> tt[k + d] == Token(ts[k].end + d, ts[k].code)
  }

  lemma TablesSame(s: string, t: string, d: int, i: nat, e: nat)
    requires Agree(s, t, d, i, e)
    ensures SameTokens(Tokens(s), Tokens(t), d, i, e)
  {
    TokensCut(s);
    TokensCut(t);
    forall k | i <= k < e && Tokens(s)[k].end <= e ensures Tokens(t)[k + d] == Token(Tokens(s)[k].end + d, Tokens(s)[k].code) {
      TokensSame(s, t, d, k, e);
    }
  }

  /** So the starts of tokens up to `e` are the same. */
  lemma {:induction false} ReachSame(ts: seq<Token>, tt: seq<Token>, d: int, i: nat, e: nat)
    requires SameTokens(ts, tt, d, i, e) && Reach(ts, i, e)
    ensures Reach(tt, i + d, e + d)
    decreases e - i
  {
    if i < e {
      ReachForward(ts, ts[i].end, e);
      ReachSame(ts, tt, d, ts[i].end, e);
    }
  }

  /** And no start of `t` up to there is new. */
  lemma {:induction false} ReachBack(ts: seq<Token>, tt: seq<Token>, d: int, i: nat, k: nat, e: nat)
    requires SameTokens(ts, tt, d, i, e) && Reach(ts, i, e) && i <= k <= e && Reach(tt, i + d, k + d)
    ensures Reach(ts, i, k)
    decreases e - i
  {
    if i < k {
      ReachForward(ts, ts[i].end, e);
      ReachForward(tt, tt[i + d].end, k + d);
      ReachBack(ts, tt, d, ts[i].end, k, e);
    }
  }
}
