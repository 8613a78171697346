/** The lexical masker: Rust comments and literals are blanked, everything else keeps its place.

    `Mask` says token by token what the masked text is; the method walks one index over the text, with a
    nesting counter, as the checker does. */
module RustMask {
  import opened Wrappers

  predicate IsBreak(c: char) { c == '\n' || c == '\r' }

  function Blank(c: char): char { if IsBreak(c) then c else ' ' }

  function BlankAll(s: string): string { seq(|s|, i requires 0 <= i < |s| => Blank(s[i])) }

  predicate StartsWith(s: string, t: string, i: nat) {
    i + |t| <= |s| && s[i..i + |t|] == t
  }

  /** The two characters `a` and `b` are at `i`. */
  predicate TwoAt(s: string, i: nat, a: char, b: char) { i + 1 < |s| && s[i] == a && s[i + 1] == b }

  // ---------------------------------------------------------------- token ends

  /** The first line break at or after `i`, or the end of the text. */
  function LineEnd(s: string, i: nat): (e: nat)
    requires i <= |s|
    ensures i <= e <= |s|
    ensures forall k :: i <= k < e ==> !IsBreak(s[k])
    ensures e < |s| ==> IsBreak(s[e])
    decreases |s| - i
  {
    if i == |s| || IsBreak(s[i]) then i else LineEnd(s, i + 1)
  }

  /** Where a block comment that is `depth` levels deep at `i` ends; unclosed comments run to the end. */
  function BlockEnd(s: string, i: nat, depth: nat): (e: nat)
    requires i <= |s|
    ensures i <= e <= |s|
    decreases |s| - i
  {
    if depth == 0 || i == |s| then i
    else if TwoAt(s, i, '/', '*') then BlockEnd(s, i + 2, depth + 1)
    else if TwoAt(s, i, '*', '/') then BlockEnd(s, i + 2, depth - 1)
    else BlockEnd(s, i + 1, depth)
  }

  function Hashes(s: string, i: nat): (e: nat)
    requires i <= |s|
    ensures i <= e <= |s|
    ensures forall k :: i <= k < e ==> s[k] == '#'
    ensures e < |s| ==> s[e] != '#'
    decreases |s| - i
  {
    if i < |s| && s[i] == '#' then Hashes(s, i + 1) else i
  }

  /** The position after the prefix letters of a raw string at `i`, if such letters are there. */
  function RawPrefix(s: string, i: nat): (e: nat)
    requires i < |s|
    ensures i <= e <= |s| && e <= i + 2
  {
    if StartsWith(s, "br", i) || StartsWith(s, "cr", i) then i + 2
    else if s[i] == 'r' then i + 1
    else i
  }

  /** A raw string starts at `i`: prefix, at most 255 hashes, a quote. */
  predicate IsRaw(s: string, i: nat)
    requires i < |s|
  {
    var p := RawPrefix(s, i);
    p > i && var q := Hashes(s, p); q - p <= 255 && q < |s| && s[q] == '"'
  }

  /** The position after the first occurrence of `t` at or after `i`, or the end of the text. */
  function AfterFirst(s: string, t: string, i: nat): (e: nat)
    requires i <= |s|
    ensures i <= e <= |s|
    decreases |s| - i
  {
    if StartsWith(s, t, i) then i + |t|
    else if i == |s| then i
    else AfterFirst(s, t, i + 1)
  }

  /** Where a raw string with `n` hashes ends whose text starts at `i`. */
  function TailEnd(s: string, i: nat, n: nat): (e: nat)
    requires i <= |s|
    ensures i <= e <= |s|
  {
    AfterFirst(s, "\"" + Repeat('#', n), i)
  }

  function RawEnd(s: string, i: nat): (e: nat)
    requires i < |s| && IsRaw(s, i)
    ensures i + 2 <= e <= |s|
  {
    var p := RawPrefix(s, i);
    var q := Hashes(s, p);
    TailEnd(s, q + 1, q - p)
  }

  /** Where a quoted string whose body continues at `i` ends. */
  function StringEnd(s: string, i: nat, escaped: bool): (e: nat)
    requires i <= |s|
    ensures i <= e <= |s|
    decreases |s| - i
  {
    if i == |s| then i
    else if escaped then StringEnd(s, i + 1, false)
    else if s[i] == '\\' then StringEnd(s, i + 1, true)
    else if s[i] == '"' then i + 1
    else StringEnd(s, i + 1, false)
  }

  function StringPrefix(s: string, i: nat): nat
    requires i < |s|
  {
    if StartsWith(s, "b\"", i) || StartsWith(s, "c\"", i) then 2 else if s[i] == '"' then 1 else 0
  }

  /** The length of the quoted character at `i`, or 0. */
  function QuotedChar(s: string, i: nat): (n: nat)
    ensures n == 0 || n == 3 || n == 4
    ensures i + n <= |s| || n == 0
  {
    if i + 3 < |s| && s[i] == '\'' && s[i + 1] == '\\' && s[i + 2] != '\n' && s[i + 3] == '\'' then 4
    else if i + 2 < |s| && s[i] == '\'' && s[i + 1] !in {'\'', '\\', '\r', '\n'} && s[i + 2] == '\'' then 3
    else 0
  }

  function CharLiteral(s: string, i: nat): (n: nat)
    requires i < |s|
    ensures i + n <= |s| && (n == 0 || 3 <= n <= 5)
  {
    if s[i] == 'b' then (if QuotedChar(s, i + 1) > 0 then 1 + QuotedChar(s, i + 1) else 0) else QuotedChar(s, i)
  }

  /** No comment or literal starts at `i`. */
  predicate Plain(s: string, i: nat)
    requires i < |s|
  {
    && !StartsWith(s, "//", i) && !StartsWith(s, "/*", i)
    && !IsRaw(s, i) && StringPrefix(s, i) == 0 && CharLiteral(s, i) == 0
  }

  datatype Token = Token(end: nat, code: bool)

  /** The token at `i`: a comment or literal, or one character of code. */
  function Next(s: string, i: nat): (t: Token)
    requires i < |s|
    ensures i < t.end <= |s| && (t.code ==> t.end == i + 1)
    ensures !t.code && t.end == i + 1 ==> t.end == |s|
  {
    if StartsWith(s, "//", i) then assert !IsBreak(s[i]) by { assert s[i..i + 2][0] == '/'; }
      assert !IsBreak(s[i + 1]) by { assert s[i..i + 2][1] == '/'; }
      Token(LineEnd(s, i), false)
    else if StartsWith(s, "/*", i) then Token(BlockEnd(s, i + 2, 1), false)
    else if IsRaw(s, i) then Token(RawEnd(s, i), false)
    else if StringPrefix(s, i) > 0 then Token(StringEnd(s, i + StringPrefix(s, i), false), false)
    else if CharLiteral(s, i) > 0 then Token(i + CharLiteral(s, i), false)
    else Token(i + 1, true)
  }

  /** What is left of a token. */
  function Piece(s: string, i: nat, t: Token): (p: string)
    requires i < t.end <= |s|
    ensures |p| == t.end - i
  {
    if t.code then s[i..t.end] else BlankAll(s[i..t.end])
  }

  /** The token at each position from `i` on. */
  function TokensFrom(s: string, i: nat): (ts: seq<Token>)
    requires i <= |s|
    ensures |ts| == |s| - i
    decreases |s| - i
  {
    if i == |s| then [] else [Next(s, i)] + TokensFrom(s, i + 1)
  }

  function Tokens(s: string): (ts: seq<Token>)
    ensures |ts| == |s|
  {
    TokensFrom(s, 0)
  }

  lemma {:induction false} TokensFromAt(s: string, i: nat, k: nat)
    requires i <= k < |s|
    ensures TokensFrom(s, i)[k - i] == Next(s, k)
    decreases k - i
  {
    ConsAt(Next(s, i), TokensFrom(s, i + 1), k - i);
    if i < k { TokensFromAt(s, i + 1, k); }
  }

  lemma ConsAt<T>(x: T, rest: seq<T>, k: nat)
    requires k <= |rest|
    ensures ([x] + rest)[k] == if k == 0 then x else rest[k - 1]
  {
  }

  lemma TokensAt(s: string, i: nat)
    requires i < |s|
    ensures Tokens(s)[i] == Next(s, i)
  {
    TokensFromAt(s, 0, i);
  }

  /** Tokens end inside the text; code is one character, and everything else longer, except at the end. */
  ghost predicate Cuts(ts: seq<Token>) {
    forall i :: 0 <= i < |ts| ==>
      && i < ts[i].end <= |ts| && (ts[i].code ==> ts[i].end == i + 1)
      && (!ts[i].code && ts[i].end == i + 1 ==> ts[i].end == |ts|)
  }

  lemma TokensCut(s: string)
    ensures Cuts(Tokens(s))
  {
    forall i | 0 <= i < |s| ensures Tokens(s)[i] == Next(s, i) { TokensAt(s, i); }
  }

  /** The text from position `i` on, masked token by token. */
  function MaskBy(s: string, ts: seq<Token>, i: nat): (m: string)
    requires i <= |s| == |ts| && Cuts(ts)
    ensures |m| == |s| - i
    decreases |s| - i
  {
    if i == |s| then "" else Piece(s, i, ts[i]) + MaskBy(s, ts, ts[i].end)
  }

  /** The masked text from position `i` on. */
  function Mask(s: string, i: nat): (m: string)
    requires i <= |s|
    ensures |m| == |s| - i
  {
    TokensCut(s);
    MaskBy(s, Tokens(s), i)
  }

  lemma MaskStep(s: string, i: nat)
    requires i < |s|
    ensures Mask(s, i) == Piece(s, i, Next(s, i)) + Mask(s, Next(s, i).end)
  {
    TokensAt(s, i);
  }

  // ---------------------------------------------------------------- what the masked text looks like

  /** Position `k` is a character of code, when the text from `i` on is cut into tokens. */
  predicate CodeAt(ts: seq<Token>, i: nat, k: nat)
    requires i <= k < |ts| && Cuts(ts)
    decreases |ts| - i
  {
    if k < ts[i].end then ts[i].code else CodeAt(ts, ts[i].end, k)
  }

  lemma PieceChar(s: string, i: nat, t: Token, rest: string, k: nat)
    requires i < t.end <= |s| && |rest| == |s| - t.end && i <= k < |s|
    ensures (Piece(s, i, t) + rest)[k - i] ==
      if k >= t.end then rest[k - t.end] else if t.code then s[k] else Blank(s[k])
  {
  }

  /** Every character of code stays, and the others are blanked; code starts no comment or literal. */
  lemma {:induction false} MaskChar(s: string, ts: seq<Token>, i: nat, k: nat)
    requires i <= k < |s| == |ts| && Cuts(ts)
    ensures MaskBy(s, ts, i)[k - i] == if CodeAt(ts, i, k) then s[k] else Blank(s[k])
    ensures CodeAt(ts, i, k) ==> ts[k].code
    decreases |s| - i
  {
    var t := ts[i];
    PieceChar(s, i, t, MaskBy(s, ts, t.end), k);
    if k >= t.end { MaskChar(s, ts, t.end, k); }
  }

  /** A comment or literal that follows a character of code is at least two characters long, or ends the text. */
  lemma {:induction false} LongTokens(ts: seq<Token>, i: nat, k: nat)
    requires Cuts(ts) && i <= k && k + 2 < |ts| && CodeAt(ts, i, k) && !CodeAt(ts, i, k + 1)
    ensures !CodeAt(ts, i, k + 2)
    decreases |ts| - i
  {
    if k >= ts[i].end { LongTokens(ts, ts[i].end, k); }
  }

  lemma PlainIsCode(s: string, i: nat)
    requires i < |s|
    ensures Next(s, i).code <==> Plain(s, i)
  {
  }

  /** `m` is `s` with only the `kept` positions left; those are plain, and a gap is never one character wide. */
  ghost predicate MaskedWith(s: string, m: string, kept: seq<bool>) {
    && |m| == |s| == |kept|
    && (forall k :: 0 <= k < |s| && kept[k] ==> m[k] == s[k] && Plain(s, k))
    && (forall k :: 0 <= k < |s| && !kept[k] ==> m[k] == Blank(s[k]))
    && (forall k :: 0 <= k < |s| - 2 && kept[k] && !kept[k + 1] ==> !kept[k + 2])
  }

  function Kept(ts: seq<Token>): (kept: seq<bool>)
    requires Cuts(ts)
    ensures |kept| == |ts| && forall k :: 0 <= k < |ts| ==> kept[k] == CodeAt(ts, 0, k)
  {
    seq(|ts|, k requires 0 <= k < |ts| => CodeAt(ts, 0, k))
  }

  lemma KeptGaps(ts: seq<Token>, k: nat)
    requires Cuts(ts) && k + 2 < |ts| && Kept(ts)[k] && !Kept(ts)[k + 1]
    ensures !Kept(ts)[k + 2]
  {
    LongTokens(ts, 0, k);
  }

  lemma KeptChar(s: string, ts: seq<Token>, k: nat)
    requires k < |s| == |ts| && Cuts(ts)
    ensures MaskBy(s, ts, 0)[k] == if Kept(ts)[k] then s[k] else Blank(s[k])
    ensures Kept(ts)[k] ==> ts[k].code
  {
    MaskChar(s, ts, 0, k);
  }

  lemma KeepsBy(s: string, ts: seq<Token>, m: string, kept: seq<bool>)
    requires |ts| == |s| && Cuts(ts) && forall k :: 0 <= k < |s| && ts[k].code ==> Plain(s, k)
    requires m == MaskBy(s, ts, 0) && kept == Kept(ts)
    ensures MaskedWith(s, m, kept)
  {
    forall k | 0 <= k < |s|
      ensures m[k] == if kept[k] then s[k] else Blank(s[k])
      ensures kept[k] ==> ts[k].code
    {
      KeptChar(s, ts, k);
    }
    forall k | 0 <= k < |s| - 2 && kept[k] && !kept[k + 1] ensures !kept[k + 2] {
      KeptGaps(ts, k);
    }
  }

  lemma MaskKeeps(s: string) returns (kept: seq<bool>)
    ensures MaskedWith(s, Mask(s, 0), kept)
  {
    var ts := Tokens(s);
    TokensCut(s);
    forall k | 0 <= k < |s| && ts[k].code ensures Plain(s, k) {
      TokensAt(s, k);
      PlainIsCode(s, k);
    }
    kept := Kept(ts);
    KeepsBy(s, ts, Mask(s, 0), kept);
  }

  lemma NoQuotes(s: string, m: string, kept: seq<bool>, k: nat)
    requires MaskedWith(s, m, kept) && k < |m|
    ensures m[k] != '"'
  {
  }

  lemma NoStrings(s: string, m: string, kept: seq<bool>, k: nat)
    requires MaskedWith(s, m, kept) && k < |m|
    ensures !IsRaw(m, k) && StringPrefix(m, k) == 0
  {
    forall j | 0 <= j < |m| ensures m[j] != '"' { NoQuotes(s, m, kept, j); }
    assert k + 1 < |m| ==> m[k..k + 2] == [m[k], m[k + 1]];
  }

  lemma Pair(s: string, k: nat)
    requires k + 2 <= |s|
    ensures s[k..k + 2] == [s[k], s[k + 1]]
  {
  }

  lemma NoCommentStart(s: string, m: string, kept: seq<bool>, k: nat)
    requires MaskedWith(s, m, kept) && k < |m|
    ensures !StartsWith(m, "//", k) && !StartsWith(m, "/*", k)
  {
    if k + 2 <= |m| {
      Pair(s, k);
      Pair(m, k);
      assert m[k] == '/' ==> kept[k] && Plain(s, k);
    }
  }

  lemma NoQuotedChar(s: string, m: string, kept: seq<bool>, j: nat)
    requires MaskedWith(s, m, kept) && j < |m|
    ensures QuotedChar(m, j) == 0
  {
    if m[j] == '\'' && j + 2 < |m| {
      assert kept[j] && Plain(s, j) && QuotedChar(s, j) == 0;
      assert m[j + 2] == '\'' ==> kept[j + 2];
      assert j + 3 < |m| && m[j + 3] == '\'' ==> kept[j + 3];
    }
  }

  lemma NoCharLiteral(s: string, m: string, kept: seq<bool>, k: nat)
    requires MaskedWith(s, m, kept) && k < |m|
    ensures CharLiteral(m, k) == 0
  {
    if m[k] != 'b' {
      NoQuotedChar(s, m, kept, k);
    } else if k + 1 < |m| {
      NoQuotedChar(s, m, kept, k + 1);
    }
  }

  /** Every character of the masked text is code: no comment or literal is left in it. */
  lemma MaskedIsCode(s: string, k: nat)
    requires k < |s|
    ensures Plain(Mask(s, 0), k)
  {
    var kept := MaskKeeps(s);
    NoCommentStart(s, Mask(s, 0), kept, k);
    NoStrings(s, Mask(s, 0), kept, k);
    NoCharLiteral(s, Mask(s, 0), kept, k);
  }

  /** The masked text as a reader sees it: same length, same line breaks, characters changed only to spaces, and
      neither a double quote nor the start of a comment anywhere. */
  lemma MaskedText(s: string)
    ensures |Mask(s, 0)| == |s|
    ensures forall k :: 0 <= k < |s| ==> Mask(s, 0)[k] == s[k] || (Mask(s, 0)[k] == ' ' && !IsBreak(s[k]))
    ensures forall k :: 0 <= k < |s| ==>
      Mask(s, 0)[k] != '"' && !StartsWith(Mask(s, 0), "//", k) && !StartsWith(Mask(s, 0), "/*", k)
  {
    var kept := MaskKeeps(s);
    forall k | 0 <= k < |s|
      ensures Mask(s, 0)[k] != '"' && !StartsWith(Mask(s, 0), "//", k) && !StartsWith(Mask(s, 0), "/*", k)
    {
      MaskedIsCode(s, k);
    }
  }

  lemma {:induction false} AllCodeBy(m: string, ts: seq<Token>, i: nat)
    requires i <= |m| == |ts| && Cuts(ts) && forall k :: 0 <= k < |m| ==> ts[k].code
    ensures MaskBy(m, ts, i) == m[i..]
    decreases |m| - i
  {
    if i < |m| {
      AllCodeBy(m, ts, i + 1);
      assert m[i..] == m[i..i + 1] + m[i + 1..];
    }
  }

  lemma AllCodeUnchanged(m: string)
    requires forall k :: 0 <= k < |m| ==> Next(m, k).code
    ensures Mask(m, 0) == m
  {
    var ts := Tokens(m);
    TokensCut(m);
    forall k | 0 <= k < |m| ensures ts[k].code { TokensAt(m, k); }
    AllCodeBy(m, ts, 0);
    assert m[0..] == m;
  }

  /** Masking is complete: masking again changes nothing. */
  lemma MaskFixpoint(s: string)
    ensures Mask(Mask(s, 0), 0) == Mask(s, 0)
  {
    var m := Mask(s, 0);
    forall k | 0 <= k < |m| ensures Next(m, k).code { MaskedIsCode(s, k); PlainIsCode(m, k); }
    AllCodeUnchanged(m);
  }

  // ---------------------------------------------------------------- the checker's loop

  method ScanLine(s: string, i: nat) returns (end: nat)
    requires i <= |s|
    ensures end == LineEnd(s, i)
  {
    end := i;
    while end < |s| && !IsBreak(s[end])
      invariant i <= end <= |s| && LineEnd(s, end) == LineEnd(s, i)
    {
      end := end + 1;
    }
  }

  method ScanString(s: string, i: nat) returns (end: nat)
    requires i <= |s|
    ensures end == StringEnd(s, i, false)
  {
    end := i;
    var escaped := false;
    while end < |s|
      invariant i <= end <= |s| && StringEnd(s, end, escaped) == StringEnd(s, i, false)
    {
      var c := s[end];
      end := end + 1;
      if escaped {
        escaped := false;
      } else if c == '\\' {
        escaped := true;
      } else if c == '"' {
        return;
      }
    }
  }

  method BlankRange(masked: string, from: nat, to: nat) returns (r: string)
    requires from <= to <= |masked|
    ensures r == masked[..from] + BlankAll(masked[from..to]) + masked[to..]
  {
    r := masked;
    var i := from;
    while i < to
      invariant from <= i <= to && |r| == |masked|
      invariant forall k :: 0 <= k < |r| ==> r[k] == if from <= k < i then Blank(masked[k]) else masked[k]
    {
      if !IsBreak(r[i]) { r := r[i := ' ']; }
      i := i + 1;
    }
  }

  /** The masked text still to come, inside a block comment `depth` levels deep. */
  ghost function Remaining(s: string, i: nat, depth: nat): string
    requires i <= |s|
  {
    BlankedTo(s, i, BlockEnd(s, i, depth))
  }

  ghost function BlankedTo(s: string, i: nat, e: nat): string
    requires i <= e <= |s|
  {
    BlankAll(s[i..e]) + Mask(s, e)
  }

  lemma BlankedToSplit(s: string, i: nat, j: nat, e: nat)
    requires i <= j <= e <= |s|
    ensures BlankedTo(s, i, e) == BlankAll(s[i..j]) + BlankedTo(s, j, e)
  {
    BlankSplit(s, i, j, e);
    Regroup("", BlankAll(s[i..j]), BlankAll(s[j..e]), Mask(s, e));
  }

  lemma RemainingOutside(s: string, i: nat)
    requires i <= |s|
    ensures Remaining(s, i, 0) == Mask(s, i)
  {
    assert s[i..i] == "";
  }

  lemma BlankSplit(s: string, i: nat, j: nat, e: nat)
    requires i <= j <= e <= |s|
    ensures BlankAll(s[i..e]) == BlankAll(s[i..j]) + BlankAll(s[j..e])
  {
  }

  /** Blanking the next characters of a comment. */
  lemma RemainingStep(s: string, i: nat, j: nat, depth: nat, depth': nat)
    requires i <= j <= |s| && BlockEnd(s, i, depth) == BlockEnd(s, j, depth')
    ensures Remaining(s, i, depth) == BlankAll(s[i..j]) + Remaining(s, j, depth')
  {
    BlankedToSplit(s, i, j, BlockEnd(s, j, depth'));
  }

  lemma BlockOpens(s: string, i: nat)
    requires i + 2 <= |s| && !StartsWith(s, "//", i) && StartsWith(s, "/*", i)
    ensures Mask(s, i) == BlankAll(s[i..i + 2]) + Remaining(s, i + 2, 1)
  {
    MaskStep(s, i);
    BlankedToSplit(s, i, i + 2, BlockEnd(s, i + 2, 1));
  }

  /** What one iteration blanks. */
  ghost predicate Blanked(s: string, before: string, after: string, i: nat, j: nat)
    requires i <= j <= |s|
  {
    |before| == |s| && after == before[..i] + BlankAll(before[i..j]) + before[j..]
  }

  ghost predicate Progress(s: string, masked: string, i: nat, depth: nat) {
    && i <= |s| && |masked| == |s| && masked[i..] == s[i..]
    && masked[..i] + Remaining(s, i, depth) == Mask(s, 0)
  }

  lemma BlankedProgress(s: string, before: string, after: string, i: nat, j: nat, depth: nat, depth': nat)
    requires Progress(s, before, i, depth) && i <= j <= |s| && Blanked(s, before, after, i, j)
    requires Remaining(s, i, depth) == BlankAll(s[i..j]) + Remaining(s, j, depth')
    ensures Progress(s, after, j, depth')
  {
    BlankedParts(s, before, after, i, j);
    Regroup("", before[..i], BlankAll(s[i..j]), Remaining(s, j, depth'));
  }

  lemma BlankedParts(s: string, before: string, after: string, i: nat, j: nat)
    requires i <= j <= |s| && |before| == |s| && before[i..] == s[i..] && Blanked(s, before, after, i, j)
    ensures |after| == |s| && after[..j] == before[..i] + BlankAll(s[i..j]) && after[j..] == s[j..]
  {
    assert before[i..j] == before[i..][..j - i] == s[i..j];
    assert after[j..] == before[i..][j - i..] == s[j..];
  }

  lemma KeptParts(s: string, masked: string, i: nat)
    requires i < |s| && |masked| == |s| && masked[i..] == s[i..]
    ensures masked[..i + 1] == masked[..i] + s[i..i + 1] && masked[i + 1..] == s[i + 1..]
  {
    assert masked[i..][0] == s[i..][0];
    assert masked[i + 1..] == masked[i..][1..] == s[i + 1..];
  }

  lemma CodeProgress(s: string, masked: string, i: nat)
    requires Progress(s, masked, i, 0) && i < |s| && Next(s, i).code
    ensures Progress(s, masked, i + 1, 0)
  {
    RemainingOutside(s, i);
    RemainingOutside(s, i + 1);
    KeptParts(s, masked, i);
    MaskStep(s, i);
    Regroup("", masked[..i], s[i..i + 1], Mask(s, i + 1));
  }

  /** One iteration inside a block comment. */
  method StepInside(source: string, index: nat, depth: nat) returns (end: nat, depth': nat)
    requires index < |source| && depth > 0
    ensures index < end <= |source|
    ensures Remaining(source, index, depth) == BlankAll(source[index..end]) + Remaining(source, end, depth')
  {
    depth' := depth;
    if TwoAt(source, index, '/', '*') {
      end, depth' := index + 2, depth + 1;
    } else if TwoAt(source, index, '*', '/') {
      end, depth' := index + 2, depth - 1;
    } else {
      end := index + 1;
    }
    RemainingStep(source, index, end, depth, depth');
  }

  /** One iteration outside: a whole token, or the opening of a block comment. */
  ghost predicate Scanned(s: string, i: nat, end: nat, depth: nat, code: bool)
    requires i < |s|
  {
    if depth == 0 then Next(s, i) == Token(end, code)
    else depth == 1 && end == i + 2 && !code && !StartsWith(s, "//", i) && StartsWith(s, "/*", i)
  }

  lemma ScannedRemaining(s: string, i: nat, end: nat, depth: nat)
    requires i < |s| && Scanned(s, i, end, depth, false)
    ensures end <= |s| && Remaining(s, i, 0) == BlankAll(s[i..end]) + Remaining(s, end, depth)
  {
    RemainingOutside(s, i);
    if depth == 0 {
      RemainingOutside(s, end);
      MaskStep(s, i);
    } else {
      BlockOpens(s, i);
    }
  }

  method StepOutside(source: string, index: nat) returns (end: nat, depth: nat, code: bool)
    requires index < |source|
    ensures index < end <= |source| && Scanned(source, index, end, depth, code)
  {
    depth, code := 0, false;
    if StartsWith(source, "//", index) {
      end := ScanLine(source, index);
    } else if StartsWith(source, "/*", index) {
      end, depth := index + 2, 1;
    } else if IsRaw(source, index) {
      end := RawEnd(source, index);
    } else if StringPrefix(source, index) > 0 {
      end := ScanString(source, index + StringPrefix(source, index));
    } else if CharLiteral(source, index) > 0 {
      end := index + CharLiteral(source, index);
    } else {
      end, code := index + 1, true;
    }
  }

  lemma MaskedAll(s: string, masked: string, depth: nat)
    requires Progress(s, masked, |s|, depth)
    ensures masked == Mask(s, 0)
  {
    assert Remaining(s, |s|, depth) == "";
    assert masked[..|s|] == masked;
  }

  /** For every text the loop ends, and leaves the masked text. */
  method RustLexicalMask(source: string) returns (masked: string)
    ensures masked == Mask(source, 0)
  {
    masked := source;
    var index, depth := 0, 0;
    RemainingOutside(source, 0);
    while index < |source|
      invariant Progress(source, masked, index, depth)
      decreases |source| - index
    {
      var end, depth', code := index, depth, false;
      if depth > 0 {
        end, depth' := StepInside(source, index, depth);
      } else {
        end, depth', code := StepOutside(source, index);
      }
      if code {
        CodeProgress(source, masked, index);
      } else {
        ghost var before := masked;
        if depth == 0 { ScannedRemaining(source, index, end, depth'); }
        masked := BlankRange(masked, index, end);
        BlankedProgress(source, before, masked, index, end, depth, depth');
      }
      index, depth := end, depth';
    }
    MaskedAll(source, masked, depth);
  }
}
