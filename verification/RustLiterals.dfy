/** What the ends of literals and comments mean, without following the scan. */
module RustLiterals {
  import opened Wrappers
  import opened RustMask
  import opened RustResync

  // ---------------------------------------------------------------- quoted strings

  /** The number of backslashes directly before `k`, looking back no further than `i`. */
  function Slashes(s: string, i: nat, k: nat): nat
    requires i <= k <= |s|
    decreases k
  {
    if k > i && s[k - 1] == '\\' then 1 + Slashes(s, i, k - 1) else 0
  }

  /** A quote that is not escaped. */
  ghost predicate Closing(s: string, i: nat, k: nat)
    requires i <= k < |s|
  {
    s[k] == '"' && Slashes(s, i, k) % 2 == 0
  }

  ghost predicate NoneClosing(s: string, i: nat, j: nat)
    requires i <= j <= |s|
  {
    forall k :: i <= k < j ==> !Closing(s, i, k)
  }

  ghost predicate EndsString(s: string, i: nat, e: nat)
    requires i <= e <= |s|
  {
    || (i < e && Closing(s, i, e - 1) && NoneClosing(s, i, e - 1))
    || (e == |s| && NoneClosing(s, i, |s|))
  }

  lemma {:induction false} StringEndFrom(s: string, i: nat, j: nat, escaped: bool)
    requires i <= j <= |s| && (escaped <==> Slashes(s, i, j) % 2 == 1) && NoneClosing(s, i, j)
    ensures EndsString(s, i, StringEnd(s, j, escaped))
    decreases |s| - j
  {
    if j < |s| {
      assert Slashes(s, i, j + 1) == if s[j] == '\\' then 1 + Slashes(s, i, j) else 0;
      if escaped {
        StringEndFrom(s, i, j + 1, false);
      } else if s[j] == '\\' {
        StringEndFrom(s, i, j + 1, true);
      } else if s[j] != '"' {
        StringEndFrom(s, i, j + 1, false);
      }
    }
  }

  /** A string ends after its first quote with an even number of backslashes before it, or with the text. */
  lemma StringEndMeaning(s: string, i: nat)
    requires i <= |s|
    ensures EndsString(s, i, StringEnd(s, i, false))
  {
    StringEndFrom(s, i, i, false);
  }

  // ---------------------------------------------------------------- raw strings

  ghost predicate NoneBetween(s: string, t: string, i: nat, j: nat) {
    forall k :: i <= k < j ==> !StartsWith(s, t, k)
  }

  /** `e` is after the first occurrence of `t` from `i` on, or the end of a text without one. */
  ghost predicate EndsAfterFirst(s: string, t: string, i: nat, e: nat) {
    || (i + |t| <= e && StartsWith(s, t, e - |t|) && NoneBetween(s, t, i, e - |t|))
    || (e == |s| && NoneBetween(s, t, i, |s| + 1))
  }

  lemma {:induction false} AfterFirstMeaning(s: string, t: string, i: nat)
    requires i <= |s|
    ensures EndsAfterFirst(s, t, i, AfterFirst(s, t, i))
    decreases |s| - i
  {
    if !StartsWith(s, t, i) && i < |s| {
      AfterFirstMeaning(s, t, i + 1);
    }
  }

  lemma RawEndIs(s: string, i: nat, p: nat, q: nat)
    requires i < |s| && IsRaw(s, i) && p == RawPrefix(s, i) && q == Hashes(s, p)
    ensures q < |s| && RawEnd(s, i) == AfterFirst(s, "\"" + Repeat('#', q - p), q + 1)
  {
  }

  /** A raw string with `q - p` hashes ends after the first quote followed by as many hashes, or with the text. */
  lemma RawEndMeaning(s: string, i: nat, p: nat, q: nat)
    requires i < |s| && IsRaw(s, i) && p == RawPrefix(s, i) && q == Hashes(s, p)
    ensures q < |s| && EndsAfterFirst(s, "\"" + Repeat('#', q - p), q + 1, RawEnd(s, i))
  {
    RawEndIs(s, i, p, q);
    AfterFirstMeaning(s, "\"" + Repeat('#', q - p), q + 1);
  }

  // ---------------------------------------------------------------- nested comments

  /** The inside of a block comment. */
  datatype Part = Text(text: string) | Nested(parts: seq<Part>)

  function Render(p: Part): string
    decreases p
  {
    match p
    case Text(t) => t
    case Nested(parts) => "/*" + (Body(parts) + "*/")
  }

  function Body(parts: seq<Part>): string
    decreases parts
  {
    if parts == [] then "" else Render(parts[0]) + Body(parts[1..])
  }

  predicate MarkAtPosition(s: string, k: nat) { TwoAt(s, k, '/', '*') || TwoAt(s, k, '*', '/') }

  /** No comment mark starts inside a text part, when `tail` follows the comment parts. */
  ghost predicate Readable(parts: seq<Part>, tail: string)
    decreases parts
  {
    parts != [] ==>
      var after := Body(parts[1..]) + tail;
      Readable(parts[1..], tail) && ReadablePart(parts[0], after)
  }

  ghost predicate ReadablePart(p: Part, after: string)
    decreases p
  {
    match p
    case Text(t) => forall k :: 0 <= k < |t| ==> !MarkAtPosition(t + after, k)
    case Nested(inner) => Readable(inner, "*/" + after)
  }

  lemma {:induction false} SkipText(s: string, i: nat, n: nat, depth: nat)
    requires i + n <= |s| && depth > 0 && forall k :: i <= k < i + n ==> !MarkAtPosition(s, k)
    ensures BlockEnd(s, i, depth) == BlockEnd(s, i + n, depth)
    decreases n
  {
    if n > 0 {
      assert !MarkAtPosition(s, i);
      SkipText(s, i + 1, n - 1, depth);
    }
  }

  /** Marks are seen the same in a text and in its end. */
  lemma MarkInSuffix(s: string, i: nat, u: string, k: nat)
    requires i <= |s| && s[i..] == u && k < |u|
    ensures MarkAtPosition(s, i + k) <==> MarkAtPosition(u, k)
  {
    assert s[i + k] == u[k] && (k + 1 < |u| ==> s[i + k + 1] == u[k + 1]);
  }

  lemma SkipFirst(s: string, i: nat, part: string, after: string)
    requires i <= |s| && s[i..] == part + after
    ensures i + |part| <= |s| && s[i + |part|..] == after
  {
    assert s[i + |part|..] == s[i..][|part|..];
  }

  lemma SkipTextPart(s: string, i: nat, t: string, after: string, depth: nat)
    requires i <= |s| && s[i..] == t + after && depth > 0
    requires forall k :: 0 <= k < |t| ==> !MarkAtPosition(t + after, k)
    ensures i + |t| <= |s| && BlockEnd(s, i, depth) == BlockEnd(s, i + |t|, depth)
  {
    forall k | i <= k < i + |t| ensures !MarkAtPosition(s, k) { MarkInSuffix(s, i, t + after, k - i); }
    SkipText(s, i, |t|, depth);
  }

  lemma MarkStep(s: string, i: nat, opens: bool, after: string, depth: nat)
    requires i <= |s| && s[i..] == (if opens then "/*" else "*/") + after && depth > 0
    ensures i + 2 <= |s| && s[i + 2..] == after
    ensures BlockEnd(s, i, depth) == BlockEnd(s, i + 2, if opens then depth + 1 else depth - 1)
  {
    var mark := if opens then "/*" else "*/";
    SkipFirst(s, i, mark, after);
    assert s[i] == s[i..][0] == mark[0] && s[i + 1] == s[i..][1] == mark[1];
  }

  lemma SkipSecond(s: string, i: nat, part: string, body: string, tail: string)
    requires i <= |s| && s[i..] == part + body + tail
    ensures s[i..] == part + (body + tail) && i + |part| <= |s| && s[i + |part|..] == body + tail
  {
    Regroup(part, part, body, tail);
    SkipFirst(s, i, part, body + tail);
  }

  lemma FirstPart(s: string, i: nat, parts: seq<Part>, tail: string)
    requires i <= |s| && parts != [] && s[i..] == Body(parts) + tail
    ensures s[i..] == Render(parts[0]) + (Body(parts[1..]) + tail)
    ensures i + |Render(parts[0])| <= |s| && s[i + |Render(parts[0])|..] == Body(parts[1..]) + tail
  {
    SkipSecond(s, i, Render(parts[0]), Body(parts[1..]), tail);
  }

  lemma ReadableFirst(parts: seq<Part>, tail: string)
    requires parts != [] && Readable(parts, tail)
    ensures Readable(parts[1..], tail) && ReadablePart(parts[0], Body(parts[1..]) + tail)
    ensures |Body(parts)| == |Render(parts[0])| + |Body(parts[1..])|
  {
  }

  lemma {:induction false} SkipHead(s: string, i: nat, parts: seq<Part>, tail: string, depth: nat)
    requires i + |Body(parts)| <= |s| && s[i..] == Body(parts) + tail && Readable(parts, tail) && depth > 0 && parts != []
    ensures var j := i + |Render(parts[0])|;
      && j + |Body(parts[1..])| == i + |Body(parts)| && s[j..] == Body(parts[1..]) + tail && Readable(parts[1..], tail)
      && BlockEnd(s, i, depth) == BlockEnd(s, j, depth)
    decreases parts, 0
  {
    FirstPart(s, i, parts, tail);
    ReadableFirst(parts, tail);
    SkipPart(s, i, parts[0], Body(parts[1..]) + tail, depth);
  }

  /** The scan passes over readable parts at the depth it entered them with. */
  lemma {:induction false} SkipParts(s: string, i: nat, parts: seq<Part>, tail: string, depth: nat)
    requires i + |Body(parts)| <= |s| && s[i..] == Body(parts) + tail && Readable(parts, tail) && depth > 0
    ensures BlockEnd(s, i, depth) == BlockEnd(s, i + |Body(parts)|, depth)
    decreases parts, 1
  {
    if parts != [] {
      SkipHead(s, i, parts, tail, depth);
      SkipParts(s, i + |Render(parts[0])|, parts[1..], tail, depth);
    }
  }

  lemma NestedText(body: string, after: string)
    ensures ("/*" + (body + "*/")) + after == "/*" + (body + ("*/" + after))
  {
  }

  /** The two marks of a nested comment cancel out. */
  lemma SkipMarks(s: string, i: nat, body: string, after: string, depth: nat)
    requires i + 2 + |body| <= |s| && s[i..] == "/*" + (body + ("*/" + after)) && depth > 0
    requires BlockEnd(s, i + 2, depth + 1) == BlockEnd(s, i + 2 + |body|, depth + 1)
    ensures i + |body| + 4 <= |s| && BlockEnd(s, i, depth) == BlockEnd(s, i + |body| + 4, depth)
  {
    MarkStep(s, i, true, body + ("*/" + after), depth);
    SkipFirst(s, i + 2, body, "*/" + after);
    MarkStep(s, i + 2 + |body|, false, after, depth + 1);
  }

  lemma {:induction false} SkipNested(s: string, i: nat, inner: seq<Part>, after: string, depth: nat)
    requires i <= |s| && s[i..] == "/*" + (Body(inner) + ("*/" + after)) && Readable(inner, "*/" + after) && depth > 0
    ensures i + |Body(inner)| + 4 <= |s| && BlockEnd(s, i, depth) == BlockEnd(s, i + |Body(inner)| + 4, depth)
    decreases inner, 2
  {
    SkipFirst(s, i, "/*", Body(inner) + ("*/" + after));
    SkipFirst(s, i + 2, Body(inner), "*/" + after);
    SkipParts(s, i + 2, inner, "*/" + after, depth + 1);
    SkipMarks(s, i, Body(inner), after, depth);
  }

  lemma {:induction false} SkipPart(s: string, i: nat, p: Part, after: string, depth: nat)
    requires i <= |s| && s[i..] == Render(p) + after && ReadablePart(p, after) && depth > 0
    ensures i + |Render(p)| <= |s| && BlockEnd(s, i, depth) == BlockEnd(s, i + |Render(p)|, depth)
    decreases p, 0
  {
    match p
    case Text(t) => SkipTextPart(s, i, t, after, depth);
    case Nested(inner) =>
      NestedText(Body(inner), after);
      SkipNested(s, i, inner, after, depth);
  }

  lemma LastMark(s: string, j: nat, after: string)
    requires j <= |s| && s[j..] == "*/" + after
    ensures j + 2 <= |s| && BlockEnd(s, j, 1) == j + 2
  {
    MarkStep(s, j, false, after, 1);
  }

  lemma BodyEnds(s: string, j: nat, parts: seq<Part>, after: string)
    requires j <= |s| && s[j..] == Body(parts) + ("*/" + after) && Readable(parts, "*/" + after)
    ensures BlockEnd(s, j, 1) == j + |Body(parts)| + 2 <= |s|
  {
    SkipFirst(s, j, Body(parts), "*/" + after);
    SkipParts(s, j, parts, "*/" + after, 1);
    LastMark(s, j + |Body(parts)|, after);
  }

  lemma CommentEnds(s: string, i: nat, parts: seq<Part>, after: string)
    requires i <= |s| && s[i..] == "/*" + (Body(parts) + ("*/" + after)) && Readable(parts, "*/" + after)
    ensures i + |Body(parts)| + 4 <= |s| && StartsWith(s, "/*", i)
    ensures BlockEnd(s, i + 2, 1) == i + |Body(parts)| + 4
  {
    SkipFirst(s, i, "/*", Body(parts) + ("*/" + after));
    assert s[i..i + 2] == s[i..][..2] == "/*";
    BodyEnds(s, i + 2, parts, after);
  }

  lemma CommentToken(s: string, i: nat)
    requires i < |s| && StartsWith(s, "/*", i)
    ensures Next(s, i) == Token(BlockEnd(s, i + 2, 1), false)
  {
    assert s[i..i + 2][1] == '*';
  }

  /** A block comment, with comments nested in it to any depth, is one token that ends where it was closed. */
  lemma NestedCommentIsOneToken(s: string, i: nat, parts: seq<Part>, after: string)
    requires i < |s| && s[i..] == Render(Nested(parts)) + after && Readable(parts, "*/" + after)
    ensures i + |Render(Nested(parts))| <= |s| && Next(s, i) == Token(i + |Render(Nested(parts))|, false)
  {
    NestedText(Body(parts), after);
    CommentEnds(s, i, parts, after);
    CommentToken(s, i);
  }

  /** Unless it runs to the end of the text, a comment ends with its closing mark. */
  lemma {:induction false} CommentEndsWithMark(s: string, i: nat, depth: nat)
    requires i <= |s| && depth > 0
    ensures BlockEnd(s, i, depth) < |s| ==> i + 2 <= BlockEnd(s, i, depth) && TwoAt(s, BlockEnd(s, i, depth) - 2, '*', '/')
    decreases |s| - i
  {
    if i < |s| {
      if TwoAt(s, i, '/', '*') {
        CommentEndsWithMark(s, i + 2, depth + 1);
      } else if TwoAt(s, i, '*', '/') {
        if depth > 1 { CommentEndsWithMark(s, i + 2, depth - 1); }
      } else {
        CommentEndsWithMark(s, i + 1, depth);
      }
    }
  }

  // ---------------------------------------------------------------- where literals start

  /** A character literal in `s[i..e]`: perhaps a `b`, a quote, then a backslash and any character but a line feed, or
      one character that is no quote, backslash or line break, then a quote. */
  ghost predicate CharShape(s: string, i: nat, e: nat) {
    i < |s| && var q := if s[i] == 'b' then i + 1 else i;
      && q + 2 < |s| && s[q] == '\''
      && ( || (e == q + 4 && q + 3 < |s| && s[q + 1] == '\\' && s[q + 2] != '\n' && s[q + 3] == '\'')
           || (e == q + 3 && s[q + 1] != '\'' && s[q + 1] != '\\' && s[q + 1] != '\r' && s[q + 1] != '\n' && s[q + 2] == '\''))
  }

  /** The start of a string whose text begins at `b`: perhaps a `b` or `c`, and a quote. */
  ghost predicate StringShape(s: string, i: nat, b: nat) {
    || (b == i + 1 && b <= |s| && s[i] == '"')
    || (b == i + 2 && b <= |s| && (s[i] == 'b' || s[i] == 'c') && s[i + 1] == '"')
  }

  /** The start of a raw string: `r`, `br` or `cr` before `p`, at most 255 hashes before `q`, and a quote at `q`. */
  ghost predicate RawShape(s: string, i: nat, p: nat, q: nat) {
    && p <= q < |s| && q - p <= 255 && s[q] == '"' && (forall k :: p <= k < q ==> s[k] == '#')
    && ((p == i + 1 && s[i] == 'r') || (p == i + 2 && (s[i] == 'b' || s[i] == 'c') && s[i + 1] == 'r'))
  }

  lemma CharMeaning(s: string, i: nat, e: nat)
    requires i < |s|
    ensures CharShape(s, i, e) <==> CharLiteral(s, i) > 0 && e == i + CharLiteral(s, i)
  {
  }

  lemma StringMeaning(s: string, i: nat, b: nat)
    requires i < |s|
    ensures StringShape(s, i, b) <==> StringPrefix(s, i) > 0 && b == i + StringPrefix(s, i)
  {
    StartsTwo(s, i, 'b', '"');
    StartsTwo(s, i, 'c', '"');
  }

  lemma {:induction false} HashesAre(s: string, p: nat, q: nat)
    requires p <= q < |s| && s[q] != '#' && forall k :: p <= k < q ==> s[k] == '#'
    ensures Hashes(s, p) == q
    decreases q - p
  {
    if p < q { HashesAre(s, p + 1, q); }
  }

  lemma PrefixMeaning(s: string, i: nat, p: nat)
    requires i < |s|
    ensures p == RawPrefix(s, i) && p > i <==>
      (p == i + 1 && s[i] == 'r') || (p == i + 2 && i + 1 < |s| && (s[i] == 'b' || s[i] == 'c') && s[i + 1] == 'r')
  {
    StartsTwo(s, i, 'b', 'r');
    StartsTwo(s, i, 'c', 'r');
  }

  lemma RawMeaning(s: string, i: nat, p: nat, q: nat)
    requires i < |s|
    ensures RawShape(s, i, p, q) <==> IsRaw(s, i) && p == RawPrefix(s, i) && q == Hashes(s, p)
  {
    PrefixMeaning(s, i, p);
    if RawShape(s, i, p, q) { HashesAre(s, p, q); }
  }

  /** No comment and no literal starts at `i`. */
  ghost predicate NothingStarts(s: string, i: nat) {
    && !TwoAt(s, i, '/', '/') && !TwoAt(s, i, '/', '*')
    && (forall p: nat, q: nat :: !RawShape(s, i, p, q)) && (forall b: nat :: !StringShape(s, i, b))
    && (forall e: nat :: !CharShape(s, i, e))
  }

  lemma CodeMeaning(s: string, i: nat)
    requires i < |s|
    ensures Next(s, i).code <==> NothingStarts(s, i)
  {
    StartsTwo(s, i, '/', '/');
    StartsTwo(s, i, '/', '*');
    forall p: nat, q: nat ensures RawShape(s, i, p, q) <==> IsRaw(s, i) && p == RawPrefix(s, i) && q == Hashes(s, p) {
      RawMeaning(s, i, p, q);
    }
    forall b: nat ensures StringShape(s, i, b) <==> StringPrefix(s, i) > 0 && b == i + StringPrefix(s, i) {
      StringMeaning(s, i, b);
    }
    forall e: nat ensures CharShape(s, i, e) <==> CharLiteral(s, i) > 0 && e == i + CharLiteral(s, i) { CharMeaning(s, i, e); }
    PlainIsCode(s, i);
    if IsRaw(s, i) { assert RawShape(s, i, RawPrefix(s, i), Hashes(s, RawPrefix(s, i))); }
    if StringPrefix(s, i) > 0 { assert StringShape(s, i, i + StringPrefix(s, i)); }
    if CharLiteral(s, i) > 0 { assert CharShape(s, i, i + CharLiteral(s, i)); }
  }

  lemma RawToken(s: string, i: nat, p: nat, q: nat)
    requires i < |s| && RawShape(s, i, p, q)
    ensures !Next(s, i).code && EndsAfterFirst(s, "\"" + Repeat('#', q - p), q + 1, Next(s, i).end)
  {
    RawMeaning(s, i, p, q);
    StartsTwo(s, i, '/', '/');
    StartsTwo(s, i, '/', '*');
    RawEndMeaning(s, i, p, q);
  }

  lemma StringToken(s: string, i: nat, b: nat)
    requires i < |s| && StringShape(s, i, b)
    ensures !Next(s, i).code && b <= Next(s, i).end && EndsString(s, b, Next(s, i).end)
  {
    StringMeaning(s, i, b);
    StartsTwo(s, i, '/', '/');
    StartsTwo(s, i, '/', '*');
    PrefixMeaning(s, i, RawPrefix(s, i));
    StringEndMeaning(s, b);
  }

  lemma CharToken(s: string, i: nat, e: nat)
    requires i < |s| && CharShape(s, i, e)
    ensures Next(s, i) == Token(e, false)
  {
    CharMeaning(s, i, e);
    StartsTwo(s, i, '/', '/');
    StartsTwo(s, i, '/', '*');
    PrefixMeaning(s, i, RawPrefix(s, i));
    StringMeaning(s, i, i + StringPrefix(s, i));
  }

  lemma CommentTokens(s: string, i: nat)
    requires i < |s|
    ensures TwoAt(s, i, '/', '/') ==> Next(s, i) == Token(LineEnd(s, i), false)
    ensures TwoAt(s, i, '/', '*') ==> Next(s, i) == Token(BlockEnd(s, i + 2, 1), false)
  {
    StartsTwo(s, i, '/', '/');
    StartsTwo(s, i, '/', '*');
  }

  /** What the token at `i` is, in plain characters: a line comment to the end of its line, a block comment to its
      closing mark or the end, a raw string, a string or a character literal, each to its own end, and a character of
      code exactly when none of these starts there. */
  lemma TokenMeaning(s: string, i: nat)
    requires i < |s|
    ensures var t := Next(s, i);
      && (TwoAt(s, i, '/', '/') ==> !t.code && (t.end < |s| ==> IsBreak(s[t.end])) && forall k :: i <= k < t.end ==> !IsBreak(s[k]))
      && (TwoAt(s, i, '/', '*') ==> !t.code && (t.end < |s| ==> i + 4 <= t.end && TwoAt(s, t.end - 2, '*', '/')))
      && (forall p: nat, q: nat :: RawShape(s, i, p, q) ==>
            !t.code && EndsAfterFirst(s, "\"" + Repeat('#', q - p), q + 1, t.end))
      && (forall b: nat :: StringShape(s, i, b) ==> !t.code && b <= t.end && EndsString(s, b, t.end))
      && (forall e: nat :: CharShape(s, i, e) ==> t == Token(e, false))
      && (t.code <==> NothingStarts(s, i)) && (t.code ==> t.end == i + 1)
  {
    CommentTokens(s, i);
    if TwoAt(s, i, '/', '*') { CommentEndsWithMark(s, i + 2, 1); }
    forall p: nat, q: nat | RawShape(s, i, p, q)
      ensures !Next(s, i).code && EndsAfterFirst(s, "\"" + Repeat('#', q - p), q + 1, Next(s, i).end)
    {
      RawToken(s, i, p, q);
    }
    forall b: nat | StringShape(s, i, b)
      ensures !Next(s, i).code && b <= Next(s, i).end && EndsString(s, b, Next(s, i).end)
    {
      StringToken(s, i, b);
    }
    forall e: nat | CharShape(s, i, e) ensures Next(s, i) == Token(e, false) { CharToken(s, i, e); }
    CodeMeaning(s, i);
  }

  // ---------------------------------------------------------------- literals are blanked

  lemma {:induction false} InsideToken(ts: seq<Token>, j: nat, i: nat, k: nat)
    requires Cuts(ts) && j <= i < |ts| && Reach(ts, j, i) && i <= k < ts[i].end && !ts[i].code
    ensures !CodeAt(ts, j, k)
    decreases |ts| - j
  {
    if j < i {
      ReachForward(ts, ts[j].end, i);
      InsideToken(ts, ts[j].end, i, k);
    }
  }

  /** A comment or literal that the lexer comes to is blanked, from its first to its last character. */
  lemma TokenIsBlank(s: string, i: nat, k: nat)
    requires i < |s| && Cuts(Tokens(s)) && Reach(Tokens(s), 0, i) && !Tokens(s)[i].code && i <= k < Tokens(s)[i].end
    ensures Mask(s, 0)[k] == if s[k] == '\n' || s[k] == '\r' then s[k] else ' '
  {
    InsideToken(Tokens(s), 0, i, k);
    MaskChar(s, Tokens(s), 0, k);
  }

  lemma CharLiteralToken(s: string, i: nat, e: nat)
    requires CharShape(s, i, e)
    ensures Tokens(s)[i] == Token(e, false)
  {
    CharToken(s, i, e);
    TokensAt(s, i);
  }

  /** So is every character literal with what is in it: a quoted brace or quote does not count. */
  lemma CharLiteralIsBlank(s: string, i: nat, e: nat)
    requires CharShape(s, i, e) && Cuts(Tokens(s)) && Reach(Tokens(s), 0, i)
    ensures e <= |s| && Reach(Tokens(s), 0, e)
    ensures forall k :: i <= k < e ==> Mask(s, 0)[k] == if s[k] == '\n' || s[k] == '\r' then s[k] else ' '
  {
    CharLiteralToken(s, i, e);
    ReachNext(Tokens(s), i);
    forall k | i <= k < e ensures Mask(s, 0)[k] == if s[k] == '\n' || s[k] == '\r' then s[k] else ' ' { TokenIsBlank(s, i, k); }
  }
}
