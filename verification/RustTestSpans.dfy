/** Items under `#[cfg(test)]` in masked Rust text. */
module RustTestSpans {
  import opened Wrappers
  import opened RustMask

  datatype Span = Span(start: nat, end: nat)

  /** White space as the checker's regular expressions see it. */
  predicate IsSpace(c: char) {
    || c == ' ' || c in ['\t', '\n', '\r'] || '\U{000b}' <= c <= '\U{000c}' || '\U{001c}' <= c <= '\U{001f}'
    || c in ['\U{0085}', '\U{00a0}', '\U{1680}'] || '\U{2000}' <= c <= '\U{200a}'
    || c in ['\U{2028}', '\U{2029}', '\U{202f}', '\U{205f}', '\U{3000}']
  }

  function SkipSpace(m: string, i: nat): (e: nat)
    requires i <= |m|
    ensures i <= e <= |m| && forall k :: i <= k < e ==> IsSpace(m[k])
    decreases |m| - i
  {
    if i < |m| && IsSpace(m[i]) then SkipSpace(m, i + 1) else i
  }

  /** The end of a match of `words`, each after optional white space. */
  function MatchWords(m: string, i: nat, words: seq<string>): (e: Option<nat>)
    requires i <= |m|
    ensures e.Some? ==> i <= e.value <= |m|
    decreases |words|, |m|
  {
    if words == [] then Some(i)
    else
      var j := SkipSpace(m, i);
      if StartsWith(m, words[0], j) then MatchWords(m, j + |words[0]|, words[1..]) else None
  }

  ghost predicate AllSpace(m: string, i: nat, j: nat) {
    i <= j <= |m| && forall k :: i <= k < j ==> IsSpace(m[k])
  }

  /** `words` fill `m[i..e]`, with any amount of white space before each of them. */
  ghost predicate Spaced(m: string, i: nat, e: nat, words: seq<string>)
    decreases |words|
  {
    if words == [] then i == e
    else exists j: nat :: AllSpace(m, i, j) && StartsWith(m, words[0], j) && Spaced(m, j + |words[0]|, e, words[1..])
  }

  ghost predicate Visible(words: seq<string>) {
    forall k :: 0 <= k < |words| ==> words[k] != "" && !IsSpace(words[k][0])
  }

  lemma {:induction false} SkipSpaceIs(m: string, i: nat, j: nat)
    requires AllSpace(m, i, j) && j < |m| && !IsSpace(m[j])
    ensures SkipSpace(m, i) == j
    decreases j - i
  {
    if i < j { SkipSpaceIs(m, i + 1, j); }
  }

  lemma WordAfterSpace(m: string, i: nat, j: nat, words: seq<string>)
    requires AllSpace(m, i, j) && words != [] && StartsWith(m, words[0], j) && words[0] != "" && !IsSpace(words[0][0])
    ensures MatchWords(m, i, words) == MatchWords(m, j + |words[0]|, words[1..])
  {
    var w := words[0];
    assert m[j..j + |w|][0] == w[0] && m[j] == w[0];
    SkipSpaceIs(m, i, j);
  }

  lemma WordMatches(m: string, i: nat, j: nat, e: nat, words: seq<string>)
    requires words != [] && words[0] != "" && !IsSpace(words[0][0]) && AllSpace(m, i, j) && StartsWith(m, words[0], j)
    requires MatchWords(m, j + |words[0]|, words[1..]) == Some(e)
    ensures MatchWords(m, i, words) == Some(e)
  {
    WordAfterSpace(m, i, j, words);
  }

  lemma SpacedFirst(m: string, i: nat, e: nat, words: seq<string>) returns (j: nat)
    requires words != [] && Spaced(m, i, e, words)
    ensures AllSpace(m, i, j) && StartsWith(m, words[0], j) && Spaced(m, j + |words[0]|, e, words[1..])
  {
    j :| AllSpace(m, i, j) && StartsWith(m, words[0], j) && Spaced(m, j + |words[0]|, e, words[1..]);
  }

  /** Whatever spacing is there, the match finds it. */
  lemma {:induction false} SpacedMatches(m: string, i: nat, e: nat, words: seq<string>)
    requires i <= |m| && Visible(words) && Spaced(m, i, e, words)
    ensures MatchWords(m, i, words) == Some(e)
    decreases |words|
  {
    if words != [] {
      var j := SpacedFirst(m, i, e, words);
      SpacedMatches(m, j + |words[0]|, e, words[1..]);
      WordMatches(m, i, j, e, words);
    }
  }

  lemma {:induction false} MatchIsSpaced(m: string, i: nat, words: seq<string>)
    requires i <= |m| && MatchWords(m, i, words).Some?
    ensures Spaced(m, i, MatchWords(m, i, words).value, words)
    decreases |words|
  {
    if words != [] {
      var j := SkipSpace(m, i);
      MatchIsSpaced(m, j + |words[0]|, words[1..]);
      assert AllSpace(m, i, j);
    }
  }

  lemma AttributeWordsVisible()
    ensures Visible(AttributeWords)
  {
  }

  /** An attribute is a hash and the six words, however they are spaced; it ends in one place only. */
  lemma AttributeMeaning(m: string, i: nat, e: nat)
    requires i < |m|
    ensures MatchAttribute(m, i) == Some(e) <==> m[i] == '#' && Spaced(m, i + 1, e, AttributeWords)
  {
    AttributeWordsVisible();
    if m[i] == '#' && Spaced(m, i + 1, e, AttributeWords) { SpacedMatches(m, i + 1, e, AttributeWords); }
    if MatchAttribute(m, i) == Some(e) { MatchIsSpaced(m, i + 1, AttributeWords); }
  }

  const AttributeWords: seq<string> := ["[", "cfg", "(", "test", ")", "]"]

  /** The end of a `#[cfg(test)]` attribute that starts at `i`. */
  function MatchAttribute(m: string, i: nat): (e: Option<nat>)
    requires i < |m|
    ensures e.Some? ==> i < e.value <= |m|
  {
    if m[i] == '#' then MatchWords(m, i + 1, AttributeWords) else None
  }

  predicate Opens(c: char) { c == '{' || c == ';' }

  /** The first `{` or `;` at or after `i`, or the end of the text. */
  function FirstOpener(m: string, i: nat): (o: nat)
    requires i <= |m|
    ensures i <= o <= |m| && (forall k :: i <= k < o ==> !Opens(m[k])) && (o < |m| ==> Opens(m[o]))
    decreases |m| - i
  {
    if i == |m| || Opens(m[i]) then i else FirstOpener(m, i + 1)
  }

  function Shift(c: char): int { if c == '{' then 1 else if c == '}' then -1 else 0 }

  /** Opening minus closing braces in `m[i..j]`. */
  function Depth(m: string, i: nat, j: nat): int
    requires i <= j <= |m|
  {
    if i == j then 0 else Depth(m, i, j - 1) + Shift(m[j - 1])
  }

  /** The brace that ends just before `e` closes the brace at `o`. */
  ghost predicate Closes(m: string, o: nat, e: nat) {
    o < e <= |m| && m[o] == '{' && Depth(m, o, e) == 0 && forall j :: o < j < e ==> Depth(m, o, j) > 0
  }

  /** The position after the brace that brings `depth` to zero. */
  function BraceEnd(m: string, i: nat, depth: nat): (e: Option<nat>)
    requires i <= |m| && depth > 0
    ensures e.Some? ==> i < e.value <= |m|
    decreases |m| - i
  {
    if i == |m| then None
    else
      var d := depth + Shift(m[i]);
      if d == 0 then Some(i + 1) else BraceEnd(m, i + 1, d)
  }

  lemma {:induction false} BraceEndCloses(m: string, o: nat, i: nat, depth: nat)
    requires o < i <= |m| && m[o] == '{' && depth > 0 && Depth(m, o, i) == depth
    requires forall j :: o < j <= i ==> Depth(m, o, j) > 0
    ensures match BraceEnd(m, i, depth)
      case Some(e) => Closes(m, o, e)
      case None => forall e :: !Closes(m, o, e)
    decreases |m| - i
  {
    if i < |m| {
      assert Depth(m, o, i + 1) == depth + Shift(m[i]);
      if depth + Shift(m[i]) != 0 {
        BraceEndCloses(m, o, i + 1, depth + Shift(m[i]));
      }
    }
  }

  /** Where the item whose attribute ends at `i` ends: after its `;`, or after the brace that closes its body. */
  function ItemEnd(m: string, i: nat): (e: Option<nat>)
    requires i <= |m|
    ensures e.Some? ==> i < e.value <= |m|
  {
    var o := FirstOpener(m, i);
    if o == |m| then None
    else if m[o] == ';' then Some(o + 1)
    else BraceEnd(m, o + 1, 1)
  }

  /** What an item end is, without following the text. */
  ghost predicate EndsItem(m: string, i: nat, e: nat)
    requires i <= |m|
  {
    var o := FirstOpener(m, i);
    o < |m| && if m[o] == ';' then e == o + 1 else Closes(m, o, e)
  }

  lemma ItemEndMeaning(m: string, i: nat)
    requires i <= |m|
    ensures match ItemEnd(m, i)
      case Some(e) => EndsItem(m, i, e)
      case None => forall e :: !EndsItem(m, i, e)
  {
    var o := FirstOpener(m, i);
    if o < |m| && m[o] == '{' {
      assert Depth(m, o, o) == 0 && Depth(m, o, o + 1) == 1;
      BraceEndCloses(m, o, o + 1, 1);
    }
  }

  // ---------------------------------------------------------------- the same in plain characters

  /** The white space of the regular expressions, by code point. */
  lemma SpaceMeaning(c: char)
    ensures IsSpace(c) <==>
      var n := c as int;
      || 9 <= n <= 13 || 28 <= n <= 32 || n == 0x85 || n == 0xa0 || n == 0x1680 || 0x2000 <= n <= 0x200a
      || n == 0x2028 || n == 0x2029 || n == 0x202f || n == 0x205f || n == 0x3000
  {
  }

  lemma {:induction false} DepthCounts(m: string, i: nat, j: nat)
    requires i <= j <= |m|
    ensures Depth(m, i, j) + multiset(m[i..j])['}'] == multiset(m[i..j])['{']
  {
    if i < j {
      DepthCounts(m, i, j - 1);
      assert m[i..j] == m[i..j - 1] + [m[j - 1]];
    }
  }

  /** More braces are opened than closed. */
  ghost predicate Unbalanced(s: string) { multiset(s)['{'] > multiset(s)['}'] }

  /** The item whose attribute ends at `i` ends at `e`: the first `;` or `{` behind the attribute is the `;` before `e`, or
      a brace such that up to `e`, and not before, as many braces are closed as opened. */
  ghost predicate EndsAt(m: string, i: nat, o: nat, e: nat) {
    && i <= o < e <= |m| && (forall k :: i <= k < o ==> m[k] != ';' && m[k] != '{')
    && if m[o] == ';' then e == o + 1
       else m[o] == '{' && multiset(m[o..e])['{'] == multiset(m[o..e])['}'] && forall j :: o < j < e ==> Unbalanced(m[o..j])
  }

  lemma ItemEndIs(m: string, i: nat, e: nat)
    requires i <= |m|
    ensures ItemEnd(m, i) == Some(e) <==> exists o: nat :: EndsAt(m, i, o, e)
  {
    ItemEndMeaning(m, i);
    forall o: nat ensures EndsAt(m, i, o, e) <==> o == FirstOpener(m, i) && EndsItem(m, i, e) { EndsAtMeans(m, i, o, e); }
    if EndsItem(m, i, e) { assert EndsAt(m, i, FirstOpener(m, i), e); }
    if ItemEnd(m, i).Some? && EndsItem(m, i, e) { OneEnd(m, i, e, ItemEnd(m, i).value); }
  }

  lemma EndsAtMeans(m: string, i: nat, o: nat, e: nat)
    requires i <= |m|
    ensures EndsAt(m, i, o, e) <==> o == FirstOpener(m, i) && EndsItem(m, i, e)
  {
    var f := FirstOpener(m, i);
    if EndsAt(m, i, o, e) { assert o == f; }
    if o == f < e <= |m| {
      forall j | f < j <= e ensures Depth(m, f, j) > 0 <==> Unbalanced(m[f..j]) { DepthCounts(m, f, j); }
      DepthCounts(m, f, e);
    }
  }

  lemma OneEnd(m: string, i: nat, d: nat, e: nat)
    requires i <= |m| && EndsItem(m, i, d) && EndsItem(m, i, e)
    ensures d == e
  {
  }

  // ---------------------------------------------------------------- the spans

  /** What starts at a position: nothing, or an attribute, whose item may end. */
  datatype Mark = NoMark | Mark(attributeEnd: nat, itemEnd: Option<nat>)

  function MarkAt(m: string, i: nat): (r: Mark)
    requires i < |m|
    ensures r.Mark? ==> i < r.attributeEnd <= |m|
    ensures r.Mark? && r.itemEnd.Some? ==> r.attributeEnd < r.itemEnd.value <= |m|
  {
    var e := MatchAttribute(m, i);
    if e.None? then NoMark else Mark(e.value, ItemEnd(m, e.value))
  }

  function Marks(m: string): (marks: seq<Mark>)
    ensures |marks| == |m| && forall i :: 0 <= i < |m| ==> marks[i] == MarkAt(m, i)
  {
    seq(|m|, i requires 0 <= i < |m| => MarkAt(m, i))
  }

  ghost predicate MarksOk(marks: seq<Mark>) {
    forall i :: 0 <= i < |marks| && marks[i].Mark? ==>
      && i < marks[i].attributeEnd <= |marks|
      && (marks[i].itemEnd.Some? ==> marks[i].attributeEnd < marks[i].itemEnd.value <= |marks|)
      && (forall k :: i < k < marks[i].attributeEnd ==> marks[k].NoMark?)
  }

  /** The spans found from `pos` on, when the last span found ends at `last`. */
  function Spans(marks: seq<Mark>, pos: nat, last: nat): (spans: seq<Span>)
    requires pos <= |marks|
    decreases |marks| - pos
  {
    if pos == |marks| then []
    else
      var here := marks[pos];
      if here.NoMark? || !(pos < here.attributeEnd <= |marks|) then Spans(marks, pos + 1, last)
      else if pos < last || here.itemEnd.None? then Spans(marks, here.attributeEnd, last)
      else [Span(pos, here.itemEnd.value)] + Spans(marks, here.attributeEnd, here.itemEnd.value)
  }

  function SpansOf(source: string): seq<Span> {
    Spans(Marks(Mask(source, 0)), 0, 0)
  }

  lemma {:induction false} WordsHaveNoHash(m: string, i: nat, words: seq<string>, k: nat)
    requires i <= |m| && MatchWords(m, i, words).Some? && i <= k < MatchWords(m, i, words).value
    requires forall w :: w in words ==> '#' !in w
    ensures m[k] != '#'
    decreases |words|
  {
    var j := SkipSpace(m, i);
    if k >= j {
      if k < j + |words[0]| {
        assert m[k] == m[j..j + |words[0]|][k - j] == words[0][k - j];
        assert words[0] in words && words[0][k - j] in words[0];
      } else {
        WordsHaveNoHash(m, j + |words[0]|, words[1..], k);
      }
    }
  }

  lemma NoInnerMark(m: string, i: nat, k: nat)
    requires i < |m| && MarkAt(m, i).Mark? && i < k < MarkAt(m, i).attributeEnd
    ensures MarkAt(m, k).NoMark?
  {
    forall w | w in AttributeWords ensures '#' !in w {}
    WordsHaveNoHash(m, i + 1, AttributeWords, k);
  }

  /** `Marks` tabulates `MarkAt`. */
  ghost predicate Tabulates(m: string, marks: seq<Mark>) {
    |marks| == |m| && forall i :: 0 <= i < |m| ==> IsMarkAt(m, marks, i)
  }

  ghost predicate IsMarkAt(m: string, marks: seq<Mark>, i: nat) {
    i < |m| == |marks| && marks[i] == MarkAt(m, i)
  }

  lemma TableIsOk(m: string, marks: seq<Mark>)
    requires Tabulates(m, marks)
    ensures MarksOk(marks)
  {
    forall i | 0 <= i < |m| ensures marks[i] == MarkAt(m, i) { assert IsMarkAt(m, marks, i); }
    forall i, k | 0 <= i < |marks| && marks[i].Mark? && i < k < marks[i].attributeEnd ensures marks[k].NoMark? {
      NoInnerMark(m, i, k);
    }
  }

  lemma MarksAreOk(m: string)
    ensures MarksOk(Marks(m))
  {
    TableIsOk(m, Marks(m));
  }

  /** In bounds, not empty, increasing and disjoint. */
  ghost predicate Ordered(spans: seq<Span>, from: nat, len: nat) {
    && (forall k :: 0 <= k < |spans| ==> from <= spans[k].start < spans[k].end <= len)
    && (forall j, k :: 0 <= j < k < |spans| ==> spans[j].end <= spans[k].start)
  }

  lemma OrderedCons(s: Span, rest: seq<Span>, from: nat, len: nat)
    requires from <= s.start < s.end <= len && Ordered(rest, s.end, len)
    ensures Ordered([s] + rest, from, len)
  {
    var all := [s] + rest;
    forall k | 0 <= k < |all| ensures from <= all[k].start < all[k].end <= len {
      assert k > 0 ==> all[k] == rest[k - 1];
    }
    forall j, k | 0 <= j < k < |all| ensures all[j].end <= all[k].start {
      assert all[k] == rest[k - 1] && (j > 0 ==> all[j] == rest[j - 1]);
    }
  }

  lemma {:induction false} SpansOrdered(marks: seq<Mark>, pos: nat, last: nat)
    requires pos <= |marks| && MarksOk(marks)
    ensures Ordered(Spans(marks, pos, last), Max(pos, last), |marks|)
    decreases |marks| - pos
  {
    if pos < |marks| {
      var here := marks[pos];
      if here.NoMark? {
        SpansOrdered(marks, pos + 1, last);
      } else if pos < last || here.itemEnd.None? {
        SpansOrdered(marks, here.attributeEnd, last);
      } else {
        SpansOrdered(marks, here.attributeEnd, here.itemEnd.value);
        OrderedCons(Span(pos, here.itemEnd.value), Spans(marks, here.attributeEnd, here.itemEnd.value),
                    Max(pos, last), |marks|);
      }
    }
  }

  /** A span comes from a mark. */
  lemma {:induction false} SpanHasMark(marks: seq<Mark>, pos: nat, last: nat, k: nat)
    requires pos <= |marks| && MarksOk(marks) && k < |Spans(marks, pos, last)|
    ensures var s := Spans(marks, pos, last)[k];
      s.start < |marks| && marks[s.start].Mark? && marks[s.start].itemEnd == Some(s.end)
    decreases |marks| - pos
  {
    var here := marks[pos];
    if here.NoMark? {
      SpanHasMark(marks, pos + 1, last, k);
    } else if pos < last || here.itemEnd.None? {
      SpanHasMark(marks, here.attributeEnd, last, k);
    } else if k > 0 {
      SpanHasMark(marks, here.attributeEnd, here.itemEnd.value, k - 1);
    }
  }

  /** `i` lies in one of the spans. */
  predicate Covered(spans: seq<Span>, i: nat) {
    exists k :: 0 <= k < |spans| && spans[k].start <= i < spans[k].end
  }

  lemma {:induction false} MarksCovered(marks: seq<Mark>, pos: nat, last: nat, i: nat)
    requires MarksOk(marks) && pos <= i < |marks| && last <= i && marks[i].Mark? && marks[i].itemEnd.Some?
    ensures Covered(Spans(marks, pos, last), i)
    decreases |marks| - pos
  {
    var here := marks[pos];
    if here.NoMark? {
      MarksCovered(marks, pos + 1, last, i);
    } else if pos < last || here.itemEnd.None? {
      MarksCovered(marks, here.attributeEnd, last, i);
    } else {
      var end := here.itemEnd.value;
      var rest := Spans(marks, here.attributeEnd, end);
      var all := [Span(pos, end)] + rest;
      assert all[0] == Span(pos, end);
      if i >= end {
        MarksCovered(marks, here.attributeEnd, end, i);
        var k :| 0 <= k < |rest| && rest[k].start <= i < rest[k].end;
        assert all[k + 1] == rest[k];
      }
    }
  }

  /** Each span is one item: it starts at an attribute and ends where that attribute's item ends. */
  ghost predicate IsItem(m: string, s: Span) {
    s.start < |m| && MatchAttribute(m, s.start).Some? && EndsItem(m, MatchAttribute(m, s.start).value, s.end)
  }

  /** The spans of a text are in bounds, increasing and disjoint; each runs from an attribute of the masked text to
      the `;` or the matching brace that ends its item; and no attribute whose item ends is missed. */
  lemma SpansAreTheTestItems(source: string)
    ensures Ordered(SpansOf(source), 0, |source|)
    ensures forall k :: 0 <= k < |SpansOf(source)| ==> IsItem(Mask(source, 0), SpansOf(source)[k])
    ensures forall i, e :: 0 <= i < |source| && IsItem(Mask(source, 0), Span(i, e)) ==> Covered(SpansOf(source), i)
  {
    var m := Mask(source, 0);
    var marks := Marks(m);
    MarksAreOk(m);
    SpansOrdered(marks, 0, 0);
    forall k | 0 <= k < |SpansOf(source)| ensures IsItem(m, SpansOf(source)[k]) {
      SpanHasMark(marks, 0, 0, k);
      var s := SpansOf(source)[k];
      assert marks[s.start] == MarkAt(m, s.start);
      ItemEndMeaning(m, MatchAttribute(m, s.start).value);
    }
    forall i, e | 0 <= i < |source| && IsItem(m, Span(i, e))
      ensures Covered(SpansOf(source), i)
    {
      ItemEndMeaning(m, MatchAttribute(m, i).value);
      assert marks[i] == MarkAt(m, i);
      MarksCovered(marks, 0, 0, i);
    }
  }

  // ---------------------------------------------------------------- the checker's loops

  method FindOpener(m: string, i: nat) returns (o: nat)
    requires i <= |m|
    ensures o == FirstOpener(m, i)
  {
    o := i;
    while o < |m| && !Opens(m[o])
      invariant i <= o <= |m| && FirstOpener(m, o) == FirstOpener(m, i)
    {
      o := o + 1;
    }
  }

  method FindBraceEnd(m: string, i: nat) returns (e: Option<nat>)
    requires i <= |m|
    ensures e == BraceEnd(m, i, 1)
  {
    var depth, cursor := 1, i;
    while cursor < |m| && depth > 0
      invariant i <= cursor <= |m| && depth >= 0
      invariant depth > 0 ==> BraceEnd(m, cursor, depth) == BraceEnd(m, i, 1)
      invariant depth == 0 ==> BraceEnd(m, i, 1) == Some(cursor)
    {
      if m[cursor] == '{' {
        depth := depth + 1;
      } else if m[cursor] == '}' {
        depth := depth - 1;
      }
      cursor := cursor + 1;
    }
    e := if depth == 0 then Some(cursor) else None;
  }

  method FindMark(m: string, i: nat) returns (mark: Mark)
    requires i < |m|
    ensures mark == MarkAt(m, i)
  {
    var e := MatchAttribute(m, i);
    if e.None? { return NoMark; }
    var o := FindOpener(m, e.value);
    if o == |m| { return Mark(e.value, None); }
    if m[o] == ';' { return Mark(e.value, Some(o + 1)); }
    var end := FindBraceEnd(m, o + 1);
    mark := Mark(e.value, end);
  }

  /** The spans so far end at `last`, and start before `pos`. */
  ghost predicate EndAt(spans: seq<Span>, pos: nat, last: nat) {
    && (forall k :: 0 <= k < |spans| ==> spans[k].start < pos && spans[k].end <= last)
    && (spans == [] ==> last == 0)
    && (spans != [] ==> spans[|spans| - 1].end == last)
  }

  /** Spans found so far and spans still to find. */
  ghost predicate Collected(marks: seq<Mark>, spans: seq<Span>, pos: nat, last: nat) {
    pos <= |marks| && EndAt(spans, pos, last) && spans + Spans(marks, pos, last) == Spans(marks, 0, 0)
  }

  lemma NextPosition(marks: seq<Mark>, spans: seq<Span>, pos: nat, last: nat)
    requires MarksOk(marks) && pos < |marks| && Collected(marks, spans, pos, last)
    ensures marks[pos].NoMark? ==> Collected(marks, spans, pos + 1, last)
    ensures marks[pos].Mark? && (pos < last || marks[pos].itemEnd.None?)
      ==> Collected(marks, spans, marks[pos].attributeEnd, last)
  {
  }

  lemma NextSpan(marks: seq<Mark>, spans: seq<Span>, pos: nat, last: nat)
    requires MarksOk(marks) && pos < |marks| && Collected(marks, spans, pos, last)
    requires marks[pos].Mark? && last <= pos && marks[pos].itemEnd.Some?
    ensures Collected(marks, spans + [Span(pos, marks[pos].itemEnd.value)], marks[pos].attributeEnd, marks[pos].itemEnd.value)
  {
    var here := marks[pos];
    var rest := Spans(marks, here.attributeEnd, here.itemEnd.value);
    assert spans + ([Span(pos, here.itemEnd.value)] + rest) == (spans + [Span(pos, here.itemEnd.value)]) + rest;
  }

  lemma InsideMeaning(marks: seq<Mark>, spans: seq<Span>, pos: nat, last: nat)
    requires Collected(marks, spans, pos, last)
    ensures Covered(spans, pos) <==> pos < last
  {
  }

  lemma NothingLeft(marks: seq<Mark>, spans: seq<Span>, last: nat)
    requires Collected(marks, spans, |marks|, last)
    ensures spans == Spans(marks, 0, 0)
  {
    assert spans + [] == spans;
  }

  lemma NothingYet(marks: seq<Mark>)
    ensures Collected(marks, [], 0, 0)
  {
    assert [] + Spans(marks, 0, 0) == Spans(marks, 0, 0);
  }

  method MarkHere(m: string, ghost marks: seq<Mark>, pos: nat) returns (mark: Mark)
    requires Tabulates(m, marks) && pos < |m|
    ensures mark == marks[pos]
  {
    mark := FindMark(m, pos);
    assert IsMarkAt(m, marks, pos);
  }

  /** One match: the spans and the position after it. */
  lemma AfterMark(marks: seq<Mark>, spans: seq<Span>, pos: nat, last: nat)
    requires MarksOk(marks) && pos < |marks| && Collected(marks, spans, pos, last) && marks[pos].Mark?
    ensures pos < marks[pos].attributeEnd <= |marks|
    ensures if !Covered(spans, pos) && marks[pos].itemEnd.Some?
      then Collected(marks, spans + [Span(pos, marks[pos].itemEnd.value)], marks[pos].attributeEnd, marks[pos].itemEnd.value)
      else Collected(marks, spans, marks[pos].attributeEnd, last)
  {
    InsideMeaning(marks, spans, pos, last);
    NextPosition(marks, spans, pos, last);
    if !Covered(spans, pos) && marks[pos].itemEnd.Some? { NextSpan(marks, spans, pos, last); }
  }

  method CollectSpans(m: string, ghost marks: seq<Mark>) returns (spans: seq<Span>)
    requires Tabulates(m, marks) && MarksOk(marks)
    ensures spans == Spans(marks, 0, 0)
  {
    spans := [];
    var pos := 0;
    ghost var last := 0;
    NothingYet(marks);
    while pos < |m|
      invariant Collected(marks, spans, pos, last)
      decreases |m| - pos
    {
      var here := MarkHere(m, marks, pos);
      if here.NoMark? {
        NextPosition(marks, spans, pos, last);
        pos := pos + 1;
        continue;
      }
      AfterMark(marks, spans, pos, last);
      var inside := Covered(spans, pos);
      if !inside && here.itemEnd.Some? {
        spans := spans + [Span(pos, here.itemEnd.value)];
        last := here.itemEnd.value;
      }
      pos := here.attributeEnd;
    }
    NothingLeft(marks, spans, last);
  }

  method CfgTestItemSpans(source: string) returns (spans: seq<Span>)
    ensures spans == SpansOf(source)
  {
    var m := RustLexicalMask(source);
    ghost var marks := Marks(m);
    TableIsOk(m, marks);
    spans := CollectSpans(m, marks);
  }
}
