/** The marker outside of comments and literals: it is an attribute whose item never ends, and with such attributes
    in both versions the check can accept a change although the production text differs. */
module RustMarkerCollision {
  import opened Wrappers
  import opened RustMask
  import opened RustTestSpans
  import opened RustProjection
  import opened RustResync
  import opened RustSeams

  const Attribute: string := "#[cfg(test)]"
  const Tail: string := "<existing-test-item>"

  /** The old file has a test item, then text that spells the marker; the new one has them the other way round. */
  function Old(): string { Attribute + "x;{ " + Attribute + Tail }

  function New(): string { Attribute + Tail + "{ " + Attribute + "y;" }

  /** Nothing to mask. */
  ghost predicate Bare(s: string) { forall k :: 0 <= k < |s| ==> s[k] !in {'/', '"', '\''} }

  lemma BareIsPlain(s: string, k: nat)
    requires Bare(s) && k < |s|
    ensures Plain(s, k)
  {
    assert k + 2 <= |s| ==> s[k..k + 2] == [s[k], s[k + 1]];
    assert QuotedChar(s, k + 1) == 0 && QuotedChar(s, k) == 0;
  }

  lemma BareUnchanged(s: string)
    requires Bare(s)
    ensures Mask(s, 0) == s
  {
    forall k | 0 <= k < |s| ensures Next(s, k).code { BareIsPlain(s, k); PlainIsCode(s, k); }
    AllCodeUnchanged(s);
  }

  lemma StartsSplit(m: string, w: string, rest: string, i: nat)
    requires StartsWith(m, w + rest, i) && w != ""
    ensures StartsWith(m, w, i) && StartsWith(m, rest, i + |w|) && m[i] == w[0]
  {
    var t := m[i..i + |w + rest|];
    assert m[i..i + |w|] == t[..|w|] == w;
    assert m[i] == t[0] == w[0];
    assert m[i + |w|..i + |w| + |rest|] == t[|w|..] == rest;
  }

  /** `all` is the words one after the other. */
  ghost predicate Spells(words: seq<string>, all: string)
    decreases |words|
  {
    if words == [] then all == ""
    else
      && words[0] != "" && !IsSpace(words[0][0]) && |words[0]| <= |all| && all[..|words[0]|] == words[0]
      && Spells(words[1..], all[|words[0]|..])
  }

  /** Words that follow each other without space match. */
  lemma {:induction false} ReadWords(m: string, i: nat, words: seq<string>, all: string)
    requires i <= |m| && Spells(words, all) && StartsWith(m, all, i)
    ensures MatchWords(m, i, words) == Some(i + |all|)
    decreases |words|
  {
    if words != [] {
      var w, rest := words[0], all[|words[0]|..];
      assert all == w + rest;
      StartsSplit(m, w, rest, i);
      ReadWords(m, i + |w|, words[1..], rest);
      WordMatches(m, i, i, i + |all|, words);
    }
  }

  lemma ThreeWords()
    ensures Spells(["test", ")", "]"], "test)]")
  {
    SpellsCons("]", [], "");
    SpellsCons(")", ["]"], "]");
    SpellsCons("test", [")", "]"], ")]");
    assert "test" + ")]" == "test)]";
  }

  lemma FourWords()
    ensures Spells(["(", "test", ")", "]"], "(test)]")
  {
    ThreeWords();
    SpellsCons("(", ["test", ")", "]"], "test)]");
    assert ["("] + ["test", ")", "]"] == ["(", "test", ")", "]"] && "(" + "test)]" == "(test)]";
  }

  lemma FiveWords()
    ensures Spells(["cfg", "(", "test", ")", "]"], "cfg(test)]")
  {
    FourWords();
    SpellsCons("cfg", ["(", "test", ")", "]"], "(test)]");
    assert ["cfg"] + ["(", "test", ")", "]"] == ["cfg", "(", "test", ")", "]"] && "cfg" + "(test)]" == "cfg(test)]";
  }

  lemma SixWords()
    ensures Spells(["[", "cfg", "(", "test", ")", "]"], "[cfg(test)]")
  {
    FiveWords();
    SpellsCons("[", ["cfg", "(", "test", ")", "]"], "cfg(test)]");
    assert ["["] + ["cfg", "(", "test", ")", "]"] == ["[", "cfg", "(", "test", ")", "]"];
    assert "[" + "cfg(test)]" == "[cfg(test)]";
  }

  lemma AttributeIsWords()
    ensures Attribute[0] == '#' && Attribute[1..] == "[cfg(test)]" && Spells(AttributeWords, "[cfg(test)]")
  {
    SixWords();
  }

  lemma SpellsCons(word: string, words: seq<string>, rest: string)
    requires word != "" && !IsSpace(word[0]) && Spells(words, rest)
    ensures Spells([word] + words, word + rest)
  {
    assert ([word] + words)[1..] == words && (word + rest)[|word|..] == rest && (word + rest)[..|word|] == word;
  }

  lemma ReadAttribute(m: string, i: nat)
    requires StartsWith(m, Attribute, i)
    ensures MatchAttribute(m, i) == Some(i + 12)
  {
    AttributeIsWords();
    var t := m[i..i + 12];
    assert m[i] == t[0];
    assert m[i + 1..i + 12] == t[1..];
    ReadWords(m, i + 1, AttributeWords, "[cfg(test)]");
  }

  // ---------------------------------------------------------------- files whose test items all end

  ghost predicate AllItemsEnd(source: string) {
    forall i :: 0 <= i < |source| && MatchAttribute(Mask(source, 0), i).Some? ==>
      exists e :: IsItem(Mask(source, 0), Span(i, e))
  }

  lemma MarkerParts()
    ensures Marker == Attribute + Tail
  {
  }

  /** A marker that is not masked at its start is not masked at all. */
  lemma MarkerStays(s: string, k: nat, j: nat)
    requires k < |s| && StartsWith(s, Marker, k) && Mask(s, 0)[k] == '#' && j < |Marker|
    ensures Mask(s, 0)[k + j] == Marker[j]
  {
    VisibleIsCode(s, k);
    MarkerIsCalm();
    CalmRun(s, Marker, k);
    RunReached(Tokens(s), k, k + j);
    VisibleIsCode(s, k + j);
    CharAt(s, Marker, k, j);
  }

  lemma AttributeStays(s: string, k: nat)
    requires k < |s| && StartsWith(s, Marker, k) && Mask(s, 0)[k] == '#'
    ensures StartsWith(Mask(s, 0), Attribute, k)
  {
    MarkerParts();
    forall j | 0 <= j < |Attribute| ensures Mask(s, 0)[k + j] == Attribute[j] { MarkerStays(s, k, j); }
    StartsBy(Mask(s, 0), Attribute, k);
  }

  /** So in a file whose test items all end, the marker can stand only in a test item, a comment or a literal. */
  lemma EndingItemsAreEnough(source: string)
    requires AllItemsEnd(source)
    ensures MarkersAreText(source)
  {
    var m := Mask(source, 0);
    SpansAreTheTestItems(source);
    forall k | 0 <= k < |source| && StartsWith(source, Marker, k) && !Covered(SpansOf(source), k) ensures m[k] != '#' {
      if m[k] == '#' {
        AttributeStays(source, k);
        ReadAttribute(m, k);
      }
    }
  }

  lemma {:induction false} NoCloser(m: string, i: nat, depth: nat)
    requires i <= |m| && depth > 0 && '}' !in m[i..]
    ensures BraceEnd(m, i, depth) == None
    decreases |m| - i
  {
    if i < |m| {
      assert m[i..][0] != '}' && m[i + 1..] == m[i..][1..];
      NoCloser(m, i + 1, depth + Shift(m[i]));
    }
  }

  lemma {:induction false} SkipUnmarked(marks: seq<Mark>, i: nat, j: nat, last: nat)
    requires i <= j <= |marks| && forall k :: i <= k < j ==> marks[k].NoMark?
    ensures Spans(marks, i, last) == Spans(marks, j, last)
    decreases j - i
  {
    if i < j { SkipUnmarked(marks, i + 1, j, last); }
  }

  lemma MarkAtAttribute(m: string, i: nat)
    requires StartsWith(m, Attribute, i) && i < |m|
    ensures MarkAt(m, i) == Mark(i + 12, ItemEnd(m, i + 12))
  {
    ReadAttribute(m, i);
  }

  /** Two attributes, at 0 and at `i`, and no other hash. */
  ghost predicate TwoAttributes(m: string, i: nat) {
    && 12 <= i && StartsWith(m, Attribute, 0) && StartsWith(m, Attribute, i)
    && (forall k :: 0 < k < |m| && k != i ==> m[k] != '#')
  }

  /** Spans of a table with marks at 0 and `i` only. */
  lemma TwoMarksSpans(marks: seq<Mark>, i: nat, first: Option<nat>, second: Option<nat>)
    requires 12 <= i && i + 12 <= |marks| && marks[0] == Mark(12, first) && marks[i] == Mark(i + 12, second)
    requires (forall k :: 0 < k < |marks| && k != i ==> marks[k].NoMark?) && (first.Some? ==> first.value <= i)
    ensures Spans(marks, 0, 0) == MaybeSpan(0, first) + MaybeSpan(i, second)
  {
    var last := if first.Some? then first.value else 0;
    SkipUnmarked(marks, 12, i, last);
    SkipUnmarked(marks, i + 12, |marks|, if second.Some? then second.value else last);
  }

  function MaybeSpan(start: nat, end: Option<nat>): seq<Span> { if end.Some? then [Span(start, end.value)] else [] }

  lemma TwoAttributesSpans(m: string, i: nat, first: Option<nat>, second: Option<nat>)
    requires TwoAttributes(m, i) && first == ItemEnd(m, 12) && second == ItemEnd(m, i + 12)
    requires first.Some? ==> first.value <= i
    ensures Spans(Marks(m), 0, 0) == MaybeSpan(0, first) + MaybeSpan(i, second)
  {
    var marks := Marks(m);
    MarkAtAttribute(m, 0);
    MarkAtAttribute(m, i);
    assert marks[0] == MarkAt(m, 0) && marks[i] == MarkAt(m, i);
    forall k | 0 < k < |m| && k != i ensures marks[k].NoMark? { assert marks[k] == MarkAt(m, k); }
    TwoMarksSpans(marks, i, first, second);
  }

  lemma FourParts(a: string, b: string, c: string, d: string)
    ensures var m := a + b + c + d;
      && m[0..|a|] == a && m[|a|..|a + b|] == b && m[|a + b|..|a + b + c|] == c && m[|a + b + c|..] == d
      && m[..|a + b + c|] == a + b + c && m[|a + b|..] == c + d
  {
  }

  lemma PartsOfOld()
    ensures Bare(Old()) && |Old()| == 48 && TwoAttributes(Old(), 16) && Old()[12] == 'x' && Old()[13] == ';'
    ensures (forall k :: 28 <= k < 48 ==> !Opens(Old()[k])) && Old()[14..] == "{ " + (Attribute + Tail)
  {
    var m := Old();
    AttributeChars();
    FourParts(Attribute, "x;{ ", Attribute, Tail);
    assert m[12..16] == "x;{ ";
    assert m[14..] == m[12..16][2..] + m[16..];
    TailChars();
    AttributeChars();
  }

  lemma TailChars()
    ensures |Tail| == 20 && forall k :: 0 <= k < 20 ==> Tail[k] !in {'#', '/', '"', '\'', '{', '}', ';'}
  {
  }

  lemma AttributeChars()
    ensures |Attribute| == 12 && Attribute[0] == '#'
    ensures forall k :: 0 <= k < 12 ==> Attribute[k] !in {'/', '"', '\'', '{', '}', ';'} && (k > 0 ==> Attribute[k] != '#')
  {
  }

  lemma NewChars(k: nat)
    requires k < 48
    ensures |New()| == 48 && |Attribute| == 12 && |Tail| == 20
    ensures New()[k] ==
      if k < 12 then Attribute[k] else if k < 32 then Tail[k - 12] else if k < 34 then "{ "[k - 32]
      else if k < 46 then Attribute[k - 34] else "y;"[k - 46]
  {
    AttributeChars();
    TailChars();
  }

  lemma PartsOfNew()
    ensures Bare(New()) && |New()| == 48 && TwoAttributes(New(), 34) && New()[46] == 'y' && New()[47] == ';'
    ensures New()[32] == '{' && '}' !in New() && (forall k :: 12 <= k < 32 ==> !Opens(New()[k]))
    ensures New()[..34] == (Attribute + Tail) + "{ "
  {
    var m := New();
    NewChars(0);
    AttributeChars();
    TailChars();
    forall k | 0 <= k < 48
      ensures m[k] !in {'/', '"', '\'', '}'}
      ensures 0 < k && k != 34 ==> m[k] != '#'
      ensures 12 <= k < 32 ==> !Opens(m[k])
    {
      NewChars(k);
    }
    FourParts(Attribute, Tail, "{ ", Attribute + "y;");
    assert m == Attribute + Tail + "{ " + (Attribute + "y;");
    assert m[34..46] == Attribute;
  }

  lemma SpansLikeOld(m: string)
    requires Bare(m) && |m| == 48 && TwoAttributes(m, 16) && m[12] == 'x' && m[13] == ';'
    requires forall k :: 28 <= k < 48 ==> !Opens(m[k])
    ensures SpansOf(m) == [Span(0, 14)]
  {
    BareUnchanged(m);
    assert FirstOpener(m, 12) == 13;
    assert FirstOpener(m, 28) == 48;
    TwoAttributesSpans(m, 16, Some(14), None);
  }

  lemma SpansLikeNew(m: string)
    requires Bare(m) && |m| == 48 && TwoAttributes(m, 34) && m[46] == 'y' && m[47] == ';' && m[32] == '{'
    requires '}' !in m && forall k :: 12 <= k < 32 ==> !Opens(m[k])
    ensures SpansOf(m) == [Span(34, 48)]
  {
    BareUnchanged(m);
    assert FirstOpener(m, 12) == 32;
    NoCloser(m, 33, 1);
    assert FirstOpener(m, 46) == 47;
    TwoAttributesSpans(m, 34, None, Some(48));
  }


  /** The texts with the marker in place of the item, and with the item deleted. */
  lemma SameJoined(p: string, q: string)
    requires p == "{ " + Marker && q == Marker + "{ "
    ensures "" + (Marker + p) == q + (Marker + "")
    ensures "" + ("" + p) != q + ("" + "")
  {
    assert Marker + ("{ " + Marker) == Marker + "{ " + Marker;
    assert ("" + ("" + p))[0] == '{' && (q + ("" + ""))[0] == '#';
  }

  lemma Collides(a: string, b: string)
    requires |a| == |b| == 48 && SpansOf(a) == [Span(0, 14)] && SpansOf(b) == [Span(34, 48)]
    requires a[14..] == "{ " + Marker && b[..34] == Marker + "{ "
    ensures TestOnlyChange(a, b) && WithoutTests(a) != WithoutTests(b)
  {
    PiecesOfOne(a, Span(0, 14));
    PiecesOfOne(b, Span(34, 48));
    var p, q := a[14..], b[..34];
    assert a[..0] == "" && b[48..] == "";
    SameJoined(p, q);
  }

  /** The check accepts the change, yet the text outside the test items is not the same. */
  lemma MarkerInTextIsUnsound()
    ensures TestOnlyChange(Old(), New()) && WithoutTests(Old()) != WithoutTests(New())
  {
    PartsOfOld();
    SpansLikeOld(Old());
    PartsOfNew();
    SpansLikeNew(New());
    MarkerParts();
    Collides(Old(), New());
  }

  lemma PiecesOfOne(s: string, span: Span)
    requires span.start < span.end <= |s|
    ensures Ordered([span], 0, |s|)
    ensures Pieces(s, [span], 0) == [s[..span.start], s[span.end..]]
    ensures forall sep :: Join(Pieces(s, [span], 0), sep) == s[..span.start] + (sep + s[span.end..])
  {
    var rest: seq<Span> := [];
    TailOrdered([span], 0, |s|);
    assert [span][1..] == rest;
    assert Pieces(s, rest, span.end) == [s[span.end..]];
    var p := Pieces(s, [span], 0);
    assert p == [s[0..span.start]] + [s[span.end..]];
    assert s[0..span.start] == s[..span.start];
    forall sep ensures Join(p, sep) == s[..span.start] + (sep + s[span.end..]) {
      assert p[1..] == [s[span.end..]];
      assert Join(p[1..], sep) == s[span.end..];
    }
  }
}
