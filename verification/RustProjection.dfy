/** The comparison of two versions of a Rust file with the test items replaced by a marker. */
module RustProjection {
  import opened Wrappers
  import opened RustMask
  import opened RustTestSpans

  const Marker: string := "#[cfg(test)]<existing-test-item>"

  /** The text between the spans, from `cursor` on: one piece more than there are spans. */
  function Pieces(s: string, spans: seq<Span>, cursor: nat): (pieces: seq<string>)
    requires Ordered(spans, cursor, |s|) && cursor <= |s|
    ensures |pieces| == |spans| + 1
  {
    if spans == [] then [s[cursor..]]
    else TailOrdered(spans, cursor, |s|); [s[cursor..spans[0].start]] + Pieces(s, spans[1..], spans[0].end)
  }

  lemma TailOrdered(spans: seq<Span>, cursor: nat, len: nat)
    requires Ordered(spans, cursor, len) && spans != []
    ensures Ordered(spans[1..], spans[0].end, len)
  {
  }

  /** The pieces with `sep` between them. */
  function Join(pieces: seq<string>, sep: string): string {
    if pieces == [] then "" else if |pieces| == 1 then pieces[0] else pieces[0] + (sep + Join(pieces[1..], sep))
  }

  /** The production pieces of a file. */
  function Production(source: string): (pieces: seq<string>)
    ensures |pieces| == |SpansOf(source)| + 1
  {
    SpansAreTheTestItems(source);
    Pieces(source, SpansOf(source), 0)
  }

  /** The file with its test items deleted. */
  function WithoutTests(source: string): string { Join(Production(source), "") }

  // ---------------------------------------------------------------- the answer

  /** What the check answers for two versions of a file. */
  predicate TestOnlyChange(baseline: string, current: string) {
    && current != baseline
    && |SpansOf(baseline)| > 0 && |SpansOf(baseline)| == |SpansOf(current)|
    && Join(Production(baseline), Marker) == Join(Production(current), Marker)
  }

  // ---------------------------------------------------------------- the checker's loops

  /** The projected text still to come after `cursor`. */
  ghost function Rest(s: string, spans: seq<Span>, cursor: nat): string
    requires Ordered(spans, cursor, |s|) && cursor <= |s|
  {
    Join(Pieces(s, spans, cursor), Marker)
  }

  lemma RestStep(s: string, spans: seq<Span>, cursor: nat)
    requires Ordered(spans, cursor, |s|) && cursor <= |s| && spans != []
    ensures Ordered(spans[1..], spans[0].end, |s|)
    ensures Rest(s, spans, cursor) == s[cursor..spans[0].start] + (Marker + Rest(s, spans[1..], spans[0].end))
  {
    TailOrdered(spans, cursor, |s|);
    assert Pieces(s, spans, cursor)[1..] == Pieces(s, spans[1..], spans[0].end);
  }

  /** Text produced so far and text still to come. */
  ghost predicate Projected(s: string, spans: seq<Span>, k: nat, cursor: nat, projection: string, all: string) {
    && k <= |spans| && cursor <= |s| && Ordered(spans[k..], cursor, |s|)
    && projection + Rest(s, spans[k..], cursor) == all
  }

  lemma ProjectedStep(s: string, spans: seq<Span>, k: nat, cursor: nat, projection: string, all: string)
    requires k < |spans| && Projected(s, spans, k, cursor, projection, all)
    ensures cursor <= spans[k].start < spans[k].end <= |s|
    ensures Projected(s, spans, k + 1, spans[k].end, projection + s[cursor..spans[k].start] + Marker, all)
  {
    RestStep(s, spans[k..], cursor);
    assert spans[k..][1..] == spans[k + 1..];
    Regroup(projection, s[cursor..spans[k].start], Marker, Rest(s, spans[k + 1..], spans[k].end));
  }

  method RustProductionProjection(source: string) returns (projection: string, count: nat)
    ensures projection == Join(Production(source), Marker)
    ensures count == |SpansOf(source)|
  {
    var spans := CfgTestItemSpans(source);
    SpansAreTheTestItems(source);
    projection := "";
    var cursor: nat, k: nat := 0, 0;
    ghost var all := Rest(source, spans, 0);
    assert spans[0..] == spans;
    while k < |spans|
      invariant Projected(source, spans, k, cursor, projection, all)
    {
      ProjectedStep(source, spans, k, cursor, projection, all);
      projection := projection + source[cursor..spans[k].start] + Marker;
      cursor := spans[k].end;
      k := k + 1;
    }
    projection := projection + source[cursor..];
    count := |spans|;
  }

  predicate EndsWith(s: string, t: string) { |t| <= |s| && s[|s| - |t|..] == t }

  /** The current text is absent when the path is not a file, the baseline when there was none. */
  method RustInlineTestOnlyChange(path: string, current: Option<string>, baseline: Option<string>) returns (ok: bool)
    ensures ok <==>
      && |path| >= 3 && path[|path| - 3..] == ".rs" && current.Some? && baseline.Some?
      && TestOnlyChange(baseline.value, current.value)
  {
    if !EndsWith(path, ".rs") { return false; }
    if current.None? { return false; }
    if baseline.None? { return false; }
    if current == baseline { return false; }
    var before, beforeCount := RustProductionProjection(baseline.value);
    var after, afterCount := RustProductionProjection(current.value);
    ok := beforeCount > 0 && beforeCount == afterCount && before == after;
  }
}
