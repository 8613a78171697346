/** Tunnel ids: a 32-bit counter that skips zero, and an order that survives its wrap-around. */
module TunnelIds {

  const MAX: int := 0xffff_ffff
  /** The number of nonzero ids. */
  const PERIOD: int := MAX
  const HALF: int := 0x7fff_ffff

  type u32 = x: int | 0 <= x < 0x1_0000_0000

  function Increment(x: u32): u32 { if x == MAX then 0 else x + 1 }

  /** One call: the id handed out and the counter after it. */
  function Next(cur: u32): (u32, u32) {
    var after := Increment(cur);
    if cur == 0 then (after, Increment(after)) else (cur, after)
  }

  /** The counter after `k` calls. */
  function Counter(cur: u32, k: nat): u32 {
    if k == 0 then cur else Next(Counter(cur, k - 1)).1
  }

  /** The id of the call after `k` others. */
  function Id(cur: u32, k: nat): u32 { Next(Counter(cur, k)).0 }

  datatype Ordering = Less | Equal | Greater

  function Plain(a: u32, b: u32): Ordering { if a < b then Less else if a > b then Greater else Equal }

  function Compare(a: u32, b: u32): Ordering {
    if a == 0 || b == 0 then Plain(a, b)
    else if (if a > b then a - b else b - a) > MAX / 2 then (if a > b then Less else Greater)
    else Plain(a, b)
  }

  function Opposite(o: Ordering): Ordering {
    match o case Less => Greater case Equal => Equal case Greater => Less
  }

  /** The nonzero id `k` places after `a`, going round. */
  function Around(a: u32, k: nat): (id: u32)
    requires a > 0 && k <= PERIOD
    ensures id > 0
  {
    if a + k <= PERIOD then a + k else a + k - PERIOD
  }

  lemma OneCall(cur: u32, k: nat)
    ensures Id(cur, k) > 0 && Id(cur, k + 1) == Around(Id(cur, k), 1)
  {
    var c := Counter(cur, k);
    assert Counter(cur, k + 1) == Next(c).1;
  }

  /** Ids go round the nonzero numbers one by one. */
  lemma {:induction false} IdGoesAround(cur: u32, j: nat, k: nat)
    requires k <= PERIOD
    ensures Id(cur, j) > 0 && Id(cur, j + k) == Around(Id(cur, j), k)
    decreases k
  {
    OneCall(cur, j);
    if k > 0 {
      IdGoesAround(cur, j, k - 1);
      OneCall(cur, j + k - 1);
    }
  }

  /** An id compares greater than one made `k` calls before it for every `k` up to half the period, and less from
      there on until it comes round again. */
  lemma LaterCompares(cur: u32, j: nat, k: nat)
    requires 0 < k < PERIOD
    ensures Compare(Id(cur, j + k), Id(cur, j)) == if k <= HALF then Greater else Less
  {
    IdGoesAround(cur, j, k);
  }

  /** Any 2^32 - 1 calls in a row hand out every nonzero id exactly once, and then the same ids again. */
  lemma FullCycle(cur: u32, j: nat)
    ensures forall k :: j <= k < j + PERIOD ==> Id(cur, k) != 0
    ensures forall k, l :: j <= k < l < j + PERIOD ==> Id(cur, k) != Id(cur, l)
    ensures forall id: u32 :: id > 0 ==> HandedOut(cur, j, id)
    ensures Id(cur, j + PERIOD) == Id(cur, j)
  {
    forall k | j <= k < j + PERIOD ensures Id(cur, k) != 0 { IdGoesAround(cur, k, 0); }
    forall k, l | j <= k < l < j + PERIOD ensures Id(cur, k) != Id(cur, l) {
      IdGoesAround(cur, k, l - k);
    }
    forall id: u32 | id > 0 ensures HandedOut(cur, j, id) { FindCall(cur, j, id); }
    IdGoesAround(cur, j, PERIOD);
  }

  ghost predicate HandedOut(cur: u32, j: nat, id: u32) {
    exists k :: j <= k < j + PERIOD && Id(cur, k) == id
  }

  lemma FindCall(cur: u32, j: nat, id: u32)
    requires id > 0
    ensures HandedOut(cur, j, id)
  {
    IdGoesAround(cur, j, 0);
    var a := Id(cur, j);
    var k := if id >= a then id - a else id - a + PERIOD;
    IdGoesAround(cur, j, k);
    assert Id(cur, j + k) == id;
  }

  /** Exchanging the arguments turns the answer round. */
  lemma CompareOpposite(a: u32, b: u32)
    ensures Compare(b, a) == Opposite(Compare(a, b))
    ensures Compare(a, b) == Equal <==> a == b
  {
  }

  /** Zero comes before every id; otherwise the nearer way round decides. */
  lemma CompareMeaning(a: u32, b: u32)
    ensures Compare(a, b) == Less <==>
      if a == 0 || b == 0 then a < b else (0 < b - a <= 0x7fff_ffff || a - b > 0x7fff_ffff)
  {
  }

  // ---------------------------------------------------------------- calls that overlap

  /** One fetch of a caller: the first of its call, or the second after it fetched zero. */
  datatype Fetch = First(caller: nat) | Second(caller: nat)

  /** The counter, the callers that fetched zero and will fetch again, and the ids handed out with the number of the
      fetch each came from. */
  datatype Shared = Shared(cur: u32, again: set<nat>, ids: seq<u32>, from: seq<nat>, fetches: nat)

  predicate Enabled(s: Shared, f: Fetch) { if f.First? then f.caller !in s.again else f.caller in s.again }

  function HandOut(s: Shared): Shared {
    Shared(Increment(s.cur), s.again, s.ids + [s.cur], s.from + [s.fetches], s.fetches + 1)
  }

  function Advance(s: Shared, f: Fetch): Shared {
    if f.Second? then HandOut(s).(again := s.again - {f.caller})
    else if s.cur == 0 then s.(cur := Increment(s.cur), again := s.again + {f.caller}, fetches := s.fetches + 1)
    else HandOut(s)
  }

  ghost predicate IsRun(states: seq<Shared>, fetches: seq<Fetch>) {
    && |states| == |fetches| + 1 && states[0] == Shared(states[0].cur, {}, [], [], 0)
    && forall i :: 0 <= i < |fetches| ==> Enabled(states[i], fetches[i]) && states[i + 1] == Advance(states[i], fetches[i])
  }

  /** The value of fetch number `k`, for at most 2^32 fetches. */
  function Fetched(start: u32, k: nat): u32
    requires k <= MAX + 1
  {
    if start + k <= MAX then start + k else start + k - MAX - 1
  }

  ghost predicate Inv(s: Shared, start: u32) {
    && s.fetches <= MAX + 1 && s.cur == Fetched(start, s.fetches) && |s.ids| == |s.from|
    && (forall i :: 0 <= i < |s.from| ==> s.from[i] < s.fetches && s.ids[i] == Fetched(start, s.from[i]) && s.ids[i] != 0)
    && (forall i, j :: 0 <= i < j < |s.from| ==> s.from[i] < s.from[j])
    && (s.again != {} ==> exists z :: 0 <= z < s.fetches && Fetched(start, z) == 0)
  }

  lemma ZeroOnce(start: u32, z: nat, k: nat)
    requires z < k <= MAX && Fetched(start, z) == 0
    ensures Fetched(start, k) != 0
  {
  }

  lemma FetchKeeps(s: Shared, f: Fetch, start: u32)
    requires Inv(s, start) && Enabled(s, f) && s.fetches <= MAX
    ensures Inv(Advance(s, f), start)
  {
    if f.First? && s.cur == 0 { assert Fetched(start, s.fetches) == 0; }
    if f.Second? {
      var z :| 0 <= z < s.fetches && Fetched(start, z) == 0;
      ZeroOnce(start, z, s.fetches);
    }
  }

  lemma {:induction false} FetchesKeep(states: seq<Shared>, fetches: seq<Fetch>, i: nat)
    requires IsRun(states, fetches) && i <= |fetches| && i <= MAX + 1
    ensures Inv(states[i], states[0].cur) && states[i].fetches == i
  {
    if i > 0 {
      FetchesKeep(states, fetches, i - 1);
      assert Enabled(states[i - 1], fetches[i - 1]) && states[i] == Advance(states[i - 1], fetches[i - 1]);
      FetchKeeps(states[i - 1], fetches[i - 1], states[0].cur);
    }
  }

  /** However calls overlap, the ids handed out in 2^32 fetches of the counter are nonzero and pairwise distinct. */
  lemma OverlappingCallsDiffer(states: seq<Shared>, fetches: seq<Fetch>, i: nat)
    requires IsRun(states, fetches) && i <= |fetches| && i <= MAX + 1
    ensures forall k :: 0 <= k < |states[i].ids| ==> states[i].ids[k] != 0
    ensures forall k, l :: 0 <= k < l < |states[i].ids| ==> states[i].ids[k] != states[i].ids[l]
  {
    FetchesKeep(states, fetches, i);
    var s := states[i];
    forall k, l | 0 <= k < l < |s.ids| ensures s.ids[k] != s.ids[l] { assert s.from[k] < s.from[l]; }
  }

  /** A call that nobody overtakes, in one fetch or in two: it hands out the id, and leaves the counter, as `Next` says. */
  lemma CallAlone(s: Shared, caller: nat)
    requires caller !in s.again
    ensures Enabled(s, First(caller))
    ensures s.cur != 0 ==> var s' := Advance(s, First(caller));
      s'.ids == s.ids + [Next(s.cur).0] && s'.cur == Next(s.cur).1 && s'.again == s.again
    ensures s.cur == 0 ==> var s1 := Advance(s, First(caller)); var s' := Advance(s1, Second(caller));
      && Enabled(s1, Second(caller)) && !Enabled(s1, First(caller)) && s1.ids == s.ids
      && s'.ids == s.ids + [Next(s.cur).0] && s'.cur == Next(s.cur).1 && s'.again == s.again
  {
  }

  class Generator {
    var cur: u32

    constructor (init: u32)
      ensures cur == init
    {
      cur := init;
    }

    method FetchAdd() returns (v: u32)
      modifies this
      ensures v == old(cur) && cur == Increment(old(cur))
    {
      v := cur;
      cur := Increment(cur);
    }

    method Generate() returns (id: u32)
      modifies this
      ensures (id, cur) == Next(old(cur))
    {
      var v := FetchAdd();
      if v == 0 { id := FetchAdd(); } else { id := v; }
    }
  }
}
