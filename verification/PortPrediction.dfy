/** Port sequences observed behind a NAT: which hints they give and which ports are predicted from them. */
module PortPrediction {
  import opened Wrappers

  type u16 = x: int | 0 <= x < 0x1_0000
  type i32 = x: int | -0x8000_0000 <= x < 0x8000_0000

  const MAX_PORTS: nat := 8
  const MAX_COUNT: nat := 0xffff
  const MAX_TIME: nat := 0xffff_ffff_ffff_ffff

  datatype Ip = V4(address: nat) | V6(address: nat)

  /** `kind` is the area and protocol, which prediction does not look at. */
  datatype Endpoint = Endpoint(ip: Ip, port: u16, kind: nat)

  datatype Parity = Same | Alternating

  datatype Hint = Hint(first: Endpoint, last: Endpoint, count: u16, delta: i32, parity: Parity)

  function Abs(x: int): nat { if x < 0 then -x else x }

  function ParityOf(delta: int): Parity { if Abs(delta) % 2 == 0 then Same else Alternating }

  /** Neighbours differ by `delta`. */
  ghost predicate Progression(ports: seq<int>, delta: int) {
    forall i :: 0 <= i < |ports| - 1 ==> ports[i + 1] - ports[i] == delta
  }

  function Ports(obs: seq<Endpoint>): (ports: seq<int>)
    ensures |ports| == |obs| && forall i :: 0 <= i < |obs| ==> ports[i] == obs[i].port
  {
    seq(|obs|, i requires 0 <= i < |obs| => obs[i].port)
  }

  function HintOf(obs: seq<Endpoint>): Option<Hint> {
    if |obs| < 2 || exists i :: 0 <= i < |obs| && !obs[i].ip.V4? then None
    else if exists i :: 0 <= i < |obs| && obs[i].ip != obs[0].ip then None
    else
      var delta := obs[1].port - obs[0].port;
      if delta == 0 || exists i :: 0 <= i < |obs| - 1 && obs[i + 1].port - obs[i].port != delta then None
      else
        var parity := if obs[0].port % 2 == obs[1].port % 2 then Same else Alternating;
        Some(Hint(obs[0], obs[|obs| - 1], Min(|obs|, MAX_COUNT), delta, parity))
  }

  predicate UsableWith(h: Hint, base: Endpoint) {
    && h.count >= 2 && h.delta != 0
    && h.first.ip.V4? && h.last.ip.V4? && base.ip.V4? && h.first.ip == h.last.ip && base.ip == h.last.ip
    && var total := h.delta * (h.count - 1);
    -0x8000_0000 <= total < 0x8000_0000 && h.last.port - h.first.port == total
    && h.parity == ParityOf(h.delta)
  }

  // ---------------------------------------------------------------- hints that observations give

  lemma {:induction false} Telescope(ports: seq<int>, delta: int, k: nat)
    requires Progression(ports, delta) && k < |ports|
    ensures ports[k] == ports[0] + k * delta
  {
    if k > 0 {
      Telescope(ports, delta, k - 1);
      assert ports[k - 1 + 1] - ports[k - 1] == delta;
    }
  }

  lemma ParityMatches(a: int, b: int)
    ensures a % 2 == b % 2 <==> Abs(b - a) % 2 == 0
  {
  }

  lemma HintDelta(obs: seq<Endpoint>)
    requires HintOf(obs).Some?
    ensures var h := HintOf(obs).value;
      Progression(Ports(obs), h.delta) && h.delta != 0 && h.parity == ParityOf(h.delta)
      && h.last.port - h.first.port == (|obs| - 1) * h.delta
  {
    var h := HintOf(obs).value;
    var ports := Ports(obs);
    forall i | 0 <= i < |ports| - 1 ensures ports[i + 1] - ports[i] == h.delta {
      assert obs[i + 1].port - obs[i].port == h.delta;
    }
    Telescope(ports, h.delta, |obs| - 1);
    ParityMatches(obs[0].port, obs[1].port);
  }

  lemma DifferentProducts(a: int, m: int, n: int)
    requires a != 0 && m != n
    ensures a * m != a * n
  {
    assert a * m - a * n == a * (m - n);
  }

  /** The total is right exactly when the count is. */
  lemma TotalFixesCount(delta: int, n: int, count: int)
    requires delta != 0
    ensures delta * (count - 1) == (n - 1) * delta <==> count == n
  {
    if count != n { DifferentProducts(delta, count - 1, n - 1); }
  }

  /** A hint read off observations is usable exactly when their number fits the sample count. */
  lemma ObservedUsable(obs: seq<Endpoint>)
    requires HintOf(obs).Some?
    ensures UsableWith(HintOf(obs).value, HintOf(obs).value.last) <==> |obs| <= 65535
  {
    var h := HintOf(obs).value;
    HintDelta(obs);
    TotalFixesCount(h.delta, |obs|, h.count);
    var total := h.delta * (h.count - 1);
    assert h.last.port - h.first.port == total <==> h.count == |obs|;
  }

  lemma Between(first: int, delta: int, n: nat, i: nat)
    requires i <= n && 0 <= first < 0x1_0000 && 0 <= first + n * delta < 0x1_0000
    ensures 0 <= first + i * delta < 0x1_0000
  {
    assert n * delta == i * delta + (n - i) * delta;
    if delta >= 0 {
      assert i * delta >= 0 && (n - i) * delta >= 0;
    } else {
      assert i * delta <= 0 && (n - i) * delta <= 0;
    }
  }

  ghost function Point(h: Hint, i: nat): (e: Endpoint)
    requires UsableWith(h, h.last) && i < h.count
    ensures e.ip == h.first.ip && e.port == h.first.port + i * h.delta
    ensures (i == 0 ==> e == h.first) && (i == h.count - 1 ==> e == h.last)
  {
    if i == 0 then h.first
    else if i == h.count - 1 then h.last
    else Between(h.first.port, h.delta, h.count - 1, i); Endpoint(h.first.ip, h.first.port + i * h.delta, 0)
  }

  /** Observations that give the hint. */
  ghost function Witness(h: Hint): (obs: seq<Endpoint>)
    requires UsableWith(h, h.last)
    ensures |obs| == h.count && forall i :: 0 <= i < |obs| ==> obs[i] == Point(h, i)
  {
    seq(h.count, i requires 0 <= i < h.count => Point(h, i))
  }

  lemma WitnessGives(h: Hint)
    requires UsableWith(h, h.last)
    ensures HintOf(Witness(h)) == Some(h)
  {
    var obs := Witness(h);
    forall i | 0 <= i < |obs| - 1 ensures obs[i + 1].port - obs[i].port == h.delta {
      assert (i + 1) * h.delta == i * h.delta + h.delta;
    }
    assert obs[0 + 1].port - obs[0].port == h.delta;
    ParityMatches(obs[0].port, obs[1].port);
  }

  /** Which observations give which hint: at least two, all from one IPv4 address, with ports that go on by the same
      nonzero difference; the hint has the first and the last of them, their number up to 65535, the difference, and
      whether it is even. */
  lemma HintMeaning(obs: seq<Endpoint>, h: Hint)
    ensures HintOf(obs) == Some(h) <==>
      && |obs| >= 2 && (forall i :: 0 <= i < |obs| ==> obs[i].ip == obs[0].ip) && obs[0].ip.V4?
      && h.delta != 0 && Progression(Ports(obs), h.delta)
      && h.first == obs[0] && h.last == obs[|obs| - 1] && h.count == (if |obs| < 65535 then |obs| else 65535)
      && (h.parity == Same <==> h.delta % 2 == 0)
  {
    if HintOf(obs) == Some(h) { HintDelta(obs); }
    if |obs| >= 2 && Progression(Ports(obs), h.delta) {
      assert Ports(obs)[0 + 1] - Ports(obs)[0] == h.delta;
      forall i | 0 <= i < |obs| - 1 ensures obs[i + 1].port - obs[i].port == h.delta {
        assert Ports(obs)[i + 1] - Ports(obs)[i] == h.delta;
      }
    }
  }

  /** A hint can be used from another base if and only if it can from its last endpoint and the base has that address. */
  lemma UsableElsewhere(h: Hint, base: Endpoint)
    ensures UsableWith(h, base) <==> UsableWith(h, h.last) && base.ip == h.last.ip
  {
  }

  /** The hints usable with their own last endpoint are exactly those that at most 65535 observations give. */
  lemma UsableIsObservable(h: Hint)
    ensures UsableWith(h, h.last) <==> exists obs: seq<Endpoint> :: |obs| <= 65535 && HintOf(obs) == Some(h)
  {
    if UsableWith(h, h.last) { WitnessGives(h); }
    forall obs: seq<Endpoint> | |obs| <= MAX_COUNT && HintOf(obs) == Some(h) ensures UsableWith(h, h.last) {
      ObservedUsable(obs);
    }
  }

  ghost function EveryPort(): (obs: seq<Endpoint>)
    ensures |obs| == 0x1_0000 && forall i :: 0 <= i < |obs| ==> obs[i] == Endpoint(V4(1), i, 0)
  {
    seq(0x1_0000, i requires 0 <= i < 0x1_0000 => Endpoint(V4(1), i, 0))
  }

  /** With 65536 observations the count is cut off, and the hint contradicts itself. */
  lemma OneTooMany()
    ensures HintOf(EveryPort()).Some? && !UsableWith(HintOf(EveryPort()).value, HintOf(EveryPort()).value.last)
  {
    ObservedUsable(EveryPort());
  }

  // ---------------------------------------------------------------- predicted ports

  predicate InRange(port: int) { 1 <= port <= 0xffff }

  function Ahead(base: int, delta: int, steps: int): int { base + steps * delta }

  /** The longest run base + delta, base + 2 delta, ... of at most `cap` steps that stays in range. */
  ghost predicate LongestRun(base: int, delta: int, cap: nat, ports: seq<int>) {
    && |ports| <= cap
    && (forall i :: 0 <= i < |ports| ==> ports[i] == base + (i + 1) * delta && 1 <= ports[i] <= 65535)
    && (|ports| < cap ==> !(1 <= base + (|ports| + 1) * delta <= 65535))
  }

  lemma RunReaches(base: int, delta: int, cap: nat, ports: seq<int>, n: nat)
    requires LongestRun(base, delta, cap, ports) && n < |ports|
    ensures 1 <= base + (n + 1) * delta <= 65535
  {
    assert 1 <= ports[n] <= 65535;
  }

  lemma NotLonger(base: int, delta: int, cap: nat, a: seq<int>, b: seq<int>)
    requires LongestRun(base, delta, cap, a) && LongestRun(base, delta, cap, b)
    ensures |b| <= |a|
  {
    if |a| < |b| { RunReaches(base, delta, cap, b, |a|); }
  }

  lemma RunIsUnique(base: int, delta: int, cap: nat, a: seq<int>, b: seq<int>)
    requires LongestRun(base, delta, cap, a) && LongestRun(base, delta, cap, b)
    ensures a == b
  {
    NotLonger(base, delta, cap, a, b);
    NotLonger(base, delta, cap, b, a);
    forall i | 0 <= i < |a| ensures a[i] == b[i] { assert a[i] == base + (i + 1) * delta; }
  }

  lemma StepsDiffer(base: int, delta: int, i: int, j: int)
    requires delta != 0 && i != j
    ensures Ahead(base, delta, i) != Ahead(base, delta, j)
  {
    DifferentProducts(delta, i, j);
  }

  lemma OffsetFits(delta: i32, step: nat)
    requires step <= MAX_PORTS
    ensures -0x8000_0000_0000_0000 <= delta * step < 0x8000_0000_0000_0000
  {
    assert -0x8000_0000 * MAX_PORTS <= delta * step <= 0x8000_0000 * MAX_PORTS;
  }

  /** A new candidate repeats neither the base nor an earlier one. */
  lemma NoRepeats(base: int, delta: int, ports: seq<int>)
    requires delta != 0 && forall i :: 0 <= i < |ports| ==> ports[i] == Ahead(base, delta, i + 1)
    ensures Ahead(base, delta, |ports| + 1) != base && Ahead(base, delta, |ports| + 1) !in ports
  {
    StepsDiffer(base, delta, 0, |ports| + 1);
    forall i | 0 <= i < |ports| ensures ports[i] != Ahead(base, delta, |ports| + 1) {
      StepsDiffer(base, delta, i + 1, |ports| + 1);
    }
  }

  /** Repeated candidates are filtered, but none ever repeats, so the result is the whole run. */
  method PredictedPorts(h: Hint, base: Endpoint, limit: nat) returns (ports: seq<int>)
    ensures !UsableWith(h, base) ==> ports == []
    ensures UsableWith(h, base) ==> LongestRun(base.port, h.delta, Min(limit, 8), ports)
  {
    ports := [];
    if !UsableWith(h, base) { return; }
    var cap := Min(limit, MAX_PORTS);
    var step := 1;
    while step <= cap
      invariant 1 <= step <= cap + 1 && |ports| == step - 1
      invariant forall i :: 0 <= i < |ports| ==> ports[i] == Ahead(base.port, h.delta, i + 1) && InRange(ports[i])
    {
      var offset := h.delta * step;
      OffsetFits(h.delta, step);
      if !(-0x8000_0000_0000_0000 <= offset < 0x8000_0000_0000_0000) { break; }
      var candidate := base.port + offset;
      assert candidate == Ahead(base.port, h.delta, |ports| + 1);
      if !InRange(candidate) { break; }
      NoRepeats(base.port, h.delta, ports);
      if candidate != base.port && candidate !in ports {
        ports := ports + [candidate];
      }
      step := step + 1;
    }
  }

  lemma AheadStep(base: int, delta: int, k: int)
    ensures Ahead(base, delta, k + 1) == Ahead(base, delta, k) + delta
    ensures Ahead(base, delta, 0) == base
  {
  }

  /** Ports predicted after the last observation continue the observed progression. */
  lemma PredictionContinues(obs: seq<Endpoint>, cap: nat, ports: seq<int>)
    requires HintOf(obs).Some? && LongestRun(HintOf(obs).value.last.port, HintOf(obs).value.delta, cap, ports)
    ensures Progression(Ports(obs) + ports, HintOf(obs).value.delta)
  {
    var h := HintOf(obs).value;
    HintDelta(obs);
    var a := Ports(obs);
    var all := a + ports;
    forall i | 0 <= i < |all| - 1 ensures all[i + 1] - all[i] == h.delta {
      if i >= |a| {
        var k := i - |a|;
        assert ports[k] == Ahead(h.last.port, h.delta, k + 1) && ports[k + 1] == Ahead(h.last.port, h.delta, k + 1 + 1);
        AheadStep(h.last.port, h.delta, k + 1);
      } else if i == |a| - 1 {
        assert ports[0] == Ahead(h.last.port, h.delta, 0 + 1);
        AheadStep(h.last.port, h.delta, 0);
      } else {
        assert a[i + 1] - a[i] == h.delta;
      }
    }
  }

  // ---------------------------------------------------------------- profiles

  datatype Observation = Unknown | NonSymmetricLike | SymmetricLike

  datatype Profile = Profile(version: nat, observation: Observation, observedAt: nat, validUntil: nat, hint: Option<Hint>)

  const UnknownProfile: Profile := Profile(1, Unknown, 0, 0, None)

  predicate SameAddress(a: Endpoint, b: Endpoint) { a.ip == b.ip && a.port == b.port }

  function Micros(nanos: nat): nat { Min(nanos / 1000, MAX_TIME) }

  /** `ttl` is in nanoseconds, times in microseconds. */
  function ProfileOf(obs: seq<Endpoint>, observedAt: nat, ttl: nat): Profile {
    if |obs| < 2 || |obs| > MAX_COUNT || ttl == 0 then UnknownProfile
    else
      var validUntil := Min(observedAt + Micros(ttl), MAX_TIME);
      if forall i :: 0 <= i < |obs| ==> SameAddress(obs[i], obs[0])
      then Profile(1, NonSymmetricLike, observedAt, validUntil, None)
      else Profile(1, SymmetricLike, observedAt, validUntil, HintOf(obs))
  }

  predicate IsFresh(p: Profile, now: nat) {
    p.version == 1 && p.observation != Unknown && p.validUntil >= p.observedAt && p.observedAt <= now <= p.validUntil
  }

  function MappingAt(p: Profile, now: nat): Observation {
    if IsFresh(p, now) then p.observation else Unknown
  }

  function UsableHint(p: Profile, now: nat): Option<Hint> {
    if MappingAt(p, now) != SymmetricLike then None
    else if p.hint.Some? && UsableWith(p.hint.value, p.hint.value.last) then p.hint else None
  }

  /** A profile lives for the whole microseconds of its time to live, or to the end of time. */
  lemma Lives(observedAt: nat, ttl: nat, now: nat)
    requires now <= 0xffff_ffff_ffff_ffff && observedAt <= now
    ensures now <= Min(observedAt + Micros(ttl), MAX_TIME) <==> 1000 * (now - observedAt) <= ttl
  {
  }

  /** What any profile offers, also one that was not made here: its hint, while it is fresh and symmetric, and if the hint
      can be used from its last endpoint. It is fresh if it has version 1, says something, and was made for this time. */
  lemma HintOffered(p: Profile, now: nat, h: Hint)
    ensures UsableHint(p, now) == Some(h) <==>
      && p.version == 1 && p.observation == SymmetricLike && p.observedAt <= p.validUntil
      && p.observedAt <= now && now <= p.validUntil && p.hint == Some(h) && UsableWith(h, h.last)
    ensures MappingAt(p, now) != Unknown <==>
      && p.version == 1 && p.observation != Unknown && p.observedAt <= p.validUntil
      && p.observedAt <= now && now <= p.validUntil
    ensures MappingAt(p, now) == Unknown || MappingAt(p, now) == p.observation
  {
  }

  /** Whenever a profile says non-symmetric it has no hint, and any hint it has from its observations is usable
      for just as long as the profile is fresh. */
  lemma ProfileHints(obs: seq<Endpoint>, observedAt: nat, ttl: nat, now: nat)
    requires observedAt <= MAX_TIME && now <= MAX_TIME
    ensures var p := ProfileOf(obs, observedAt, ttl);
      UsableHint(p, now) ==
        if 2 <= |obs| <= 65535 && ttl > 0 && observedAt <= now && 1000 * (now - observedAt) <= ttl then HintOf(obs) else None
  {
    if observedAt <= now { Lives(observedAt, ttl, now); }
    if HintOf(obs).Some? && |obs| <= MAX_COUNT {
      ObservedUsable(obs);
      assert !SameAddress(obs[1], obs[0]);
    }
  }

  /** What a profile says at a time: nothing outside its life, and within it whether all addresses were the same. */
  lemma ProfileMapping(obs: seq<Endpoint>, observedAt: nat, ttl: nat, now: nat)
    requires observedAt <= MAX_TIME && now <= MAX_TIME
    ensures MappingAt(ProfileOf(obs, observedAt, ttl), now) ==
      if !(2 <= |obs| <= 65535 && ttl > 0 && observedAt <= now && 1000 * (now - observedAt) <= ttl) then Unknown
      else if forall i, j :: 0 <= i < j < |obs| ==> SameAddress(obs[i], obs[j]) then NonSymmetricLike
      else SymmetricLike
  {
    if observedAt <= now { Lives(observedAt, ttl, now); }
    if forall i :: 0 <= i < |obs| ==> SameAddress(obs[i], obs[0]) {
      assert forall i, j :: 0 <= i < j < |obs| ==> SameAddress(obs[i], obs[j]);
    } else if |obs| >= 2 {
      var i :| 0 <= i < |obs| && !SameAddress(obs[i], obs[0]);
      assert !SameAddress(obs[0], obs[i]);
    }
  }
}
