/** What interval authorisation lets through: independence of batching, soundness and completeness
    of the timing test, and when its 32-bit arithmetic is exact. */
module AuthorizeTheorems {
  import opened Wire
  import opened AuthorizeSpec
  import opened Arithmetic

  // ---- Batches do not matter ---------------------------------------------------------------------

  /** The PDUs of `s` vouched for by their successors. */
  function Kept(s: seq<ScanPdu>): seq<ScanPdu>
    decreases |s|
  {
    if |s| < 2 then [] else Link(s[0], s[1]) + Kept(s[1..])
  }

  /** The positions from `i` on whose successor vouches for them. */
  function VouchedFrom(s: seq<ScanPdu>, i: nat): (r: seq<nat>)
    requires i <= |s|
    ensures forall k :: 0 <= k < |r| ==> i <= r[k] && r[k] + 1 < |s|
    decreases |s| - i
  {
    if i + 1 >= |s| then [] else (if Vouches(s[i], s[i + 1]) then [i] else []) + VouchedFrom(s, i + 1)
  }

  function Pick(s: seq<ScanPdu>, positions: seq<nat>): seq<ScanPdu>
    requires forall k :: 0 <= k < |positions| ==> positions[k] < |s|
  {
    seq(|positions|, k requires 0 <= k < |positions| => s[positions[k]])
  }

  lemma {:induction false} VouchedAt(s: seq<ScanPdu>, i: nat, p: nat)
    requires i <= |s|
    ensures p in VouchedFrom(s, i) <==> i <= p && p + 1 < |s| && Vouches(s[p], s[p + 1])
    decreases |s| - i
  {
    if i + 1 < |s| {
      hide Vouches;
      VouchedAt(s, i + 1, p);
    }
  }

  predicate Ascending(r: seq<nat>) {
    forall j, k :: 0 <= j < k < |r| ==> r[j] < r[k]
  }

  lemma AscendingCons(i: nat, rest: seq<nat>)
    requires Ascending(rest) && forall k :: 0 <= k < |rest| ==> i < rest[k]
    ensures Ascending([i] + rest)
  {
    var r := [i] + rest;
    forall j, k | 0 <= j < k < |r| ensures r[j] < r[k] {
      assert r[k] == rest[k - 1];
      if j > 0 { assert r[j] == rest[j - 1]; }
    }
  }

  lemma {:induction false} VouchedInOrder(s: seq<ScanPdu>, i: nat)
    requires i <= |s|
    ensures Ascending(VouchedFrom(s, i))
    decreases |s| - i
  {
    if i + 1 < |s| {
      hide Vouches, Ascending;
      VouchedInOrder(s, i + 1);
      var rest := VouchedFrom(s, i + 1);
      AscendingCons(i, rest);
      assert [] + rest == rest;
    } else {
      assert Ascending([]);
    }
  }

  lemma PickCons(s: seq<ScanPdu>, i: nat, rest: seq<nat>)
    requires i < |s| && forall k :: 0 <= k < |rest| ==> rest[k] < |s|
    ensures Pick(s, [i] + rest) == [s[i]] + Pick(s, rest) && Pick(s, [] + rest) == Pick(s, rest)
  {}

  lemma {:induction false} KeptPicks(s: seq<ScanPdu>, i: nat)
    requires i <= |s|
    ensures Kept(s[i..]) == Pick(s, VouchedFrom(s, i))
    decreases |s| - i
  {
    if i + 1 < |s| {
      hide Vouches;
      KeptPicks(s, i + 1);
      var rest := VouchedFrom(s, i + 1);
      PickCons(s, i, rest);
      assert s[i..][1..] == s[i + 1..];
      assert Kept(s[i..]) == Link(s[i], s[i + 1]) + Kept(s[i + 1..]);
      hide Pick, Kept;
      assert [] + Pick(s, rest) == Pick(s, rest);
    }
  }

  /** `Kept` takes exactly the PDUs whose successor vouches for them, once each, in order. */
  lemma KeptIsExactly(s: seq<ScanPdu>)
    ensures var r := VouchedFrom(s, 0);
      && Kept(s) == Pick(s, r)
      && (forall p: nat :: p in r <==> p + 1 < |s| && Vouches(s[p], s[p + 1]))
      && Ascending(r)
  {
    forall p: nat
      ensures p in VouchedFrom(s, 0) <==> p + 1 < |s| && Vouches(s[p], s[p + 1])
    {
      VouchedAt(s, 0, p);
    }
    VouchedInOrder(s, 0);
    KeptPicks(s, 0);
    assert s[0..] == s;
  }

  lemma {:induction false} KeptConcat(a: seq<ScanPdu>, b: seq<ScanPdu>)
    requires a != [] && b != []
    ensures Kept(a + b) == Kept(a) + Link(a[|a| - 1], b[0]) + Kept(b)
    decreases |a|
  {
    hide Link;
    assert (a + b)[1..] == a[1..] + b;
    if |a| == 1 {
      assert a[1..] + b == b && Kept(a) == [];
      assert Kept(a) + Link(a[0], b[0]) == Link(a[0], b[0]);
    } else {
      KeptConcat(a[1..], b);
      assert Kept(a + b) == Link(a[0], a[1]) + (Kept(a[1..]) + Link(a[|a| - 1], b[0]) + Kept(b));
    }
  }

  lemma {:induction false} WalkKeeps(last: ScanPdu, batch: seq<ScanPdu>)
    ensures Walk(last, batch) == (([last] + batch)[|batch|], Kept([last] + batch))
    decreases |batch|
  {
    hide Link;
    assert ([last] + batch)[1..] == batch;
    if batch != [] {
      WalkKeeps(batch[0], batch[1..]);
      assert [batch[0]] + batch[1..] == batch;
    }
  }

  function Flatten(batches: seq<seq<ScanPdu>>): seq<ScanPdu> {
    if batches == [] then [] else batches[0] + Flatten(batches[1..])
  }

  /** The part of the stream after a cut, walked on from the PDU before it. */
  lemma KeptAfterCut(done: seq<ScanPdu>, rest: seq<ScanPdu>)
    requires done != []
    ensures Kept(done + rest) == Kept(done) + Kept([done[|done| - 1]] + rest)
  {
    var mid := done[|done| - 1];
    assert Kept([mid]) == [];
    if rest == [] {
      assert done + rest == done && [mid] + rest == [mid];
    } else {
      KeptConcat(done, rest);
      KeptConcat([mid], rest);
      hide Link, Kept;
      Reassociate(Kept(done), Link(mid, rest[0]), Kept(rest));
    }
  }

  lemma Reassociate<T>(a: seq<T>, b: seq<T>, c: seq<T>)
    ensures a + b + c == a + (b + c) && [] + b + c == b + c
  {}

  /** The last PDU of what has been processed, if any. */
  function Pending(before: seq<ScanPdu>): (r: seq<ScanPdu>)
    ensures before == [] ==> r == []
    ensures before != [] ==> r == [before[|before| - 1]]
  {
    if before == [] then [] else before[|before| - 1..]
  }

  /** Nothing is lost between `before` and a batch: one of them is empty, the PDU before the cut has a
      non-zero timestamp, or it would not have been forwarded anyway. */
  predicate CutHarmless(before: seq<ScanPdu>, batch: seq<ScanPdu>) {
    before == [] || batch == []
    || before[|before| - 1].timestamp != 0 || !Vouches(before[|before| - 1], batch[0])
  }

  predicate CutsHarmless(before: seq<ScanPdu>, batches: seq<seq<ScanPdu>>)
    decreases |batches|
  {
    batches == [] || (CutHarmless(before, batches[0]) && CutsHarmless(before + batches[0], batches[1..]))
  }

  /** The state left behind by `before`: its last PDU, or nothing usable if that has timestamp zero. */
  predicate LeftBy(last: ScanPdu, before: seq<ScanPdu>) {
    if last.timestamp != 0 then before != [] && last == before[|before| - 1]
    else before == [] || before[|before| - 1].timestamp == 0
  }

  /** One batch, against one pass over the pending PDU and the batch. */
  lemma OneBatch(last: ScanPdu, before: seq<ScanPdu>, batch: seq<ScanPdu>)
    requires LeftBy(last, before)
    ensures var (mid, out) := Authorise(last, batch);
      var whole := Kept(Pending(before) + batch);
      && LeftBy(mid, before + batch)
      && |out| <= |whole|
      && (if CutHarmless(before, batch) then out == whole else |out| < |whole|)
  {
    hide Vouches, Link;
    if batch == [] {
      assert Pending(before) + batch == Pending(before) && before + batch == before;
    } else if last.timestamp != 0 {
      WalkKeeps(last, batch);
      assert Pending(before) == [last];
      assert (before + batch)[|before + batch| - 1] == batch[|batch| - 1] == ([last] + batch)[|batch|];
    } else {
      WalkKeeps(batch[0], batch[1..]);
      assert [batch[0]] + batch[1..] == batch;
      assert (before + batch)[|before + batch| - 1] == batch[|batch| - 1];
      AfterZero(before, batch);
      hide Kept, Walk;
    }
  }

  /** A batch that starts afresh loses at most the link to the PDU before it. */
  lemma AfterZero(before: seq<ScanPdu>, batch: seq<ScanPdu>)
    requires batch != [] && (before == [] || before[|before| - 1].timestamp == 0)
    ensures var whole := Kept(Pending(before) + batch);
      |Kept(batch)| <= |whole| && (if CutHarmless(before, batch) then Kept(batch) == whole else |Kept(batch)| < |whole|)
  {
    if before == [] {
      assert Pending(before) + batch == batch;
    } else {
      var q := before[|before| - 1];
      assert Pending(before) == [q] && ([q] + batch)[1..] == batch;
      LinkEmptyIff(q, batch[0]);
      hide Link, Vouches;
      assert [] + Kept(batch) == Kept(batch);
    }
  }

  lemma LinkEmptyIff(a: ScanPdu, b: ScanPdu)
    ensures Link(a, b) == [] <==> !Vouches(a, b)
  {}

  lemma PendingGoesOn(before: seq<ScanPdu>, batch: seq<ScanPdu>, rest: seq<ScanPdu>)
    ensures Kept(Pending(before) + (batch + rest)) == Kept(Pending(before) + batch) + Kept(Pending(before + batch) + rest)
  {
    var done := Pending(before) + batch;
    assert Pending(before) + (batch + rest) == done + rest;
    if done == [] {
      assert before + batch == [] && done + rest == rest;
      assert Pending(before + batch) + rest == rest && Kept(done) == [] && [] + Kept(rest) == Kept(rest);
    } else {
      KeptAfterCut(done, rest);
      assert done[|done| - 1] == (before + batch)[|before + batch| - 1];
    }
  }

  lemma {:induction false} BatchesFrom(last: ScanPdu, before: seq<ScanPdu>, batches: seq<seq<ScanPdu>>)
    requires LeftBy(last, before)
    ensures var out := AuthoriseAll(last, batches).1;
      var whole := Kept(Pending(before) + Flatten(batches));
      && |out| <= |whole|
      && (if CutsHarmless(before, batches) then out == whole else |out| < |whole|)
    decreases |batches|
  {
    hide CutHarmless, Authorise, LeftBy;
    if batches == [] {
      assert Pending(before) + Flatten(batches) == Pending(before);
    } else {
      var (mid, out) := Authorise(last, batches[0]);
      OneBatch(last, before, batches[0]);
      BatchesFrom(mid, before + batches[0], batches[1..]);
      PendingGoesOn(before, batches[0], Flatten(batches[1..]));
      hide Kept, Pending;
    }
  }

  /** However a sender's stream is cut into batches, empty ones included, what is forwarded is what one
      pass over the whole stream keeps, if and only if every cut is harmless. */
  lemma BatchesAgreeIff(batches: seq<seq<ScanPdu>>)
    ensures AuthoriseAll(ZERO_PDU, batches).1 == Kept(Flatten(batches)) <==> CutsHarmless([], batches)
  {
    BatchesFrom(ZERO_PDU, [], batches);
    assert Pending([]) + Flatten(batches) == Flatten(batches);
  }

  lemma {:induction false} TimedCutsHarmless(before: seq<ScanPdu>, batches: seq<seq<ScanPdu>>)
    requires (forall p :: p in before ==> p.timestamp != 0) && forall p :: p in Flatten(batches) ==> p.timestamp != 0
    ensures CutsHarmless(before, batches)
    decreases |batches|
  {
    hide Vouches;
    if batches != [] {
      assert before != [] ==> before[|before| - 1] in before;
      assert forall p :: p in batches[0] ==> p in Flatten(batches);
      assert forall p :: p in Flatten(batches[1..]) ==> p in Flatten(batches);
      TimedCutsHarmless(before + batches[0], batches[1..]);
    }
  }

  /** Without zero timestamps no cut matters. */
  lemma BatchInvariance(batches: seq<seq<ScanPdu>>)
    requires forall p :: p in Flatten(batches) ==> p.timestamp != 0
    ensures AuthoriseAll(ZERO_PDU, batches).1 == Kept(Flatten(batches))
  {
    TimedCutsHarmless([], batches);
    BatchesAgreeIff(batches);
  }

  // ---- The timing test ------------------------------------------------------------------------------

  /** The percentage for an interval: 5 from 3000 ms on, 10 from 1000 ms on, 15 above 500 ms, 20 above
      200 ms, else 30. The tolerance is the largest whole number of milliseconds within it. */
  lemma TolerancePercent(interval: nat, percent: nat)
    requires (percent == 5 && 3000 <= interval) || (percent == 10 && 1000 <= interval < 3000)
      || (percent == 15 && 500 < interval < 1000) || (percent == 20 && 200 < interval <= 500)
      || (percent == 30 && interval <= 200)
    ensures 100 * Tolerance(interval) <= percent * interval < 100 * (Tolerance(interval) + 1)
  {
    var t := interval * percent / 100;
    assert interval * percent == percent * interval;
    assert 100 * t <= interval * percent < 100 * (t + 1);
  }

  /** In every branch twice the tolerance stays below the interval. */
  lemma ToleranceBelowHalf(interval: nat)
    requires interval > 0
    ensures 2 * Tolerance(interval) < interval
  {}

  lemma Congruent(x: int, y: int)
    returns (k: int)
    ensures ToI32(ToU32(x) - y) == x - y + k * WORD
  {
    var q := x / WORD;
    var z := ToU32(x) - y + HALF_WORD;
    k := -q - z / WORD;
    assert x == q * WORD + ToU32(x);
    assert z == z / WORD * WORD + z % WORD;
  }

  /** Products of a difference of gaps stay far below 2^32, and a non-zero one is at least the
      interval away from zero. */
  lemma MultipleBounds(gap: int, interval: nat)
    requires -0x1_FFFE <= gap <= 0x1_FFFE && interval <= MAX_ADV_TIME_MS
    ensures -0x1_FFFE * MAX_ADV_TIME_MS <= gap * interval <= 0x1_FFFE * MAX_ADV_TIME_MS
    ensures gap > 0 ==> gap * interval >= interval
    ensures gap < 0 ==> gap * interval <= 0 - interval
  {
    MulLe(-0x1_FFFE, gap, interval);
    MulLe(gap, 0x1_FFFE, interval);
    if gap > 0 { MulLe(1, gap, interval); }
    if gap < 0 { MulLe(gap, -1, interval); }
  }

  /** Whatever the measured time, at most one packet-number gap is accepted, even though both the
      product and the difference are computed modulo 2^32. */
  lemma OneGapAccepted(gap1: int, gap2: int, interval: nat, elapsedUs: int)
    requires 0 < interval <= MAX_ADV_TIME_MS
    requires -0xFFFF <= gap1 <= 0xFFFF && -0xFFFF <= gap2 <= 0xFFFF
    requires WithinTolerance(gap1, interval, elapsedUs) && WithinTolerance(gap2, interval, elapsedUs)
    ensures gap1 == gap2
  {
    hide Tolerance, TruncDiv, ToI32, ToU32;
    ToleranceBelowHalf(interval);
    MultipleBounds(gap1 - gap2, interval);
    var y := TruncDiv(elapsedUs, 1000);
    var k1 := Congruent(gap1 * interval, y);
    var k2 := Congruent(gap2 * interval, y);
    var apart := (gap1 - gap2) * interval;
    assert apart == gap1 * interval - gap2 * interval;
    assert Deviation(gap1, interval, elapsedUs) - Deviation(gap2, interval, elapsedUs) == apart + (k1 - k2) * WORD;
    NoWrapApart(Deviation(gap1, interval, elapsedUs) - Deviation(gap2, interval, elapsedUs), apart, k1 - k2);
  }

  lemma NoWrapApart(d: int, apart: int, k: int)
    requires d == apart + k * WORD
    requires -MAX_ADV_TIME_MS < d < MAX_ADV_TIME_MS
    requires -0x1_FFFE * MAX_ADV_TIME_MS <= apart <= 0x1_FFFE * MAX_ADV_TIME_MS
    ensures k == 0
  {}

  /** How far `b` is from where `a` and the packet numbers put it, in microseconds. */
  function JitterUs(a: ScanPdu, b: ScanPdu): int {
    b.timestamp - a.timestamp - (b.pduNo - a.pduNo) * AdvInterval(b.keyId) * 1000
  }

  /** Off by `k` wraps of the 32-bit millisecond clock, the jitter lies in the accepted window: from
      minus the tolerance, inclusive, to one millisecond past it, exclusive. */
  predicate Fits(a: ScanPdu, b: ScanPdu, k: int) {
    var tolerance := Tolerance(AdvInterval(b.keyId));
    -1000 * tolerance <= JitterUs(a, b) - k * WORD * 1000 < 1000 * (tolerance + 1)
  }

  /** With growing numbers the product never wraps, since no interval exceeds five seconds. */
  lemma ProductIsExact(a: ScanPdu, b: ScanPdu)
    requires a.pduNo < b.pduNo
    ensures ToU32((b.pduNo - a.pduNo) * AdvInterval(b.keyId)) == (b.pduNo - a.pduNo) * AdvInterval(b.keyId)
    ensures 0 < (b.pduNo - a.pduNo) * AdvInterval(b.keyId) <= 0xFFFF * MAX_ADV_TIME_MS
  {
    AdvIntervalBounds(b.keyId);
    hide AdvInterval;
    MulLe(1, b.pduNo - a.pduNo, AdvInterval(b.keyId));
    MulLe(b.pduNo - a.pduNo, 0xFFFF, AdvInterval(b.keyId));
  }

  /** The test in real time, for any two packets of one session, whatever their numbers and however
      long between them: accepted if and only if the jitter fits the window up to whole wraps. */
  lemma VouchesIffJitter(a: ScanPdu, b: ScanPdu)
    requires a.keyId == b.keyId && a.timestamp <= b.timestamp
    ensures Vouches(a, b) <==> exists k: int :: Fits(a, b, k)
  {
    AdvIntervalBounds(b.keyId);
    ToleranceBelowHalf(AdvInterval(b.keyId));
    var expected := (b.pduNo - a.pduNo) * AdvInterval(b.keyId);
    var elapsed := b.timestamp - a.timestamp;
    var ms := TruncDiv(elapsed, 1000);
    assert 1000 * ms <= elapsed < 1000 * (ms + 1);
    assert JitterUs(a, b) == elapsed - 1000 * expected;
    var tolerance := Tolerance(AdvInterval(b.keyId));
    var k0 := Congruent(expected, ms);
    hide AdvInterval, Tolerance, JitterUs, TruncDiv;
    if Vouches(a, b) {
      assert Fits(a, b, k0);
    }
    if k :| Fits(a, b, k) {
      WindowInMs(ms, elapsed, expected, tolerance, k);
      OnlyResidue(expected - ms, k, tolerance, k0);
    }
  }

  /** Rounding down to milliseconds turns the open end of the window into a closed one. */
  lemma WindowInMs(ms: int, elapsed: int, expected: int, tolerance: nat, k: int)
    requires 1000 * ms <= elapsed < 1000 * (ms + 1)
    requires -1000 * tolerance <= elapsed - 1000 * expected - k * WORD * 1000 < 1000 * (tolerance + 1)
    ensures 0 - tolerance <= expected - ms + k * WORD <= tolerance
  {}

  /** At most one number of wraps brings a difference into the range of `int`. */
  lemma OnlyResidue(x: int, k: int, tolerance: nat, k0: int)
    requires tolerance < HALF_WORD && 0 - tolerance <= x + k * WORD <= tolerance
    requires -HALF_WORD <= x + k0 * WORD < HALF_WORD
    ensures k == k0
  {}

  /** The verdict is the one true time would give if and only if the jitter fits no window a whole number
      of wraps away. */
  lemma VerdictIsRealIff(a: ScanPdu, b: ScanPdu)
    requires a.keyId == b.keyId && a.timestamp <= b.timestamp
    ensures (Vouches(a, b) <==> Fits(a, b, 0)) <==> !exists k: int :: k != 0 && Fits(a, b, k)
  {
    VouchesIffJitter(a, b);
    AdvIntervalBounds(b.keyId);
    hide Vouches, AdvInterval, JitterUs;
    if Fits(a, b, 0) {
      forall k: int | k != 0 ensures !Fits(a, b, k) {}
    }
  }

  /** Numbers grow, and less than 2^31 ms (24 days) lie between the two. */
  predicate Near(a: ScanPdu, b: ScanPdu) {
    a.pduNo < b.pduNo && 0 <= b.timestamp - a.timestamp < HALF_WORD * 1000
  }

  /** Near packets meet the condition. */
  lemma NearIsReal(a: ScanPdu, b: ScanPdu)
    requires a.keyId == b.keyId && Near(a, b)
    ensures Vouches(a, b) <==> Fits(a, b, 0)
  {
    VerdictIsRealIff(a, b);
    ProductIsExact(a, b);
    AdvIntervalBounds(b.keyId);
    hide Vouches, AdvInterval;
    forall k: int | k != 0 ensures !Fits(a, b, k) {}
  }

  /** A run of packets of one session, in the order of their arrival, each vouching for the one before. */
  predicate Chain(s: seq<ScanPdu>) {
    forall i :: 0 <= i && i + 1 < |s| ==>
      s[i].keyId == s[i + 1].keyId && s[i].timestamp <= s[i + 1].timestamp && Vouches(s[i], s[i + 1])
  }

  function Abs(x: int): nat {
    if x < 0 then -x else x
  }

  /** What `steps` accepted steps may be off by, in microseconds. */
  function DriftBound(steps: nat, keyId: KeyId): nat {
    steps * (1000 * (Tolerance(AdvInterval(keyId)) + 1))
  }

  lemma JitterAdds(a: ScanPdu, b: ScanPdu, c: ScanPdu)
    requires a.keyId == b.keyId == c.keyId
    ensures JitterUs(a, c) == JitterUs(a, b) + JitterUs(b, c)
  {
    hide AdvInterval;
    var interval := AdvInterval(a.keyId);
    assert (c.pduNo - a.pduNo) * interval == (b.pduNo - a.pduNo) * interval + (c.pduNo - b.pduNo) * interval;
  }

  lemma OneMore(n: nat, width: nat)
    ensures (n + 1) * width == n * width + width
  {}

  lemma StepWraps(a: ScanPdu, b: ScanPdu) returns (k: int)
    requires a.keyId == b.keyId && a.timestamp <= b.timestamp && Vouches(a, b)
    ensures Fits(a, b, k) && (Near(a, b) ==> k == 0)
  {
    VouchesIffJitter(a, b);
    k :| Fits(a, b, k);
    if Near(a, b) {
      NearIsReal(a, b);
      k := 0;
    }
  }

  /** Soundness of the test over a whole run: after `k` accepted steps the measured time is off the time
      the packet numbers stand for, up to whole wraps, by at most `k` times the tolerance plus one
      millisecond. */
  lemma {:induction false} ChainDrift(s: seq<ScanPdu>) returns (wraps: int)
    requires |s| > 0 && Chain(s)
    ensures s[|s| - 1].keyId == s[0].keyId
    ensures var off := JitterUs(s[0], s[|s| - 1]) - wraps * WORD * 1000;
      if |s| == 1 then off == 0 else Abs(off) < DriftBound(|s| - 1, s[0].keyId)
    ensures (forall i :: 0 <= i && i + 1 < |s| ==> Near(s[i], s[i + 1])) ==> wraps == 0
    decreases |s|
  {
    wraps := 0;
    if |s| == 1 {
      assert JitterUs(s[0], s[0]) == 0;
    } else {
      var first, mid, last := s[0], s[|s| - 2], s[|s| - 1];
      assert mid.keyId == last.keyId && mid.timestamp <= last.timestamp && Vouches(mid, last);
      var k := StepWraps(mid, last);
      hide Vouches, Tolerance, AdvInterval, JitterUs, Near;
      var before := ChainDrift(s[..|s| - 1]);
      JitterAdds(first, mid, last);
      var width := 1000 * (Tolerance(AdvInterval(first.keyId)) + 1);
      OneMore(|s| - 2, width);
      assert DriftBound(|s| - 1, first.keyId) == DriftBound(|s| - 2, first.keyId) + width;
      hide DriftBound, Chain;
      wraps := before + k;
    }
  }

  // ---- Completeness under loss ----------------------------------------------------------------------

  /** Any two packets of one session arrive in order and as far apart as their numbers say, to
      within the tolerance. */
  predicate Punctual(s: seq<ScanPdu>) {
    forall i, j :: 0 <= i < j < |s| && s[i].keyId == s[j].keyId ==>
      && Near(s[i], s[j])
      && Abs(JitterUs(s[i], s[j])) <= 1000 * Tolerance(AdvInterval(s[j].keyId))
  }

  /** Positions that survive, in order. */
  predicate Survivors(positions: seq<nat>, n: nat) {
    (forall k :: 0 <= k < |positions| ==> positions[k] < n) && Ascending(positions)
  }

  /** All but the last of each run of one session. */
  function ButSessionEnds(s: seq<ScanPdu>): seq<ScanPdu>
    decreases |s|
  {
    if |s| < 2 then [] else (if s[0].keyId == s[1].keyId then [s[0]] else []) + ButSessionEnds(s[1..])
  }

  lemma {:induction false} PunctualAllKept(s: seq<ScanPdu>)
    requires Punctual(s)
    ensures Kept(s) == ButSessionEnds(s)
    decreases |s|
  {
    if |s| >= 2 {
      if s[0].keyId == s[1].keyId {
        NearIsReal(s[0], s[1]);
      }
      hide Vouches, Near, JitterUs, Tolerance, AdvInterval;
      PunctualAllKept(s[1..]);
    }
  }

  /** Completeness: however packets of an on-time sender are lost on the air, and however what is
      left is batched, everything received is forwarded except the last packet of each session. */
  lemma PunctualUnderLoss(sent: seq<ScanPdu>, survivors: seq<nat>, batches: seq<seq<ScanPdu>>)
    requires Punctual(sent) && Survivors(survivors, |sent|)
    requires Flatten(batches) == Pick(sent, survivors) && forall p :: p in sent ==> p.timestamp != 0
    ensures AuthoriseAll(ZERO_PDU, batches).1 == ButSessionEnds(Pick(sent, survivors))
  {
    var received := Pick(sent, survivors);
    hide Near, JitterUs, Tolerance, AdvInterval;
    forall i, j | 0 <= i < j < |received| && received[i].keyId == received[j].keyId
      ensures Near(received[i], received[j])
        && Abs(JitterUs(received[i], received[j])) <= 1000 * Tolerance(AdvInterval(received[j].keyId))
    {
      assert survivors[i] < survivors[j];
    }
    PunctualAllKept(received);
    BatchInvariance(batches);
  }
}
