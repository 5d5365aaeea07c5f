/** The key/data schedule of the sender application in closed form, and what any window of it brings
    to a receiver. */
module ScheduleTheorems {
  import opened Arithmetic
  import opened Bytes
  import opened Crypto
  import opened Options
  import opened Wire
  import opened BroadcasterSpec
  import opened BroadcasterTheorems
  import opened ReconstructorSpec
  import opened ReconstructorTheorems

  /** Whether callback `k`, counting from 0, sends a key fragment. */
  predicate FragmentTurn(ratio: nat, k: nat) {
    k % (ratio + 1) == 0
  }

  function CallOf(ratio: nat, k: nat, i: Input): Call {
    if FragmentTurn(ratio, k) then ForFragment(i.next, i.seed) else ForData(i.clear, i.next, i.seed)
  }

  /** The encryptor calls a sequence of timer callbacks makes. */
  function CallsOf(ratio: nat, inputs: seq<Input>): (calls: seq<Call>)
    ensures |calls| == |inputs|
  {
    seq(|inputs|, k requires 0 <= k < |inputs| => CallOf(ratio, k, inputs[k]))
  }

  /** The send counter's cycle is the turn predicate: the timer makes exactly these calls, and
      returns what they return. */
  lemma {:induction false} ScheduleClosedForm(prims: Primitives, first: Session, replaceAfter: nat, ratio: nat, inputs: seq<Input>)
    requires replaceAfter > 0
    ensures var (s, outputs) := RunTimer(prims, FreshSender(first, ratio), replaceAfter, ratio, inputs);
      var calls := CallsOf(ratio, inputs);
      && s.broadcaster == After(prims, FreshBroadcaster(first), replaceAfter, calls)
      && s.sendCounter == (|inputs| + ratio) % (ratio + 1)
      && (forall k :: 0 <= k < |inputs| ==>
            outputs[k] == OutputAt(prims, FreshBroadcaster(first), replaceAfter, calls, k))
    decreases |inputs|
  {
    hide Invoke;
    if inputs == [] {
      QuotientIs(ratio, ratio + 1, 0, ratio);
    } else {
      var n := |inputs| - 1;
      ScheduleClosedForm(prims, first, replaceAfter, ratio, inputs[..n]);
      TurnCycle(ratio, n);
      var calls := CallsOf(ratio, inputs);
      assert calls[..n] == CallsOf(ratio, inputs[..n]);
      forall k | 0 <= k < n
        ensures OutputAt(prims, FreshBroadcaster(first), replaceAfter, calls, k) ==
                OutputAt(prims, FreshBroadcaster(first), replaceAfter, calls[..n], k)
      {
        assert calls[..n][..k] == calls[..k];
      }
    }
  }

  lemma TurnCycle(ratio: nat, n: nat)
    ensures FragmentTurn(ratio, n) <==> (n + ratio) % (ratio + 1) == ratio
    ensures (n + 1 + ratio) % (ratio + 1) == (if FragmentTurn(ratio, n) then 0 else (n + ratio) % (ratio + 1) + 1)
    ensures (n + ratio + 1) / (ratio + 1) == (n + ratio) / (ratio + 1) + (if FragmentTurn(ratio, n) then 1 else 0)
  {
    Next(n + ratio, ratio + 1);
    var r := ratio + 1;
    assert (n / r + 1) * r == n / r * r + r;
    QuotientIs(n + r, r, n / r + 1, n % r);
  }

  /** Before callback `k` there were as many fragments as whole or begun rounds. */
  lemma {:induction false} FragmentsBefore(ratio: nat, inputs: seq<Input>, k: nat)
    requires k <= |inputs|
    ensures FragmentCalls(CallsOf(ratio, inputs)[..k]) == (k + ratio) / (ratio + 1)
    decreases k
  {
    var calls := CallsOf(ratio, inputs);
    if k == 0 {
      QuotientIs(ratio, ratio + 1, 0, ratio);
    } else {
      FragmentsBefore(ratio, inputs, k - 1);
      TurnCycle(ratio, k - 1);
      assert calls[..k][..k - 1] == calls[..k - 1];
    }
  }

  /** Whether callback `k` sends fragment `index`. */
  predicate Brings(ratio: nat, k: nat, index: FragmentIndex) {
    FragmentTurn(ratio, k) && k / (ratio + 1) % 4 == index
  }

  /** The callback that sends fragment `index` in the window from `start`. */
  function TurnFor(ratio: nat, start: nat, index: FragmentIndex): nat {
    var round := (start + ratio) / (ratio + 1);
    (round + (index - round) % 4) * (ratio + 1)
  }

  /** Every window of four rounds sends every fragment index exactly once, wherever it starts. */
  lemma WindowExactlyOnce(ratio: nat, start: nat, index: FragmentIndex)
    ensures start <= TurnFor(ratio, start, index) < start + 4 * (ratio + 1)
    ensures forall k :: start <= k < start + 4 * (ratio + 1) ==>
      (Brings(ratio, k, index) <==> k == TurnFor(ratio, start, index))
  {
    TurnBrings(ratio, start, index);
    forall k | start <= k < start + 4 * (ratio + 1) && Brings(ratio, k, index)
      ensures k == TurnFor(ratio, start, index)
    {
      OnlyTurn(ratio, start, index, k);
    }
  }

  lemma TurnBrings(ratio: nat, start: nat, index: FragmentIndex)
    ensures var k := TurnFor(ratio, start, index);
      start <= k < start + 4 * (ratio + 1) && Brings(ratio, k, index)
  {
    var r := ratio + 1;
    var round := (start + ratio) / r;
    var q := round + (index - round) % 4;
    RoundBounds(start, r, round, q);
    QuotientIs(q * r, r, q, 0);
    SameResidue(round, index);
  }

  lemma SameResidue(round: nat, index: FragmentIndex)
    ensures (round + (index - round) % 4) % 4 == index
  {}

  lemma OnlyTurn(ratio: nat, start: nat, index: FragmentIndex, k: nat)
    requires start <= k < start + 4 * (ratio + 1) && Brings(ratio, k, index)
    ensures k == TurnFor(ratio, start, index)
  {
    var r := ratio + 1;
    var q := k / r;
    assert k == q * r;
    InWindow(start, r, (start + ratio) / r, q);
    SameStep((start + ratio) / r, index, q);
  }

  lemma SameStep(round: nat, index: FragmentIndex, q: nat)
    requires round <= q < round + 4 && q % 4 == index
    ensures q == round + (index - round) % 4
  {}

  /** The rounds of a window begin within it, and only these. */
  lemma RoundBounds(start: nat, r: nat, round: nat, q: nat)
    requires r > 0 && round == (start + r - 1) / r && round <= q < round + 4
    ensures start <= q * r < start + 4 * r
  {
    MulLe(round, q, r);
    MulLe(q, round + 3, r);
    assert (round + 3) * r == round * r + 3 * r;
  }

  lemma InWindow(start: nat, r: nat, round: nat, q: nat)
    requires r > 0 && round == (start + r - 1) / r && start <= q * r < start + 4 * r
    ensures round <= q < round + 4
  {
    QuotientsLe(round, (start + r - 1) % r, q, r - 1, r);
    if q >= round + 4 {
      MulLe(round + 4, q, r);
      SumTimes(round, r);
    }
  }

  lemma SumTimes(a: nat, r: nat)
    ensures (a + 4) * r == a * r + 4 * r
  {}

  // ---- Key availability ---------------------------------------------------------------------------

  /** The output of a fragment turn: the session's own fragment, of the index the turn brings. */
  lemma FragmentOutput(prims: Primitives, first: Session, replaceAfter: nat, ratio: nat, inputs: seq<Input>, k: nat)
    requires replaceAfter > 0 && OnTime(0, CallsOf(ratio, inputs), replaceAfter)
    requires k < |inputs| && FragmentTurn(ratio, k)
    ensures var s := SessionOfCall(first, replaceAfter, CallsOf(ratio, inputs), k + 1);
      RunTimer(prims, FreshSender(first, ratio), replaceAfter, ratio, inputs).1[k] ==
      KeyOut(SealFragment(prims, s.key, s.keyId, (k + 1) % replaceAfter % 0x1_0000, k / (ratio + 1) % 4, inputs[k].seed))
  {
    var calls := CallsOf(ratio, inputs);
    ScheduleClosedForm(prims, first, replaceAfter, ratio, inputs);
    assert calls[k] == ForFragment(inputs[k].next, inputs[k].seed);
    hide CallsOf, OnTime;
    OutputClosedForm(prims, first, replaceAfter, calls, k);
    FragmentsBefore(ratio, inputs, k);
    RoundOfTurn(ratio, k);
  }

  lemma RoundOfTurn(ratio: nat, k: nat)
    requires FragmentTurn(ratio, k)
    ensures (k + ratio) / (ratio + 1) == k / (ratio + 1)
  {
    QuotientIs(k + ratio, ratio + 1, k / (ratio + 1), ratio);
  }

  /** The elements a receiver makes of the fragments sent at `turns`, in the order it hears them. Their
      frames bring them unchanged (`Wire.KeyFrameRoundTrip`). */
  function Heard(outputs: seq<Output>, address: Address, turns: seq<nat>): (es: seq<Element>)
    requires forall k :: k in turns ==> k < |outputs| && outputs[k].KeyOut?
    ensures |es| == |turns|
  {
    seq(|turns|, i requires 0 <= i < |turns| =>
      assert turns[i] in turns;
      ElementOf(address, outputs[turns[i]].fragment))
  }

  /** Turns of one session, among them all those of one window of four rounds. */
  predicate CoversWindow(ratio: nat, replaceAfter: nat, count: nat, start: nat, turns: seq<nat>)
    requires replaceAfter > 0
  {
    && start + 4 * (ratio + 1) <= count
    && (forall k :: k in turns ==> k < count && FragmentTurn(ratio, k))
    && (forall k :: k in turns ==> OpenedBy(0, k + 1, replaceAfter) == OpenedBy(0, start + 1, replaceAfter))
    && (forall k :: start <= k < start + 4 * (ratio + 1) && FragmentTurn(ratio, k) ==> k in turns)
  }

  lemma SameSession(first: Session, replaceAfter: nat, calls: seq<Call>, i: nat, j: nat)
    requires replaceAfter > 0 && i <= |calls| && j <= |calls|
    requires OpenedBy(0, i, replaceAfter) == OpenedBy(0, j, replaceAfter)
    ensures SessionOfCall(first, replaceAfter, calls, i) == SessionOfCall(first, replaceAfter, calls, j)
  {
    FromZero(i, replaceAfter);
    FromZero(j, replaceAfter);
  }

  /** What is heard verifies, as fragments of the session's key; a window brings all four indices. */
  lemma HeardIsSessionKey(prims: Primitives, first: Session, replaceAfter: nat, ratio: nat, inputs: seq<Input>,
                          start: nat, address: Address, turns: seq<nat>)
    requires replaceAfter > 0 && OnTime(0, CallsOf(ratio, inputs), replaceAfter)
    requires CoversWindow(ratio, replaceAfter, |inputs|, start, turns)
    ensures var outputs := RunTimer(prims, FreshSender(first, ratio), replaceAfter, ratio, inputs).1;
      var s := SessionOfCall(first, replaceAfter, CallsOf(ratio, inputs), start + 1);
      && (forall k :: k in turns ==> outputs[k].KeyOut?)
      && var es := Heard(outputs, address, turns);
      && FromKey(prims, s.key, es)
      && {0, 1, 2, 3} <= Indices(prims, es)
      && (forall e :: e in es ==> PairOf(e) == Pair(address, Low(s.keyId)))
  {
    var outputs := RunTimer(prims, FreshSender(first, ratio), replaceAfter, ratio, inputs).1;
    var calls := CallsOf(ratio, inputs);
    var s := SessionOfCall(first, replaceAfter, calls, start + 1);
    forall k | k in turns
      ensures HeardAs(prims, s, address, k / (ratio + 1) % 4, outputs[k])
    {
      HeardTurn(prims, first, replaceAfter, ratio, inputs, start, address, k);
    }
    hide SessionOfCall, OnTime, CallsOf, RunTimer, OpenedBy, HeardAs, Heard, Indices, FromKey, OpenFragment;
    HeardFromKey(prims, s, address, ratio, outputs, turns);
    WindowIndices(prims, s, address, ratio, outputs, turns, start);
  }

  /** All turns in a list were heard as fragments of `s`. */
  predicate AllHeard(prims: Primitives, s: Session, address: Address, ratio: nat, outputs: seq<Output>, turns: seq<nat>) {
    forall k :: k in turns ==> k < |outputs| && HeardAs(prims, s, address, k / (ratio + 1) % 4, outputs[k])
  }

  lemma HeardFromKey(prims: Primitives, s: Session, address: Address, ratio: nat, outputs: seq<Output>, turns: seq<nat>)
    requires AllHeard(prims, s, address, ratio, outputs, turns)
    ensures FromKey(prims, s.key, Heard(outputs, address, turns))
    ensures forall e :: e in Heard(outputs, address, turns) ==> PairOf(e) == Pair(address, Low(s.keyId))
  {
    hide OpenFragment, ElementOf;
    var es := Heard(outputs, address, turns);
    forall e | e in es
      ensures PairOf(e) == Pair(address, Low(s.keyId))
      ensures OpenFragment(prims, e.masked, e.seed, e.tag) == Some(FragmentOf(s.key, e.index))
    {
      var i :| 0 <= i < |es| && es[i] == e;
      assert turns[i] in turns;
    }
  }

  lemma HeardIndex(prims: Primitives, s: Session, address: Address, ratio: nat, outputs: seq<Output>, turns: seq<nat>, k: nat)
    requires AllHeard(prims, s, address, ratio, outputs, turns) && k in turns
    ensures k / (ratio + 1) % 4 in Indices(prims, Heard(outputs, address, turns))
  {
    hide OpenFragment, ElementOf;
    var es := Heard(outputs, address, turns);
    var i :| 0 <= i < |turns| && turns[i] == k;
    assert es[i].index == k / (ratio + 1) % 4;
  }

  lemma WindowIndices(prims: Primitives, s: Session, address: Address, ratio: nat, outputs: seq<Output>, turns: seq<nat>,
                      start: nat)
    requires AllHeard(prims, s, address, ratio, outputs, turns)
    requires forall k :: start <= k < start + 4 * (ratio + 1) && FragmentTurn(ratio, k) ==> k in turns
    ensures {0, 1, 2, 3} <= Indices(prims, Heard(outputs, address, turns))
  {
    WindowIndex(prims, s, address, ratio, outputs, turns, start, 0);
    WindowIndex(prims, s, address, ratio, outputs, turns, start, 1);
    WindowIndex(prims, s, address, ratio, outputs, turns, start, 2);
    WindowIndex(prims, s, address, ratio, outputs, turns, start, 3);
    hide HeardAs, Heard, Indices, FragmentTurn;
  }

  lemma WindowIndex(prims: Primitives, s: Session, address: Address, ratio: nat, outputs: seq<Output>, turns: seq<nat>,
                    start: nat, index: FragmentIndex)
    requires AllHeard(prims, s, address, ratio, outputs, turns)
    requires forall k :: start <= k < start + 4 * (ratio + 1) && FragmentTurn(ratio, k) ==> k in turns
    ensures index as nat in Indices(prims, Heard(outputs, address, turns))
  {
    WindowExactlyOnce(ratio, start, index);
    var k := TurnFor(ratio, start, index);
    assert Brings(ratio, k, index) && k in turns;
    HeardIndex(prims, s, address, ratio, outputs, turns, k);
  }

  /** A sent fragment, heard from `address`, is fragment `index` of session `s` and verifies. */
  predicate HeardAs(prims: Primitives, s: Session, address: Address, index: FragmentIndex, out: Output) {
    out.KeyOut? &&
    var e := ElementOf(address, out.fragment);
    && e.index == index && PairOf(e) == Pair(address, Low(s.keyId))
    && OpenFragment(prims, e.masked, e.seed, e.tag) == Some(FragmentOf(s.key, index))
  }

  lemma HeardTurn(prims: Primitives, first: Session, replaceAfter: nat, ratio: nat, inputs: seq<Input>, start: nat,
                  address: Address, k: nat)
    requires replaceAfter > 0 && OnTime(0, CallsOf(ratio, inputs), replaceAfter)
    requires k < |inputs| && FragmentTurn(ratio, k) && start < |inputs|
    requires OpenedBy(0, k + 1, replaceAfter) == OpenedBy(0, start + 1, replaceAfter)
    ensures HeardAs(prims, SessionOfCall(first, replaceAfter, CallsOf(ratio, inputs), start + 1), address,
                    k / (ratio + 1) % 4, RunTimer(prims, FreshSender(first, ratio), replaceAfter, ratio, inputs).1[k])
  {
    var calls := CallsOf(ratio, inputs);
    SameSession(first, replaceAfter, calls, k + 1, start + 1);
    FragmentOutput(prims, first, replaceAfter, ratio, inputs, k);
    var s := SessionOfCall(first, replaceAfter, calls, start + 1);
    hide SessionOfCall, OnTime, CallsOf, RunTimer, OpenedBy, HeardAs, SealFragment;
    SealedHeardAs(prims, s, address, (k + 1) % replaceAfter % 0x1_0000, k / (ratio + 1) % 4, inputs[k].seed);
  }

  lemma SealedHeardAs(prims: Primitives, s: Session, address: Address, number: u16, index: FragmentIndex, seed: byte)
    ensures HeardAs(prims, s, address, index, KeyOut(SealFragment(prims, s.key, s.keyId, number, index, seed)))
  {
    SessionDataRoundTrip(s.keyId, index);
    UnmaskMask(FragmentOf(s.key, index), seed);
  }

  /** Key availability: a receiver that hears all the fragments of one window of four rounds, in any
      order, repeated and among other fragments of the same session, gets that session's key; and
      it gets no other key. */
  lemma WindowRevealsKey(prims: Primitives, first: Session, replaceAfter: nat, ratio: nat, inputs: seq<Input>,
                         start: nat, address: Address, turns: seq<nat>)
    requires replaceAfter > 0 && OnTime(0, CallsOf(ratio, inputs), replaceAfter)
    requires CoversWindow(ratio, replaceAfter, |inputs|, start, turns)
    ensures var outputs := RunTimer(prims, FreshSender(first, ratio), replaceAfter, ratio, inputs).1;
      var key := SessionOfCall(first, replaceAfter, CallsOf(ratio, inputs), start + 1).key;
      && (forall k :: k in turns ==> outputs[k].KeyOut?)
      && var fired := AloneRun(prims, map[], Heard(outputs, address, turns)).1;
      && Some(key) in fired
      && (forall k :: k in fired && k.Some? ==> k.value == key)
  {
    HeardIsSessionKey(prims, first, replaceAfter, ratio, inputs, start, address, turns);
    var outputs := RunTimer(prims, FreshSender(first, ratio), replaceAfter, ratio, inputs).1;
    var key := SessionOfCall(first, replaceAfter, CallsOf(ratio, inputs), start + 1).key;
    hide SessionOfCall, OnTime, CallsOf, RunTimer, OpenedBy, CoversWindow, Indices, FromKey;
    var es := Heard(outputs, address, turns);
    hide Heard;
    CoveredYieldsKey(prims, key, es);
  }

  lemma CoveredYieldsKey(prims: Primitives, key: Key, es: seq<Element>)
    requires FromKey(prims, key, es) && {0, 1, 2, 3} <= Indices(prims, es)
    ensures var fired := AloneRun(prims, map[], es).1;
      Some(key) in fired && (forall k :: k in fired && k.Some? ==> k.value == key)
  {
    var none: Collected := map[];
    OnlyTheKeyComesOut(prims, key, none, es);
    KeyComesOutIff(prims, none, es);
    assert none.Keys + Indices(prims, es) == Indices(prims, es);
    hide AloneRun, FromKey, Indices;
    var fired := AloneRun(prims, none, es).1;
    var k :| k in fired && k.Some?;
    assert k == Some(key);
  }

  /** The same in a collection shared with other senders and sessions, over any interleaving that
      the collection has room for. */
  lemma KeyGetsThrough(prims: Primitives, km: seq<Entry>, stream: seq<Element>, p: Pair, key: Key)
    requires Inv(km) && NonZeroIds(stream)
    requires |View(km).Keys + PairsOf(stream)| <= |km| && p !in View(km)
    requires FromKey(prims, key, Only(stream, p)) && {0, 1, 2, 3} <= Indices(prims, Only(stream, p))
    ensures var fired := OutputsOf(stream, ConsumeAll(prims, km, stream).1, p);
      Some(key) in fired && (forall k :: k in fired && k.Some? ==> k.value == key)
  {
    StreamRefinesMap(prims, km, stream);
    SessionsDoNotMix(prims, View(km), |km|, stream, p);
    CoveredYieldsKey(prims, key, Only(stream, p));
  }

  /** Key availability through a shared collection: of whatever stream of fragments reaches it, of any
      senders and sessions it has room for, if the part of this session is what was heard of one
      window or more, the session's key is handed out, and no other key for it. */
  lemma WindowGetsThrough(prims: Primitives, first: Session, replaceAfter: nat, ratio: nat, inputs: seq<Input>, start: nat,
                          address: Address, turns: seq<nat>, km: seq<Entry>, stream: seq<Element>)
    requires replaceAfter > 0 && OnTime(0, CallsOf(ratio, inputs), replaceAfter)
    requires CoversWindow(ratio, replaceAfter, |inputs|, start, turns)
    requires Inv(km) && NonZeroIds(stream)
    ensures var outputs := RunTimer(prims, FreshSender(first, ratio), replaceAfter, ratio, inputs).1;
      var s := SessionOfCall(first, replaceAfter, CallsOf(ratio, inputs), start + 1);
      var p := Pair(address, Low(s.keyId));
      && (forall k :: k in turns ==> outputs[k].KeyOut?)
      && (p !in View(km) && |View(km).Keys + PairsOf(stream)| <= |km| && Only(stream, p) == Heard(outputs, address, turns) ==>
            var fired := OutputsOf(stream, ConsumeAll(prims, km, stream).1, p);
            Some(s.key) in fired && (forall k :: k in fired && k.Some? ==> k.value == s.key))
  {
    HeardIsSessionKey(prims, first, replaceAfter, ratio, inputs, start, address, turns);
    var outputs := RunTimer(prims, FreshSender(first, ratio), replaceAfter, ratio, inputs).1;
    var s := SessionOfCall(first, replaceAfter, CallsOf(ratio, inputs), start + 1);
    var p := Pair(address, Low(s.keyId));
    hide SessionOfCall, OnTime, CallsOf, RunTimer, OpenedBy, CoversWindow, Indices, FromKey, View, ConsumeAll, PairsOf, Inv;
    if p !in View(km) && |View(km).Keys + PairsOf(stream)| <= |km| && Only(stream, p) == Heard(outputs, address, turns) {
      KeyGetsThrough(prims, km, stream, p, s.key);
    }
  }
}
