/** Closed forms for the session machine and for the schedule, and what they make available to a
    receiver. */
module BroadcasterTheorems {
  import opened Arithmetic
  import opened Bytes
  import opened Crypto
  import opened Wire
  import opened BroadcasterSpec

  // ---- The session machine ------------------------------------------------------------------------

  /** No call that falls on a multiple of the replacement count is refused. */
  predicate OnTime(counter: nat, calls: seq<Call>, replaceAfter: nat)
    requires replaceAfter > 0
  {
    forall i :: 0 <= i < |calls| && Due(counter + i + 1, replaceAfter) ==> !Oversized(calls[i])
  }

  /** The number of the last call that opened a session, counting from 1; 0 if none of the `k` did. */
  function OpenedBy(counter: nat, k: nat, replaceAfter: nat): (i: nat)
    requires replaceAfter > 0
    ensures i <= k
  {
    var round := (counter + k) / replaceAfter;
    if round == counter / replaceAfter then 0
    else
      DivLe(counter, counter + k, replaceAfter);
      StartOf(counter, round, replaceAfter);
      round * replaceAfter - counter
  }

  lemma StartOf(counter: nat, round: nat, n: nat)
    requires n > 0 && counter / n < round
    ensures counter < round * n
  {
    MulLe(counter / n + 1, round, n);
    assert (counter / n + 1) * n == counter / n * n + n;
  }

  function SessionAfter(b: Broadcaster, calls: seq<Call>, replaceAfter: nat): Session
    requires replaceAfter > 0
  {
    var i := OpenedBy(b.counter, |calls|, replaceAfter);
    if i == 0 then b.session else calls[i - 1].next
  }

  function CounterAfter(counter: nat, k: nat, replaceAfter: nat): nat
    requires replaceAfter > 0
  {
    if (counter + k) / replaceAfter == counter / replaceAfter then counter + k else (counter + k) % replaceAfter
  }

  function FragmentCalls(calls: seq<Call>): nat
    decreases |calls|
  {
    if calls == [] then 0
    else FragmentCalls(calls[..|calls| - 1]) + (if calls[|calls| - 1].ForFragment? then 1 else 0)
  }

  lemma CountOne(counter: nat, k: nat, replaceAfter: nat)
    requires replaceAfter > 0
    ensures var c := CounterAfter(counter, k, replaceAfter);
      && (Due(c + 1, replaceAfter) <==> Due(counter + k + 1, replaceAfter))
      && (if Due(c + 1, replaceAfter) then
            CounterAfter(counter, k + 1, replaceAfter) == 0 && OpenedBy(counter, k + 1, replaceAfter) == k + 1
          else
            CounterAfter(counter, k + 1, replaceAfter) == c + 1
            && OpenedBy(counter, k + 1, replaceAfter) == OpenedBy(counter, k, replaceAfter))
  {
    var t := counter + k;
    DivLe(counter, t, replaceAfter);
    Next(t, replaceAfter);
    var m := t % replaceAfter;
    if m + 1 < replaceAfter {
      QuotientIs(m + 1, replaceAfter, 0, m + 1);
    }
  }

  /** One call that is not refused when a session is due. */
  lemma InvokeOne(prims: Primitives, b: Broadcaster, replaceAfter: nat, c: Call)
    requires replaceAfter > 0 && (Due(b.counter + 1, replaceAfter) ==> !Oversized(c))
    ensures var d := Invoke(prims, b, replaceAfter, c).0;
      && d.counter == (if Due(b.counter + 1, replaceAfter) then 0 else b.counter + 1)
      && d.session == (if Due(b.counter + 1, replaceAfter) then c.next else b.session)
      && d.nextFragment == (if c.ForFragment? then (b.nextFragment + 1) % 4 else b.nextFragment)
  {}

  /** What the counter, the session and the fragment index are after any sequence of calls in which
      rotation is on time. */
  lemma {:induction false} SessionMachine(prims: Primitives, b: Broadcaster, replaceAfter: nat, calls: seq<Call>)
    requires replaceAfter > 0 && OnTime(b.counter, calls, replaceAfter)
    ensures var d := After(prims, b, replaceAfter, calls);
      && d.counter == CounterAfter(b.counter, |calls|, replaceAfter)
      && d.session == SessionAfter(b, calls, replaceAfter)
      && d.nextFragment == (b.nextFragment + FragmentCalls(calls)) % 4
    decreases |calls|
  {
    hide Due, Invoke, Oversized;
    if calls == [] {
      assert OpenedBy(b.counter, 0, replaceAfter) == 0;
    } else {
      var n := |calls| - 1;
      assert OnTime(b.counter, calls[..n], replaceAfter);
      SessionMachine(prims, b, replaceAfter, calls[..n]);
      CountOne(b.counter, n, replaceAfter);
      assert Due(b.counter + n + 1, replaceAfter) ==> !Oversized(calls[n]);
      hide OnTime, CounterAfter, OpenedBy;
      InvokeOne(prims, After(prims, b, replaceAfter, calls[..n]), replaceAfter, calls[n]);
    }
  }

  /** Whatever is refused and however late rotation is, the fragments on hand are those of the key in
      use: joined they give that key back. */
  lemma {:induction false} FragmentsJoinToKey(prims: Primitives, first: Session, replaceAfter: nat, calls: seq<Call>)
    requires replaceAfter > 0
    ensures var d := After(prims, FreshBroadcaster(first), replaceAfter, calls);
      d.fragments == Split(d.session.key) && Join(d.fragments) == d.session.key
    decreases |calls|
  {
    hide Split, Join, Due, MakeFragment;
    var d := After(prims, FreshBroadcaster(first), replaceAfter, calls);
    JoinSplit(d.session.key);
    if calls != [] {
      FragmentsJoinToKey(prims, first, replaceAfter, calls[..|calls| - 1]);
    }
  }

  /** The counter follows the number of calls exactly as long as no refused call falls on a multiple
      of the replacement count. */
  lemma RotatesOnTimeIff(prims: Primitives, first: Session, replaceAfter: nat, calls: seq<Call>)
    requires replaceAfter > 0
    ensures OnTime(0, calls, replaceAfter) <==>
      forall k :: 0 <= k <= |calls| ==>
        After(prims, FreshBroadcaster(first), replaceAfter, calls[..k]).counter == k % replaceAfter
  {
    var b := FreshBroadcaster(first);
    if OnTime(0, calls, replaceAfter) {
      forall k | 0 <= k <= |calls|
        ensures After(prims, b, replaceAfter, calls[..k]).counter == k % replaceAfter
      {
        assert OnTime(0, calls[..k], replaceAfter);
        SessionMachine(prims, b, replaceAfter, calls[..k]);
        FromZero(k, replaceAfter);
      }
    } else {
      var i :| 0 <= i < |calls| && Due(i + 1, replaceAfter) && Oversized(calls[i]);
      assert calls[..i + 1][..i] == calls[..i];
      assert After(prims, b, replaceAfter, calls[..i + 1]).counter > 0;
    }
  }

  lemma FromZero(k: nat, n: nat)
    requires n > 0
    ensures CounterAfter(0, k, n) == k % n
    ensures OpenedBy(0, k, n) == k - k % n
    ensures OpenedBy(0, k, n) == 0 <==> k < n
  {
    QuotientIs(0, n, 0, 0);
    if k < n { QuotientIs(k, n, 0, k); }
  }

  /** The session that call number `k` (from 1) of a fresh encryptor belongs to: the first one below
      the replacement count, then the one drawn by the latest call that fell on a multiple of it. */
  function SessionOfCall(first: Session, replaceAfter: nat, calls: seq<Call>, k: nat): Session
    requires replaceAfter > 0 && k <= |calls|
  {
    if k < replaceAfter then first else calls[k - k % replaceAfter - 1].next
  }

  /** What a call returns, from the calls alone: its number is its rank modulo the replacement count,
      cut to 16 bits, its session the one open at that rank, its fragment index the rank among the
      fragment calls modulo 4. */
  lemma OutputClosedForm(prims: Primitives, first: Session, replaceAfter: nat, calls: seq<Call>, k: nat)
    requires replaceAfter > 0 && OnTime(0, calls, replaceAfter) && k < |calls|
    ensures var s := SessionOfCall(first, replaceAfter, calls, k + 1);
      var number: u16 := (k + 1) % replaceAfter % 0x1_0000;
      OutputAt(prims, FreshBroadcaster(first), replaceAfter, calls, k) ==
        if Oversized(calls[k]) then Refused
        else match calls[k]
          case ForData(clear, _, seed) => DataOut(Seal(prims, s.key, s.keyId, number, seed, clear))
          case ForFragment(_, seed) =>
            KeyOut(SealFragment(prims, s.key, s.keyId, number, FragmentCalls(calls[..k]) % 4, seed))
  {
    StateAround(prims, first, replaceAfter, calls, k);
    hide Due, OnTime, After, Invoke, Oversized, Split, FragmentCalls, SessionOfCall;
    var before := After(prims, FreshBroadcaster(first), replaceAfter, calls[..k]);
    if !Oversized(calls[k]) {
      OutputOfCall(prims, before, replaceAfter, calls[k]);
    } else {
      RefusedCall(prims, before, replaceAfter, calls[k]);
    }
  }

  /** The encryptor just before call `k` and just after. */
  lemma StateAround(prims: Primitives, first: Session, replaceAfter: nat, calls: seq<Call>, k: nat)
    requires replaceAfter > 0 && OnTime(0, calls, replaceAfter) && k < |calls|
    ensures var before := After(prims, FreshBroadcaster(first), replaceAfter, calls[..k]);
      var d := Invoke(prims, before, replaceAfter, calls[k]).0;
      && d.session == SessionOfCall(first, replaceAfter, calls, k + 1)
      && d.counter == (k + 1) % replaceAfter
      && d.fragments == Split(d.session.key)
      && before.nextFragment == FragmentCalls(calls[..k]) % 4
  {
    hide Due, Invoke, Split, CounterAfter, OpenedBy;
    var b := FreshBroadcaster(first);
    assert calls[..k + 1][..k] == calls[..k];
    assert OnTime(0, calls[..k], replaceAfter) && OnTime(0, calls[..k + 1], replaceAfter);
    hide OnTime;
    SessionMachine(prims, b, replaceAfter, calls[..k]);
    SessionMachine(prims, b, replaceAfter, calls[..k + 1]);
    FromZero(k + 1, replaceAfter);
    FragmentsJoinToKey(prims, first, replaceAfter, calls[..k + 1]);
  }

  lemma RefusedCall(prims: Primitives, b: Broadcaster, replaceAfter: nat, c: Call)
    requires replaceAfter > 0 && Oversized(c)
    ensures Invoke(prims, b, replaceAfter, c) == (b.(counter := b.counter + 1), Refused)
  {}

  lemma OutputOfCall(prims: Primitives, b: Broadcaster, replaceAfter: nat, c: Call)
    requires replaceAfter > 0 && !Oversized(c)
    ensures var (d, out) := Invoke(prims, b, replaceAfter, c);
      d.fragments == Split(d.session.key) ==>
        out == match c
          case ForData(clear, _, seed) => DataOut(Seal(prims, d.session.key, d.session.keyId, PduNo(d), seed, clear))
          case ForFragment(_, seed) =>
            KeyOut(SealFragment(prims, d.session.key, d.session.keyId, PduNo(d), b.nextFragment, seed))
  {
    hide Due, Seal, Mask;
  }

  function NumberOf(out: Output): u16
    requires !out.Refused?
  {
    match out
    case DataOut(pdu) => pdu.pduNo
    case KeyOut(fragment) => fragment.pduNo
  }

  /** Of two PDUs a fresh encryptor returns in one session, data or fragment, the later carries the larger
      number, up to a replacement count of 65536. */
  lemma NumbersIncreaseWithinSession(prims: Primitives, first: Session, replaceAfter: nat, calls: seq<Call>, i: nat, j: nat)
    requires 0 < replaceAfter <= 0x1_0000 && OnTime(0, calls, replaceAfter) && i < j < |calls|
    requires OpenedBy(0, i + 1, replaceAfter) == OpenedBy(0, j + 1, replaceAfter)
    requires !Oversized(calls[i]) && !Oversized(calls[j])
    ensures var b := FreshBroadcaster(first);
      var one, two := OutputAt(prims, b, replaceAfter, calls, i), OutputAt(prims, b, replaceAfter, calls, j);
      !one.Refused? && !two.Refused? && NumberOf(one) < NumberOf(two)
  {
    hide OnTime, Oversized, OutputAt, OpenedBy;
    NumberOfOutput(prims, first, replaceAfter, calls, i);
    NumberOfOutput(prims, first, replaceAfter, calls, j);
    FromZero(i + 1, replaceAfter);
    FromZero(j + 1, replaceAfter);
  }

  lemma NumberOfOutput(prims: Primitives, first: Session, replaceAfter: nat, calls: seq<Call>, k: nat)
    requires replaceAfter > 0 && OnTime(0, calls, replaceAfter) && k < |calls| && !Oversized(calls[k])
    ensures var out := OutputAt(prims, FreshBroadcaster(first), replaceAfter, calls, k);
      !out.Refused? && NumberOf(out) == (k + 1) % replaceAfter % 0x1_0000
  {
    OutputClosedForm(prims, first, replaceAfter, calls, k);
    hide OnTime, Oversized, OutputAt, SessionOfCall, FragmentCalls;
  }

  /** A refused call on the multiple puts the replacement off by a whole round. */
  lemma OverrunPostpones(prims: Primitives, b: Broadcaster, replaceAfter: nat, c: Call, calls: seq<Call>)
    requires replaceAfter > 0 && Oversized(c) && Due(b.counter + 1, replaceAfter)
    requires OnTime(b.counter + 1, calls, replaceAfter) && |calls| <= replaceAfter
    ensures var d := After(prims, Invoke(prims, b, replaceAfter, c).0, replaceAfter, calls);
      if |calls| < replaceAfter then d.session == b.session && d.counter == b.counter + 1 + |calls|
      else d.session == calls[|calls| - 1].next && d.counter == 0
  {
    hide Due, OnTime, CounterAfter, OpenedBy, After, Invoke, Oversized;
    var e := b.(counter := b.counter + 1);
    RefusedCall(prims, b, replaceAfter, c);
    SessionMachine(prims, e, replaceAfter, calls);
    FromMultiple(b.counter + 1, |calls|, replaceAfter);
  }

  lemma FromMultiple(counter: nat, k: nat, n: nat)
    requires n > 0 && Due(counter, n) && k <= n
    ensures CounterAfter(counter, k, n) == if k < n then counter + k else 0
    ensures OpenedBy(counter, k, n) == if k < n then 0 else n
  {
    var q := counter / n;
    if k < n {
      QuotientIs(counter + k, n, q, k);
    } else {
      assert (q + 1) * n == q * n + n;
      QuotientIs(counter + k, n, q + 1, 0);
    }
  }
}
