/** Exactly when a sender's PDUs are delivered in order: for one drain event, and for whole runs. */
module OrderTheorems {
  import opened Wire
  import opened KeyCacheSpec
  import opened ConsumerSpec
  import opened ConsumerTheorems

  // ---- One drain event ---------------------------------------------------------------------------

  /** The PDUs that are delivered. */
  function ServedOf(batch: seq<DataPdu>, fates: seq<Fate>): seq<DataPdu>
    requires |fates| == |batch|
  {
    if batch == [] then [] else (if fates[0].Served? then [batch[0]] else []) + ServedOf(batch[1..], fates[1..])
  }

  lemma {:induction false} SentAreServed(batch: seq<DataPdu>, fates: seq<Fate>)
    requires |fates| == |batch|
    ensures PdusOf(EventsFor(batch, fates), Sent) == ServedOf(batch, fates)
    ensures PdusOf(EventsFor(batch, fates), Taken) == []
  {
    if batch != [] {
      SentAreServed(batch[1..], fates[1..]);
      var event := EventFor(batch[0], fates[0]);
      PdusOfConcat(event, EventsFor(batch[1..], fates[1..]), Sent);
      PdusOfConcat(event, EventsFor(batch[1..], fates[1..]), Taken);
      assert event != [] ==> event[1..] == [];
      assert PdusOf(event, Sent) == if fates[0].Served? then [batch[0]] else [];
    }
  }

  predicate AllBack(fates: seq<Fate>) {
    forall k :: 0 <= k < |fates| ==> fates[k].PutBack?
  }

  /** In the batch, everything from the first PDU that is not delivered on is put back, and moving these
      PDUs behind the rest of the queue leaves the queue as it is. */
  predicate OrderSafe(batch: seq<DataPdu>, fates: seq<Fate>, rest: seq<DataPdu>)
    requires |fates| == |batch|
  {
    && (forall i :: 0 <= i < |batch| ==> fates[i].Served? || AllBack(fates[i..]))
    && rest + Back(batch, fates) == Back(batch, fates) + rest
  }

  /** A batch that is delivered as a whole is safe. */
  lemma {:induction false} ServedIsSafe(batch: seq<DataPdu>, fates: seq<Fate>, rest: seq<DataPdu>)
    requires |fates| == |batch| && forall i :: 0 <= i < |fates| ==> fates[i].Served?
    ensures OrderSafe(batch, fates, rest) && ServedOf(batch, fates) == batch && Back(batch, fates) == []
  {
    if batch != [] { ServedIsSafe(batch[1..], fates[1..], rest); }
    assert rest + [] == [] + rest;
  }

  predicate Distinct(queue: seq<DataPdu>) {
    forall i, j :: 0 <= i < j < |queue| ==> queue[i] != queue[j]
  }

  /** With no PDU waiting twice, moving them changes nothing only if there are none, or if nothing is
      behind them. */
  lemma MovingDistinct(stuck: seq<DataPdu>, rest: seq<DataPdu>)
    requires Distinct(stuck + rest)
    ensures rest + stuck == stuck + rest <==> rest == [] || stuck == []
  {
    if rest != [] && stuck != [] {
      var queue := stuck + rest;
      assert queue[0] == stuck[0] && queue[|stuck|] == rest[0];
      assert (rest + stuck)[0] == rest[0];
    } else if rest == [] {
      assert rest + stuck == stuck == stuck + rest;
    } else {
      assert rest + stuck == rest == stuck + rest;
    }
  }

  lemma {:induction false} AllBackBack(batch: seq<DataPdu>, fates: seq<Fate>)
    requires |fates| == |batch|
    ensures |Back(batch, fates)| <= |batch|
    ensures AllBack(fates) <==> |Back(batch, fates)| == |batch|
    ensures AllBack(fates) ==> Back(batch, fates) == batch && ServedOf(batch, fates) == []
  {
    if batch != [] {
      AllBackBack(batch[1..], fates[1..]);
      assert fates == [fates[0]] + fates[1..];
      assert batch == [batch[0]] + batch[1..];
    }
  }

  lemma {:induction false} BatchInOrderIff(batch: seq<DataPdu>, fates: seq<Fate>, rest: seq<DataPdu>)
    requires |fates| == |batch| && Consistent(batch, fates)
    ensures ServedOf(batch, fates) + rest + Back(batch, fates) == batch + rest <==> OrderSafe(batch, fates, rest)
    decreases |batch|
  {
    if batch == [] {
      assert ServedOf(batch, fates) + rest + Back(batch, fates) == rest == batch + rest;
    } else if fates[0].Served? {
      var tail, after := batch[1..], fates[1..];
      BatchInOrderIff(tail, after, rest);
      SafeTail(batch, fates, rest);
      hide OrderSafe, Consistent, AllBack;
      assert ServedOf(batch, fates) == [batch[0]] + ServedOf(tail, after) && Back(batch, fates) == Back(tail, after);
      hide ServedOf, Back;
      HeadCancels(batch[0], ServedOf(tail, after), tail, rest, Back(tail, after));
      assert batch == [batch[0]] + tail;
    } else {
      NotServedFirst(batch, fates, rest);
    }
  }

  lemma HeadCancels(x: DataPdu, sent: seq<DataPdu>, tail: seq<DataPdu>, rest: seq<DataPdu>, back: seq<DataPdu>)
    ensures ([x] + sent) + rest + back == ([x] + tail) + rest <==> sent + rest + back == tail + rest
  {
    var a, b := sent + rest + back, tail + rest;
    assert ([x] + sent) + rest + back == [x] + a && ([x] + tail) + rest == [x] + b;
    assert ([x] + a)[1..] == a && ([x] + b)[1..] == b;
  }

  lemma SafeTail(batch: seq<DataPdu>, fates: seq<Fate>, rest: seq<DataPdu>)
    requires |fates| == |batch| && batch != [] && fates[0].Served?
    ensures OrderSafe(batch, fates, rest) <==> OrderSafe(batch[1..], fates[1..], rest)
  {
    hide AllBack;
    var tail, after := batch[1..], fates[1..];
    assert Back(batch, fates) == Back(tail, after);
    forall i | 0 <= i < |tail|
      ensures after[i] == fates[i + 1] && after[i..] == fates[i + 1..]
    {}
    if OrderSafe(tail, after, rest) {
      forall i | 0 <= i < |batch|
        ensures fates[i].Served? || AllBack(fates[i..])
      {
        if i > 0 { assert after[i - 1].Served? || AllBack(after[i - 1..]); }
      }
    }
  }

  /** A PDU that waits more than once is not delivered once it has not been. */
  predicate Consistent(batch: seq<DataPdu>, fates: seq<Fate>)
    requires |fates| == |batch|
  {
    forall i, k :: 0 <= i < k < |batch| && batch[i] == batch[k] && fates[k].Served? ==> fates[i].Served?
  }

  lemma FatesConsistent(c: Consumer, batch: seq<DataPdu>)
    requires InBounds(c.cache)
    ensures Consistent(batch, Fates(c, batch))
  {
    hide AnswerAfter, Low, PduKeyId;
    forall i, k | 0 <= i < k < |batch| && batch[i] == batch[k] && !Fates(c, batch)[i].Served?
      ensures !Fates(c, batch)[k].Served?
    {
      assert batch[..k] == batch[..i] + batch[i..k];
      IdsOfConcat(batch[..i], batch[i..k]);
      MissesStay(c.cache, {} + IdsOf(batch[..i]), {} + IdsOf(batch[..k]), Low(PduKeyId(batch[k])));
    }
  }

  lemma {:induction false} ServedIn(batch: seq<DataPdu>, fates: seq<Fate>)
    requires |fates| == |batch| && ServedOf(batch, fates) != []
    ensures exists k :: 0 <= k < |batch| && batch[k] == ServedOf(batch, fates)[0] && fates[k].Served?
  {
    if !fates[0].Served? {
      ServedIn(batch[1..], fates[1..]);
      var k :| 0 <= k < |batch[1..]| && batch[1..][k] == ServedOf(batch, fates)[0] && fates[1..][k].Served?;
      assert batch[k + 1] == batch[1..][k] && fates[k + 1] == fates[1..][k];
    }
  }

  lemma SameStart(sent: seq<DataPdu>, rest: seq<DataPdu>, back: seq<DataPdu>, batch: seq<DataPdu>)
    requires sent + rest + back == batch + rest && batch != []
    ensures sent != [] ==> sent[0] == batch[0]
    ensures sent == [] ==> |back| == |batch| && rest + back == batch + rest
  {
    assert (batch + rest)[0] == batch[0];
    if sent != [] {
      assert (sent + rest + back)[0] == sent[0];
    } else {
      assert sent + rest + back == rest + back;
    }
  }

  lemma OnlyAllBack(batch: seq<DataPdu>, fates: seq<Fate>, rest: seq<DataPdu>)
    requires |fates| == |batch| && batch != [] && !fates[0].Served? && Consistent(batch, fates)
    requires ServedOf(batch, fates) + rest + Back(batch, fates) == batch + rest
    ensures AllBack(fates) && rest + batch == batch + rest
  {
    AllBackBack(batch, fates);
    var sent, back := ServedOf(batch, fates), Back(batch, fates);
    if sent != [] {
      ServedIn(batch, fates);
      assert sent[0] != batch[0];
    }
    hide ServedOf, Back, Consistent, AllBack;
    SameStart(sent, rest, back, batch);
  }

  /** If the first PDU is not delivered, only a batch that is put back as a whole can stay in order. */
  lemma NotServedFirst(batch: seq<DataPdu>, fates: seq<Fate>, rest: seq<DataPdu>)
    requires |fates| == |batch| && batch != [] && !fates[0].Served? && Consistent(batch, fates)
    ensures ServedOf(batch, fates) + rest + Back(batch, fates) == batch + rest <==> OrderSafe(batch, fates, rest)
  {
    SafeIfAllBack(batch, fates, rest);
    AllBackBack(batch, fates);
    NoneSent(rest, batch);
    hide OrderSafe, ServedOf, Back, Consistent, AllBack;
    if ServedOf(batch, fates) + rest + Back(batch, fates) == batch + rest {
      OnlyAllBack(batch, fates, rest);
    }
  }

  lemma SafeIfAllBack(batch: seq<DataPdu>, fates: seq<Fate>, rest: seq<DataPdu>)
    requires |fates| == |batch| && batch != [] && !fates[0].Served?
    ensures OrderSafe(batch, fates, rest) <==> AllBack(fates) && rest + batch == batch + rest
  {
    AllBackBack(batch, fates);
    assert fates[0..] == fates;
    if AllBack(fates) { AllBackSuffix(fates); }
    hide ServedOf, Back, AllBack;
  }

  lemma NoneSent<T>(rest: seq<T>, batch: seq<T>)
    ensures [] + rest + batch == rest + batch
  {}

  lemma AllBackSuffix(fates: seq<Fate>)
    requires AllBack(fates)
    ensures forall i :: 0 <= i < |fates| ==> AllBack(fates[i..])
  {}

  /** A drain event keeps the order, delivered PDUs before waiting ones, exactly when its batch is safe.
      In particular a PDU put back with another one served or left behind it is rotated to the back. */
  lemma DrainKeepsOrderIff(c: Consumer, now: nat)
    requires WellFormed(c) && Ok(c.cache) && c.pending
    ensures var (d, events) := Drain(c, now);
      var batch := BatchOf(c);
      PdusOf(events, Sent) + d.deferred == c.deferred <==> OrderSafe(batch, Fates(c, batch), c.deferred[|batch|..])
    ensures PdusOf(Drain(c, now).1, Taken) == []
  {
    var batch := BatchOf(c);
    var fates := Fates(c, batch);
    DrainIsPlain(c, now);
    SentAreServed(batch, fates);
    FatesConsistent(c, batch);
    BatchInOrderIff(batch, fates, c.deferred[|batch|..]);
    hide Drain, OrderSafe, ServedOf, Back, Fates, EventsFor, PdusOf, Follows, Ok;
    ServedAndLeft(c, batch, Back(batch, fates), ServedOf(batch, fates));
  }

  lemma ServedAndLeft(c: Consumer, batch: seq<DataPdu>, back: seq<DataPdu>, sent: seq<DataPdu>)
    requires batch == BatchOf(c)
    ensures var rest := c.deferred[|batch|..];
      sent + (rest + back) == c.deferred <==> sent + rest + back == batch + rest
  {
    var rest := c.deferred[|batch|..];
    assert c.deferred == batch + rest;
    assert sent + (rest + back) == sent + rest + back;
  }

  /** A queue of two that a drain event turns round: the first PDU waits for its key, the second has
      one. */
  lemma RotationExample(c: Consumer, first: DataPdu, second: DataPdu, now: nat)
    requires WellFormed(c) && Ok(c.cache) && c.pending && c.deferred == [first, second]
    requires !Keyed(c.cache, first) && PduKeyId(first) == c.lastKeyId && Keyed(c.cache, second) && Low(PduKeyId(second)) != 0
    ensures var (d, events) := Drain(c, now);
      PdusOf(events, Sent) == [second] && d.deferred == [first]
  {
    DrainIsPlain(c, now);
    var fates := Fates(c, c.deferred);
    SentAreServed(c.deferred, fates);
    assert c.deferred[..0] == [] && IdsOf([]) == {};
    assert {} + IdsOf(c.deferred[..0]) == {};
    assert fates[0].PutBack? && fates[1].Served?;
    hide Drain, FatesAfter, Lookup, Ok, Follows, PdusOf;
    assert c.deferred[1..] == [second] && [second][1..] == [];
    assert ServedOf([second], fates[1..]) == [second] && Back([second], fates[1..]) == [];
  }

  // ---- Whole runs ----------------------------------------------------------------------------------

  /** A data frame that finds room, and a drain whose batch is safe. */
  predicate Orderly(c: Consumer, step: ConsumerStep)
    requires WellFormed(c)
  {
    match step
    case FrameStep(reading, _) => reading.ReadData? ==> |c.deferred| < DEFERRED_QUEUE_SIZE
    case KeyStep(_, _, _) => true
    case DrainStep(_) => c.pending ==> OrderSafe(BatchOf(c), Fates(c, BatchOf(c)), c.deferred[|BatchOf(c)|..])
  }

  predicate OrderlyRun(c: Consumer, steps: seq<ConsumerStep>)
    requires WellFormed(c)
    decreases |steps|
  {
    steps == [] || (Orderly(c, steps[0]) && OrderlyRun(Advance(c, steps[0]).0, steps[1..]))
  }

  /** Delivered followed by waiting is what was waiting at first followed by accepted, after `k` steps. */
  ghost predicate InOrderAfter(c: Consumer, steps: seq<ConsumerStep>, k: nat)
    requires WellFormed(c) && k <= |steps|
  {
    var (d, events) := RunConsumer(c, steps[..k]);
    InOrder(c, events, d)
  }

  lemma OverflowLosesOrder(c: Consumer, pdu: DataPdu, now: nat)
    requires WellFormed(c) && |c.deferred| == DEFERRED_QUEUE_SIZE
    ensures var (d, events) := HandleData(c, pdu, now);
      !InOrder(c, events, d)
  {
    hide Touch, Lookup, PdusOf;
    assert HandleData(c, pdu, now).1 == [Accepted(pdu), DroppedFull(pdu)];
    PdusOfOne(Accepted(pdu), Sent);
    PdusOfOne(Accepted(pdu), Taken);
    PdusOfOne(DroppedFull(pdu), Sent);
    PdusOfOne(DroppedFull(pdu), Taken);
    PdusOfTwo(Accepted(pdu), DroppedFull(pdu), Sent);
    PdusOfTwo(Accepted(pdu), DroppedFull(pdu), Taken);
  }

  lemma StepInOrderIff(c: Consumer, step: ConsumerStep)
    requires WellFormed(c) && Ok(c.cache)
    ensures var (d, events) := Advance(c, step);
      InOrder(c, events, d) <==> Orderly(c, step)
  {
    hide HandleData, HandleFragment, Touch, Lookup;
    match step
    case FrameStep(reading, at) =>
      var b := c.(stamp := TickStamp.Save(c.stamp, at));
      match reading {
        case ReadData(pdu) =>
          if |c.deferred| < DEFERRED_QUEUE_SIZE {
            DataInOrder(b, pdu, at);
          } else {
            OverflowLosesOrder(b, pdu, at);
          }
        case ReadFragment(fragment) => FragmentInOrder(b, fragment, at);
        case ReadOther => Quiet(c, b);
      }
    case KeyStep(id, key, at) => Quiet(c, CompleteKey(c.(stamp := TickStamp.Save(c.stamp, at)), id, key, at));
    case DrainStep(at) =>
      if c.pending {
        DrainKeepsOrderIff(c, at);
        assert c.deferred + [] == c.deferred;
      } else {
        Quiet(c, c);
      }
  }

  lemma FragmentInOrder(c: Consumer, fragment: KeyPdu, at: nat)
    requires WellFormed(c)
    ensures var (d, events) := HandleFragment(c, fragment, at);
      InOrder(c, events, d)
  {
    hide Touch, Lookup;
    PdusOfOne(FragmentWanted(fragment), Sent);
    PdusOfOne(FragmentWanted(fragment), Taken);
    assert [] + c.deferred == c.deferred + [];
  }

  lemma Quiet(c: Consumer, d: Consumer)
    requires d.deferred == c.deferred
    ensures InOrder(c, [], d)
  {
    assert [] + d.deferred == c.deferred + [];
  }

  /** Given order up to `mid`, order at `last` is order from `mid` to `last`. */
  lemma ChainInOrderIff<T>(sent1: seq<T>, taken1: seq<T>, sent2: seq<T>, taken2: seq<T>,
                           first: seq<T>, mid: seq<T>, last: seq<T>)
    requires sent1 + mid == first + taken1
    ensures (sent1 + sent2) + last == first + (taken1 + taken2) <==> sent2 + last == mid + taken2
  {
    assert (sent1 + sent2) + last == sent1 + (sent2 + last);
    assert first + (taken1 + taken2) == sent1 + (mid + taken2) by {
      assert first + (taken1 + taken2) == (first + taken1) + taken2;
      assert (sent1 + mid) + taken2 == sent1 + (mid + taken2);
    }
    assert (sent1 + (sent2 + last))[|sent1|..] == sent2 + last;
    assert (sent1 + (mid + taken2))[|sent1|..] == mid + taken2;
  }

  lemma PrefixInOrderIff(c: Consumer, steps: seq<ConsumerStep>, k: nat)
    requires WellFormed(c) && 0 < k <= |steps| && InOrderAfter(c, steps, 1)
    ensures InOrderAfter(c, steps, k) <==> InOrderAfter(Advance(c, steps[0]).0, steps[1..], k - 1)
  {
    hide Advance;
    OneStep(c, steps[0]);
    assert steps[..1] == [steps[0]];
    var (d, events) := Advance(c, steps[0]);
    assert steps[..k][0] == steps[0] && steps[..k][1..] == steps[1..][..k - 1];
    var (e, more) := RunConsumer(d, steps[1..][..k - 1]);
    PdusOfConcat(events, more, Sent);
    PdusOfConcat(events, more, Taken);
    ChainInOrderIff(PdusOf(events, Sent), PdusOf(events, Taken), PdusOf(more, Sent), PdusOf(more, Taken),
                    c.deferred, d.deferred, e.deferred);
  }

  /** Order over runs of one record, exactly: delivered followed by waiting is the accepted sequence
      after every step if and only if every data frame finds fewer than 80 PDUs waiting and every
      drain takes a safe batch. */
  lemma {:induction false} RunInOrderIff(c: Consumer, steps: seq<ConsumerStep>)
    requires WellFormed(c) && Ok(c.cache)
    ensures (forall k :: 0 <= k <= |steps| ==> InOrderAfter(c, steps, k)) <==> OrderlyRun(c, steps)
    decreases |steps|
  {
    if steps == [] {
      Quiet(c, c);
      assert InOrderAfter(c, steps, 0);
    } else {
      hide Advance, Orderly, InOrder, Ok;
      StepInOrderIff(c, steps[0]);
      OneStep(c, steps[0]);
      assert steps[..0] == [] && steps[..1] == [steps[0]];
      Quiet(c, c);
      assert InOrderAfter(c, steps, 0) && (InOrderAfter(c, steps, 1) <==> Orderly(c, steps[0]));
      var d := Advance(c, steps[0]).0;
      AdvanceKeepsOk(c, steps[0]);
      RunInOrderIff(d, steps[1..]);
      hide InOrderAfter;
      if Orderly(c, steps[0]) {
        forall k | 0 < k <= |steps|
          ensures InOrderAfter(c, steps, k) <==> InOrderAfter(d, steps[1..], k - 1)
        {
          PrefixInOrderIff(c, steps, k);
        }
        ShiftedPrefixes(c, d, steps);
      }
    }
  }

  lemma ShiftedPrefixes(c: Consumer, d: Consumer, steps: seq<ConsumerStep>)
    requires WellFormed(c) && WellFormed(d) && steps != [] && InOrderAfter(c, steps, 0)
    requires forall k :: 0 < k <= |steps| ==>
      (InOrderAfter(c, steps, k) <==> InOrderAfter(d, steps[1..], k - 1))
    ensures (forall k :: 0 <= k <= |steps| ==> InOrderAfter(c, steps, k)) <==>
            (forall k :: 0 <= k <= |steps[1..]| ==> InOrderAfter(d, steps[1..], k))
  {
    hide InOrderAfter;
    if forall k :: 0 <= k <= |steps| ==> InOrderAfter(c, steps, k) {
      forall k | 0 <= k <= |steps[1..]| ensures InOrderAfter(d, steps[1..], k) {
        assert InOrderAfter(c, steps, k + 1);
      }
    }
    if forall k :: 0 <= k <= |steps[1..]| ==> InOrderAfter(d, steps[1..], k) {
      forall k | 0 <= k <= |steps| ensures InOrderAfter(c, steps, k) {
        if k > 0 { assert InOrderAfter(d, steps[1..], k - 1); }
      }
    }
  }
}
