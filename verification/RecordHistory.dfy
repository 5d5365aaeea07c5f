/** What a sender's record remembers, told from the steps it has been through: the session last seen, when
    it was last used, and every operation on its key cache. */
module RecordHistory {
  import opened Bytes
  import opened Crypto
  import opened Options
  import opened TickStamp
  import opened Wire
  import opened KeyCacheSpec
  import opened ConsumerSpec
  import opened ConsumerTheorems

  // ---- Session and time -------------------------------------------------------------------------------

  /** The session of the last data or fragment frame, if there was one. */
  function LastSession(before: u16, steps: seq<ConsumerStep>): u16
    decreases |steps|
  {
    if steps == [] then before
    else
      var n := |steps| - 1;
      match steps[n]
      case FrameStep(ReadData(pdu), _) => KeyIdOf(pdu.sessionData)
      case FrameStep(ReadFragment(fragment), _) => KeyIdOf(fragment.sessionData)
      case _ => LastSession(before, steps[..n])
  }

  /** The times at which a frame or a key was for this sender. */
  function Uses(steps: seq<ConsumerStep>): seq<nat> {
    if steps == [] then [] else (if steps[0].DrainStep? then [] else [steps[0].at]) + Uses(steps[1..])
  }

  function SavedAt(s: Stamp, times: seq<nat>): Stamp
    decreases |times|
  {
    if times == [] then s else SavedAt(Save(s, times[0]), times[1..])
  }

  lemma StepRemembers(c: Consumer, step: ConsumerStep)
    requires WellFormed(c)
    ensures var d := Advance(c, step).0;
      d.stamp == SavedAt(c.stamp, Uses([step])) && d.lastKeyId == LastSession(c.lastKeyId, [step])
  {
    assert [step][1..] == [] && [step][..0] == [];
    match step
    case FrameStep(reading, at) => hide Touch, Lookup, CompleteKey, ProcessDeferred;
    case KeyStep(_, _, _) => hide AddKey, EvictLru, IsKeyIn, HandleReading, ProcessDeferred;
    case DrainStep(at) => DrainKeepsStamp(c, at); hide HandleReading, CompleteKey, ProcessDeferred;
  }

  lemma {:induction false} LoopKeepsStamp(c: Consumer, batch: seq<DataPdu>, key: Option<Key>, lastId: u16, now: nat)
    requires WellFormed(c)
    ensures DrainLoop(c, batch, key, lastId, now).0.stamp == c.stamp
    decreases |batch|
  {
    if batch != [] {
      var (d, key', _) := DrainOne(c, batch[0], key, lastId, now);
      hide Touch, Lookup;
      LoopKeepsStamp(d, batch[1..], key', PduKeyId(batch[0]), now);
    }
  }

  lemma DrainKeepsStamp(c: Consumer, now: nat)
    requires WellFormed(c)
    ensures Drain(c, now).0.stamp == c.stamp
  {
    var batch := BatchOf(c);
    if c.pending && batch != [] {
      var firstId := PduKeyId(batch[0]);
      var d := c.(deferred := c.deferred[|batch|..], cache := Touch(c.cache, Low(firstId), now));
      LoopKeepsStamp(d, batch, Lookup(c.cache, Low(firstId)), firstId, now);
    }
  }

  /** Over every run: the session last seen is that of the last frame, and the stamp has been saved at every
      frame and every key, and at nothing else. */
  lemma {:induction false} RunRemembers(c: Consumer, steps: seq<ConsumerStep>)
    requires WellFormed(c)
    ensures var d := RunConsumer(c, steps).0;
      d.stamp == SavedAt(c.stamp, Uses(steps)) && d.lastKeyId == LastSession(c.lastKeyId, steps)
    decreases |steps|
  {
    if steps != [] {
      var step, rest := steps[0], steps[1..];
      StepRemembers(c, step);
      var d := Advance(c, step).0;
      hide Advance;
      RunRemembers(d, rest);
      assert [step][1..] == [];
      LastSessionCons(c.lastKeyId, step, rest);
      assert steps == [step] + rest;
      SavedCons(c.stamp, step, rest);
    }
  }

  lemma SavedCons(s: Stamp, step: ConsumerStep, rest: seq<ConsumerStep>)
    ensures SavedAt(s, Uses([step] + rest)) == SavedAt(SavedAt(s, Uses([step])), Uses(rest))
  {
    assert ([step] + rest)[1..] == rest && [step][1..] == [];
    var first := if step.DrainStep? then [] else [step.at];
    assert Uses([]) == [] && Uses([step]) == first + [] == first && Uses([step] + rest) == first + Uses(rest);
    if !step.DrainStep? {
      assert (first + Uses(rest))[1..] == Uses(rest) && first[1..] == [];
      assert SavedAt(Save(s, step.at), []) == Save(s, step.at);
    } else {
      assert first + Uses(rest) == Uses(rest);
    }
  }

  lemma {:induction false} LastSessionCons(before: u16, step: ConsumerStep, rest: seq<ConsumerStep>)
    ensures LastSession(before, [step] + rest) == LastSession(LastSession(before, [step]), rest)
    decreases |rest|
  {
    if rest == [] {
      assert [step] + rest == [step];
    } else {
      var n := |rest| - 1;
      assert ([step] + rest)[..|rest|] == [step] + rest[..n] && ([step] + rest)[|rest|] == rest[n];
      LastSessionCons(before, step, rest[..n]);
    }
  }

  // ---- The cache --------------------------------------------------------------------------------------------

  /** The cache after a sequence of operations with any ids. */
  function After(c: Cache, ops: seq<Timed>): (d: Cache)
    requires InBounds(c)
    ensures InBounds(d) && |d.slots| == |c.slots|
    decreases |ops|
  {
    if ops == [] then c
    else
      StepInBounds(c, ops[0].op, ops[0].at);
      After(Apply(c, ops[0].op, ops[0].at).0, ops[1..])
  }

  lemma StepInBounds(c: Cache, op: CacheOp, now: nat)
    requires InBounds(c)
    ensures InBounds(Apply(c, op, now).0) && |Apply(c, op, now).0.slots| == |c.slots|
  {}

  lemma {:induction false} AfterConcat(c: Cache, ops: seq<Timed>, more: seq<Timed>)
    requires InBounds(c)
    ensures After(c, ops + more) == After(After(c, ops), more)
    decreases |ops|
  {
    if ops == [] {
      assert ops + more == more;
    } else {
      assert (ops + more)[1..] == ops[1..] + more;
      StepInBounds(c, ops[0].op, ops[0].at);
      AfterConcat(Apply(c, ops[0].op, ops[0].at).0, ops[1..], more);
    }
  }

  /** One lookup for each change of session in a drained batch. */
  function DrainLookups(batch: seq<DataPdu>, lastId: u16, at: nat): seq<Timed> {
    if batch == [] then []
    else
      var id := PduKeyId(batch[0]);
      (if id == lastId then [] else [Timed(Get(Low(id)), at)]) + DrainLookups(batch[1..], id, at)
  }

  /** What a step does with the cache: a frame looks its session up, a drain event the sessions it meets,
      and a new key is added, for which a full cache gives one up. */
  function OpsOf(c: Consumer, step: ConsumerStep): seq<Timed>
    requires WellFormed(c)
  {
    match step
    case FrameStep(ReadData(pdu), at) => [Timed(Get(Low(KeyIdOf(pdu.sessionData))), at)]
    case FrameStep(ReadFragment(fragment), at) => [Timed(Get(Low(KeyIdOf(fragment.sessionData))), at)]
    case FrameStep(ReadOther, _) => []
    case KeyStep(id, key, at) =>
      if IsKeyIn(c.cache, id) then []
      else if First(c.cache.slots, 0) < |c.cache.slots| then [Timed(Add(key, id), at)]
      else [Timed(Evict, at), Timed(Add(key, id), at)]
    case DrainStep(at) =>
      var batch := BatchOf(c);
      if !c.pending || batch == [] then []
      else
        var first := PduKeyId(batch[0]);
        [Timed(Get(Low(first)), at)] + DrainLookups(batch, first, at)
  }

  function RunOps(c: Consumer, steps: seq<ConsumerStep>): seq<Timed>
    requires WellFormed(c)
    decreases |steps|
  {
    if steps == [] then [] else OpsOf(c, steps[0]) + RunOps(Advance(c, steps[0]).0, steps[1..])
  }

  lemma AfterOne(c: Cache, t: Timed)
    requires InBounds(c)
    ensures After(c, [t]) == Apply(c, t.op, t.at).0
  {
    StepInBounds(c, t.op, t.at);
    hide Apply;
    assert [t][1..] == [];
  }

  lemma {:induction false} LoopOps(c: Consumer, batch: seq<DataPdu>, key: Option<Key>, lastId: u16, now: nat)
    requires WellFormed(c)
    ensures DrainLoop(c, batch, key, lastId, now).0.cache == After(c.cache, DrainLookups(batch, lastId, now))
    decreases |batch|
  {
    if batch != [] {
      var id := PduKeyId(batch[0]);
      var (d, key', _) := DrainOne(c, batch[0], key, lastId, now);
      var look := Timed(Get(Low(id)), now);
      AfterOne(c.cache, look);
      assert d.cache == After(c.cache, if id == lastId then [] else [look]) by { hide Touch, Lookup, Low; }
      hide DrainOne, Low, PduKeyId;
      LoopOps(d, batch[1..], key', id, now);
      AfterConcat(c.cache, if id == lastId then [] else [look], DrainLookups(batch[1..], id, now));
    }
  }

  lemma DrainOps(c: Consumer, now: nat)
    requires WellFormed(c)
    ensures Drain(c, now).0.cache == After(c.cache, OpsOf(c, DrainStep(now)))
  {
    var batch := BatchOf(c);
    if c.pending && batch != [] {
      var first := PduKeyId(batch[0]);
      var look := Timed(Get(Low(first)), now);
      AfterOne(c.cache, look);
      var d := c.(deferred := c.deferred[|batch|..], cache := Touch(c.cache, Low(first), now));
      LoopOps(d, batch, Lookup(c.cache, Low(first)), first, now);
      AfterConcat(c.cache, [look], DrainLookups(batch, first, now));
      hide After, DrainLookups, DrainLoop, Touch, Lookup;
    }
  }

  lemma KeyOps(c: Consumer, id: byte, key: Key, now: nat)
    requires WellFormed(c) && Ok(c.cache) && |c.cache.slots| > 0
    ensures CompleteKey(c, id, key, now).cache == After(c.cache, OpsOf(c, KeyStep(id, key, now)))
  {
    var add, evict := Timed(Add(key, id), now), Timed(Evict, now);
    AfterOne(c.cache, add);
    AfterOne(c.cache, evict);
    StepInBounds(c.cache, Evict, now);
    AfterOne(Apply(c.cache, Evict, now).0, add);
    AfterConcat(c.cache, [evict], [add]);
    assert [evict] + [add] == [evict, add];
    hide After, EvictLru, IsKeyIn, Meets, Ok;
  }

  lemma StepOps(c: Consumer, step: ConsumerStep)
    requires WellFormed(c) && Ok(c.cache) && |c.cache.slots| > 0
    ensures Advance(c, step).0.cache == After(c.cache, OpsOf(c, step))
  {
    match step
    case FrameStep(reading, at) =>
      if !reading.ReadOther? { AfterOne(c.cache, OpsOf(c, step)[0]); }
      hide Touch, Lookup, After, Low;
    case KeyStep(id, key, at) =>
      var b := c.(stamp := Save(c.stamp, at));
      KeyOps(b, id, key, at);
      assert OpsOf(b, step) == OpsOf(c, step);
      hide CompleteKey, After, OpsOf;
    case DrainStep(at) =>
      DrainOps(c, at);
      hide Drain, After, OpsOf;
  }

  /** Over every run of a record its cache has been through exactly these operations, at these times. */
  lemma {:induction false} CacheHistory(c: Consumer, steps: seq<ConsumerStep>)
    requires WellFormed(c) && Ok(c.cache) && |c.cache.slots| > 0
    ensures RunConsumer(c, steps).0.cache == After(c.cache, RunOps(c, steps))
    decreases |steps|
  {
    if steps != [] {
      StepOps(c, steps[0]);
      AdvanceKeepsOk(c, steps[0]);
      var d := Advance(c, steps[0]).0;
      hide Advance, OpsOf, Ok;
      CacheHistory(d, steps[1..]);
      AfterConcat(c.cache, OpsOf(c, steps[0]), RunOps(d, steps[1..]));
    }
  }

  lemma {:induction false} AfterIsRun(c: Cache, ops: seq<Timed>)
    requires Ok(c) && forall t :: t in ops ==> NonZeroId(t.op)
    ensures RunCache(c, ops).0 == After(c, ops)
    decreases |ops|
  {
    if ops != [] {
      assert ops[0] in ops;
      CacheRefinesMap(c, ops[0].op, ops[0].at);
      hide Apply, Ok;
      AfterIsRun(Apply(c, ops[0].op, ops[0].at).0, ops[1..]);
    }
  }

  /** So the keys a sender's record holds are those of a bounded map that gives up the one used longest ago,
      uses being frames and drains of its session in true time, for every run stamped in time. */
  lemma RecordIsMap(c: Consumer, steps: seq<ConsumerStep>)
    requires WellFormed(c) && Ok(c.cache) && |c.cache.slots| > 0
    requires (forall t :: t in RunOps(c, steps) ==> NonZeroId(t.op)) && RunStampedInTime(c.cache, RunOps(c, steps))
    ensures exists outs :: MapRun(View(c.cache), |c.cache.slots|, RunOps(c, steps), View(RunConsumer(c, steps).0.cache), outs)
  {
    CacheHistory(c, steps);
    var ops := RunOps(c, steps);
    AfterIsRun(c.cache, ops);
    CacheRunRefinesMap(c.cache, ops);
    var outs := RunCache(c.cache, ops).1;
    hide RunCache, RunStampedInTime, After, RunOps, RunConsumer, View, Ok;
    assert MapRun(View(c.cache), |c.cache.slots|, ops, View(RunConsumer(c, steps).0.cache), outs);
  }
}
