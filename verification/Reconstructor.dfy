/** The key reconstructor object: a bounded queue of fragments and the array of entries. */
module Reconstructor {
  import opened Bytes
  import opened Crypto
  import opened Options
  import opened Wire
  import opened ReconstructorSpec
  import opened Sequences

  const MAX_KEY_PROCESSES_AT_ONCE := 20

  datatype QueueingStatus = QueuedSuccess | FailedNoSpace | FailedKeyAlreadyReconstructed

  /** A call of the registered callback. */
  datatype Completion = Completion(id: byte, key: Key, address: Address)

  /** The callback calls that `fired` stands for, in order. */
  function CompletionsOf(es: seq<Element>, fired: seq<Option<Key>>): seq<Completion>
    requires |es| == |fired|
  {
    if es == [] then []
    else
      var n := |es| - 1;
      CompletionsOf(es[..n], fired[..n]) + CompletionOf(es[n], fired[n])
  }

  function CompletionOf(e: Element, fired: Option<Key>): seq<Completion> {
    if fired.Some? then [Completion(Low(e.keyId), fired.value, e.address)] else []
  }

  class KeyCollection {
    const km: array<Entry>

    constructor (size: nat)
      ensures fresh(km) && km[..] == seq(size, _ => BLANK)
    {
      km := new Entry[size](_ => BLANK);
    }

    method GetKeyIndex(address: Address, id: byte) returns (index: int)
      ensures index == (if IndexOf(km[..], address, id) < km.Length then IndexOf(km[..], address, id) else -1)
    {
      for i := 0 to km.Length
        invariant forall j :: 0 <= j < i ==> km[j].id != id || km[j].address != address
      {
        if km[i].id == id && km[i].address == address {
          return i;
        }
      }
      return -1;
    }

    method IsKeyInCollection(address: Address, id: byte) returns (found: bool)
      ensures found <==> IndexOf(km[..], address, id) < km.Length
    {
      var index := GetKeyIndex(address, id);
      found := index >= 0;
    }

    method AddNewKeyToCollection(address: Address, id: byte) returns (added: bool)
      modifies km
      ensures km[..] == AddNewKey(old(km[..]), address, id)
      ensures added <==> FirstFree(old(km[..])) < km.Length
    {
      for i := 0 to km.Length
        invariant km[..] == old(km[..])
        invariant forall j :: 0 <= j < i ==> km[j].id != 0
      {
        if km[i].id == 0 {
          km[i] := km[i].(id := id, address := address);
          return true;
        }
      }
      return false;
    }

    method AddFragmentToKeyManagement(address: Address, id: byte, fragment: Fragment, index: FragmentIndex)
      modifies km
      ensures km[..] == AddFragment(old(km[..]), address, id, fragment, index)
    {
      var i := GetKeyIndex(address, id);
      if i >= 0 {
        km[i] := km[i].(fragments := km[i].fragments[index := fragment]);
        km[i] := km[i].(flags := km[i].flags[index := true]);
        km[i] := km[i].(collected := km[i].collected + 1);
      }
    }

    method IsFragmentAlreadyDecrypted(address: Address, id: byte, index: FragmentIndex) returns (decrypted: bool)
      ensures decrypted <==> IsFragmentDecrypted(km[..], address, id, index)
    {
      var i := GetKeyIndex(address, id);
      decrypted := i >= 0 && km[i].flags[index];
    }

    method IsKeyComplete(address: Address, id: byte) returns (available: bool)
      ensures available <==> IsKeyAvailable(km[..], address, id)
    {
      var i := GetKeyIndex(address, id);
      available := i >= 0 && km[i].collected == NO_KEY_FRAGMENTS;
    }

    /** Hands out the joined key, or nothing while it is incomplete. */
    method ReconstructKeyFromFragments(address: Address, id: byte) returns (key: Option<Key>)
      ensures key.Some? <==> IsKeyAvailable(km[..], address, id)
      ensures key.Some? ==> key.value == Join(km[..][IndexOf(km[..], address, id)].fragments)
    {
      var available := IsKeyComplete(address, id);
      if !available {
        return None;
      }
      var i := GetKeyIndex(address, id);
      return Some(Join(km[i].fragments));
    }

    method RemoveKeyFromCollection(address: Address, id: byte)
      modifies km
      ensures km[..] == RemoveKey(old(km[..]), address, id)
    {
      var i := GetKeyIndex(address, id);
      if i >= 0 {
        km[i] := BLANK;
      }
    }
  }

  class KeyReconstructor {
    const prims: Primitives
    const collection: KeyCollection
    var queue: seq<Element>
    var newFragmentEvent: bool
    /** Calls made to the registered callback, oldest first. */
    var completions: seq<Completion>

    /** No fragment waits unnoticed. */
    predicate Valid()
      reads this
    {
      |queue| <= MAX_ELEMENTS_IN_QUEUE && (queue != [] ==> newFragmentEvent)
    }

    constructor (prims: Primitives, size: nat)
      ensures Valid() && fresh(collection) && fresh(collection.km) && this.prims == prims
      ensures collection.km[..] == seq(size, _ => BLANK)
      ensures queue == [] && completions == []
    {
      this.prims := prims;
      collection := new KeyCollection(size);
      queue, newFragmentEvent, completions := [], false, [];
    }

    /** Queues a fragment that could still be of use; a full queue loses it. */
    method QueueKeyForReconstruction(e: Element) returns (status: QueueingStatus)
      requires Valid()
      modifies this`queue, this`newFragmentEvent
      ensures Valid() && (queue == old(queue) || queue == old(queue) + [e])
      ensures var km, id := collection.km[..], Low(e.keyId);
        && queue == QueueFragment(km, old(queue), e)
        && newFragmentEvent == (old(newFragmentEvent) || queue != old(queue))
        && (status == FailedKeyAlreadyReconstructed <==> IsKeyAvailable(km, e.address, id))
        && (status == FailedNoSpace <==>
              !IsKeyAvailable(km, e.address, id) && !IsFragmentDecrypted(km, e.address, id, e.index)
              && |old(queue)| == MAX_ELEMENTS_IN_QUEUE)
    {
      var available := collection.IsKeyComplete(e.address, Low(e.keyId));
      if available {
        return FailedKeyAlreadyReconstructed;
      }
      var decrypted := collection.IsFragmentAlreadyDecrypted(e.address, Low(e.keyId), e.index);
      if decrypted {
        return QueuedSuccess;
      }
      if |queue| == MAX_ELEMENTS_IN_QUEUE {
        return FailedNoSpace;
      }
      queue := queue + [e];
      newFragmentEvent := true;
      return QueuedSuccess;
    }

    /** Unmasks a fragment and stores it if its tag checks. */
    method ProcessAndStoreKeyFragment(e: Element)
      modifies collection.km
      ensures var clear := OpenFragment(prims, e.masked, e.seed, e.tag);
        collection.km[..] ==
          if clear.Some? then AddFragment(old(collection.km[..]), e.address, Low(e.keyId), clear.value, e.index)
          else old(collection.km[..])
    {
      var clear: Fragment := Unmask(e.masked, e.seed);
      var computed := prims.tag(clear, e.masked);
      if computed == e.tag {
        collection.AddFragmentToKeyManagement(e.address, Low(e.keyId), clear, e.index);
      }
    }

    /** The loop body: what the specification does with one element, as four collection calls. */
    method ProcessElement(e: Element)
      modifies this`completions, collection.km
      ensures var (km, fired) := Consume(prims, old(collection.km[..]), e);
        collection.km[..] == km && completions == old(completions) + CompletionOf(e, fired)
    {
      var id := Low(e.keyId);
      var found := collection.IsKeyInCollection(e.address, id);
      if !found {
        var _ := collection.AddNewKeyToCollection(e.address, id);
      }
      var decrypted := collection.IsFragmentAlreadyDecrypted(e.address, id, e.index);
      if !decrypted {
        ProcessAndStoreKeyFragment(e);
      }
      var available := collection.IsKeyComplete(e.address, id);
      if available {
        var key := collection.ReconstructKeyFromFragments(e.address, id);
        completions := completions + [Completion(id, key.value, e.address)];
        collection.RemoveKeyFromCollection(e.address, id);
      }
    }

    /** The fragment event: receive a batch, then process it in order. A batch takes all that can wait. */
    method HandleEventNewKeyFragmentInQueue()
      requires Valid()
      modifies this, collection.km
      ensures Valid() && queue == [] && !newFragmentEvent
      ensures var n := if |old(queue)| <= MAX_KEY_PROCESSES_AT_ONCE then |old(queue)| else MAX_KEY_PROCESSES_AT_ONCE;
        var batch := old(queue)[..n];
        var (km, fired) := ConsumeAll(prims, old(collection.km[..]), batch);
        && queue == old(queue)[n..]
        && collection.km[..] == km && completions == old(completions) + CompletionsOf(batch, fired)
    {
      newFragmentEvent := false;
      var batch := ReceiveBatch();
      ghost var start, from := collection.km[..], completions;
      for i := 0 to |batch|
        invariant queue == old(queue)[|batch|..] && !newFragmentEvent
        invariant collection.km[..] == ConsumeAll(prims, start, batch[..i]).0
        invariant completions == from + CompletionsOf(batch[..i], ConsumeAll(prims, start, batch[..i]).1)
      {
        ghost var before := completions;
        ProcessElement(batch[i]);
        BatchNext(start, batch, i, from, before);
      }
      assert batch[..|batch|] == batch;
    }

    method ReceiveBatch() returns (batch: seq<Element>)
      modifies this`queue
      ensures var n := if |old(queue)| <= MAX_KEY_PROCESSES_AT_ONCE then |old(queue)| else MAX_KEY_PROCESSES_AT_ONCE;
        batch == old(queue)[..n] && queue == old(queue)[n..]
    {
      batch := [];
      ghost var all := queue;
      while |batch| < MAX_KEY_PROCESSES_AT_ONCE && queue != []
        invariant |batch| <= MAX_KEY_PROCESSES_AT_ONCE && all == batch + queue
        decreases |queue|
      {
        batch := batch + [queue[0]];
        queue := queue[1..];
      }
      Halves(batch, queue);
    }

    lemma BatchNext(start: seq<Entry>, batch: seq<Element>, i: nat, from: seq<Completion>, before: seq<Completion>)
      requires i < |batch|
      requires before == from + CompletionsOf(batch[..i], ConsumeAll(prims, start, batch[..i]).1)
      ensures var (km, fired) := ConsumeAll(prims, start, batch[..i]);
        var (km', last) := Consume(prims, km, batch[i]);
        && ConsumeAll(prims, start, batch[..i + 1]) == (km', fired + [last])
        && before + CompletionOf(batch[i], last) ==
             from + CompletionsOf(batch[..i + 1], ConsumeAll(prims, start, batch[..i + 1]).1)
    {
      hide Consume;
      var (km, fired) := ConsumeAll(prims, start, batch[..i]);
      var last := Consume(prims, km, batch[i]).1;
      assert batch[..i + 1] == batch[..i] + [batch[i]];
      ConsumeAllSnoc(prims, start, batch[..i], batch[i]);
      CompletionsSnoc(batch[..i], fired, batch[i], last);
      hide CompletionsOf, ConsumeAll, CompletionOf;
    }
  }

  lemma CompletionsSnoc(es: seq<Element>, fired: seq<Option<Key>>, e: Element, last: Option<Key>)
    requires |es| == |fired|
    ensures CompletionsOf(es + [e], fired + [last]) == CompletionsOf(es, fired) + CompletionOf(e, last)
  {
    assert (es + [e])[..|es|] == es && (fired + [last])[..|es|] == fired;
  }

  lemma {:induction false} ConsumeAllSnoc(prims: Primitives, km: seq<Entry>, es: seq<Element>, e: Element)
    ensures var (km1, fired) := ConsumeAll(prims, km, es);
      var (km2, last) := Consume(prims, km1, e);
      ConsumeAll(prims, km, es + [e]) == (km2, fired + [last])
    decreases |es|
  {
    hide Consume;
    if es == [] {
      var (km2, last) := Consume(prims, km, e);
      assert es + [e] == [e] && [e][1..] == [];
      assert ConsumeAll(prims, km2, []) == (km2, []);
      var none: seq<Option<Key>> := [];
      assert none + [last] == [last] + none;
      assert ConsumeAll(prims, km, es) == (km, none);
    } else {
      assert (es + [e])[1..] == es[1..] + [e];
      var (km1, first) := Consume(prims, km, es[0]);
      ConsumeAllSnoc(prims, km1, es[1..], e);
      var (km2, more) := ConsumeAll(prims, km1, es[1..]);
      var last := Consume(prims, km2, e).1;
      assert [first] + (more + [last]) == ([first] + more) + [last];
    }
  }
}
