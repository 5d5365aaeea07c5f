/** The interval authoriser object: one slot per sender with its private queue, written by the scan
    callback and drained by the authorisation task. */
module AdvTimeAuthorize {
  import opened Bytes
  import opened Wire
  import opened AuthorizeSpec

  class Authorizer {
    const slots: array<AuthSlot>
    var authorizePacketsEvent: bool

    ghost predicate Valid()
      reads slots
    {
      && slots.Length > 0
      && forall i :: 0 <= i < slots.Length ==> |slots[i].queue| <= CONSUMER_PRIVATE_QUEUE_SIZE
    }

    constructor (consumers: nat)
      requires consumers > 0
      ensures Valid() && fresh(slots) && slots[..] == seq(consumers, _ => FRESH_SLOT)
      ensures !authorizePacketsEvent
    {
      slots := new AuthSlot[consumers](_ => FRESH_SLOT);
      authorizePacketsEvent := false;
    }

    method GetConsumerIndexForAddr(address: Address) returns (index: int)
      requires Valid()
      modifies slots
      ensures Valid() && (slots[..], index) == SlotFor(old(slots[..]), address)
    {
      index := -1;
      var free := -1;
      for i := 0 to slots.Length
        invariant forall j :: 0 <= j < i ==> slots[j].address != address
        invariant free == LastFree(slots[..], i) && index == -1
      {
        if slots[i].address == address {
          return i;
        } else if slots[i].address == ZERO_ADDRESS {
          free := i;
        }
      }
      if free >= 0 {
        slots[free] := slots[free].(address := address, active := true);
        index := free;
      }
    }

    /** Queues a beacon frame for its sender unless the last-seen record says it is a repeat. */
    method ScanCompleteCallback(timestamp: int, frame: seq<byte>, address: Address)
      requires Valid()
      modifies slots, this`authorizePacketsEvent
      ensures Valid()
      ensures slots[..] == Scan(old(slots[..]), timestamp, frame, address).0
      ensures authorizePacketsEvent ==
              (old(authorizePacketsEvent) || Scan(old(slots[..]), timestamp, frame, address).1)
    {
      if !HasMarker(frame) {
        return;
      }
      var index := GetConsumerIndexForAddr(address);
      if index < 0 {
        return;
      }
      hide HasMarker, Scanned, SlotFor;
      var pdu := Scanned(timestamp, frame);
      ghost var found := slots[..];
      if slots[0].lastKeyId == pdu.keyId {
        if pdu.pduNo > slots[0].lastPduNo {
          Send(index, pdu);
          slots[0] := slots[0].(lastPduNo := pdu.pduNo);
          Signal(index);
        }
      } else {
        Send(index, pdu);
        slots[0] := slots[0].(lastPduNo := pdu.pduNo);
        slots[0] := slots[0].(lastKeyId := pdu.keyId);
        Signal(index);
      }
    }

    /** Sends to a private queue; a full queue loses the PDU. */
    method Send(index: nat, pdu: ScanPdu)
      requires Valid() && index < slots.Length
      modifies slots
      ensures Valid()
      ensures var queue := old(slots[index].queue);
        slots[..] == old(slots[..])[index := old(slots[index]).(queue :=
          if |queue| < CONSUMER_PRIVATE_QUEUE_SIZE then queue + [pdu] else queue)]
    {
      if |slots[index].queue| < CONSUMER_PRIVATE_QUEUE_SIZE {
        slots[index] := slots[index].(queue := slots[index].queue + [pdu]);
      }
    }

    method Signal(index: nat)
      requires index < slots.Length
      modifies this`authorizePacketsEvent
      ensures authorizePacketsEvent ==
              (old(authorizePacketsEvent) || |slots[index].queue| >= NO_PDU_IN_QUEUE_FOR_PROCESS)
    {
      if |slots[index].queue| >= NO_PDU_IN_QUEUE_FOR_PROCESS {
        authorizePacketsEvent := true;
      }
    }

    /** Receives up to six PDUs from a sender's queue, in order. */
    method ReceiveBatch(index: nat) returns (batch: seq<ScanPdu>)
      requires Valid() && index < slots.Length
      modifies slots
      ensures Valid()
      ensures var queue := old(slots[index].queue);
        var n := if |queue| <= MAX_PDU_PROCESS_PER_CONSUMER then |queue| else MAX_PDU_PROCESS_PER_CONSUMER;
        && batch == queue[..n]
        && slots[..] == old(slots[..])[index := old(slots[index]).(queue := queue[n..])]
    {
      batch := [];
      ghost var all, before := slots[index].queue, slots[..];
      while |batch| < MAX_PDU_PROCESS_PER_CONSUMER && slots[index].queue != []
        invariant |batch| <= MAX_PDU_PROCESS_PER_CONSUMER && |batch| <= |all| && batch == all[..|batch|]
        invariant slots[..] == before[index := before[index].(queue := all[|batch|..])]
        decreases |all| - |batch|
      {
        assert slots[index] == slots[..][index];
        assert all[|batch|..][1..] == all[|batch| + 1..];
        batch := batch + [slots[index].queue[0]];
        slots[index] := slots[index].(queue := slots[index].queue[1..]);
      }
      assert slots[index] == slots[..][index];
      forall i | 0 <= i < slots.Length ensures |slots[i].queue| <= CONSUMER_PRIVATE_QUEUE_SIZE {
        assert slots[i] == slots[..][i];
      }
    }

    /** Checks each dequeued PDU against the one before it, which is the PDU the last call stopped at
        if there was one, and forwards the earlier of every good pair. */
    method ProcessAuthorizationForConsumer(index: nat) returns (forwarded: seq<ScanPdu>)
      requires Valid() && index < slots.Length
      modifies slots
      ensures Valid()
      ensures forwarded == AuthoriseSlot(old(slots[index])).1
      ensures slots[..] == old(slots[..])[index := AuthoriseSlot(old(slots[index])).0]
    {
      hide Vouches;
      var batch := ReceiveBatch(index);
      var startIndex := 1;
      var last := if batch == [] then ZERO_PDU else batch[0];
      if slots[index].last.timestamp != 0 {
        startIndex := 0;
        last := slots[index].last;
      }
      assert startIndex == 0 ==> From(batch, startIndex) == batch;
      last, forwarded := AuthoriseFrom(batch, startIndex, last);
      slots[index] := slots[index].(last := last);
    }

    /** The authorisation event: one batch for every active sender. It is not raised again for what a
        batch leaves behind. */
    method HandleEventAuthorizePackets() returns (granted: seq<Granted>)
      requires Valid()
      modifies slots, this`authorizePacketsEvent
      ensures Valid() && !authorizePacketsEvent
      ensures (slots[..], granted) == ServeTo(old(slots[..]), slots.Length)
    {
      hide Authorise;
      authorizePacketsEvent := false;
      granted := [];
      ghost var before := slots[..];
      for i := 0 to slots.Length
        invariant Valid() && !authorizePacketsEvent && (slots[..], granted) == ServeTo(before, i)
      {
        assert slots[i] == slots[..][i] == before[i];
        if slots[i].active {
          var address := slots[i].address;
          var forwarded := ProcessAuthorizationForConsumer(i);
          granted := granted + Grants(address, forwarded);
        }
      }
    }
  }

  /** The part of a batch from `start` on; nothing if there is no such part. */
  function From(batch: seq<ScanPdu>, start: nat): seq<ScanPdu> {
    if start <= |batch| then batch[start..] else []
  }

  /** The authorisation loop, with `last` moving along the batch. */
  method AuthoriseFrom(batch: seq<ScanPdu>, startIndex: nat, first: ScanPdu)
    returns (last: ScanPdu, forwarded: seq<ScanPdu>)
    ensures (last, forwarded) == Walk(first, From(batch, startIndex))
  {
    hide Vouches;
    last, forwarded := first, [];
    var i := startIndex;
    while i < |batch|
      invariant Walk(first, From(batch, startIndex)).0 == Walk(last, From(batch, i)).0
      invariant Walk(first, From(batch, startIndex)).1 == forwarded + Walk(last, From(batch, i)).1
      invariant i <= |batch| || i == startIndex
    {
      assert From(batch, i)[0] == batch[i] && From(batch, i)[1..] == From(batch, i + 1);
      var good := IsIntervalGood(last, batch[i]);
      ghost var before := forwarded;
      if good {
        forwarded := forwarded + [last];
      }
      Extend(before, Link(last, batch[i]), Walk(batch[i], From(batch, i + 1)).1);
      last := batch[i];
      i := i + 1;
    }
    assert From(batch, i) == [] && forwarded + [] == forwarded;
  }

  lemma Extend(a: seq<ScanPdu>, b: seq<ScanPdu>, c: seq<ScanPdu>)
    ensures a + (b + c) == (a + b) + c && a + [] == a
  {}

  /** The test on one pair, step by step in the widths the firmware uses. */
  method IsIntervalGood(last: ScanPdu, pdu: ScanPdu) returns (good: bool)
    ensures good <==> Vouches(last, pdu)
  {
    good := false;
    if pdu.keyId == last.keyId {
      var elapsedMs := TruncDiv(pdu.timestamp - last.timestamp, 1000);
      var interval := AdvInterval(pdu.keyId);
      var expectedMs := ToU32((pdu.pduNo - last.pduNo) * interval);
      var difference := ToI32(expectedMs - elapsedMs);
      var plusWindow: int := Tolerance(interval);
      var minusWindow := plusWindow * -1;
      good := difference <= plusWindow && difference >= minusWindow;
    }
  }
}
