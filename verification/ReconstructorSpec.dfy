/** Reassembly of session keys from verified fragments, as a value: an array of entries in which a
    zero id marks a free slot, and the loop body that consumes one queued fragment. */
module ReconstructorSpec {
  import opened Bytes
  import opened Crypto
  import opened Options
  import opened Wire

  const MAX_ELEMENTS_IN_QUEUE := 15

  type Flags = s: seq<bool> | |s| == NO_KEY_FRAGMENTS witness [false, false, false, false]

  datatype Entry = Entry(id: byte, address: Address, collected: int, flags: Flags, fragments: Fragments)

  const NO_FLAGS: Flags := [false, false, false, false]
  const NO_FRAGMENTS: Fragments := [BLANK_FRAGMENT, BLANK_FRAGMENT, BLANK_FRAGMENT, BLANK_FRAGMENT]
  const BLANK := Entry(0, ZERO_ADDRESS, 0, NO_FLAGS, NO_FRAGMENTS)

  /** A fragment waiting in the reconstructor's queue. */
  datatype Element = Element(keyId: u16, index: FragmentIndex, masked: Fragment, tag: Tag, seed: byte, address: Address)

  /** What the processor passes on of a received fragment. */
  function ElementOf(address: Address, fragment: KeyPdu): Element {
    Element(KeyIdOf(fragment.sessionData), FragmentIndexOf(fragment.sessionData), fragment.masked, fragment.tag,
            fragment.seed, address)
  }

  /** First entry for this sender and id, or the number of entries. */
  function IndexOf(km: seq<Entry>, address: Address, id: byte): (i: nat)
    ensures i <= |km|
    ensures i < |km| ==> km[i].id == id && km[i].address == address
    ensures forall j :: 0 <= j < i ==> km[j].id != id || km[j].address != address
  {
    if km == [] then 0
    else if km[0].id == id && km[0].address == address then 0
    else 1 + IndexOf(km[1..], address, id)
  }

  function FirstFree(km: seq<Entry>): (i: nat)
    ensures i <= |km|
    ensures i < |km| ==> km[i].id == 0
    ensures forall j :: 0 <= j < i ==> km[j].id != 0
  {
    if km == [] then 0 else if km[0].id == 0 then 0 else 1 + FirstFree(km[1..])
  }

  /** Claims the first free slot; only its id and address are written. */
  function AddNewKey(km: seq<Entry>, address: Address, id: byte): (r: seq<Entry>)
    ensures |r| == |km|
  {
    var i := FirstFree(km);
    if i < |km| then km[i := km[i].(id := id, address := address)] else km
  }

  function AddFragment(km: seq<Entry>, address: Address, id: byte, fragment: Fragment, index: FragmentIndex): (r: seq<Entry>)
    ensures |r| == |km|
  {
    var i := IndexOf(km, address, id);
    if i < |km| then
      km[i := km[i].(fragments := km[i].fragments[index := fragment], flags := km[i].flags[index := true],
                     collected := km[i].collected + 1)]
    else km
  }

  predicate IsFragmentDecrypted(km: seq<Entry>, address: Address, id: byte, index: FragmentIndex)
  {
    var i := IndexOf(km, address, id);
    i < |km| && km[i].flags[index]
  }

  predicate IsKeyAvailable(km: seq<Entry>, address: Address, id: byte) {
    var i := IndexOf(km, address, id);
    i < |km| && km[i].collected == NO_KEY_FRAGMENTS
  }

  function RemoveKey(km: seq<Entry>, address: Address, id: byte): (r: seq<Entry>)
    ensures |r| == |km|
  {
    var i := IndexOf(km, address, id);
    if i < |km| then km[i := BLANK] else km
  }

  /** The queue after a fragment has been offered to it: unchanged if the fragment can be of no use
      any more, or if there is no room. */
  function QueueFragment(km: seq<Entry>, queue: seq<Element>, e: Element): seq<Element> {
    var id := Low(e.keyId);
    if IsKeyAvailable(km, e.address, id) || IsFragmentDecrypted(km, e.address, id, e.index)
       || |queue| >= MAX_ELEMENTS_IN_QUEUE then queue
    else queue + [e]
  }

  /** Opens an entry if there is none, verifies and stores the fragment if it is new, and hands out
      and forgets the key once four fragments are in. */
  function Consume(prims: Primitives, km: seq<Entry>, e: Element): (r: (seq<Entry>, Option<Key>))
    ensures |r.0| == |km|
  {
    var id := Low(e.keyId);
    var claimed := if IndexOf(km, e.address, id) == |km| then AddNewKey(km, e.address, id) else km;
    var clear := OpenFragment(prims, e.masked, e.seed, e.tag);
    var stored :=
      if !IsFragmentDecrypted(claimed, e.address, id, e.index) && clear.Some?
      then AddFragment(claimed, e.address, id, clear.value, e.index) else claimed;
    if IsKeyAvailable(stored, e.address, id) then
      (RemoveKey(stored, e.address, id), Some(Join(stored[IndexOf(stored, e.address, id)].fragments)))
    else (stored, None)
  }

  function ConsumeAll(prims: Primitives, km: seq<Entry>, es: seq<Element>): (r: (seq<Entry>, seq<Option<Key>>))
    ensures |r.0| == |km| && |r.1| == |es|
    decreases |es|
  {
    if es == [] then (km, [])
    else
      var (km1, fired) := Consume(prims, km, es[0]);
      var (km2, more) := ConsumeAll(prims, km1, es[1..]);
      (km2, [fired] + more)
  }

  // ---- The invariant and the map it stands for ---------------------------------------------------

  datatype Pair = Pair(address: Address, id: byte)

  function PairOf(e: Element): Pair {
    Pair(e.address, Low(e.keyId))
  }

  function Tick(b: bool): nat {
    if b then 1 else 0
  }

  function FlagCount(flags: Flags): nat
  {
    Tick(flags[0]) + Tick(flags[1]) + Tick(flags[2]) + Tick(flags[3])
  }

  /** Between steps: a free slot is blank, a live one has as many fragments as set flags, fewer than
      four, and no two live entries are for one sender and id. */
  predicate Inv(km: seq<Entry>) {
    && (forall i :: 0 <= i < |km| && km[i].id == 0 ==> km[i] == BLANK)
    && (forall i :: 0 <= i < |km| ==> km[i].collected == FlagCount(km[i].flags) < NO_KEY_FRAGMENTS)
    && (forall i, j :: 0 <= i < j < |km| && km[i].id != 0 ==> km[i].id != km[j].id || km[i].address != km[j].address)
  }

  type Collected = map<nat, Fragment>

  function Gathered(e: Entry): Collected
  {
    map i: nat | i < NO_KEY_FRAGMENTS && e.flags[i] :: e.fragments[i]
  }

  function LivePairs(km: seq<Entry>): set<Pair> {
    set i | 0 <= i < |km| && km[i].id != 0 :: Pair(km[i].address, km[i].id)
  }

  /** The open sessions and what has been gathered of each. */
  function View(km: seq<Entry>): map<Pair, Collected>
  {
    map p | p in LivePairs(km) && IndexOf(km, p.address, p.id) < |km| :: Gathered(km[IndexOf(km, p.address, p.id)])
  }

  predicate Complete(c: Collected) {
    0 in c && 1 in c && 2 in c && 3 in c
  }

  function JoinOf(c: Collected): Key
    requires Complete(c)
  {
    Join([c[0], c[1], c[2], c[3]])
  }

  /** A verified fragment of a new index is gathered; anything else changes nothing. */
  function Gather(prims: Primitives, c: Collected, e: Element): Collected {
    var clear := OpenFragment(prims, e.masked, e.seed, e.tag);
    if e.index !in c && clear.Some? then c[e.index := clear.value] else c
  }

  /** The reference: at most `capacity` open sessions, each a map from index to fragment; the key
      goes out exactly when the fourth distinct index is gathered, and the session closes. */
  function MapStep(prims: Primitives, m: map<Pair, Collected>, capacity: nat, e: Element): (map<Pair, Collected>, Option<Key>) {
    var p := PairOf(e);
    if p !in m && |m| == capacity then (m, None)
    else
      var c := Gather(prims, if p in m then m[p] else map[], e);
      if Complete(c) then (m - {p}, Some(JoinOf(c))) else (m[p := c], None)
  }

  lemma InView(km: seq<Entry>, p: Pair)
    ensures p in View(km) <==> p.id != 0 && IndexOf(km, p.address, p.id) < |km|
    ensures p in View(km) ==> View(km)[p] == Gathered(km[IndexOf(km, p.address, p.id)])
  {
    var i := IndexOf(km, p.address, p.id);
    if p.id != 0 && i < |km| {
      assert Pair(km[i].address, km[i].id) in LivePairs(km);
    }
  }

  lemma IndexIs(km: seq<Entry>, i: nat)
    requires Inv(km) && i < |km| && km[i].id != 0
    ensures IndexOf(km, km[i].address, km[i].id) == i
  {}

  /** Rewriting one entry moves only the old and the new pair of that entry. */
  lemma IndexUpdate(km: seq<Entry>, i: nat, e: Entry, p: Pair)
    requires i < |km| && Unique(km) && Unique(km[i := e]) && p.id != 0
    ensures IndexOf(km[i := e], p.address, p.id) ==
      if Pair(e.address, e.id) == p then i
      else if Pair(km[i].address, km[i].id) == p then |km|
      else IndexOf(km, p.address, p.id)
  {
    var km' := km[i := e];
    var k, k' := IndexOf(km, p.address, p.id), IndexOf(km', p.address, p.id);
    if Pair(e.address, e.id) == p {
      assert km'[i] == e;
    } else if Pair(km[i].address, km[i].id) == p {
      assert k == i;
    } else {
      assert k < |km| ==> km'[k] == km[k];
      assert k' < |km| ==> km'[k'] == km[k'];
    }
  }

  predicate Unique(km: seq<Entry>) {
    forall i, j :: 0 <= i < j < |km| && km[i].id != 0 ==> km[i].id != km[j].id || km[i].address != km[j].address
  }

  function Updated(m: map<Pair, Collected>, before: Entry, e: Entry): map<Pair, Collected>
  {
    var kept := m - {Pair(before.address, before.id)};
    if e.id != 0 then kept[Pair(e.address, e.id) := Gathered(e)] else kept
  }

  lemma ViewUpdateAt(km: seq<Entry>, i: nat, e: Entry, p: Pair)
    requires i < |km| && Unique(km) && Unique(km[i := e])
    ensures var want := Updated(View(km), km[i], e);
      && (p in View(km[i := e]) <==> p in want)
      && (p in View(km[i := e]) ==> View(km[i := e])[p] == want[p])
  {
    var km' := km[i := e];
    InView(km, p);
    InView(km', p);
    hide View, Gathered;
    if p.id != 0 {
      IndexUpdate(km, i, e, p);
      var k := IndexOf(km', p.address, p.id);
      assert k < |km'| && k != i ==> km'[k] == km[k];
      if Pair(km[i].address, km[i].id) == p { assert IndexOf(km, p.address, p.id) == i; }
    }
  }

  lemma ViewUpdate(km: seq<Entry>, i: nat, e: Entry)
    requires i < |km| && Unique(km) && Unique(km[i := e])
    ensures View(km[i := e]) == Updated(View(km), km[i], e)
  {
    var km' := km[i := e];
    var want := Updated(View(km), km[i], e);
    hide Updated;
    forall p: Pair
      ensures p in View(km') <==> p in want
      ensures p in View(km') ==> View(km')[p] == want[p]
    {
      ViewUpdateAt(km, i, e, p);
    }
  }

  /** Writing a well-kept entry for a pair that is new, or the slot's own, keeps the invariant. */
  lemma InvWrite(km: seq<Entry>, i: nat, e: Entry)
    requires Inv(km) && i < |km|
    requires e.collected == FlagCount(e.flags) < NO_KEY_FRAGMENTS
    requires e.id == 0 ==> e == BLANK
    requires e.id != 0 ==> (e.id, e.address) == (km[i].id, km[i].address) || IndexOf(km, e.address, e.id) == |km|
    ensures Inv(km[i := e])
  {}

  lemma {:induction false} PairsCount(km: seq<Entry>)
    requires Unique(km)
    ensures |LivePairs(km)| <= |km|
    ensures |LivePairs(km)| == |km| <==> FirstFree(km) == |km|
  {
    if km != [] {
      PairsCount(km[1..]);
      PairsCons(km);
      hide LivePairs;
    } else {
      assert LivePairs(km) == {};
    }
  }

  lemma PairsCons(km: seq<Entry>)
    requires km != [] && Unique(km)
    ensures LivePairs(km) == LivePairs(km[1..]) + (if km[0].id != 0 then {Pair(km[0].address, km[0].id)} else {})
    ensures km[0].id != 0 ==> Pair(km[0].address, km[0].id) !in LivePairs(km[1..])
  {
    var rest := km[1..];
    assert km == [km[0]] + rest;
    forall p | p in LivePairs(km)
      ensures p in LivePairs(rest) + (if km[0].id != 0 then {Pair(km[0].address, km[0].id)} else {})
    {
      var k :| 0 <= k < |km| && km[k].id != 0 && Pair(km[k].address, km[k].id) == p;
      if k > 0 { assert rest[k - 1] == km[k]; }
    }
  }

  lemma ViewSize(km: seq<Entry>)
    requires Unique(km)
    ensures |View(km)| <= |km|
    ensures |View(km)| == |km| <==> FirstFree(km) == |km|
  {
    PairsCount(km);
    forall p: Pair ensures p in View(km) <==> p in LivePairs(km) {
      InView(km, p);
      if p in LivePairs(km) {
        var k :| 0 <= k < |km| && km[k].id != 0 && Pair(km[k].address, km[k].id) == p;
        assert IndexOf(km, p.address, p.id) <= k;
      }
    }
    assert View(km).Keys == LivePairs(km);
  }

  // ---- One step refines the map --------------------------------------------------------------------

  /** The collection once an entry has been claimed for `p`, if one could be. */
  function Claim(km: seq<Entry>, p: Pair): (r: seq<Entry>)
    ensures |r| == |km|
  {
    if IndexOf(km, p.address, p.id) == |km| then AddNewKey(km, p.address, p.id) else km
  }

  lemma GatheredNone(e: Entry)
    requires e.flags == NO_FLAGS
    ensures Gathered(e) == map[]
  {
    forall i: nat ensures i !in Gathered(e) {
      assert i < NO_KEY_FRAGMENTS ==> !e.flags[i];
    }
  }

  lemma Absent<K, V>(m: map<K, V>, k: K)
    requires k !in m
    ensures m - {k} == m
  {}

  lemma ClaimRefines(km: seq<Entry>, p: Pair)
    requires Inv(km) && p.id != 0
    ensures Inv(Claim(km, p))
    ensures View(Claim(km, p)) == if p !in View(km) && |View(km)| < |km| then View(km)[p := map[]] else View(km)
  {
    InView(km, p);
    ViewSize(km);
    var f := FirstFree(km);
    if p !in View(km) && f < |km| {
      var e := BLANK.(id := p.id, address := p.address);
      InvWrite(km, f, e);
      ViewUpdate(km, f, e);
      InView(km, Pair(ZERO_ADDRESS, 0));
      assert Claim(km, p) == km[f := e] by { assert km[f] == BLANK; }
      GatheredNone(e);
      Absent(View(km), Pair(ZERO_ADDRESS, 0));
      hide View, Claim, Inv, IndexOf, Gathered;
    } else {
      assert Claim(km, p) == km;
      hide View, Claim;
    }
  }

  /** One entry after it has been offered a fragment. */
  function Offered(prims: Primitives, entry: Entry, e: Element): Entry
  {
    var clear := OpenFragment(prims, e.masked, e.seed, e.tag);
    if !entry.flags[e.index] && clear.Some? then
      entry.(fragments := entry.fragments[e.index := clear.value], flags := entry.flags[e.index := true],
             collected := entry.collected + 1)
    else entry
  }

  lemma OfferedGathers(prims: Primitives, entry: Entry, e: Element)
    requires entry.collected == FlagCount(entry.flags) < NO_KEY_FRAGMENTS
    ensures var after := Offered(prims, entry, e);
      && Gathered(after) == Gather(prims, Gathered(entry), e)
      && after.collected == FlagCount(after.flags) <= NO_KEY_FRAGMENTS
      && (after.collected == NO_KEY_FRAGMENTS <==> Complete(Gathered(after)))
      && (Complete(Gathered(after)) ==> JoinOf(Gathered(after)) == Join(after.fragments))
  {
    var after := Offered(prims, entry, e);
    if Complete(Gathered(after)) {
      assert after.fragments == [after.fragments[0], after.fragments[1], after.fragments[2], after.fragments[3]];
    }
  }

  lemma SameIndex(km: seq<Entry>, km': seq<Entry>, address: Address, id: byte)
    requires |km| == |km'|
    requires forall i :: 0 <= i < |km| ==> km[i].id == km'[i].id && km[i].address == km'[i].address
    ensures IndexOf(km', address, id) == IndexOf(km, address, id)
  {
    var k, k' := IndexOf(km, address, id), IndexOf(km', address, id);
    assert k < |km| ==> km'[k].id == id;
    assert k' < |km| ==> km[k'].id == id;
  }

  /** What a step does to the entry it ends at. */
  lemma ConsumeAt(prims: Primitives, km: seq<Entry>, e: Element)
    ensures var p := PairOf(e);
      var claimed := Claim(km, p);
      var i := IndexOf(claimed, p.address, p.id);
      Consume(prims, km, e) ==
        if i == |km| then (claimed, None)
        else
          var after := Offered(prims, claimed[i], e);
          if after.collected == NO_KEY_FRAGMENTS then (claimed[i := BLANK], Some(Join(after.fragments)))
          else (claimed[i := after], None)
  {
    var p := PairOf(e);
    var claimed := Claim(km, p);
    var i := IndexOf(claimed, p.address, p.id);
    if i < |km| {
      var after := Offered(prims, claimed[i], e);
      SameIndex(claimed, claimed[i := after], p.address, p.id);
      assert claimed[i := after][i := BLANK] == claimed[i := BLANK];
      assert claimed[i := claimed[i]] == claimed;
    }
  }

  /** The reference step, once its session is open. */
  lemma MapStepOnceOpen(prims: Primitives, m: map<Pair, Collected>, capacity: nat, e: Element, m1: map<Pair, Collected>)
    requires |m| <= capacity
    requires var p := PairOf(e);
      m1 == (if p !in m && |m| < capacity then m[p := map[]] else m) && p in m1
    ensures var p := PairOf(e);
      var c := Gather(prims, m1[p], e);
      MapStep(prims, m, capacity, e) == if Complete(c) then (m1 - {p}, Some(JoinOf(c))) else (m1[p := c], None)
  {
    hide Gather, JoinOf;
    var p := PairOf(e);
    var none: Collected := map[];
    var c := Gather(prims, m1[p], e);
    if p !in m {
      assert m1[p] == none;
      assert m1 - {p} == m - {p} && m1[p := c] == m[p := c];
    }
  }

  /** Offering a fragment to an open entry, and forgetting the entry once it is complete. */
  lemma StoreRefines(prims: Primitives, claimed: seq<Entry>, i: nat, e: Element)
    requires Inv(claimed) && i < |claimed| && claimed[i].id != 0
    ensures var p := Pair(claimed[i].address, claimed[i].id);
      var after := Offered(prims, claimed[i], e);
      var last := if after.collected == NO_KEY_FRAGMENTS then BLANK else after;
      && p in View(claimed) && View(claimed)[p] == Gathered(claimed[i])
      && Inv(claimed[i := last])
      && View(claimed[i := last]) ==
           if after.collected == NO_KEY_FRAGMENTS then View(claimed) - {p} else View(claimed)[p := Gathered(after)]
  {
    var p := Pair(claimed[i].address, claimed[i].id);
    IndexIs(claimed, i);
    InView(claimed, p);
    OfferedGathers(prims, claimed[i], e);
    var after := Offered(prims, claimed[i], e);
    assert (after.id, after.address) == (p.id, p.address);
    var last := if after.collected == NO_KEY_FRAGMENTS then BLANK else after;
    InvWrite(claimed, i, last);
    ViewUpdate(claimed, i, last);
    hide View, Offered, Gathered, Gather, Inv, IndexOf, FlagCount;
    Reinsert(View(claimed), p, Gathered(after));
  }

  lemma Reinsert<K, V>(m: map<K, V>, k: K, v: V)
    ensures (m - {k})[k := v] == m[k := v]
  {}

  /** For every non-zero id the array, its counters and its flags behave as the map: the key goes out
      exactly when the fourth distinct index of that sender's session is stored, joined from that
      session's fragments. */
  lemma ConsumeRefinesMap(prims: Primitives, km: seq<Entry>, e: Element)
    requires Inv(km) && Low(e.keyId) != 0
    ensures var (km', fired) := Consume(prims, km, e);
      Inv(km') && (View(km'), fired) == MapStep(prims, View(km), |km|, e)
  {
    var p := PairOf(e);
    var claimed := Claim(km, p);
    var i := IndexOf(claimed, p.address, p.id);
    ClaimRefines(km, p);
    ConsumeAt(prims, km, e);
    ViewSize(km);
    if i < |km| {
      StoreRefines(prims, claimed, i, e);
      OfferedGathers(prims, claimed[i], e);
      hide Consume, View, Claim, IndexOf, Offered, Gathered, Inv, Gather, JoinOf, MapStep;
      MapStepOnceOpen(prims, View(km), |km|, e, View(claimed));
    } else {
      InView(claimed, p);
      hide Consume, View, Claim, IndexOf, Offered, Inv, MapStep;
      NoRoom(prims, View(km), |km|, e);
    }
  }

  lemma NoRoom(prims: Primitives, m: map<Pair, Collected>, capacity: nat, e: Element)
    requires PairOf(e) !in m && |m| == capacity
    ensures MapStep(prims, m, capacity, e) == (m, None)
  {}
}
