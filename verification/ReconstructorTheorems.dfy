/** Whole streams of fragments: many senders and sessions interleaved, in any order, with repeats
    and with fragments that do not verify. */
module ReconstructorTheorems {
  import opened Crypto
  import opened Options
  import opened Wire
  import opened ReconstructorSpec

  predicate NonZeroIds(es: seq<Element>) {
    forall e :: e in es ==> Low(e.keyId) != 0
  }

  function MapRun(prims: Primitives, m: map<Pair, Collected>, capacity: nat, es: seq<Element>)
    : (r: (map<Pair, Collected>, seq<Option<Key>>))
    ensures |r.1| == |es|
    decreases |es|
  {
    if es == [] then (m, [])
    else
      var (m1, fired) := MapStep(prims, m, capacity, es[0]);
      var (m2, more) := MapRun(prims, m1, capacity, es[1..]);
      (m2, [fired] + more)
  }

  /** The array behaves as the bounded map over every stream of fragments with non-zero ids. */
  lemma {:induction false} StreamRefinesMap(prims: Primitives, km: seq<Entry>, es: seq<Element>)
    requires Inv(km) && NonZeroIds(es)
    ensures var (km', fired) := ConsumeAll(prims, km, es);
      Inv(km') && (View(km'), fired) == MapRun(prims, View(km), |km|, es)
    decreases |es|
  {
    if es != [] {
      assert es[0] in es;
      ConsumeRefinesMap(prims, km, es[0]);
      hide MapStep, Consume, View, Inv;
      StreamRefinesMap(prims, Consume(prims, km, es[0]).0, es[1..]);
    }
  }

  // ---- One session on its own ------------------------------------------------------------------

  /** One session with the collection to itself. */
  function AloneStep(prims: Primitives, c: Collected, e: Element): (Collected, Option<Key>) {
    var c1 := Gather(prims, c, e);
    if Complete(c1) then (map[], Some(JoinOf(c1))) else (c1, None)
  }

  function AloneRun(prims: Primitives, c: Collected, es: seq<Element>): (r: (Collected, seq<Option<Key>>))
    ensures |r.1| == |es|
    decreases |es|
  {
    if es == [] then (c, [])
    else
      var (c1, fired) := AloneStep(prims, c, es[0]);
      var (c2, more) := AloneRun(prims, c1, es[1..]);
      (c2, [fired] + more)
  }

  function Only(es: seq<Element>, p: Pair): seq<Element> {
    if es == [] then [] else (if PairOf(es[0]) == p then [es[0]] else []) + Only(es[1..], p)
  }

  /** The outputs at the positions of one session's fragments. */
  function OutputsOf(es: seq<Element>, fired: seq<Option<Key>>, p: Pair): seq<Option<Key>>
    requires |es| == |fired|
  {
    if es == [] then []
    else (if PairOf(es[0]) == p then [fired[0]] else []) + OutputsOf(es[1..], fired[1..], p)
  }

  function PairsOf(es: seq<Element>): set<Pair> {
    set i | 0 <= i < |es| :: PairOf(es[i])
  }

  function Held(m: map<Pair, Collected>, p: Pair): Collected {
    if p in m then m[p] else map[]
  }

  lemma MapStepAlone(prims: Primitives, m: map<Pair, Collected>, capacity: nat, e: Element, p: Pair)
    requires PairOf(e) in m || |m| < capacity
    ensures var (m', fired) := MapStep(prims, m, capacity, e);
      && m'.Keys <= m.Keys + {PairOf(e)}
      && (if PairOf(e) == p then (Held(m', p), fired) == AloneStep(prims, Held(m, p), e) else Held(m', p) == Held(m, p))
  {
    hide Gather, JoinOf, Complete;
  }

  lemma RoomForOneMore(m: map<Pair, Collected>, es: seq<Element>, capacity: nat)
    requires es != [] && |m.Keys + PairsOf(es)| <= capacity && PairOf(es[0]) !in m
    ensures |m| < capacity
  {
    var p := PairOf(es[0]);
    assert p in PairsOf(es);
    Subsets(m.Keys + {p}, m.Keys + PairsOf(es));
    assert |m.Keys + {p}| == |m.Keys| + 1;
  }

  lemma Subsets<T>(a: set<T>, b: set<T>)
    requires a <= b
    ensures |a| <= |b|
  {
    assert b == a + (b - a);
  }

  /** As long as the sessions in play fit the collection, what goes out at a session's fragments is
      what it would be if no other sender or session existed. */
  lemma {:induction false} SessionsDoNotMix(prims: Primitives, m: map<Pair, Collected>, capacity: nat, es: seq<Element>, p: Pair)
    requires |m.Keys + PairsOf(es)| <= capacity
    ensures var (m', fired) := MapRun(prims, m, capacity, es);
      (Held(m', p), OutputsOf(es, fired, p)) == AloneRun(prims, Held(m, p), Only(es, p))
    decreases |es|
  {
    if es != [] {
      if PairOf(es[0]) !in m { RoomForOneMore(m, es, capacity); }
      MapStepAlone(prims, m, capacity, es[0], p);
      var (m1, fired) := MapStep(prims, m, capacity, es[0]);
      assert PairsOf(es) == {PairOf(es[0])} + PairsOf(es[1..]) by { PairsCons(es); }
      hide MapStep, AloneStep, PairsOf, Held;
      Subsets(m1.Keys + PairsOf(es[1..]), m.Keys + PairsOf(es));
      SessionsDoNotMix(prims, m1, capacity, es[1..], p);
      var more := MapRun(prims, m1, capacity, es[1..]).1;
      assert ([fired] + more)[1..] == more;
      if PairOf(es[0]) == p {
        assert Only(es, p)[1..] == Only(es[1..], p);
        assert OutputsOf(es, [fired] + more, p) == [fired] + OutputsOf(es[1..], more, p);
      } else {
        assert Only(es, p) == Only(es[1..], p);
        assert OutputsOf(es, [fired] + more, p) == OutputsOf(es[1..], more, p);
      }
    }
  }

  lemma PairsCons(es: seq<Element>)
    requires es != []
    ensures PairsOf(es) == {PairOf(es[0])} + PairsOf(es[1..])
  {
    forall q | q in PairsOf(es) ensures q in {PairOf(es[0])} + PairsOf(es[1..]) {
      var i :| 0 <= i < |es| && PairOf(es[i]) == q;
      if i > 0 { assert es[1..][i - 1] == es[i]; }
    }
    forall q | q in PairsOf(es[1..]) ensures q in PairsOf(es) {
      var i :| 0 <= i < |es[1..]| && PairOf(es[1..][i]) == q;
      assert es[i + 1] == es[1..][i];
    }
  }

  // ---- Keys come out right, and do come out -------------------------------------------------------

  /** Whatever verifies is a fragment of `key` at its own index. */
  predicate FromKey(prims: Primitives, key: Key, es: seq<Element>) {
    forall e :: e in es ==>
      var clear := OpenFragment(prims, e.masked, e.seed, e.tag);
      clear.Some? ==> clear.value == FragmentOf(key, e.index)
  }

  predicate PartOf(key: Key, c: Collected) {
    forall i :: i in c ==> i < NO_KEY_FRAGMENTS && c[i] == FragmentOf(key, i)
  }

  lemma CompleteIsKey(key: Key, c: Collected)
    requires PartOf(key, c) && Complete(c)
    ensures JoinOf(c) == key
  {
    JoinSplit(key);
    assert [c[0], c[1], c[2], c[3]] == Split(key);
  }

  /** Every key handed out for a session is that session's key. */
  lemma {:induction false} OnlyTheKeyComesOut(prims: Primitives, key: Key, c: Collected, es: seq<Element>)
    requires PartOf(key, c) && FromKey(prims, key, es)
    ensures PartOf(key, AloneRun(prims, c, es).0)
    ensures forall k :: k in AloneRun(prims, c, es).1 && k.Some? ==> k.value == key
    decreases |es|
  {
    if es != [] {
      assert es[0] in es;
      var c1 := Gather(prims, c, es[0]);
      if Complete(c1) { CompleteIsKey(key, c1); }
      OnlyTheKeyComesOut(prims, key, AloneStep(prims, c, es[0]).0, es[1..]);
    }
  }

  /** The indices a stream brings, verified. */
  function Indices(prims: Primitives, es: seq<Element>): set<nat> {
    set i | 0 <= i < |es| && OpenFragment(prims, es[i].masked, es[i].seed, es[i].tag).Some? :: es[i].index
  }

  /** A key comes out of a stream exactly when what was held before and the verified indices of the
      stream together cover all four fragments; until then the held set only grows. */
  lemma {:induction false} KeyComesOutIff(prims: Primitives, c: Collected, es: seq<Element>)
    requires !Complete(c)
    ensures (exists k :: k in AloneRun(prims, c, es).1 && k.Some?) <==> {0, 1, 2, 3} <= c.Keys + Indices(prims, es)
    decreases |es|
  {
    if es == [] {
      assert Indices(prims, es) == {};
    } else {
      var (c1, fired) := AloneStep(prims, c, es[0]);
      var more := AloneRun(prims, c1, es[1..]).1;
      IndicesCons(prims, es);
      assert AloneRun(prims, c, es).1 == [fired] + more;
      if fired.Some? {
        assert fired in AloneRun(prims, c, es).1;
        assert Gather(prims, c, es[0]).Keys <= c.Keys + Indices(prims, es);
      } else {
        KeyComesOutIff(prims, c1, es[1..]);
        assert c1.Keys + Indices(prims, es[1..]) == c.Keys + Indices(prims, es);
      }
    }
  }

  lemma IndicesCons(prims: Primitives, es: seq<Element>)
    requires es != []
    ensures Indices(prims, es) == Indices(prims, es[1..])
      + (if OpenFragment(prims, es[0].masked, es[0].seed, es[0].tag).Some? then {es[0].index as nat} else {})
  {
    var rest := es[1..];
    hide OpenFragment;
    forall x | x in Indices(prims, es)
      ensures x in Indices(prims, rest)
        + (if OpenFragment(prims, es[0].masked, es[0].seed, es[0].tag).Some? then {es[0].index as nat} else {})
    {
      var i :| 0 <= i < |es| && OpenFragment(prims, es[i].masked, es[i].seed, es[i].tag).Some? && es[i].index == x;
      if i > 0 { assert rest[i - 1] == es[i]; }
    }
    forall x | x in Indices(prims, rest) ensures x in Indices(prims, es) {
      var i :| 0 <= i < |rest| && OpenFragment(prims, rest[i].masked, rest[i].seed, rest[i].tag).Some? && rest[i].index == x;
      assert es[i + 1] == rest[i];
    }
  }

  // ---- Session ids with a zero low byte -------------------------------------------------------------

  /** A step keeps the invariant exactly when the id's low byte is non-zero or no slot is free. */
  lemma StepKeepsInvIff(prims: Primitives, km: seq<Entry>, e: Element)
    requires Inv(km) && e.address != ZERO_ADDRESS
    ensures Inv(Consume(prims, km, e).0) <==> Low(e.keyId) != 0 || FirstFree(km) == |km|
  {
    if Low(e.keyId) != 0 {
      ConsumeRefinesMap(prims, km, e);
    } else {
      var p := PairOf(e);
      ConsumeAt(prims, km, e);
      var i := IndexOf(km, p.address, p.id);
      assert i == |km|;
      var claimed := Claim(km, p);
      var f := FirstFree(km);
      if f < |km| {
        var entry := BLANK.(address := e.address);
        assert claimed == km[f := entry];
        assert claimed[f].id == 0 && claimed[f].address == p.address;
        var k := IndexOf(claimed, p.address, p.id);
        assert k == f;
        var after := Offered(prims, entry, e);
        assert Consume(prims, km, e).0 == claimed[f := after];
        assert claimed[f := after][f] != BLANK;
      }
    }
  }

  predicate Verifies(prims: Primitives, e: Element, fragment: Fragment) {
    OpenFragment(prims, e.masked, e.seed, e.tag) == Some(fragment)
  }

  /** The counter counts flags, and if the entry counts as free none is set. */
  predicate NoStray(entry: Entry) {
    entry.collected == FlagCount(entry.flags) && (entry.id == 0 ==> entry.flags == NO_FLAGS)
  }

  predicate NoStrays(km: seq<Entry>) {
    forall i :: 0 <= i < |km| ==> NoStray(km[i])
  }

  /** Exactly when a step leaves a fragment behind in an entry that counts as free: the id's low byte is
      zero, the fragment verifies, and some entry is free. */
  lemma StepLeavesStrayIff(prims: Primitives, km: seq<Entry>, e: Element)
    requires NoStrays(km)
    ensures NoStrays(Consume(prims, km, e).0) <==>
      Low(e.keyId) != 0 || OpenFragment(prims, e.masked, e.seed, e.tag).None? || FirstFree(km) == |km|
  {
    var p := PairOf(e);
    ConsumeAt(prims, km, e);
    var claimed := Claim(km, p);
    var i := IndexOf(claimed, p.address, p.id);
    ClaimKeepsNoStrays(km, p);
    hide NoStrays, NoStray, Claim;
    if i < |km| {
      StrayInEntry(prims, claimed[i], e);
      hide Consume, Offered, IndexOf;
      NoStraysWrite(claimed, i, Offered(prims, claimed[i], e));
      NoStraysWrite(claimed, i, BLANK);
    }
  }

  lemma NoStraysWrite(km: seq<Entry>, i: nat, entry: Entry)
    requires NoStrays(km) && i < |km|
    ensures NoStrays(km[i := entry]) <==> NoStray(entry)
    ensures NoStray(km[i]) && NoStray(BLANK)
  {
    assert NoStray(BLANK);
    hide FlagCount;
    if NoStrays(km[i := entry]) { assert NoStray(km[i := entry][i]); }
  }

  lemma ClaimKeepsNoStrays(km: seq<Entry>, p: Pair)
    requires NoStrays(km)
    ensures var claimed := Claim(km, p);
      var i := IndexOf(claimed, p.address, p.id);
      && NoStrays(claimed)
      && (i < |km| ==> NoStray(claimed[i]))
      && (FirstFree(km) < |km| ==> i < |km|)
      && (p.id == 0 && i < |km| ==> FirstFree(km) < |km|)
  {
    var free := FirstFree(km);
    if IndexOf(km, p.address, p.id) == |km| && free < |km| {
      assert Claim(km, p)[free] == km[free].(id := p.id, address := p.address);
    }
    hide FlagCount;
  }

  lemma StrayInEntry(prims: Primitives, entry: Entry, e: Element)
    requires NoStray(entry)
    ensures var after := Offered(prims, entry, e);
      NoStray(after) <==> entry.id != 0 || OpenFragment(prims, e.masked, e.seed, e.tag).None?
    ensures entry.id == 0 ==> Offered(prims, entry, e).collected < NO_KEY_FRAGMENTS
  {
    hide OpenFragment;
    assert e.index == 0 || e.index == 1 || e.index == 2 || e.index == 3;
  }

  predicate AllBlank(km: seq<Entry>) {
    forall i :: 0 <= i < |km| ==> km[i] == BLANK
  }

  /** With blanks behind it, the first entry takes what is for its own pair, or anything if it is free. */
  lemma ConsumeFirst(prims: Primitives, entry: Entry, blanks: seq<Entry>, e: Element, fragment: Fragment)
    requires AllBlank(blanks) && e.address != ZERO_ADDRESS
    requires (entry.id == 0 && Low(e.keyId) != 0) || entry == BLANK || (entry.id, entry.address) == (Low(e.keyId), e.address)
    requires Verifies(prims, e, fragment) && !entry.flags[e.index]
    ensures var after := entry.(id := Low(e.keyId), address := e.address, collected := entry.collected + 1,
                               flags := entry.flags[e.index := true], fragments := entry.fragments[e.index := fragment]);
      Consume(prims, [entry] + blanks, e) ==
        if after.collected == NO_KEY_FRAGMENTS then ([BLANK] + blanks, Some(Join(after.fragments)))
        else ([after] + blanks, None)
  {
    var km, p := [entry] + blanks, PairOf(e);
    ConsumeAt(prims, km, e);
    var c := entry.(id := Low(e.keyId), address := e.address);
    assert forall j :: 0 < j < |km| ==> km[j] == blanks[j - 1];
    assert FirstFree(km) == 0 || entry.id != 0;
    assert Claim(km, p) == [c] + blanks;
    assert IndexOf([c] + blanks, p.address, p.id) == 0;
    assert forall after: Entry :: ([c] + blanks)[0 := after] == [after] + blanks;
  }

  /** Four fragments, one for each index, into a collection with nothing in it, of any size: the fourth
      one completes the key of what came, and nothing is left. The first may be for the same pair as
      the others, or for low byte zero. */
  lemma FourIntoBlank(prims: Primitives, blanks: seq<Entry>, es: seq<Element>, fragments: seq<Fragment>)
    requires AllBlank(blanks) && blanks != [] && |es| == |fragments| == 4
    requires forall i :: 0 <= i < 4 ==> es[i].index == i && Verifies(prims, es[i], fragments[i]) && es[i].address != ZERO_ADDRESS
    requires PairOf(es[1]) == PairOf(es[2]) == PairOf(es[3]) && PairOf(es[1]).id != 0
    requires Low(es[0].keyId) == 0 || PairOf(es[0]) == PairOf(es[1])
    ensures ConsumeAll(prims, blanks, es) == (blanks, [None, None, None, Some(Join(fragments))])
  {
    hide Consume, Verifies;
    var rest := blanks[1..];
    assert blanks == [BLANK] + rest;
    ConsumeFirst(prims, BLANK, rest, es[0], fragments[0]);
    var s0 := Consume(prims, blanks, es[0]).0;
    ConsumeFirst(prims, s0[0], rest, es[1], fragments[1]);
    var s1 := Consume(prims, s0, es[1]).0;
    ConsumeFirst(prims, s1[0], rest, es[2], fragments[2]);
    var s2 := Consume(prims, s1, es[2]).0;
    ConsumeFirst(prims, s2[0], rest, es[3], fragments[3]);
    assert NO_FLAGS[0 := true][1 := true][2 := true][3 := true] == [true, true, true, true];
    assert NO_FRAGMENTS[0 := fragments[0]][1 := fragments[1]][2 := fragments[2]][3 := fragments[3]] == fragments;
    assert Consume(prims, s2, es[3]) == (blanks, Some(Join(fragments)));
    hide ConsumeAll;
    Four(es[0], es[1], es[2], es[3]);
    Four<Option<Key>>(None, None, None, Some(Join(fragments)));
    assert es == [es[0], es[1], es[2], es[3]];
    ConsumeAllCons(prims, blanks, es[0], [es[1], es[2], es[3]]);
    ConsumeAllCons(prims, s0, es[1], [es[2], es[3]]);
    ConsumeAllCons(prims, s1, es[2], [es[3]]);
    ConsumeAllCons(prims, s2, es[3], []);
  }

  lemma Four<T>(a: T, b: T, c: T, d: T)
    ensures [a] + [b, c, d] == [a, b, c, d] && [b] + [c, d] == [b, c, d] && [c] + [d] == [c, d] && [d] + [] == [d]
  {}

  lemma ConsumeAllCons(prims: Primitives, km: seq<Entry>, e: Element, es: seq<Element>)
    ensures ConsumeAll(prims, km, []) == (km, [])
    ensures var (after, fired) := Consume(prims, km, e);
      var (last, more) := ConsumeAll(prims, after, es);
      ConsumeAll(prims, km, [e] + es) == (last, [fired] + more)
  {
    hide Consume;
    assert ([e] + es)[1..] == es;
  }

  lemma {:induction false} ConsumeAllConcat(prims: Primitives, km: seq<Entry>, es: seq<Element>, more: seq<Element>)
    ensures var (mid, fired) := ConsumeAll(prims, km, es);
      var (last, fired2) := ConsumeAll(prims, mid, more);
      ConsumeAll(prims, km, es + more) == (last, fired + fired2)
    decreases |es|
  {
    hide Consume;
    if es == [] {
      assert es + more == more && [] + ConsumeAll(prims, km, more).1 == ConsumeAll(prims, km, more).1;
    } else {
      assert (es + more)[1..] == es[1..] + more;
      var (next, one) := Consume(prims, km, es[0]);
      ConsumeAllConcat(prims, next, es[1..], more);
      var (mid, fired) := ConsumeAll(prims, next, es[1..]);
      assert [one] + (fired + ConsumeAll(prims, mid, more).1) == ([one] + fired) + ConsumeAll(prims, mid, more).1;
    }
  }
}
