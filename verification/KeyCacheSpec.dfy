/** The session key cache of one sender as a value: slots, the "last used" hint, and what each
    operation does to them. The second half relates it to a bounded map with last-use times. */
module KeyCacheSpec {
  import opened Bytes
  import opened Crypto
  import opened Options
  import opened TickStamp

  /** Id 0 marks a free slot. */
  datatype Slot = Slot(id: byte, key: Key, stamp: Stamp)

  datatype Cache = Cache(slots: seq<Slot>, hintId: int, hintIndex: int)

  const NO_HINT := -1

  function FreshCache(size: nat): Cache {
    Cache(seq(size, _ => Slot(0, BLANK_KEY, FRESH)), NO_HINT, NO_HINT)
  }

  /** The hint never points outside the slots. */
  predicate InBounds(c: Cache) {
    NO_HINT <= c.hintIndex < |c.slots|
  }

  /** First slot carrying `id`, or the number of slots. */
  function First(slots: seq<Slot>, id: byte): (i: nat)
    ensures i <= |slots|
    ensures i < |slots| ==> slots[i].id == id
    ensures forall j :: 0 <= j < i ==> slots[j].id != id
  {
    if slots == [] then 0
    else if slots[0].id == id then 0
    else 1 + First(slots[1..], id)
  }

  /** Whether the scan of an add meets `id` in a slot other than the first free one. */
  predicate Meets(slots: seq<Slot>, id: byte) {
    exists i :: 0 <= i < |slots| && i != First(slots, 0) && slots[i].id == id
  }

  function AddKey(c: Cache, key: Key, id: byte, now: nat): (r: (Cache, int))
    ensures |r.0.slots| == |c.slots| && (InBounds(c) ==> InBounds(r.0))
  {
    var free := First(c.slots, 0);
    if free == |c.slots| then (c, -1)
    else if Meets(c.slots, id) then (c, 0)
    else
      var slots := c.slots[free := Slot(id, key, Save(c.slots[free].stamp, now))];
      if c.hintId == NO_HINT && c.hintIndex == NO_HINT then (Cache(slots, id, free), 0)
      else (Cache(slots, c.hintId, c.hintIndex), 0)
  }

  predicate HintHits(c: Cache, id: byte) {
    id == c.hintId && c.hintIndex >= 0
  }

  /** The slot a lookup ends at: the hinted one when the hint is for `id`, else the first match. */
  function Target(c: Cache, id: byte): (i: nat)
    requires InBounds(c)
    ensures i <= |c.slots|
  {
    if HintHits(c, id) then c.hintIndex else First(c.slots, id)
  }

  function Lookup(c: Cache, id: byte): Option<Key>
    requires InBounds(c)
  {
    var i := Target(c, id);
    if i < |c.slots| then Some(c.slots[i].key) else None
  }

  /** A hit stamps its slot and moves the hint there. */
  function Touch(c: Cache, id: byte, now: nat): (d: Cache)
    requires InBounds(c)
    ensures |d.slots| == |c.slots| && InBounds(d)
  {
    var i := Target(c, id);
    if i < |c.slots| then
      Cache(c.slots[i := c.slots[i].(stamp := Save(c.slots[i].stamp, now))], id, i)
    else c
  }

  predicate IsKeyIn(c: Cache, id: byte) {
    HintHits(c, id) || First(c.slots, id) < |c.slots|
  }

  /** Frees slot `i`; its stamp survives. */
  function RemoveAt(c: Cache, i: nat): (d: Cache)
    requires i < |c.slots|
    ensures |d.slots| == |c.slots| && (InBounds(c) ==> InBounds(d))
  {
    var slots := c.slots[i := Slot(0, BLANK_KEY, c.slots[i].stamp)];
    if c.slots[i].id == c.hintId then Cache(slots, NO_HINT, NO_HINT)
    else Cache(slots, c.hintId, c.hintIndex)
  }

  function RemoveKey(c: Cache, id: byte): Cache {
    var i := First(c.slots, id);
    if i < |c.slots| then RemoveAt(c, i) else c
  }

  /** Index of the live slot among the first `n` with the smallest combined stamp, the first such
      on ties, or -1. */
  function Oldest(slots: seq<Slot>, n: nat): (r: int)
    requires n <= |slots|
    ensures -1 <= r < n
    ensures r < 0 ==> forall j :: 0 <= j < n ==> slots[j].id == 0
    ensures r >= 0 ==> slots[r].id != 0
    ensures r >= 0 ==> forall j :: 0 <= j < n && slots[j].id != 0 ==>
      Combined(slots[r].stamp) <= Combined(slots[j].stamp)
    ensures r >= 0 ==> forall j :: 0 <= j < r && slots[j].id != 0 ==>
      Combined(slots[r].stamp) < Combined(slots[j].stamp)
  {
    if n == 0 then -1
    else
      var p := Oldest(slots, n - 1);
      if slots[n - 1].id != 0 && (p < 0 || Combined(slots[n - 1].stamp) < Combined(slots[p].stamp)) then n - 1 else p
  }

  function EvictLru(c: Cache): (Cache, int) {
    var i := Oldest(c.slots, |c.slots|);
    if i >= 0 then (RemoveAt(c, i), i) else (c, -1)
  }

  /** Frees the slots below `n`. */
  function ClearTo(c: Cache, n: nat): (r: Cache)
    requires n <= |c.slots|
    ensures |r.slots| == |c.slots| && (InBounds(c) ==> InBounds(r))
  {
    if n == 0 then c else RemoveAt(ClearTo(c, n - 1), n - 1)
  }

  // ---- The bounded map the cache stands for ---------------------------------------------------

  datatype Use = Use(key: Key, last: nat)

  predicate Unique(slots: seq<Slot>) {
    forall i, j :: 0 <= i < j < |slots| && slots[i].id != 0 ==> slots[i].id != slots[j].id
  }

  /** The invariant of every operation with any id: ids are unique, stamps are in range, and a hint
      for a non-zero id names the id its slot holds. A hint for id 0 may be out of date. */
  predicate Ok(c: Cache) {
    && InBounds(c)
    && Unique(c.slots)
    && (forall i :: 0 <= i < |c.slots| ==> Wellformed(c.slots[i].stamp))
    && (if c.hintIndex == NO_HINT then c.hintId == NO_HINT
        else c.hintId >= 0 && (c.hintId > 0 ==> c.slots[c.hintIndex].id == c.hintId))
  }

  function Ids(slots: seq<Slot>): set<byte> {
    set i | 0 <= i < |slots| && slots[i].id != 0 :: slots[i].id
  }

  function View(c: Cache): map<byte, Use> {
    map id | id in Ids(c.slots) :: var s := c.slots[First(c.slots, id)]; Use(s.key, Combined(s.stamp))
  }

  function ViewKey(c: Cache, id: byte): Option<Key> {
    if id in View(c) then Some(View(c)[id].key) else None
  }

  datatype CacheOp = Add(key: Key, id: byte) | Get(id: byte) | Remove(id: byte) | Evict | Clear

  datatype CacheOut = Status(status: int) | Found(key: Option<Key>) | Index(index: int) | Done

  function Apply(c: Cache, op: CacheOp, now: nat): (Cache, CacheOut)
    requires InBounds(c)
  {
    match op
    case Add(key, id) => var (d, status) := AddKey(c, key, id, now); (d, Status(status))
    case Get(id) => (Touch(c, id, now), Found(Lookup(c, id)))
    case Remove(id) => (RemoveKey(c, id), Done)
    case Evict => var (d, index) := EvictLru(c); (d, Index(index))
    case Clear => (ClearTo(c, |c.slots|), Done)
  }

  /** One step of a map of at most `capacity` entries that remembers when each was last used. The
      eviction victim is any entry used no later than every other. */
  predicate MapStep(m: map<byte, Use>, capacity: nat, op: CacheOp, now: nat, m': map<byte, Use>, out: CacheOut) {
    match op
    case Add(key, id) =>
      if |m| == capacity then m' == m && out == Status(-1)
      else if id in m then m' == m && out == Status(0)
      else m' == m[id := Use(key, now)] && out == Status(0)
    case Get(id) =>
      if id in m then m' == m[id := Use(m[id].key, now)] && out == Found(Some(m[id].key))
      else m' == m && out == Found(None)
    case Remove(id) => m' == m - {id} && out == Done
    case Evict =>
      && out.Index?
      && (m == map[] ==> m' == m && out.index == -1)
      && (m != map[] ==>
            exists victim ::
              && victim in m
              && (forall other :: other in m ==> m[victim].last <= m[other].last)
              && m' == m - {victim})
    case Clear => m' == map[] && out == Done
  }

  predicate NonZeroId(op: CacheOp) {
    (op.Add? || op.Get? || op.Remove?) ==> op.id != 0
  }

  lemma FirstIs(slots: seq<Slot>, i: nat)
    requires Unique(slots) && i < |slots| && slots[i].id != 0
    ensures First(slots, slots[i].id) == i
  {}

  lemma ViewAt(c: Cache, i: nat)
    requires Unique(c.slots) && i < |c.slots| && c.slots[i].id != 0
    ensures c.slots[i].id in View(c)
    ensures View(c)[c.slots[i].id] == Use(c.slots[i].key, Combined(c.slots[i].stamp))
  {
    FirstIs(c.slots, i);
  }

  /** Writing slot `i` moves only the old and the new id of that slot. */
  lemma FirstUpdate(slots: seq<Slot>, i: nat, s: Slot, id: byte)
    requires i < |slots| && Unique(slots) && Unique(slots[i := s]) && id != 0
    ensures First(slots[i := s], id) ==
      if s.id == id then i else if slots[i].id == id then |slots| else First(slots, id)
  {
    var slots' := slots[i := s];
    var k, k' := First(slots, id), First(slots', id);
    if s.id == id {
      assert slots'[i].id == id;
    } else if slots[i].id == id {
      assert k == i by { FirstIs(slots, i); }
    } else {
      assert k < |slots| ==> slots'[k].id == id;
      assert k' < |slots| ==> slots[k'].id == id;
    }
  }

  ghost predicate DiffersAt(c: Cache, d: Cache, i: nat) {
    && i < |c.slots| == |d.slots|
    && d.slots == c.slots[i := d.slots[i]]
    && Unique(c.slots) && Unique(d.slots)
  }

  function Updated(m: map<byte, Use>, before: byte, s: Slot): map<byte, Use> {
    if s.id != 0 then (m - {before})[s.id := Use(s.key, Combined(s.stamp))] else m - {before}
  }

  lemma ViewUpdateAt(c: Cache, d: Cache, i: nat, id: byte)
    requires DiffersAt(c, d, i)
    ensures var want := Updated(View(c), c.slots[i].id, d.slots[i]);
      && (id in View(d) <==> id in want)
      && (id in View(d) ==> View(d)[id] == want[id])
  {
    InView(c, id);
    InView(d, id);
    hide View;
    if id != 0 {
      FirstUpdate(c.slots, i, d.slots[i], id);
      if c.slots[i].id == id { FirstIs(c.slots, i); }
      var k := First(d.slots, id);
      assert k < |d.slots| && k != i ==> d.slots[k] == c.slots[k];
    }
  }

  /** The view of a cache `d` that differs from `c` in slot `i` at most. */
  lemma ViewUpdate(c: Cache, d: Cache, i: nat)
    requires DiffersAt(c, d, i)
    ensures View(d) == Updated(View(c), c.slots[i].id, d.slots[i])
  {
    var want := Updated(View(c), c.slots[i].id, d.slots[i]);
    forall id: byte
      ensures id in View(d) <==> id in want
      ensures id in View(d) ==> View(d)[id] == want[id]
    {
      ViewUpdateAt(c, d, i, id);
    }
  }

  lemma InView(c: Cache, id: byte)
    ensures id in View(c) <==> id != 0 && First(c.slots, id) < |c.slots|
    ensures id in View(c) ==>
      var s := c.slots[First(c.slots, id)]; View(c)[id] == Use(s.key, Combined(s.stamp))
  {
    if id != 0 && First(c.slots, id) < |c.slots| {
      assert c.slots[First(c.slots, id)].id in Ids(c.slots);
    }
  }

  lemma {:induction false} IdsCount(slots: seq<Slot>)
    requires Unique(slots)
    ensures |Ids(slots)| <= |slots|
    ensures |Ids(slots)| == |slots| <==> First(slots, 0) == |slots|
  {
    if slots != [] {
      var rest := slots[1..];
      IdsCount(rest);
      IdsCons(slots);
      hide Ids;
      assert slots[0].id != 0 ==> slots[0].id !in Ids(rest);
    } else {
      assert Ids(slots) == {};
    }
  }

  lemma IdsCons(slots: seq<Slot>)
    requires slots != [] && Unique(slots)
    ensures Ids(slots) == Ids(slots[1..]) + (if slots[0].id != 0 then {slots[0].id} else {})
    ensures slots[0].id != 0 ==> slots[0].id !in Ids(slots[1..])
  {
    var rest := slots[1..];
    assert slots == [slots[0]] + rest;
    forall id | id in Ids(slots)
      ensures id in Ids(rest) + (if slots[0].id != 0 then {slots[0].id} else {})
    {
      var k :| 0 <= k < |slots| && slots[k].id != 0 && slots[k].id == id;
      if k > 0 { assert rest[k - 1] == slots[k]; }
    }
  }

  lemma ViewSize(c: Cache)
    requires Unique(c.slots)
    ensures |View(c)| <= |c.slots|
    ensures |View(c)| == |c.slots| <==> First(c.slots, 0) == |c.slots|
  {
    IdsCount(c.slots);
    assert View(c).Keys == Ids(c.slots);
  }

  /** Through the hint or by scanning, a lookup answers what the map holds exactly for non-zero
      ids, and for id 0 as long as no slot is free and the hint is not on 0. */
  lemma LookupIsMapLookup(c: Cache, id: byte)
    requires Ok(c)
    ensures Lookup(c, id) == ViewKey(c, id) <==> id != 0 || (First(c.slots, 0) == |c.slots| && !HintHits(c, 0))
    ensures id != 0 ==> (IsKeyIn(c, id) <==> id in View(c))
    ensures IsKeyIn(c, id) <==> Lookup(c, id).Some?
  {
    if c.hintId > 0 { FirstIs(c.slots, c.hintIndex); }
    if First(c.slots, id) < |c.slots| && id != 0 { ViewAt(c, First(c.slots, id)); }
  }

  // ---- Id zero -----------------------------------------------------------------------------------

  /** Free slots hold nothing. */
  predicate FreeSlotsBlank(c: Cache) {
    forall i :: 0 <= i < |c.slots| && c.slots[i].id == 0 ==> c.slots[i].key == BLANK_KEY
  }

  /** Only storing a key under id 0 can leave a key in a slot that counts as free. */
  lemma FreeSlotsStayBlank(c: Cache, op: CacheOp, now: nat)
    requires Ok(c) && FreeSlotsBlank(c) && (op.Add? ==> op.id != 0)
    ensures FreeSlotsBlank(Apply(c, op, now).0)
  {
    match op
    case Add(_, _) => hide RemoveAt, Oldest, ClearTo;
    case Get(_) => hide RemoveAt, Oldest, ClearTo, Meets;
    case Remove(_) => hide Oldest, ClearTo, Meets;
    case Evict => hide ClearTo, Meets;
    case Clear => ClearedSlotsBlank(c, |c.slots|);
  }

  lemma {:induction false} ClearedSlotsBlank(c: Cache, n: nat)
    requires FreeSlotsBlank(c) && n <= |c.slots|
    ensures FreeSlotsBlank(ClearTo(c, n))
  {
    if n > 0 { ClearedSlotsBlank(c, n - 1); }
  }

  /** Where a lookup of id 0 ends: at the hinted slot, whatever that holds by now, if the last hit was
      for id 0 too, else at the first free slot, else nowhere. */
  lemma ZeroLookup(c: Cache)
    requires Ok(c) && FreeSlotsBlank(c)
    ensures Lookup(c, 0) ==
      if HintHits(c, 0) then Some(c.slots[c.hintIndex].key)
      else if First(c.slots, 0) < |c.slots| then Some(BLANK_KEY) else None
  {}

  /** Every operation keeps the invariant, id 0 included. */
  lemma OpKeepsOk(c: Cache, op: CacheOp, now: nat)
    requires Ok(c)
    ensures Ok(Apply(c, op, now).0) && |Apply(c, op, now).0.slots| == |c.slots|
  {
    match op
    case Add(key, id) => AddOk(c, key, id, now);
    case Get(id) => TouchOk(c, id, now);
    case Remove(id) => if First(c.slots, id) < |c.slots| { RemoveAtView(c, First(c.slots, id)); }
    case Evict => EvictRefines(c, now);
    case Clear => ClearRefines(c);
  }

  // ---- Lookups one after another ---------------------------------------------------------------

  /** The answer of a lookup that pays no attention to the hint. */
  function ByScan(c: Cache, id: byte): Option<Key> {
    var i := First(c.slots, id);
    if i < |c.slots| then Some(c.slots[i].key) else None
  }

  /** Looking up `ids` takes the hint off id 0: one of them is another id that is found. */
  predicate Displaces(c: Cache, ids: set<byte>)
    requires InBounds(c)
  {
    exists id :: id in ids && id != 0 && Lookup(c, id).Some?
  }

  /** What a lookup of `id` answers once `ids` have been looked up. */
  function AnswerAfter(c: Cache, ids: set<byte>, id: byte): Option<Key>
    requires InBounds(c)
  {
    if id == 0 && Displaces(c, ids) then ByScan(c, 0) else Lookup(c, id)
  }

  /** `d` answers as `c` does once `ids` have been looked up, and goes on doing so. */
  ghost predicate Follows(c: Cache, ids: set<byte>, d: Cache)
    requires InBounds(c) && InBounds(d)
  {
    forall more: set<byte>, id: byte :: AnswerAfter(d, more, id) == AnswerAfter(c, ids + more, id)
  }

  lemma TouchedAnswers(c: Cache, id: byte, now: nat)
    requires Ok(c)
    ensures var d := Touch(c, id, now);
      && Ok(d) && ByScan(d, 0) == ByScan(c, 0)
      && (forall x: byte :: x != 0 ==> Lookup(d, x) == Lookup(c, x))
      && Lookup(d, 0) == if id != 0 && Lookup(c, id).Some? then ByScan(c, 0) else Lookup(c, 0)
  {
    TouchOk(c, id, now);
    var d := Touch(c, id, now);
    FirstSameIds(c.slots, d.slots, 0);
    forall x: byte | x != 0
      ensures Lookup(d, x) == Lookup(c, x)
    {
      FirstSameIds(c.slots, d.slots, x);
      if c.hintId > 0 { FirstIs(c.slots, c.hintIndex); }
      if d.hintId > 0 { FirstIs(d.slots, d.hintIndex); }
    }
  }

  lemma TouchFollows(c: Cache, id: byte, now: nat)
    requires Ok(c)
    ensures Ok(Touch(c, id, now)) && Follows(c, {id}, Touch(c, id, now))
  {
    TouchedAnswers(c, id, now);
    var d := Touch(c, id, now);
    hide Touch, Lookup, ByScan, Ok;
    forall more: set<byte>, x: byte
      ensures AnswerAfter(d, more, x) == AnswerAfter(c, {id} + more, x)
    {
      DisplacesMore(c, d, id, more);
    }
  }

  lemma DisplacesMore(c: Cache, d: Cache, id: byte, more: set<byte>)
    requires InBounds(c) && InBounds(d) && forall x: byte :: x != 0 ==> Lookup(d, x) == Lookup(c, x)
    ensures Displaces(c, {id} + more) <==> (id != 0 && Lookup(c, id).Some?) || Displaces(d, more)
  {
    hide Lookup;
    if Displaces(d, more) {
      var x :| x in more && x != 0 && Lookup(d, x).Some?;
      assert x in {id} + more && Lookup(c, x).Some?;
    }
    if id != 0 && Lookup(c, id).Some? { assert id in {id} + more; }
    if Displaces(c, {id} + more) {
      var x :| x in {id} + more && x != 0 && Lookup(c, x).Some?;
      assert x != id ==> x in more && Lookup(d, x).Some?;
    }
  }

  lemma FollowsChain(c: Cache, ids: set<byte>, d: Cache, more: set<byte>, e: Cache)
    requires InBounds(c) && InBounds(d) && InBounds(e) && Follows(c, ids, d) && Follows(d, more, e)
    ensures Follows(c, ids + more, e)
  {
    forall rest: set<byte>, id: byte
      ensures AnswerAfter(e, rest, id) == AnswerAfter(c, ids + more + rest, id)
    {
      assert ids + (more + rest) == ids + more + rest;
      assert AnswerAfter(e, rest, id) == AnswerAfter(d, more + rest, id) == AnswerAfter(c, ids + (more + rest), id);
    }
  }

  /** Further lookups turn no miss into a hit. */
  lemma MissesStay(c: Cache, ids: set<byte>, more: set<byte>, id: byte)
    requires InBounds(c) && AnswerAfter(c, ids, id).None? && ids <= more
    ensures AnswerAfter(c, more, id).None?
  {
    if id == 0 && Displaces(c, ids) {
      var x :| x in ids && x != 0 && Lookup(c, x).Some?;
      assert x in more;
    }
  }

  lemma FollowsNothing(c: Cache)
    requires InBounds(c)
    ensures Follows(c, {}, c)
  {
    forall more: set<byte>, id: byte ensures AnswerAfter(c, more, id) == AnswerAfter(c, {} + more, id) {
      assert {} + more == more;
    }
  }

  lemma FollowsNow(c: Cache, ids: set<byte>, d: Cache, id: byte)
    requires InBounds(c) && InBounds(d) && Follows(c, ids, d)
    ensures Lookup(d, id) == AnswerAfter(c, ids, id)
  {
    assert ids + {} == ids;
    assert AnswerAfter(d, {}, id) == AnswerAfter(c, ids + {}, id);
  }

  function Asked(ids: seq<byte>): set<byte> {
    set id | id in ids
  }

  function TouchAll(c: Cache, ids: seq<byte>, now: nat): (d: Cache)
    requires InBounds(c)
    ensures InBounds(d)
    decreases |ids|
  {
    if ids == [] then c else TouchAll(Touch(c, ids[0], now), ids[1..], now)
  }

  /** What was looked up before matters to id 0 alone, and to it only by whether another id was found. */
  lemma {:induction false} LookupsInARow(c: Cache, ids: seq<byte>, now: nat)
    requires Ok(c)
    ensures Ok(TouchAll(c, ids, now)) && Follows(c, Asked(ids), TouchAll(c, ids, now))
    ensures forall id :: Lookup(TouchAll(c, ids, now), id) == AnswerAfter(c, Asked(ids), id)
    decreases |ids|
  {
    var asked, d := Asked(ids), TouchAll(c, ids, now);
    if ids == [] {
      assert asked == {};
      FollowsNothing(c);
    } else {
      TouchFollows(c, ids[0], now);
      var first := Touch(c, ids[0], now);
      hide Touch, Lookup, Ok, AnswerAfter;
      LookupsInARow(first, ids[1..], now);
      FollowsChain(c, {ids[0]}, first, Asked(ids[1..]), d);
      assert asked == {ids[0]} + Asked(ids[1..]);
    }
    forall id ensures Lookup(d, id) == AnswerAfter(c, asked, id) { FollowsNow(c, asked, d, id); }
  }

  /** A lookup never turns a miss into a hit. */
  lemma TouchKeepsMisses(c: Cache, id: byte, now: nat, x: byte)
    requires InBounds(c) && Lookup(c, x).None?
    ensures Lookup(Touch(c, id, now), x).None?
  {
    FirstSameIds(c.slots, Touch(c, id, now).slots, x);
  }

  lemma {:induction false} FirstSameIds(slots: seq<Slot>, slots': seq<Slot>, id: byte)
    requires |slots| == |slots'| && forall i :: 0 <= i < |slots| ==> slots[i].id == slots'[i].id
    ensures First(slots, id) == First(slots', id)
  {
    var k, k' := First(slots, id), First(slots', id);
    assert k < |slots| ==> slots'[k].id == id;
    assert k' < |slots| ==> slots[k'].id == id;
  }

  // ---- Refinement ------------------------------------------------------------------------------

  /** The combined stamp an operation writes, when it writes one. */
  function StampWritten(c: Cache, op: CacheOp, now: nat): nat
    requires InBounds(c)
  {
    var i := StampedSlot(c, op);
    if i < |c.slots| then Combined(Save(c.slots[i].stamp, now)) else 0
  }

  function StampedSlot(c: Cache, op: CacheOp): (i: nat)
    requires InBounds(c)
    ensures i <= |c.slots|
  {
    match op
    case Add(_, id) => if Meets(c.slots, id) then |c.slots| else First(c.slots, 0)
    case Get(id) => Target(c, id)
    case _ => |c.slots|
  }

  /** Writing a slot keeps ids unique if the new id is free, unchanged or new. */
  lemma UniqueUpdate(slots: seq<Slot>, i: nat, s: Slot)
    requires Unique(slots) && i < |slots|
    requires s.id == 0 || s.id == slots[i].id || First(slots, s.id) == |slots|
    ensures Unique(slots[i := s])
  {}

  lemma AddOk(c: Cache, key: Key, id: byte, now: nat)
    requires Ok(c)
    ensures Ok(AddKey(c, key, id, now).0) && |AddKey(c, key, id, now).0.slots| == |c.slots|
  {
    var d := AddKey(c, key, id, now).0;
    var free := First(c.slots, 0);
    if d != c {
      var k := First(c.slots, id);
      assert id != 0 && k < |c.slots| ==> k != free && Meets(c.slots, id);
      UniqueUpdate(c.slots, free, d.slots[free]);
    }
  }

  lemma MeetsIsView(c: Cache, id: byte)
    requires Ok(c) && id != 0
    ensures Meets(c.slots, id) <==> id in View(c)
  {
    InView(c, id);
    var k := First(c.slots, id);
    if k < |c.slots| { assert k != First(c.slots, 0); }
  }

  lemma UpdatedIsInsert(m: map<byte, Use>, before: byte, s: Slot)
    requires s.id != 0 && (before == s.id || before !in m)
    ensures Updated(m, before, s) == m[s.id := Use(s.key, Combined(s.stamp))]
  {}

  lemma AddRefines(c: Cache, key: Key, id: byte, now: nat)
    requires Ok(c) && id != 0
    ensures var op := Add(key, id);
      var (d, status) := AddKey(c, key, id, now);
      MapStep(View(c), |c.slots|, op, StampWritten(c, op, now), View(d), Status(status))
  {
    var (d, status) := AddKey(c, key, id, now);
    ViewSize(c);
    MeetsIsView(c, id);
    var free := First(c.slots, 0);
    if free < |c.slots| && id !in View(c) {
      AddOk(c, key, id, now);
      ViewUpdate(c, d, free);
      InView(c, 0);
      UpdatedIsInsert(View(c), 0, d.slots[free]);
    }
  }

  lemma TouchOk(c: Cache, id: byte, now: nat)
    requires Ok(c)
    ensures Ok(Touch(c, id, now)) && |Touch(c, id, now).slots| == |c.slots|
  {
    var i := Target(c, id);
    if i < |c.slots| {
      UniqueUpdate(c.slots, i, Touch(c, id, now).slots[i]);
    }
  }

  lemma GetRefines(c: Cache, id: byte, now: nat)
    requires Ok(c) && id != 0
    ensures var op := Get(id);
      var d := Touch(c, id, now);
      MapStep(View(c), |c.slots|, op, StampWritten(c, op, now), View(d), Found(Lookup(c, id)))
  {
    LookupIsMapLookup(c, id);
    InView(c, id);
    var d := Touch(c, id, now);
    if id in View(c) {
      var i := Target(c, id);
      if HintHits(c, id) { FirstIs(c.slots, i); }
      TouchOk(c, id, now);
      ViewUpdate(c, d, i);
      UpdatedIsInsert(View(c), id, d.slots[i]);
    }
  }

  lemma RemoveAtView(c: Cache, i: nat)
    requires Ok(c) && i < |c.slots|
    ensures var d := RemoveAt(c, i);
      Ok(d) && |d.slots| == |c.slots| && View(d) == View(c) - {c.slots[i].id}
  {
    var d := RemoveAt(c, i);
    assert Unique(d.slots);
    if c.hintId > 0 { FirstIs(c.slots, c.hintIndex); }
    ViewUpdate(c, d, i);
  }

  lemma RemoveRefines(c: Cache, id: byte)
    requires Ok(c) && id != 0
    ensures var d := RemoveKey(c, id);
      Ok(d) && |d.slots| == |c.slots| && View(d) == View(c) - {id}
  {
    InView(c, id);
    if First(c.slots, id) < |c.slots| {
      RemoveAtView(c, First(c.slots, id));
    } else {
      assert View(c) - {id} == View(c);
    }
  }

  /** Eviction takes the entry with the smallest combined stamp. */
  lemma EvictsOldest(c: Cache)
    requires Ok(c)
    ensures var index := Oldest(c.slots, |c.slots|);
      && (index < 0 <==> View(c) == map[])
      && (index >= 0 ==>
            var victim := c.slots[index].id;
            && victim in View(c)
            && forall other :: other in View(c) ==> View(c)[victim].last <= View(c)[other].last)
  {
    var index := Oldest(c.slots, |c.slots|);
    if index >= 0 {
      ViewAt(c, index);
      forall other | other in View(c)
        ensures View(c)[c.slots[index].id].last <= View(c)[other].last
      {
        InView(c, other);
      }
    } else {
      forall id: byte ensures id !in View(c) { InView(c, id); }
    }
  }

  lemma EvictRefines(c: Cache, now: nat)
    requires Ok(c)
    ensures var (d, index) := EvictLru(c);
      && Ok(d) && |d.slots| == |c.slots|
      && MapStep(View(c), |c.slots|, Evict, now, View(d), Index(index))
      && (index >= 0 ==> First(d.slots, 0) < |d.slots|)
  {
    EvictsOldest(c);
    var (d, index) := EvictLru(c);
    if index >= 0 {
      RemoveAtView(c, index);
      assert d.slots[index].id == 0;
    }
  }

  lemma {:induction false} ClearView(c: Cache, n: nat)
    requires Ok(c) && n <= |c.slots|
    ensures var d := ClearTo(c, n);
      && Ok(d)
      && (forall i :: 0 <= i < n ==> d.slots[i].id == 0)
  {
    hide Ok;
    if n > 0 {
      ClearView(c, n - 1);
      RemoveAtView(ClearTo(c, n - 1), n - 1);
      hide View;
    }
  }

  lemma ClearRefines(c: Cache)
    requires Ok(c)
    ensures Ok(ClearTo(c, |c.slots|)) && View(ClearTo(c, |c.slots|)) == map[]
  {
    ClearView(c, |c.slots|);
    var d := ClearTo(c, |c.slots|);
    forall id: byte ensures id !in View(d) { InView(d, id); }
  }

  /** Every operation on the slots, hint and stamps is a step of the bounded map, for any non-zero
      id; the last-use time it records is the combined stamp written. */
  lemma CacheRefinesMap(c: Cache, op: CacheOp, now: nat)
    requires Ok(c) && NonZeroId(op)
    ensures var (d, out) := Apply(c, op, now);
      && Ok(d) && |d.slots| == |c.slots|
      && MapStep(View(c), |c.slots|, op, StampWritten(c, op, now), View(d), out)
  {
    match op
    case Add(key, id) => AddOk(c, key, id, now); AddRefines(c, key, id, now);
    case Get(id) => TouchOk(c, id, now); GetRefines(c, id, now);
    case Remove(id) => RemoveRefines(c, id);
    case Evict => EvictRefines(c, 0);
    case Clear => ClearRefines(c);
  }

  // ---- Whole runs -------------------------------------------------------------------------------

  /** An operation and the true tick count at which it happens. */
  datatype Timed = Timed(op: CacheOp, at: nat)

  function RunCache(c: Cache, ops: seq<Timed>): (Cache, seq<CacheOut>)
    requires Ok(c) && forall t :: t in ops ==> NonZeroId(t.op)
    decreases |ops|
  {
    if ops == [] then (c, [])
    else
      CacheRefinesMap(c, ops[0].op, ops[0].at);
      var (d, out) := Apply(c, ops[0].op, ops[0].at);
      var (e, outs) := RunCache(d, ops[1..]);
      (e, [out] + outs)
  }

  /** Time moves forward for the slot stamped, less than one full wrap has passed since that slot
      was last stamped, and fewer than 256 wraps since boot. */
  predicate StampedInTime(c: Cache, t: Timed)
    requires InBounds(c)
  {
    var i := StampedSlot(c, t.op);
    i < |c.slots| ==>
      && Combined(c.slots[i].stamp) <= t.at < Combined(c.slots[i].stamp) + TICKS
      && t.at < ROLLOVERS * TICKS
  }

  predicate RunStampedInTime(c: Cache, ops: seq<Timed>)
    requires Ok(c) && forall t :: t in ops ==> NonZeroId(t.op)
    decreases |ops|
  {
    ops == [] ||
    (CacheRefinesMap(c, ops[0].op, ops[0].at);
     && StampedInTime(c, ops[0])
     && RunStampedInTime(Apply(c, ops[0].op, ops[0].at).0, ops[1..]))
  }

  /** `outs` is what the bounded map with true last-use times may answer to `ops`. */
  ghost predicate MapRun(m: map<byte, Use>, capacity: nat, ops: seq<Timed>, m': map<byte, Use>, outs: seq<CacheOut>)
    decreases |ops|
  {
    if ops == [] then m' == m && outs == []
    else
      && |outs| == |ops|
      && exists mid ::
           && MapStep(m, capacity, ops[0].op, ops[0].at, mid, outs[0])
           && MapRun(mid, capacity, ops[1..], m', outs[1..])
  }

  lemma StepAtTrueTime(c: Cache, t: Timed)
    requires Ok(c) && NonZeroId(t.op) && StampedInTime(c, t)
    ensures var (d, out) := Apply(c, t.op, t.at);
      MapStep(View(c), |c.slots|, t.op, t.at, View(d), out)
  {
    CacheRefinesMap(c, t.op, t.at);
    var i := StampedSlot(c, t.op);
    if i < |c.slots| {
      SaveTracksTrueTime(c.slots[i].stamp, t.at);
    } else if t.op.Add? {
      ViewSize(c);
      InView(c, t.op.id);
      if Meets(c.slots, t.op.id) {
        assert First(c.slots, t.op.id) < |c.slots|;
      }
    }
  }

  /** Over any run stamped in time, across wraps of the 32-bit tick, the cache answers like the
      bounded map keyed by true times: in particular each evicted entry was used no later than
      every other live entry. */
  lemma {:induction false} CacheRunRefinesMap(c: Cache, ops: seq<Timed>)
    requires Ok(c) && forall t :: t in ops ==> NonZeroId(t.op)
    requires RunStampedInTime(c, ops)
    ensures var (d, outs) := RunCache(c, ops);
      && Ok(d) && |outs| == |ops|
      && MapRun(View(c), |c.slots|, ops, View(d), outs)
    decreases |ops|
  {
    if ops != [] {
      var op, at := ops[0].op, ops[0].at;
      CacheRefinesMap(c, op, at);
      var (d, out) := Apply(c, op, at);
      StepAtTrueTime(c, ops[0]);
      CacheRunRefinesMap(d, ops[1..]);
      var (e, outs) := RunCache(d, ops[1..]);
      assert ([out] + outs)[1..] == outs;
    }
  }

  /** Stamps are kept by slot, so a slot first filled after a wrap has not seen it. From power-up, the
      key stored last is evicted: the other one was used before it, and after the wrap. */
  lemma EvictsNewestAfterWrap(a: Key, b: Key)
    ensures var c1 := Apply(FreshCache(2), Add(a, 1), 6).0;
      var c2 := Apply(c1, Get(1), TICKS + 5).0;
      var c3 := Apply(c2, Add(b, 2), TICKS + 10).0;
      && c3.slots == [Slot(1, a, Stamp(5, 1)), Slot(2, b, Stamp(10, 0))] && Combined(Stamp(5, 1)) == TICKS + 5
      && EvictLru(c3).1 == 1
      && !StampedInTime(c2, Timed(Add(b, 2), TICKS + 10))
  {
    var c1 := Apply(FreshCache(2), Add(a, 1), 6).0;
    assert c1.slots == [Slot(1, a, Stamp(6, 0)), Slot(0, BLANK_KEY, FRESH)];
    var c2 := Apply(c1, Get(1), TICKS + 5).0;
    assert c2.slots == [Slot(1, a, Stamp(5, 1)), Slot(0, BLANK_KEY, FRESH)];
    assert First(c2.slots, 0) == 1 && !Meets(c2.slots, 2);
    var c3 := Apply(c2, Add(b, 2), TICKS + 10).0;
    assert c3.slots == [Slot(1, a, Stamp(5, 1)), Slot(2, b, Stamp(10, 0))];
    assert Oldest(c3.slots, 1) == 0;
  }

  /** Stamps are kept by slot: whatever an operation does, the slot it uses gets the time, and every other
      one keeps its stamp, freed or not. */
  lemma StampsSurvive(c: Cache, op: CacheOp, now: nat, i: nat)
    requires InBounds(c) && i < |c.slots|
    ensures var d := Apply(c, op, now).0;
      |d.slots| == |c.slots| && d.slots[i].stamp == if i == StampedSlot(c, op) then Save(c.slots[i].stamp, now) else c.slots[i].stamp
  {
    match op
    case Clear => ClearedStamps(c, |c.slots|, i);
    case _ => hide ClearTo;
  }

  lemma {:induction false} ClearedStamps(c: Cache, n: nat, i: nat)
    requires n <= |c.slots| && i < |c.slots|
    ensures ClearTo(c, n).slots[i].stamp == c.slots[i].stamp
  {
    if n > 0 { ClearedStamps(c, n - 1, i); }
  }
}
