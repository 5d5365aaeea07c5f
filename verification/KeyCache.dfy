/** The key cache object: an array of slots and two hint fields, updated in place by every
    operation. Each method is proved against the value it stands for. */
module KeyCaches {
  import opened Bytes
  import opened Crypto
  import opened Options
  import opened TickStamp
  import opened KeyCacheSpec

  class KeyCache {
    const slots: array<Slot>
    var lastKeyIdUsed: int
    var lastKeyIndexInMap: int
    /** What the array and the hint fields stand for. */
    ghost var view: Cache

    ghost predicate Valid()
      reads this, slots
    {
      view == Cache(slots[..], lastKeyIdUsed, lastKeyIndexInMap) && InBounds(view)
    }

    constructor (size: nat)
      ensures Valid() && fresh(slots) && slots.Length == size
      ensures view == FreshCache(size)
    {
      slots := new Slot[size](_ => Slot(0, BLANK_KEY, FRESH));
      lastKeyIdUsed, lastKeyIndexInMap := NO_HINT, NO_HINT;
      view := FreshCache(size);
    }

    method AddKeyToCache(key: Key, id: byte, now: nat) returns (status: int)
      requires Valid()
      modifies this, slots
      ensures Valid() && (view, status) == AddKey(old(view), key, id, now)
    {
      var firstFree := -1;
      var alreadyIn := false;
      for i := 0 to slots.Length
        invariant -1 <= firstFree < i
        invariant firstFree < 0 ==> forall j :: 0 <= j < i ==> slots[j].id != 0
        invariant firstFree >= 0 ==> firstFree == First(slots[..], 0)
        invariant alreadyIn <==> exists j :: 0 <= j < i && j != firstFree && slots[j].id == id
      {
        if slots[i].id == 0 && firstFree < 0 {
          firstFree := i;
        } else if slots[i].id == id {
          alreadyIn := true;
        }
      }
      if firstFree < 0 {
        return -1;
      }
      assert alreadyIn <==> Meets(slots[..], id);
      if !alreadyIn {
        slots[firstFree] := Slot(id, key, Save(slots[firstFree].stamp, now));
        if lastKeyIdUsed == NO_HINT && lastKeyIndexInMap == NO_HINT {
          lastKeyIdUsed, lastKeyIndexInMap := id, firstFree;
        }
        view := AddKey(view, key, id, now).0;
      }
      status := 0;
    }

    /** The linear scan shared by lookups and removal: index of the first match, or -1. */
    method Scan(id: byte) returns (index: int)
      ensures index == (if First(slots[..], id) < slots.Length then First(slots[..], id) else -1)
    {
      for i := 0 to slots.Length
        invariant forall j :: 0 <= j < i ==> slots[j].id != id
      {
        if slots[i].id == id {
          return i;
        }
      }
      return -1;
    }

    method GetKeyFromCache(id: byte, now: nat) returns (key: Option<Key>)
      requires Valid()
      modifies this, slots
      ensures Valid() && view == Touch(old(view), id, now) && key == Lookup(old(view), id)
    {
      if id == lastKeyIdUsed && lastKeyIndexInMap >= 0 {
        key := Some(slots[lastKeyIndexInMap].key);
        slots[lastKeyIndexInMap] :=
          slots[lastKeyIndexInMap].(stamp := Save(slots[lastKeyIndexInMap].stamp, now));
        view := Touch(view, id, now);
        return;
      }
      key := None;
      var index := Scan(id);
      if index >= 0 {
        key := Some(slots[index].key);
        lastKeyIdUsed, lastKeyIndexInMap := id, index;
        slots[index] := slots[index].(stamp := Save(slots[index].stamp, now));
      }
      view := Touch(view, id, now);
    }

    method IsKeyInCache(id: byte) returns (found: bool)
      requires Valid()
      ensures found == IsKeyIn(view, id)
    {
      if id == lastKeyIdUsed && lastKeyIndexInMap >= 0 {
        return true;
      }
      var index := Scan(id);
      found := index >= 0;
    }

    /** The bound check admits an index one past the end, where the code would leave the array. */
    method RemoveKeyFromCacheAtIndex(index: nat) returns (status: int)
      requires Valid() && index != slots.Length
      modifies this, slots
      ensures Valid()
      ensures if index < slots.Length then status == 0 && view == RemoveAt(old(view), index)
              else status == -1 && view == old(view)
    {
      if index > slots.Length {
        return -1;
      }
      var id := slots[index].id;
      slots[index] := Slot(0, BLANK_KEY, slots[index].stamp);
      if id == lastKeyIdUsed {
        lastKeyIdUsed, lastKeyIndexInMap := NO_HINT, NO_HINT;
      }
      view := RemoveAt(view, index);
      status := 0;
    }

    method RemoveKeyFromCache(id: byte)
      requires Valid()
      modifies this, slots
      ensures Valid() && view == RemoveKey(old(view), id)
    {
      var index := Scan(id);
      if index >= 0 {
        var _ := RemoveKeyFromCacheAtIndex(index);
      }
    }

    method RemoveLruKeyFromCache() returns (index: int)
      requires Valid()
      modifies this, slots
      ensures Valid() && (view, index) == EvictLru(old(view))
    {
      index := -1;
      for i := 0 to slots.Length
        invariant index == Oldest(slots[..], i)
        invariant Valid() && view == old(view)
      {
        if slots[i].id != 0 && (index < 0 || Combined(slots[i].stamp) < Combined(slots[index].stamp)) {
          index := i;
        }
      }
      if index >= 0 {
        var _ := RemoveKeyFromCacheAtIndex(index);
      }
    }

    method ClearCache()
      requires Valid()
      modifies this, slots
      ensures Valid() && view == ClearTo(old(view), slots.Length)
    {
      for i := 0 to slots.Length
        invariant Valid() && view == ClearTo(old(view), i)
      {
        var _ := RemoveKeyFromCacheAtIndex(i);
      }
    }
  }
}
