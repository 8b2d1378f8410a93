/**
 The in-memory cover cache: an ordered dictionary, least recently used first,
 bounded by a number of entries and by a number of bytes.
 */
module CoverMemoryLru {
  import opened Wrappers

  type Bytes = seq<bv8>

  datatype Entry = Entry(content: Bytes, contentType: string, source: string, hash: string, size: nat)

  datatype Slot = Slot(key: string, entry: Entry)

  // ----- Ordered dictionaries -----

  predicate Distinct(slots: seq<Slot>) {
    forall i, j :: 0 <= i < j < |slots| ==> slots[i].key != slots[j].key
  }

  predicate Holds(slots: seq<Slot>, key: string) {
    exists i :: 0 <= i < |slots| && slots[i].key == key
  }

  function Lookup(slots: seq<Slot>, key: string): (r: Option<Entry>)
    ensures r.Some? <==> Holds(slots, key)
    ensures r.Some? ==> Slot(key, r.value) in slots
  {
    if slots == [] then None
    else if slots[0].key == key then Some(slots[0].entry)
    else Lookup(slots[1..], key)
  }

  /** `pop(key, None)`. */
  function Without(slots: seq<Slot>, key: string): (r: seq<Slot>)
    ensures forall slot :: slot in r <==> slot in slots && slot.key != key
    ensures |r| <= |slots|
  {
    if slots == [] then []
    else if slots[0].key == key then Without(slots[1..], key)
    else [slots[0]] + Without(slots[1..], key)
  }

  /** The key at the recent end, with this entry. */
  function Touched(slots: seq<Slot>, key: string, entry: Entry): seq<Slot> {
    Without(slots, key) + [Slot(key, entry)]
  }

  function Total(slots: seq<Slot>): nat {
    if slots == [] then 0 else slots[0].entry.size + Total(slots[1..])
  }

  lemma {:induction false} TotalAppend(slots: seq<Slot>, more: seq<Slot>)
    ensures Total(slots + more) == Total(slots) + Total(more)
  {
    if slots == [] {
      assert slots + more == more;
    } else {
      assert (slots + more)[1..] == slots[1..] + more;
      TotalAppend(slots[1..], more);
    }
  }

  lemma NothingHeld(key: string)
    ensures !Holds([], key) && Distinct([])
  {
  }

  lemma HoldsAhead(slot: Slot, slots: seq<Slot>, key: string)
    ensures Holds([slot] + slots, key) <==> slot.key == key || Holds(slots, key)
  {
    var all := [slot] + slots;
    assert forall i :: 0 < i < |all| ==> all[i] == slots[i - 1];
    assert forall i :: 0 <= i < |slots| ==> all[i + 1] == slots[i];
    assert all[0] == slot;
  }

  lemma DistinctAhead(slot: Slot, slots: seq<Slot>)
    ensures Distinct([slot] + slots) <==> Distinct(slots) && !Holds(slots, slot.key)
  {
    var all := [slot] + slots;
    assert forall i :: 0 < i < |all| ==> all[i] == slots[i - 1];
    assert forall i :: 0 <= i < |slots| ==> all[i + 1] == slots[i];
    assert all[0] == slot;
  }

  lemma HeldBefore(slots: seq<Slot>, key: string, other: string)
    ensures Holds(Without(slots, key), other) ==> Holds(slots, other)
  {
    if Holds(Without(slots, key), other) {
      var i :| 0 <= i < |Without(slots, key)| && Without(slots, key)[i].key == other;
      assert Without(slots, key)[i] in slots;
    }
  }

  /** Popping a key takes away exactly what it held. */
  lemma {:induction false} WithoutHolds(slots: seq<Slot>, key: string)
    requires Distinct(slots)
    ensures Distinct(Without(slots, key)) && !Holds(Without(slots, key), key)
    ensures Total(slots) ==
              Total(Without(slots, key)) + (if Holds(slots, key) then Lookup(slots, key).value.size else 0)
    ensures |slots| == |Without(slots, key)| + (if Holds(slots, key) then 1 else 0)
    ensures !Holds(slots, key) ==> Without(slots, key) == slots
  {
    hide Holds, Distinct;
    NothingHeld(key);
    if slots != [] {
      DistinctAhead(slots[0], slots[1..]);
      DistinctAhead(slots[0], Without(slots[1..], key));
      assert [slots[0]] + slots[1..] == slots;
      WithoutHolds(slots[1..], key);
      HoldsAhead(slots[0], slots[1..], key);
      HoldsAhead(slots[0], Without(slots[1..], key), key);
      HeldBefore(slots[1..], key, slots[0].key);
    }
  }

  lemma TouchedTotal(slots: seq<Slot>, key: string, entry: Entry)
    requires Distinct(slots)
    ensures Total(Touched(slots, key, entry)) + (if Holds(slots, key) then Lookup(slots, key).value.size else 0)
         == Total(slots) + entry.size
    ensures |Touched(slots, key, entry)| == |slots| + (if Holds(slots, key) then 0 else 1)
  {
    WithoutHolds(slots, key);
    TotalAppend(Without(slots, key), [Slot(key, entry)]);
  }

  // ----- Recency -----

  /** The slots stand in the order in which their keys were last used. */
  predicate ByUse(slots: seq<Slot>, lastUse: map<string, nat>, clock: nat) {
    && (forall i :: 0 <= i < |slots| ==> slots[i].key in lastUse && lastUse[slots[i].key] < clock)
    && (forall i, j :: 0 <= i < j < |slots| ==> lastUse[slots[i].key] < lastUse[slots[j].key])
  }

  lemma ByUseAhead(slot: Slot, slots: seq<Slot>, lastUse: map<string, nat>, clock: nat)
    ensures ByUse([slot] + slots, lastUse, clock) <==>
            && ByUse(slots, lastUse, clock) && slot.key in lastUse && lastUse[slot.key] < clock
            && forall other :: other in slots ==> other.key in lastUse && lastUse[slot.key] < lastUse[other.key]
  {
    var all := [slot] + slots;
    assert all[0] == slot && forall i :: 0 <= i < |slots| ==> all[i + 1] == slots[i];
    assert forall i :: 0 < i < |all| ==> all[i] == slots[i - 1];
    if ByUse(all, lastUse, clock) {
      forall other | other in slots
        ensures other.key in lastUse && lastUse[slot.key] < lastUse[other.key]
      {
        var i :| 0 <= i < |slots| && slots[i] == other;
        assert all[i + 1] == other;
      }
    }
  }

  lemma {:induction false} WithoutByUse(slots: seq<Slot>, key: string, lastUse: map<string, nat>, clock: nat)
    requires ByUse(slots, lastUse, clock)
    ensures ByUse(Without(slots, key), lastUse, clock)
  {
    hide ByUse;
    if slots != [] {
      assert slots == [slots[0]] + slots[1..];
      ByUseAhead(slots[0], slots[1..], lastUse, clock);
      WithoutByUse(slots[1..], key, lastUse, clock);
      ByUseAhead(slots[0], Without(slots[1..], key), lastUse, clock);
    }
  }

  /** A key that is used now goes to the end. */
  lemma UsedNow(slots: seq<Slot>, slot: Slot, lastUse: map<string, nat>, clock: nat)
    requires Distinct(slots) && !Holds(slots, slot.key) && ByUse(slots, lastUse, clock)
    ensures Distinct(slots + [slot]) && ByUse(slots + [slot], lastUse[slot.key := clock], clock + 1)
  {
    var all := slots + [slot];
    assert all[|slots|] == slot && forall i :: 0 <= i < |slots| ==> all[i] == slots[i] && slots[i].key != slot.key;
  }

  lemma TouchedByUse(slots: seq<Slot>, key: string, entry: Entry, lastUse: map<string, nat>, clock: nat)
    requires Distinct(slots) && ByUse(slots, lastUse, clock)
    ensures Distinct(Touched(slots, key, entry))
    ensures ByUse(Touched(slots, key, entry), lastUse[key := clock], clock + 1)
  {
    hide ByUse, Distinct, Holds;
    WithoutHolds(slots, key);
    WithoutByUse(slots, key, lastUse, clock);
    UsedNow(Without(slots, key), Slot(key, entry), lastUse, clock);
  }

  // ----- Both bounds -----

  predicate Within(slots: seq<Slot>, maxEntries: nat, maxBytes: nat) {
    |slots| <= maxEntries && Total(slots) <= maxBytes
  }

  /** `kept` is the longest recent part of `slots` within both bounds. */
  predicate LongestFit(kept: seq<Slot>, slots: seq<Slot>, maxEntries: nat, maxBytes: nat) {
    && |kept| <= |slots| && kept == slots[|slots| - |kept|..]
    && Within(kept, maxEntries, maxBytes)
    && forall j :: 0 <= j < |slots| - |kept| ==> !Within(slots[j..], maxEntries, maxBytes)
  }

  /** There is one longest recent part. */
  lemma LongestFitUnique(one: seq<Slot>, other: seq<Slot>, slots: seq<Slot>, maxEntries: nat, maxBytes: nat)
    requires LongestFit(one, slots, maxEntries, maxBytes) && LongestFit(other, slots, maxEntries, maxBytes)
    ensures one == other
  {
    assert |one| == |other|;
  }

  /** The most recent slot survives exactly when it fits by itself; otherwise nothing survives. */
  lemma NewestSurvives(kept: seq<Slot>, slots: seq<Slot>, newest: Slot, maxEntries: nat, maxBytes: nat)
    requires LongestFit(kept, slots + [newest], maxEntries, maxBytes) && maxEntries >= 1
    ensures newest.entry.size <= maxBytes ==> kept != [] && kept[|kept| - 1] == newest
    ensures newest.entry.size > maxBytes ==> kept == []
  {
    var all := slots + [newest];
    assert all[|slots|..] == [newest] && Total([newest]) == newest.entry.size;
    if kept != [] {
      TotalAppend(kept[..|kept| - 1], [newest]);
      assert kept == kept[..|kept| - 1] + [newest];
    }
  }

  /** Every slot holds the last accepted value of its key. */
  predicate Faithful(slots: seq<Slot>, accepted: map<string, Entry>) {
    forall slot :: slot in slots ==> slot.key in accepted && accepted[slot.key] == slot.entry
  }

  predicate Measured(accepted: map<string, Entry>, sha1: Bytes -> string) {
    forall key :: key in accepted ==>
      var e := accepted[key]; e.content != [] && e.size == |e.content| && e.hash == sha1(e.content)
  }

  lemma TouchedFaithful(slots: seq<Slot>, key: string, entry: Entry, accepted: map<string, Entry>)
    requires Faithful(slots, accepted)
    ensures Faithful(Touched(slots, key, entry), accepted[key := entry])
  {
  }

  lemma SuffixFaithful(slots: seq<Slot>, k: nat, accepted: map<string, Entry>)
    requires k <= |slots| && Faithful(slots, accepted)
    ensures Faithful(slots[k..], accepted)
  {
  }

  lemma SuffixByUse(slots: seq<Slot>, k: nat, lastUse: map<string, nat>, clock: nat)
    requires k <= |slots| && Distinct(slots) && ByUse(slots, lastUse, clock)
    ensures Distinct(slots[k..]) && ByUse(slots[k..], lastUse, clock)
  {
    assert forall i :: 0 <= i < |slots[k..]| ==> slots[k..][i] == slots[k + i];
  }

  class CoverMemoryLru {
    const maxEntries: nat
    const maxBytes: nat
    const sha1: Bytes -> string
    var entries: seq<Slot>
    var totalBytes: int
    /** The last value accepted for each key, evicted or not. */
    ghost var accepted: map<string, Entry>
    /** When each key was last set or found. */
    ghost var lastUse: map<string, nat>
    ghost var clock: nat

    ghost predicate Valid()
      reads this
    {
      && maxEntries >= 1 && maxBytes >= 1
      && Distinct(entries) && totalBytes == Total(entries) && Within(entries, maxEntries, maxBytes)
      && ByUse(entries, lastUse, clock)
      && Faithful(entries, accepted) && Measured(accepted, sha1)
    }

    constructor (maxEntries: int, maxBytes: int, sha1: Bytes -> string)
      ensures Valid() && entries == [] && accepted == map[]
      ensures this.maxEntries == (if maxEntries < 1 then 1 else maxEntries)
      ensures this.maxBytes == (if maxBytes < 1 then 1 else maxBytes)
    {
      this.maxEntries := if maxEntries < 1 then 1 else maxEntries;
      this.maxBytes := if maxBytes < 1 then 1 else maxBytes;
      this.sha1 := sha1;
      entries, totalBytes := [], 0;
      accepted, lastUse, clock := map[], map[], 0;
    }

    /** A hit gives the last accepted value and becomes the most recent; a miss changes nothing. */
    method Get(key: string) returns (r: Option<Entry>)
      requires Valid()
      modifies this
      ensures Valid() && accepted == old(accepted) && totalBytes == old(totalBytes)
      ensures r.Some? <==> Holds(old(entries), key)
      ensures r.Some? ==> key in accepted && r.value == accepted[key]
      ensures entries == if r.Some? then Touched(old(entries), key, r.value) else old(entries)
      ensures forall slot :: slot in entries <==> slot in old(entries)
      ensures lastUse == if r.Some? then old(lastUse)[key := old(clock)] else old(lastUse)
    {
      hide ByUse, Distinct, Lookup, Without, Holds, Total;
      r := Lookup(entries, key);
      if r.None? {
        return;
      }
      TouchedTotal(entries, key, r.value);
      TouchedByUse(entries, key, r.value, lastUse, clock);
      TouchedFaithful(entries, key, r.value, accepted);
      assert accepted[key := r.value] == accepted;
      entries := Touched(entries, key, r.value);
      lastUse, clock := lastUse[key := clock], clock + 1;
    }

    method GetHash(key: string) returns (r: Option<string>)
      requires Valid()
      modifies this
      ensures Valid() && accepted == old(accepted)
      ensures r.Some? <==> Holds(old(entries), key)
      ensures r.Some? ==> key in accepted && r.value == sha1(accepted[key].content)
    {
      var entry := Get(key);
      r := if entry.Some? then Some(entry.value.hash) else None;
    }

    /** What is kept is the longest most recently used part within both bounds. */
    method Set(key: string, content: Bytes, contentType: string, source: string)
      requires Valid()
      modifies this
      ensures Valid()
      ensures content == [] ==> entries == old(entries) && accepted == old(accepted) && lastUse == old(lastUse)
      ensures content != [] ==>
                var entry := Entry(content, contentType, source, sha1(content), |content|);
                && accepted == old(accepted)[key := entry] && lastUse == old(lastUse)[key := old(clock)]
                && LongestFit(entries, Touched(old(entries), key, entry), maxEntries, maxBytes)
    {
      hide ByUse, Distinct, Lookup, Without, Holds, Faithful, Total;
      if |content| <= 0 {
        return;
      }
      var existing := Lookup(entries, key);
      var entry := Entry(content, contentType, source, sha1(content), |content|);
      ghost var all := Touched(entries, key, entry);
      TouchedByUse(entries, key, entry, lastUse, clock);
      TouchedFaithful(entries, key, entry, accepted);
      TouchedTotal(entries, key, entry);
      if existing.Some? {
        totalBytes := totalBytes - existing.value.size;
      }
      entries := Without(entries, key) + [Slot(key, entry)];
      totalBytes := totalBytes + |content|;
      accepted := accepted[key := entry];
      lastUse, clock := lastUse[key := clock], clock + 1;
      Shrink();
      SuffixByUse(all, |all| - |entries|, lastUse, clock);
      SuffixFaithful(all, |all| - |entries|, accepted);
    }

    /** Drops the least recent slots until both bounds hold. */
    method Shrink()
      requires totalBytes == Total(entries)
      modifies this`entries, this`totalBytes
      ensures totalBytes == Total(entries) && LongestFit(entries, old(entries), maxEntries, maxBytes)
    {
      ghost var all := entries;
      while entries != [] && (|entries| > maxEntries || totalBytes > maxBytes)
        invariant |entries| <= |all| && entries == all[|all| - |entries|..]
        invariant totalBytes == Total(entries)
        invariant forall j :: 0 <= j < |all| - |entries| ==> !Within(all[j..], maxEntries, maxBytes)
      {
        totalBytes := totalBytes - entries[0].entry.size;
        entries := entries[1..];
      }
    }

    method Evict(key: string)
      requires Valid()
      modifies this
      ensures Valid() && accepted == old(accepted) && lastUse == old(lastUse)
      ensures entries == Without(old(entries), key) && !Holds(entries, key)
    {
      hide ByUse, Distinct, Lookup, Without, Holds, Total;
      WithoutHolds(entries, key);
      WithoutByUse(entries, key, lastUse, clock);
      var entry := Lookup(entries, key);
      if entry.Some? {
        entries := Without(entries, key);
        totalBytes := totalBytes - entry.value.size;
      }
    }
  }
}
