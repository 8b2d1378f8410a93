/** The size limit of the cover cache on disk: which files an eviction removes. */
module CoverDiskCache {
  import opened Wrappers

  /** A field of the metadata file: absent, `null`, or a number. */
  datatype Field = Absent | Null | Number(value: real)

  datatype Meta = Meta(monitored: bool, lastAccessed: Field, createdAt: Field)

  /** The cache directory. A metadata file that cannot be read is not in `metas`. */
  datatype Store = Store(bins: map<string, nat>, metas: map<string, Meta>, wikidata: set<string>)

  datatype Candidate = Candidate(accessed: real, name: string, size: nat)

  predicate Monitored(store: Store, name: string) {
    name in store.metas && store.metas[name].monitored
  }

  function NumberOf(field: Field): real {
    if field.Number? then field.value else 0.0
  }

  /** The last access, the creation time where no access is recorded, or zero. */
  function AccessedAt(store: Store, name: string): real {
    if name !in store.metas then 0.0
    else
      var meta := store.metas[name];
      NumberOf(if meta.lastAccessed.Absent? then meta.createdAt else meta.lastAccessed)
  }

  // ----- What the directory holds -----

  /** The total size of the listed files that exist. */
  function TotalOf(bins: map<string, nat>, listing: seq<string>): nat {
    if listing == [] then 0 else (if listing[0] in bins then bins[listing[0]] else 0) + TotalOf(bins, listing[1..])
  }

  function Candidates(store: Store, listing: seq<string>): (r: seq<Candidate>)
    ensures forall c :: c in r <==>
              && c.name in listing && c.name in store.bins && !Monitored(store, c.name)
              && c == Candidate(AccessedAt(store, c.name), c.name, store.bins[c.name])
  {
    if listing == [] then []
    else
      var name, rest := listing[0], Candidates(store, listing[1..]);
      assert forall other :: other in listing <==> other == name || other in listing[1..];
      if name in store.bins && !Monitored(store, name)
      then [Candidate(AccessedAt(store, name), name, store.bins[name])] + rest
      else rest
  }

  function SizeOf(cs: seq<Candidate>): nat {
    if cs == [] then 0 else cs[0].size + SizeOf(cs[1..])
  }

  function Names(cs: seq<Candidate>): (r: set<string>)
    ensures forall name :: name in r <==> exists c :: c in cs && c.name == name
  {
    set c | c in cs :: c.name
  }

  predicate Distinct(listing: seq<string>) {
    forall i, j :: 0 <= i < j < |listing| ==> listing[i] != listing[j]
  }

  /** A listing of the directory: every file once, and perhaps names of files already gone. */
  predicate Lists(listing: seq<string>, store: Store) {
    Distinct(listing) && forall name :: name in store.bins ==> name in listing
  }

  // ----- Sorting by last access -----

  /** A stable sort. */
  function Sorted(cs: seq<Candidate>): (r: seq<Candidate>)
    ensures |r| == |cs| && forall c :: c in r <==> c in cs
  {
    if cs == [] then []
    else
      assert cs == [cs[0]] + cs[1..];
      Insert(cs[0], Sorted(cs[1..]))
  }

  /** In front of the candidates that were accessed at the same time or later. */
  function Insert(c: Candidate, cs: seq<Candidate>): (r: seq<Candidate>)
    ensures |r| == |cs| + 1 && forall d :: d in r <==> d == c || d in cs
  {
    if cs == [] || c.accessed <= cs[0].accessed then [c] + cs
    else
      assert cs == [cs[0]] + cs[1..];
      [cs[0]] + Insert(c, cs[1..])
  }

  predicate Ascending(cs: seq<Candidate>) {
    forall i, j :: 0 <= i < j < |cs| ==> cs[i].accessed <= cs[j].accessed
  }

  function AccessedExactly(cs: seq<Candidate>, at: real): seq<Candidate> {
    if cs == [] then []
    else (if cs[0].accessed == at then [cs[0]] else []) + AccessedExactly(cs[1..], at)
  }

  lemma AscendingAhead(c: Candidate, cs: seq<Candidate>)
    ensures Ascending([c] + cs) <==> Ascending(cs) && forall d :: d in cs ==> c.accessed <= d.accessed
  {
    var all := [c] + cs;
    assert forall i :: 0 <= i < |cs| ==> all[i + 1] == cs[i];
    assert forall i :: 0 < i < |all| ==> all[i] == cs[i - 1] && all[i] in cs;
    if Ascending(all) {
      forall d | d in cs
        ensures c.accessed <= d.accessed
      {
        var i :| 0 <= i < |cs| && cs[i] == d;
        assert all[0].accessed <= all[i + 1].accessed;
      }
    }
  }

  lemma {:induction false} InsertAscends(c: Candidate, cs: seq<Candidate>)
    requires Ascending(cs)
    ensures Ascending(Insert(c, cs))
  {
    hide Ascending;
    if cs == [] {
      AscendingAhead(c, cs);
      NothingAscends();
    } else {
      assert cs == [cs[0]] + cs[1..];
      AscendingAhead(cs[0], cs[1..]);
      AscendingAhead(c, cs);
      if c.accessed > cs[0].accessed {
        InsertAscends(c, cs[1..]);
        AscendingAhead(cs[0], Insert(c, cs[1..]));
      }
    }
  }

  lemma NothingAscends()
    ensures Ascending([])
  {
  }

  lemma ExactlyAhead(c: Candidate, cs: seq<Candidate>, at: real)
    ensures AccessedExactly([c] + cs, at) == (if c.accessed == at then [c] else []) + AccessedExactly(cs, at)
    ensures SizeOf([c] + cs) == c.size + SizeOf(cs)
  {
    assert ([c] + cs)[1..] == cs;
  }

  lemma {:induction false} InsertKeeps(c: Candidate, cs: seq<Candidate>, at: real)
    ensures AccessedExactly(Insert(c, cs), at) == (if c.accessed == at then [c] else []) + AccessedExactly(cs, at)
    ensures SizeOf(Insert(c, cs)) == c.size + SizeOf(cs)
  {
    ExactlyAhead(c, cs, at);
    if cs != [] && c.accessed > cs[0].accessed {
      InsertKeeps(c, cs[1..], at);
      ExactlyAhead(cs[0], Insert(c, cs[1..]), at);
    }
  }

  /** The sort orders by last access, keeps ties in listing order, and loses nothing. */
  lemma {:induction false} SortedIsStable(cs: seq<Candidate>, at: real)
    ensures Ascending(Sorted(cs))
    ensures AccessedExactly(Sorted(cs), at) == AccessedExactly(cs, at)
    ensures SizeOf(Sorted(cs)) == SizeOf(cs)
  {
    if cs != [] {
      SortedIsStable(cs[1..], at);
      InsertAscends(cs[0], Sorted(cs[1..]));
      InsertKeeps(cs[0], Sorted(cs[1..]), at);
    }
  }

  // ----- The victims -----

  /** The shortest front part that frees `need` bytes, or everything. */
  function Shortest(cs: seq<Candidate>, need: int): seq<Candidate> {
    if cs == [] then []
    else if cs[0].size >= need then [cs[0]]
    else [cs[0]] + Shortest(cs[1..], need - cs[0].size)
  }

  function Victims(store: Store, listing: seq<string>, maxSize: nat): seq<Candidate> {
    var total := TotalOf(store.bins, listing);
    if total <= maxSize then [] else Shortest(Sorted(Candidates(store, listing)), total - maxSize)
  }

  /** The directory after the victims and the files beside them are unlinked. */
  function Unlinked(store: Store, victims: seq<Candidate>): Store {
    Store(
      map name | name in store.bins && name !in Names(victims) :: store.bins[name],
      map name | name in store.metas && name !in Names(victims) :: store.metas[name],
      set name | name in store.wikidata && name !in Names(victims))
  }

  class CoverDiskCache {
    const maxSize: Option<nat>
    const interval: real
    var store: Store
    var lastCheck: real

    constructor (maxSizeMegabytes: Option<int>, checkInterval: real, store: Store)
      ensures this.store == store && lastCheck == 0.0
      ensures maxSize.Some? <==> maxSizeMegabytes.Some? && maxSizeMegabytes.value > 0
      ensures maxSize.Some? ==> maxSize.value == maxSizeMegabytes.value * 1_024 * 1_024
      ensures interval == if checkInterval < 1.0 then 1.0 else checkInterval
    {
      maxSize := if maxSizeMegabytes.Some? && maxSizeMegabytes.value > 0
                 then Some(maxSizeMegabytes.value * 1_024 * 1_024) else None;
      interval := if checkInterval < 1.0 then 1.0 else checkInterval;
      this.store, lastCheck := store, 0.0;
    }

    method EnforceSizeLimit(force: bool, now: real, listing: seq<string>) returns (freed: nat)
      requires Lists(listing, store)
      modifies this
      ensures maxSize.None? || (!force && now - old(lastCheck) < interval) ==>
                freed == 0 && store == old(store) && lastCheck == old(lastCheck)
      ensures maxSize.Some? && (force || now - old(lastCheck) >= interval) ==>
                var victims := Victims(old(store), listing, maxSize.value);
                freed == SizeOf(victims) && store == Unlinked(old(store), victims) && lastCheck == now
    {
      hide Lists, TotalOf, Candidates, Sorted, Shortest, Unlinked, SizeOf;
      freed := 0;
      if maxSize.None? || (!force && now - lastCheck < interval) {
        return;
      }
      lastCheck := now;
      var total, candidates := Scan(listing);
      UnlinkedNothing(store);
      if total <= maxSize.value {
        return;
      }
      freed := RemoveUntil(Sorted(candidates), total - maxSize.value);
    }

    /** The total size of the directory, and the files that may go. */
    method Scan(listing: seq<string>) returns (total: nat, candidates: seq<Candidate>)
      ensures total == TotalOf(store.bins, listing) && candidates == Candidates(store, listing)
    {
      hide TotalOf, Candidates;
      total, candidates := 0, [];
      assert listing[0..] == listing && listing[|listing|..] == [];
      NothingListed(store);
      for i := 0 to |listing|
        invariant total + TotalOf(store.bins, listing[i..]) == TotalOf(store.bins, listing)
        invariant candidates + Candidates(store, listing[i..]) == Candidates(store, listing)
      {
        var name := listing[i];
        ListedAhead(store, listing[i..]);
        assert listing[i..][1..] == listing[i + 1..];
        if name in store.bins {
          total := total + store.bins[name];
          if !Monitored(store, name) {
            candidates := candidates + [Candidate(AccessedAt(store, name), name, store.bins[name])];
          }
        }
      }
    }

    /** Unlinks in order until enough is freed. */
    method RemoveUntil(candidates: seq<Candidate>, need: nat) returns (freed: nat)
      modifies this`store
      ensures freed == SizeOf(Shortest(candidates, need))
      ensures store == Unlinked(old(store), Shortest(candidates, need))
    {
      hide Unlinked, SizeOf, Shortest;
      freed := 0;
      ghost var victims := Shortest(candidates, need);
      UnlinkedNothing(store);
      assert candidates[..0] == [] && candidates[0..] == candidates && [] + victims == victims;
      for i := 0 to |candidates|
        invariant victims == candidates[..i] + Shortest(candidates[i..], need - freed)
        invariant freed == SizeOf(candidates[..i])
        invariant store == Unlinked(old(store), candidates[..i])
      {
        var candidate := candidates[i];
        UnlinkedMore(old(store), candidates[..i], candidate);
        SizeMore(candidates[..i], candidate);
        ShortestAhead(candidates[i..], need - freed);
        assert candidates[..i + 1] == candidates[..i] + [candidate];
        assert candidates[i..][1..] == candidates[i + 1..];
        store := Unlinked(store, [candidate]);
        freed := freed + candidate.size;
        if freed >= need {
          assert victims == candidates[..i + 1];
          return;
        }
        assert candidates[..i] + ([candidate] + Shortest(candidates[i + 1..], need - freed))
            == candidates[..i + 1] + Shortest(candidates[i + 1..], need - freed);
      }
      assert candidates[..|candidates|] == candidates;
      ShortestAhead(candidates[|candidates|..], need - freed);
      assert victims == candidates;
    }
  }

  lemma NothingListed(store: Store)
    ensures TotalOf(store.bins, []) == 0 && Candidates(store, []) == []
  {
  }

  lemma ListedAhead(store: Store, listing: seq<string>)
    requires listing != []
    ensures var name, rest := listing[0], listing[1..];
            && TotalOf(store.bins, listing)
               == (if name in store.bins then store.bins[name] else 0) + TotalOf(store.bins, rest)
            && Candidates(store, listing)
               == (if name in store.bins && !Monitored(store, name)
                   then [Candidate(AccessedAt(store, name), name, store.bins[name])] else []) + Candidates(store, rest)
  {
  }

  lemma ShortestAhead(cs: seq<Candidate>, need: int)
    ensures Shortest(cs, need)
         == if cs == [] then [] else [cs[0]] + if cs[0].size >= need then [] else Shortest(cs[1..], need - cs[0].size)
  {
  }

  lemma SizeMore(cs: seq<Candidate>, c: Candidate)
    ensures SizeOf(cs + [c]) == SizeOf(cs) + c.size
  {
    SizeAppend(cs, [c]);
  }

  lemma UnlinkedNothing(store: Store)
    ensures Unlinked(store, []) == store && SizeOf([]) == 0
  {
  }

  lemma UnlinkedMore(store: Store, victims: seq<Candidate>, victim: Candidate)
    ensures Unlinked(Unlinked(store, victims), [victim]) == Unlinked(store, victims + [victim])
  {
    assert forall name :: name in Names(victims + [victim]) <==> name in Names(victims) || name in Names([victim]);
  }

  lemma {:induction false} SizeAppend(cs: seq<Candidate>, more: seq<Candidate>)
    ensures SizeOf(cs + more) == SizeOf(cs) + SizeOf(more)
  {
    if cs == [] {
      assert cs + more == more;
    } else {
      assert (cs + more)[1..] == cs[1..] + more;
      SizeAppend(cs[1..], more);
    }
  }

  // ----- What an eviction achieves -----

  /** The total of a set of listed files, by the files that stay and the files that go. */
  lemma {:induction false} TotalSplits(store: Store, listing: seq<string>, victims: seq<Candidate>)
    requires Distinct(listing)
    ensures TotalOf(store.bins, listing)
         == TotalOf(Unlinked(store, victims).bins, listing) + TotalIn(store.bins, listing, Names(victims))
  {
    if listing != [] {
      assert Distinct(listing[1..]) by { DistinctAhead(listing); }
      TotalSplits(store, listing[1..], victims);
    }
  }

  /** The total of the listed files with a name in the set. */
  function TotalIn(bins: map<string, nat>, listing: seq<string>, names: set<string>): nat {
    if listing == [] then 0
    else
      (if listing[0] in bins && listing[0] in names then bins[listing[0]] else 0) + TotalIn(bins, listing[1..], names)
  }

  lemma DistinctAhead(listing: seq<string>)
    requires listing != [] && Distinct(listing)
    ensures Distinct(listing[1..]) && listing[0] !in listing[1..]
  {
  }

  lemma {:induction false} TotalInAdds(bins: map<string, nat>, listing: seq<string>, names: set<string>, name: string)
    requires Distinct(listing) && name !in names
    ensures TotalIn(bins, listing, names + {name})
         == TotalIn(bins, listing, names) + (if name in listing && name in bins then bins[name] else 0)
  {
    if listing != [] {
      DistinctAhead(listing);
      TotalInAdds(bins, listing[1..], names, name);
      assert name in listing <==> name == listing[0] || name in listing[1..];
    }
  }

  predicate DistinctNames(cs: seq<Candidate>) {
    forall i, j :: 0 <= i < j < |cs| ==> cs[i].name != cs[j].name
  }

  /** Files with different names that the listing shows, with their sizes. */
  predicate Shown(store: Store, listing: seq<string>, cs: seq<Candidate>) {
    DistinctNames(cs) && forall c :: c in cs ==>
        c.name in listing && c.name in store.bins && c.size == store.bins[c.name]
  }

  lemma {:induction false} TotalInShown(store: Store, listing: seq<string>, cs: seq<Candidate>)
    requires Distinct(listing) && Shown(store, listing, cs)
    ensures TotalIn(store.bins, listing, Names(cs)) == SizeOf(cs)
  {
    if cs == [] {
      TotalInNone(store.bins, listing);
    } else {
      var last := |cs| - 1;
      var rest := cs[..last];
      assert cs == rest + [cs[last]];
      assert Names(cs) == Names(rest) + {cs[last].name};
      TotalInShown(store, listing, rest);
      TotalInAdds(store.bins, listing, Names(rest), cs[last].name);
      SizeMore(rest, cs[last]);
    }
  }

  lemma {:induction false} TotalInNone(bins: map<string, nat>, listing: seq<string>)
    ensures TotalIn(bins, listing, Names([])) == 0
  {
    if listing != [] {
      TotalInNone(bins, listing[1..]);
    }
  }

  lemma NamesAhead(c: Candidate, cs: seq<Candidate>)
    ensures DistinctNames([c] + cs) <==> DistinctNames(cs) && c.name !in Names(cs)
  {
    var all := [c] + cs;
    assert forall i :: 0 <= i < |cs| ==> all[i + 1] == cs[i];
    assert forall i :: 0 < i < |all| ==> all[i] == cs[i - 1] && all[i] in cs;
    if DistinctNames(all) {
      forall d | d in cs
        ensures c.name != d.name
      {
        var i :| 0 <= i < |cs| && cs[i] == d;
        assert all[0].name != all[i + 1].name;
      }
    }
  }

  lemma {:induction false} InsertDistinct(c: Candidate, cs: seq<Candidate>)
    requires DistinctNames(cs) && c.name !in Names(cs)
    ensures DistinctNames(Insert(c, cs)) && Names(Insert(c, cs)) == Names(cs) + {c.name}
  {
    hide DistinctNames;
    NamesAhead(c, cs);
    if cs != [] && c.accessed > cs[0].accessed {
      assert cs == [cs[0]] + cs[1..];
      NamesAhead(cs[0], cs[1..]);
      InsertDistinct(c, cs[1..]);
      NamesAhead(cs[0], Insert(c, cs[1..]));
    }
  }

  lemma {:induction false} SortedDistinct(cs: seq<Candidate>)
    requires DistinctNames(cs)
    ensures DistinctNames(Sorted(cs)) && Names(Sorted(cs)) == Names(cs)
  {
    if cs != [] {
      assert cs == [cs[0]] + cs[1..];
      NamesAhead(cs[0], cs[1..]);
      SortedDistinct(cs[1..]);
      InsertDistinct(cs[0], Sorted(cs[1..]));
    }
  }

  lemma {:induction false} CandidatesDistinct(store: Store, listing: seq<string>)
    requires Distinct(listing)
    ensures DistinctNames(Candidates(store, listing))
  {
    if listing != [] {
      DistinctAhead(listing);
      CandidatesDistinct(store, listing[1..]);
      ListedAhead(store, listing);
      var rest := Candidates(store, listing[1..]);
      NamesAhead(Candidate(AccessedAt(store, listing[0]), listing[0], 0), rest);
      if listing[0] in store.bins && !Monitored(store, listing[0]) {
        NamesAhead(Candidate(AccessedAt(store, listing[0]), listing[0], store.bins[listing[0]]), rest);
      } else {
        assert [] + rest == rest;
      }
    }
  }

  /** What the shortest sufficient front part is, without its recursion. */
  lemma {:induction false} ShortestExact(cs: seq<Candidate>, need: int)
    requires need > 0
    ensures var part := Shortest(cs, need);
            && |part| <= |cs| && part == cs[..|part|]
            && (SizeOf(part) >= need || part == cs)
            && (part != [] ==> SizeOf(part[..|part| - 1]) < need)
  {
    ShortestAhead(cs, need);
    if cs != [] && cs[0].size < need {
      var rest := Shortest(cs[1..], need - cs[0].size);
      ShortestExact(cs[1..], need - cs[0].size);
      var part := [cs[0]] + rest;
      assert part[1..] == rest;
      if rest != [] {
        assert part[..|part| - 1][1..] == rest[..|rest| - 1];
      }
    }
  }

  /** Unlinking shown files takes exactly their sizes off the total. */
  lemma UnlinkedTotal(store: Store, listing: seq<string>, victims: seq<Candidate>)
    requires Distinct(listing) && Shown(store, listing, victims)
    ensures TotalOf(Unlinked(store, victims).bins, listing) + SizeOf(victims) == TotalOf(store.bins, listing)
  {
    TotalSplits(store, listing, victims);
    TotalInShown(store, listing, victims);
  }

  lemma OrderShown(store: Store, listing: seq<string>, k: nat)
    requires Distinct(listing) && k <= |Sorted(Candidates(store, listing))|
    ensures Shown(store, listing, Sorted(Candidates(store, listing))[..k])
  {
    CandidatesDistinct(store, listing);
    SortedDistinct(Candidates(store, listing));
    var order := Sorted(Candidates(store, listing));
    assert forall i :: 0 <= i < k ==> order[..k][i] == order[i];
  }

  /**
   An eviction removes the first of the unmonitored files by last access, no
   more of them than it has to, and never a monitored file. Afterwards the
   directory is within the limit, unless only monitored files are left.
   */
  lemma EvictionExact(store: Store, listing: seq<string>, maxSize: nat)
    requires Lists(listing, store)
    ensures var victims, order := Victims(store, listing, maxSize), Sorted(Candidates(store, listing));
            var after := Unlinked(store, victims);
            && |victims| <= |order| && victims == order[..|victims|] && Ascending(order)
            && TotalOf(after.bins, listing) + SizeOf(victims) == TotalOf(store.bins, listing)
            && (forall name :: name in store.bins && Monitored(store, name) ==>
                  name in after.bins && after.bins[name] == store.bins[name])
            && (TotalOf(after.bins, listing) <= maxSize || forall name :: name in after.bins ==> Monitored(store, name))
            && (victims != [] ==> TotalOf(Unlinked(store, victims[..|victims| - 1]).bins, listing) > maxSize)
  {
    hide *;
    var candidates := Candidates(store, listing);
    var victims, order := Victims(store, listing, maxSize), Sorted(candidates);
    SortedIsStable(candidates, 0.0);
    VictimsExact(store, listing, maxSize);
    ListsDistinct(listing, store);
    OrderShown(store, listing, |victims|);
    UnlinkedTotal(store, listing, victims);
    OnlyCandidatesGo(store, listing, victims);
    if victims != [] {
      OrderShown(store, listing, |victims| - 1);
      assert victims[..|victims| - 1] == order[..|victims| - 1];
      UnlinkedTotal(store, listing, victims[..|victims| - 1]);
    }
  }

  lemma ListsDistinct(listing: seq<string>, store: Store)
    requires Lists(listing, store)
    ensures Distinct(listing)
  {
  }

  lemma VictimsExact(store: Store, listing: seq<string>, maxSize: nat)
    ensures var victims, order := Victims(store, listing, maxSize), Sorted(Candidates(store, listing));
            var total := TotalOf(store.bins, listing);
            && |victims| <= |order| && victims == order[..|victims|]
            && (forall c :: c in victims ==> c in Candidates(store, listing))
            && (total - SizeOf(victims) <= maxSize || victims == order)
            && (victims != [] ==> total - SizeOf(victims[..|victims| - 1]) > maxSize)
  {
    hide TotalOf, Sorted, Candidates, Shortest;
    var total := TotalOf(store.bins, listing);
    if total > maxSize {
      ShortestExact(Sorted(Candidates(store, listing)), total - maxSize);
    }
  }

  lemma OnlyCandidatesGo(store: Store, listing: seq<string>, victims: seq<Candidate>)
    requires Lists(listing, store) && forall c :: c in victims ==> c in Candidates(store, listing)
    ensures var after := Unlinked(store, victims);
            && (forall name :: name in store.bins && Monitored(store, name) ==>
                  name in after.bins && after.bins[name] == store.bins[name])
            && (victims == Sorted(Candidates(store, listing)) ==>
                  forall name :: name in after.bins ==> Monitored(store, name))
  {
    forall name | name in store.bins && !Monitored(store, name)
      ensures name in Names(Sorted(Candidates(store, listing)))
    {
      assert Candidate(AccessedAt(store, name), name, store.bins[name]) in Sorted(Candidates(store, listing));
    }
  }

  // ----- The same by the metadata files -----

  /** A file was last used at its recorded access, or when it was created; `null` and no metadata count as never. */
  predicate UsedAt(store: Store, name: string, at: real) {
    if name !in store.metas then at == 0.0
    else
      match (store.metas[name].lastAccessed, store.metas[name].createdAt)
      case (Number(accessed), _) => at == accessed
      case (Null, _) => at == 0.0
      case (Absent, Number(created)) => at == created
      case (Absent, _) => at == 0.0
  }

  /** The files whose metadata can be read and says so are monitored. */
  predicate MarkedMonitored(store: Store, name: string) {
    name in store.metas && store.metas[name].monitored
  }

  /**
   What an eviction takes is what was used least recently among the files not
   marked as monitored, each with its metadata and the file beside it; all other
   files stay as they are.
   */
  lemma EvictionByMetadata(store: Store, listing: seq<string>, maxSize: nat)
    requires Lists(listing, store)
    ensures var after := Unlinked(store, Victims(store, listing, maxSize));
            var gone := store.bins.Keys - after.bins.Keys;
            && after == Store(store.bins - gone, store.metas - gone, store.wikidata - gone)
            && (forall name :: name in gone ==> !MarkedMonitored(store, name))
            && (forall name, other, at, since ::
                  name in gone && other in after.bins && !MarkedMonitored(store, other) ==>
                    UsedAt(store, name, at) && UsedAt(store, other, since) ==> at <= since)
  {
    hide TotalOf, Sorted, Candidates, Shortest, Unlinked, Lists;
    var victims, order := Victims(store, listing, maxSize), Sorted(Candidates(store, listing));
    EvictionExact(store, listing, maxSize);
    VictimsExact(store, listing, maxSize);
    GoneAreVictims(store, victims);
    forall name, other, at, since | name in Names(victims) && other in store.bins && other !in Names(victims) &&
        !MarkedMonitored(store, other) && UsedAt(store, name, at) && UsedAt(store, other, since)
      ensures at <= since
    {
      ListedOthers(store, listing, other);
      UsedBefore(store, order, |victims|, name, other);
    }
  }

  lemma ListedOthers(store: Store, listing: seq<string>, name: string)
    requires Lists(listing, store) && name in store.bins && !Monitored(store, name)
    ensures Candidate(AccessedAt(store, name), name, store.bins[name]) in Sorted(Candidates(store, listing))
  {
  }

  /** A candidate in the front part was accessed no later than one that is not in it. */
  lemma UsedBefore(store: Store, order: seq<Candidate>, k: nat, name: string, other: string)
    requires k <= |order| && Ascending(order) && other in store.bins
    requires forall c :: c in order ==> c.accessed == AccessedAt(store, c.name)
    requires name in Names(order[..k]) && other !in Names(order[..k])
    requires Candidate(AccessedAt(store, other), other, store.bins[other]) in order
    ensures AccessedAt(store, name) <= AccessedAt(store, other)
  {
    var c :| c in order[..k] && c.name == name;
    var i :| 0 <= i < k && order[i] == c;
    var j :| 0 <= j < |order| && order[j] == Candidate(AccessedAt(store, other), other, store.bins[other]);
    assert forall q :: 0 <= q < k ==> order[..k][q] in order[..k];
  }

  lemma GoneAreVictims(store: Store, victims: seq<Candidate>)
    requires forall c :: c in victims ==> c.name in store.bins && !Monitored(store, c.name)
    ensures var after := Unlinked(store, victims);
            && store.bins.Keys - after.bins.Keys == Names(victims)
            && after ==
                 Store(store.bins - Names(victims), store.metas - Names(victims), store.wikidata - Names(victims))
  {
  }
}
