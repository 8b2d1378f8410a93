/**
 The offline compaction of artwork snapshots: on a copy of the database, inline
 artwork that a verified blob repeats exactly is replaced by `[]`, one bounded
 batch at a time.
 */
module SnapshotCompaction {
  import opened Wrappers

  datatype Error = BatchSize | NoBlob | BlobUnverified | NotACopy | RowChanged | IntegrityFailed

  datatype Result<+T> = Ok(value: T) | Err(error: Error)

  /** A row of one of the three tables; a row is named by its table and its place in key order. */
  datatype Row = Row(blob: Option<string>, image: Option<string>)

  datatype Candidate = Candidate(table: nat, place: nat, row: Row)

  datatype Report = Report(scanned: nat, cleared: nat, bytes: int, remaining: bool)

  type Tables = seq<seq<Row>>

  const EMPTY := "[]"
  const MAX_BATCH_SIZE: nat := 100

  // ----- Candidates -----

  predicate Redundant(row: Row) {
    row.image.Some? && row.image.value != EMPTY
  }

  function TableCandidates(table: nat, rows: seq<Row>, place: nat): (r: seq<Candidate>)
    requires place <= |rows|
    ensures forall c :: c in r ==>
              c.table == table && place <= c.place < |rows| && c.row == rows[c.place] && Redundant(c.row)
    decreases |rows| - place
  {
    if place == |rows| then []
    else
      (if Redundant(rows[place]) then [Candidate(table, place, rows[place])] else [])
      + TableCandidates(table, rows, place + 1)
  }

  /** The candidates of the tables from `table` on, table by table, in key order. */
  function CandidatesFrom(tables: Tables, table: nat): (r: seq<Candidate>)
    requires table <= |tables|
    ensures forall c :: c in r ==> IsAt(tables, c) && Redundant(c.row) && c.table >= table
    decreases |tables| - table
  {
    if table == |tables| then [] else TableCandidates(table, tables[table], 0) + CandidatesFrom(tables, table + 1)
  }

  function Candidates(tables: Tables): seq<Candidate> {
    CandidatesFrom(tables, 0)
  }

  /** The row stands where the candidate says. */
  predicate IsAt(tables: Tables, c: Candidate) {
    c.table < |tables| && c.place < |tables[c.table]| && tables[c.table][c.place] == c.row
  }

  // ----- The candidates are the rows with inline artwork, in order -----

  /** The row at this place has artwork of its own. */
  predicate InlineAt(tables: Tables, t: nat, p: nat) {
    t < |tables| && p < |tables[t]| && tables[t][p].image.Some? && tables[t][p].image.value != "[]"
  }

  ghost predicate AnyInline(tables: Tables) {
    exists t: nat, p: nat :: InlineAt(tables, t, p)
  }

  predicate Ahead(c: Candidate, d: Candidate) {
    c.table < d.table || (c.table == d.table && c.place < d.place)
  }

  predicate InOrder(cs: seq<Candidate>) {
    forall i, j :: 0 <= i < j < |cs| ==> Ahead(cs[i], cs[j])
  }

  lemma {:induction false} TableExact(table: nat, rows: seq<Row>, place: nat)
    requires place <= |rows|
    ensures forall p: nat :: place <= p < |rows| && Redundant(rows[p]) ==>
              Candidate(table, p, rows[p]) in TableCandidates(table, rows, place)
    ensures InOrder(TableCandidates(table, rows, place))
    decreases |rows| - place
  {
    if place < |rows| {
      TableExact(table, rows, place + 1);
    }
  }

  lemma {:induction false} TablesExact(tables: Tables, table: nat)
    requires table <= |tables|
    ensures forall t: nat, p: nat :: table <= t && InlineAt(tables, t, p) ==>
              Candidate(t, p, tables[t][p]) in CandidatesFrom(tables, table)
    ensures InOrder(CandidatesFrom(tables, table))
    decreases |tables| - table
  {
    if table < |tables| {
      TableExact(table, tables[table], 0);
      TablesExact(tables, table + 1);
      var own, later := TableCandidates(table, tables[table], 0), CandidatesFrom(tables, table + 1);
      assert forall c :: c in own ==> c.table == table;
      assert forall c :: c in later ==> c.table > table;
      forall i, j | 0 <= i < j < |own + later|
        ensures Ahead((own + later)[i], (own + later)[j])
      {
        if i < |own| <= j {
          assert own[i] in own && later[j - |own|] in later;
        }
      }
    }
  }

  /**
   A candidate is exactly a row of some table with artwork of its own, and the
   candidates come table by table and in key order, each once.
   */
  lemma CandidatesExact(tables: Tables, c: Candidate)
    ensures c in Candidates(tables) <==> InlineAt(tables, c.table, c.place) && c.row == tables[c.table][c.place]
    ensures InOrder(Candidates(tables))
  {
    TablesExact(tables, 0);
  }

  lemma CandidatesLeft(tables: Tables)
    ensures Candidates(tables) != [] <==> AnyInline(tables)
  {
    hide CandidatesFrom;
    TablesExact(tables, 0);
    if Candidates(tables) != [] {
      var c := Candidates(tables)[0];
      assert c in Candidates(tables);
      CandidatesExact(tables, c);
    }
    if AnyInline(tables) {
      var t: nat, p: nat :| InlineAt(tables, t, p);
      assert Candidate(t, p, tables[t][p]) in Candidates(tables);
    }
  }

  function First<T>(s: seq<T>, limit: nat): seq<T> {
    if |s| <= limit then s else s[..limit]
  }

  // ----- Clearing -----

  function ClearRow(tables: Tables, c: Candidate): (r: Tables)
    requires c.table < |tables| && c.place < |tables[c.table]|
    ensures |r| == |tables| && forall t :: 0 <= t < |r| ==> |r[t]| == |tables[t]|
  {
    tables[c.table := tables[c.table][c.place := tables[c.table][c.place].(image := Some(EMPTY))]]
  }

  /** Every row of the batch, in order; none when one of them is no longer what was verified. */
  function ClearAll(tables: Tables, cs: seq<Candidate>): Option<Tables>
    decreases |cs|
  {
    if cs == [] then Some(tables)
    else if IsAt(tables, cs[0]) then ClearAll(ClearRow(tables, cs[0]), cs[1..])
    else None
  }

  lemma {:induction false} TableUnaffected(table: nat, rows: seq<Row>, p: nat, row: Row, place: nat)
    requires p < place <= |rows|
    ensures TableCandidates(table, rows[p := row], place) == TableCandidates(table, rows, place)
    decreases |rows| - place
  {
    if place < |rows| {
      TableUnaffected(table, rows, p, row, place + 1);
    }
  }

  lemma {:induction false} TableCleared(table: nat, rows: seq<Row>, place: nat)
    requires place <= |rows| && TableCandidates(table, rows, place) != []
    ensures var cs := TableCandidates(table, rows, place);
            var p := cs[0].place;
            TableCandidates(table, rows[p := rows[p].(image := Some(EMPTY))], place) == cs[1..]
    decreases |rows| - place
  {
    var p := TableCandidates(table, rows, place)[0].place;
    if Redundant(rows[place]) {
      TableUnaffected(table, rows, p, rows[p].(image := Some(EMPTY)), place + 1);
    } else {
      TableCleared(table, rows, place + 1);
    }
  }

  lemma {:induction false} LaterUnaffected(tables: Tables, c: Candidate, table: nat)
    requires c.table < table <= |tables| && c.place < |tables[c.table]|
    ensures CandidatesFrom(ClearRow(tables, c), table) == CandidatesFrom(tables, table)
    decreases |tables| - table
  {
    if table < |tables| {
      LaterUnaffected(tables, c, table + 1);
    }
  }

  /** Clearing the first candidate leaves exactly the others. */
  lemma {:induction false} FirstCleared(tables: Tables, table: nat)
    requires table <= |tables| && CandidatesFrom(tables, table) != []
    ensures var cs := CandidatesFrom(tables, table); CandidatesFrom(ClearRow(tables, cs[0]), table) == cs[1..]
    decreases |tables| - table
  {
    var own := TableCandidates(table, tables[table], 0);
    if own != [] {
      TableCleared(table, tables[table], 0);
      LaterUnaffected(tables, own[0], table + 1);
    } else {
      FirstCleared(tables, table + 1);
    }
  }

  /** Clearing the first `k` candidates succeeds and leaves exactly the others. */
  lemma {:induction false} BatchCleared(tables: Tables, k: nat)
    requires k <= |Candidates(tables)|
    ensures ClearAll(tables, Candidates(tables)[..k]).Some?
    ensures Candidates(ClearAll(tables, Candidates(tables)[..k]).value) == Candidates(tables)[k..]
    decreases k
  {
    var cs := Candidates(tables);
    if k > 0 {
      FirstCleared(tables, 0);
      BatchCleared(ClearRow(tables, cs[0]), k - 1);
      assert cs[1..][..k - 1] == cs[..k][1..];
    }
  }

  // ----- What is recoverable -----

  /** The inline artwork, or the artwork of the verified blob once the row is cleared. */
  function Recoverable(artwork: string -> Option<string>, row: Row): Option<string> {
    if Redundant(row) || row.blob.None? then row.image
    else
      var copy := artwork(row.blob.value);
      if copy.Some? then copy else row.image
  }

  predicate SameArtwork(artwork: string -> Option<string>, before: Tables, after: Tables) {
    |before| == |after| &&
    forall t :: 0 <= t < |before| ==>
      && |before[t]| == |after[t]|
      && forall p :: 0 <= p < |before[t]| ==>
           after[t][p].blob == before[t][p].blob &&
               Recoverable(artwork, after[t][p]) == Recoverable(artwork, before[t][p])
  }

  /** The blob repeats the inline artwork exactly. */
  predicate Copied(artwork: string -> Option<string>, row: Row) {
    row.blob.Some? && row.image.Some? && artwork(row.blob.value) == row.image
  }

  function Bytes(cs: seq<Candidate>): int {
    if cs == [] then 0 else |Image(cs[0].row)| - 2 + Bytes(cs[1..])
  }

  function Image(row: Row): string {
    if row.image.Some? then row.image.value else []
  }

  /** The size of all inline artwork. */
  function Volume(tables: Tables): nat {
    if tables == [] then 0 else RowsVolume(tables[0]) + Volume(tables[1..])
  }

  function RowsVolume(rows: seq<Row>): nat {
    if rows == [] then 0 else |Image(rows[0])| + RowsVolume(rows[1..])
  }

  lemma {:induction false} RowsVolumeUpdate(rows: seq<Row>, p: nat, row: Row)
    requires p < |rows|
    ensures RowsVolume(rows[p := row]) == RowsVolume(rows) - |Image(rows[p])| + |Image(row)|
  {
    if p == 0 {
      assert rows[p := row][1..] == rows[1..];
    } else {
      assert rows[p := row][1..] == rows[1..][p - 1 := row];
      RowsVolumeUpdate(rows[1..], p - 1, row);
    }
  }

  lemma {:induction false} VolumeUpdate(tables: Tables, t: nat, rows: seq<Row>)
    requires t < |tables|
    ensures Volume(tables[t := rows]) == Volume(tables) - RowsVolume(tables[t]) + RowsVolume(rows)
  {
    if t == 0 {
      assert tables[t := rows][1..] == tables[1..];
    } else {
      assert tables[t := rows][1..] == tables[1..][t - 1 := rows];
      VolumeUpdate(tables[1..], t - 1, rows);
    }
  }

  lemma RowClearedKeeps(artwork: string -> Option<string>, tables: Tables, c: Candidate)
    requires IsAt(tables, c) && Redundant(c.row) && Copied(artwork, c.row)
    ensures SameArtwork(artwork, tables, ClearRow(tables, c))
    ensures Volume(ClearRow(tables, c)) == Volume(tables) - (|Image(c.row)| - 2)
  {
    var row := c.row.(image := Some(EMPTY));
    RowsVolumeUpdate(tables[c.table], c.place, row);
    VolumeUpdate(tables, c.table, tables[c.table][c.place := row]);
  }

  /** Clearing verified copies loses no artwork and frees exactly the bytes that are counted. */
  lemma {:induction false} ClearingIsLossless(artwork: string -> Option<string>, tables: Tables, cs: seq<Candidate>)
    requires forall c :: c in cs ==> Redundant(c.row) && Copied(artwork, c.row)
    requires ClearAll(tables, cs).Some?
    ensures SameArtwork(artwork, tables, ClearAll(tables, cs).value)
    ensures Volume(ClearAll(tables, cs).value) == Volume(tables) - Bytes(cs)
    decreases |cs|
  {
    if cs != [] {
      RowClearedKeeps(artwork, tables, cs[0]);
      ClearingIsLossless(artwork, ClearRow(tables, cs[0]), cs[1..]);
      SameArtworkTwice(artwork, tables, ClearRow(tables, cs[0]), ClearAll(tables, cs).value);
    }
  }

  lemma SameArtworkTwice(artwork: string -> Option<string>, one: Tables, two: Tables, three: Tables)
    requires SameArtwork(artwork, one, two) && SameArtwork(artwork, two, three)
    ensures SameArtwork(artwork, one, three)
  {
  }

  // ----- The command -----

  /** The batch, unless one of its rows has no blob. */
  function Loaded(batch: seq<Candidate>): Result<seq<Candidate>> {
    if exists c :: c in batch && c.row.blob.None? then Err(NoBlob) else Ok(batch)
  }

  lemma FirstAppend<T>(s: seq<T>, more: seq<T>, limit: nat)
    ensures First(s + more, limit) == if |s| >= limit then First(s, limit) else s + First(more, limit - |s|)
    ensures |First(s, limit)| <= limit && (|s| <= limit ==> First(s, limit) == s)
  {
  }

  /** One more table asked for what is still missing. */
  lemma LoadStep(tables: Tables, t: nat, candidates: seq<Candidate>, limit: nat)
    requires t < |tables| && |candidates| < limit
    ensures var rows := First(TableCandidates(t, tables[t], 0), limit - |candidates|);
            var all := First(candidates + CandidatesFrom(tables, t), limit);
            && |candidates + rows| <= limit && First((candidates + rows) + CandidatesFrom(tables, t + 1), limit) == all
            && forall c :: c in rows ==> c in all
  {
    hide First, TableCandidates, CandidatesFrom;
    TableFirst(tables, t);
    var own, later := TableCandidates(t, tables[t], 0), CandidatesFrom(tables, t + 1);
    var missing := limit - |candidates|;
    var rows := First(own, missing);
    FirstAppend(candidates, own + later, limit);
    FirstAppend(own, later, missing);
    FirstAppend(candidates + rows, later, limit);
    if |own| < missing {
      assert candidates + (own + First(later, missing - |own|)) == (candidates + own) + First(later, missing - |own|);
    } else {
      FirstAppend(own, [], missing);
      FirstFull(own, missing);
    }
  }

  lemma TableFirst(tables: Tables, t: nat)
    requires t < |tables|
    ensures CandidatesFrom(tables, t) == TableCandidates(t, tables[t], 0) + CandidatesFrom(tables, t + 1)
  {
  }

  lemma FirstFull<T>(s: seq<T>, limit: nat)
    requires |s| >= limit
    ensures |First(s, limit)| == limit
  {
  }

  class SnapshotCopy {
    /** The artwork of a blob that passes its path, kind, length, hash and decoding checks. */
    const artwork: string -> Option<string>
    var tables: Tables

    constructor (tables: Tables, artwork: string -> Option<string>)
      ensures this.tables == tables && this.artwork == artwork
    {
      this.tables, this.artwork := tables, artwork;
    }

    /** The first rows with inline artwork, asking each table for as many as are still missing. */
    method LoadCandidates(limit: nat) returns (r: Result<seq<Candidate>>)
      ensures r == Loaded(First(Candidates(tables), limit))
    {
      hide First, TableCandidates, CandidatesFrom;
      var candidates := [];
      ghost var all := First(Candidates(tables), limit);
      var t := 0;
      assert [] + CandidatesFrom(tables, 0) == CandidatesFrom(tables, 0);
      while t < |tables| && limit - |candidates| > 0
        invariant t <= |tables| && |candidates| <= limit
        invariant First(candidates + CandidatesFrom(tables, t), limit) == all
        invariant forall c :: c in candidates ==> c.row.blob.Some?
      {
        LoadStep(tables, t, candidates, limit);
        var rows := First(TableCandidates(t, tables[t], 0), limit - |candidates|);
        for i := 0 to |rows|
          invariant forall k :: 0 <= k < i ==> rows[k].row.blob.Some?
        {
          if rows[i].row.blob.None? {
            assert rows[i] in all;
            return Err(NoBlob);
          }
        }
        candidates := candidates + rows;
        t := t + 1;
      }
      FirstAppend(candidates, CandidatesFrom(tables, t), limit);
      NoTableLeft(tables);
      FirstAppend(candidates, [], limit);
      assert candidates + [] == candidates;
      r := Ok(candidates);
    }

    /** Every candidate's inline artwork must be what its blob says; the bytes counted are those that go. */
    method VerifyCandidates(cs: seq<Candidate>) returns (r: Result<int>)
      ensures r.Ok? <==> forall c :: c in cs ==> Copied(artwork, c.row)
      ensures if r.Ok? then r.value == Bytes(cs) else r.error == BlobUnverified || r.error == NotACopy
    {
      var bytes := 0;
      for i := 0 to |cs|
        invariant forall k :: 0 <= k < i ==> Copied(artwork, cs[k].row)
        invariant bytes + Bytes(cs[i..]) == Bytes(cs)
      {
        var row := cs[i].row;
        assert cs[i] in cs && cs[i..][1..] == cs[i + 1..];
        if row.blob.None? || artwork(row.blob.value).None? {
          return Err(BlobUnverified);
        }
        if row.image != artwork(row.blob.value) {
          return Err(NotACopy);
        }
        bytes := bytes + |Image(row)| - 2;
      }
      r := Ok(bytes);
    }

    /** One transaction: every row of the batch is still as verified and is cleared, or nothing changes. */
    method ClearCandidates(cs: seq<Candidate>) returns (ok: bool)
      modifies this
      ensures ok <==> ClearAll(old(tables), cs).Some?
      ensures tables == if ok then ClearAll(old(tables), cs).value else old(tables)
    {
      var work := tables;
      for i := 0 to |cs|
        invariant tables == old(tables)
        invariant ClearAll(work, cs[i..]) == ClearAll(old(tables), cs)
      {
        assert cs[i..][1..] == cs[i + 1..];
        if !IsAt(work, cs[i]) {
          return false;
        }
        work := ClearRow(work, cs[i]);
      }
      tables := work;
      ok := true;
    }

    method HasCandidates() returns (r: bool)
      ensures r <==> Candidates(tables) != []
      ensures r <==> AnyInline(tables)
    {
      hide AnyInline;
      r := false;
      NoTableLeft(tables);
      CandidatesLeft(tables);
      for t := 0 to |tables|
        invariant !r && CandidatesFrom(tables, t) == Candidates(tables)
      {
        if TableCandidates(t, tables[t], 0) != [] {
          return true;
        }
      }
    }

    /**
     One batch. `meanwhile` is what another connection wrote between the
     verification and the transaction, `healthy` the database's own checks.
     */
    method Compact(apply: bool, batchSize: int, meanwhile: Option<Tables>, healthy: bool) returns (r: Result<Report>)
      modifies this
      ensures batchSize < 1 || batchSize > MAX_BATCH_SIZE ==> r == Err(BatchSize) && tables == old(tables)
      ensures !apply ==> tables == old(tables) && (r.Ok? ==> r.value.cleared == 0 && r.value.bytes == 0)
      ensures r.Ok? ==> (r.value.remaining <==> AnyInline(tables))
      ensures 1 <= batchSize <= MAX_BATCH_SIZE && apply && meanwhile.None? ==>
                var all := Candidates(old(tables));
                var batch := First(all, batchSize);
                && (r.Ok? <==> (forall c :: c in batch ==> Copied(artwork, c.row)) && (|all| <= batchSize ==> healthy))
                && (r.Ok? || r.error == IntegrityFailed ==>
                      && ClearAll(old(tables), batch) == Some(tables) && Candidates(tables) == all[|batch|..]
                      && SameArtwork(artwork, old(tables), tables)
                      && Volume(tables) == Volume(old(tables)) - Bytes(batch))
                && (r.Err? && r.error != IntegrityFailed ==> tables == old(tables))
                && (r.Ok? ==>
                      r.value == Report(|batch|, |batch|, Volume(old(tables)) - Volume(tables), |all| > batchSize))
      ensures 1 <= batchSize <= MAX_BATCH_SIZE && apply && meanwhile.Some? ==>
                var batch := First(Candidates(old(tables)), batchSize);
                && (r == Err(RowChanged) ==> tables == meanwhile.value && ClearAll(meanwhile.value, batch).None?)
                && (r.Ok? || r == Err(IntegrityFailed) ==>
                      && ClearAll(meanwhile.value, batch) == Some(tables)
                      && SameArtwork(artwork, meanwhile.value, tables)
                      && Volume(tables) == Volume(meanwhile.value) - Bytes(batch))
                && (r.Ok? ==> r.value.cleared == |batch| && r.value.bytes == Bytes(batch))
                && (r.Err? && r.error != RowChanged && r.error != IntegrityFailed ==> tables == old(tables))
    {
      hide *;
      if batchSize < 1 || batchSize > MAX_BATCH_SIZE {
        return Err(BatchSize);
      }
      ghost var batch := First(Candidates(tables), batchSize);
      BatchOutcome(artwork, tables, batchSize);
      var loaded := LoadCandidates(batchSize);
      if loaded.Err? {
        return Err(loaded.error);
      }
      var candidates := loaded.value;
      var bytes := VerifyCandidates(candidates);
      if bytes.Err? {
        return Err(bytes.error);
      }
      if apply && meanwhile.Some? {
        tables := meanwhile.value;
        NothingToClear(tables);
        ClearingIsLossless(artwork, tables, []);
      }
      if apply && candidates != [] {
        ghost var seen := tables;
        var cleared := ClearCandidates(candidates);
        if cleared {
          ClearingIsLossless(artwork, seen, candidates);
        }
        if !cleared {
          return Err(RowChanged);
        }
      }
      var remaining := HasCandidates();
      if apply && !remaining && !healthy {
        return Err(IntegrityFailed);
      }
      r := Ok(Report(|candidates|, if apply then |candidates| else 0, if apply then bytes.value else 0, remaining));
    }
  }

  /** What a batch does when nothing comes between. */
  lemma BatchOutcome(artwork: string -> Option<string>, tables: Tables, limit: nat)
    ensures var all := Candidates(tables);
            var batch := First(all, limit);
            && (Loaded(batch).Err? ==>
                 Loaded(batch).error == NoBlob && exists c :: c in batch && !Copied(artwork, c.row))
            && (Loaded(batch).Ok? ==> Loaded(batch).value == batch)
            && (forall c :: c in batch ==> Redundant(c.row))
            && ClearAll(tables, batch).Some? && Candidates(ClearAll(tables, batch).value) == all[|batch|..]
            && (batch == [] ==> ClearAll(tables, batch) == Some(tables))
            && ((forall c :: c in batch ==> Copied(artwork, c.row)) ==>
                  && SameArtwork(artwork, tables, ClearAll(tables, batch).value)
                  && Volume(ClearAll(tables, batch).value) == Volume(tables) - Bytes(batch))
            && (|all[|batch|..]| > 0 <==> |all| > limit)
  {
    hide SameArtwork, Volume, Bytes, CandidatesFrom, ClearAll;
    var all := Candidates(tables);
    var batch := First(all, limit);
    assert batch == all[..|batch|];
    BatchCleared(tables, |batch|);
    forall c | c in batch
      ensures Redundant(c.row)
    {
      assert c in all;
    }
    if forall c :: c in batch ==> Copied(artwork, c.row) {
      ClearingIsLossless(artwork, tables, batch);
    }
    NothingToClear(tables);
  }

  lemma NothingToClear(tables: Tables)
    ensures ClearAll(tables, []) == Some(tables)
  {
  }

  // ----- Many batches -----

  /** The tables after so many successful batches. */
  function AfterBatches(tables: Tables, batchSize: nat, batches: nat): Tables
    decreases batches
  {
    if batches == 0 then tables
    else
      var earlier := AfterBatches(tables, batchSize, batches - 1);
      var cleared := ClearAll(earlier, First(Candidates(earlier), batchSize));
      if cleared.Some? then cleared.value else earlier
  }

  /** All but the first `gone`. */
  function Rest(all: seq<Candidate>, gone: nat): seq<Candidate> {
    if gone <= |all| then all[gone..] else []
  }

  lemma OneBatch(artwork: string -> Option<string>, tables: Tables, batchSize: nat, batches: nat)
    requires var earlier := AfterBatches(tables, batchSize, batches);
             forall c :: c in First(Candidates(earlier), batchSize) ==> Copied(artwork, c.row)
    ensures var earlier := AfterBatches(tables, batchSize, batches);
            var after := AfterBatches(tables, batchSize, batches + 1);
            Candidates(after) == Rest(Candidates(earlier), batchSize) && SameArtwork(artwork, earlier, after)
  {
    hide SameArtwork, CandidatesFrom, ClearAll, Copied, Volume, Bytes;
    var earlier := AfterBatches(tables, batchSize, batches);
    BatchOutcome(artwork, earlier, batchSize);
  }

  lemma RestTwice(all: seq<Candidate>, gone: nat, more: nat)
    ensures Rest(Rest(all, gone), more) == Rest(all, gone + more)
    ensures forall c :: c in First(all, gone) ==> c in First(all, gone + more)
    ensures forall c :: c in First(Rest(all, gone), more) ==> c in First(all, gone + more)
  {
    var front := First(all, gone + more);
    if gone <= |all| {
      assert First(all, gone) == front[..gone] && First(Rest(all, gone), more) == front[gone..];
    }
  }

  /** After so many batches exactly the first candidates are gone, and no artwork is. */
  lemma {:induction false} BatchesFinish(artwork: string -> Option<string>, tables: Tables, batchSize: nat,
      batches: nat)
    requires forall c :: c in First(Candidates(tables), batches * batchSize) ==> Copied(artwork, c.row)
    ensures var after := AfterBatches(tables, batchSize, batches);
            Candidates(after) == Rest(Candidates(tables), batches * batchSize) && SameArtwork(artwork, tables, after)
    decreases batches
  {
    hide SameArtwork, CandidatesFrom, Copied, Rest, AfterBatches, First;
    if batches == 0 {
      NoBatch(artwork, tables, batchSize);
    } else {
      var gone := (batches - 1) * batchSize;
      assert gone + batchSize == batches * batchSize;
      RestTwice(Candidates(tables), gone, batchSize);
      BatchesFinish(artwork, tables, batchSize, batches - 1);
      OneBatch(artwork, tables, batchSize, batches - 1);
      SameArtworkTwice(artwork, tables, AfterBatches(tables, batchSize, batches - 1),
          AfterBatches(tables, batchSize, batches));
    }
  }

  lemma NoBatch(artwork: string -> Option<string>, tables: Tables, batchSize: nat)
    ensures AfterBatches(tables, batchSize, 0) == tables && SameArtwork(artwork, tables, tables)
    ensures Rest(Candidates(tables), 0 * batchSize) == Candidates(tables)
  {
  }

  /** As many batches as it takes to count all candidates leave no row of any table with artwork of its own. */
  lemma EnoughBatchesFinish(artwork: string -> Option<string>, tables: Tables, batchSize: nat)
    requires batchSize > 0 && forall c :: c in Candidates(tables) ==> Copied(artwork, c.row)
    ensures var n := |Candidates(tables)|;
            && !AnyInline(AfterBatches(tables, batchSize, BatchesFor(n, batchSize)))
            && SameArtwork(artwork, tables, AfterBatches(tables, batchSize, BatchesFor(n, batchSize)))
            && forall fewer: nat :: fewer < BatchesFor(n, batchSize) ==>
                 AnyInline(AfterBatches(tables, batchSize, fewer))
  {
    hide SameArtwork, CandidatesFrom, Copied, AfterBatches, BatchesFor, AnyInline;
    CandidatesLeft(AfterBatches(tables, batchSize, BatchesFor(|Candidates(tables)|, batchSize)));
    var n := |Candidates(tables)|;
    assert forall limit, c :: c in First(Candidates(tables), limit) ==> c in Candidates(tables);
    RoundedUp(n, batchSize, BatchesFor(n, batchSize));
    BatchesFinish(artwork, tables, batchSize, BatchesFor(n, batchSize));
    forall fewer: nat | fewer < BatchesFor(n, batchSize)
      ensures AnyInline(AfterBatches(tables, batchSize, fewer))
    {
      CandidatesLeft(AfterBatches(tables, batchSize, fewer));
      RoundedUp(n, batchSize, fewer);
      BatchesFinish(artwork, tables, batchSize, fewer);
    }
  }

  /** The quotient, rounded up. */
  function BatchesFor(n: nat, size: nat): nat
    requires size > 0
  {
    (n + size - 1) / size
  }

  lemma RoundedUp(n: nat, size: nat, batches: nat)
    requires size > 0
    ensures batches == BatchesFor(n, size) ==> batches * size >= n
    ensures batches < BatchesFor(n, size) ==> batches * size < n
  {
    var q := BatchesFor(n, size);
    assert q * size + (n + size - 1) % size == n + size - 1;
    if batches < q {
      assert batches * size <= (q - 1) * size == q * size - size;
    }
  }

  lemma NoTableLeft(tables: Tables)
    ensures CandidatesFrom(tables, |tables|) == []
  {
  }
}
