/**
 The content-addressed blob store: object files named by their hash, published
 before their ledger row is written and removed after it is deleted. Every
 operation runs alone under the operation lock, but the process can die between
 any two effects, and references to blobs come and go meanwhile.
 */
module BlobStore {
  import opened Wrappers

  type Bytes = seq<bv8>

  datatype File = File(content: Bytes, modified: real)

  datatype Temporary = Temporary(file: File, regular: bool, staged: bool)

  datatype Row = Row(kind: string, length: nat, metadata: string, created: real, revision: nat)

  datatype Error = OutOfRange | NotRegular | StagedMismatch | ExistingMismatch | DifferentMetadata | RevisionOverflow
    | NotFound | Referenced

  /** An operation returns, raises, or is cut off. */
  datatype Outcome<+T> = Done(value: T) | Raised(error: Error) | Died

  datatype Cleaned = Cleaned(temporaries: nat, ledger: nat, unledgered: nat)

  const IMAGE := "image"
  const NO_METADATA := "{}"
  const MAX_LIMIT: nat := 500
  const MAX_REVISION: nat := 9_223_372_036_854_775_807
  const HEADER_BYTES: nat := 12

  // ----- Image metadata -----

  predicate StartsWith(content: Bytes, prefix: Bytes) {
    |prefix| <= |content| && content[..|prefix|] == prefix
  }

  /** The metadata a file's first bytes give an image. */
  function ImageMetadata(content: Bytes): string {
    if StartsWith(content, [0xFF, 0xD8, 0xFF]) then "{\"mime_type\":\"image/jpeg\"}"
    else if StartsWith(content, [0x89, 0x50, 0x4E, 0x47, 0x0D, 0x0A, 0x1A, 0x0A]) then "{\"mime_type\":\"image/png\"}"
    else if StartsWith(content, [0x47, 0x49, 0x46, 0x38, 0x37, 0x61]) ||
        StartsWith(content, [0x47, 0x49, 0x46, 0x38, 0x39, 0x61])
    then "{\"mime_type\":\"image/gif\"}"
    else if |content| >= 12 && content[..4] == [0x52, 0x49, 0x46, 0x46] && content[8..12] == [0x57, 0x45, 0x42, 0x50]
    then "{\"mime_type\":\"image/webp\"}"
    else NO_METADATA
  }

  datatype Signature = Jpeg | Png | Gif | Webp

  /** The signatures an image starts with; no two of them agree in their first byte. */
  predicate Starts(content: Bytes, signature: Signature) {
    match signature
    case Jpeg => StartsWith(content, [0xFF, 0xD8, 0xFF])
    case Png => StartsWith(content, [0x89, 0x50, 0x4E, 0x47, 0x0D, 0x0A, 0x1A, 0x0A])
    case Gif =>
      || StartsWith(content, [0x47, 0x49, 0x46, 0x38, 0x37, 0x61])
      || StartsWith(content, [0x47, 0x49, 0x46, 0x38, 0x39, 0x61])
    case Webp =>
      && |content| >= 12 && StartsWith(content, [0x52, 0x49, 0x46, 0x46])
      && StartsWith(content[8..], [0x57, 0x45, 0x42, 0x50])
  }

  /** A file is described by the one signature it starts with, and by nothing when it starts with none. */
  lemma ImageSignatures(content: Bytes)
    ensures forall one, other :: Starts(content, one) && Starts(content, other) ==> one == other
    ensures Starts(content, Jpeg) ==> ImageMetadata(content) == "{\"mime_type\":\"image/jpeg\"}"
    ensures Starts(content, Png) ==> ImageMetadata(content) == "{\"mime_type\":\"image/png\"}"
    ensures Starts(content, Gif) ==> ImageMetadata(content) == "{\"mime_type\":\"image/gif\"}"
    ensures Starts(content, Webp) ==> ImageMetadata(content) == "{\"mime_type\":\"image/webp\"}"
    ensures (forall signature :: !Starts(content, signature)) ==> ImageMetadata(content) == "{}"
  {
    FirstByte(content);
    if |content| >= 12 {
      assert content[8..][..4] == content[8..12];
    }
    assert !Starts(content, Jpeg) && !Starts(content, Png) && !Starts(content, Gif) && !Starts(content, Webp) ==>
        ImageMetadata(content) == "{}";
  }

  lemma FirstByte(content: Bytes)
    ensures Starts(content, Jpeg) ==> content[..3][0] == 0xFF && content[0] == 0xFF
    ensures Starts(content, Png) ==> content[..8][0] == 0x89 && content[0] == 0x89
    ensures Starts(content, Gif) ==> content[..6][0] == 0x47 && content[0] == 0x47
    ensures Starts(content, Webp) ==> content[..4][0] == 0x52 && content[0] == 0x52
  {
  }

  function Header(content: Bytes): Bytes {
    if |content| <= HEADER_BYTES then content else content[..HEADER_BYTES]
  }

  /** The header that is kept while a file is copied is enough to tell an image. */
  lemma HeaderTellsImage(content: Bytes)
    ensures ImageMetadata(Header(content)) == ImageMetadata(content)
  {
    if |content| > HEADER_BYTES {
      var header := content[..HEADER_BYTES];
      assert header[..3] == content[..3] && header[..8] == content[..8] && header[..6] == content[..6];
      assert header[..4] == content[..4] && header[8..12] == content[8..12];
    }
  }

  function MetadataFor(kind: string, metadata: string, content: Bytes): string {
    if kind == IMAGE && metadata == NO_METADATA then ImageMetadata(content) else metadata
  }

  /** Metadata that are given are kept; an image without any gets those of its signature, and nothing else does. */
  lemma MetadataGiven(kind: string, metadata: string, content: Bytes)
    ensures metadata != "{}" || kind != "image" ==> MetadataFor(kind, metadata, content) == metadata
    ensures kind == "image" && Starts(content, Png) ==>
              MetadataFor(kind, "{}", content) == "{\"mime_type\":\"image/png\"}"
    ensures kind == "image" ==> MetadataFor(kind, "{}", content) == ImageMetadata(content)
  {
    ImageSignatures(content);
  }

  // ----- The ledger -----

  predicate Matches(sha256: Bytes -> string, content: Bytes, digest: string, length: nat) {
    sha256(content) == digest && |content| == length
  }

  /** Some ledger row has no object, or one that is not its registered content. */
  predicate Dangles(sha256: Bytes -> string, objects: map<string, File>, ledger: map<string, Row>) {
    exists digest :: digest in ledger &&
      (digest !in objects || !Matches(sha256, objects[digest].content, digest, ledger[digest].length))
  }

  /** `INSERT OR IGNORE`, and then the promotion or enrichment of an image. */
  function Registered(old_: Row, new_: Row): Row {
    if new_.kind == IMAGE && (old_.kind != IMAGE || (old_.metadata == NO_METADATA && new_.metadata != NO_METADATA))
    then old_.(kind := IMAGE, metadata := new_.metadata, revision := old_.revision + 1)
    else old_
  }

  /** Registering again changes nothing, an image stays one, and image metadata once known is kept. */
  lemma RegisteringTwice(old_: Row, new_: Row, later: Row)
    ensures Registered(Registered(old_, new_), new_) == Registered(old_, new_)
    ensures var row, learns := Registered(old_, new_),
                               old_.kind != "image" || (old_.metadata == "{}" && new_.metadata != "{}");
            && (row != old_ <==> new_.kind == "image" && learns)
            && (row != old_ ==> row.metadata == new_.metadata && row.revision == old_.revision + 1)
    ensures var row := Registered(old_, new_);
            && (row.kind == IMAGE <==> old_.kind == IMAGE || new_.kind == IMAGE)
            && row.length == old_.length && row.created == old_.created
            && (row.kind == IMAGE && row.metadata != NO_METADATA ==> Registered(row, later) == row)
  {
  }

  /** Files that stay are the files that were. */
  predicate Kept(before: map<string, File>, after: map<string, File>) {
    forall digest :: digest in before && digest in after ==> after[digest] == before[digest]
  }

  class LibraryManagementBlobStore {
    const sha256: Bytes -> string
    var objects: map<string, File>
    var temporaries: map<nat, Temporary>
    var ledger: map<string, Row>
    /** The blobs with a reference, by digest. */
    var references: set<string>

    ghost predicate Valid()
      reads this
    {
      !Dangles(sha256, objects, ledger) && references <= ledger.Keys
    }

    /** Stages the bytes, links them under their hash and drops the staging file. `written` is what arrives on disk. */
    method Publish(written: Bytes, digest: string, length: nat, now: real, staging: nat, fuel: nat)
      returns (r: Outcome<nat>, left: nat)
      requires Valid() && staging !in temporaries
      modifies this`objects, this`temporaries
      ensures Valid() && left <= fuel && (fuel >= 3 ==> !r.Died? && left >= fuel - 3)
      ensures var effects := if digest in old(objects) || !Matches(sha256, written, digest, length) then 2 else 3;
              (r.Died? <==> fuel < effects) && (!r.Died? ==> left == fuel - effects)
      ensures r.Died? ==>
                temporaries ==
                if fuel == 0 then old(temporaries)
                else old(temporaries)[staging := Temporary(File(written, now), true, true)]
      ensures forall other :: other in old(objects) ==> other in objects && objects[other] == old(objects)[other]
      ensures forall other :: other in objects && other !in old(objects) ==>
                other == digest && objects[other] == File(written, now) && Matches(sha256, written, digest, length)
      ensures r.Done? ==>
                && r.value == length && digest in objects && Matches(sha256, objects[digest].content, digest, length)
      ensures !r.Died? ==> temporaries == old(temporaries)
      ensures r.Raised? <==>
                && !r.Died?
                && (!Matches(sha256, written, digest, length)
                    || (digest in old(objects) && !Matches(sha256, old(objects)[digest].content, digest, length)))
    {
      left := fuel;
      if left < 1 {
        return Died, left;
      }
      left := left - 1;
      temporaries := temporaries[staging := Temporary(File(written, now), true, true)];
      r := Done(length);
      if !Matches(sha256, written, digest, length) {
        r := Raised(StagedMismatch);
      } else if digest in objects {
        if !Matches(sha256, objects[digest].content, digest, length) {
          r := Raised(ExistingMismatch);
        }
      } else {
        if left < 1 {
          return Died, left;
        }
        left := left - 1;
        objects := objects[digest := File(written, now)];
      }
      if left < 1 {
        return Died, left;
      }
      left := left - 1;
      temporaries := temporaries - {staging};
    }

    /** The ledger row of a published blob. */
    method Register(digest: string, row: Row, fuel: nat) returns (r: Outcome<Row>, left: nat)
      requires Valid() && digest in objects && Matches(sha256, objects[digest].content, digest, row.length)
      modifies this`ledger
      ensures Valid() && left <= fuel && (fuel >= 1 ==> !r.Died?)
      ensures forall other :: other in old(ledger) ==>
                other in ledger && ledger[other].length == old(ledger)[other].length &&
                    ledger[other].created == old(ledger)[other].created
      ensures forall other :: other in ledger && other != digest ==>
                other in old(ledger) && ledger[other] == old(ledger)[other]
      ensures r.Done? ==>
                && digest in ledger && ledger[digest] == r.value && r.value.length == row.length
                && r.value == if digest in old(ledger) then Registered(old(ledger)[digest], row) else row
      ensures !r.Done? ==> ledger == old(ledger)
      ensures if fuel == 0 then r.Died? else left == fuel - 1
      ensures fuel > 0 ==>
                (r.Raised? <==>
                 && digest in old(ledger) && old(ledger)[digest].revision >= MAX_REVISION
                 && Registered(old(ledger)[digest], row) != old(ledger)[digest])
      ensures r.Raised? ==>
                r.error == RevisionOverflow && digest in old(ledger) && old(ledger)[digest].revision >= MAX_REVISION
    {
      left := fuel;
      if left < 1 {
        return Died, left;
      }
      left := left - 1;
      var held := if digest in ledger then ledger[digest] else row;
      if held.length != row.length {
        return Raised(DifferentMetadata), left;
      }
      var registered := Registered(held, row);
      if registered != held && held.revision >= MAX_REVISION {
        return Raised(RevisionOverflow), left;
      }
      ledger := ledger[digest := registered];
      r := Done(registered);
    }

    /** Publishes the bytes under their hash and then registers them. */
    method AddBytes(content: Bytes, written: Bytes, kind: string, metadata: string, now: real, staging: nat, fuel: nat)
      returns (r: Outcome<Row>, left: nat)
      requires Valid() && staging !in temporaries
      modifies this`objects, this`temporaries, this`ledger
      ensures Valid() && left <= fuel
      ensures forall other :: other in old(objects) ==> other in objects && objects[other] == old(objects)[other]
      ensures forall other :: other in old(ledger) ==>
                other in ledger && ledger[other].length == old(ledger)[other].length
      ensures forall other :: other in objects && other !in old(objects) ==>
                other == sha256(content) && Matches(sha256, objects[other].content, other, |content|)
      ensures r.Done? ==>
                var digest := sha256(content);
                && digest in ledger && ledger[digest] == r.value && r.value.length == |content|
                && Matches(sha256, objects[digest].content, digest, |content|)
      ensures !r.Died? ==> temporaries == old(temporaries)
      ensures fuel >= 4 ==> !r.Died?
      ensures r.Raised? ==>
                var digest := sha256(content);
                || !Matches(sha256, written, digest, |content|)
                || (digest in old(objects) && !Matches(sha256, old(objects)[digest].content, digest, |content|))
                || (digest in old(ledger) && old(ledger)[digest].revision >= MAX_REVISION)
    {
      var digest := sha256(content);
      var published;
      published, left := Publish(written, digest, |content|, now, staging, fuel);
      match published
      case Died => r := Died;
      case Raised(error) => r := Raised(error);
      case Done(length) =>
        r, left := Register(digest, Row(kind, length, MetadataFor(kind, metadata, content), now, 1), left);
    }

    /** The same for a file, whose hash, length and first bytes are taken while it is copied. */
    method AddFile(source: Option<Bytes>, kind: string, metadata: string, now: real, staging: nat, fuel: nat)
      returns (r: Outcome<Row>, left: nat)
      requires Valid() && staging !in temporaries
      modifies this`objects, this`temporaries, this`ledger
      ensures Valid() && left <= fuel
      ensures forall other :: other in old(objects) ==> other in objects && objects[other] == old(objects)[other]
      ensures forall other :: other in old(ledger) ==>
                other in ledger && ledger[other].length == old(ledger)[other].length
      ensures source.None? ==> r == Raised(NotRegular) && objects == old(objects) && ledger == old(ledger)
      ensures r.Done? ==>
                var content := source.value;
                var digest := sha256(content);
                && digest in ledger && ledger[digest] == r.value && r.value.length == |content|
                && Matches(sha256, objects[digest].content, digest, |content|)
                && (digest !in old(ledger) ==>
                      r.value == Row(kind, |content|, MetadataFor(kind, metadata, content), now, 1))
      ensures source.Some? ==>
                forall other :: other in objects && other !in old(objects) ==>
                  && other == sha256(source.value)
                  && Matches(sha256, objects[other].content, other, |source.value|)
      ensures !r.Died? ==> temporaries == old(temporaries)
      ensures fuel >= 4 ==> !r.Died?
      ensures r.Raised? && source.Some? ==>
                var content := source.value;
                var digest := sha256(content);
                || (digest in old(objects) && !Matches(sha256, old(objects)[digest].content, digest, |content|))
                || (digest in old(ledger) && old(ledger)[digest].revision >= MAX_REVISION)
    {
      left := fuel;
      if source.None? {
        return Raised(NotRegular), left;
      }
      var content := source.value;
      var digest := sha256(content);
      var published;
      published, left := Publish(content, digest, |content|, now, staging, fuel);
      match published
      case Died => r := Died;
      case Raised(error) => r := Raised(error);
      case Done(length) =>
        HeaderTellsImage(content);
        r, left := Register(digest, Row(kind, length, MetadataFor(kind, metadata, Header(content)), now, 1), left);
    }

    /** A registered blob can always be read, and what is read has its hash and length. */
    method ReadBytes(digest: string) returns (r: Outcome<Bytes>)
      requires Valid()
      ensures digest in ledger ==> r.Done? && Matches(sha256, r.value, digest, ledger[digest].length)
      ensures digest !in ledger ==> r == Raised(NotFound)
    {
      if digest !in ledger {
        return Raised(NotFound);
      }
      if digest !in objects || !Matches(sha256, objects[digest].content, digest, ledger[digest].length) {
        return Raised(ExistingMismatch);
      }
      r := Done(objects[digest].content);
    }

    /** References come and go outside the operation lock; a reference needs its row. */
    method Refer(wanted: set<string>)
      requires Valid()
      modifies this`references
      ensures Valid() && references == wanted * ledger.Keys
    {
      references := wanted * ledger.Keys;
    }

    /**
     A cleanup: old staging files, then old rows without a reference together
     with their objects, then old objects without a row, up to one limit for all
     three. `staged`, `rows` and `files` are the orders in which the directories
     and the ledger are read, `meanwhile` the references when a row is deleted.
     */
    method Cleanup(
        olderThan: real, limit: int, staged: seq<nat>, rows: seq<string>, files: seq<string>,
        meanwhile: nat -> set<string>, fuel: nat)
      returns (r: Outcome<Cleaned>, left: nat)
      requires Valid()
      modifies this`objects, this`temporaries, this`ledger, this`references
      ensures Valid() && left <= fuel
      ensures r == Raised(OutOfRange) <==> limit < 1 || limit > MAX_LIMIT
      ensures limit < 1 || limit > MAX_LIMIT ==>
                r == Raised(OutOfRange) && objects == old(objects) && ledger == old(ledger) &&
                    temporaries == old(temporaries)
      ensures r.Done? ==> r.value.temporaries + r.value.ledger + r.value.unledgered <= limit
      ensures fuel >= 2 * MAX_LIMIT ==> !r.Died?
      ensures 1 <= limit <= MAX_LIMIT ==>
                |old(temporaries)| + |old(objects)| <= |temporaries| + |objects| + limit
      ensures KeepsFit(old(objects), old(ledger), old(references), rows, olderThan, limit, meanwhile, ledger, objects)
      ensures r.Done? ==>
                && |old(temporaries)| == |temporaries| + r.value.temporaries
                && |old(ledger)| == |ledger| + r.value.ledger
                && (Distinct(files) ==> |old(objects)| == |objects| + r.value.ledger + r.value.unledgered)
      ensures r.Done? && r.value.temporaries < limit ==>
                forall i :: 0 <= i < |staged| && i < limit * 4 ==> !IsOldStaging(temporaries, olderThan, staged[i])
      ensures r.Done? ==>
                RowsSwept(old(ledger), old(references), rows, olderThan, limit - r.value.temporaries, meanwhile,
                  ledger, objects)
      ensures r.Done? ==>
                ObjectsSwept(old(objects) - (old(ledger).Keys - ledger.Keys), files, olderThan,
                     limit - r.value.temporaries - r.value.ledger, ledger, objects)
    {
      hide KeepsFit, RowsSwept, ObjectsSwept, Distinct, IsOldStaging, Dangles;
      left := fuel;
      RowsHaveObjects(sha256, objects, ledger);
      NothingSwept(objects, ledger, references, rows, olderThan, limit, meanwhile);
      if limit < 1 || limit > MAX_LIMIT {
        return Raised(OutOfRange), left;
      }
      var stagedRemoved;
      stagedRemoved, left := RemoveOldTemporaries(olderThan, limit, staged, left);
      if !stagedRemoved.Done? {
        return Died, left;
      }
      var removed;
      removed, left := RemoveBlobs(olderThan, limit, limit - stagedRemoved.value, rows, files, meanwhile, left);
      match removed
      case Died => r := Died;
      case Raised(error) => r := Raised(error);
      case Done((ledgerRemoved, unledgered)) =>
        r := Done(Cleaned(stagedRemoved.value, ledgerRemoved, unledgered));
    }

    /** The row sweep and then the object sweep, with the room that is left by then. */
    method RemoveBlobs(
        olderThan: real, ghost limit: nat, room: nat, rows: seq<string>, files: seq<string>,
        meanwhile: nat -> set<string>, fuel: nat)
      returns (r: Outcome<(nat, nat)>, left: nat)
      requires Valid() && room <= limit
      modifies this`objects, this`ledger, this`references
      ensures Valid() && left <= fuel
      ensures KeepsFit(old(objects), old(ledger), old(references), rows, olderThan, limit, meanwhile, ledger, objects)
      ensures Fewer(old(objects), objects, room)
      ensures (fuel >= 2 * room ==> !r.Died?) && (r.Raised? ==> r.error == NotFound)
      ensures r.Done? ==>
                BothSwept(old(objects), old(ledger), old(references), rows, files, olderThan, room, meanwhile, ledger,
                  objects, r.value.0, r.value.1)
    {
      hide KeepsFit, BothSwept, Fewer, RowPhase, ObjectPhase, Backed, RowSweep, ObjectSweep, Dangles;
      left := fuel;
      ghost var filesBefore, rowsBefore, referencesBefore := objects, ledger, references;
      var ledgerRemoved := Done(0);
      if room > 0 {
        ledgerRemoved, left := RemoveUnreferenced(olderThan, room, rows, meanwhile, left);
      }
      RowsAreBacked(sha256, objects, ledger);
      RowSweepEnds(filesBefore, rowsBefore, referencesBefore, rows, olderThan, limit, room, meanwhile, objects,
        ledger, ledgerRemoved);
      if ledgerRemoved.Died? {
        return Died, left;
      }
      if ledgerRemoved.Raised? {
        return Raised(ledgerRemoved.error), left;
      }
      ghost var between := objects;
      var remaining := room - ledgerRemoved.value;
      var unledgered := Done(0);
      if remaining > 0 {
        unledgered, left := RemoveUnledgered(olderThan, remaining, files, left);
      }
      RowsAreBacked(sha256, objects, ledger);
      ObjectSweepEnds(filesBefore, rowsBefore, referencesBefore, rows, olderThan, limit, room, ledgerRemoved.value,
        meanwhile, between, ledger, files, objects, unledgered);
      if !unledgered.Done? {
        return Died, left;
      }
      SweptInTurn(filesBefore, rowsBefore, referencesBefore, rows, files, olderThan, room, meanwhile, ledger, between,
        objects, ledgerRemoved.value, unledgered.value);
      r := Done((ledgerRemoved.value, unledgered.value));
    }

    /** Staging files that are old, reading at most four times as many entries as may be removed. */
    method RemoveOldTemporaries(olderThan: real, limit: nat, staged: seq<nat>, fuel: nat)
        returns (r: Outcome<nat>, left: nat)
      modifies this`temporaries
      ensures left <= fuel && !r.Raised?
      ensures |old(temporaries)| <= |temporaries| + limit
      ensures r.Done? ==> r.value <= limit && |old(temporaries)| == |temporaries| + r.value
      ensures forall id :: id in temporaries ==> id in old(temporaries) && temporaries[id] == old(temporaries)[id]
      ensures forall id :: id in old(temporaries) && id !in temporaries ==>
                var t := old(temporaries)[id]; t.regular && t.staged && t.file.modified < olderThan
      ensures r.Done? && r.value < limit ==>
                forall i :: 0 <= i < |staged| && i < limit * 4 ==> !IsOldStaging(temporaries, olderThan, staged[i])
      ensures forall id :: id in old(temporaries) && id !in temporaries ==>
                exists i :: 0 <= i < |staged| && i < limit * 4 && staged[i] == id
      ensures fuel >= limit ==> r.Done? && left >= fuel - r.value
      ensures r.Done? ==> left == fuel - r.value
    {
      left := fuel;
      var removed, examined := 0, 0;
      while examined < |staged| && examined < limit * 4 && removed < limit
        invariant removed <= limit && examined <= |staged| && examined <= limit * 4 && left == fuel - removed
        invariant forall id :: id in old(temporaries) && id !in temporaries ==>
                    exists i :: 0 <= i < examined && staged[i] == id
        invariant forall i :: 0 <= i < examined && staged[i] in temporaries ==>
                    var t := temporaries[staged[i]]; !t.regular || !t.staged || t.file.modified >= olderThan
        invariant |old(temporaries)| == |temporaries| + removed
        invariant forall id :: id in temporaries ==> id in old(temporaries) && temporaries[id] == old(temporaries)[id]
        invariant forall id :: id in old(temporaries) && id !in temporaries ==>
                    var t := old(temporaries)[id]; t.regular && t.staged && t.file.modified < olderThan
      {
        var id := staged[examined];
        examined := examined + 1;
        if id in temporaries && temporaries[id].regular && temporaries[id].staged &&
            temporaries[id].file.modified < olderThan {
          if left < 1 {
            return Died, left;
          }
          left := left - 1;
          WithoutOne(temporaries, id);
          temporaries := temporaries - {id};
          removed := removed + 1;
        }
      }
      r := Done(removed);
    }

    /**
     Deletes the rows that were old and unreferenced when listed, each unless it
     is referenced by then, and unlinks its object afterwards.
     */
    method RemoveUnreferenced(olderThan: real, limit: nat, rows: seq<string>, meanwhile: nat -> set<string>, fuel: nat)
      returns (r: Outcome<nat>, left: nat)
      requires Valid()
      modifies this`ledger, this`objects, this`references
      ensures Valid() && left <= fuel
      ensures r.Done? ==> r.value <= limit
      ensures r.Raised? ==> r.error == NotFound
      ensures RowSweep(old(objects), old(ledger), old(references), rows, olderThan, limit, meanwhile, objects, ledger,
                r)
      ensures fuel >= 2 * limit ==> !r.Died? && (r.Done? ==> left >= fuel - 2 * r.value)
    {
      hide Dangles, Unreferenced, LetGo, Shrunk, Handled, RowSweep;
      left := fuel;
      var candidates := Unreferenced(ledger, references, rows, olderThan, limit);
      var removed := 0;
      ghost var files, ledgerBefore, referencesBefore := objects, ledger, references;
      SweepStarts(files, ledgerBefore, candidates, meanwhile);
      for i := 0 to |candidates|
        invariant Valid() && removed <= i && fuel - 2 * removed <= left <= fuel
        invariant Shrunk(files, ledgerBefore, objects, ledger, candidates, meanwhile, removed)
        invariant |ledgerBefore| == |ledger| + removed
        invariant Handled(objects, ledger, candidates, meanwhile, i)
      {
        var deleted;
        deleted, left := DeleteCandidate(files, ledgerBefore, candidates, meanwhile, i, removed, left);
        if deleted == Raised(Referenced) {
          continue;
        }
        if !deleted.Done? {
          r := if deleted.Died? then Died else Raised(deleted.error);
          SweepIsRowSweep(files, ledgerBefore, referencesBefore, rows, olderThan, limit, meanwhile, objects, ledger,
            removed, r);
          return;
        }
        removed := removed + 1;
      }
      r := Done(removed);
      SweepIsRowSweep(files, ledgerBefore, referencesBefore, rows, olderThan, limit, meanwhile, objects, ledger,
        removed, r);
    }

    /** The turn of one candidate, under the references there are by then. */
    method DeleteCandidate(
        ghost files: map<string, File>, ghost rows: map<string, Row>, candidates: seq<string>,
        meanwhile: nat -> set<string>, i: nat, ghost removed: nat, fuel: nat)
      returns (r: Outcome<()>, left: nat)
      requires Valid() && i < |candidates| && Shrunk(files, rows, objects, ledger, candidates, meanwhile, removed)
      requires Handled(objects, ledger, candidates, meanwhile, i)
      modifies this`ledger, this`objects, this`references
      ensures Valid() && left <= fuel && (r.Died? ==> fuel < 2) && (r.Raised? ==> left == fuel) &&
                (r.Done? ==> left == fuel - 2) && (r.Raised? ==> r.error in {Referenced, NotFound})
      ensures Shrunk(files, rows, objects, ledger, candidates, meanwhile, if r.Done? then removed + 1 else removed)
      ensures r.Done? ==> |old(ledger)| == |ledger| + 1
      ensures r.Raised? ==> ledger == old(ledger)
      ensures r.Done? || r == Raised(Referenced) ==> Handled(objects, ledger, candidates, meanwhile, i + 1)
    {
      hide Dangles, Kept, LetGo, Shrunk, Handled;
      RowsHaveObjects(sha256, objects, ledger);
      SweepStep(files, rows, objects, ledger, candidates, meanwhile, i, removed);
      Refer(meanwhile(i));
      r, left := DeleteBlob(candidates[i], fuel);
      if r.Done? {
        WithoutOne(old(ledger), candidates[i]);
      }
    }

    /** `delete_unreferenced_management_blob`, and then the object. */
    method DeleteBlob(digest: string, fuel: nat) returns (r: Outcome<()>, left: nat)
      requires Valid()
      modifies this`ledger, this`objects
      ensures Valid() && left <= fuel
      ensures r.Raised? <==> digest !in old(ledger) || digest in references
      ensures r.Raised? ==>
                && r.error == (if digest in old(ledger) then Referenced else NotFound) && left == fuel
                && ledger == old(ledger) && objects == old(objects)
      ensures r.Died? ==>
                && fuel < 2 && objects == old(objects)
                && ledger == if fuel == 0 then old(ledger) else old(ledger) - {digest}
      ensures r.Done? ==> left == fuel - 2 && ledger == old(ledger) - {digest} && objects == old(objects) - {digest}
    {
      hide Dangles;
      if digest !in ledger {
        return Raised(NotFound), fuel;
      }
      if digest in references {
        return Raised(Referenced), fuel;
      }
      if fuel < 1 {
        return Died, fuel;
      }
      DroppedKeeps(sha256, objects, ledger, digest);
      ledger := ledger - {digest};
      if fuel < 2 {
        return Died, 0;
      }
      objects := objects - {digest};
      r, left := Done(()), fuel - 2;
    }

    /** Unlinks old objects that have no row, asking the ledger again for each. */
    method RemoveUnledgered(olderThan: real, limit: nat, files: seq<string>, fuel: nat)
        returns (r: Outcome<nat>, left: nat)
      requires Valid()
      modifies this`objects
      ensures Valid() && left <= fuel && !r.Raised?
      ensures r.Done? ==> r.value <= limit
      ensures ObjectSweep(old(objects), ledger, files, olderThan, limit, objects, r)
      ensures fuel >= limit ==> r.Done?
      ensures r.Done? ==> left == fuel - r.value
    {
      hide Dangles, OldObjects;
      left := fuel;
      var candidates := OldObjects(objects, files, olderThan, limit);
      OldObjectsAre(objects, files, olderThan, limit);
      var removed := 0;
      for i := 0 to |candidates|
        invariant Valid() && left == fuel - removed
        invariant forall digest :: digest in old(objects) && digest !in objects ==> digest in candidates
        invariant Distinct(files) ==> |old(objects)| == |objects| + removed
        invariant Distinct(files) ==> forall k :: i <= k < |candidates| ==> candidates[k] in objects
        invariant forall k :: 0 <= k < i ==> candidates[k] in ledger || candidates[k] !in objects
        invariant removed <= i && |old(objects)| <= |objects| + removed
        invariant Kept(old(objects), objects) && objects.Keys <= old(objects).Keys
        invariant forall digest :: digest in old(objects) && digest !in objects ==>
                    digest !in ledger && old(objects)[digest].modified < olderThan
      {
        var digest := candidates[i];
        if digest in ledger {
          continue;
        }
        if left < 1 {
          return Died, left;
        }
        left := left - 1;
        DroppedKeeps(sha256, objects, ledger, digest);
        if digest in objects {
          WithoutOne(objects, digest);
        }
        objects := objects - {digest};
        removed := removed + 1;
      }
      r := Done(removed);
    }
  }

  /** Dropping a row dangles nothing, and then dropping its object neither. */
  lemma DroppedKeeps(sha256: Bytes -> string, objects: map<string, File>, ledger: map<string, Row>, digest: string)
    requires !Dangles(sha256, objects, ledger)
    ensures !Dangles(sha256, objects, ledger - {digest}) && !Dangles(sha256, objects - {digest}, ledger - {digest})
    ensures digest !in ledger ==> !Dangles(sha256, objects - {digest}, ledger)
    ensures digest in ledger ==> digest in objects
  {
  }

  /** Adding content again does not make its row any younger: an unreferenced old row stays a candidate. */
  lemma AddingAgainDoesNotProtect(
      ledger: map<string, Row>, references: set<string>, digest: string, row: Row, olderThan: real)
    requires digest in ledger
    ensures digest in Unreferenced(ledger[digest := Registered(ledger[digest], row)], references, [digest],
              olderThan, 1)
       <==> ledger[digest].created < olderThan && digest !in references
  {
  }

  /** The candidate was unreferenced when its turn came. */
  predicate LetGo(digest: string, candidates: seq<string>, meanwhile: nat -> set<string>) {
    exists i: nat :: i < |candidates| && candidates[i] == digest && digest !in meanwhile(i)
  }

  /** How files and rows can have changed after so many removals. */
  predicate Shrunk(
      filesBefore: map<string, File>, rowsBefore: map<string, Row>, objects: map<string, File>,
      ledger: map<string, Row>,
      candidates: seq<string>, meanwhile: nat -> set<string>, removed: nat)
  {
    && Kept(filesBefore, objects) && objects.Keys <= filesBefore.Keys && |filesBefore| == |objects| + removed
    && (forall digest :: digest in ledger ==> digest in rowsBefore && ledger[digest] == rowsBefore[digest])
    && (forall digest :: digest in filesBefore && digest !in objects ==> digest in rowsBefore && digest !in ledger)
    && (forall digest :: digest in rowsBefore && digest !in ledger ==> LetGo(digest, candidates, meanwhile))
  }

  /** The first candidates are gone, except those that were referenced when their turn came. */
  predicate Handled(
      objects: map<string, File>, ledger: map<string, Row>, candidates: seq<string>, meanwhile: nat -> set<string>,
      n: nat)
    requires n <= |candidates|
  {
    forall k: nat :: k < n && candidates[k] !in meanwhile(k) ==> candidates[k] !in ledger && candidates[k] !in objects
  }

  lemma SweepStarts(
      objects: map<string, File>, ledger: map<string, Row>, candidates: seq<string>, meanwhile: nat -> set<string>)
    ensures Shrunk(objects, ledger, objects, ledger, candidates, meanwhile, 0)
    ensures Handled(objects, ledger, candidates, meanwhile, 0)
  {
  }

  /** One candidate: passed over when it is referenced, and otherwise its row goes, and then its object. */
  lemma SweepStep(
      filesBefore: map<string, File>, rowsBefore: map<string, Row>, objects: map<string, File>,
      ledger: map<string, Row>,
      candidates: seq<string>, meanwhile: nat -> set<string>, i: nat, removed: nat)
    requires i < |candidates| && ledger.Keys <= objects.Keys
    requires Shrunk(filesBefore, rowsBefore, objects, ledger, candidates, meanwhile, removed)
    requires Handled(objects, ledger, candidates, meanwhile, i)
    ensures candidates[i] in meanwhile(i) ==> Handled(objects, ledger, candidates, meanwhile, i + 1)
    ensures candidates[i] in ledger && candidates[i] !in meanwhile(i) ==>
              && Shrunk(filesBefore, rowsBefore, objects, ledger - {candidates[i]}, candidates, meanwhile, removed)
              && Shrunk(filesBefore, rowsBefore, objects - {candidates[i]}, ledger - {candidates[i]}, candidates,
                   meanwhile, removed + 1)
              && Handled(objects - {candidates[i]}, ledger - {candidates[i]}, candidates, meanwhile, i + 1)
  {
    hide Kept, LetGo;
    if candidates[i] in ledger && candidates[i] !in meanwhile(i) {
      GoesNow(candidates, meanwhile, i);
      RowGoes(filesBefore, rowsBefore, objects, ledger, candidates, meanwhile, candidates[i], removed);
    }
  }

  lemma GoesNow(candidates: seq<string>, meanwhile: nat -> set<string>, i: nat)
    requires i < |candidates| && candidates[i] !in meanwhile(i)
    ensures LetGo(candidates[i], candidates, meanwhile)
  {
  }

  lemma RowGoes(
      filesBefore: map<string, File>, rowsBefore: map<string, Row>, objects: map<string, File>,
      ledger: map<string, Row>,
      candidates: seq<string>, meanwhile: nat -> set<string>, digest: string, removed: nat)
    requires ledger.Keys <= objects.Keys && digest in ledger && LetGo(digest, candidates, meanwhile)
    requires Shrunk(filesBefore, rowsBefore, objects, ledger, candidates, meanwhile, removed)
    ensures Shrunk(filesBefore, rowsBefore, objects, ledger - {digest}, candidates, meanwhile, removed)
    ensures Shrunk(filesBefore, rowsBefore, objects - {digest}, ledger - {digest}, candidates, meanwhile, removed + 1)
  {
    hide Kept, LetGo;
    KeptWithout(filesBefore, objects, digest);
    WithoutOne(objects, digest);
  }

  lemma SweepEnds(
      filesBefore: map<string, File>, rowsBefore: map<string, Row>, objects: map<string, File>,
      ledger: map<string, Row>,
      candidates: seq<string>, meanwhile: nat -> set<string>, removed: nat)
    requires Shrunk(filesBefore, rowsBefore, objects, ledger, candidates, meanwhile, removed)
    ensures Kept(filesBefore, objects) && objects.Keys <= filesBefore.Keys && |filesBefore| == |objects| + removed
    ensures forall digest :: digest in ledger ==> digest in rowsBefore && ledger[digest] == rowsBefore[digest]
    ensures forall digest :: digest in filesBefore && digest !in objects ==> digest in rowsBefore && digest !in ledger
    ensures forall digest :: digest in rowsBefore && digest !in ledger ==>
              digest in candidates && LetGo(digest, candidates, meanwhile)
  {
  }

  /** A sweep that ended after so many removals, or was cut off there, is a row sweep. */
  lemma SweepIsRowSweep(
      files: map<string, File>, rowsBefore: map<string, Row>, references: set<string>, rows: seq<string>,
      olderThan: real, limit: nat, meanwhile: nat -> set<string>, objects: map<string, File>,
      ledger: map<string, Row>, removed: nat, r: Outcome<nat>)
    requires removed <= limit
    requires Shrunk(files, rowsBefore, objects, ledger, Unreferenced(rowsBefore, references, rows, olderThan, limit),
               meanwhile, removed)
    requires r.Done? ==>
               var candidates := Unreferenced(rowsBefore, references, rows, olderThan, limit);
               && r.value == removed && |rowsBefore| == |ledger| + removed
               && Handled(objects, ledger, candidates, meanwhile, |candidates|)
    ensures RowSweep(files, rowsBefore, references, rows, olderThan, limit, meanwhile, objects, ledger, r)
  {
    hide Unreferenced, LetGo, Shrunk, Handled, Kept;
    UnreferencedAre(rowsBefore, references, rows, olderThan, limit);
    var candidates := Unreferenced(rowsBefore, references, rows, olderThan, limit);
    SweepEnds(files, rowsBefore, objects, ledger, candidates, meanwhile, removed);
    if r.Done? {
      HandledAll(objects, ledger, candidates, meanwhile);
    }
  }

  lemma HandledAll(
      objects: map<string, File>, ledger: map<string, Row>, candidates: seq<string>, meanwhile: nat -> set<string>)
    requires Handled(objects, ledger, candidates, meanwhile, |candidates|)
    ensures forall digest :: LetGo(digest, candidates, meanwhile) ==> digest !in ledger && digest !in objects
  {
  }

  lemma RowsHaveObjects(sha256: Bytes -> string, objects: map<string, File>, ledger: map<string, Row>)
    requires !Dangles(sha256, objects, ledger)
    ensures ledger.Keys <= objects.Keys
  {
  }

  /**
   Whatever a cleanup removes was old, and a row was a candidate, unreferenced
   when listed and when its turn came; what stays is as it was, and a row that is
   referenced all along stays with its object.
   */
  ghost predicate KeepsFit(
      filesBefore: map<string, File>, rowsBefore: map<string, Row>, references: set<string>, rows: seq<string>,
      olderThan: real, limit: int, meanwhile: nat -> set<string>, ledger: map<string, Row>, objects: map<string, File>)
  {
    && Kept(filesBefore, objects) && objects.Keys <= filesBefore.Keys
    && (forall digest :: digest in ledger ==> digest in rowsBefore && ledger[digest] == rowsBefore[digest])
    && (forall digest :: digest in filesBefore && digest !in objects ==>
          || filesBefore[digest].modified < olderThan
          || (digest in rowsBefore && rowsBefore[digest].created < olderThan))
    && (forall digest :: digest in rowsBefore && digest !in ledger ==>
          && rowsBefore[digest].created < olderThan && digest !in references
          && WasLetGo(digest, rowsBefore, references, rows, olderThan, limit, meanwhile))
    && (forall digest :: digest in rowsBefore && AlwaysIn(digest, meanwhile) ==> digest in ledger && digest in objects)
  }

  /** The row was among the first candidates, for some number of them within the limit. */
  ghost predicate WasLetGo(
      digest: string, rowsBefore: map<string, Row>, references: set<string>, rows: seq<string>, olderThan: real,
      limit: int, meanwhile: nat -> set<string>)
  {
    exists k: nat :: k <= limit &&
      LetGo(digest, Unreferenced(rowsBefore, references, rows, olderThan, k), meanwhile)
  }

  ghost predicate AlwaysIn(digest: string, meanwhile: nat -> set<string>) {
    forall i :: digest in meanwhile(i)
  }

  lemma NothingSwept(
      files: map<string, File>, ledger: map<string, Row>, references: set<string>, rows: seq<string>,
      olderThan: real, limit: int, meanwhile: nat -> set<string>)
    requires ledger.Keys <= files.Keys
    ensures KeepsFit(files, ledger, references, rows, olderThan, limit, meanwhile, ledger, files)
  {
    hide Unreferenced, LetGo;
  }

  /** What a row sweep does: rows of candidates go, each with its object, and all that are let go when it ends. */
  ghost predicate RowSweep(
      files: map<string, File>, rowsBefore: map<string, Row>, references: set<string>, rows: seq<string>,
      olderThan: real, limit: nat, meanwhile: nat -> set<string>, objects: map<string, File>,
      ledger: map<string, Row>, r: Outcome<nat>)
  {
    var candidates := Unreferenced(rowsBefore, references, rows, olderThan, limit);
    && Kept(files, objects) && objects.Keys <= files.Keys && |files| <= |objects| + limit
    && (forall digest :: digest in ledger ==> digest in rowsBefore && ledger[digest] == rowsBefore[digest])
    && (forall digest :: digest in files && digest !in objects ==> digest in rowsBefore && digest !in ledger)
    && (forall digest :: digest in rowsBefore && digest !in ledger ==>
          && rowsBefore[digest].created < olderThan && digest !in references
          && LetGo(digest, candidates, meanwhile))
    && (r.Done? ==>
          && |rowsBefore| == |ledger| + r.value && |files| == |objects| + r.value
          && forall digest :: LetGo(digest, candidates, meanwhile) ==> digest !in ledger && digest !in objects)
  }

  /** What an object sweep does: candidates without a row go, and all of them when it ends. */
  ghost predicate ObjectSweep(
      before: map<string, File>, ledger: map<string, Row>, files: seq<string>, olderThan: real, limit: nat,
      objects: map<string, File>, r: Outcome<nat>)
  {
    && Kept(before, objects) && objects.Keys <= before.Keys && |before| <= |objects| + limit
    && (forall digest :: digest in before && digest !in objects ==>
          digest !in ledger && before[digest].modified < olderThan)
    && (r.Done? ==>
          && |before| <= |objects| + r.value
          && (Distinct(files) ==> |before| == |objects| + r.value)
          && forall digest :: digest in before ==>
               (digest !in objects <==>
                digest in OldObjects(before, files, olderThan, limit) && digest !in ledger))
  }

  /** Every row has its object. */
  ghost predicate Backed(objects: map<string, File>, ledger: map<string, Row>) {
    ledger.Keys <= objects.Keys
  }

  /** At most so many files are gone. */
  ghost predicate Fewer(before: map<string, File>, after: map<string, File>, limit: nat) {
    |before| <= |after| + limit
  }

  lemma RowsAreBacked(sha256: Bytes -> string, objects: map<string, File>, ledger: map<string, Row>)
    requires !Dangles(sha256, objects, ledger)
    ensures Backed(objects, ledger)
  {
  }

  /** A row sweep that ended: so many rows are gone with their objects, and nothing else. */
  ghost predicate RowPhase(
      files: map<string, File>, rowsBefore: map<string, Row>, references: set<string>, rows: seq<string>,
      olderThan: real, room: nat, meanwhile: nat -> set<string>, objects: map<string, File>,
      ledger: map<string, Row>, gone: nat)
  {
    && |rowsBefore| == |ledger| + gone && |files| == |objects| + gone
    && objects == files - (rowsBefore.Keys - ledger.Keys)
    && RowsSwept(rowsBefore, references, rows, olderThan, room, meanwhile, ledger, objects)
  }

  /** An object sweep that ended: so many objects are gone. */
  ghost predicate ObjectPhase(
      between: map<string, File>, files: seq<string>, olderThan: real, room: nat, ledger: map<string, Row>,
      objects: map<string, File>, gone: nat)
  {
    && objects.Keys <= between.Keys && (Distinct(files) ==> |between| == |objects| + gone)
    && ObjectsSwept(between, files, olderThan, room, ledger, objects)
  }

  /** After the row sweep, or without one when no room was left. */
  lemma RowSweepEnds(
      files: map<string, File>, rowsBefore: map<string, Row>, references: set<string>, rows: seq<string>,
      olderThan: real, limit: int, room: nat, meanwhile: nat -> set<string>, objects: map<string, File>,
      ledger: map<string, Row>, r: Outcome<nat>)
    requires room <= limit && Backed(objects, ledger)
    requires if room > 0 then RowSweep(files, rowsBefore, references, rows, olderThan, room, meanwhile, objects,
                                ledger, r)
             else objects == files && ledger == rowsBefore && r == Done(0)
    ensures KeepsFit(files, rowsBefore, references, rows, olderThan, limit, meanwhile, ledger, objects)
    ensures Fewer(files, objects, room)
    ensures r.Done? ==>
              RowPhase(files, rowsBefore, references, rows, olderThan, room, meanwhile, objects, ledger, r.value)
  {
    hide RowSweep, KeepsFit, RowsSwept;
    if room > 0 {
      RowSweepKeepsFit(files, rowsBefore, references, rows, olderThan, limit, room, meanwhile, objects, ledger, r);
      if r.Done? {
        RowSweepCompletes(files, rowsBefore, references, rows, olderThan, room, meanwhile, objects, ledger, r);
      }
    } else {
      NothingSwept(files, rowsBefore, references, rows, olderThan, limit, meanwhile);
      NoRowSweep(files, rowsBefore, references, rows, olderThan, meanwhile);
    }
  }

  lemma RowSweepKeepsFit(
      files: map<string, File>, rowsBefore: map<string, Row>, references: set<string>, rows: seq<string>,
      olderThan: real, limit: int, room: nat, meanwhile: nat -> set<string>, objects: map<string, File>,
      ledger: map<string, Row>, r: Outcome<nat>)
    requires room <= limit && ledger.Keys <= objects.Keys
    requires RowSweep(files, rowsBefore, references, rows, olderThan, room, meanwhile, objects, ledger, r)
    ensures KeepsFit(files, rowsBefore, references, rows, olderThan, limit, meanwhile, ledger, objects)
    ensures |files| <= |objects| + room
  {
    hide Unreferenced, LetGo, WasLetGo, AlwaysIn, Kept;
    forall digest | digest in rowsBefore && digest !in ledger
      ensures WasLetGo(digest, rowsBefore, references, rows, olderThan, limit, meanwhile)
      ensures !AlwaysIn(digest, meanwhile)
    {
      LetGoWithin(digest, rowsBefore, references, rows, olderThan, limit, room, meanwhile);
    }
  }

  lemma LetGoWithin(
      digest: string, rowsBefore: map<string, Row>, references: set<string>, rows: seq<string>, olderThan: real,
      limit: int, room: nat, meanwhile: nat -> set<string>)
    requires room <= limit
    requires LetGo(digest, Unreferenced(rowsBefore, references, rows, olderThan, room), meanwhile)
    ensures WasLetGo(digest, rowsBefore, references, rows, olderThan, limit, meanwhile)
    ensures !AlwaysIn(digest, meanwhile)
  {
    hide Unreferenced;
  }

  lemma RowSweepCompletes(
      files: map<string, File>, rowsBefore: map<string, Row>, references: set<string>, rows: seq<string>,
      olderThan: real, room: nat, meanwhile: nat -> set<string>, objects: map<string, File>,
      ledger: map<string, Row>, r: Outcome<nat>)
    requires r.Done? && ledger.Keys <= objects.Keys
    requires RowSweep(files, rowsBefore, references, rows, olderThan, room, meanwhile, objects, ledger, r)
    ensures |rowsBefore| == |ledger| + r.value && |files| == |objects| + r.value
    ensures objects == files - (rowsBefore.Keys - ledger.Keys)
    ensures RowsSwept(rowsBefore, references, rows, olderThan, room, meanwhile, ledger, objects)
  {
    hide Unreferenced, LetGo, RowsSwept;
    RowsAreSwept(rowsBefore, references, rows, olderThan, room, meanwhile, ledger, objects);
    BetweenSweeps(files, rowsBefore, objects, ledger);
  }

  lemma NoRowSweep(
      files: map<string, File>, rows: map<string, Row>, references: set<string>, listed: seq<string>,
      olderThan: real, meanwhile: nat -> set<string>)
    ensures files == files - (rows.Keys - rows.Keys)
    ensures RowsSwept(rows, references, listed, olderThan, 0, meanwhile, rows, files)
  {
    hide Unreferenced, LetGo, RowsSwept;
    NoneLetGo(meanwhile);
    RowsAreSwept(rows, references, listed, olderThan, 0, meanwhile, rows, files);
  }

  /** After the object sweep, or without one when no room was left. */
  lemma ObjectSweepEnds(
      filesBefore: map<string, File>, rowsBefore: map<string, Row>, references: set<string>, rows: seq<string>,
      olderThan: real, limit: int, room: nat, gone: nat, meanwhile: nat -> set<string>, between: map<string, File>,
      ledger: map<string, Row>, files: seq<string>, objects: map<string, File>, r: Outcome<nat>)
    requires KeepsFit(filesBefore, rowsBefore, references, rows, olderThan, limit, meanwhile, ledger, between)
    requires Backed(objects, ledger) && gone <= room
    requires RowPhase(filesBefore, rowsBefore, references, rows, olderThan, room, meanwhile, between, ledger, gone)
    requires if room - gone > 0 then ObjectSweep(between, ledger, files, olderThan, room - gone, objects, r)
             else objects == between && r == Done(0)
    ensures KeepsFit(filesBefore, rowsBefore, references, rows, olderThan, limit, meanwhile, ledger, objects)
    ensures Fewer(filesBefore, objects, room)
    ensures r.Done? ==> ObjectPhase(between, files, olderThan, room - gone, ledger, objects, r.value)
  {
    hide KeepsFit, Kept, ObjectsSwept, OldObjects, Distinct, RowPhase, Backed;
    KeptWithout(between, between, "");
    ObjectSweepKeepsFit(filesBefore, rowsBefore, references, rows, olderThan, limit, meanwhile, between, ledger,
      objects);
    PhaseCounts(filesBefore, rowsBefore, references, rows, olderThan, room, meanwhile, between, ledger, gone);
    if r.Done? {
      ObjectsAreSwept(between, files, olderThan, room - gone, ledger, objects);
    }
  }

  lemma PhaseCounts(
      files: map<string, File>, rowsBefore: map<string, Row>, references: set<string>, rows: seq<string>,
      olderThan: real, room: nat, meanwhile: nat -> set<string>, objects: map<string, File>,
      ledger: map<string, Row>, gone: nat)
    requires RowPhase(files, rowsBefore, references, rows, olderThan, room, meanwhile, objects, ledger, gone)
    ensures |files| == |objects| + gone
  {
    hide RowsSwept;
  }

  lemma ObjectSweepKeepsFit(
      filesBefore: map<string, File>, rowsBefore: map<string, Row>, references: set<string>, rows: seq<string>,
      olderThan: real, limit: int, meanwhile: nat -> set<string>, between: map<string, File>,
      ledger: map<string, Row>, objects: map<string, File>)
    requires KeepsFit(filesBefore, rowsBefore, references, rows, olderThan, limit, meanwhile, ledger, between)
    requires Kept(between, objects) && objects.Keys <= between.Keys && Backed(objects, ledger)
    requires forall digest :: digest in between && digest !in objects ==>
               digest !in ledger && between[digest].modified < olderThan
    ensures KeepsFit(filesBefore, rowsBefore, references, rows, olderThan, limit, meanwhile, ledger, objects)
  {
    hide WasLetGo, AlwaysIn, Kept;
    KeptTwice(filesBefore, between, objects);
  }

  /** What both sweeps do that end: so many rows with their objects, and then so many objects without one. */
  ghost predicate BothSwept(
      filesBefore: map<string, File>, rowsBefore: map<string, Row>, references: set<string>, rows: seq<string>,
      files: seq<string>, olderThan: real, room: nat, meanwhile: nat -> set<string>, ledger: map<string, Row>,
      objects: map<string, File>, rowsGone: nat, filesGone: nat)
  {
    && rowsGone + filesGone <= room && |rowsBefore| == |ledger| + rowsGone
    && (Distinct(files) ==> |filesBefore| == |objects| + rowsGone + filesGone)
    && RowsSwept(rowsBefore, references, rows, olderThan, room, meanwhile, ledger, objects)
    && ObjectsSwept(filesBefore - (rowsBefore.Keys - ledger.Keys), files, olderThan, room - rowsGone, ledger, objects)
  }

  lemma SweptInTurn(
      filesBefore: map<string, File>, rowsBefore: map<string, Row>, references: set<string>, rows: seq<string>,
      files: seq<string>, olderThan: real, room: nat, meanwhile: nat -> set<string>, ledger: map<string, Row>,
      between: map<string, File>, objects: map<string, File>, rowsGone: nat, filesGone: nat)
    requires rowsGone + filesGone <= room
    requires RowPhase(filesBefore, rowsBefore, references, rows, olderThan, room, meanwhile, between, ledger, rowsGone)
    requires ObjectPhase(between, files, olderThan, room - rowsGone, ledger, objects, filesGone)
    ensures BothSwept(filesBefore, rowsBefore, references, rows, files, olderThan, room, meanwhile, ledger, objects,
              rowsGone, filesGone)
  {
    hide RowsSwept, ObjectsSwept, Distinct;
    StaysSwept(rowsBefore, references, rows, olderThan, room, meanwhile, ledger, between, objects);
  }

  /** The object sweep brings nothing back that the row sweep took. */
  lemma StaysSwept(
      rowsBefore: map<string, Row>, references: set<string>, rows: seq<string>, olderThan: real, limit: nat,
      meanwhile: nat -> set<string>, ledger: map<string, Row>, between: map<string, File>,
      objects: map<string, File>)
    requires RowsSwept(rowsBefore, references, rows, olderThan, limit, meanwhile, ledger, between)
    requires objects.Keys <= between.Keys
    ensures RowsSwept(rowsBefore, references, rows, olderThan, limit, meanwhile, ledger, objects)
  {
    hide Unreferenced, UnreferencedCount, LetGo, NeverIn;
  }

  lemma NoneLetGo(meanwhile: nat -> set<string>)
    ensures forall digest, candidates :: |candidates| == 0 ==> !LetGo(digest, candidates, meanwhile)
  {
  }

  /** What the row sweep leaves: the objects of the rows that went are gone, and no others. */
  lemma BetweenSweeps(
      before: map<string, File>, rows: map<string, Row>, between: map<string, File>, ledger: map<string, Row>)
    requires Kept(before, between) && between.Keys <= before.Keys && ledger.Keys <= between.Keys
    requires forall digest :: digest in before && digest !in between ==> digest in rows && digest !in ledger
    requires forall digest :: digest in rows && digest !in ledger ==> digest !in between
    ensures between == before - (rows.Keys - ledger.Keys)
  {
  }

  lemma KeptTwice(before: map<string, File>, between: map<string, File>, after: map<string, File>)
    requires Kept(before, between) && between.Keys <= before.Keys && Kept(between, after) && after.Keys <= between.Keys
    ensures Kept(before, after) && after.Keys <= before.Keys
    ensures forall digest :: digest in between ==> between[digest] == before[digest]
  {
  }

  lemma KeptWithout(before: map<string, File>, after: map<string, File>, digest: string)
    ensures Kept(before, before)
    ensures Kept(before, after) ==> Kept(before, after - {digest})
  {
  }

  lemma WithoutOne<K, V>(m: map<K, V>, key: K)
    requires key in m
    ensures |m - {key}| == |m| - 1
  {
    assert (m - {key}).Keys == m.Keys - {key};
  }

  /**
   The rows that go are the candidates unreferenced at their turn; with room for
   all old unreferenced rows listed, every one that is never referenced goes with
   its object.
   */
  ghost predicate RowsSwept(
      before: map<string, Row>, references: set<string>, rows: seq<string>, olderThan: real, limit: nat,
      meanwhile: nat -> set<string>, after: map<string, Row>, objects: map<string, File>)
  {
    && (forall digest :: digest in before ==>
          (digest !in after <==> LetGo(digest, Unreferenced(before, references, rows, olderThan, limit), meanwhile)))
    && (UnreferencedCount(before, references, rows, olderThan) <= limit ==>
          forall k :: 0 <= k < |rows| && NeverIn(rows[k], meanwhile) ==>
            IsUnreferenced(before, references, olderThan, rows[k]) ==> rows[k] !in after && rows[k] !in objects)
  }

  ghost predicate NeverIn(digest: string, meanwhile: nat -> set<string>) {
    forall i :: digest !in meanwhile(i)
  }

  lemma RowsAreSwept(
      before: map<string, Row>, references: set<string>, rows: seq<string>, olderThan: real, limit: nat,
      meanwhile: nat -> set<string>, after: map<string, Row>, objects: map<string, File>)
    requires var candidates := Unreferenced(before, references, rows, olderThan, limit);
             && (forall digest :: digest in before && digest !in after ==> LetGo(digest, candidates, meanwhile))
             && (forall digest :: LetGo(digest, candidates, meanwhile) ==> digest !in after && digest !in objects)
    ensures RowsSwept(before, references, rows, olderThan, limit, meanwhile, after, objects)
  {
    hide Unreferenced, UnreferencedCount;
    if UnreferencedCount(before, references, rows, olderThan) <= limit {
      UnreferencedAll(before, references, rows, olderThan, limit);
      forall k | 0 <= k < |rows| && NeverIn(rows[k], meanwhile) &&
          IsUnreferenced(before, references, olderThan, rows[k])
        ensures rows[k] !in after && rows[k] !in objects
      {
        assert LetGo(rows[k], Unreferenced(before, references, rows, olderThan, limit), meanwhile);
      }
    }
  }

  /**
   The objects that go are the candidates without a row; with room for all old
   objects listed, every one without a row goes.
   */
  ghost predicate ObjectsSwept(
      before: map<string, File>, files: seq<string>, olderThan: real, limit: nat, ledger: map<string, Row>,
      after: map<string, File>)
  {
    && (forall digest :: digest in before ==>
          (digest !in after <==> digest in OldObjects(before, files, olderThan, limit) && digest !in ledger))
    && (OldCount(before, files, olderThan) <= limit ==>
          forall k :: 0 <= k < |files| && IsOld(after, olderThan, files[k]) ==> files[k] in ledger)
  }

  lemma ObjectsAreSwept(
      before: map<string, File>, files: seq<string>, olderThan: real, limit: nat, ledger: map<string, Row>,
      after: map<string, File>)
    requires Kept(before, after) && after.Keys <= before.Keys
    requires forall digest :: digest in before ==>
               (digest !in after <==> digest in OldObjects(before, files, olderThan, limit) && digest !in ledger)
    ensures ObjectsSwept(before, files, olderThan, limit, ledger, after)
  {
    hide OldObjects, OldCount;
    if OldCount(before, files, olderThan) <= limit {
      OldObjectsAll(before, files, olderThan, limit);
    }
  }

  /**
   An old object without a row behind `limit` or more old objects that have rows
   is not taken up, however often a cleanup runs, although nothing is removed and
   the limit is not reached.
   */
  lemma OrphanIsStarved(
      objects: map<string, File>, ledger: map<string, Row>, files: seq<string>, olderThan: real, limit: nat, k: nat)
    requires k < |files| && IsOld(objects, olderThan, files[k]) && files[k] !in ledger
    requires forall i :: 0 <= i < k && IsOld(objects, olderThan, files[i]) ==> files[i] in ledger
    requires OldCount(objects, files[..k], olderThan) >= limit
    ensures forall digest :: digest in OldObjects(objects, files, olderThan, limit) ==> digest in ledger
    ensures ObjectsSwept(objects, files, olderThan, limit, ledger, objects)
  {
    FirstOfEarlier(files, digest => IsOld(objects, olderThan, digest), limit, k);
    HowManyBefore(files, digest => IsOld(objects, olderThan, digest), k);
    hide OldObjects;
    assert forall digest :: digest in OldObjects(objects, files[..k], olderThan, limit) ==> digest in files[..k];
  }

  lemma {:induction false} FirstOfEarlier<T>(names: seq<T>, fits: T -> bool, limit: nat, k: nat)
    requires k <= |names| && HowMany(names[..k], fits) >= limit
    ensures FirstOf(names, fits, limit) == FirstOf(names[..k], fits, limit)
  {
    if k == 0 {
      assert names[..0] == [];
    } else if limit > 0 {
      assert names[..k][0] == names[0] && names[..k][1..] == names[1..][..k - 1];
      FirstOfEarlier(names[1..], fits, if fits(names[0]) then limit - 1 else limit, k - 1);
    }
  }

  /** Such a store, with a limit of one. */
  lemma OrphanStarves()
    ensures var old_, row := File([], 0.0), Row(IMAGE, 0, NO_METADATA, 0.0, 1);
            forall sha256: Bytes -> string :: sha256([]) == "a" ==>
              && !Dangles(sha256, map["a" := old_, "b" := old_], map["a" := row])
              && ObjectsSwept(map["a" := old_, "b" := old_], ["a", "b"], 1.0, 1, map["a" := row],
                   map["a" := old_, "b" := old_])
  {
    var old_, row := File([], 0.0), Row(IMAGE, 0, NO_METADATA, 0.0, 1);
    var objects := map["a" := old_, "b" := old_];
    assert ["a", "b"][..1] == ["a"] && ["a"][1..] == [];
    assert IsOld(objects, 1.0, "a");
    OrphanIsStarved(objects, map["a" := row], ["a", "b"], 1.0, 1, 1);
  }

  // ----- Which names a sweep takes up -----

  /** The first names of a listing that fit, in its order. */
  function FirstOf<T>(names: seq<T>, fits: T -> bool, limit: nat): (r: seq<T>)
    ensures |r| <= limit
    ensures forall name :: name in r ==> name in names && fits(name)
  {
    if limit == 0 || names == [] then []
    else if fits(names[0]) then [names[0]] + FirstOf(names[1..], fits, limit - 1)
    else FirstOf(names[1..], fits, limit)
  }

  function HowMany<T>(names: seq<T>, fits: T -> bool): nat {
    if names == [] then 0 else (if fits(names[0]) then 1 else 0) + HowMany(names[1..], fits)
  }

  /**
   A fitting name is taken up exactly when fewer than `limit` fitting ones are
   listed before it; it then has that place among them, and nothing else is taken.
   */
  lemma {:induction false} FirstOfExact<T>(names: seq<T>, fits: T -> bool, limit: nat, k: nat)
    requires k < |names| && fits(names[k])
    ensures var r, place := FirstOf(names, fits, limit), HowMany(names[..k], fits);
            && (place < limit <==> place < |r|)
            && (place < limit ==> r[place] == names[k])
    ensures |FirstOf(names, fits, limit)| ==
              if HowMany(names, fits) < limit then HowMany(names, fits) else limit
  {
    FirstOfLength(names, fits, limit);
    if k == 0 {
      assert names[..0] == [];
    } else {
      assert names[..k][0] == names[0] && names[..k][1..] == names[1..][..k - 1];
      if limit > 0 {
        FirstOfExact(names[1..], fits, if fits(names[0]) then limit - 1 else limit, k - 1);
      }
    }
  }

  lemma {:induction false} FirstOfLength<T>(names: seq<T>, fits: T -> bool, limit: nat)
    ensures |FirstOf(names, fits, limit)| ==
              if HowMany(names, fits) < limit then HowMany(names, fits) else limit
  {
    if names != [] && limit > 0 {
      FirstOfLength(names[1..], fits, if fits(names[0]) then limit - 1 else limit);
    }
  }

  lemma {:induction false} HowManyBefore<T>(names: seq<T>, fits: T -> bool, k: nat)
    requires k < |names| && fits(names[k])
    ensures HowMany(names[..k], fits) < HowMany(names, fits)
  {
    if k == 0 {
      assert names[..0] == [];
    } else {
      assert names[..k][0] == names[0] && names[..k][1..] == names[1..][..k - 1];
      HowManyBefore(names[1..], fits, k - 1);
    }
  }

  /** Within the limit all fitting names are taken up. */
  lemma FirstOfAll<T>(names: seq<T>, fits: T -> bool, limit: nat)
    requires HowMany(names, fits) <= limit
    ensures forall k :: 0 <= k < |names| && fits(names[k]) ==> names[k] in FirstOf(names, fits, limit)
  {
    forall k | 0 <= k < |names| && fits(names[k])
      ensures names[k] in FirstOf(names, fits, limit)
    {
      FirstOfExact(names, fits, limit, k);
      HowManyBefore(names, fits, k);
    }
  }

  predicate IsUnreferenced(ledger: map<string, Row>, references: set<string>, olderThan: real, digest: string) {
    digest in ledger && ledger[digest].created < olderThan && digest !in references
  }

  predicate IsOld(objects: map<string, File>, olderThan: real, digest: string) {
    digest in objects && objects[digest].modified < olderThan
  }

  predicate IsOldStaging(temporaries: map<nat, Temporary>, olderThan: real, id: nat) {
    id in temporaries && temporaries[id].regular && temporaries[id].staged &&
    temporaries[id].file.modified < olderThan
  }

  /** `list_unreferenced_management_blobs`: the first old rows without a reference. */
  function Unreferenced(ledger: map<string, Row>, references: set<string>, rows: seq<string>, olderThan: real,
      limit: nat)
    : (r: seq<string>)
    ensures |r| <= limit
    ensures forall digest :: digest in r ==> IsUnreferenced(ledger, references, olderThan, digest)
  {
    FirstOf(rows, digest => IsUnreferenced(ledger, references, olderThan, digest), limit)
  }

  /** `_find_old_object_candidates`: the first old objects, whatever the ledger says. */
  function OldObjects(objects: map<string, File>, files: seq<string>, olderThan: real, limit: nat): (r: seq<string>)
    ensures |r| <= limit
    ensures forall digest :: digest in r ==> IsOld(objects, olderThan, digest)
  {
    FirstOf(files, digest => IsOld(objects, olderThan, digest), limit)
  }

  /** How many old rows without a reference, and how many old objects, a listing holds. */
  function UnreferencedCount(ledger: map<string, Row>, references: set<string>, rows: seq<string>, olderThan: real): nat
  {
    HowMany(rows, digest => IsUnreferenced(ledger, references, olderThan, digest))
  }

  function OldCount(objects: map<string, File>, files: seq<string>, olderThan: real): nat {
    HowMany(files, digest => IsOld(objects, olderThan, digest))
  }

  lemma UnreferencedAll(
      ledger: map<string, Row>, references: set<string>, rows: seq<string>, olderThan: real, limit: nat)
    requires UnreferencedCount(ledger, references, rows, olderThan) <= limit
    ensures forall k :: 0 <= k < |rows| && IsUnreferenced(ledger, references, olderThan, rows[k]) ==>
              rows[k] in Unreferenced(ledger, references, rows, olderThan, limit)
  {
    FirstOfAll(rows, digest => IsUnreferenced(ledger, references, olderThan, digest), limit);
  }

  lemma OldObjectsAll(objects: map<string, File>, files: seq<string>, olderThan: real, limit: nat)
    requires OldCount(objects, files, olderThan) <= limit
    ensures forall k :: 0 <= k < |files| && IsOld(objects, olderThan, files[k]) ==>
              files[k] in OldObjects(objects, files, olderThan, limit)
  {
    FirstOfAll(files, digest => IsOld(objects, olderThan, digest), limit);
  }

  lemma UnreferencedAre(
      ledger: map<string, Row>, references: set<string>, rows: seq<string>, olderThan: real, limit: nat)
    ensures var r := Unreferenced(ledger, references, rows, olderThan, limit);
            && |r| <= limit
            && forall digest :: digest in r ==>
                 digest in ledger && ledger[digest].created < olderThan && digest !in references
  {
  }

  lemma OldObjectsAre(objects: map<string, File>, files: seq<string>, olderThan: real, limit: nat)
    ensures var r := OldObjects(objects, files, olderThan, limit);
            && |r| <= limit
            && (forall digest :: digest in r ==> digest in objects && objects[digest].modified < olderThan)
            && (Distinct(files) ==> Distinct(r))
  {
    if Distinct(files) {
      FirstOfDistinct(files, digest => IsOld(objects, olderThan, digest), limit);
    }
  }

  lemma {:induction false} FirstOfDistinct<T>(names: seq<T>, fits: T -> bool, limit: nat)
    requires Distinct(names)
    ensures Distinct(FirstOf(names, fits, limit))
  {
    if names != [] && limit > 0 {
      FirstOfDistinct(names[1..], fits, if fits(names[0]) then limit - 1 else limit);
    }
  }

  predicate Distinct<T(==)>(names: seq<T>) {
    forall i, j :: 0 <= i < j < |names| ==> names[i] != names[j]
  }
}
