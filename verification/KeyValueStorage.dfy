/**
 * The adapter that presents flat files on a key-value storage: reads and writes
 * are split into per-block tasks, each run under the lock of its key.
 */
module KeyValueStorage {
  import opened Wrappers
  import opened FlatFile
  import opened BlockStore
  import opened Ranges
  import opened Words
  import BlockLocks
  import KeyCodec

  const ENOENT: nat := 2

  /** A file id made of slashes only has no key; a storage call may throw any other error. */
  datatype Failure = NoSuchName | Backend(errno: nat)

  /**
   * What the storage does to one task: nothing, or throw from one of its calls.
   * A task that makes no getObject call throws from its putObject call, which may
   * have stored the object before.
   */
  datatype Fault = NoFault | Throws(errno: nat, onGet: bool, stored: bool) {
    /** From getObject ENOENT is not a fault: it says that the object does not exist. */
    predicate Plausible() {
      Throws? && onGet ==> errno != ENOENT && !stored
    }

    /** Whether the put of the task reached the storage. */
    predicate Stores() {
      Throws? ==> stored
    }

    /** What can happen to a task that makes no other call than getObject. */
    predicate OfRead() {
      Throws? ==> onGet && errno != ENOENT && !stored
    }
  }

  /** What becomes of a deletion: it removes all keys, or throws having left some in place. */
  datatype Deletion = Completes | Stops(errno: nat, survivors: set<string>) {
    function Kept(): set<string> {
      if Completes? then {} else survivors
    }
  }

  /** The tasks whose put did not reach the storage. */
  ghost function Unstored(faults: map<int, Fault>): set<int> {
    set k <- faults | !faults[k].Stores()
  }

  /** The tasks that fail, by task number. */
  ghost predicate Plausible(faults: map<int, Fault>) {
    forall k <- faults :: faults[k].Throws? && faults[k].Plausible()
  }

  ghost predicate PlausibleReads(faults: map<int, Fault>) {
    forall k <- faults :: faults[k].Throws? && faults[k].OfRead()
  }

  /** The keys of a file's blocks. */
  ghost function KeysOf(fileId: string): Naming
    requires KeyCodec.NamesFile(fileId)
  {
    (id: int) => if IsId(id) then (KeyCodec.KeyRoundTrip(fileId, id); KeyCodec.GetKey(fileId, id).value) else ""
  }

  lemma KeysInjective(fileId: string)
    requires KeyCodec.NamesFile(fileId)
    ensures Injective(KeysOf(fileId))
  {
    forall i, j | IsId(i) && IsId(j) && KeysOf(fileId)(i) == KeysOf(fileId)(j) ensures i == j {
      KeyCodec.KeyInjective(fileId, i, fileId, j);
    }
  }

  /** The blocks of a file with another name are foreign to this one. */
  lemma OtherFilesAreForeign(fileId: string, other: string, blockId: int)
    requires IsId(blockId) && KeyCodec.NamesFile(fileId) && KeyCodec.NamesFile(other)
    requires KeyCodec.StripSlashes(fileId) != KeyCodec.StripSlashes(other)
    ensures Foreign(KeysOf(fileId), KeysOf(other)(blockId))
  {
    forall id | IsId(id) ensures KeysOf(other)(blockId) != KeysOf(fileId)(id) {
      KeyCodec.KeyInjective(other, blockId, fileId, id);
    }
  }

  /** getObject: the slice of the object that exists. An empty range cannot be asked for. */
  function GetObject(objects: Objects, key: string, offset: nat, size: nat, fault: Fault): Result<Bytes, nat>
    requires size > 0
  {
    if fault.Throws? && fault.onGet then Err(fault.errno)
    else if key !in objects then Err(ENOENT)
    else Ok(ReadAt(objects[key], offset, size))
  }

  /** readBlock: a missing object reads as an empty one. */
  function FetchBlock(objects: Objects, key: string, offset: nat, size: nat, fault: Fault): (r: Result<Bytes, Failure>)
    requires size > 0 && fault.Plausible()
    ensures r.Ok? <==> !(fault.Throws? && fault.onGet)
    ensures r.Ok? ==> r.value == ReadAt(Object(objects, key), offset, size)
  {
    match GetObject(objects, key, offset, size, fault)
    case Ok(buf) => Ok(buf)
    case Err(e) => if e == ENOENT then Ok([]) else Err(Backend(e))
  }

  method BlockKey(fileId: string, blockId: int) returns (key: string)
    requires KeyCodec.NamesFile(fileId) && IsId(blockId)
    ensures key == KeysOf(fileId)(blockId)
  {
    KeyCodec.KeyRoundTrip(fileId, blockId);
    key := KeyCodec.GetKey(fileId, blockId).value;
  }

  class KeyValueAdapter {
    const blockSize: nat
    const randomAccess: bool
    /** The storage behind the helper. */
    var objects: Objects
    /** The keys whose lock is held. */
    var locks: set<string>

    constructor (blockSize: nat, randomAccess: bool, objects: Objects)
      requires blockSize > 0 && WithinBlocks(objects, blockSize)
      ensures Valid() && this.objects == objects && locks == {}
      ensures this.blockSize == blockSize && this.randomAccess == randomAccess
    {
      this.blockSize, this.randomAccess := blockSize, randomAccess;
      this.objects, this.locks := objects, {};
    }

    ghost predicate Valid()
      reads this
    {
      blockSize > 0 && WithinBlocks(objects, blockSize)
    }

    /** No task of the file is running. */
    ghost predicate Unlocked(fileId: string)
      reads this
    {
      KeyCodec.NamesFile(fileId) ==> forall id :: IsId(id) ==> KeysOf(fileId)(id) !in locks
    }

    /** putObject: random-access stores overwrite in place, the others replace the object. */
    method PutObject(key: string, buf: Bytes, offset: nat, fault: Fault) returns (r: Result<nat, Failure>)
      requires randomAccess || offset == 0
      modifies this`objects
      ensures r == if fault.Throws? then Err(Backend(fault.errno)) else Ok(|buf|)
      ensures objects == if !fault.Stores() then old(objects)
                         else old(objects)[key := if randomAccess then WriteAt(Object(old(objects), key), offset, buf)
                                                  else buf]
    {
      if fault.Stores() {
        objects := objects[key := if randomAccess then WriteAt(Object(objects, key), offset, buf) else buf];
      }
      r := if fault.Throws? then Err(Backend(fault.errno)) else Ok(|buf|);
    }

    /** The block with buf written at blockOffset, built from what was fetched. */
    method Merge(fetched: Bytes, buf: Bytes, blockOffset: nat) returns (filled: Bytes)
      requires buf != []
      ensures filled == WriteAt(fetched, blockOffset, buf)
    {
      filled := [];
      if blockOffset > 0 {
        if fetched != [] {
          filled := fetched;
        }
        if |filled| >= blockOffset {
          filled := filled[..blockOffset];
        }
        filled := FillToSize(filled, blockOffset);
      }
      filled := filled + buf;
      if |filled| < |fetched| {
        filled := filled + fetched[|filled|..];
      }
    }

    /** One write task: the block is overwritten from blockOffset on, unless the task fails before its put stores. */
    method WriteBlock(fileId: string, buf: Bytes, blockId: uint64, blockOffset: nat, fault: Fault)
      returns (r: Result<(), Failure>)
      requires Valid() && fault.Plausible()
      requires buf != [] && blockOffset + |buf| <= blockSize
      requires KeyCodec.NamesFile(fileId) ==> KeysOf(fileId)(blockId) !in locks
      modifies this
      ensures Valid() && locks == old(locks)
      ensures r.Ok? <==> KeyCodec.NamesFile(fileId) && fault.NoFault?
      ensures !KeyCodec.NamesFile(fileId) || !fault.Stores() ==> objects == old(objects)
      ensures KeyCodec.NamesFile(fileId) && fault.Stores() ==>
                var key := KeysOf(fileId)(blockId);
                && objects == old(objects)[key := WriteAt(Object(old(objects), key), blockOffset, buf)]
                && objects == BlockLocks.Effect(old(objects), BlockLocks.WriteTask(key, blockOffset, buf))
    {
      KeyCodec.KeyRoundTrip(fileId, blockId);
      var named := KeyCodec.GetKey(fileId, blockId);
      if named.Err? {
        return Err(NoSuchName);
      }
      var key := named.value;
      assert key == KeysOf(fileId)(blockId);
      r := LockedWrite(key, buf, blockOffset, fault);
    }

    method LockedWrite(key: string, buf: Bytes, blockOffset: nat, fault: Fault) returns (r: Result<(), Failure>)
      requires Valid() && fault.Plausible() && key !in locks
      requires buf != [] && blockOffset + |buf| <= blockSize
      modifies this
      ensures Valid() && locks == old(locks)
      ensures r.Ok? <==> fault.NoFault?
      ensures objects == if !fault.Stores() then old(objects)
                         else old(objects)[key := WriteAt(Object(old(objects), key), blockOffset, buf)]
    {
      locks := locks + {key};
      var put: Result<nat, Failure>;
      if |buf| == blockSize {
        assert WriteAt(Object(objects, key), 0, buf) == buf;
        put := PutObject(key, buf, 0, fault);
      } else if randomAccess {
        put := PutObject(key, buf, blockOffset, fault);
      } else {
        var got := FetchBlock(objects, key, 0, blockSize, fault);
        if got.Err? {
          locks := locks - {key};
          return Err(got.error);
        }
        assert got.value == Object(objects, key);
        var filled := Merge(got.value, buf, blockOffset);
        put := PutObject(key, filled, 0, fault);
      }
      locks := locks - {key};
      r := if put.Ok? then Ok(()) else Err(put.error);
    }

    /** The loop that cuts a byte range into per-block tasks. */
    method Split(offset: nat, size: nat) returns (ps: seq<Piece>)
      requires blockSize > 0
      ensures Partition(ps, offset, size, blockSize)
    {
      var blockId := GetBlockId(offset, blockSize);
      var blockOffset := GetBlockOffset(offset, blockSize);
      var bufOffset := 0;
      ps := [];
      while bufOffset < size
        invariant 0 <= blockOffset < blockSize && bufOffset == End(ps) <= size
        invariant Continues(ps, offset, size, blockSize, blockId, blockOffset)
      {
        hide Continues, End;
        NextPiece(ps, offset, size, blockSize, blockId, blockOffset);
        var n := Min(blockSize - blockOffset, size - bufOffset);
        ps := ps + [Piece(blockId, blockOffset, bufOffset, n)];
        bufOffset := bufOffset + n;
        blockOffset, blockId := 0, blockId + 1;
      }
    }

    /**
     * Writes the buffer block by block, the tasks being taken in any order. Every
     * byte of the range is replaced unless its task failed without storing; no
     * other byte and no other file changes, and no lock stays held.
     */
    method Write(fileId: string, offset: nat, buf: Bytes, faults: map<int, Fault>) returns (r: Result<nat, Failure>)
      requires Valid() && Unlocked(fileId) && Plausible(faults)
      requires offset + |buf| <= UINT64_LIMIT
      modifies this
      ensures Valid() && locks == old(locks)
      ensures r.Ok? <==> && (buf == [] || KeyCodec.NamesFile(fileId))
                         && forall k :: 0 <= k < TaskCount(offset, |buf|, blockSize) ==> k !in faults
      ensures r.Ok? ==> r.value == |buf|
      ensures !KeyCodec.NamesFile(fileId) ==> objects == old(objects)
      ensures KeyCodec.NamesFile(fileId) ==>
                var keys := KeysOf(fileId);
                && SameElsewhere(old(objects), objects, keys)
                && WroteRange(View(old(objects), keys), View(objects, keys), blockSize, offset, buf, Unstored(faults))
    {
      KeyCodec.KeyRoundTrip(fileId, 0);
      if buf == [] {
        return Ok(0);
      }
      if KeyCodec.GetKey(fileId, 0).Err? {
        return Err(NoSuchName);  // what every task would throw, before taking its lock
      }
      var ps := Split(offset, |buf|);
      PartitionCount(ps, offset, |buf|, blockSize);
      ghost var before, keys := objects, KeysOf(fileId);
      var failed := RunWrites(fileId, offset, buf, ps, faults);
      WrittenFlatFile(View(before, keys), View(objects, keys), blockSize, offset, ps, buf, Unstored(faults));
      r := if failed.None? then Ok(|buf|) else Err(failed.value);
    }

    /** The executor: takes the pending write tasks one by one until all have ended. */
    method RunWrites(fileId: string, offset: nat, buf: Bytes, ps: seq<Piece>, faults: map<int, Fault>)
      returns (failed: Option<Failure>)
      requires Valid() && KeyCodec.NamesFile(fileId) && Unlocked(fileId) && Plausible(faults)
      requires offset + |buf| <= UINT64_LIMIT && Partition(ps, offset, |buf|, blockSize)
      modifies this
      ensures Valid() && locks == old(locks)
      ensures failed.None? <==> forall k :: 0 <= k < |ps| ==> k !in faults
      ensures Written(old(objects), objects, KeysOf(fileId), GetBlockId(offset, blockSize), ps, buf, Unstored(faults))
    {
      hide Written, KeysOf, Covers;
      ghost var keys, first := KeysOf(fileId), GetBlockId(offset, blockSize);
      failed := None;
      var pending := Below(|ps|);
      ghost var failing := Unstored(faults);
      ghost var skipped := pending + failing;
      NothingWritten(objects, keys, first, ps, buf, skipped);
      while pending != {}
        invariant Valid() && locks == old(locks) && pending <= Below(|ps|)
        invariant skipped == pending + failing
        invariant failed.None? <==> forall k :: 0 <= k < |ps| && k !in pending ==> k !in faults
        invariant Written(old(objects), objects, keys, first, ps, buf, skipped)
      {
        var k :| k in pending;
        var fault := if k in faults then faults[k] else NoFault;
        var w := RunWrite(fileId, offset, buf, ps, k, fault, old(objects), skipped);
        if w.Err? {
          failed := Some(w.error);
        }
        UnionWithout(pending, failing, k);
        pending := pending - {k};
        skipped := pending + failing;
      }
      assert skipped == failing;
    }

    /** One write task of a range: the blocks written so far now include its piece, unless it failed. */
    method RunWrite(
      fileId: string, offset: nat, buf: Bytes, ps: seq<Piece>, k: int, fault: Fault,
      ghost before: Objects, ghost skipped: set<int>)
      returns (w: Result<(), Failure>)
      requires Valid() && KeyCodec.NamesFile(fileId) && Unlocked(fileId) && fault.Plausible()
      requires offset + |buf| <= UINT64_LIMIT && Covers(ps, offset, |buf|, blockSize)
      requires 0 <= k < |ps| && k in skipped
      requires Written(before, objects, KeysOf(fileId), GetBlockId(offset, blockSize), ps, buf, skipped)
      modifies this
      ensures Valid() && locks == old(locks)
      ensures w.Ok? <==> fault.NoFault?
      ensures !fault.Stores() ==> objects == old(objects)
      ensures fault.Stores() ==>
                Written(before, objects, KeysOf(fileId), GetBlockId(offset, blockSize), ps, buf, skipped - {k})
    {
      var p := ps[k];
      ghost var was := objects;
      ProductGrows(p.blockId, blockSize);
      var data := ReadAt(buf, p.bufOffset, p.size);
      w := WriteBlock(fileId, data, p.blockId, p.blockOffset, fault);
      if fault.Stores() {
        KeysInjective(fileId);
        WriteOnePiece(before, was, objects, KeysOf(fileId), GetBlockId(offset, blockSize), ps, buf, skipped, k);
      }
    }

    /** One read task: what the block holds of the range, under the lock of its key. */
    method ReadBlock(fileId: string, blockId: uint64, blockOffset: nat, size: nat, fault: Fault)
      returns (r: Result<Bytes, Failure>)
      requires size > 0 && fault.OfRead()
      requires KeyCodec.NamesFile(fileId) ==> KeysOf(fileId)(blockId) !in locks
      modifies this`locks
      ensures locks == old(locks)
      ensures r.Ok? <==> KeyCodec.NamesFile(fileId) && fault.NoFault?
      ensures r.Ok? ==>
                && r.value == ReadAt(View(objects, KeysOf(fileId))(blockId), blockOffset, size)
                && var task := BlockLocks.ReadTask(KeysOf(fileId)(blockId), blockOffset, size);
                   r.value == BlockLocks.Answer(objects, task)
    {
      KeyCodec.KeyRoundTrip(fileId, blockId);
      var named := KeyCodec.GetKey(fileId, blockId);
      if named.Err? {
        return Err(NoSuchName);
      }
      var key := named.value;
      assert key == KeysOf(fileId)(blockId);
      locks := locks + {key};
      r := FetchBlock(objects, key, blockOffset, size, fault);
      locks := locks - {key};
    }

    /** Reads exactly the requested number of bytes of the flat file, zeros where no object reaches. */
    method Read(fileId: string, offset: nat, size: nat, faults: map<int, Fault>) returns (r: Result<Bytes, Failure>)
      requires Valid() && Unlocked(fileId) && PlausibleReads(faults)
      requires offset + size <= UINT64_LIMIT
      modifies this`locks
      ensures locks == old(locks)
      ensures r.Ok? <==> && (size == 0 || KeyCodec.NamesFile(fileId))
                         && forall k :: 0 <= k < TaskCount(offset, size, blockSize) ==> k !in faults
      ensures r.Ok? ==> |r.value| == size
      ensures r.Ok? && size > 0 ==> ReadRange(View(objects, KeysOf(fileId)), blockSize, offset, r.value)
    {
      KeyCodec.KeyRoundTrip(fileId, 0);
      if size == 0 {
        return Ok([]);
      }
      if KeyCodec.GetKey(fileId, 0).Err? {
        return Err(NoSuchName);  // what every task would throw, before taking its lock
      }
      var ps := Split(offset, size);
      PartitionCount(ps, offset, size, blockSize);
      r := RunReads(fileId, offset, size, ps, faults);
    }

    /** The zero-filled contents of one piece of the range. */
    method ReadPiece(fileId: string, offset: nat, size: nat, ps: seq<Piece>, k: int, fault: Fault)
      returns (r: Result<Bytes, Failure>)
      requires Valid() && KeyCodec.NamesFile(fileId) && Unlocked(fileId) && fault.OfRead()
      requires offset + size <= UINT64_LIMIT && Partition(ps, offset, size, blockSize) && 0 <= k < |ps|
      modifies this`locks
      ensures locks == old(locks)
      ensures r.Ok? <==> fault.NoFault?
      ensures r.Ok? ==> r.value == PieceOf(View(objects, KeysOf(fileId)), ps[k])
    {
      var p := ps[k];
      ProductGrows(p.blockId, blockSize);
      hide KeysOf;
      r := ReadBlock(fileId, p.blockId, p.blockOffset, p.size, fault);
      if r.Ok? {
        r := Ok(FillToSize(r.value, p.size));
      }
    }

    /** The executor: takes the pending read tasks one by one, in any order, and joins their results. */
    method RunReads(fileId: string, offset: nat, size: nat, ps: seq<Piece>, faults: map<int, Fault>)
      returns (r: Result<Bytes, Failure>)
      requires Valid() && KeyCodec.NamesFile(fileId) && Unlocked(fileId) && PlausibleReads(faults)
      requires offset + size <= UINT64_LIMIT && Partition(ps, offset, size, blockSize)
      modifies this`locks
      ensures locks == old(locks)
      ensures r.Ok? <==> forall k :: 0 <= k < |ps| ==> k !in faults
      ensures r.Ok? ==> |r.value| == size && ReadRange(View(objects, KeysOf(fileId)), blockSize, offset, r.value)
    {
      hide KeysOf, View, ReadRange, PieceOf, Partition;
      ghost var blocks := View(objects, KeysOf(fileId));
      var failed: Option<Failure> := None;
      var parts: map<int, Bytes> := map[];
      var pending := Below(|ps|);
      while pending != {}
        invariant locks == old(locks) && pending <= Below(|ps|)
        invariant failed.None? <==> forall k :: 0 <= k < |ps| && k !in pending ==> k !in faults
        invariant forall k :: 0 <= k < |ps| && k !in pending && k !in faults ==>
                    k in parts && parts[k] == PieceOf(blocks, ps[k])
      {
        var k :| k in pending;
        var got := ReadPiece(fileId, offset, size, ps, k, if k in faults then faults[k] else NoFault);
        if got.Err? {
          failed := Some(got.error);
        } else {
          parts := parts[k := got.value];
        }
        pending := pending - {k};
      }
      if failed.Some? {
        return Err(failed.value);
      }
      var buf := Join(offset, size, ps, parts, blocks);
      r := Ok(buf);
    }

    /** The parts appended in block order. */
    method Join(offset: nat, size: nat, ps: seq<Piece>, parts: map<int, Bytes>, ghost blocks: Blocks)
      returns (buf: Bytes)
      requires blockSize > 0 && Partition(ps, offset, size, blockSize)
      requires forall k :: 0 <= k < |ps| ==> k in parts && parts[k] == PieceOf(blocks, ps[k])
      ensures |buf| == size && ReadRange(blocks, blockSize, offset, buf)
    {
      hide ReadRange, Partition, End, PieceOf;
      buf := [];
      EmptyRead(blocks, blockSize, offset);
      PartitionEnds(ps, offset, size, blockSize);
      for k := 0 to |ps|
        invariant |buf| == End(ps[..k]) && ReadRange(blocks, blockSize, offset, buf)
      {
        PieceFollows(ps, offset, size, blockSize, k);
        ReadOnePiece(blocks, blockSize, offset, buf, ps[k]);
        buf := buf + parts[k];
      }
    }

    /** The loops of truncate and unlink that list the objects to delete. */
    method KeysToDelete(fileId: string, size: nat, currentSize: nat) returns (keys: seq<string>)
      requires blockSize > 0 && KeyCodec.NamesFile(fileId) && currentSize < UINT64_LIMIT
      ensures ListsBlocks(keys, KeysOf(fileId), FirstDoomed(blockSize, size), GetBlockId(currentSize, blockSize))
    {
      hide KeysOf;
      keys := [];
      for objectId := 0 to GetBlockId(currentSize, blockSize) + 1
        invariant ListsBlocks(keys, KeysOf(fileId), FirstDoomed(blockSize, size), objectId - 1)
      {
        if Doomed(blockSize, size, currentSize, objectId) {
          var key := BlockKey(fileId, objectId);
          keys := keys + [key];
        }
      }
    }

    /** The listed keys are those of the doomed blocks. */
    lemma ListedAreDoomed(fileId: string, size: nat, currentSize: nat, keys: seq<string>)
      requires blockSize > 0 && KeyCodec.NamesFile(fileId) && currentSize < UINT64_LIMIT
      requires ListsBlocks(keys, KeysOf(fileId), FirstDoomed(blockSize, size), GetBlockId(currentSize, blockSize))
      ensures forall id :: IsId(id) ==> (KeysOf(fileId)(id) in keys <==> Doomed(blockSize, size, currentSize, id))
      ensures forall key <- keys :: !Foreign(KeysOf(fileId), key)
    {
      KeysInjective(fileId);
      hide KeysOf;
      var name, first: int := KeysOf(fileId), FirstDoomed(blockSize, size);
      forall id | IsId(id) ensures name(id) in keys <==> Doomed(blockSize, size, currentSize, id) {
        if Doomed(blockSize, size, currentSize, id) {
          assert keys[id - first] == name(id);
        }
      }
      forall key <- keys ensures !Foreign(name, key) {
        var k :| 0 <= k < |keys| && keys[k] == key;
        assert key == name(first + k) && IsId(first + k);
      }
    }

    method DeleteObjects(keys: seq<string>, deletion: Deletion) returns (r: Result<(), Failure>)
      modifies this`objects
      ensures r == if deletion.Completes? then Ok(()) else Err(Backend(deletion.errno))
      ensures objects == old(objects) - ((set key <- keys) - deletion.Kept())
    {
      objects := objects - ((set key <- keys) - deletion.Kept());
      r := if deletion.Completes? then Ok(()) else Err(Backend(deletion.errno));
    }

    /**
     * Deletes the objects numbered up to currentSize / blockSize, none when the
     * file is said to be empty. A failed deletion still touches no other file.
     */
    method Unlink(fileId: string, currentSize: nat, deletion: Deletion) returns (r: Result<(), Failure>)
      requires Valid() && currentSize < UINT64_LIMIT
      modifies this`objects
      ensures Valid()
      ensures r.Ok? <==> currentSize == 0 || (KeyCodec.NamesFile(fileId) && deletion.Completes?)
      ensures !KeyCodec.NamesFile(fileId) ==> objects == old(objects)
      ensures KeyCodec.NamesFile(fileId) ==> SameElsewhere(old(objects), objects, KeysOf(fileId))
      ensures KeyCodec.NamesFile(fileId) && r.Ok? ==>
                forall id :: IsId(id) ==>
                  (KeysOf(fileId)(id) in objects <==>
                   KeysOf(fileId)(id) in old(objects) && (currentSize == 0 || id > GetBlockId(currentSize, blockSize)))
    {
      KeyCodec.KeyRoundTrip(fileId, 0);
      if currentSize == 0 {
        return Ok(());
      }
      if KeyCodec.GetKey(fileId, 0).Err? {
        return Err(NoSuchName);
      }
      hide KeysOf, KeyCodec.GetKey, ListsBlocks;
      var keys := KeysToDelete(fileId, 0, currentSize);
      UnlinkLeaves(objects, keys, deletion.Kept(), fileId, currentSize);
      hide SameElsewhere;
      r := DeleteObjects(keys, deletion);
    }

    lemma UnlinkLeaves(objects: Objects, keys: seq<string>, kept: set<string>, fileId: string, currentSize: nat)
      requires blockSize > 0 && KeyCodec.NamesFile(fileId) && currentSize < UINT64_LIMIT
      requires ListsBlocks(keys, KeysOf(fileId), FirstDoomed(blockSize, 0), GetBlockId(currentSize, blockSize))
      ensures var left := objects - ((set key <- keys) - kept);
              && SameElsewhere(objects, left, KeysOf(fileId))
              && (kept == {} ==> forall id :: IsId(id) ==>
                    (KeysOf(fileId)(id) in left <==>
                     KeysOf(fileId)(id) in objects && id > GetBlockId(currentSize, blockSize)))
    {
      ListedAreDoomed(fileId, 0, currentSize, keys);
      BlockUnique(0, blockSize, 0, 0);
      hide KeysOf, ListsBlocks;
      DeleteBlocks(objects, KeysOf(fileId), (set key <- keys) - kept);
      hide View, Foreign, SameElsewhere;
    }

    /** The locked part of truncate: one object is cut or zero filled to n bytes. */
    method CutObject(key: string, n: nat, fault: Fault) returns (r: Result<(), Failure>)
      requires Valid() && key !in locks && 0 < n <= blockSize && fault.Plausible()
      modifies this
      ensures Valid() && locks == old(locks)
      ensures r.Ok? <==> fault.NoFault?
      ensures objects ==
              if !fault.Stores() then old(objects)
              else old(objects)[key := CutTo(randomAccess, Object(old(objects), key), n)]
    {
      locks := locks + {key};
      var got := FetchBlock(objects, key, 0, n, fault);
      if got.Err? {
        locks := locks - {key};
        return Err(got.error);
      }
      var put := PutObject(key, FillToSize(got.value, n), 0, fault);
      locks := locks - {key};
      r := if put.Ok? then Ok(()) else Err(put.error);
    }

    /** Cuts, or fills up, the block that holds the new end of the file. */
    method CutLastBlock(fileId: string, size: nat, fault: Fault) returns (r: Result<(), Failure>)
      requires Valid() && KeyCodec.NamesFile(fileId) && Unlocked(fileId) && fault.Plausible()
      requires size < UINT64_LIMIT
      modifies this
      ensures Valid() && locks == old(locks)
      ensures r.Ok? <==> fault.NoFault? || size == 0
      ensures !fault.Stores() && r.Err? ==> objects == old(objects)
      ensures SameElsewhere(old(objects), objects, KeysOf(fileId))
      ensures r.Ok? || fault.Stores() ==>
                forall id :: View(objects, KeysOf(fileId))(id) ==
                  var block := View(old(objects), KeysOf(fileId))(id);
                  if size > 0 && id == CutBlock(blockSize, size)
                  then CutTo(randomAccess, block, CutSize(blockSize, size)) else block
    {
      hide KeysOf, CutTo, Foreign;
      var newLast, remainder := GetBlockId(size, blockSize), GetBlockOffset(size, blockSize);
      var cutId := newLast;
      if remainder == 0 && newLast > 0 {
        cutId := newLast - 1;
        remainder := blockSize;
      }
      if remainder == 0 && newLast == 0 {
        return Ok(());
      }
      var key := BlockKey(fileId, cutId);
      KeysInjective(fileId);
      ghost var names := KeysOf(fileId);
      assert View(objects, names)(cutId) == Object(objects, key);
      PutBlock(objects, names, cutId, CutTo(randomAccess, Object(objects, key), remainder));
      hide View, SameElsewhere;
      r := CutObject(key, remainder, fault);
    }

    /** Deletes the blocks past the new end of the file. */
    method DeleteDoomed(fileId: string, size: nat, currentSize: nat, deletion: Deletion)
      returns (r: Result<(), Failure>)
      requires Valid() && KeyCodec.NamesFile(fileId)
      requires currentSize < UINT64_LIMIT
      modifies this`objects
      ensures Valid()
      ensures deletion.Completes? ==> r.Ok?
      ensures SameElsewhere(old(objects), objects, KeysOf(fileId))
      ensures r.Ok? ==> forall id :: View(objects, KeysOf(fileId))(id) ==
                          if Doomed(blockSize, size, currentSize, id) then []
                          else View(old(objects), KeysOf(fileId))(id)
      ensures forall id :: || View(objects, KeysOf(fileId))(id) == View(old(objects), KeysOf(fileId))(id)
                           || (View(objects, KeysOf(fileId))(id) == [] && Doomed(blockSize, size, currentSize, id))
    {
      hide KeysOf;
      var keys := KeysToDelete(fileId, size, currentSize);
      ListedAreDoomed(fileId, size, currentSize, keys);
      hide ListsBlocks;
      if keys == [] {
        return Ok(());
      }
      DeleteBlocks(objects, KeysOf(fileId), (set key <- keys) - deletion.Kept());
      r := DeleteObjects(keys, deletion);
    }

    /**
     * Every block becomes what truncation leaves of it, and no other file is
     * touched; after a failure each block is as it was or already truncated.
     */
    method Truncate(fileId: string, size: nat, currentSize: nat, fault: Fault, deletion: Deletion)
      returns (r: Result<(), Failure>)
      requires Valid() && Unlocked(fileId) && fault.Plausible()
      requires size < UINT64_LIMIT && currentSize < UINT64_LIMIT
      modifies this
      ensures Valid() && locks == old(locks)
      ensures size != currentSize && !KeyCodec.NamesFile(fileId) ==> r == Err(NoSuchName)
      ensures fault.NoFault? && deletion.Completes? && KeyCodec.NamesFile(fileId) ==> r.Ok?
      ensures !KeyCodec.NamesFile(fileId) ==> objects == old(objects)
      ensures KeyCodec.NamesFile(fileId) ==> SameElsewhere(old(objects), objects, KeysOf(fileId))
      ensures KeyCodec.NamesFile(fileId) && r.Ok? ==>
                forall id :: View(objects, KeysOf(fileId))(id) ==
                  TruncatedBlock(randomAccess, blockSize, size, currentSize, id, View(old(objects), KeysOf(fileId))(id))
      ensures KeyCodec.NamesFile(fileId) && r.Err? ==>
                PartlyTruncated(View(old(objects), KeysOf(fileId)), View(objects, KeysOf(fileId)),
                                randomAccess, blockSize, size, currentSize)
    {
      KeyCodec.KeyRoundTrip(fileId, 0);
      if size == currentSize {
        return Ok(());
      }
      if KeyCodec.GetKey(fileId, 0).Err? {
        return Err(NoSuchName);
      }
      ghost var before, names := objects, KeysOf(fileId);
      NotYetTruncated(View(before, names), randomAccess, blockSize, size, currentSize);
      assert SameElsewhere(before, before, names);
      hide KeysOf, View, KeyCodec.GetKey, CutTo, TruncatedBlock, Doomed, PartlyTruncated, SameElsewhere;
      r := CutLastBlock(fileId, size, fault);
      ghost var mid := objects;
      if r.Err? {
        if fault.Stores() {
          InterruptedSteps(View(before, names), View(mid, names), View(mid, names),
                           randomAccess, blockSize, size, currentSize);
        }
        return;
      }
      r := DeleteDoomed(fileId, size, currentSize, deletion);
      SameElsewhereStill(before, mid, objects, names);
      if r.Ok? {
        TruncationSteps(View(before, names), View(mid, names), View(objects, names),
                        randomAccess, blockSize, size, currentSize);
      } else {
        InterruptedSteps(View(before, names), View(mid, names), View(objects, names),
                         randomAccess, blockSize, size, currentSize);
      }
    }
  }
}
