/**
 * How the storage clients delete a list of keys: in batches, each of which
 * starts again at the first key of the list.
 */
module BatchedDeletion {
  import opened Wrappers
  import opened FlatFile
  import opened BlockStore
  import opened KeyValueStorage
  import opened Words
  import KeyCodec

  const MAX_DELETE_OBJECTS: nat := 1000

  /** The removals that throw, by batch and by position within the batch. */
  type Faults = map<(nat, nat), nat>

  ghost function Keys(keys: seq<string>): set<string> {
    set key <- keys
  }

  /** What the batches reach: the first keys of the list. */
  ghost function Reached(keys: seq<string>): set<string> {
    Keys(keys[..Min(|keys|, MAX_DELETE_OBJECTS)])
  }

  /** Removes the keys of one batch; an object that does not exist is no error. */
  method RemoveBatch(objects: Objects, keys: seq<string>, batch: nat, faults: Faults)
    returns (left: Objects, r: Result<(), nat>, ghost gone: set<string>)
    ensures left == objects - gone && gone <= Keys(keys)
    ensures r.Ok? <==> forall i :: 0 <= i < |keys| ==> (batch, i) !in faults
    ensures r.Ok? ==> gone == Keys(keys)
  {
    left, gone := objects, {};
    for i := 0 to |keys|
      invariant forall k :: 0 <= k < i ==> (batch, k) !in faults
      invariant left == objects - gone && gone == Keys(keys[..i])
    {
      if (batch, i) in faults {
        return left, Err(faults[(batch, i)]), gone;
      }
      left, gone := left - {keys[i]}, gone + {keys[i]};
    }
    assert keys[..|keys|] == keys;
    r := Ok(());
  }

  /** No removal of the batches that start before a position of the list throws. */
  ghost predicate Undisturbed(size: nat, faults: Faults, end: nat) {
    forall b: nat, i: nat ::
      b * MAX_DELETE_OBJECTS < Min(end, size) && i < Min(size - b * MAX_DELETE_OBJECTS, MAX_DELETE_OBJECTS) ==>
        (b, i) !in faults
  }

  /** deleteObjects: a call that returns has removed the keys it reached and no others. */
  method DeleteObjects(objects: Objects, keys: seq<string>, faults: Faults)
    returns (left: Objects, r: Result<(), nat>, ghost gone: set<string>)
    ensures left == objects - gone && gone <= Reached(keys)
    ensures r.Ok? ==> gone == Reached(keys)
    ensures r.Ok? <==> Undisturbed(|keys|, faults, |keys|)
  {
    left, gone := objects, {};
    var offset, batch := 0, 0;
    while offset < |keys|
      invariant offset == batch * MAX_DELETE_OBJECTS && Undisturbed(|keys|, faults, offset)
      invariant left == objects - gone && gone == if batch == 0 then {} else Reached(keys)
    {
      var batchSize := Min(|keys| - offset, MAX_DELETE_OBJECTS);
      assert keys[..batchSize] <= keys[..Min(|keys|, MAX_DELETE_OBJECTS)];
      ghost var removed;
      left, r, removed := RemoveBatch(left, keys[..batchSize], batch, faults);
      gone := gone + removed;
      if r.Err? {
        return;
      }
      offset, batch := offset + MAX_DELETE_OBJECTS, batch + 1;
    }
    r := Ok(());
  }

  ghost predicate Distinct(keys: seq<string>) {
    forall i, j :: 0 <= i < j < |keys| ==> keys[i] != keys[j]
  }

  /** The contract of deleteObjects is met exactly by lists of at most one batch. */
  lemma DeletesAllExactly(keys: seq<string>)
    requires Distinct(keys)
    ensures Reached(keys) == Keys(keys) <==> |keys| <= MAX_DELETE_OBJECTS
  {
    if |keys| <= MAX_DELETE_OBJECTS {
      assert keys[..|keys|] == keys;
    } else {
      var key := keys[MAX_DELETE_OBJECTS];
      assert key in Keys(keys);
      assert key !in Reached(keys);
    }
  }

  /** Of a list of blocks those from the batch size on stay behind. */
  lemma DeletionReaches(objects: Objects, keys: seq<string>, name: Naming, first: nat, last: nat, id: int)
    requires Injective(name) && IsId(last) && IsId(id) && ListsBlocks(keys, name, first, last)
    ensures name(id) in objects - Reached(keys) <==>
            name(id) in objects && !(first <= id <= last && id < first + MAX_DELETE_OBJECTS)
  {
    var reached := keys[..Min(|keys|, MAX_DELETE_OBJECTS)];
    if first <= id < first + |reached| {
      assert reached[id - first] == name(id);
    }
  }

  /**
   * Truncation, by the list of keys it makes, deletes every block past the new end
   * exactly when none of those that exist comes after the first batch.
   */
  lemma TruncationCompleteExactly(
    objects: Objects, keys: seq<string>, name: Naming, blockSize: nat, size: nat, currentSize: nat)
    requires blockSize > 0 && Injective(name) && IsId(currentSize)
    requires ListsBlocks(keys, name, FirstDoomed(blockSize, size), GetBlockId(currentSize, blockSize))
    ensures (forall id :: IsId(id) && Doomed(blockSize, size, currentSize, id) ==> name(id) !in objects - Reached(keys))
            <==>
            (forall id :: IsId(id) && Doomed(blockSize, size, currentSize, id) && name(id) in objects ==>
               id < FirstDoomed(blockSize, size) + MAX_DELETE_OBJECTS)
  {
    var first, last := FirstDoomed(blockSize, size), GetBlockId(currentSize, blockSize);
    forall id | IsId(id) && Doomed(blockSize, size, currentSize, id)
      ensures name(id) in objects - Reached(keys) <==> name(id) in objects && first + MAX_DELETE_OBJECTS <= id
    {
      DeletionReaches(objects, keys, name, first, last, id);
    }
  }

  /** Unlinking deletes a file exactly when none of its blocks lies past the given size or after the first batch. */
  lemma UnlinkCompleteExactly(objects: Objects, keys: seq<string>, name: Naming, blockSize: nat, currentSize: nat)
    requires blockSize > 0 && Injective(name) && IsId(currentSize)
    requires ListsBlocks(keys, name, 0, GetBlockId(currentSize, blockSize))
    ensures (forall id :: IsId(id) ==> name(id) !in objects - Reached(keys)) <==>
            (forall id :: IsId(id) && name(id) in objects ==>
               id <= GetBlockId(currentSize, blockSize) && id < MAX_DELETE_OBJECTS)
  {
    var last := GetBlockId(currentSize, blockSize);
    forall id | IsId(id)
      ensures name(id) in objects - Reached(keys) <==>
              name(id) in objects && !(id <= last && id < MAX_DELETE_OBJECTS)
    {
      DeletionReaches(objects, keys, name, 0, last, id);
    }
  }

  lemma BlockBelow(id: nat, bound: nat, blockSize: nat)
    requires id * blockSize < bound * blockSize
    ensures id < bound
  {
    if bound < id {
      ProductsInOrder(bound, id, blockSize);
    }
  }

  /** In bytes: a file whose data ends by the given size is unlinked if that is at most one batch of blocks. */
  lemma SmallFilesAreUnlinked(
    objects: Objects, keys: seq<string>, name: Naming, blockSize: nat, currentSize: nat)
    requires blockSize > 0 && Injective(name) && IsId(currentSize) && EndsBy(objects, name, blockSize, currentSize)
    requires ListsBlocks(keys, name, 0, GetBlockId(currentSize, blockSize))
    requires currentSize <= MAX_DELETE_OBJECTS * blockSize
    ensures forall id :: IsId(id) ==> name(id) !in objects - Reached(keys)
  {
    var last := GetBlockId(currentSize, blockSize);
    assert (last + 1) * blockSize == last * blockSize + blockSize;
    forall id | IsId(id) && name(id) in objects ensures id <= last && id < MAX_DELETE_OBJECTS {
      BlockBelow(id, last + 1, blockSize);
      BlockBelow(id, MAX_DELETE_OBJECTS, blockSize);
    }
    UnlinkCompleteExactly(objects, keys, name, blockSize, currentSize);
  }

  /** The last of 1001 blocks of one byte each survives the deletion of all of them. */
  lemma LastBlockStays(fileId: string, keys: seq<string>)
    requires KeyCodec.NamesFile(fileId) && ListsBlocks(keys, KeysOf(fileId), 0, 1000)
    ensures Distinct(keys) && |keys| == 1001 && KeysOf(fileId)(1000) in Keys(keys) - Reached(keys)
  {
    KeysInjective(fileId);
    var name := KeysOf(fileId);
    hide KeysOf;
    assert keys[1000] == name(1000);
    DeletionReaches(map[name(1000) := []], keys, name, 0, 1000, 1000);
  }
}
