/**
 * The flat file that a set of block objects stands for. Object i of a file holds
 * its bytes from i * blockSize on; short and missing objects read as zeros.
 */
module BlockStore {
  import opened FlatFile
  import opened Words

  /** Block numbers are 64-bit. */
  predicate IsId(id: int) {
    0 <= id < UINT64_LIMIT
  }

  /** The contents of the key-value storage. */
  type Objects = map<string, Bytes>

  // ------------------------------------------------------------------------
  // Block arithmetic
  // ------------------------------------------------------------------------

  lemma ProductGrows(id: nat, blockSize: nat)
    requires blockSize > 0
    ensures id <= id * blockSize
  {
  }

  function GetBlockId(offset: nat, blockSize: nat): (id: nat)
    requires blockSize > 0
    ensures id * blockSize <= offset < id * blockSize + blockSize
    ensures id <= offset
  {
    ProductGrows(Quotient(offset, blockSize), blockSize);
    Quotient(offset, blockSize)
  }

  function GetBlockOffset(offset: nat, blockSize: nat): (o: nat)
    requires blockSize > 0
    ensures o < blockSize
    ensures GetBlockId(offset, blockSize) * blockSize + o == offset
  {
    offset - GetBlockId(offset, blockSize) * blockSize
  }

  lemma BlockUnique(pos: nat, blockSize: nat, id: nat, o: nat)
    requires o < blockSize && pos == id * blockSize + o
    ensures GetBlockId(pos, blockSize) == id && GetBlockOffset(pos, blockSize) == o
  {
    var q := GetBlockId(pos, blockSize);
    if q < id {
      ProductsInOrder(q, id, blockSize);
    } else if id < q {
      ProductsInOrder(id, q, blockSize);
    }
  }

  // ------------------------------------------------------------------------
  // Objects and the flat file
  // ------------------------------------------------------------------------

  /** How the blocks of one file are named on the storage. */
  type Naming = int -> string

  ghost predicate Injective(name: Naming) {
    forall i, j :: IsId(i) && IsId(j) && name(i) == name(j) ==> i == j
  }

  function Object(objects: Objects, key: string): Bytes {
    if key in objects then objects[key] else []
  }

  /** The blocks of one file, [] for a missing object. */
  type Blocks = int -> Bytes

  ghost function View(objects: Objects, name: Naming): Blocks {
    (id: int) => if IsId(id) then Object(objects, name(id)) else []
  }

  /** The byte of the flat file at a position. */
  ghost function FlatByte(blocks: Blocks, blockSize: nat, pos: nat): byte
    requires blockSize > 0
  {
    ByteAt(blocks(GetBlockId(pos, blockSize)), GetBlockOffset(pos, blockSize))
  }

  ghost predicate WithinBlocks(objects: Objects, blockSize: nat) {
    forall key <- objects :: |objects[key]| <= blockSize
  }

  /** The key names no block of the file. */
  ghost predicate Foreign(name: Naming, key: string) {
    forall id :: IsId(id) ==> key != name(id)
  }

  ghost predicate SameElsewhere(before: Objects, after: Objects, name: Naming) {
    forall key: string :: Foreign(name, key) ==>
      (key in before <==> key in after) && Object(before, key) == Object(after, key)
  }

  lemma SameElsewhereStill(before: Objects, mid: Objects, after: Objects, name: Naming)
    requires SameElsewhere(before, mid, name) && SameElsewhere(mid, after, name)
    ensures SameElsewhere(before, after, name)
  {
    hide Foreign;
  }

  /** Storing one block changes that block and nothing else. */
  lemma PutBlock(objects: Objects, name: Naming, blockId: int, value: Bytes)
    requires Injective(name) && IsId(blockId)
    ensures var after := objects[name(blockId) := value];
            && (forall id :: View(after, name)(id) == if id == blockId then value else View(objects, name)(id))
            && SameElsewhere(objects, after, name)
  {
  }

  /** Deleting the named blocks empties them and nothing else. */
  lemma DeleteBlocks(objects: Objects, name: Naming, gone: set<string>)
    requires forall key <- gone :: !Foreign(name, key)
    ensures var after := objects - gone;
            && (forall id :: View(after, name)(id) ==
                  if IsId(id) && name(id) in gone then [] else View(objects, name)(id))
            && SameElsewhere(objects, after, name)
  {
  }

  // ------------------------------------------------------------------------
  // Splitting a byte range
  // ------------------------------------------------------------------------

  /** One per-block task of a read or a write. */
  datatype Piece = Piece(blockId: nat, blockOffset: nat, bufOffset: nat, size: nat) {
    predicate Fits(blockSize: nat) {
      size > 0 && blockOffset + size <= blockSize
    }
  }

  /** Piece k is the part of the range [offset, offset + size) inside the k-th block from the offset's. */
  ghost predicate Covers(ps: seq<Piece>, offset: nat, size: nat, blockSize: nat)
    requires blockSize > 0
  {
    forall k :: 0 <= k < |ps| ==> Covering(ps[k], k, k + 1 == |ps|, offset, size, blockSize)
  }

  ghost predicate Covering(p: Piece, k: nat, last: bool, offset: nat, size: nat, blockSize: nat)
    requires blockSize > 0
  {
    && p.Fits(blockSize)
    && p.blockId == GetBlockId(offset, blockSize) + k
    && p.blockId * blockSize + p.blockOffset == offset + p.bufOffset
    && p.bufOffset + p.size <= size
    && (if k == 0 then p.bufOffset == 0 else p.blockOffset == 0)
    && (!last ==> p.blockOffset + p.size == blockSize)
  }

  ghost function End(ps: seq<Piece>): nat {
    if ps == [] then 0 else ps[|ps| - 1].bufOffset + ps[|ps| - 1].size
  }

  /** The next piece may start at this offset of this block. */
  ghost predicate Continues(
    ps: seq<Piece>, offset: nat, size: nat, blockSize: nat, blockId: nat, blockOffset: nat)
    requires blockSize > 0
  {
    && Covers(ps, offset, size, blockSize) && End(ps) <= size
    && blockId == GetBlockId(offset, blockSize) + |ps| && blockOffset < blockSize
    && (End(ps) < size ==> blockId * blockSize + blockOffset == offset + End(ps))
    && (ps != [] ==> blockOffset == 0)
    && (ps != [] && End(ps) < size ==> ps[|ps| - 1].blockOffset + ps[|ps| - 1].size == blockSize)
  }

  lemma NextPiece(ps: seq<Piece>, offset: nat, size: nat, blockSize: nat, blockId: nat, blockOffset: nat)
    requires blockSize > 0 && Continues(ps, offset, size, blockSize, blockId, blockOffset) && End(ps) < size
    ensures var n := Min(blockSize - blockOffset, size - End(ps));
            var ps' := ps + [Piece(blockId, blockOffset, End(ps), n)];
            Continues(ps', offset, size, blockSize, blockId + 1, 0) && End(ps') == End(ps) + n
  {
    var n := Min(blockSize - blockOffset, size - End(ps));
    var p := Piece(blockId, blockOffset, End(ps), n);
    NextCovers(ps, p, offset, size, blockSize);
    hide Covers, Covering, GetBlockId;
    NextProduct(blockId, blockSize);
    assert End(ps + [p]) == End(ps) + n;
  }

  lemma NextProduct(id: nat, blockSize: nat)
    ensures (id + 1) * blockSize == id * blockSize + blockSize
  {
  }

  lemma NextCovers(ps: seq<Piece>, p: Piece, offset: nat, size: nat, blockSize: nat)
    requires blockSize > 0 && Covers(ps, offset, size, blockSize) && Covering(p, |ps|, true, offset, size, blockSize)
    requires ps != [] ==> ps[|ps| - 1].blockOffset + ps[|ps| - 1].size == blockSize
    ensures Covers(ps + [p], offset, size, blockSize)
  {
    if ps != [] {
      NotLast(ps[|ps| - 1], |ps| - 1, offset, size, blockSize);
    }
    hide Covering;
    forall k | 0 <= k < |ps| + 1 ensures Covering((ps + [p])[k], k, k == |ps|, offset, size, blockSize) {
      assert k < |ps| ==> Covering(ps[k], k, k + 1 == |ps|, offset, size, blockSize);
    }
  }

  lemma NotLast(p: Piece, k: nat, offset: nat, size: nat, blockSize: nat)
    requires blockSize > 0 && Covering(p, k, true, offset, size, blockSize) && p.blockOffset + p.size == blockSize
    ensures Covering(p, k, false, offset, size, blockSize)
  {
  }

  /** The pieces tile the whole range. */
  ghost predicate Partition(ps: seq<Piece>, offset: nat, size: nat, blockSize: nat)
    requires blockSize > 0
  {
    Covers(ps, offset, size, blockSize) && End(ps) == size
  }

  /** Neighbouring pieces meet without gap or overlap. */
  lemma PiecesMeet(ps: seq<Piece>, offset: nat, size: nat, blockSize: nat, k: nat)
    requires blockSize > 0 && Covers(ps, offset, size, blockSize) && k + 1 < |ps|
    ensures ps[k].bufOffset + ps[k].size == ps[k + 1].bufOffset
    ensures ps[k].blockId != ps[k + 1].blockId
  {
    assert ps[k + 1].blockId == ps[k].blockId + 1;
    assert ps[k + 1].blockId * blockSize == ps[k].blockId * blockSize + blockSize;
  }

  /** Piece k starts where the pieces before it end. */
  lemma PieceFollows(ps: seq<Piece>, offset: nat, size: nat, blockSize: nat, k: nat)
    requires blockSize > 0 && Partition(ps, offset, size, blockSize) && k < |ps|
    ensures ps[k].Fits(blockSize) && ps[k].blockId * blockSize + ps[k].blockOffset == offset + ps[k].bufOffset
    ensures ps[k].bufOffset == End(ps[..k]) && End(ps[..k + 1]) == ps[k].bufOffset + ps[k].size
  {
    if k > 0 {
      PiecesMeet(ps, offset, size, blockSize, k - 1);
    }
  }

  lemma PartitionEnds(ps: seq<Piece>, offset: nat, size: nat, blockSize: nat)
    requires blockSize > 0 && Partition(ps, offset, size, blockSize)
    ensures End(ps[..0]) == 0 && End(ps[..|ps|]) == size
  {
    assert ps[..|ps|] == ps;
  }

  /** How many blocks a range touches. */
  function TaskCount(offset: nat, size: nat, blockSize: nat): int
    requires blockSize > 0
  {
    if size == 0 then 0 else GetBlockId(offset + size - 1, blockSize) - GetBlockId(offset, blockSize) + 1
  }

  lemma PartitionCount(ps: seq<Piece>, offset: nat, size: nat, blockSize: nat)
    requires blockSize > 0 && Partition(ps, offset, size, blockSize)
    ensures |ps| == TaskCount(offset, size, blockSize)
  {
    if ps != [] {
      var last := ps[|ps| - 1];
      BlockUnique(offset + size - 1, blockSize, last.blockId, last.blockOffset + last.size - 1);
    }
  }

  ghost predicate Holds(p: Piece, o: int) {
    p.blockOffset <= o < p.blockOffset + p.size
  }

  lemma PieceInBlock(ps: seq<Piece>, offset: nat, size: nat, blockSize: nat, pos: nat, k: nat)
    requires blockSize > 0 && Partition(ps, offset, size, blockSize)
    requires k < |ps| && ps[k].blockId == GetBlockId(pos, blockSize)
    ensures pos - offset - ps[k].bufOffset == GetBlockOffset(pos, blockSize) - ps[k].blockOffset
    ensures offset <= pos < offset + size <==> Holds(ps[k], GetBlockOffset(pos, blockSize))
  {
    if k + 1 < |ps| {
      PiecesMeet(ps, offset, size, blockSize, k);
    }
  }

  lemma NoPieceInBlock(ps: seq<Piece>, offset: nat, size: nat, blockSize: nat, pos: nat)
    requires blockSize > 0 && Partition(ps, offset, size, blockSize)
    requires !(0 <= GetBlockId(pos, blockSize) - GetBlockId(offset, blockSize) < |ps|)
    ensures pos < offset || offset + size <= pos
  {
    var id: int, first: int := GetBlockId(pos, blockSize), GetBlockId(offset, blockSize);
    if id < first {
      ProductsInOrder(id, first, blockSize);
    } else if ps != [] {
      ProductsInOrder(ps[|ps| - 1].blockId, id, blockSize);
    }
  }

  /** Piece k exists and holds byte o of its block. */
  ghost predicate Reaches(ps: seq<Piece>, k: int, o: int) {
    0 <= k < |ps| && Holds(ps[k], o)
  }

  /** Byte o of the block of piece k is at `pos`, which lies in the range exactly when the piece holds it. */
  ghost predicate Located(ps: seq<Piece>, offset: nat, size: nat, pos: nat, k: int, o: nat) {
    && (Reaches(ps, k, o) <==> offset <= pos < offset + size)
    && (0 <= k < |ps| ==> ps[k].bufOffset + ps[k].size <= size)
    && (Reaches(ps, k, o) ==> pos - offset == ps[k].bufOffset + o - ps[k].blockOffset)
  }

  lemma PartitionLocates(ps: seq<Piece>, offset: nat, size: nat, blockSize: nat, pos: nat)
    requires blockSize > 0 && Partition(ps, offset, size, blockSize)
    ensures Located(ps, offset, size, pos,
                    GetBlockId(pos, blockSize) - GetBlockId(offset, blockSize), GetBlockOffset(pos, blockSize))
  {
    var k: int := GetBlockId(pos, blockSize) - GetBlockId(offset, blockSize);
    if 0 <= k < |ps| {
      PieceInBlock(ps, offset, size, blockSize, pos, k);
    } else {
      NoPieceInBlock(ps, offset, size, blockSize, pos);
    }
  }

  // ------------------------------------------------------------------------
  // Writes
  // ------------------------------------------------------------------------

  /** The block with its part of the buffer written. */
  ghost function WritePiece(block: Bytes, p: Piece, buf: Bytes): Bytes {
    WriteAt(block, p.blockOffset, ReadAt(buf, p.bufOffset, p.size))
  }

  /** What a block holds once the piece k inside it was written, unless that piece was skipped. */
  ghost function WrittenBlock(block: Bytes, ps: seq<Piece>, buf: Bytes, skipped: set<int>, k: int): Bytes {
    if 0 <= k < |ps| && k !in skipped
    then WritePiece(block, ps[k], buf)
    else block
  }

  ghost predicate BlocksWritten(
    before: Blocks, after: Blocks, first: nat, ps: seq<Piece>, buf: Bytes, skipped: set<int>)
  {
    forall id :: after(id) == WrittenBlock(before(id), ps, buf, skipped, id - first)
  }

  lemma WrittenByte(
    block: Bytes, ps: seq<Piece>, buf: Bytes, skipped: set<int>, offset: nat, pos: nat, k: int, o: nat)
    requires Located(ps, offset, |buf|, pos, k, o)
    ensures ByteAt(WrittenBlock(block, ps, buf, skipped, k), o) ==
            if offset <= pos < offset + |buf| && k !in skipped then buf[pos - offset] else ByteAt(block, o)
  {
    hide WriteAt, ByteAt;
    if 0 <= k < |ps| && k !in skipped {
      var p := ps[k];
      var data := ReadAt(buf, p.bufOffset, p.size);
      assert |data| == p.size;
      WriteAtByte(block, p.blockOffset, data, o);
    }
  }

  /** The flat file with the range replaced by buf, except in the blocks whose task failed. */
  ghost predicate WroteRange(
    before: Blocks, after: Blocks, blockSize: nat, offset: nat, buf: Bytes, failed: set<int>)
    requires blockSize > 0
  {
    forall pos: nat ::
      FlatByte(after, blockSize, pos) ==
      if offset <= pos < offset + |buf| && GetBlockId(pos, blockSize) - GetBlockId(offset, blockSize) !in failed
      then buf[pos - offset]
      else FlatByte(before, blockSize, pos)
  }

  /**
   * Blocks written piece by piece form the flat file with the range overwritten,
   * except for the parts whose piece was not written.
   */
  lemma WrittenFlatFile(
    before: Blocks, after: Blocks, blockSize: nat, offset: nat, ps: seq<Piece>, buf: Bytes, failed: set<int>)
    requires blockSize > 0 && Partition(ps, offset, |buf|, blockSize)
    requires BlocksWritten(before, after, GetBlockId(offset, blockSize), ps, buf, failed)
    ensures WroteRange(before, after, blockSize, offset, buf, failed)
  {
    forall pos: nat
      ensures FlatByte(after, blockSize, pos) ==
              if offset <= pos < offset + |buf| && GetBlockId(pos, blockSize) - GetBlockId(offset, blockSize) !in failed
              then buf[pos - offset]
              else FlatByte(before, blockSize, pos)
    {
      var id, o := GetBlockId(pos, blockSize), GetBlockOffset(pos, blockSize);
      var k: int := id - GetBlockId(offset, blockSize);
      PartitionLocates(ps, offset, |buf|, blockSize, pos);
      WrittenByte(before(id), ps, buf, failed, offset, pos, k, o);
      assert after(id) == WrittenBlock(before(id), ps, buf, failed, k);
    }
  }

  lemma WriteOneBlock(
    before: Blocks, blocks: Blocks, after: Blocks, first: nat, ps: seq<Piece>, buf: Bytes, skipped: set<int>, k: nat)
    requires k < |ps| && IsId(first + k) && k in skipped
    requires BlocksWritten(before, blocks, first, ps, buf, skipped)
    requires forall id :: after(id) ==
               if id == first + k
               then WritePiece(blocks(id), ps[k], buf)
               else blocks(id)
    ensures BlocksWritten(before, after, first, ps, buf, skipped - {k})
  {
    hide WritePiece, IsId;
  }

  /** The state of a write whose `skipped` pieces are not written (yet), no other file being touched. */
  ghost predicate Written(
    before: Objects, after: Objects, name: Naming, first: nat, ps: seq<Piece>, buf: Bytes, skipped: set<int>)
  {
    && SameElsewhere(before, after, name)
    && BlocksWritten(View(before, name), View(after, name), first, ps, buf, skipped)
  }

  lemma NothingWritten(objects: Objects, name: Naming, first: nat, ps: seq<Piece>, buf: Bytes, skipped: set<int>)
    requires forall k :: 0 <= k < |ps| ==> k in skipped
    ensures Written(objects, objects, name, first, ps, buf, skipped)
  {
  }

  /** Writing one more piece, in whatever order the pieces are taken. */
  lemma WriteOnePiece(
    before: Objects, objects: Objects, after: Objects, name: Naming,
    first: nat, ps: seq<Piece>, buf: Bytes, skipped: set<int>, k: nat)
    requires Injective(name)
    requires k < |ps| && IsId(first + k) && k in skipped
    requires Written(before, objects, name, first, ps, buf, skipped)
    requires var key := name(first + k);
             after == objects[key := WritePiece(Object(objects, key), ps[k], buf)]
    ensures Written(before, after, name, first, ps, buf, skipped - {k})
  {
    var key := name(first + k);
    PutBlock(objects, name, first + k, after[key]);
    assert View(objects, name)(first + k) == Object(objects, key);
    WriteOneBlock(View(before, name), View(objects, name), View(after, name), first, ps, buf, skipped, k);
  }

  // ------------------------------------------------------------------------
  // Reads
  // ------------------------------------------------------------------------

  /** buf holds the flat file's bytes from offset on. */
  ghost predicate ReadRange(blocks: Blocks, blockSize: nat, offset: nat, buf: Bytes)
    requires blockSize > 0
  {
    forall i :: 0 <= i < |buf| ==> buf[i] == FlatByte(blocks, blockSize, offset + i)
  }

  /** The zero-filled contents of one piece. */
  ghost function PieceOf(blocks: Blocks, p: Piece): Bytes {
    FillToSize(ReadAt(blocks(p.blockId), p.blockOffset, p.size), p.size)
  }

  lemma EmptyRead(blocks: Blocks, blockSize: nat, offset: nat)
    requires blockSize > 0
    ensures ReadRange(blocks, blockSize, offset, [])
  {
  }

  /** Appending the zero-filled contents of the next piece extends what was read. */
  lemma ReadOnePiece(blocks: Blocks, blockSize: nat, offset: nat, buf: Bytes, p: Piece)
    requires blockSize > 0 && ReadRange(blocks, blockSize, offset, buf)
    requires p.Fits(blockSize) && p.bufOffset == |buf|
    requires p.blockId * blockSize + p.blockOffset == offset + p.bufOffset
    ensures |PieceOf(blocks, p)| == p.size && ReadRange(blocks, blockSize, offset, buf + PieceOf(blocks, p))
  {
    var filled := PieceOf(blocks, p);
    var buf' := buf + filled;
    forall i | 0 <= i < |buf'| ensures buf'[i] == FlatByte(blocks, blockSize, offset + i) {
      if i >= |buf| {
        BlockUnique(offset + i, blockSize, p.blockId, p.blockOffset + i - |buf|);
      }
    }
  }

  /** Reading back a range that was written without a failed task gives the written buffer. */
  lemma ReadYourWrite(before: Blocks, after: Blocks, blockSize: nat, offset: nat, written: Bytes, read: Bytes)
    requires blockSize > 0 && |read| == |written|
    requires WroteRange(before, after, blockSize, offset, written, {})
    requires ReadRange(after, blockSize, offset, read)
    ensures read == written
  {
    forall i | 0 <= i < |read| ensures read[i] == written[i] {
      assert read[i] == FlatByte(after, blockSize, offset + i);
    }
  }

  // ------------------------------------------------------------------------
  // Truncation
  // ------------------------------------------------------------------------

  /** Block `id` is past the new end of the file and within the old one. */
  predicate Doomed(blockSize: nat, size: nat, currentSize: nat, id: int)
    requires blockSize > 0
  {
    && id <= GetBlockId(currentSize, blockSize)
    && (id > GetBlockId(size, blockSize)
        || (id == GetBlockId(size, blockSize) && GetBlockOffset(size, blockSize) == 0))
  }

  function FirstDoomed(blockSize: nat, size: nat): nat
    requires blockSize > 0
  {
    GetBlockId(size, blockSize) + if GetBlockOffset(size, blockSize) == 0 then 0 else 1
  }

  /** The list names the blocks from first to last in order, and no others. */
  ghost predicate ListsBlocks(keys: seq<string>, name: Naming, first: int, last: int) {
    && |keys| == (if last < first then 0 else last - first + 1)
    && forall k :: 0 <= k < |keys| ==> keys[k] == name(first + k)
  }

  /** The last block of a non-empty file, which is cut or filled up to its new length. */
  function CutBlock(blockSize: nat, size: nat): int
    requires blockSize > 0
  {
    if GetBlockOffset(size, blockSize) == 0 then GetBlockId(size, blockSize) - 1 else GetBlockId(size, blockSize)
  }

  function CutSize(blockSize: nat, size: nat): nat
    requires blockSize > 0
  {
    if GetBlockOffset(size, blockSize) == 0 then blockSize else GetBlockOffset(size, blockSize)
  }

  /** What truncation leaves of a block. On random-access stores a put does not shorten the object. */
  ghost function TruncatedBlock(
    randomAccess: bool, blockSize: nat, size: nat, currentSize: nat, id: int, block: Bytes): Bytes
    requires blockSize > 0
  {
    if size == currentSize then block
    else if Doomed(blockSize, size, currentSize, id) then []
    else if size > 0 && id == CutBlock(blockSize, size) then CutTo(randomAccess, block, CutSize(blockSize, size))
    else block
  }

  function CutTo(randomAccess: bool, block: Bytes, n: nat): Bytes {
    var cut := FillToSize(ReadAt(block, 0, n), n);
    if randomAccess then WriteAt(block, 0, cut) else cut
  }

  /** Cutting one block and deleting the doomed ones truncates every block. */
  lemma TruncationSteps(
    before: Blocks, mid: Blocks, after: Blocks, randomAccess: bool, blockSize: nat, size: nat, currentSize: nat)
    requires blockSize > 0 && size != currentSize
    requires forall id :: mid(id) == if size > 0 && id == CutBlock(blockSize, size)
                                     then CutTo(randomAccess, before(id), CutSize(blockSize, size))
                                     else before(id)
    requires forall id :: after(id) == if Doomed(blockSize, size, currentSize, id) then [] else mid(id)
    ensures forall id :: after(id) == TruncatedBlock(randomAccess, blockSize, size, currentSize, id, before(id))
  {
  }

  /** Each block is as it was or truncated. */
  ghost predicate PartlyTruncated(
    before: Blocks, after: Blocks, randomAccess: bool, blockSize: nat, size: nat, currentSize: nat)
    requires blockSize > 0
  {
    forall id :: || after(id) == before(id)
                 || after(id) == TruncatedBlock(randomAccess, blockSize, size, currentSize, id, before(id))
  }

  lemma NotYetTruncated(blocks: Blocks, randomAccess: bool, blockSize: nat, size: nat, currentSize: nat)
    requires blockSize > 0
    ensures PartlyTruncated(blocks, blocks, randomAccess, blockSize, size, currentSize)
  {
  }

  /** An interrupted deletion leaves each block as it was or truncated. */
  lemma InterruptedSteps(
    before: Blocks, mid: Blocks, after: Blocks, randomAccess: bool, blockSize: nat, size: nat, currentSize: nat)
    requires blockSize > 0 && size != currentSize
    requires forall id :: mid(id) == if size > 0 && id == CutBlock(blockSize, size)
                                     then CutTo(randomAccess, before(id), CutSize(blockSize, size))
                                     else before(id)
    requires forall id :: after(id) == mid(id) || (after(id) == [] && Doomed(blockSize, size, currentSize, id))
    ensures PartlyTruncated(before, after, randomAccess, blockSize, size, currentSize)
  {
    hide CutTo;
    forall id
      ensures || after(id) == before(id)
              || after(id) == TruncatedBlock(randomAccess, blockSize, size, currentSize, id, before(id))
    {
      assert after(id) == mid(id) || (after(id) == [] && Doomed(blockSize, size, currentSize, id));
    }
  }

  /** The position is past the new end but truncation does not clear it. */
  ghost predicate Spared(randomAccess: bool, blockSize: nat, size: nat, currentSize: nat, pos: nat)
    requires blockSize > 0
  {
    var id, last := GetBlockId(pos, blockSize), GetBlockId(size, blockSize);
    && pos >= size
    && (|| size == currentSize
        || (if id == last && GetBlockOffset(size, blockSize) > 0 then randomAccess
            else id > GetBlockId(currentSize, blockSize)))
  }

  lemma TruncatedByte(
    before: Blocks, after: Blocks, randomAccess: bool, blockSize: nat, size: nat, currentSize: nat, pos: nat)
    requires blockSize > 0
    requires var id := GetBlockId(pos, blockSize);
             after(id) == TruncatedBlock(randomAccess, blockSize, size, currentSize, id, before(id))
    ensures FlatByte(after, blockSize, pos) ==
            if pos < size || Spared(randomAccess, blockSize, size, currentSize, pos)
            then FlatByte(before, blockSize, pos) else 0
  {
    var id, last := GetBlockId(pos, blockSize), GetBlockId(size, blockSize);
    if id < last {
      ProductsInOrder(id, last, blockSize);
    } else if last < id {
      ProductsInOrder(last, id, blockSize);
    }
    CutByte(randomAccess, before(id), CutSize(blockSize, size), GetBlockOffset(pos, blockSize));
    hide CutTo;
  }

  lemma CutByte(randomAccess: bool, block: Bytes, n: nat, o: nat)
    ensures ByteAt(CutTo(randomAccess, block, n), o) == if o < n || randomAccess then ByteAt(block, o) else 0
  {
  }

  ghost predicate ZeroFrom(blocks: Blocks, blockSize: nat, size: nat)
    requires blockSize > 0
  {
    forall pos: nat :: pos >= size ==> FlatByte(blocks, blockSize, pos) == 0
  }

  /** The rest of the block that holds the new end of the file is zero. */
  ghost predicate ZeroTail(blocks: Blocks, blockSize: nat, size: nat)
    requires blockSize > 0
  {
    GetBlockOffset(size, blockSize) > 0 ==>
      forall pos: nat :: pos >= size && GetBlockId(pos, blockSize) == GetBlockId(size, blockSize) ==>
        FlatByte(blocks, blockSize, pos) == 0
  }

  ghost predicate IsTruncation(before: Blocks, after: Blocks, blockSize: nat, size: nat)
    requires blockSize > 0
  {
    forall pos: nat :: FlatByte(after, blockSize, pos) == if pos < size then FlatByte(before, blockSize, pos) else 0
  }

  /**
   * When nothing lies beyond the current size, truncation keeps the bytes below
   * the new size and clears the others: always on stores that replace objects,
   * and on random-access stores exactly when the cut block's tail was zero.
   */
  lemma TruncationExact(
    before: Blocks, after: Blocks, randomAccess: bool, blockSize: nat, size: nat, currentSize: nat)
    requires blockSize > 0
    requires forall id :: after(id) == TruncatedBlock(randomAccess, blockSize, size, currentSize, id, before(id))
    requires ZeroFrom(before, blockSize, currentSize)
    ensures IsTruncation(before, after, blockSize, size) <==> (randomAccess ==> ZeroTail(before, blockSize, size))
  {
    hide TruncatedBlock;
    forall pos: nat
      ensures FlatByte(after, blockSize, pos) ==
              if pos < size || Spared(randomAccess, blockSize, size, currentSize, pos)
              then FlatByte(before, blockSize, pos) else 0
    {
      TruncatedByte(before, after, randomAccess, blockSize, size, currentSize, pos);
    }
    forall pos: nat | GetBlockId(pos, blockSize) > GetBlockId(currentSize, blockSize)
      ensures FlatByte(before, blockSize, pos) == 0
    {
      ProductsInOrder(GetBlockId(currentSize, blockSize), GetBlockId(pos, blockSize), blockSize);
    }
  }

  /** A store whose puts do not shorten objects keeps the cut-off bytes of the last block. */
  lemma TruncationKeepsTail()
    ensures var before: Blocks := id => if id == 0 then [7, 7] else [];
            var after: Blocks := id => TruncatedBlock(true, 4, 1, 2, id, before(id));
            ZeroFrom(before, 4, 2) && !IsTruncation(before, after, 4, 1)
  {
    var before: Blocks := id => if id == 0 then [7, 7] else [];
    var after: Blocks := id => TruncatedBlock(true, 4, 1, 2, id, before(id));
    forall pos: nat | pos >= 2 ensures FlatByte(before, 4, pos) == 0 {
      assert GetBlockId(pos, 4) == 0 ==> GetBlockOffset(pos, 4) == pos;
    }
    BlockUnique(1, 4, 0, 1);
    TruncatedByte(before, after, true, 4, 1, 2, 1);
    assert FlatByte(after, 4, 1) == 7;
  }

  // ------------------------------------------------------------------------
  // Deletion
  // ------------------------------------------------------------------------

  /** Every object of the file holds data, none of it beyond the size. */
  ghost predicate EndsBy(objects: Objects, name: Naming, blockSize: nat, size: nat) {
    forall id :: IsId(id) && name(id) in objects ==>
      objects[name(id)] != [] && id * blockSize + |objects[name(id)]| <= size
  }

  /** Deleting the objects numbered up to size / blockSize deletes the file, when no data lies beyond the size. */
  lemma UnlinkLeavesNothing(before: Objects, after: Objects, name: Naming, blockSize: nat, size: nat)
    requires blockSize > 0 && EndsBy(before, name, blockSize, size)
    requires forall id :: IsId(id) ==>
               (name(id) in after <==> name(id) in before && (size == 0 || id > GetBlockId(size, blockSize)))
    ensures forall id :: IsId(id) ==> name(id) !in after
  {
    forall id | IsId(id) && name(id) in before ensures name(id) !in after {
      if id > GetBlockId(size, blockSize) {
        ProductsInOrder(GetBlockId(size, blockSize), id, blockSize);
      }
    }
  }
}
