/** Block parts (types/part_set.go): cutting data into parts with Merkle proofs,
    collecting parts in any order, and reading the data back. */
module PartSets {
  import opened Common
  import Arithmetic
  import Merkle
  import MP = MerkleProof

  datatype PartSetHeader = PartSetHeader(total: nat, hash: Bytes)

  datatype Part = Part(index: nat, bytes: Bytes, proof: MP.Proof)

  // ----- cutting

  const UINT32: nat := 0x1_0000_0000

  /** What a uint32 holds. */
  function U32(x: nat): (r: nat)
    ensures r < UINT32
    ensures x < UINT32 ==> r == x
  {
    x % UINT32
  }

  /** How many parts: ceil(length / partSize), computed in uint32. */
  function PartCount(length: nat, partSize: nat): nat
    requires 0 < partSize < UINT32
  {
    U32(U32(length) + partSize - 1) / partSize
  }

  function Ceil(length: nat, partSize: nat): nat
    requires partSize > 0
  {
    (length + partSize - 1) / partSize
  }

  lemma WrappedSum(length: nat, partSize: nat)
    requires 0 < partSize < UINT32 && length + partSize - 1 >= UINT32
    ensures U32(U32(length) + partSize - 1) + partSize <= length + partSize - 1
  {
    if length < UINT32 {
      assert U32(length + partSize - 1) == length + partSize - 1 - UINT32;
    }
  }

  /** The uint32 count covers the data exactly when the sum does not overflow. */
  lemma PartCountExact(length: nat, partSize: nat)
    requires 0 < partSize < UINT32
    ensures PartCount(length, partSize) == Ceil(length, partSize) <==> length + partSize - 1 < UINT32
  {
    var (sum, wrapped) := (length + partSize - 1, U32(U32(length) + partSize - 1));
    if sum >= UINT32 {
      WrappedSum(length, partSize);
      Arithmetic.QuotientLess(wrapped, sum, partSize);
    }
  }

  /** Two bytes and the largest part size: the count is 0 and the data is lost. */
  lemma PartCountOverflows()
    ensures PartCount(2, UINT32 - 1) == 0 && Ceil(2, UINT32 - 1) == 1
  {
  }

  lemma PartBounds(length: nat, partSize: nat, i: nat)
    requires 0 < partSize < UINT32 && i < PartCount(length, partSize)
    ensures i * partSize < length && (i + 1) * partSize < UINT32
    ensures (i + 1) * partSize == i * partSize + partSize
    ensures U32(i * partSize) == i * partSize && U32((i + 1) * partSize) == i * partSize + partSize
  {
    var m := U32(U32(length) + partSize - 1);
    Arithmetic.DivBounds(m, partSize);
    Arithmetic.MulMono(i + 1, m / partSize, partSize);
    assert (i + 1) * partSize == i * partSize + partSize;
  }

  function Min(a: nat, b: nat): nat {
    if a < b then a else b
  }

  /** The bytes of part `i`; the uint32 products do not wrap. */
  function Chunk(data: Bytes, partSize: nat, i: nat): Bytes
    requires 0 < partSize < UINT32 && i < PartCount(|data|, partSize)
  {
    PartBounds(|data|, partSize, i);
    data[U32(i * partSize)..Min(|data|, U32((i + 1) * partSize))]
  }

  function Chunks(data: Bytes, partSize: nat): (r: seq<Bytes>)
    requires 0 < partSize < UINT32
    ensures |r| == PartCount(|data|, partSize)
  {
    seq(PartCount(|data|, partSize), i requires 0 <= i < PartCount(|data|, partSize) => Chunk(data, partSize, i))
  }

  function Concat(parts: seq<Bytes>): Bytes {
    if parts == [] then [] else Concat(parts[..|parts| - 1]) + parts[|parts| - 1]
  }

  lemma ChunkIs(data: Bytes, partSize: nat, i: nat)
    requires 0 < partSize < UINT32 && i < PartCount(|data|, partSize)
    ensures i * partSize < |data| && (i + 1) * partSize == i * partSize + partSize
    ensures Chunk(data, partSize, i) == data[i * partSize..Min(|data|, i * partSize + partSize)]
  {
    PartBounds(|data|, partSize, i);
  }

  lemma ConcatNext(parts: seq<Bytes>, k: nat)
    requires k < |parts|
    ensures Concat(parts[..k + 1]) == Concat(parts[..k]) + parts[k]
  {
    assert parts[..k + 1][..k] == parts[..k];
  }

  lemma NextChunk(chunks: seq<Bytes>, k: nat, data: Bytes, lo: nat, hi: nat)
    requires k < |chunks| && lo <= hi <= |data|
    requires Concat(chunks[..k]) == data[..lo] && chunks[k] == data[lo..hi]
    ensures Concat(chunks[..k + 1]) == data[..hi]
  {
    ConcatNext(chunks, k);
    assert data[..lo] + data[lo..hi] == data[..hi];
  }

  lemma {:induction false} ConcatPrefix(data: Bytes, partSize: nat, k: nat)
    requires 0 < partSize < UINT32 && k <= PartCount(|data|, partSize)
    ensures Concat(Chunks(data, partSize)[..k]) == data[..Min(|data|, k * partSize)]
  {
    if k > 0 {
      var lo := (k - 1) * partSize;
      ConcatPrefix(data, partSize, k - 1);
      ChunkIs(data, partSize, k - 1);
      NextChunk(Chunks(data, partSize), k - 1, data, lo, Min(|data|, lo + partSize));
      Arithmetic.TimesNext(k - 1, k, partSize);
    }
  }

  lemma CountCovers(length: nat, partSize: nat)
    requires 0 < partSize < UINT32 && length + partSize - 1 < UINT32
    ensures PartCount(length, partSize) * partSize >= length
  {
    Arithmetic.DivBounds(length + partSize - 1, partSize);
  }

  /** The parts put together are the data, when the count does not overflow. */
  lemma ChunksCover(data: Bytes, partSize: nat)
    requires 0 < partSize < UINT32 && |data| + partSize - 1 < UINT32
    ensures Concat(Chunks(data, partSize)) == data
  {
    var n := PartCount(|data|, partSize);
    ConcatPrefix(data, partSize, n);
    assert Chunks(data, partSize)[..n] == Chunks(data, partSize);
    CountCovers(|data|, partSize);
  }

  /** The parts NewPartSetFromData makes. */
  function PartOf(sum: Bytes -> Bytes, data: Bytes, partSize: nat, i: nat): Part
    requires 0 < partSize < UINT32 && i < PartCount(|data|, partSize)
  {
    Part(i, Chunk(data, partSize, i), MP.ProofFor(sum, Chunks(data, partSize), i))
  }

  function HeaderOf(sum: Bytes -> Bytes, data: Bytes, partSize: nat): PartSetHeader
    requires 0 < partSize < UINT32
  {
    PartSetHeader(PartCount(|data|, partSize), Merkle.Root(sum, Chunks(data, partSize)))
  }

  // ----- the set of parts, as a value

  datatype State = State(total: nat, hash: Bytes, parts: seq<Option<Part>>, bits: seq<bool>, count: nat, byteSize: nat)

  datatype AddError = UnexpectedIndex | InvalidProof

  datatype AddResult = AddResult(added: bool, err: Option<AddError>)

  function EmptyState(header: PartSetHeader): State {
    State(header.total, header.hash, seq(header.total, _ => None), seq(header.total, _ => false), 0, 0)
  }

  function AddTo(sum: Bytes -> Bytes, s: State, part: Part): (State, AddResult)
    requires |s.parts| == |s.bits| == s.total
  {
    if part.index >= s.total then (s, AddResult(false, Some(UnexpectedIndex)))
    else if s.parts[part.index].Some? then (s, AddResult(false, None))
    else if !MP.Verifies(sum, part.proof, s.hash, part.bytes) then (s, AddResult(false, Some(InvalidProof)))
    else (s.(parts := s.parts[part.index := Some(part)],
             bits := s.bits[part.index := true],
             count := s.count + 1,
             byteSize := s.byteSize + |part.bytes|),
          AddResult(true, None))
  }

  function Stored(parts: seq<Option<Part>>): nat {
    if parts == [] then 0
    else Stored(parts[..|parts| - 1]) + (if parts[|parts| - 1].Some? then 1 else 0)
  }

  function StoredBytes(parts: seq<Option<Part>>): nat {
    if parts == [] then 0
    else StoredBytes(parts[..|parts| - 1])
         + (if parts[|parts| - 1].Some? then |parts[|parts| - 1].value.bytes| else 0)
  }

  /** Count, bit array and byte size agree with what is stored, and what is stored
      was proved. */
  ghost predicate Consistent(sum: Bytes -> Bytes, s: State) {
    && |s.parts| == |s.bits| == s.total
    && s.count == Stored(s.parts) && s.byteSize == StoredBytes(s.parts)
    && forall i :: 0 <= i < s.total ==>
         && s.bits[i] == s.parts[i].Some?
         && (s.parts[i].Some? ==>
               s.parts[i].value.index == i && MP.Verifies(sum, s.parts[i].value.proof, s.hash, s.parts[i].value.bytes))
  }

  lemma {:induction false} StoreOne(parts: seq<Option<Part>>, i: int, p: Part)
    requires 0 <= i < |parts| && parts[i] == None
    ensures Stored(parts[i := Some(p)]) == Stored(parts) + 1
    ensures StoredBytes(parts[i := Some(p)]) == StoredBytes(parts) + |p.bytes|
  {
    var n := |parts| - 1;
    if i == n {
      assert parts[i := Some(p)][..n] == parts[..n];
    } else {
      assert parts[i := Some(p)][..n] == parts[..n][i := Some(p)];
      StoreOne(parts[..n], i, p);
    }
  }

  lemma {:induction false} StoredBound(parts: seq<Option<Part>>)
    ensures Stored(parts) <= |parts|
    ensures Stored(parts) == |parts| <==> forall i :: 0 <= i < |parts| ==> parts[i].Some?
  {
    if parts != [] {
      StoredBound(parts[..|parts| - 1]);
      assert forall i :: 0 <= i < |parts| - 1 ==> parts[i] == parts[..|parts| - 1][i];
    }
  }

  lemma {:induction false} NothingStored(n: nat)
    ensures Stored(seq(n, _ => None)) == 0 && StoredBytes(seq(n, _ => None)) == 0
  {
    var parts: seq<Option<Part>> := seq(n, _ => None);
    if n > 0 {
      assert parts[..n - 1] == seq(n - 1, _ => None);
      NothingStored(n - 1);
    }
  }

  lemma EmptyIsConsistent(sum: Bytes -> Bytes, header: PartSetHeader)
    ensures Consistent(sum, EmptyState(header))
  {
    NothingStored(header.total);
  }

  /** Adding any part, genuine or not, keeps the set consistent. */
  lemma AddKeepsConsistent(sum: Bytes -> Bytes, s: State, part: Part)
    requires Consistent(sum, s)
    ensures Consistent(sum, AddTo(sum, s, part).0)
  {
    if AddTo(sum, s, part).1.added {
      StoreOne(s.parts, part.index, part);
    }
  }

  // ----- adding the genuine parts, in any order

  function AddAll(sum: Bytes -> Bytes, s: State, parts: seq<Part>): (r: State)
    requires |s.parts| == |s.bits| == s.total
    ensures |r.parts| == |r.bits| == r.total == s.total && r.hash == s.hash
    decreases |parts|
  {
    if parts == [] then s
    else AddTo(sum, AddAll(sum, s, parts[..|parts| - 1]), parts[|parts| - 1]).0
  }

  /** The genuine parts with these indices. */
  ghost predicate Genuine(sum: Bytes -> Bytes, data: Bytes, partSize: nat, parts: seq<Part>)
    requires 0 < partSize < UINT32
  {
    forall k :: 0 <= k < |parts| ==>
      parts[k].index < PartCount(|data|, partSize) && parts[k] == PartOf(sum, data, partSize, parts[k].index)
  }

  ghost predicate Delivered(parts: seq<Part>, i: nat) {
    exists k :: 0 <= k < |parts| && parts[k].index == i
  }

  /** Exactly the delivered parts are stored, and they are the genuine ones. */
  ghost predicate Holds(sum: Bytes -> Bytes, data: Bytes, partSize: nat, s: State, parts: seq<Part>)
    requires 0 < partSize < UINT32
  {
    && |s.parts| == s.total == PartCount(|data|, partSize)
    && s.hash == Merkle.Root(sum, Chunks(data, partSize))
    && forall i :: 0 <= i < s.total ==>
         && (s.parts[i].Some? <==> Delivered(parts, i))
         && (s.parts[i].Some? ==> s.parts[i].value == PartOf(sum, data, partSize, i))
  }

  lemma DeliveredSnoc(parts: seq<Part>, i: nat)
    requires parts != []
    ensures Delivered(parts, i) <==> Delivered(parts[..|parts| - 1], i) || parts[|parts| - 1].index == i
  {
    var n := |parts| - 1;
    if Delivered(parts[..n], i) {
      var k :| 0 <= k < n && parts[..n][k].index == i;
      assert parts[k].index == i;
    }
    if Delivered(parts, i) && parts[n].index != i {
      var k :| 0 <= k < |parts| && parts[k].index == i;
      assert parts[..n][k].index == i;
    }
  }

  lemma AddOneGenuine(sum: Bytes -> Bytes, data: Bytes, partSize: nat, s: State, parts: seq<Part>)
    requires 0 < partSize < UINT32 && parts != [] && Genuine(sum, data, partSize, parts)
    requires Consistent(sum, s) && Holds(sum, data, partSize, s, parts[..|parts| - 1])
    ensures var t := AddTo(sum, s, parts[|parts| - 1]).0;
            Consistent(sum, t) && Holds(sum, data, partSize, t, parts)
  {
    var p := parts[|parts| - 1];
    AddKeepsConsistent(sum, s, p);
    MP.Completeness(sum, Chunks(data, partSize), p.index);
    forall i | 0 <= i < s.total ensures Delivered(parts, i) <==> Delivered(parts[..|parts| - 1], i) || p.index == i {
      DeliveredSnoc(parts, i);
    }
  }

  /** After any sequence of genuine parts, repeats included, exactly the delivered
      ones are stored, unchanged. */
  lemma {:induction false} AddGenuine(sum: Bytes -> Bytes, data: Bytes, partSize: nat, parts: seq<Part>)
    requires 0 < partSize < UINT32 && Genuine(sum, data, partSize, parts)
    ensures var s := AddAll(sum, EmptyState(HeaderOf(sum, data, partSize)), parts);
            Consistent(sum, s) && Holds(sum, data, partSize, s, parts)
  {
    var header := HeaderOf(sum, data, partSize);
    if parts == [] {
      EmptyIsConsistent(sum, header);
    } else {
      var n := |parts| - 1;
      AddGenuine(sum, data, partSize, parts[..n]);
      AddOneGenuine(sum, data, partSize, AddAll(sum, EmptyState(header), parts[..n]), parts);
    }
  }

  /** All parts' bytes in order, if they are all there. */
  function AllBytes(parts: seq<Option<Part>>): Option<Bytes> {
    if parts == [] then Some([])
    else
      var front, last := AllBytes(parts[..|parts| - 1]), parts[|parts| - 1];
      if front == None || last == None then None else Some(front.value + last.value.bytes)
  }

  lemma {:induction false} AllBytesOf(parts: seq<Option<Part>>, chunks: seq<Bytes>)
    requires |parts| == |chunks|
    requires forall i :: 0 <= i < |parts| ==> parts[i].Some? && parts[i].value.bytes == chunks[i]
    ensures AllBytes(parts) == Some(Concat(chunks))
  {
    if parts != [] {
      AllBytesOf(parts[..|parts| - 1], chunks[..|parts| - 1]);
    }
  }

  lemma {:induction false} BytesStored(parts: seq<Option<Part>>, chunks: seq<Bytes>)
    requires |parts| == |chunks|
    requires forall i :: 0 <= i < |parts| ==> parts[i].Some? && parts[i].value.bytes == chunks[i]
    ensures StoredBytes(parts) == |Concat(chunks)|
  {
    if parts != [] {
      BytesStored(parts[..|parts| - 1], chunks[..|parts| - 1]);
    }
  }

  /** The set is complete exactly when every index was delivered, and then its
      parts put together are the data. */
  lemma CompleteIffDelivered(sum: Bytes -> Bytes, data: Bytes, partSize: nat, parts: seq<Part>)
    requires 0 < partSize < UINT32 && |data| + partSize - 1 < UINT32
    requires Genuine(sum, data, partSize, parts)
    ensures var s := AddAll(sum, EmptyState(HeaderOf(sum, data, partSize)), parts);
            && (s.count == s.total <==> forall i :: 0 <= i < s.total ==> Delivered(parts, i))
            && (s.count == s.total ==> AllBytes(s.parts) == Some(data) && s.byteSize == |data|)
  {
    var s := AddAll(sum, EmptyState(HeaderOf(sum, data, partSize)), parts);
    AddGenuine(sum, data, partSize, parts);
    StoredBound(s.parts);
    if s.count == s.total {
      var chunks := Chunks(data, partSize);
      AllBytesOf(s.parts, chunks);
      ChunksCover(data, partSize);
      BytesStored(s.parts, chunks);
    }
  }

  /** The set with every part in it. */
  function FullState(sum: Bytes -> Bytes, data: Bytes, partSize: nat): State
    requires 0 < partSize < UINT32
  {
    var header := HeaderOf(sum, data, partSize);
    State(header.total, header.hash,
          seq(header.total, i requires 0 <= i < header.total => Some(PartOf(sum, data, partSize, i))),
          seq(header.total, _ => true), header.total, |data|)
  }

  lemma FullVerifies(sum: Bytes -> Bytes, data: Bytes, partSize: nat, i: nat)
    requires 0 < partSize < UINT32 && i < FullState(sum, data, partSize).total
    ensures var s := FullState(sum, data, partSize);
            MP.Verifies(sum, s.parts[i].value.proof, s.hash, s.parts[i].value.bytes)
  {
    MP.Completeness(sum, Chunks(data, partSize), i);
  }

  lemma FullIsConsistent(sum: Bytes -> Bytes, data: Bytes, partSize: nat)
    requires 0 < partSize < UINT32 && |data| + partSize - 1 < UINT32
    ensures Consistent(sum, FullState(sum, data, partSize))
  {
    var s, chunks := FullState(sum, data, partSize), Chunks(data, partSize);
    StoredBound(s.parts);
    BytesStored(s.parts, chunks);
    ChunksCover(data, partSize);
    forall i | 0 <= i < s.total ensures MP.Verifies(sum, s.parts[i].value.proof, s.hash, s.parts[i].value.bytes) {
      FullVerifies(sum, data, partSize, i);
    }
  }

  // ----- the mutable set

  method CutData(data: Bytes, partSize: nat) returns (partsBytes: seq<Bytes>)
    requires 0 < partSize < UINT32
    ensures partsBytes == Chunks(data, partSize)
  {
    var total := PartCount(|data|, partSize);
    partsBytes := [];
    for i := 0 to total
      invariant |partsBytes| == i
      invariant forall j :: 0 <= j < i ==> partsBytes[j] == Chunk(data, partSize, j)
    {
      partsBytes := partsBytes + [Chunk(data, partSize, i)];
    }
  }

  lemma PartsAre(sum: Bytes -> Bytes, data: Bytes, partSize: nat, proofs: seq<MP.Proof>, parts: seq<Part>)
    requires 0 < partSize < UINT32 && |proofs| == |parts| == PartCount(|data|, partSize)
    requires var chunks := Chunks(data, partSize);
             forall i :: 0 <= i < |parts| ==>
               proofs[i] == MP.ProofFor(sum, chunks, i) && parts[i] == Part(i, chunks[i], proofs[i])
    ensures forall i :: 0 <= i < |parts| ==> parts[i] == PartOf(sum, data, partSize, i)
  {
  }

  /** The genuine parts of some data, and the header that announces them. */
  method PartsFromData(sum: Bytes -> Bytes, data: Bytes, partSize: nat) returns (header: PartSetHeader,
      parts: seq<Part>)
    requires 0 < partSize < UINT32
    ensures header == HeaderOf(sum, data, partSize)
    ensures |parts| == header.total
    ensures forall i :: 0 <= i < header.total ==> parts[i] == PartOf(sum, data, partSize, i)
  {
    var partsBytes := CutData(data, partSize);
    var root, proofs := MP.ProofsFromByteSlices(sum, partsBytes);
    header := PartSetHeader(|partsBytes|, root);
    parts := [];
    for i := 0 to |partsBytes|
      invariant |parts| == i
      invariant forall j :: 0 <= j < i ==> parts[j] == Part(j, partsBytes[j], proofs[j])
    {
      parts := parts + [Part(i, partsBytes[i], proofs[i])];
    }
    PartsAre(sum, data, partSize, proofs, parts);
  }

  class PartSet {
    const sum: Bytes -> Bytes
    var total: nat
    var hash: Bytes
    var parts: seq<Option<Part>>
    var partsBitArray: seq<bool>
    var count: nat
    var byteSize: nat

    ghost function Contents(): State
      reads this
    {
      State(total, hash, parts, partsBitArray, count, byteSize)
    }

    ghost predicate Valid()
      reads this
    {
      Consistent(sum, Contents())
    }

    constructor FromHeader(sum: Bytes -> Bytes, header: PartSetHeader)
      ensures this.sum == sum && Contents() == EmptyState(header) && Valid()
    {
      this.sum := sum;
      total, hash := header.total, header.hash;
      parts := seq(header.total, _ => None);
      partsBitArray := seq(header.total, _ => false);
      count, byteSize := 0, 0;
      new;
      EmptyIsConsistent(sum, header);
    }

    /** NewPartSetFromData: a full set. Its byte size is the data's, which is the
        stored size when the part count does not overflow. */
    constructor FromData(sum: Bytes -> Bytes, data: Bytes, partSize: nat)
      requires 0 < partSize < UINT32
      ensures this.sum == sum && Contents() == FullState(sum, data, partSize)
      ensures |data| + partSize - 1 < UINT32 ==> Valid()
    {
      var header, genuine := PartsFromData(sum, data, partSize);
      this.sum := sum;
      total, hash := header.total, header.hash;
      parts := seq(header.total, i requires 0 <= i < header.total => Some(genuine[i]));
      partsBitArray := seq(header.total, _ => true);
      count, byteSize := header.total, |data|;
      new;
      assert parts == FullState(sum, data, partSize).parts;
      if |data| + partSize - 1 < UINT32 {
        FullIsConsistent(sum, data, partSize);
      }
    }

    /** Adds a part whose proof verifies, once. */
    method AddPart(part: Part) returns (r: AddResult)
      requires Valid()
      modifies this
      ensures (Contents(), r) == AddTo(sum, old(Contents()), part)
      ensures Valid()
    {
      AddKeepsConsistent(sum, Contents(), part);
      if part.index >= total {
        return AddResult(false, Some(UnexpectedIndex));
      }
      if parts[part.index].Some? {
        return AddResult(false, None);
      }
      if !MP.Verifies(sum, part.proof, hash, part.bytes) {
        return AddResult(false, Some(InvalidProof));
      }
      parts := parts[part.index := Some(part)];
      partsBitArray := partsBitArray[part.index := true];
      count := count + 1;
      byteSize := byteSize + |part.bytes|;
      return AddResult(true, None);
    }

    method IsComplete() returns (r: bool)
      requires Valid()
      ensures r <==> forall i :: 0 <= i < total ==> parts[i].Some?
    {
      StoredBound(parts);
      r := count == total;
    }
  }

  // ----- reading

  function BytesOf(parts: seq<Part>): seq<Bytes> {
    seq(|parts|, i requires 0 <= i < |parts| => parts[i].bytes)
  }

  /** The bytes of the parts from the `i`-th on. */
  function From(parts: seq<Part>, i: nat): Bytes
    decreases |parts| - i
  {
    if i >= |parts| then [] else parts[i].bytes + From(parts, i + 1)
  }

  /** Reading `n` bytes of `before` gives `out` and leaves `after`; the end is
      reported when less than `n` was left. */
  ghost predicate ReadOf(before: Bytes, n: nat, out: Bytes, after: Bytes, eof: bool) {
    && out == before[..Min(n, |before|)]
    && after == before[Min(n, |before|)..]
    && (eof <==> |before| < n)
  }

  lemma ReadWithin(current: Bytes, after: Bytes, n: nat)
    requires 0 < n <= |current|
    ensures ReadOf(current + after, n, current[..n], current[n..] + after, false)
  {
  }

  lemma ReadExactly(current: Bytes, after: Bytes, out: Bytes, left: Bytes, eof: bool)
    requires ReadOf(current + after, |current|, out, left, eof)
    ensures out == current && left == after && !eof
  {
  }

  lemma ReadOn(current: Bytes, after: Bytes, n: nat, out: Bytes, left: Bytes, eof: bool)
    requires |current| < n && ReadOf(after, n - |current|, out, left, eof)
    ensures ReadOf(current + after, n, current + out, left, eof)
  {
  }

  class PartSetReader {
    const parts: seq<Part>
    var i: nat
    var reader: Bytes  // what is left of the current part

    ghost predicate Valid()
      reads this
    {
      i >= |parts| ==> reader == []
    }

    /** Everything still to be read. */
    ghost function Remaining(): Bytes
      reads this
    {
      reader + From(parts, i + 1)
    }

    constructor (parts: seq<Part>)
      requires parts != []
      ensures Valid() && this.parts == parts && Remaining() == From(parts, 0)
    {
      this.parts := parts;
      i := 0;
      reader := parts[0].bytes;
    }

    /** bytes.Reader.Read: EOF only when nothing was left. */
    method ReadCurrent(n: nat) returns (out: Bytes, eof: bool)
      requires Valid() && n <= |reader|
      modifies this
      ensures Valid() && i == old(i)
      ensures eof == (old(reader) == [])
      ensures out == old(reader)[..n] && reader == old(reader)[n..]
    {
      if reader == [] {
        return [], true;
      }
      out, eof := reader[..n], false;
      reader := reader[n..];
    }

    /** Reads across parts: as many bytes as asked for, or all that is left and
        end of file. */
    method Read(n: nat) returns (out: Bytes, eof: bool)
      requires Valid() && n > 0
      modifies this
      ensures Valid() && i >= old(i)
      ensures ReadOf(old(Remaining()), n, out, Remaining(), eof)
      ensures n <= |old(reader)| ==> i == old(i) && reader == old(reader)[n..]
      decreases |parts| - i, n
    {
      ghost var after := From(parts, i + 1);
      var readerLen := |reader|;
      if readerLen >= n {
        ReadWithin(reader, after, n);
        out, eof := ReadCurrent(n);
      } else if readerLen > 0 {
        ghost var current := reader;
        var out1, eof1 := Read(readerLen);
        ReadExactly(current, after, out1, Remaining(), eof1);
        if eof1 {
          return out1, eof1;
        }
        var out2, eof2 := Read(n - readerLen);
        ReadOn(current, after, n, out2, Remaining(), eof2);
        out, eof := out1 + out2, eof2;
      } else {
        assert reader + after == after;
        i := i + 1;
        if i >= |parts| {
          return [], true;
        }
        reader := parts[i].bytes;
        out, eof := Read(n);
      }
    }
  }

  function Total(sizes: seq<nat>): nat {
    if sizes == [] then 0 else Total(sizes[..|sizes| - 1]) + sizes[|sizes| - 1]
  }

  /** Consecutive reads are one longer read. */
  lemma LongerRead(data: Bytes, t: nat, n: nat, done: Bytes, left: Bytes, out: Bytes, after: Bytes, eof: bool)
    requires ReadOf(data, t, done, left, t > |data|) && ReadOf(left, n, out, after, eof) && n > 0
    ensures ReadOf(data, t + n, done + out, after, t + n > |data|)
    ensures eof <==> t + n > |data|
  {
    if t <= |data| {
      assert data == data[..t] + left;
    }
  }

  /** What the first reads returned, and what is left. */
  ghost predicate ReadSoFar(data: Bytes, sizes: seq<nat>, outs: seq<Bytes>, eofs: seq<bool>, left: Bytes) {
    && |outs| == |eofs| <= |sizes|
    && ReadOf(data, Total(sizes[..|outs|]), Concat(outs), left, Total(sizes[..|outs|]) > |data|)
    && forall j :: 0 <= j < |outs| ==> (eofs[j] <==> Total(sizes[..j + 1]) > |data|)
  }

  lemma NextRead(data: Bytes, sizes: seq<nat>, outs: seq<Bytes>, eofs: seq<bool>, left: Bytes, out: Bytes,
      after: Bytes, eof: bool)
    requires ReadSoFar(data, sizes, outs, eofs, left) && |outs| < |sizes| && sizes[|outs|] > 0
    requires ReadOf(left, sizes[|outs|], out, after, eof)
    ensures ReadSoFar(data, sizes, outs + [out], eofs + [eof], after)
  {
    var k := |outs|;
    assert sizes[..k + 1][..k] == sizes[..k];
    assert (outs + [out])[..k] == outs;
    LongerRead(data, Total(sizes[..k]), sizes[k], Concat(outs), left, out, after, eof);
  }

  /** Any sequence of positive-size reads returns the data, in order and without
      loss; a read reports the end when it asks for more than is left. */
  method ReadAll(parts: seq<Part>, sizes: seq<nat>) returns (outs: seq<Bytes>, eofs: seq<bool>)
    requires parts != [] && forall k :: 0 <= k < |sizes| ==> sizes[k] > 0
    ensures |outs| == |eofs| == |sizes|
    ensures Concat(outs) == From(parts, 0)[..Min(Total(sizes), |From(parts, 0)|)]
    ensures forall k :: 0 <= k < |sizes| ==> (eofs[k] <==> Total(sizes[..k + 1]) > |From(parts, 0)|)
  {
    var r := new PartSetReader(parts);
    ghost var data := From(parts, 0);
    outs, eofs := [], [];
    for k := 0 to |sizes|
      invariant r.Valid() && fresh(r)
      invariant |outs| == k && ReadSoFar(data, sizes, outs, eofs, r.Remaining())
    {
      ghost var left := r.Remaining();
      var out, eof := r.Read(sizes[k]);
      NextRead(data, sizes, outs, eofs, left, out, r.Remaining(), eof);
      outs, eofs := outs + [out], eofs + [eof];
    }
    assert sizes[..|sizes|] == sizes;
  }

  lemma {:induction false} FromIsConcat(parts: seq<Part>, i: nat)
    requires i <= |parts|
    ensures Concat(BytesOf(parts)[..i]) + From(parts, i) == Concat(BytesOf(parts))
    decreases |parts| - i
  {
    var bytes := BytesOf(parts);
    if i == |parts| {
      assert bytes[..i] == bytes;
    } else {
      FromIsConcat(parts, i + 1);
      ConcatNext(bytes, i);
      var done := Concat(bytes[..i]);
      assert done + (bytes[i] + From(parts, i + 1)) == done + bytes[i] + From(parts, i + 1);
    }
  }

  /** The stored parts of a complete set. */
  ghost predicate Unwrapped(stored: seq<Option<Part>>, parts: seq<Part>) {
    |stored| == |parts| && forall i :: 0 <= i < |parts| ==> stored[i] == Some(parts[i])
  }

  /** The whole way: the genuine parts delivered in any order, with repeats, to a
      set that knows only the header, are read back as the data. */
  lemma RoundTrip(sum: Bytes -> Bytes, data: Bytes, partSize: nat, delivered: seq<Part>, parts: seq<Part>)
    requires 0 < partSize < UINT32 && |data| + partSize - 1 < UINT32
    requires Genuine(sum, data, partSize, delivered)
    requires forall i :: 0 <= i < PartCount(|data|, partSize) ==> Delivered(delivered, i)
    requires Unwrapped(AddAll(sum, EmptyState(HeaderOf(sum, data, partSize)), delivered).parts, parts)
    ensures From(parts, 0) == data
  {
    var chunks := Chunks(data, partSize);
    assert BytesOf(parts) == chunks by {
      var s := AddAll(sum, EmptyState(HeaderOf(sum, data, partSize)), delivered);
      AddGenuine(sum, data, partSize, delivered);
      forall i | 0 <= i < |parts| ensures parts[i].bytes == chunks[i] {
        assert s.parts[i].value == PartOf(sum, data, partSize, i);
      }
    }
    ChunksCover(data, partSize);
    FromIsConcat(parts, 0);
  }
}
