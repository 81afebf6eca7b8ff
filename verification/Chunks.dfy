/**
 Files sent in chunks (src/main.ts, 4053-4259, 4291-4346): the receiver's checks, and reassembly into
 one preallocated buffer from chunks that come in any order, some of them more than once.
 */
module Chunks {
  import opened ByteStrings

  const MIN_CHUNK_SIZE: nat := 64 * 1024
  const MAX_CHUNK_SIZE: nat := 4 * 1024 * 1024
  const MAX_REASSEMBLY_SIZE: nat := 512 * 1024 * 1024

  /** `Math.ceil(size / chunkSize)`. */
  function Ceil(size: nat, chunkSize: nat): nat
    requires chunkSize > 0
  {
    if size % chunkSize == 0 then size / chunkSize else size / chunkSize + 1
  }

  // --- Starting ---

  datatype Start = Start(totalChunks: int, totalBytes: int, chunkSize: int)

  function HonestStart(size: nat, chunkSize: nat): Start
    requires chunkSize > 0
  {
    Start(Ceil(size, chunkSize), size, chunkSize)
  }

  function AtLeastOne(n: nat): nat { if n == 0 then 1 else n }

  /** The receiver's checks of a transfer's numbers. */
  predicate Acceptable(s: Start) {
    && 0 < s.totalChunks <= MAX_REASSEMBLY_SIZE / MIN_CHUNK_SIZE
    && 0 <= s.totalBytes <= MAX_REASSEMBLY_SIZE
    && 0 < s.chunkSize <= MAX_CHUNK_SIZE
    && s.totalChunks == AtLeastOne(Ceil(s.totalBytes, s.chunkSize))
  }

  lemma CeilBounds(size: nat, chunkSize: nat)
    requires chunkSize > 0
    ensures size <= Ceil(size, chunkSize) * chunkSize < size + chunkSize
    ensures Ceil(size, chunkSize) == 0 <==> size == 0
  {
    var q := size / chunkSize;
    assert size == q * chunkSize + size % chunkSize;
    assert (q + 1) * chunkSize == q * chunkSize + chunkSize;
    if size > 0 && q == 0 { assert size % chunkSize == size; }
    if q > 0 { assert q * chunkSize >= chunkSize; }
  }

  lemma MulMonotone(a: nat, b: nat, x: nat, y: nat)
    requires a <= b && x <= y
    ensures a * x <= b * y
  {
    assert a * x <= a * y;
    assert a * y <= b * y;
  }

  /** `n` chunks are enough exactly if the bytes fit into them. */
  lemma CeilAtMost(size: nat, chunkSize: nat, n: nat)
    requires chunkSize > 0
    ensures Ceil(size, chunkSize) <= n <==> size <= n * chunkSize
  {
    CeilBounds(size, chunkSize);
    var c := Ceil(size, chunkSize);
    if c <= n { MulMonotone(c, n, chunkSize, chunkSize); }
    if n < c {
      assert c * chunkSize == (c - 1) * chunkSize + chunkSize;
      MulMonotone(n, c - 1, chunkSize, chunkSize);
    }
  }

  /** An honest transfer passes the checks exactly if the file has content, and neither it nor a chunk is too large,
      nor are there more than 8192 chunks. */
  lemma HonestStartAccepted(size: nat, chunkSize: nat)
    requires chunkSize > 0
    ensures Acceptable(HonestStart(size, chunkSize))
      <==> 0 < size <= 512 * 1024 * 1024 && chunkSize <= 4 * 1024 * 1024 && size <= 8192 * chunkSize
    ensures chunkSize >= 64 * 1024 && size <= 512 * 1024 * 1024 ==> size <= 8192 * chunkSize
  {
    CeilBounds(size, chunkSize);
    CeilAtMost(size, chunkSize, 8192);
    if chunkSize >= 64 * 1024 { MulMonotone(8192, 8192, 64 * 1024, chunkSize); }
  }

  /** A transfer of no bytes is accepted as one chunk. */
  lemma EmptyStartAccepted(totalChunks: int, chunkSize: int)
    ensures Acceptable(Start(totalChunks, 0, chunkSize))
      <==> totalChunks == 1 && 0 < chunkSize <= 4 * 1024 * 1024
  {}

  // --- Chunks ---

  function From(i: nat, chunkSize: nat): nat { i * chunkSize }

  function To(i: nat, chunkSize: nat, size: nat): nat {
    if (i + 1) * chunkSize <= size then (i + 1) * chunkSize else size
  }

  lemma ChunkBounds(i: nat, chunkSize: nat, size: nat)
    requires chunkSize > 0 && i < Ceil(size, chunkSize)
    ensures From(i, chunkSize) < To(i, chunkSize, size) <= size
      && To(i, chunkSize, size) - From(i, chunkSize) <= chunkSize
  {
    CeilBounds(size, chunkSize);
    var c := Ceil(size, chunkSize);
    MulMonotone(i + 1, c, chunkSize, chunkSize);
    assert (i + 1) * chunkSize == i * chunkSize + chunkSize;
  }

  lemma ChunksApart(i: nat, j: nat, chunkSize: nat, size: nat)
    requires chunkSize > 0 && i < j < Ceil(size, chunkSize)
    ensures To(i, chunkSize, size) <= From(j, chunkSize)
  {
    ChunkBounds(i, chunkSize, size);
    MulMonotone(i + 1, j, chunkSize, chunkSize);
  }

  /** Every byte lies in one of the chunks. */
  lemma ByteInChunk(k: nat, chunkSize: nat, size: nat)
    requires chunkSize > 0 && k < size
    ensures k / chunkSize < Ceil(size, chunkSize)
      && From(k / chunkSize, chunkSize) <= k < To(k / chunkSize, chunkSize, size)
  {
    CeilBounds(size, chunkSize);
    var i := k / chunkSize;
    assert k == i * chunkSize + k % chunkSize;
    assert (i + 1) * chunkSize == i * chunkSize + chunkSize;
    if i >= Ceil(size, chunkSize) { MulMonotone(Ceil(size, chunkSize), i, chunkSize, chunkSize); }
  }

  function ChunkOf(content: Bytes, chunkSize: nat, i: nat): Bytes
    requires chunkSize > 0 && i < Ceil(|content|, chunkSize)
  {
    ChunkBounds(i, chunkSize, |content|);
    content[From(i, chunkSize)..To(i, chunkSize, |content|)]
  }

  /** The sender's loop. */
  method SendFileInChunks(content: Bytes, chunkSize: nat) returns (start: Start, chunks: seq<Bytes>)
    requires chunkSize > 0
    ensures start == HonestStart(|content|, chunkSize) && |chunks| == Ceil(|content|, chunkSize)
    ensures forall i | 0 <= i < |chunks| :: chunks[i] == ChunkOf(content, chunkSize, i)
  {
    var totalChunks := Ceil(|content|, chunkSize);
    start := Start(totalChunks, |content|, chunkSize);
    chunks := [];
    for i := 0 to totalChunks
      invariant |chunks| == i && forall j | 0 <= j < i :: chunks[j] == ChunkOf(content, chunkSize, j)
    {
      ChunkBounds(i, chunkSize, |content|);
      var from := i * chunkSize;
      var end := if from + chunkSize <= |content| then from + chunkSize else |content|;
      assert (i + 1) * chunkSize == from + chunkSize;
      chunks := chunks + [content[from..end]];
    }
  }

  // --- Reassembly ---

  function CountTrue(s: seq<bool>): nat {
    if s == [] then 0 else CountTrue(s[..|s| - 1]) + (if s[|s| - 1] then 1 else 0)
  }

  lemma {:induction false} CountAll(s: seq<bool>)
    ensures CountTrue(s) <= |s|
    ensures CountTrue(s) == |s| <==> forall i | 0 <= i < |s| :: s[i]
  {
    if s != [] {
      CountAll(s[..|s| - 1]);
    }
  }

  lemma {:induction false} CountOneMore(s: seq<bool>, i: nat)
    requires i < |s| && !s[i]
    ensures CountTrue(s[i := true]) == CountTrue(s) + 1
  {
    if i == |s| - 1 {
      assert s[i := true][..|s| - 1] == s[..|s| - 1];
    } else {
      assert s[i := true][..|s| - 1] == s[..|s| - 1][i := true];
      CountOneMore(s[..|s| - 1], i);
    }
  }

  lemma {:induction false} CountNone(s: seq<bool>)
    requires forall i | 0 <= i < |s| :: !s[i]
    ensures CountTrue(s) == 0
  {
    if s != [] { CountNone(s[..|s| - 1]); }
  }

  /** `Waiting`: more chunks are to come. `Aborted`: the transfer is given up. */
  datatype Outcome = Waiting | Ignored | Aborted | Complete

  class Reassembly {
    const totalBytes: nat
    const chunkSize: nat
    const total: nat
    const buffer: array<Byte>
    const received: array<bool>
    var receivedCount: nat

    ghost predicate Valid()
      reads this, received
    {
      && chunkSize > 0 && total == AtLeastOne(Ceil(totalBytes, chunkSize))
      && buffer.Length == totalBytes && received.Length == total
      && receivedCount == CountTrue(received[..])
    }

    /** The chunks that have arrived are where the file has them. */
    ghost predicate Holds(content: Bytes)
      requires Valid()
      reads this, received, buffer
    {
      && 0 < |content| == totalBytes
      && forall i | 0 <= i < total && received[i] :: HoldsChunk(buffer[..], content, chunkSize, i)
    }

    constructor (s: Start)
      requires Acceptable(s)
      ensures Valid() && totalBytes == s.totalBytes && chunkSize == s.chunkSize && fresh(buffer) && fresh(received)
      ensures forall i | 0 <= i < total :: !received[i]
    {
      totalBytes, chunkSize, total := s.totalBytes, s.chunkSize, s.totalChunks;
      buffer := new Byte[s.totalBytes];
      received := new bool[s.totalChunks](_ => false);
      receivedCount := 0;
      new;
      CountNone(received[..]);
    }

    /** One chunk arrives. */
    method HandleChunk(index: int, data: Bytes) returns (o: Outcome)
      requires Valid()
      modifies this, buffer, received
      ensures Valid()
      ensures o.Aborted? <==> |data| > MAX_CHUNK_SIZE || (0 <= index < total && index * chunkSize + |data| > totalBytes)
      ensures o.Ignored? <==> |data| <= MAX_CHUNK_SIZE && !(0 <= index < total)
      ensures o.Aborted? || o.Ignored? ==> buffer[..] == old(buffer[..]) && received[..] == old(received[..])
      ensures o.Waiting? || o.Complete? ==>
        && received[..] == old(received[..])[index := true]
        && buffer[..] == (if old(received[index]) then old(buffer[..])
            else Written(old(buffer[..]), index * chunkSize, data))
        && (o.Complete? <==> forall i | 0 <= i < total :: received[i])
    {
      if |data| > MAX_CHUNK_SIZE { return Aborted; }
      if index < 0 || index >= total { return Ignored; }
      var offset := index * chunkSize;
      if offset + |data| > totalBytes { return Aborted; }
      ghost var flags := received[..];
      if !received[index] {
        received[index] := true;
        assert received[..] == flags[index := true];
        CountOneMore(flags, index);
        WriteAt(buffer, offset, data);
        receivedCount := receivedCount + 1;
      } else {
        assert flags == flags[index := true];
      }
      CountAll(received[..]);
      assert forall i | 0 <= i < total :: received[i] == received[..][i];
      o := if receivedCount == total then Complete else Waiting;
    }

    /** Chunks of one file, in any order and any number of times: the file is complete once each has come, and
        then is the file that was sent. */
    method HandleChunks(content: Bytes, order: seq<nat>) returns (o: Outcome)
      requires Valid() && Holds(content) && chunkSize <= MAX_CHUNK_SIZE
      requires forall k | 0 <= k < |order| :: order[k] < total
      modifies this, buffer, received
      ensures Valid() && Holds(content) && !o.Aborted? && !o.Ignored?
      ensures forall i | 0 <= i < total :: received[i] <==> old(received[i]) || i in order
      ensures order != [] ==> (o.Complete? <==> forall i | 0 <= i < total :: old(received[i]) || i in order)
      ensures (forall i | 0 <= i < total :: received[i]) ==> buffer[..] == content
    {
      o := Waiting;
      CeilBounds(totalBytes, chunkSize);
      for k := 0 to |order|
        invariant Valid() && Holds(content) && !o.Aborted? && !o.Ignored?
        invariant forall i | 0 <= i < total :: received[i] <==> old(received[i]) || i in order[..k]
        invariant k > 0 ==> (o.Complete? <==> forall i | 0 <= i < total :: received[i])
      {
        o := HandleHonestChunk(content, order[k]);
        assert order[..k + 1] == order[..k] + [order[k]];
      }
      assert order[..|order|] == order;
      if forall i | 0 <= i < total :: received[i] {
        WholeFile(buffer[..], content, chunkSize);
      }
    }

    method HandleHonestChunk(content: Bytes, index: nat) returns (o: Outcome)
      requires Valid() && Holds(content) && chunkSize <= MAX_CHUNK_SIZE && index < total
      modifies this, buffer, received
      ensures Valid() && Holds(content) && !o.Aborted? && !o.Ignored?
      ensures received[..] == old(received[..])[index := true]
      ensures o.Complete? <==> forall i | 0 <= i < total :: received[i]
    {
      CeilBounds(totalBytes, chunkSize);
      ChunkBounds(index, chunkSize, |content|);
      ghost var before, flags := buffer[..], received[..];
      o := HandleChunk(index, ChunkOf(content, chunkSize, index));
      forall i | 0 <= i < total && received[i]
        ensures HoldsChunk(buffer[..], content, chunkSize, i)
      {
        assert received[i] == flags[index := true][i];
        if flags[index] {
          assert buffer[..] == before && flags[i];
        } else if i == index {
          WrittenHolds(before, content, chunkSize, index);
        } else {
          assert flags[i] && HoldsChunk(before, content, chunkSize, i);
          WrittenKeeps(before, content, chunkSize, index, i);
        }
      }
    }
  }

  ghost predicate HoldsChunk(buffer: Bytes, content: Bytes, chunkSize: nat, i: nat) {
    && |buffer| == |content| && chunkSize > 0 && i < Ceil(|content|, chunkSize)
    && forall k | From(i, chunkSize) <= k < To(i, chunkSize, |content|) && k < |content| :: buffer[k] == content[k]
  }

  function Written(buffer: Bytes, offset: nat, data: Bytes): Bytes
    requires offset + |data| <= |buffer|
  {
    buffer[..offset] + data + buffer[offset + |data|..]
  }

  method WriteAt(buffer: array<Byte>, offset: nat, data: Bytes)
    requires offset + |data| <= buffer.Length
    modifies buffer
    ensures buffer[..] == Written(old(buffer[..]), offset, data)
  {
    for i := 0 to |data|
      invariant buffer[..] == Written(old(buffer[..]), offset, data[..i])
    {
      buffer[offset + i] := data[i];
    }
    assert data[..|data|] == data;
  }

  lemma WrittenHolds(buffer: Bytes, content: Bytes, chunkSize: nat, i: nat)
    requires |buffer| == |content| && chunkSize > 0 && i < Ceil(|content|, chunkSize)
    ensures From(i, chunkSize) + |ChunkOf(content, chunkSize, i)| <= |buffer|
    ensures HoldsChunk(Written(buffer, From(i, chunkSize), ChunkOf(content, chunkSize, i)), content, chunkSize, i)
  {
    ChunkBounds(i, chunkSize, |content|);
  }

  lemma WrittenKeeps(buffer: Bytes, content: Bytes, chunkSize: nat, i: nat, j: nat)
    requires chunkSize > 0 && i < Ceil(|content|, chunkSize) && i != j && HoldsChunk(buffer, content, chunkSize, j)
    ensures From(i, chunkSize) + |ChunkOf(content, chunkSize, i)| <= |buffer|
    ensures HoldsChunk(Written(buffer, From(i, chunkSize), ChunkOf(content, chunkSize, i)), content, chunkSize, j)
  {
    ChunkBounds(i, chunkSize, |content|);
    if i < j { ChunksApart(i, j, chunkSize, |content|); } else { ChunksApart(j, i, chunkSize, |content|); }
    hide From, To;
  }

  lemma WholeFile(buffer: Bytes, content: Bytes, chunkSize: nat)
    requires chunkSize > 0 && |buffer| == |content|
    requires forall i | 0 <= i < Ceil(|content|, chunkSize) :: HoldsChunk(buffer, content, chunkSize, i)
    ensures buffer == content
  {
    forall k | 0 <= k < |content|
      ensures buffer[k] == content[k]
    {
      ByteInChunk(k, chunkSize, |content|);
      assert HoldsChunk(buffer, content, chunkSize, k / chunkSize);
    }
  }
}
