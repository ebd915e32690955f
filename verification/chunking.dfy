/** Fixed-size slicing of a byte string, as done by
    `for i in range(0, len(data), size): chunk = data[i:i+size]`. */
module Chunking {

  type Byte = bv8

  function Min(a: int, b: int): int {
    if a <= b then a else b
  }

  /** The slices `data[i:i+size]`, `data[i+size:i+2*size]`, … of `range(i, len(data), size)`. */
  function ChunksFrom<T>(data: seq<T>, size: nat, i: nat): seq<seq<T>>
    requires size > 0
    decreases |data| - i
  {
    if i >= |data| then [] else [data[i..Min(i + size, |data|)]] + ChunksFrom(data, size, i + size)
  }

  /** The chunks sent for `data`, in order. */
  function Chunks<T>(data: seq<T>, size: nat): seq<seq<T>>
    requires size > 0
  {
    ChunksFrom(data, size, 0)
  }

  function Flatten<T>(chunks: seq<seq<T>>): seq<T> {
    if chunks == [] then [] else chunks[0] + Flatten(chunks[1..])
  }

  /** Every chunk is non-empty and at most `size` long, and all but the last are exactly `size`. */
  ghost predicate WellSized<T>(chunks: seq<seq<T>>, size: nat) {
    && (forall k :: 0 <= k < |chunks| ==> 0 < |chunks[k]| <= size)
    && (forall k :: 0 <= k < |chunks| - 1 ==> |chunks[k]| == size)
  }

  lemma {:induction false} ChunksFromCover<T>(data: seq<T>, size: nat, i: nat)
    requires size > 0 && i <= |data|
    ensures Flatten(ChunksFrom(data, size, i)) == data[i..]
    ensures WellSized(ChunksFrom(data, size, i), size)
    decreases |data| - i
  {
    if i < |data| {
      var j := Min(i + size, |data|);
      var rest := ChunksFrom(data, size, i + size);
      if i + size <= |data| {
        ChunksFromCover(data, size, i + size);
        assert data[i..] == data[i..j] + data[i + size..];
      } else {
        assert rest == [];
      }
      assert ([data[i..j]] + rest)[1..] == rest;
    }
  }

  /** Sending `data` in `size`-byte chunks sends all of it, in order, as `size`-byte pieces
      except possibly a shorter last one, and no empty piece. */
  lemma ChunksCover<T>(data: seq<T>, size: nat)
    requires size > 0
    ensures Flatten(Chunks(data, size)) == data
    ensures WellSized(Chunks(data, size), size)
  {
    ChunksFromCover(data, size, 0);
  }

  lemma {:induction false} FlattenAppend<T>(a: seq<seq<T>>, b: seq<seq<T>>)
    ensures Flatten(a + b) == Flatten(a) + Flatten(b)
    decreases |a|
  {
    if a == [] {
      assert a + b == b;
    } else {
      assert (a + b)[1..] == a[1..] + b;
      FlattenAppend(a[1..], b);
    }
  }

  /** One step of the send loop: the chunk at `i` followed by the chunks after it. */
  lemma {:induction false} ChunksStep<T>(data: seq<T>, size: nat, sent: seq<seq<T>>, i: nat)
    requires size > 0 && i < |data|
    requires sent + ChunksFrom(data, size, i) == Chunks(data, size)
    ensures (sent + [data[i..Min(i + size, |data|)]]) + ChunksFrom(data, size, i + size) == Chunks(data, size)
  {
    var c := [data[i..Min(i + size, |data|)]];
    assert sent + (c + ChunksFrom(data, size, i + size)) == (sent + c) + ChunksFrom(data, size, i + size);
  }
}
