/** Notice acknowledgments cut into requests, each within a bound on its deliveries and one on its body's bytes. */
module Acknowledgments {
  import opened Json
  import opened Packing

  const MAX_ACK_DELIVERIES: nat := 256
  const MAX_JSON_BODY_BYTES: nat := 16 * 1024

  /** One delivery as its compact JSON. */
  type Delivery = string

  /** A request's body as it is sent. */
  function Body(chunk: seq<Delivery>): string {
    "{\"deliveries\":[" + Items(chunk) + "]}"
  }

  /** What one request may carry; a delivery too large for any body still goes alone. */
  predicate Fits(chunk: seq<Delivery>) {
    |chunk| <= MAX_ACK_DELIVERIES && (|Body(chunk)| <= MAX_JSON_BODY_BYTES || |chunk| == 1)
  }

  lemma PartsOfChunksFit(deliveries: seq<Delivery>)
    ensures PartsFit(deliveries, Fits)
  {
    forall i: nat, j: nat, i': nat, j': nat | i <= i' < j' <= j <= |deliveries| && Fits(deliveries[i..j])
      ensures Fits(deliveries[i'..j'])
    {
      PartIsShorter(deliveries, i, j, i', j');
    }
  }

  /** What the loop has after reading `deliveries`: closed chunks, and the open one it still fills. */
  ghost predicate Packs(chunks: seq<seq<Delivery>>, chunk: seq<Delivery>, deliveries: seq<Delivery>) {
    && Joined(chunks) + chunk == deliveries && (chunk == [] <==> deliveries == [])
    && (forall done <- chunks :: done != [] && Fits(done)) && Fits(chunk)
    && Full(chunks, Fits) && (chunks != [] ==> Refuses(chunks[|chunks| - 1], chunk, Fits))
  }

  lemma AppendKeepsPacks(
      chunks: seq<seq<Delivery>>, chunk: seq<Delivery>, deliveries: seq<Delivery>, item: Delivery)
    requires Packs(chunks, chunk, deliveries) && (chunk == [] || Fits(chunk + [item]))
    ensures Packs(chunks, chunk + [item], deliveries + [item])
  {
    assert chunk != [] ==> (chunk + [item])[..1] == chunk[..1];
    assert Joined(chunks) + (chunk + [item]) == deliveries + [item];
  }

  lemma CloseKeepsPacks(
      chunks: seq<seq<Delivery>>, chunk: seq<Delivery>, deliveries: seq<Delivery>, item: Delivery)
    requires Packs(chunks, chunk, deliveries) && chunk != [] && !Fits(chunk + [item])
    ensures Packs(chunks + [chunk], [item], deliveries + [item])
  {
    assert (chunks + [chunk])[..|chunks|] == chunks && [item][..1] == [item];
    assert Refuses(chunk, [item], Fits);
  }

  /** When the loop closes the open chunk before it takes the next delivery. */
  predicate Closes(chunk: seq<Delivery>, size: nat, item: Delivery) {
    chunk != [] && (|chunk| == MAX_ACK_DELIVERIES || size + 1 + |item| > MAX_JSON_BODY_BYTES)
  }

  /** The running size decides as the bodies themselves would. */
  lemma SizeDecides(chunk: seq<Delivery>, item: Delivery)
    requires Fits(chunk)
    ensures |Body(chunk)| == 17 + |Items(chunk)|
    ensures |Body(chunk + [item])| == |Body(chunk)| + |item| + (if chunk != [] then 1 else 0)
    ensures Closes(chunk, |Body(chunk)|, item) <==> chunk != [] && !Fits(chunk + [item])
    ensures Closes(chunk, |Body(chunk)|, item) <==>
            chunk != [] && (|chunk| == 256 || |Body(chunk + [item])| > 16_384)
  {
    ItemsAppend(chunk, item);
  }

  lemma DeliveryKeepsPacks(
      chunks: seq<seq<Delivery>>, chunk: seq<Delivery>, deliveries: seq<Delivery>, i: nat, size: nat)
    requires i < |deliveries| && Packs(chunks, chunk, deliveries[..i]) && size == |Body(chunk)|
    ensures Closes(chunk, size, deliveries[i]) ==>
              Packs(chunks + [chunk], [deliveries[i]], deliveries[..i + 1])
              && |Body([deliveries[i]])| == |Body([])| + |deliveries[i]|
    ensures !Closes(chunk, size, deliveries[i]) ==>
              Packs(chunks, chunk + [deliveries[i]], deliveries[..i + 1])
              && |Body(chunk + [deliveries[i]])| == size + |deliveries[i]| + (if chunk != [] then 1 else 0)
  {
    var item := deliveries[i];
    assert deliveries[..i + 1] == deliveries[..i] + [item];
    SizeDecides(chunk, item);
    if Closes(chunk, size, item) {
      CloseKeepsPacks(chunks, chunk, deliveries[..i], item);
    } else {
      AppendKeepsPacks(chunks, chunk, deliveries[..i], item);
    }
  }

  /** What the loop leaves, with its open chunk if there is one, is a full split. */
  lemma LastChunkSplits(chunks: seq<seq<Delivery>>, chunk: seq<Delivery>, deliveries: seq<Delivery>)
    requires Packs(chunks, chunk, deliveries)
    ensures var all := if chunk != [] then chunks + [chunk] else chunks;
      Splits(all, deliveries, Fits) && Full(all, Fits)
  {
    if chunk != [] {
      PackedSplits(chunks, chunk, deliveries);
    }
  }

  lemma PackedSplits(chunks: seq<seq<Delivery>>, chunk: seq<Delivery>, deliveries: seq<Delivery>)
    requires Packs(chunks, chunk, deliveries) && chunk != []
    ensures Splits(chunks + [chunk], deliveries, Fits) && Full(chunks + [chunk], Fits)
  {
    assert (chunks + [chunk])[..|chunks|] == chunks;
  }

  /** When each delivery fits a body alone, each request of an acknowledgment stays within the body bound. */
  lemma BodiesFit(chunks: seq<seq<Delivery>>, deliveries: seq<Delivery>)
    requires Splits(chunks, deliveries, Fits)
    requires forall delivery <- deliveries :: |Body([delivery])| <= MAX_JSON_BODY_BYTES
    ensures forall chunk <- chunks :: |Body(chunk)| <= MAX_JSON_BODY_BYTES
  {
    CutsMark(chunks);
    forall k | 0 <= k < |chunks| && |chunks[k]| == 1 ensures |Body(chunks[k])| <= MAX_JSON_BODY_BYTES {
      assert MarksPiece(Cuts(chunks)[k], Cuts(chunks)[k + 1], chunks[k], deliveries);
      assert chunks[k][0] in deliveries && [chunks[k][0]] == chunks[k];
    }
  }

  /** The deliveries in order and whole, each chunk non-empty and within the bounds, in as few as any such split. */
  ghost predicate AreFewest(chunks: seq<seq<Delivery>>, deliveries: seq<Delivery>) {
    && Splits(chunks, deliveries, Fits)
    && forall other :: Splits(other, deliveries, Fits) ==> |chunks| <= |other|
  }

  /** When each delivery fits a body alone, every chunk's body is within the bound. */
  ghost predicate StayWithin(chunks: seq<seq<Delivery>>, deliveries: seq<Delivery>) {
    (forall delivery <- deliveries :: |Body([delivery])| <= MAX_JSON_BODY_BYTES) ==>
      forall chunk <- chunks :: |Body(chunk)| <= MAX_JSON_BODY_BYTES
  }

  /** Full chunks are as few as any split takes. */
  lemma FullChunksAreFewest(chunks: seq<seq<Delivery>>, deliveries: seq<Delivery>)
    requires Splits(chunks, deliveries, Fits) && Full(chunks, Fits)
    ensures AreFewest(chunks, deliveries) && StayWithin(chunks, deliveries)
  {
    PartsOfChunksFit(deliveries);
    forall other | Splits(other, deliveries, Fits) ensures |chunks| <= |other| {
      FullIsMinimal(chunks, other, deliveries, Fits);
    }
    if forall delivery <- deliveries :: |Body([delivery])| <= MAX_JSON_BODY_BYTES {
      BodiesFit(chunks, deliveries);
    }
  }

  /** The running size decides each cut. */
  method Acknowledgments(deliveries: seq<Delivery>) returns (chunks: seq<seq<Delivery>>)
    ensures AreFewest(chunks, deliveries) && StayWithin(chunks, deliveries)
  {
    var empty := |Body([])|;
    chunks := [];
    var chunk: seq<Delivery> := [];
    var size := empty;
    for i := 0 to |deliveries|
      invariant Packs(chunks, chunk, deliveries[..i]) && size == |Body(chunk)|
    {
      var item := deliveries[i];
      DeliveryKeepsPacks(chunks, chunk, deliveries, i, size);
      if Closes(chunk, size, item) {
        chunks, chunk, size := chunks + [chunk], [], empty;
        assert [] + [item] == [item];
      }
      size := size + |item| + (if chunk != [] then 1 else 0);
      chunk := chunk + [item];
    }
    assert deliveries[..|deliveries|] == deliveries;
    LastChunkSplits(chunks, chunk, deliveries);
    if chunk != [] {
      chunks := chunks + [chunk];
    }
    FullChunksAreFewest(chunks, deliveries);
  }
}
