/**
  The `pieces` entry of the info dictionary: one 20-byte SHA-1 digest per
  piece, laid end to end in a single byte string.
 */
module PieceHashes {
  import opened Bencode

  const PIECE_SIZE: nat := 20

  type Piece = s: Bytes | |s| == PIECE_SIZE witness seq(PIECE_SIZE, _ => 0)

  /** The digests laid end to end, in order. */
  function Concat(pieces: seq<Piece>): (blob: Bytes)
    ensures |blob| == PIECE_SIZE * |pieces|
  {
    if pieces == [] then [] else Concat(pieces[..|pieces| - 1]) + pieces[|pieces| - 1]
  }

  /** Reference grouping: entry k is bytes [20k, 20k+20); a shorter tail makes no entry. */
  function Chunks(blob: Bytes): seq<Piece> {
    seq(|blob| / PIECE_SIZE, k requires 0 <= k < |blob| / PIECE_SIZE =>
      blob[PIECE_SIZE * k .. PIECE_SIZE * k + PIECE_SIZE])
  }

  /** Encode's loop that appends every digest to the `pieces` string. */
  method JoinPieces(pieces: seq<Piece>) returns (blob: Bytes)
    ensures blob == Concat(pieces)
  {
    blob := [];
    for i := 0 to |pieces|
      invariant blob == Concat(pieces[..i])
    {
      assert pieces[..i + 1][..i] == pieces[..i];
      blob := blob + pieces[i];
    }
    assert pieces[..|pieces|] == pieces;
  }

  /**
    decodePieces: copies byte i into slot i % 20 of a 20-byte buffer and, each
    time the buffer is full, appends it and starts a fresh zeroed buffer.
   */
  method DecodePieces(pieceString: Bytes) returns (pieces: seq<Piece>)
    ensures |pieces| == |pieceString| / PIECE_SIZE
    ensures forall k :: 0 <= k < |pieces| ==>
      pieces[k] == pieceString[PIECE_SIZE * k .. PIECE_SIZE * k + PIECE_SIZE]
    ensures pieces == Chunks(pieceString)
  {
    pieces := [];
    var buf := new byte[PIECE_SIZE];
    for i := 0 to |pieceString|
      invariant fresh(buf) && buf.Length == PIECE_SIZE
      invariant |pieces| == i / PIECE_SIZE
      invariant forall k :: 0 <= k < |pieces| ==>
        pieces[k] == pieceString[PIECE_SIZE * k .. PIECE_SIZE * k + PIECE_SIZE]
      invariant forall j :: 0 <= j < i % PIECE_SIZE ==> buf[j] == pieceString[i - i % PIECE_SIZE + j]
    {
      buf[i % PIECE_SIZE] := pieceString[i];
      if (i + 1) % PIECE_SIZE == 0 {
        assert buf[..] == pieceString[i + 1 - PIECE_SIZE .. i + 1];
        pieces := pieces + [buf[..]];
        buf := new byte[PIECE_SIZE];
      }
    }
  }

  /** Digest k occupies bytes [20k, 20k+20) of the joined blob. */
  lemma {:induction false} ConcatAt(pieces: seq<Piece>, k: nat)
    requires k < |pieces|
    ensures Concat(pieces)[PIECE_SIZE * k .. PIECE_SIZE * k + PIECE_SIZE] == pieces[k]
  {
    var n := |pieces|;
    var init := pieces[..n - 1];
    if k < n - 1 {
      ConcatAt(init, k);
      assert Concat(pieces) == Concat(init) + pieces[n - 1];
    }
  }

  /** Decoding the blob that Encode builds gives back the digests. */
  lemma ChunksOfConcat(pieces: seq<Piece>)
    ensures Chunks(Concat(pieces)) == pieces
  {
    var c := Chunks(Concat(pieces));
    assert |c| == |pieces|;
    forall k | 0 <= k < |pieces|
      ensures c[k] == pieces[k]
    {
      ConcatAt(pieces, k);
    }
  }

  lemma {:induction false} ConcatOfGroups(pieces: seq<Piece>, blob: Bytes)
    requires PIECE_SIZE * |pieces| <= |blob|
    requires forall k :: 0 <= k < |pieces| ==>
      pieces[k] == blob[PIECE_SIZE * k .. PIECE_SIZE * k + PIECE_SIZE]
    ensures Concat(pieces) == blob[..PIECE_SIZE * |pieces|]
  {
    if pieces != [] {
      var n := |pieces|;
      ConcatOfGroups(pieces[..n - 1], blob);
      assert blob[..PIECE_SIZE * n] == blob[..PIECE_SIZE * (n - 1)] + pieces[n - 1];
    }
  }

  /** Joining the decoded digests gives back the blob less its partial tail. */
  lemma ConcatOfChunks(blob: Bytes)
    ensures Concat(Chunks(blob)) == blob[..|blob| - |blob| % PIECE_SIZE]
  {
    ConcatOfGroups(Chunks(blob), blob);
  }
}
