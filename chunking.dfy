/**
 * `chunkify`: cutting a string into consecutive pieces of at most 1000 code
 * units, the size limit of one embed field value.
 */
module Chunking {

  const ChunkSize: nat := 1000

  /** `Math.ceil(n / ChunkSize)` for a length `n`. */
  function ChunkCount(n: nat): nat
  {
    (n + ChunkSize - 1) / ChunkSize
  }

  function Min(a: int, b: int): int
  {
    if a <= b then a else b
  }

  /** JavaScript's `substring(start, end)`: both bounds clamped to the string, swapped when reversed. */
  function Substring(s: string, start: int, end: int): (r: string)
    ensures |r| <= |s|
    ensures 0 <= start <= end ==> r == s[Min(start, |s|) .. Min(end, |s|)]
    ensures 0 <= end <= start ==> r == s[Min(end, |s|) .. Min(start, |s|)]
  {
    var a := if start < 0 then 0 else Min(start, |s|);
    var b := if end < 0 then 0 else Min(end, |s|);
    if a <= b then s[a..b] else s[b..a]
  }

  /** The reference chunking: a full chunk off the front while more than one chunk remains. */
  function Chunks(s: string): seq<string>
    decreases |s|
  {
    if |s| == 0 then []
    else if |s| <= ChunkSize then [s]
    else [s[..ChunkSize]] + Chunks(s[ChunkSize..])
  }

  /** Concatenation of the pieces in order. */
  function Flatten(parts: seq<string>): string
  {
    if parts == [] then [] else parts[0] + Flatten(parts[1..])
  }

  /**
   * The chunks are ceil(|s| / 1000) in number, all full but the last, which
   * holds 1 to 1000 units, and concatenated in order they give back `s`.
   */
  lemma {:induction false} ChunksShape(s: string)
    ensures |Chunks(s)| == ChunkCount(|s|)
    ensures forall k :: 0 <= k < |Chunks(s)| - 1 ==> |Chunks(s)[k]| == ChunkSize
    ensures |s| > 0 ==> 1 <= |Chunks(s)[|Chunks(s)| - 1]| <= ChunkSize
    ensures Flatten(Chunks(s)) == s
    decreases |s|
  {
    if |s| > ChunkSize {
      var rest := s[ChunkSize..];
      ChunksShape(rest);
      var r := Chunks(s);
      assert r[0] == s[..ChunkSize] && r[1..] == Chunks(rest);
      assert s == s[..ChunkSize] + rest;
    } else if |s| > 0 {
      assert Flatten(Chunks(s)) == s + Flatten([]);
    }
  }

  /** Chunk `k` is the slice of `s` from 1000k to 1000(k+1), cut at the end of `s`. */
  lemma {:induction false} ChunkAt(s: string, k: nat)
    requires k < |Chunks(s)|
    ensures ChunkSize * k < |s|
    ensures Chunks(s)[k] == s[ChunkSize * k .. Min(ChunkSize * (k + 1), |s|)]
    decreases |s|
  {
    if k > 0 {
      var rest := s[ChunkSize..];
      assert Chunks(s)[k] == Chunks(rest)[k - 1];
      ChunkAt(rest, k - 1);
      assert rest[ChunkSize * (k - 1) .. Min(ChunkSize * k, |rest|)]
          == s[ChunkSize * k .. Min(ChunkSize * (k + 1), |s|)];
    }
  }

  /** The counted loop of `chunkify`, pushing one `substring` per iteration. */
  method Chunkify(toChunk: string) returns (chunksToReturn: seq<string>)
    ensures chunksToReturn == Chunks(toChunk)
  {
    var lenChunks := ChunkCount(|toChunk|);
    ChunksShape(toChunk);
    chunksToReturn := [];
    for i := 0 to lenChunks
      invariant |chunksToReturn| == i
      invariant forall k :: 0 <= k < i ==> chunksToReturn[k] == Chunks(toChunk)[k]
    {
      var end := if i == 0 then ChunkSize else ChunkSize * (i + 1);
      var chunkedStr := Substring(toChunk, ChunkSize * i, end);
      ChunkAt(toChunk, i);
      chunksToReturn := chunksToReturn + [chunkedStr];
    }
  }
}
