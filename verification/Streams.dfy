/** A file as a read stream delivers it: a list of chunks. */
module Streams {
  lemma Assoc<T>(a: seq<T>, b: seq<T>, c: seq<T>)
    ensures (a + b) + c == a + (b + c)
  {
  }

  /** The first `k` chunks as one buffer. */
  function Read<T>(chunks: seq<seq<T>>, k: nat): seq<T>
    requires k <= |chunks|
  {
    if k == 0 then [] else Read(chunks, k - 1) + chunks[k - 1]
  }

  function Flatten<T>(chunks: seq<seq<T>>): seq<T> { Read(chunks, |chunks|) }

  lemma {:induction false} ReadPrefix<T>(chunks: seq<seq<T>>, a: nat, b: nat)
    requires a <= b <= |chunks|
    ensures Read(chunks, a) <= Read(chunks, b)
  {
    if a < b { ReadPrefix(chunks, a, b - 1); }
  }

  /** Chunk `k` sits in the file where reading has got to. */
  lemma ReadWithin<T>(chunks: seq<seq<T>>, k: nat)
    requires k < |chunks|
    ensures |Read(chunks, k + 1)| == |Read(chunks, k)| + |chunks[k]| <= |Flatten(chunks)|
    ensures Flatten(chunks)[|Read(chunks, k)|..|Read(chunks, k + 1)|] == chunks[k]
  {
    ReadPrefix(chunks, k + 1, |chunks|);
  }

  lemma {:induction false} ReadCons<T>(chunks: seq<seq<T>>, rest: seq<seq<T>>, k: nat)
    requires k < |chunks| == |rest| + 1 && forall j :: 0 <= j < |rest| ==> rest[j] == chunks[j + 1]
    ensures Read(chunks, k + 1) == chunks[0] + Read(rest, k)
  {
    if k == 0 {
      assert Read(chunks, 1) == Read(chunks, 0) + chunks[0];
    } else {
      ReadCons(chunks, rest, k - 1);
      Assoc(chunks[0], Read(rest, k - 1), rest[k - 1]);
    }
  }
}
