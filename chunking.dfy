/** Splitting the report into Telegram messages: consecutive slices of at
    most 4096 characters, taken at offsets 0, 4096, 8192, ... as Python's
    clamped slicing does. */
module Chunking {

  /** Telegram's limit on the length of one message. */
  const MaxMessageLength: nat := 4096

  function Min(a: int, b: int): int
  {
    if a < b then a else b
  }

  /** Number of offsets in range(0, len, size): ceil(len / size). */
  function ChunkCountOf(len: nat, size: nat): nat
    requires 0 < size
  {
    (len + size - 1) / size
  }

  /** One slice per offset in range(0, |message|, size), each
      message[offset : offset + size] clamped to the end of the message. */
  function Chunks(message: string, size: nat): (chunks: seq<string>)
    requires 0 < size
    ensures chunks == [] <==> message == []
  {
    CountBounds(|message|, size);
    seq(ChunkCountOf(|message|, size),
        k requires 0 <= k < ChunkCountOf(|message|, size) =>
          ChunkBounds(|message|, size, k);
          message[k * size .. Min((k + 1) * size, |message|)])
  }

  lemma CountBounds(len: nat, size: nat)
    requires 0 < size
    ensures len == 0 <==> ChunkCountOf(len, size) == 0
  {
    DivBounds(len + size - 1, size);
  }

  /** Where chunk k starts and ends: it starts inside the message; every
      chunk but the last ends inside it too, and the last reaches its end. */
  lemma ChunkBounds(len: nat, size: nat, k: nat)
    requires 0 < size && k < ChunkCountOf(len, size)
    ensures k * size < len
    ensures (k + 1) * size == k * size + size
    ensures k + 1 < ChunkCountOf(len, size) ==> (k + 1) * size <= len
    ensures k + 1 == ChunkCountOf(len, size) ==> len <= (k + 1) * size
  {
    var q := ChunkCountOf(len, size);
    DivBounds(len + size - 1, size);
    MulMono(k + 1, q, size);
    if k + 1 < q {
      MulMono(k + 2, q, size);
      assert (k + 2) * size == (k + 1) * size + size;
    }
  }

  lemma MulMono(a: nat, b: nat, c: nat)
    requires a <= b
    ensures a * c <= b * c
  {
    assert b * c - a * c == (b - a) * c;
  }

  /** The chunks the screener sends for a report. */
  function TelegramChunks(message: string): (chunks: seq<string>)
    ensures Concat(chunks) == message
    ensures forall k :: 0 <= k < |chunks| ==> 0 < |chunks[k]| <= MaxMessageLength
  {
    ConcatChunks(message, MaxMessageLength);
    ChunkLengths(message, MaxMessageLength);
    Chunks(message, MaxMessageLength)
  }

  /** The chunks glued back together, in order. */
  function Concat(chunks: seq<string>): string
  {
    if chunks == [] then [] else Concat(chunks[..|chunks| - 1]) + chunks[|chunks| - 1]
  }

  /** There are ceil(|message| / size) chunks: the last one starts before the
      end of the message and the next would start past it. */
  lemma ChunkCount(message: string, size: nat)
    requires 0 < size
    ensures var n := |Chunks(message, size)|;
            (n == 0 && |message| == 0) || ((n - 1) * size < |message| <= n * size)
  {
    var n := |Chunks(message, size)|;
    CountBounds(|message|, size);
    if n > 0 {
      ChunkBounds(|message|, size, n - 1);
    }
  }

  lemma DivBounds(a: nat, b: nat)
    requires 0 < b
    ensures (a / b) * b <= a < (a / b) * b + b
  {
  }

  /** No chunk is empty or longer than the limit, and every chunk but the
      last is exactly full; an empty message gives no chunks at all. */
  lemma ChunkLengths(message: string, size: nat)
    requires 0 < size
    ensures Chunks(message, size) == [] <==> |message| == 0
    ensures forall k :: 0 <= k < |Chunks(message, size)| ==> 0 < |Chunks(message, size)[k]| <= size
    ensures forall k :: 0 <= k < |Chunks(message, size)| - 1 ==> |Chunks(message, size)[k]| == size
  {
    CountBounds(|message|, size);
    forall k | 0 <= k < |Chunks(message, size)|
      ensures 0 < |Chunks(message, size)[k]| <= size
      ensures k < |Chunks(message, size)| - 1 ==> |Chunks(message, size)[k]| == size
    {
      ChunkBounds(|message|, size, k);
    }
  }

  /** The first k chunks spell out the first k * size characters (or the
      whole message, when that is shorter). */
  lemma {:induction false} ConcatPrefix(message: string, size: nat, k: nat)
    requires 0 < size
    requires k <= |Chunks(message, size)|
    ensures Concat(Chunks(message, size)[..k]) == message[..Min(k * size, |message|)]
  {
    var chunks := Chunks(message, size);
    if k == 0 {
      assert chunks[..0] == [];
    } else {
      ConcatPrefix(message, size, k - 1);
      ChunkBounds(|message|, size, k - 1);
      assert chunks[..k][..k - 1] == chunks[..k - 1];
      var lo, hi := (k - 1) * size, Min(k * size, |message|);
      assert k * size == lo + size;
      AppendSlice(message, lo, hi);
    }
  }

  lemma AppendSlice(s: string, lo: nat, hi: nat)
    requires lo <= hi <= |s|
    ensures s[..Min(lo, |s|)] + s[lo..hi] == s[..hi]
  {
    assert s[..hi][..lo] == s[..lo];
  }

  /** Sending the chunks in order delivers the whole message, nothing more. */
  lemma ConcatChunks(message: string, size: nat)
    requires 0 < size
    ensures Concat(Chunks(message, size)) == message
  {
    var chunks := Chunks(message, size);
    ConcatPrefix(message, size, |chunks|);
    ChunkCount(message, size);
    assert chunks[..|chunks|] == chunks;
  }

  /** A 9000-character report goes out as 4096 + 4096 + 808 characters. */
  lemma NineThousand(message: string)
    requires |message| == 9000
    ensures |TelegramChunks(message)| == 3
    ensures |TelegramChunks(message)[0]| == 4096
    ensures |TelegramChunks(message)[1]| == 4096
    ensures |TelegramChunks(message)[2]| == 808
  {
  }
}
