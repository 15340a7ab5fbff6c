/** The messages of the chunked transfer protocol and what one transfer looks
    like on a stream (shared/delegate_protocol/chunked_transfer.py).

    SHA-256 and base64 are library calls, so they enter as the fields of a
    `Codec`: the hash is any function, base64 any pair of functions. Only
    `Lossless` is ever assumed of the pair, and only where a lemma says so. */
module Protocol {
  import opened StreamNames

  newtype byte = x: int | 0 <= x < 256

  type Bytes = seq<byte>

  type Id = string

  datatype Option<+T> = None | Some(value: T)

  datatype Codec = Codec(sha: Bytes -> string, b64: Bytes -> string, unb64: string -> Bytes)
  {
    /** Decoding undoes encoding. */
    ghost predicate Lossless() {
      forall b: Bytes :: unb64(b64(b)) == b
    }
  }

  /** One parsed stream entry. `Unknown` is any entry whose type no reader acts on. */
  datatype Message =
    | DataStart(transfer: Id, totalSize: int, chunkSize: int, checksum: string)
    | DataChunk(transfer: Id, seqNo: int, body: string)
    | DataEnd(transfer: Id, totalChunks: int)
    | DataRequest(tenant: string, delegate: string, file: string)
    | LogLine(text: string)
    | StatusReport(status: string)
    | ExecutionStarted(execution: string, announced: Keys)
    | Unknown

  /** The slices that `range(0, len(data), size)` cuts out of the payload. */
  function Chunks(data: Bytes, size: nat): seq<Bytes>
    requires size > 0
    decreases |data|
  {
    if data == [] then []
    else if |data| <= size then [data]
    else [data[..size]] + Chunks(data[size..], size)
  }

  function Join(parts: seq<Bytes>): Bytes {
    if parts == [] then [] else parts[0] + Join(parts[1..])
  }

  function ChunkMessage(c: Codec, transfer: Id, chunks: seq<Bytes>, i: nat): Message
    requires i < |chunks|
  {
    DataChunk(transfer, i, c.b64(chunks[i]))
  }

  function ChunkMessages(c: Codec, transfer: Id, chunks: seq<Bytes>): seq<Message> {
    seq(|chunks|, i requires 0 <= i < |chunks| => ChunkMessage(c, transfer, chunks, i))
  }

  /** Everything one sender writes for one payload, in order. */
  function Transfer(c: Codec, transfer: Id, data: Bytes, size: nat): seq<Message>
    requires size > 0
  {
    var chunks := Chunks(data, size);
    [DataStart(transfer, |data|, size, c.sha(data))]
    + ChunkMessages(c, transfer, chunks)
    + [DataEnd(transfer, |chunks|)]
  }

  // ---------------------------------------------------------------- chunking

  lemma JoinAppend(a: seq<Bytes>, b: seq<Bytes>)
    ensures Join(a + b) == Join(a) + Join(b)
  {
    if a == [] {
      assert a + b == b;
    } else {
      assert (a + b)[0] == a[0] && (a + b)[1..] == a[1..] + b;
      JoinAppend(a[1..], b);
    }
  }

  lemma JoinSnoc(parts: seq<Bytes>, n: nat)
    requires n < |parts|
    ensures Join(parts[..n + 1]) == Join(parts[..n]) + parts[n]
  {
    assert parts[..n + 1] == parts[..n] + [parts[n]];
    JoinAppend(parts[..n], [parts[n]]);
    assert Join([parts[n]]) == parts[n] + Join([]);
  }

  /** The chunks put back together are the payload. */
  lemma {:induction false} ChunksJoin(data: Bytes, size: nat)
    requires size > 0
    ensures Join(Chunks(data, size)) == data
    decreases |data|
  {
    if data == [] {
    } else if |data| <= size {
      assert Join([data]) == data + Join([]);
    } else {
      ChunksJoin(data[size..], size);
      var tail := Chunks(data[size..], size);
      assert ([data[..size]] + tail)[1..] == tail;
      assert data[..size] + data[size..] == data;
    }
  }

  /** The arithmetic of the cut: ceil(len/size) chunks, none for an empty
      payload, none empty, every chunk but the last of full size. */
  lemma {:induction false} ChunkArithmetic(data: Bytes, size: nat)
    requires size > 0
    ensures |Chunks(data, size)| == (|data| + size - 1) / size
    ensures data == [] <==> Chunks(data, size) == []
    ensures forall i :: 0 <= i < |Chunks(data, size)| ==> 0 < |Chunks(data, size)[i]| <= size
    ensures forall i :: 0 <= i < |Chunks(data, size)| - 1 ==> |Chunks(data, size)[i]| == size
    decreases |data|
  {
    if data == [] {
      CeilSmall(0, size);
    } else if |data| <= size {
      CeilSmall(|data|, size);
    } else {
      var tail := Chunks(data[size..], size);
      ChunkArithmetic(data[size..], size);
      CeilStep(|data|, size);
      assert |data[size..]| + size - 1 == |data| - 1;
      assert Chunks(data, size) == [data[..size]] + tail;
    }
  }

  lemma CeilSmall(n: nat, size: nat)
    requires size > 0 && n <= size
    ensures (n + size - 1) / size == if n == 0 then 0 else 1
  {
    if n > 0 {
      assert (n + size - 1) / size == (n - 1) / size + 1;
      assert (n - 1) / size == 0;
    }
  }

  lemma CeilStep(n: nat, size: nat)
    requires size > 0 && n > size
    ensures (n + size - 1) / size == (n - 1) / size + 1
  {
    var q, r := (n - 1) / size, (n - 1) % size;
    assert n + size - 1 == (q + 1) * size + r;
    DivUnique(n + size - 1, size, q + 1, r);
  }

  lemma DivUnique(n: nat, size: nat, q: nat, r: nat)
    requires size > 0 && r < size && n == q * size + r
    ensures n / size == q
  {
    var d := n / size - q;
    assert d * size == r - n % size;
    MulSign(d, size);
  }

  lemma MulSign(d: int, size: nat)
    requires size > 0
    ensures d >= 1 ==> d * size >= size
    ensures d <= -1 ==> d * size <= 0 - size
  {
  }

  /** Cutting can be done one chunk at a time: the loop's view of `Chunks`. */
  lemma {:induction false} ChunksSplit(data: Bytes, size: nat, k: nat)
    requires size > 0 && k * size < |data|
    ensures k < |Chunks(data, size)|
    ensures Chunks(data, size)[k] == data[k * size..if (k + 1) * size < |data| then (k + 1) * size else |data|]
    ensures (k + 1 == |Chunks(data, size)|) <==> |data| <= (k + 1) * size
    decreases k
  {
    if k == 0 {
      if |data| > size {
        var tail := Chunks(data[size..], size);
        assert Chunks(data, size) == [data[..size]] + tail;
        assert tail != [];
      }
    } else {
      assert k * size >= size;
      var rest := data[size..];
      assert (k - 1) * size == k * size - size;
      assert (k - 1 + 1) * size == (k + 1) * size - size;
      ChunksSplit(rest, size, k - 1);
      var tail := Chunks(rest, size);
      assert Chunks(data, size) == [data[..size]] + tail;
      assert Chunks(data, size)[k] == tail[k - 1];
      var hi := if (k + 1) * size < |data| then (k + 1) * size else |data|;
      assert rest[k * size - size..hi - size] == data[k * size..hi];
    }
  }
}
