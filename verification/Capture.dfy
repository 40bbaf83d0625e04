/**
 The bounded capture of a command's output (captureBuffer in cordium-go/exec.go):
 a buffer that keeps the first bytes of a stream and remembers whether it had to
 drop any.
 */
module Capture {
  import opened Prelude

  /** The value of a buffer: its cap, what it holds and its truncation mark. */
  datatype Buf = Buf(limit: nat, content: seq<Byte>, truncated: bool)

  function Empty(limit: nat): Buf {
    Buf(limit, [], false)
  }

  function Put(b: Buf, data: seq<Byte>): Buf {
    var remaining := b.limit - |b.content|;
    if remaining <= 0 then b.(truncated := true)
    else if |data| > remaining then Buf(b.limit, b.content + data[..remaining], true)
    else b.(content := b.content + data)
  }

  function PutAll(b: Buf, chunks: seq<seq<Byte>>): Buf {
    if chunks == [] then b
    else Put(PutAll(b, chunks[..|chunks| - 1]), chunks[|chunks| - 1])
  }

  /** A chunk that is empty and arrives when the buffer is already full. */
  predicate EmptyOnFull(limit: nat, chunks: seq<seq<Byte>>, i: nat)
    requires i < |chunks|
  {
    chunks[i] == [] && |Flatten(chunks[..i])| >= limit
  }

  /**
   Whatever the chunking, the buffer holds the first `limit` bytes of the
   concatenation; the mark is set exactly when bytes were dropped or an empty
   chunk reached a full buffer.
   */
  lemma {:induction false} CaptureExact(limit: nat, chunks: seq<seq<Byte>>)
    ensures PutAll(Empty(limit), chunks).limit == limit
    ensures PutAll(Empty(limit), chunks).content == Prefix(Flatten(chunks), limit)
    ensures PutAll(Empty(limit), chunks).truncated <==>
            |Flatten(chunks)| > limit || exists i :: 0 <= i < |chunks| && EmptyOnFull(limit, chunks, i)
  {
    if chunks != [] {
      var n := |chunks| - 1;
      var init := chunks[..n];
      CaptureExact(limit, init);
      assert chunks == init + [chunks[n]];
      FlattenSnoc(init, chunks[n]);
      assert forall i :: 0 <= i < n ==> init[..i] == chunks[..i];
      assert forall i :: 0 <= i < n ==> (EmptyOnFull(limit, init, i) <==> EmptyOnFull(limit, chunks, i));
      if |Flatten(init)| >= limit && chunks[n] == [] {
        assert EmptyOnFull(limit, chunks, n);
      }
      if |Flatten(init)| > limit {
        assert |Flatten(chunks)| > limit;
      }
    }
  }

  /** Without empty chunks, which the caller drops, the mark means lost bytes. */
  lemma {:induction false} CaptureOfNonEmpty(limit: nat, chunks: seq<seq<Byte>>)
    requires forall c :: c in chunks ==> c != []
    ensures PutAll(Empty(limit), chunks) ==
            Buf(limit, Prefix(Flatten(chunks), limit), |Flatten(chunks)| > limit)
  {
    CaptureExact(limit, chunks);
    assert forall i :: 0 <= i < |chunks| ==> chunks[i] in chunks;
  }

  /** The guard is needed: one empty chunk marks a buffer that lost nothing. */
  lemma {:induction false} EmptyChunkMarksFullBuffer()
    ensures var chunks: seq<seq<Byte>> := [[]];
            PutAll(Empty(0), chunks).truncated && Flatten(chunks) == []
  {
    var chunks: seq<seq<Byte>> := [[]];
    assert EmptyOnFull(0, chunks, 0);
    CaptureExact(0, chunks);
  }

  class CaptureBuffer {
    var buf: seq<Byte>
    const limit: nat
    var truncated: bool

    function Value(): Buf
      reads this
    {
      Buf(limit, buf, truncated)
    }

    constructor (limit: nat)
      ensures Value() == Empty(limit)
    {
      this.limit := limit;
      buf, truncated := [], false;
    }

    method Write(data: seq<Byte>)
      modifies this
      ensures Value() == Put(old(Value()), data)
      ensures old(|buf| <= limit) ==> |buf| <= limit
    {
      var remaining := limit - |buf|;
      if remaining <= 0 {
        truncated := true;
        return;
      }
      var kept := data;
      if |data| > remaining {
        kept := data[..remaining];
        truncated := true;
      }
      buf := buf + kept;
    }

    method Bytes() returns (copy: seq<Byte>)
      ensures copy == Value().content
    {
      copy := buf;
    }
  }
}
