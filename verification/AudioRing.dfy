/** The device's audio buffer: a fixed ring of bytes that takes a frame whole or not at all. */
module AudioRing {
  import opened Wrappers
  import opened CaptureProtocol

  class RingOfBytes {
    const data: array<byte>
    var start: nat
    var size: nat

    ghost predicate Valid()
      reads this
    {
      data.Length == MAX_QUEUED_AUDIO_BYTES && start < data.Length && size <= data.Length
    }

    /** Where the k-th byte lies. */
    function Place(k: nat): (p: nat)
      requires Valid() && k <= data.Length
      reads this
      ensures p < data.Length
    {
      if start + k < data.Length then start + k else start + k - data.Length
    }

    /** The bytes not yet taken out, oldest first. */
    ghost function Contents(): (s: Bytes)
      requires Valid()
      reads this, data
      ensures |s| == size
    {
      seq(size, k requires Valid() && 0 <= k < size reads this, data => data[Place(k)])
    }

    constructor ()
      ensures Valid() && Contents() == [] && fresh(data)
    {
      data := new byte[MAX_QUEUED_AUDIO_BYTES];
      start, size := 0, 0;
    }

    method Clear()
      requires Valid()
      modifies this
      ensures Valid() && Contents() == []
    {
      start, size := 0, 0;
    }

    /** Writes the bytes behind those there are, if they all fit. */
    method WriteWithoutReplacement(bytes: Bytes) returns (ok: bool)
      requires Valid()
      modifies this, data
      ensures Valid() && (ok <==> |old(Contents())| + |bytes| <= MAX_QUEUED_AUDIO_BYTES)
      ensures Contents() == if ok then old(Contents()) + bytes else old(Contents())
    {
      if size + |bytes| > data.Length { return false; }
      ghost var before := Contents();
      for i := 0 to |bytes|
        invariant Valid() && size == |before| && start == old(start)
        invariant forall k :: 0 <= k < size ==> data[Place(k)] == before[k]
        invariant forall k :: 0 <= k < i ==> data[Place(size + k)] == bytes[k]
      {
        data[Place(size + i)] := bytes[i];
      }
      size := size + |bytes|;
      assert Contents() == before + bytes;
      return true;
    }

    /** Takes the oldest n bytes out. */
    method Take(n: nat) returns (chunk: Bytes)
      requires Valid() && n <= |Contents()|
      modifies this
      ensures Valid() && chunk == old(Contents())[..n] && Contents() == old(Contents())[n..]
    {
      ghost var before := Contents();
      chunk := [];
      for i := 0 to n
        invariant chunk == before[..i]
      {
        chunk := chunk + [data[Place(i)]];
      }
      start, size := Place(n), size - n;
      assert forall k :: 0 <= k < size ==> Contents()[k] == before[n + k];
    }
  }
}
