/** The growable byte buffer of the network library: a prependable gap, the readable
    bytes and the writable room, in one vector. It behaves as a queue of bytes. */
module ByteBuffer {

  import opened Bytes

  const CHEAP_PREPEND := 8
  const EXTRA_BUF := 65536

  /** What is left of a byte queue after taking len bytes: taking too many empties it. */
  function Retrieved(s: seq<byte>, len: nat): seq<byte> {
    if len < |s| then s[len..] else []
  }

  lemma SameSlice(s: seq<byte>, i: nat, t: seq<byte>, j: nat, n: nat)
    requires i + n <= |s| && j + n <= |t| && forall k :: i <= k < i + n ==> s[k] == t[k - i + j]
    ensures s[i..i + n] == t[j..j + n]
  {
    var a, b := s[i..i + n], t[j..j + n];
    forall k | 0 <= k < |a|
      ensures a[k] == b[k]
    {
      assert a[k] == s[i + k];
    }
  }

  class Buffer {
    var buffer: array<byte>
    var readerIndex: nat
    var writerIndex: nat

    ghost predicate Valid(): (v: bool)
      reads this
      ensures v ==> 8 <= readerIndex
    {
      CHEAP_PREPEND <= readerIndex <= writerIndex <= buffer.Length
    }

    ghost function Contents(): seq<byte>
      requires Valid()
      reads this, buffer
    {
      buffer[readerIndex..writerIndex]
    }

    constructor (initialSize: nat := 1024)
      ensures Valid() && fresh(buffer) && Contents() == [] && WritableBytes() == initialSize
      ensures readerIndex == 8 && buffer.Length == 8 + initialSize
    {
      buffer := new byte[CHEAP_PREPEND + initialSize](_ => 0);
      readerIndex := CHEAP_PREPEND;
      writerIndex := CHEAP_PREPEND;
    }

    function ReadableBytes(): (n: nat)
      requires Valid()
      reads this, buffer
      ensures n == |Contents()|
    {
      writerIndex - readerIndex
    }

    function WritableBytes(): nat
      requires Valid()
      reads this
    {
      buffer.Length - writerIndex
    }

    function PrependableBytes(): nat
      reads this
    {
      readerIndex
    }

    method Retrieve(len: nat)
      requires Valid()
      modifies this`readerIndex, this`writerIndex
      ensures Valid() && Contents() == Retrieved(old(Contents()), len)
    {
      if len < ReadableBytes() {
        readerIndex := readerIndex + len;
      } else {
        RetrieveAll();
      }
    }

    method RetrieveAll()
      requires Valid()
      modifies this`readerIndex, this`writerIndex
      ensures Valid() && Contents() == []
    {
      readerIndex := CHEAP_PREPEND;
      writerIndex := CHEAP_PREPEND;
    }

    /** The next len bytes of the vector; those past the readable ones are stale. */
    method RetrieveAsString(len: nat) returns (result: seq<byte>)
      requires Valid() && readerIndex + len <= buffer.Length
      modifies this`readerIndex, this`writerIndex
      ensures Valid() && result == old(buffer[readerIndex..readerIndex + len])
      ensures if len <= old(ReadableBytes()) then result + Contents() == old(Contents())
              else old(Contents()) <= result && Contents() == []
    {
      result := buffer[readerIndex..readerIndex + len];
      Retrieve(len);
    }

    method RetrieveAllAsString() returns (result: seq<byte>)
      requires Valid()
      modifies this`readerIndex, this`writerIndex
      ensures Valid() && result == old(Contents()) && Contents() == []
    {
      result := RetrieveAsString(ReadableBytes());
    }

    method EnsureWriteableBytes(len: nat)
      requires Valid()
      modifies this, buffer
      ensures Valid() && (buffer == old(buffer) || fresh(buffer))
      ensures Contents() == old(Contents()) && WritableBytes() >= len
    {
      if WritableBytes() < len {
        MakeSpace(len);
      }
    }

    /** Makes room by growing the vector, or by moving the readable bytes down over
        the prependable gap. */
    method MakeSpace(len: nat)
      requires Valid() && WritableBytes() < len
      modifies this, buffer
      ensures Valid() && (buffer == old(buffer) || fresh(buffer))
      ensures Contents() == old(Contents()) && WritableBytes() >= len
    {
      if WritableBytes() + PrependableBytes() < len + CHEAP_PREPEND {
        Resize(writerIndex + len);
      } else {
        MoveDown();
      }
    }

    method Resize(size: nat)
      requires Valid() && size >= buffer.Length
      modifies this`buffer
      ensures Valid() && fresh(buffer) && buffer.Length == size
      ensures Contents() == old(Contents())
    {
      var grown := new byte[size](_ => 0);
      for i := 0 to buffer.Length
        modifies grown
        invariant forall k :: 0 <= k < i ==> grown[k] == buffer[k]
      {
        grown[i] := buffer[i];
      }
      buffer := grown;
    }

    /** Copies the readable bytes to the front, lowest first; source and destination
        may overlap. */
    method MoveDown()
      requires Valid()
      modifies this`readerIndex, this`writerIndex, buffer
      ensures Valid() && readerIndex == CHEAP_PREPEND
      ensures Contents() == old(Contents())
    {
      var readable, from := ReadableBytes(), readerIndex;
      ghost var was := buffer[..];
      for i := 0 to readable
        modifies buffer
        invariant forall k :: CHEAP_PREPEND <= k < CHEAP_PREPEND + i ==> buffer[k] == was[k - CHEAP_PREPEND + from]
        invariant forall k :: from + i <= k < buffer.Length ==> buffer[k] == was[k]
      {
        buffer[CHEAP_PREPEND + i] := buffer[from + i];
      }
      SameSlice(buffer[..], CHEAP_PREPEND, was, from, readable);
      readerIndex := CHEAP_PREPEND;
      writerIndex := readerIndex + readable;
    }

    /** Writes bytes at the given place of the vector. */
    method CopyTo(start: nat, bytes: seq<byte>)
      requires start + |bytes| <= buffer.Length
      modifies buffer
      ensures buffer[..] == old(buffer[..start]) + bytes + old(buffer[start + |bytes|..])
    {
      for i := 0 to |bytes|
        invariant forall k :: start <= k < start + i ==> buffer[k] == bytes[k - start]
        invariant forall k :: 0 <= k < start || start + i <= k < buffer.Length ==> buffer[k] == old(buffer[k])
      {
        buffer[start + i] := bytes[i];
      }
    }

    method Append(bytes: seq<byte>)
      requires Valid()
      modifies this, buffer
      ensures Valid() && (buffer == old(buffer) || fresh(buffer))
      ensures Contents() == old(Contents()) + bytes
    {
      EnsureWriteableBytes(|bytes|);
      CopyTo(writerIndex, bytes);
      writerIndex := writerIndex + |bytes|;
    }

    /** Reads from a descriptor into the writable room and, when that is less than the
        extra buffer, into the extra buffer after it. `arrived` is what the kernel
        delivers; an error is None. */
    method ReadFd(arrived: seq<byte>, failed: bool) returns (n: int)
      requires Valid()
      requires |arrived| <= WritableBytes() + (if WritableBytes() < EXTRA_BUF then EXTRA_BUF else 0)
      modifies this, buffer
      ensures Valid() && (buffer == old(buffer) || fresh(buffer))
      ensures failed ==> n == -1 && Contents() == old(Contents())
      ensures !failed ==> n == |arrived| && Contents() == old(Contents()) + arrived
    {
      if failed {
        return -1;
      }
      var writeable := WritableBytes();
      n := |arrived|;
      if n < writeable {
        CopyTo(writerIndex, arrived);
        writerIndex := writerIndex + n;
      } else {
        CopyTo(writerIndex, arrived[..writeable]);
        var extrabuf := arrived[writeable..];
        writerIndex := buffer.Length;
        assert Contents() == old(Contents()) + arrived[..writeable];
        Append(extrabuf);
      }
    }
  }
}
