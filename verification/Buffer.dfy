/** Buffer: the readable bytes sit between two indices of one array; writing moves them to the front or grows the
    array when there is no room behind them. */
module Buffers {

  import opened Collections
  import opened Frames

  const CHEAP_PREPEND := 8
  const INITIAL_SIZE := 1024

  class Buffer {
    var data: array<byte>
    var reader: nat
    var writer: nat

    ghost predicate Valid()
      reads this
    {
      CHEAP_PREPEND <= reader <= writer <= data.Length
    }

    /** The bytes written and not yet retrieved. */
    ghost function Contents(): (b: Bytes)
      requires Valid()
      reads this, data
    {
      data[reader..writer]
    }

    constructor ()
      ensures Valid() && fresh(data) && Contents() == []
    {
      data := new byte[CHEAP_PREPEND + INITIAL_SIZE](_ => 0);
      reader, writer := CHEAP_PREPEND, CHEAP_PREPEND;
    }

    function Readable(): (n: nat)
      requires Valid()
      reads this, data
      ensures n == |Contents()|
    {
      writer - reader
    }

    function Writable(): nat
      requires Valid()
      reads this
    {
      data.Length - writer
    }

    /** memmove of the readable bytes down to the prepend mark. */
    method Compact()
      requires Valid()
      modifies this, data
      ensures Valid() && data == old(data) && Contents() == old(Contents())
      ensures reader == CHEAP_PREPEND && writer - reader == old(writer - reader)
    {
      var n := writer - reader;
      forall i | 0 <= i < n {
        data[CHEAP_PREPEND + i] := data[reader + i];
      }
      reader := CHEAP_PREPEND;
      writer := CHEAP_PREPEND + n;
      assert Contents() == old(Contents());
    }

    /** vector::resize, which keeps every byte up to the old size. */
    method Resize(size: nat)
      requires Valid() && size >= data.Length
      modifies this
      ensures Valid() && fresh(data) && data.Length == size
      ensures reader == old(reader) && writer == old(writer) && Contents() == old(Contents())
    {
      var grown := new byte[size](_ => 0);
      forall i | 0 <= i < data.Length {
        grown[i] := data[i];
      }
      assert grown[reader..writer] == data[reader..writer];
      data := grown;
    }

    /** Room for len bytes, and not a readable byte changed: first by moving, else by growing. */
    method EnsureWritable(len: nat)
      requires Valid()
      modifies this, data
      ensures Valid() && (data == old(data) || fresh(data))
      ensures Contents() == old(Contents()) && data.Length - writer >= len
    {
      if Writable() >= len {
        return;
      }
      if Writable() + reader - CHEAP_PREPEND >= len {
        Compact();
      } else {
        Resize(writer + len);
      }
    }

    /** Copies bytes to where writing begins, and moves the write index past them. */
    method Write(bytes: Bytes)
      requires Valid() && |bytes| <= data.Length - writer
      modifies this, data
      ensures Valid() && data == old(data) && Contents() == old(Contents()) + bytes
    {
      forall i | 0 <= i < |bytes| {
        data[writer + i] := bytes[i];
      }
      writer := writer + |bytes|;
      assert data[reader..writer] == old(data[reader..writer]) + bytes;
    }

    method Append(bytes: Bytes)
      requires Valid()
      modifies this, data
      ensures Valid() && (data == old(data) || fresh(data))
      ensures Contents() == old(Contents()) + bytes
    {
      EnsureWritable(|bytes|);
      Write(bytes);
    }

    method AppendUInt32(n: nat)
      requires Valid() && n < TWO32
      modifies this, data
      ensures Valid() && (data == old(data) || fresh(data))
      ensures Contents() == old(Contents()) + Header(n)
    {
      Append(Header(n));
    }

    /** Consumes up to len bytes; consuming all of them takes the indices back to the front. */
    method Retrieve(len: nat)
      requires Valid()
      modifies this
      ensures Valid() && data == old(data)
      ensures Contents() == old(Contents())[Min(len, old(Readable()))..]
    {
      if len < Readable() {
        reader := reader + len;
      } else {
        reader, writer := CHEAP_PREPEND, CHEAP_PREPEND;
      }
    }

    method RetrieveAsString(len: nat) returns (bytes: Bytes)
      requires Valid()
      modifies this
      ensures Valid() && data == old(data)
      ensures var n := Min(len, old(Readable()));
              bytes == old(Contents())[..n] && Contents() == old(Contents())[n..]
    {
      var n := Min(len, Readable());
      bytes := data[reader..reader + n];
      assert bytes == Contents()[..n];
      Retrieve(n);
    }

    method PeekLength() returns (n: nat)
      requires Valid() && Readable() >= 4
      ensures n == PeekUInt32(Contents())
    {
      n := PeekUInt32(data[reader..reader + 4]);
    }

    /** readv into the free part of the array and an extra block on the stack; what landed in the block is
        appended. The bytes are what the socket gave; nothing depends on the size of the block. */
    method ReadFd(received: Bytes)
      requires Valid()
      modifies this, data
      ensures Valid() && (data == old(data) || fresh(data))
      ensures Contents() == old(Contents()) + received
    {
      var writable := Writable();
      if |received| <= writable {
        Write(received);
      } else {
        Write(received[..writable]);
        Append(received[writable..]);
        assert received[..writable] + received[writable..] == received;
      }
    }
  }
}
