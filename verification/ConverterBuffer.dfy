/** The growing Buffer that gconverterinputstream.c and gconverteroutputstream.c share. */
module ConverterBuffer {
  import opened BaseStreams

  const INITIAL_BUFFER_SIZE := 4096

  class Buffer {
    var data: array<byte>        // data.Length is `size`
    var start: nat
    var end: nat

    ghost predicate Valid()
      reads this
    {
      start <= end <= data.Length && (start == end ==> start == 0)
    }

    ghost function Contents(): seq<byte>
      requires Valid()
      reads this, data
    {
      data[start..end]
    }

    function Size(): nat
      requires Valid()
      reads this
    {
      end - start
    }

    function TailSpace(): nat
      requires Valid()
      reads this
    {
      data.Length - end
    }

    constructor ()
      ensures Valid() && fresh(data) && Contents() == [] && data.Length == 0
    {
      data := new byte[0];
      start, end := 0, 0;
    }

    /** buffer_consumed */
    method Consumed(count: nat)
      requires Valid() && count <= Size()
      modifies this`start, this`end
      ensures Valid() && Contents() == old(Contents())[count..]
    {
      start := start + count;
      if start == end {
        start, end := 0, 0;
      }
    }

    /** buffer_read */
    method Take(count: nat) returns (bytes: seq<byte>)
      requires Valid() && count <= Size()
      modifies this`start, this`end
      ensures Valid() && bytes == old(Contents())[..count] && Contents() == old(Contents())[count..]
    {
      bytes := data[start..start + count];
      assert bytes == data[start..end][..count];
      Consumed(count);
    }

    /** compact_buffer */
    method Compact()
      requires Valid()
      modifies this`start, this`end, data
      ensures Valid() && Contents() == old(Contents()) && start == 0
    {
      ghost var was := data[start..end];
      var inBuffer := end - start;
      forall i | 0 <= i < inBuffer { data[i] := data[start + i]; }
      assert forall i :: 0 <= i < inBuffer ==> data[i] == was[i];
      start, end := 0, inBuffer;
      assert data[start..end] == was;
    }

    /** grow_buffer */
    method Grow()
      requires Valid()
      modifies this
      ensures Valid() && fresh(data) && Contents() == old(Contents()) && start == 0
      ensures data.Length == if old(data.Length) == 0 then INITIAL_BUFFER_SIZE else 2 * old(data.Length)
    {
      var size := if data.Length == 0 then INITIAL_BUFFER_SIZE else 2 * data.Length;
      var inBuffer := end - start;
      var copy := new byte[size];
      forall i | 0 <= i < inBuffer { copy[i] := data[start + i]; }
      assert copy[..inBuffer] == data[start..end];
      data, start, end := copy, 0, inBuffer;
    }

    /** buffer_ensure_space: terminates, keeps the contents, and leaves room for `atLeast` bytes,
        counting those already there. */
    method EnsureSpace(atLeast: nat)
      requires Valid()
      modifies this, data
      ensures Valid() && (data == old(data) || fresh(data)) && Contents() == old(Contents())
      ensures Size() + TailSpace() >= atLeast
      ensures data.Length >= old(data.Length) && data.Length >= atLeast
      ensures old(data.Length) >= atLeast ==> data == old(data)
      ensures data == old(data) || data.Length <= INITIAL_BUFFER_SIZE || data.Length < 2 * atLeast
    {
      var inBuffer := Size();
      if inBuffer >= atLeast { return; }
      var leftToFill := TailSpace();
      if inBuffer + leftToFill >= atLeast {
        if inBuffer < 256 { Compact(); }
      } else if data.Length >= atLeast {
        Compact();
      } else {
        while data.Length < atLeast
          invariant Valid() && (data == old(data) || (fresh(data) && start == 0))
          invariant data == old(data) ==> data.Length < atLeast
          invariant data == old(data) || data.Length <= INITIAL_BUFFER_SIZE || data.Length < 2 * atLeast
          invariant Contents() == old(Contents()) && data.Length >= old(data.Length)
          decreases atLeast - data.Length
        {
          Grow();
        }
      }
    }

    /** Bytes written by someone else into the tail space, announced by moving `end`. */
    method Received(bytes: seq<byte>)
      requires Valid() && |bytes| <= TailSpace()
      modifies this`end, data
      ensures Valid() && Contents() == old(Contents()) + bytes
    {
      ghost var was := data[start..end];
      forall i | 0 <= i < |bytes| { data[end + i] := bytes[i]; }
      end := end + |bytes|;
      assert data[start..end] == was + bytes;
    }

    /** buffer_append */
    method Append(bytes: seq<byte>)
      requires Valid()
      modifies this, data
      ensures Valid() && (data == old(data) || fresh(data)) && Contents() == old(Contents()) + bytes
    {
      EnsureSpace(Size() + |bytes|);
      Received(bytes);
    }
  }
}
