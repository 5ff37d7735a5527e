/** gbufferedinputstream.c: a buffer in front of a base stream that behaves like a plain cursor over
    the base stream's content. */
module BufferedInputStream {
  import opened BaseStreams

  // ----- the plain stream -----

  datatype Op =
    | Fill(request: int)
    | Peek(offset: nat, count: nat)
    | Read(count: nat)
    | Skip(count: nat)
    | ReadByte
    | SetBufferSize(size: nat)
    | Tell
    | Seek(delta: int, origin: SeekType)

  datatype Result =
    | Data(bytes: seq<byte>)
    | Count(n: int)
    | Done
    | End          // a read_byte that found nothing to read
    | Error

  /** A cursor over `content` may go from c to d by answering `op` with `r`.  Only read_byte sees the
      buffer: with a buffer of size zero it never finds a byte. */
  ghost predicate PlainStep(content: seq<byte>, size: nat, c: int, op: Op, r: Result, d: int) {
    match (op, r)
    case (Read(count), Data(bytes)) =>
      && |bytes| <= count && IsAt(content, c, bytes) && d == c + |bytes|
      && (bytes == [] ==> count == 0 || c >= |content|)
    case (Skip(count), Count(n)) =>
      && 0 <= n <= count && d == c + n && (n > 0 ==> d <= |content|)
      && (n == 0 ==> count == 0 || c >= |content|)
    case (ReadByte, Data(bytes)) => |bytes| == 1 && IsAt(content, c, bytes) && d == c + 1
    case (ReadByte, End) => d == c && (c >= |content| || size == 0)
    case (Peek(offset, count), Data(bytes)) => d == c && |bytes| <= count && IsAt(content, c + offset, bytes)
    case (Fill(request), Count(n)) => d == c && 0 <= n && request >= -1 && (request >= 0 ==> n <= request)
    case (SetBufferSize(_), Done) => d == c
    case (Tell, Count(n)) => d == c && n == c
    case (Seek(delta, origin), Done) => d == Origin(content, c, origin) + delta
    case (Read(_), Error) => d == c
    case (Skip(_), Error) => d == c
    case (ReadByte, Error) => d == c
    case (Fill(_), Error) => d == c
    case (Seek(_, _), Error) => d == c
    case _ => false
  }

  /** Only a resize changes the size of the buffer, and it gives at least what was asked for. */
  predicate SizeStep(before: nat, op: Op, after: nat) {
    if op.SetBufferSize? then after >= op.size else after == before
  }

  /** What matters of a stream between two operations. */
  datatype View = View(cursor: int, size: nat, buffered: nat, offset: nat, requests: seq<nat>, failures: nat)

  /** How a read or skip of `count` bytes is served: from the buffer if that suffices, and otherwise with one
      request to the base stream, for the whole buffer or for more than that. */
  predicate Served(v: View, count: nat, w: View) {
    w.requests == v.requests + if count <= v.buffered then [] else [Max(count - v.buffered, v.size)]
  }

  /** Everything buffered and everything the base stream gave is handed out, up to `count`. */
  predicate HandedOut(v: View, count: nat, n: int, w: View) {
    w.offset >= v.offset && n == Min(count, v.buffered + (w.offset - v.offset))
  }

  /** Only the base stream makes an operation fail, apart from a fill of less than -1. */
  predicate FailStep(v: View, op: Op, r: Result, w: View) {
    w.failures >= v.failures && (r == Error ==> w.failures > v.failures || (op.Fill? && op.request < -1))
  }

  /** Peek shows what is buffered, fill asks for more of it until the buffer is full or the content ends,
      and read, skip and read_byte hand out what there is.  None of them fails while there is something. */
  predicate BufferStep(content: seq<byte>, v: View, op: Op, r: Result, w: View) {
    match (op, r)
    case (Peek(offset, count), Data(bytes)) =>
      w.buffered == v.buffered && |bytes| == if offset > v.buffered then 0 else Min(count, v.buffered - offset)
    case (Read(count), Data(bytes)) => Served(v, count, w) && HandedOut(v, count, |bytes|, w)
    case (Read(count), Error) => v.buffered == 0 && Served(v, count, w)
    case (Skip(count), Count(n)) => Served(v, count, w) && HandedOut(v, count, n, w)
    case (Skip(count), Error) => v.buffered == 0 && Served(v, count, w)
    case (ReadByte, Data(_)) => w.requests == v.requests + if v.buffered > 0 then [] else [v.size]
    case (ReadByte, _) => v.buffered == 0 && w.offset == v.offset && w.requests == v.requests + [v.size]
    case (Fill(request), Count(n)) =>
      && w.requests == v.requests + [Min(if request == -1 then v.size else request, v.size - v.buffered)]
      && w.buffered == v.buffered + n <= w.size
      && (n == 0 ==> request == 0 || v.buffered == v.size || w.cursor + w.buffered >= |content|)
    case (SetBufferSize(_), _) => w.buffered == v.buffered
    case _ => w.buffered <= w.size
  }

  ghost predicate ViewStep(content: seq<byte>, v: View, op: Op, r: Result, w: View) {
    && PlainStep(content, v.size, v.cursor, op, r, w.cursor)
    && SizeStep(v.size, op, w.size)
    && FailStep(v, op, r, w)
    && BufferStep(content, v, op, r, w)
  }

  // ----- the range test of a relative seek -----

  const TWO_63 := 0x8000_0000_0000_0000
  const TWO_64 := 0x1_0000_0000_0000_0000

  /** The goffset operand is converted to gsize, so every comparison is between unsigned numbers. */
  predicate InBuffer(delta: int, pos: nat, end: nat) {
    delta % TWO_64 <= (end - pos) % TWO_64 && delta % TWO_64 >= (0 - pos) % TWO_64
  }

  /** Taken literally the test looks for -pos <= delta <= end - pos.  As compiled it holds only for
      forward seeks from a buffer of which nothing has been read. */
  lemma InBufferExactly(delta: int, pos: nat, end: nat)
    requires -TWO_63 <= delta < TWO_63 && pos <= end < TWO_63
    ensures InBuffer(delta, pos, end) <==> pos == 0 && 0 <= delta <= end
  {
  }

  // ----- the stream -----

  class BufferedInput {
    const base: BaseInput
    var buffer: array<byte>      // buffer.Length is `len`; a NULL buffer is an empty one
    var pos: nat
    var end: nat

    /** Everything up to `end` mirrors the base stream just before its offset, read or not. */
    ghost predicate Valid()
      reads this, base, buffer
    {
      && pos <= end <= buffer.Length < TWO_63
      && end <= base.offset
      && IsAt(base.content, base.offset - end, buffer[..end])
    }

    ghost function Cursor(): int
      reads this, base
    {
      base.offset - (end - pos)
    }

    constructor (base: BaseInput, size: nat)
      requires size < TWO_63
      ensures Valid() && fresh(buffer) && this.base == base && Cursor() == base.offset && buffer.Length == size
    {
      this.base := base;
      buffer := new byte[size];
      pos, end := 0, 0;
    }

    /** g_buffered_input_stream_set_buffer_size */
    method Resize(size: nat)
      requires Valid() && size < TWO_63
      modifies this
      ensures Valid() && (buffer == old(buffer) || fresh(buffer))
      ensures Cursor() == old(Cursor()) && buffer[pos..end] == old(buffer[pos..end])
      ensures buffer.Length == if size > old(end - pos) then size else old(end - pos)
    {
      if buffer.Length == size { return; }
      var inBuffer := end - pos;
      var newSize := if size > inBuffer then size else inBuffer;
      UnreadIsContent(inBuffer);
      var copy := Copied(buffer, pos, inBuffer, newSize);
      buffer, pos, end := copy, 0, inBuffer;
    }

    /** A new array of the given size that starts with n bytes of another. */
    static method Copied(source: array<byte>, start: nat, n: nat, size: nat) returns (copy: array<byte>)
      requires start + n <= source.Length && n <= size
      ensures fresh(copy) && copy.Length == size && copy[..n] == source[start..start + n]
    {
      copy := new byte[size];
      forall i | 0 <= i < n { copy[i] := source[start + i]; }
    }

    /** compact_buffer: moves the unread bytes to the front. */
    method Compact()
      requires Valid()
      modifies this, buffer
      ensures Valid() && buffer == old(buffer) && pos == 0 && end == old(end - pos)
      ensures buffer[..end] == old(buffer[pos..end]) && Cursor() == old(Cursor())
    {
      var size := end - pos;
      ghost var unread := buffer[pos..end];
      UnreadIsContent(size);
      forall i | 0 <= i < size { buffer[i] := buffer[pos + i]; }
      assert forall i :: 0 <= i < size ==> buffer[i] == unread[i];
      pos, end := 0, size;
      assert buffer[..end] == unread;
    }

    /** g_buffered_input_stream_fill and its implementation; -1 asks for a full buffer. */
    method FillBuffer(request: int) returns (n: int)
      requires Valid()
      modifies this, base, buffer
      ensures Valid() && buffer == old(buffer) && Cursor() == old(Cursor())
      ensures -1 <= n
      ensures n == -1 ==> end - pos == old(end - pos)
      ensures n >= 0 ==> end - pos == old(end - pos) + n
      ensures n == 0 ==> request == 0 || old(end - pos) == buffer.Length || base.offset >= |base.content|
      ensures n >= 0 ==> request >= -1 && (request >= 0 ==> n <= request)
      ensures n == -1 ==> request < -1 || base.failures > old(base.failures)
      ensures request >= -1 ==>
        base.requests ==
        old(base.requests) + [Min(if request == -1 then buffer.Length else request, buffer.Length - old(end - pos))]
      ensures old(end) == 0 ==> pos == old(pos)
      ensures base.failures >= old(base.failures)
    {
      n := -1;
      if request < -1 { return; }
      var count := if request == -1 then buffer.Length else request;
      var inBuffer := end - pos;
      if buffer.Length - inBuffer < count {
        count := buffer.Length - inBuffer;
      }
      if buffer.Length - end < count {
        Compact();
      }
      n := ReadBehind(count);
    }

    /** Reads up to `count` bytes from the base stream into the space behind the buffered bytes. */
    method ReadBehind(count: nat) returns (n: int)
      requires Valid() && end + count <= buffer.Length
      modifies this`end, base, buffer
      ensures Valid() && Cursor() == old(Cursor()) && -1 <= n
      ensures end == old(end) + if n == -1 then 0 else n
      ensures n == 0 && count > 0 ==> base.offset >= |base.content|
      ensures n <= count && base.failures == old(base.failures) + if n == -1 then 1 else 0
      ensures base.requests == old(base.requests) + [count]
      ensures buffer[..old(end)] == old(buffer[..end])
    {
      var data;
      n, data := base.Read(count);
      if n > 0 {
        Joined(base.content, base.offset - n - end, buffer[..end], data);
        Store(data);
        assert buffer[..old(end)] == buffer[..end][..old(end)];
      }
    }

    /** The base stream has written `data` behind the buffered bytes. */
    method Store(data: seq<byte>)
      requires end + |data| <= buffer.Length
      modifies this`end, buffer
      ensures end == old(end) + |data| && buffer[..end] == old(buffer[..end]) + data
    {
      forall i | 0 <= i < |data| { buffer[end + i] := data[i]; }
      end := end + |data|;
    }

    /** What the next unread bytes are. */
    lemma UnreadIsContent(n: nat)
      requires Valid() && pos + n <= end
      ensures IsAt(base.content, Cursor(), buffer[pos..pos + n])
    {
      Piece(base.content, base.offset - end, buffer[..end], pos, pos + n);
      assert buffer[pos..pos + n] == buffer[..end][pos..pos + n];
    }

    /** g_buffered_input_stream_peek */
    method PeekBytes(offset: nat, count: nat) returns (data: seq<byte>)
      requires Valid()
      ensures IsAt(base.content, Cursor() + offset, data)
      ensures |data| == if offset > end - pos then 0 else Min(count, end - pos - offset)
    {
      var available := end - pos;
      if offset > available { return []; }
      var last := Min(offset + count, available);
      data := buffer[pos + offset..pos + last];
      Piece(base.content, base.offset - end, buffer[..end], pos + offset, pos + last);
      assert data == buffer[..end][pos + offset..pos + last];
    }

    /** Takes up to `count` buffered bytes. */
    method Take(count: nat) returns (data: seq<byte>)
      requires Valid()
      modifies this`pos
      ensures Valid() && |data| == Min(count, old(end - pos)) && pos == old(pos) + |data|
      ensures IsAt(base.content, old(Cursor()), data) && Cursor() == old(Cursor()) + |data|
    {
      var n := Min(count, end - pos);
      UnreadIsContent(n);
      data := buffer[pos..pos + n];
      pos := pos + n;
    }

    /** g_buffered_input_stream_read */
    method ReadBytes(count: nat) returns (n: int, data: seq<byte>)
      requires Valid()
      modifies this, base, buffer
      ensures Valid() && buffer == old(buffer) && -1 <= n && |data| == (if n == -1 then 0 else n)
      ensures PlainStep(base.content, buffer.Length, old(Cursor()), Read(count),
                        if n == -1 then Error else Data(data), Cursor())
      ensures Served(old(Look()), count, Look())
      ensures if n == -1 then old(end - pos) == 0 else HandedOut(old(Look()), count, n, Look())
      ensures base.failures >= old(base.failures) + if n == -1 then 1 else 0
    {
      data := Take(count);
      if |data| == count { return count, data; }

      pos, end := 0, 0;
      n, data := ReadOn(data, count);
    }

    /** Adds to what the buffer had, which was not enough. */
    method ReadOn(head: seq<byte>, count: nat) returns (n: int, data: seq<byte>)
      requires Valid() && end == 0 && |head| < count && IsAt(base.content, Cursor() - |head|, head)
      modifies this, base, buffer
      ensures Valid() && buffer == old(buffer) && -1 <= n && |data| == (if n == -1 then 0 else n)
      ensures PlainStep(base.content, buffer.Length, old(Cursor()) - |head|, Read(count),
                        if n == -1 then Error else Data(data), Cursor())
      ensures base.requests == old(base.requests) + [Max(count - |head|, buffer.Length)]
      ensures if n == -1 then head == [] else
        base.offset >= old(base.offset) && n == Min(count, |head| + (base.offset - old(base.offset)))
      ensures base.failures >= old(base.failures) + if n == -1 then 1 else 0
    {
      var more;
      n, more := ReadRest(count - |head|);
      if n < 0 && head == [] { return -1, []; }
      ReadJoined(base.content, buffer.Length, old(Cursor()) - |head|, count, head, more);
      data := head + more;
      n := |data|;
    }

    /** The part of a read that the buffer could not serve: a large one goes past the buffer. */
    method ReadRest(count: nat) returns (n: int, data: seq<byte>)
      requires Valid() && end == 0 && count > 0
      modifies this, base, buffer
      ensures Valid() && buffer == old(buffer) && -1 <= n && |data| == (if n == -1 then 0 else Min(n, count))
      ensures IsAt(base.content, old(Cursor()), data) && Cursor() == old(Cursor()) + |data|
      ensures n == 0 ==> old(Cursor()) >= |base.content|
      ensures base.requests == old(base.requests) + [Max(count, buffer.Length)]
      ensures base.offset >= old(base.offset) && |data| == Min(base.offset - old(base.offset), count)
      ensures base.failures >= old(base.failures) + if n == -1 then 1 else 0
    {
      if count > buffer.Length {
        n, data := base.Read(count);
      } else {
        n := FillBuffer(buffer.Length);
        data := [];
        if n >= 0 { data := Take(count); }
      }
    }

    /** g_buffered_input_stream_skip */
    method SkipBytes(count: nat) returns (n: int)
      requires Valid()
      modifies this, base, buffer
      ensures Valid() && buffer == old(buffer) && -1 <= n
      ensures PlainStep(base.content, buffer.Length, old(Cursor()), Skip(count),
                        if n == -1 then Error else Count(n), Cursor())
      ensures Served(old(Look()), count, Look())
      ensures if n == -1 then old(end - pos) == 0 else HandedOut(old(Look()), count, n, Look())
      ensures base.failures >= old(base.failures) + if n == -1 then 1 else 0
    {
      var data := Take(count);
      var skipped := |data|;
      if skipped == count { return count; }

      pos, end := 0, 0;
      n := SkipRest(count - skipped);
      if n < 0 && skipped == 0 { return -1; }
      n := if n < 0 then skipped else skipped + n;
    }

    /** The part of a skip that the buffer could not serve. */
    method SkipRest(count: nat) returns (n: int)
      requires Valid() && end == 0 && count > 0
      modifies this, base, buffer
      ensures Valid() && buffer == old(buffer) && -1 <= n
      ensures Cursor() == old(Cursor()) + (if n == -1 then 0 else n) && (n > 0 ==> Cursor() <= |base.content|)
      ensures n == 0 ==> old(Cursor()) >= |base.content|
      ensures base.requests == old(base.requests) + [Max(count, buffer.Length)]
      ensures base.offset >= old(base.offset) && (n == -1 ==> base.offset == old(base.offset))
      ensures n >= 0 ==> n == Min(base.offset - old(base.offset), count)
      ensures base.failures >= old(base.failures) + if n == -1 then 1 else 0
    {
      if count > buffer.Length {
        n := base.Skip(count);
      } else {
        n := FillBuffer(buffer.Length);
        if n >= 0 {
          var data := Take(count);
          n := |data|;
        }
      }
    }

    /** g_buffered_input_stream_read_byte, which reports an error and the end alike. */
    method ReadOneByte() returns (r: int, failed: bool)
      requires Valid()
      modifies this, base, buffer
      ensures Valid() && buffer == old(buffer) && -1 <= r < 256 && (failed ==> r == -1)
      ensures PlainStep(base.content, buffer.Length, old(Cursor()), ReadByte,
                        if failed then Error else if r == -1 then End else Data([r as byte]), Cursor())
      ensures base.requests == old(base.requests) + if old(end - pos) > 0 then [] else [buffer.Length]
      ensures r == -1 ==> old(end - pos) == 0 && base.offset == old(base.offset)
      ensures base.failures >= old(base.failures) + if failed then 1 else 0
    {
      failed := false;
      if end == pos {
        pos, end := 0, 0;
        var n := FillBuffer(buffer.Length);
        if n <= 0 { return -1, n < 0; }
      }
      var data := Take(1);
      assert data == [data[0]];
      r := data[0] as int;
    }

    /** g_buffered_input_stream_tell */
    method TellCursor() returns (t: int)
      requires Valid()
      ensures t == Cursor()
    {
      var available := end - pos;
      t := base.offset - available;
    }

    /** g_buffered_input_stream_seek: both outcomes of the range test reach the same cursor. */
    method SeekTo(delta: int, origin: SeekType) returns (ok: bool)
      requires Valid() && -TWO_63 <= delta < TWO_63
      modifies this, base
      ensures Valid() && buffer == old(buffer)
      ensures PlainStep(base.content, buffer.Length, old(Cursor()), Seek(delta, origin),
                        if ok then Done else Error, Cursor())
      ensures ok && origin == SeekSet ==> Cursor() == delta
      ensures ok && origin == SeekCur ==> Cursor() == old(Cursor()) + delta
      ensures ok && origin == SeekEnd ==> Cursor() == |base.content| + delta
      ensures if origin == SeekCur && old(pos) == 0 && 0 <= delta <= old(end)
              then ok && end == old(end) && base.offset == old(base.offset) else ok ==> end == 0
      ensures base.requests == old(base.requests)
      ensures base.failures >= old(base.failures) + if ok then 0 else 1
    {
      var distance := delta;
      if origin == SeekCur {
        InBufferExactly(delta, pos, end);
        if InBuffer(delta, pos, end) {
          pos := pos + delta;
          return true;
        }
        distance := distance - (end - pos);
      }
      ok := base.Seek(distance, origin);
      if ok {
        pos, end := 0, 0;
      }
    }

    /** The range test could as well be the signed one it looks like: every position it would accept
        is inside the mirror, so moving within the buffer would be right. */
    lemma SignedTestWouldDo(delta: int)
      requires Valid() && 0 <= pos + delta <= end
      ensures IsAt(base.content, Cursor() + delta, buffer[pos + delta..end])
    {
    }

    // ----- whole runs -----

    ghost function Look(): View
      requires Valid()
      reads this, base, buffer
    {
      View(Cursor(), buffer.Length, end - pos, base.offset, base.requests, base.failures)
    }

    method Perform(op: Op) returns (r: Result)
      requires Valid() && Expressible(op)
      modifies this, base, buffer
      ensures Valid() && (buffer == old(buffer) || fresh(buffer))
      ensures ViewStep(base.content, old(Look()), op, r, Look())
    {
      if op.Fill? {
        var n := FillBuffer(op.request);
        r := if n == -1 then Error else Count(n);
      } else if op.Peek? || op.SetBufferSize? || op.Tell? {
        r := Stay(op);
      } else {
        r := Move(op);
      }
    }

    /** The operations that keep the cursor and the unread bytes. */
    method Stay(op: Op) returns (r: Result)
      requires Valid() && Expressible(op) && (op.Peek? || op.SetBufferSize? || op.Tell?)
      modifies this
      ensures Valid() && (buffer == old(buffer) || fresh(buffer))
      ensures ViewStep(base.content, old(Look()), op, r, Look())
    {
      match op {
        case Peek(offset, count) =>
          var data := PeekBytes(offset, count);
          r := Data(data);
        case SetBufferSize(size) =>
          Resize(size);
          r := Done;
        case Tell =>
          var t := TellCursor();
          r := Count(t);
      }
    }

    /** The operations that move it. */
    method Move(op: Op) returns (r: Result)
      requires Valid() && Expressible(op) && (op.Read? || op.Skip? || op.ReadByte? || op.Seek?)
      modifies this, base, buffer
      ensures Valid() && buffer == old(buffer)
      ensures ViewStep(base.content, old(Look()), op, r, Look())
    {
      match op {
        case Read(count) =>
          var n, data := ReadBytes(count);
          r := if n == -1 then Error else Data(data);
        case Skip(count) =>
          var n := SkipBytes(count);
          r := if n == -1 then Error else Count(n);
        case ReadByte =>
          var b, failed := ReadOneByte();
          r := if failed then Error else if b == -1 then End else Data([b as byte]);
        case Seek(delta, origin) =>
          var ok := SeekTo(delta, origin);
          r := if ok then Done else Error;
      }
    }

    /** Any sequence of operations answers exactly as a plain cursor over the base content could, and
        fails only where the base stream fails. */
    method Run(ops: seq<Op>) returns (results: seq<Result>, ghost views: seq<View>)
      requires Valid() && forall i :: 0 <= i < |ops| ==> Expressible(ops[i])
      modifies this, base, buffer
      ensures Valid() && |results| == |ops| && |views| == |ops| + 1
      ensures views[0] == old(Look()) && views[|ops|] == Look()
      ensures forall i :: 0 <= i < |ops| ==> ViewStep(base.content, views[i], ops[i], results[i], views[i + 1])
    {
      results, views := [], [Look()];
      for i := 0 to |ops|
        invariant Valid() && (buffer == old(buffer) || fresh(buffer))
        invariant |results| == i && |views| == i + 1
        invariant views[0] == old(Look()) && views[i] == Look()
        invariant forall k :: 0 <= k < i ==> ViewStep(base.content, views[k], ops[k], results[k], views[k + 1])
      {
        var r := Perform(ops[i]);
        results, views := results + [r], views + [Look()];
      }
    }
  }

  /** Sizes fit a gsize that can be allocated, and seek offsets fit a goffset. */
  predicate Expressible(op: Op) {
    match op
    case SetBufferSize(size) => size < TWO_63
    case Seek(delta, _) => -TWO_63 <= delta < TWO_63
    case _ => true
  }

  function Min(a: int, b: int): int { if a < b then a else b }

  function Max(a: int, b: int): int { if a < b then b else a }

  lemma Piece(content: seq<byte>, at: int, data: seq<byte>, i: nat, j: nat)
    requires IsAt(content, at, data) && i <= j <= |data|
    ensures IsAt(content, at + i, data[i..j])
  {
    if i < j {
      var whole, part := content[at..at + |data|], content[at + i..at + j];
      assert forall k :: 0 <= k < j - i ==> part[k] == whole[i + k];
      assert part == whole[i..j];
    }
  }

  /** What the buffer had and what came after it make one read. */
  lemma ReadJoined(content: seq<byte>, size: nat, c: int, count: nat, first: seq<byte>, second: seq<byte>)
    requires IsAt(content, c, first) && IsAt(content, c + |first|, second) && |first| + |second| <= count
    requires first + second == [] ==> count == 0 || c >= |content|
    ensures PlainStep(content, size, c, Read(count), Data(first + second), c + |first| + |second|)
  {
    Joined(content, c, first, second);
  }

  /** Adjacent pieces of the content make one piece. */
  lemma Joined(content: seq<byte>, at: int, first: seq<byte>, second: seq<byte>)
    requires IsAt(content, at, first) && IsAt(content, at + |first|, second)
    ensures IsAt(content, at, first + second)
  {
  }
}
