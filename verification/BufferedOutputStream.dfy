/** gbufferedoutputstream.c: a buffer in front of a base stream that behaves like writing to the base
    stream's file directly. */
module BufferedOutputStream {
  import opened BaseStreams

  // ----- the plain stream -----

  /** What the caller believes to have written, and where the next byte goes. */
  datatype File = File(image: seq<byte>, tell: nat, accepted: seq<byte>)

  datatype Op =
    | Write(data: seq<byte>)
    | Flush
    | SetBufferSize(size: nat)
    | SetAutoGrow(grow: bool)
    | Tell
    | Seek(delta: int, origin: SeekType)
    | Truncate(length: nat)

  datatype Result = Count(n: nat) | Done | Error

  ghost predicate PlainStep(f: File, op: Op, r: Result, g: File) {
    match (op, r)
    case (Write(data), Count(n)) =>
      n <= |data| && g == With(f.image, f.tell, f.accepted, data[..n])
    case (Flush, Done) => g == f
    case (SetBufferSize(_), Done) => g == f
    case (SetAutoGrow(_), Done) => g == f
    case (Tell, Count(n)) => g == f && n == f.tell
    case (Seek(delta, origin), Done) =>
      var target := Origin(f.image, f.tell, origin) + delta;
      target >= 0 && g == f.(tell := target)
    case (Truncate(length), Done) => g == f.(image := Resized(f.image, length))
    case (Write(_), Error) => g == f
    case (Flush, Error) => g == f
    case (Seek(_, _), Error) => g == f
    case (Truncate(_), Error) => g == f
    case _ => false
  }

  /** What matters of a stream between two operations: the file as the caller believes it, the one the
      base stream has, and the buffer. */
  datatype View = View(file: File, flushed: File, size: nat, buffered: nat, grow: bool, flushes: nat, failures: nat)

  function Min(a: int, b: int): int { if a < b then a else b }

  function Max(a: int, b: int): int { if a < b then b else a }

  /** A growing buffer takes everything and grows by as much or to twice its size; any other takes as much
      as fits, which is a bufferful after it was full.  Only then the base stream is written to, and only
      by failing there a write fails. */
  predicate WriteStep(v: View, data: seq<byte>, r: Result, w: View) {
    var space := v.size - v.buffered;
    && (v.grow && |data| > space ==> r == Count(|data|) && w.size == Max(2 * v.size, v.size + |data|))
    && (!(v.grow && |data| > space) ==>
          && w.size == v.size
          && (r == Error || (r.Count? && r.n == Min(|data|, if space == 0 then v.size else space))))
    && (space > 0 || (v.grow && |data| > space) ==> r != Error && w.flushed == v.flushed)
  }

  /** A step of the buffered stream is one of the plain stream, and fails only by a base failure. */
  ghost predicate ViewStep(v: View, op: Op, r: Result, w: View) {
    && PlainStep(v.file, op, r, w.file)
    && w.failures >= v.failures + (if r == Error then 1 else 0)
    && w.grow == (if op.SetAutoGrow? then op.grow else v.grow)
    && match op
       case Write(data) => WriteStep(v, data, r, w)
       case Flush => w.size == v.size && (r == Done ==> w.flushed == w.file && w.flushes == v.flushes + 1)
       case SetBufferSize(size) => w.size == Max(size, v.buffered) && w.buffered == v.buffered && w.flushed == v.flushed
       case SetAutoGrow(_) => w.size == v.size && w.flushed == v.flushed
       case Tell => w.size == v.size && w.flushed == v.flushed
       case Seek(_, _) => w.size == v.size && (r == Done ==> w.flushed == w.file)
       case Truncate(_) => w.size == v.size && (r == Done ==> w.flushed == w.file)
  }

  /** A file with some bytes still to be written to it. */
  function With(image: seq<byte>, offset: nat, written: seq<byte>, rest: seq<byte>): File {
    File(Overlay(image, offset, rest), offset + |rest|, written + rest)
  }

  /** Writing a part of the rest does not change the whole. */
  lemma PartWritten(image: seq<byte>, offset: nat, written: seq<byte>, rest: seq<byte>, n: nat)
    requires n <= |rest|
    ensures With(Overlay(image, offset, rest[..n]), offset + n, written + rest[..n], rest[n..]) ==
            With(image, offset, written, rest)
  {
  }

  lemma AcceptedJoins(written: seq<byte>, rest: seq<byte>, more: seq<byte>)
    ensures written + (rest + more) == written + rest + more
  {
  }

  /** Adding to the rest is writing to the whole. */
  lemma RestExtended(image: seq<byte>, offset: nat, written: seq<byte>, rest: seq<byte>, more: seq<byte>)
    ensures With(image, offset, written, rest + more) ==
            With(Overlay(image, offset, rest), offset + |rest|, written + rest, more)
  {
    OverlayJoins(image, offset, rest, more);
    AcceptedJoins(written, rest, more);
  }

  // ----- the stream -----

  class BufferedOutput {
    const base: BaseOutput
    var buffer: array<byte>      // buffer.Length is `len`; a NULL buffer is an empty one
    var pos: nat
    var autoGrow: bool

    ghost predicate Valid()
      reads this
    {
      pos <= buffer.Length
    }

    /** The base file with the buffered bytes written to it. */
    ghost function Contents(): File
      requires Valid()
      reads this, base, buffer
    {
      With(base.image, base.offset, base.written, buffer[..pos])
    }

    constructor (base: BaseOutput, size: nat)
      ensures Valid() && fresh(buffer) && this.base == base && pos == 0 && !autoGrow
      ensures Contents() == File(base.image, base.offset, base.written)
    {
      this.base := base;
      buffer := new byte[size];
      pos, autoGrow := 0, false;
    }

    /** g_buffered_output_stream_set_buffer_size */
    method Resize(size: nat)
      requires Valid()
      modifies this`buffer
      ensures Valid() && (buffer == old(buffer) || fresh(buffer))
      ensures buffer.Length == (if size > pos then size else pos) && buffer[..pos] == old(buffer[..pos])
    {
      if size == buffer.Length { return; }
      var newSize := if size > pos then size else pos;
      var copy := new byte[newSize];
      forall i | 0 <= i < pos { copy[i] := buffer[i]; }
      assert copy[..pos] == buffer[..pos];
      buffer := copy;
    }

    /** flush_buffer: what the base stream did not take stays at the front of the buffer. */
    method FlushBuffer() returns (ok: bool)
      requires Valid()
      modifies this`pos, base, buffer
      ensures Valid() && Contents() == old(Contents())
      ensures ok <==> pos == 0
      ensures base.failures == old(base.failures) + (if ok then 0 else 1) && base.flushes == old(base.flushes)
    {
      var n;
      var data := buffer[..pos];
      ok, n := base.WriteAll(data);
      DropFront(n);
      PartWritten(old(base.image), old(base.offset), old(base.written), data, n);
    }

    /** Moves what follows the first n buffered bytes to the front. */
    method DropFront(n: nat)
      requires Valid() && n <= pos
      modifies this`pos, buffer
      ensures Valid() && pos == old(pos) - n && buffer[..pos] == old(buffer[..pos])[n..]
    {
      var count := pos - n;
      forall i | 0 <= i < count { buffer[i] := buffer[n + i]; }
      pos := count;
    }

    /** g_buffered_output_stream_write */
    method WriteBytes(data: seq<byte>) returns (n: int)
      requires Valid()
      modifies this, base, buffer
      ensures Valid() && (buffer == old(buffer) || fresh(buffer)) && autoGrow == old(autoGrow)
      ensures -1 <= n <= |data|
      ensures PlainStep(old(Contents()), Write(data), if n == -1 then Error else Count(n), Contents())
      ensures base.failures >= old(base.failures) + if n == -1 then 1 else 0
      ensures WriteStep(old(Look()), data, if n == -1 then Error else Count(n), Look())
      ensures n == 0 ==> data == [] || buffer.Length == 0
      ensures autoGrow && data != [] ==> n == |data|
      ensures autoGrow && data != [] ==>
        base.image == old(base.image) && base.offset == old(base.offset) && base.written == old(base.written)
    {
      var space := buffer.Length - pos;
      if autoGrow && space < |data| {
        var twice, sum := buffer.Length * 2, buffer.Length + |data|;
        Resize(if twice > sum then twice else sum);
      } else if space == 0 {
        var ok := FlushBuffer();
        if !ok { return -1; }
      }
      n := Append(data);
    }

    /** Copies what fits into the buffer. */
    method Append(data: seq<byte>) returns (n: nat)
      requires Valid()
      modifies this`pos, buffer
      ensures Valid() && n == (if |data| < old(buffer.Length - pos) then |data| else old(buffer.Length - pos))
      ensures PlainStep(old(Contents()), Write(data), Count(n), Contents())
    {
      n := buffer.Length - pos;
      if |data| < n { n := |data|; }
      ghost var kept := buffer[..pos];
      Store(data[..n]);
      RestExtended(base.image, base.offset, base.written, kept, data[..n]);
    }

    /** Copies bytes that fit behind the buffered ones. */
    method Store(data: seq<byte>)
      requires pos + |data| <= buffer.Length
      modifies this`pos, buffer
      ensures pos == old(pos) + |data| && buffer[..pos] == old(buffer[..pos]) + data
    {
      forall i | 0 <= i < |data| { buffer[pos + i] := data[i]; }
      pos := pos + |data|;
    }

    /** g_buffered_output_stream_flush; the base stream's own flush may fail. */
    method FlushAll() returns (ok: bool)
      requires Valid()
      modifies this`pos, base, buffer
      ensures Valid() && Contents() == old(Contents())
      ensures ok ==> pos == 0 && base.image == Contents().image && base.written == Contents().accepted
      ensures ok ==> base.flushes == old(base.flushes) + 1
      ensures base.failures >= old(base.failures) + if ok then 0 else 1
    {
      ok := FlushBuffer();
      if ok {
        ok := base.Flush();
      }
    }

    /** g_buffered_output_stream_tell */
    method TellPosition() returns (t: nat)
      requires Valid()
      ensures t == Contents().tell
    {
      t := base.offset + pos;
    }

    /** g_buffered_output_stream_seek: moves only once the buffer has been written out. */
    method SeekTo(delta: int, origin: SeekType) returns (ok: bool)
      requires Valid()
      modifies this`pos, base, buffer
      ensures Valid() && (ok ==> pos == 0)
      ensures PlainStep(old(Contents()), Seek(delta, origin), if ok then Done else Error, Contents())
      ensures ok && origin == SeekSet ==> base.offset == delta
      ensures ok && origin == SeekCur ==> base.offset == old(Contents().tell) + delta
      ensures ok && origin == SeekEnd ==> base.offset == |base.image| + delta
      ensures base.failures >= old(base.failures) + if ok then 0 else 1
    {
      ok := FlushBuffer();
      if ok {
        ok := base.Seek(delta, origin);
      }
    }

    /** g_buffered_output_stream_truncate */
    method TruncateTo(length: nat) returns (ok: bool)
      requires Valid()
      modifies this`pos, base, buffer
      ensures Valid() && (ok ==> pos == 0)
      ensures PlainStep(old(Contents()), Truncate(length), if ok then Done else Error, Contents())
      ensures base.failures >= old(base.failures) + if ok then 0 else 1
    {
      ok := FlushBuffer();
      if ok {
        ok := base.Truncate(length);
      }
    }

    // ----- whole runs -----

    ghost function Look(): View
      requires Valid()
      reads this, base, buffer
    {
      View(Contents(), File(base.image, base.offset, base.written), buffer.Length, pos, autoGrow, base.flushes,
           base.failures)
    }

    method Perform(op: Op) returns (r: Result)
      requires Valid()
      modifies this, base, buffer
      ensures Valid() && (buffer == old(buffer) || fresh(buffer))
      ensures ViewStep(old(Look()), op, r, Look())
    {
      match op {
        case Write(data) =>
          var n := WriteBytes(data);
          r := if n == -1 then Error else Count(n);
        case Flush =>
          var ok := FlushAll();
          r := if ok then Done else Error;
        case SetBufferSize(size) =>
          Resize(size);
          r := Done;
        case SetAutoGrow(grow) =>
          autoGrow := grow;
          r := Done;
        case Tell =>
          var t := TellPosition();
          r := Count(t);
        case Seek(delta, origin) =>
          var ok := SeekTo(delta, origin);
          r := if ok then Done else Error;
        case Truncate(length) =>
          var ok := TruncateTo(length);
          r := if ok then Done else Error;
      }
    }

    /** Any sequence of operations leaves the file that the same operations leave without a buffer,
        counting only the bytes reported as accepted. */
    method Run(ops: seq<Op>) returns (results: seq<Result>, ghost views: seq<View>)
      requires Valid()
      modifies this, base, buffer
      ensures Valid() && BufferedRun(views, ops, results)
      ensures views[0] == old(Look()) && views[|ops|] == Look()
    {
      results, views := [], [Look()];
      for i := 0 to |ops|
        invariant Valid() && (buffer == old(buffer) || fresh(buffer))
        invariant |results| == i && |views| == i + 1
        invariant views[0] == old(Look()) && views[i] == Look()
        invariant forall k :: 0 <= k < i ==> ViewStep(views[k], ops[k], results[k], views[k + 1])
      {
        var r := Perform(ops[i]);
        results, views := results + [r], views + [Look()];
      }
    }
  }

  // ----- what the plain stream promises -----

  /** The bytes that an operation reported as accepted. */
  function Taken(op: Op, r: Result): seq<byte> {
    if op.Write? && r.Count? && r.n <= |op.data| then op.data[..r.n] else []
  }

  /** The bytes that the first k operations of a run reported as accepted. */
  function Reported(ops: seq<Op>, results: seq<Result>, k: nat): seq<byte>
    requires k <= |ops| == |results|
  {
    if k == 0 then [] else Reported(ops, results, k - 1) + Taken(ops[k - 1], results[k - 1])
  }

  ghost predicate StepAt(views: seq<View>, ops: seq<Op>, results: seq<Result>, i: nat)
    requires i < |ops| == |results| && |views| == |ops| + 1
  {
    ViewStep(views[i], ops[i], results[i], views[i + 1])
  }

  ghost predicate BufferedRun(views: seq<View>, ops: seq<Op>, results: seq<Result>) {
    && |results| == |ops| && |views| == |ops| + 1
    && (forall i :: 0 <= i < |ops| ==> StepAt(views, ops, results, i))
  }

  lemma TakenStep(f: File, op: Op, r: Result, g: File)
    requires PlainStep(f, op, r, g)
    ensures g.accepted == f.accepted + Taken(op, r)
    ensures !op.Seek? && !op.Truncate? && f.image == f.accepted && f.tell == |f.image| ==>
      g.image == g.accepted && g.tell == |g.image|
  {
  }

  /** Nothing is lost, repeated or reordered: what was accepted is what was reported, in order. */
  lemma {:induction false} AcceptedIsReported(views: seq<View>, ops: seq<Op>, results: seq<Result>, k: nat)
    requires BufferedRun(views, ops, results) && k <= |ops|
    ensures views[k].file.accepted == views[0].file.accepted + Reported(ops, results, k)
  {
    if k > 0 {
      AcceptedIsReported(views, ops, results, k - 1);
      var i := k - 1;
      assert StepAt(views, ops, results, i);
      TakenStep(views[i].file, ops[i], results[i], views[i + 1].file);
      AcceptedJoins(views[0].file.accepted, Reported(ops, results, i), Taken(ops[i], results[i]));
    }
  }

  /** Without seeking or truncating, a new file holds exactly the bytes reported as accepted. */
  lemma {:induction false} SequentialFile(views: seq<View>, ops: seq<Op>, results: seq<Result>, k: nat)
    requires BufferedRun(views, ops, results) && k <= |ops| && views[0].file == File([], 0, [])
    requires forall i :: 0 <= i < |ops| ==> !ops[i].Seek? && !ops[i].Truncate?
    ensures views[k].file.image == Reported(ops, results, k) == views[k].file.accepted
    ensures views[k].file.tell == |views[k].file.image|
  {
    if k > 0 {
      SequentialFile(views, ops, results, k - 1);
      var i := k - 1;
      assert StepAt(views, ops, results, i);
      TakenStep(views[i].file, ops[i], results[i], views[i + 1].file);
    }
  }
}
