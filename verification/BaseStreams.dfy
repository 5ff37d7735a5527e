/** The streams underneath: a seekable byte sequence that may read short, write short and fail. */
module BaseStreams {
  newtype byte = x: int | 0 <= x < 256

  datatype SeekType = SeekSet | SeekCur | SeekEnd

  /** `data` is what `content` holds from position `at`. */
  ghost predicate IsAt(content: seq<byte>, at: int, data: seq<byte>) {
    data == [] || (0 <= at && at + |data| <= |content| && content[at..at + |data|] == data)
  }

  class BaseInput {
    const content: seq<byte>
    var offset: nat
    var endReported: bool           // whether a read has returned 0 for a positive count
    var failures: nat               // operations that have failed
    var requests: seq<nat>          // how much each read and skip has asked for

    constructor (content: seq<byte>)
      ensures this.content == content && offset == 0 && !endReported && failures == 0 && requests == []
    {
      this.content := content;
      offset, endReported, failures, requests := 0, false, 0, [];
    }

    /** g_input_stream_read: -1 for an error, 0 for the end of the stream, or a short read. */
    method Read(count: nat) returns (n: int, data: seq<byte>)
      modifies this
      ensures -1 <= n <= count && |data| == (if n == -1 then 0 else n)
      ensures offset == old(offset) + |data| && IsAt(content, old(offset), data)
      ensures n == 0 && count > 0 ==> offset >= |content|
      ensures endReported <==> old(endReported) || (n == 0 && count > 0)
      ensures failures == old(failures) + if n == -1 then 1 else 0
      ensures requests == old(requests) + [count]
    {
      requests := requests + [count];
      n, data := -1, [];
      var failed: bool := *;
      if failed && count > 0 {
        failures := failures + 1;
      } else {
        n := 0;
        if count > 0 && offset < |content| {
          n :| 1 <= n <= count && offset + n <= |content|;
          data := content[offset..offset + n];
          offset := offset + n;
        }
        endReported := endReported || (n == 0 && count > 0);
      }
    }

    /** g_input_stream_skip */
    method Skip(count: nat) returns (n: int)
      modifies this
      ensures -1 <= n <= count
      ensures offset == old(offset) + (if n == -1 then 0 else n)
      ensures n > 0 ==> offset <= |content|
      ensures n == 0 && count > 0 ==> offset >= |content|
      ensures failures == old(failures) + if n == -1 then 1 else 0
      ensures requests == old(requests) + [count]
    {
      var data;
      n, data := Read(count);
    }

    /** g_seekable_seek: fails without effect, or moves the offset, possibly beyond the end. */
    method Seek(delta: int, origin: SeekType) returns (ok: bool)
      modifies this`offset, this`failures
      ensures !ok ==> offset == old(offset)
      ensures ok ==> offset == Origin(content, old(offset), origin) + delta
      ensures failures == old(failures) + if ok then 0 else 1
    {
      var target := Origin(content, offset, origin) + delta;
      ok := *;
      if target < 0 {
        ok := false;
      }
      if ok {
        offset := target;
      } else {
        failures := failures + 1;
      }
    }
  }

  function Origin(content: seq<byte>, offset: int, origin: SeekType): int {
    match origin case SeekSet => 0 case SeekCur => offset case SeekEnd => |content|
  }

  // ----- output -----

  /** `image` cut or zero-filled to n bytes. */
  function Resized(image: seq<byte>, n: nat): (r: seq<byte>)
    ensures |r| == n
  {
    if n <= |image| then image[..n] else image + seq(n - |image|, i => 0 as byte)
  }

  /** The file after writing `data` at position `at`, with a gap filled by zeros. */
  function Overlay(image: seq<byte>, at: nat, data: seq<byte>): seq<byte> {
    if data == [] then image
    else Resized(image, at) + data + (if at + |data| < |image| then image[at + |data|..] else [])
  }

  /** Byte by byte: what was written, what was there, or a zero in a gap. */
  ghost predicate IsOverlay(r: seq<byte>, image: seq<byte>, at: nat, data: seq<byte>) {
    && |r| == (if at + |data| > |image| then at + |data| else |image|)
    && forall k :: 0 <= k < |r| ==>
         r[k] == if at <= k < at + |data| then data[k - at] else if k < |image| then image[k] else 0
  }

  lemma OverlayIs(image: seq<byte>, at: nat, data: seq<byte>)
    requires data != []
    ensures IsOverlay(Overlay(image, at, data), image, at, data)
  {
  }

  lemma ResizedAt(image: seq<byte>, n: nat, k: nat)
    requires k < n
    ensures Resized(image, n)[k] == if k < |image| then image[k] else 0
  {
  }

  /** Writing in two pieces is writing at once. */
  lemma OverlayJoins(image: seq<byte>, at: nat, a: seq<byte>, b: seq<byte>)
    ensures Overlay(Overlay(image, at, a), at + |a|, b) == Overlay(image, at, a + b)
  {
    if a == [] {
      assert a + b == b;
    } else if b == [] {
      assert a + b == a;
    } else {
      var first := Overlay(image, at, a);
      OverlayIs(image, at, a);
      OverlayIs(first, at + |a|, b);
      OverlayIs(image, at, a + b);
      PiecesJoin(image, at, a, b, first, Overlay(first, at + |a|, b), Overlay(image, at, a + b));
    }
  }

  lemma PiecesJoin(image: seq<byte>, at: nat, a: seq<byte>, b: seq<byte>,
                   first: seq<byte>, twice: seq<byte>, once: seq<byte>)
    requires IsOverlay(first, image, at, a) && IsOverlay(twice, first, at + |a|, b) && IsOverlay(once, image, at, a + b)
    ensures twice == once
  {
  }

  class BaseOutput {
    var image: seq<byte>
    var offset: nat
    var written: seq<byte>          // every byte written, in order
    var failures: nat               // operations that have failed
    var flushes: nat                // successful calls of flush

    constructor (image: seq<byte>)
      ensures this.image == image && offset == 0 && written == [] && failures == 0 && flushes == 0
    {
      this.image, offset, written, failures, flushes := image, 0, [], 0, 0;
    }

    /** g_output_stream_write_all: writes everything, or fails after a part of it. */
    method WriteAll(data: seq<byte>) returns (ok: bool, n: nat)
      modifies this`image, this`offset, this`written, this`failures
      ensures n <= |data| && (ok <==> n == |data|)
      ensures image == Overlay(old(image), old(offset), data[..n])
      ensures offset == old(offset) + n && written == old(written) + data[..n]
      ensures failures == old(failures) + if ok then 0 else 1
    {
      n :| 0 <= n <= |data|;
      ok := n == |data|;
      if !ok { failures := failures + 1; }
      image := Overlay(image, offset, data[..n]);
      offset, written := offset + n, written + data[..n];
    }

    method Seek(delta: int, origin: SeekType) returns (ok: bool)
      modifies this`offset, this`failures
      ensures offset == old(offset) || ok
      ensures ok ==> offset == Origin(image, old(offset), origin) + delta
      ensures failures == old(failures) + if ok then 0 else 1
    {
      var target := Origin(image, offset, origin) + delta;
      ok := *;
      if target < 0 {
        ok := false;
      }
      if ok {
        offset := target;
      } else {
        failures := failures + 1;
      }
    }

    method Truncate(size: nat) returns (ok: bool)
      modifies this`image, this`failures
      ensures image == if ok then Resized(old(image), size) else old(image)
      ensures failures == old(failures) + if ok then 0 else 1
    {
      ok := *;
      if ok {
        image := Resized(image, size);
      } else {
        failures := failures + 1;
      }
    }

    /** g_output_stream_flush */
    method Flush() returns (ok: bool)
      modifies this`failures, this`flushes
      ensures failures == old(failures) + if ok then 0 else 1
      ensures flushes == old(flushes) + if ok then 1 else 0
    {
      ok := *;
      if ok {
        flushes := flushes + 1;
      } else {
        failures := failures + 1;
      }
    }
  }
}
