/**
 * The framing of the `multipart/x-mixed-replace` video response: each encoded frame becomes
 * one part, introduced by the boundary line and a JPEG content-type header, and closed by
 * CRLF. The image encoder is an opaque function that may fail.
 */
module Framing {
  import opened Wrappers

  newtype byte = x: int | 0 <= x < 256

  /** The boundary announced in the response's mimetype. */
  const Boundary: string := "frame"

  /** The bytes of an ASCII string. */
  function Ascii(s: string): (r: seq<byte>)
    requires forall i :: 0 <= i < |s| ==> s[i] as int < 128
    ensures |r| == |s|
    ensures forall i :: 0 <= i < |s| ==> r[i] as int == s[i] as int
  {
    seq(|s|, i requires 0 <= i < |s| => s[i] as int as byte)
  }

  /** The line that opens every part. */
  const BoundaryLine: string := "--" + Boundary + "\r\n"

  /** What precedes the image in every part: the boundary line and the part's header. */
  function PartHead(): seq<byte> {
    Ascii(BoundaryLine + "Content-Type: image/jpeg\r\n\r\n")
  }

  /** What follows the image in every part. */
  function PartTail(): seq<byte> {
    Ascii("\r\n")
  }

  /** One part of the stream, carrying one encoded image. */
  function Chunk(image: seq<byte>): (r: seq<byte>)
    ensures |r| == |PartHead()| + |image| + |PartTail()|
    ensures r[..|BoundaryLine|] == Ascii(BoundaryLine)
  {
    var r := PartHead() + image + PartTail();
    assert r[..|BoundaryLine|] == PartHead()[..|BoundaryLine|];
    r
  }

  /** Reads the image back out of one part; None when the bytes are not a part. */
  function Unchunk(part: seq<byte>): (r: Option<seq<byte>>)
    ensures r.Some? ==> |r.value| + |PartHead()| + |PartTail()| == |part|
  {
    var h, t := |PartHead()|, |PartTail()|;
    if |part| >= h + t && part[..h] == PartHead() && part[|part| - t..] == PartTail()
    then Some(part[h..|part| - t])
    else None
  }

  /** Every image survives framing: the part read back yields exactly that image. */
  lemma UnchunkChunk(image: seq<byte>)
    ensures Unchunk(Chunk(image)) == Some(image)
  {
    var c := Chunk(image);
    var h, t := |PartHead()|, |PartTail()|;
    assert c[..h] == PartHead();
    assert c[|c| - t..] == PartTail();
    assert c[h..|c| - t] == image;
  }

  /** A part is determined by its image: reading back and framing again gives the same bytes. */
  lemma ChunkUnchunk(part: seq<byte>)
    requires Unchunk(part).Some?
    ensures Chunk(Unchunk(part).value) == part
  {
    var h, t := |PartHead()|, |PartTail()|;
    assert part == part[..h] + part[h..|part| - t] + part[|part| - t..];
  }

  /**
   * One pass of the stream generator: nothing is sent while no frame has been published or
   * when encoding fails (the generator tries again); otherwise the encoded frame, framed.
   */
  function NextPart<Frame>(current: Option<Frame>, encode: Frame -> Option<seq<byte>>)
    : (r: Option<seq<byte>>)
    ensures r.Some? <==> current.Some? && encode(current.value).Some?
    ensures r.Some? ==> Unchunk(r.value) == encode(current.value)
  {
    match current
    case None => None
    case Some(frame) =>
      match encode(frame)
      case None => None
      case Some(image) =>
        UnchunkChunk(image);
        Some(Chunk(image))
  }
}
