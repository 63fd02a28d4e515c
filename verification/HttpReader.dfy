/** The probe's body reader over a stream that is consumed as it is read. */
module HttpReader {
  import opened Common
  import opened HttpModel

  class BodyStream {
    const data: bytes
    var pos: nat

    predicate Valid() reads this { pos <= |data| }

    constructor (data: bytes)
      ensures Valid() && this.data == data && pos == 0
    {
      this.data, pos := data, 0;
    }

    method ReadLine() returns (line: bytes)
      requires Valid()
      modifies this
      ensures Valid() && pos == LineEnd(data, old(pos)) && line == data[old(pos)..pos]
    {
      var end := pos;
      while end < |data| && data[end] != LF
        invariant pos <= end <= |data|
        invariant LineEnd(data, pos) == LineEnd(data, end)
      {
        end := end + 1;
      }
      if end < |data| { end := end + 1; }
      line := data[pos..end];
      pos := end;
    }

    /** `readexactly`: nothing when the stream ends too early. */
    method ReadExactly(n: nat) returns (piece: Option<bytes>)
      requires Valid()
      modifies this
      ensures Valid() && (piece.Some? <==> old(pos) + n <= |data|)
      ensures piece.Some? ==> pos == old(pos) + n && piece.value == data[old(pos)..pos]
    {
      if |data| - pos < n {
        pos := |data|;
        return None;
      }
      piece := Some(data[pos..pos + n]);
      pos := pos + n;
    }

    method SkipTrailers() returns (ok: bool)
      requires Valid()
      modifies this
      ensures Valid()
      ensures ok <==> Trailers(data, old(pos), 0).Some?
      ensures ok ==> Trailers(data, old(pos), 0) == Some(pos)
    {
      var count: nat := 0;
      while true
        invariant Valid() && Trailers(data, old(pos), 0) == Trailers(data, pos, count)
        decreases |data| - pos
      {
        var trailer := ReadLine();
        count := count + |trailer|;
        if count > TRAILER_MAX { return false; }
        if trailer == [] || trailer == CRLF { return true; }
      }
    }

    /** The size line of a chunk and, after the last one, the trailers. */
    method ReadChunkHead(ghost head: HeadReader, total: nat) returns (h: Head)
      requires Valid() && IsReadHead(head)
      modifies this
      ensures Valid() && h == head(data, old(pos), total)
      ensures h.Piece? ==> pos == old(pos) + h.skip
      ensures h.Stop? && h.d.Body? ==> h.d == Body([], pos)
    {
      ghost var expected := ReadHead(data, pos, total);
      assert expected == head(data, pos, total);
      var line := ReadLine();
      if line == [] || |line| > LINE_MAX { return Stop(Bad(BadHeader)); }
      var size := ChunkSize(line);
      if size.None? { return Stop(Bad(BadSize)); }
      if size.value < 0 || total + size.value > BODY_MAX { return Stop(Bad(TooLarge)); }
      if size.value == 0 {
        var ok := SkipTrailers();
        return if ok then Stop(Body([], pos)) else Stop(Bad(LongTrailers));
      }
      return Piece(|line|, size.value);
    }

    method ReadPieces(ghost head: HeadReader) returns (d: Decoded)
      requires Valid() && IsReadHead(head)
      modifies this
      ensures Valid() && d == Chunks(head, data, old(pos), 0)
      ensures d.Body? ==> pos == d.end
    {
      var chunks: bytes := [];
      var total: nat := 0;
      while true
        invariant Valid() && Chunks(head, data, old(pos), 0) == After(chunks, Chunks(head, data, pos, total))
        decreases |data| - pos
      {
        ghost var start := pos;
        var h := ReadChunkHead(head, total);
        match h
        case Stop(Bad(p)) => return Bad(p);
        case Stop(Body(_, _)) => return Body(chunks, pos);
        case Piece(skip, size) =>
          var piece := ReadExactly(size);
          if piece.None? { return Bad(Truncated); }
          var end := ReadExactly(2);
          if end.None? { return Bad(Truncated); }
          if end.value != CRLF { return Bad(BadTerminator); }
          AfterAssociates(chunks, piece.value, Chunks(head, data, pos, total + size));
          chunks := chunks + piece.value;
          total := total + size;
      }
    }

    /** `arrived` bounds what the single `read` of an undelimited body delivers. */
    method ReadBody(h: Headers, wantBody: bool, arrived: nat) returns (d: Decoded)
      requires Valid() && (pos < |data| ==> 0 < arrived)
      modifies this
      ensures Valid() && d == Decode(h, wantBody, data, old(pos), arrived)
      ensures d.Body? ==> pos == d.end
    {
      if !wantBody { return Body([], pos); }
      if h.contentLength.Some? {
        var length := IntText(Strip(h.contentLength.value, true), 10);
        if length.None? { return Bad(BadLength); }
        if length.value < 0 || length.value > BODY_MAX { return Bad(TooLarge); }
        var body := ReadExactly(length.value);
        return if body.None? then Bad(Truncated) else Body(body.value, pos);
      }
      if IsChunked(h) {
        d := ReadPieces(ReadHead);
        return d;
      }
      var n := Min(Min(arrived, BODY_MAX + 1), |data| - pos);
      var body := ReadExactly(n);
      return if n > BODY_MAX then Bad(TooLarge) else Body(body.value, pos);
    }
  }
}
