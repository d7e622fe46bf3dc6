/**
 * Splitting a TCP byte stream into order frames terminated by '*', as both order
 * managers' client loops do: received chunks are appended to a buffer, every
 * complete frame is cut off in order, and an incomplete tail stays buffered.
 */
module Framing {

  type byte = b: int | 0 <= b < 256

  /** The frame terminator `b"*"`. */
  const Delimiter: byte := 42

  /** Bytes removed by Python's `bytes.strip()`: space, \t, \n, \v, \f, \r. */
  predicate IsAsciiSpace(b: byte) {
    b == 32 || (9 <= b <= 13)
  }

  /** A frame that is empty once stripped; the client loops skip it without a reply. */
  predicate IsBlank(frame: seq<byte>) {
    forall i :: 0 <= i < |frame| ==> IsAsciiSpace(frame[i])
  }

  predicate NoDelimiter(s: seq<byte>) {
    forall i :: 0 <= i < |s| ==> s[i] != Delimiter
  }

  /** Index of the first delimiter, as `bytes.find(b"*")`. */
  function Find(s: seq<byte>): (r: int)
    ensures -1 <= r < |s|
    ensures r == -1 <==> NoDelimiter(s)
    ensures r >= 0 ==> s[r] == Delimiter && NoDelimiter(s[..r])
  {
    if |s| == 0 then -1
    else if s[0] == Delimiter then 0
    else
      var k := Find(s[1..]);
      if k == -1 then -1
      else
        assert s[..k + 1] == [s[0]] + s[1..][..k];
        k + 1
  }

  /** The frames a buffer holds, in order, and the incomplete tail left buffered. */
  function Extract(buffer: seq<byte>): (r: (seq<seq<byte>>, seq<byte>))
    decreases |buffer|
  {
    var idx := Find(buffer);
    if idx == -1 then ([], buffer)
    else
      var rest := Extract(buffer[idx + 1..]);
      ([buffer[..idx]] + rest.0, rest.1)
  }

  /** The frames written back out, each followed by its delimiter. */
  function Joined(frames: seq<seq<byte>>): seq<byte> {
    if |frames| == 0 then [] else frames[0] + [Delimiter] + Joined(frames[1..])
  }

  lemma JoinedAppend(a: seq<seq<byte>>, b: seq<seq<byte>>)
    ensures Joined(a + b) == Joined(a) + Joined(b)
  {
    if |a| > 0 {
      assert (a + b)[1..] == a[1..] + b;
    } else {
      assert a + b == b;
    }
  }

  /** No frame and no tail contains the delimiter. */
  lemma {:induction false} ExtractClean(buffer: seq<byte>)
    ensures NoDelimiter(Extract(buffer).1)
    ensures forall i :: 0 <= i < |Extract(buffer).0| ==> NoDelimiter(Extract(buffer).0[i])
    decreases |buffer|
  {
    var idx := Find(buffer);
    if idx != -1 {
      ExtractClean(buffer[idx + 1..]);
    }
  }

  lemma JoinCons(f: seq<byte>, fs: seq<seq<byte>>)
    ensures Joined([f] + fs) == f + [Delimiter] + Joined(fs)
  {
    assert ([f] + fs)[1..] == fs;
  }

  lemma SplitAt(s: seq<byte>, i: nat)
    requires i < |s| && s[i] == Delimiter
    ensures s[..i] + [Delimiter] + s[i + 1..] == s
  {
  }

  lemma Assoc(a: seq<byte>, b: seq<byte>, c: seq<byte>)
    ensures a + [Delimiter] + b + c == a + [Delimiter] + (b + c)
  {
  }

  /** Extraction loses and invents nothing: the frames with their delimiters, then the tail, are the buffer. */
  lemma {:induction false} ExtractReassembles(buffer: seq<byte>)
    ensures Joined(Extract(buffer).0) + Extract(buffer).1 == buffer
    decreases |buffer|
  {
    var idx := Find(buffer);
    if idx != -1 {
      var tail := buffer[idx + 1..];
      ExtractReassembles(tail);
      var rest := Extract(tail);
      var head := buffer[..idx];
      assert Extract(buffer) == ([head] + rest.0, rest.1);
      JoinCons(head, rest.0);
      SplitAt(buffer, idx);
      Assoc(head, Joined(rest.0), rest.1);
    }
  }

  /** The split is unique: frames free of delimiters, joined back with a delimiter-free tail, are recovered exactly. */
  lemma {:induction false} ExtractOfJoined(frames: seq<seq<byte>>, tail: seq<byte>)
    requires forall i :: 0 <= i < |frames| ==> NoDelimiter(frames[i])
    requires NoDelimiter(tail)
    ensures Extract(Joined(frames) + tail) == (frames, tail)
    decreases |frames|
  {
    if |frames| > 0 {
      var buf := Joined(frames) + tail;
      var f := frames[0];
      assert buf == f + [Delimiter] + (Joined(frames[1..]) + tail);
      assert buf[..|f|] == f;
      assert Find(buf) == |f| by {
        FindPrefix(f, buf);
      }
      assert buf[|f| + 1..] == Joined(frames[1..]) + tail;
      ExtractOfJoined(frames[1..], tail);
      assert [f] + frames[1..] == frames;
    } else {
      assert Joined(frames) + tail == tail;
    }
  }

  lemma FindPrefix(f: seq<byte>, buf: seq<byte>)
    requires NoDelimiter(f) && |buf| > |f| && buf[..|f|] == f && buf[|f|] == Delimiter
    ensures Find(buf) == |f|
  {
    var r := Find(buf);
    assert r != -1 by {
      assert !NoDelimiter(buf);
    }
    assert forall j :: 0 <= j < |f| ==> buf[j] == f[j];
    assert forall k :: |f| < k <= |buf| ==> buf[..k][|f|] == Delimiter;
  }

  /** Extracting from a buffer that grew: the old frames come first, then those of the old tail plus the new bytes. */
  lemma {:induction false} ExtractAppend(a: seq<byte>, b: seq<byte>)
    ensures Extract(a + b).0 == Extract(a).0 + Extract(Extract(a).1 + b).0
    ensures Extract(a + b).1 == Extract(Extract(a).1 + b).1
    decreases |a|
  {
    var idx := Find(a);
    if idx == -1 {
      assert Extract(a) == ([], a);
      assert Extract(a).0 + Extract(a + b).0 == Extract(a + b).0;
    } else {
      var ab := a + b;
      var head := a[..idx];
      var tail := a[idx + 1..];
      PrefixOfAppend(a, b, idx);
      FindPrefix(head, ab);
      ExtractAppend(tail, b);
      var later := Extract(Extract(tail).1 + b);
      assert Extract(ab) == ([head] + Extract(tail + b).0, Extract(tail + b).1);
      assert Extract(a) == ([head] + Extract(tail).0, Extract(tail).1);
      ConsAssoc(head, Extract(tail).0, later.0);
    }
  }

  lemma PrefixOfAppend(a: seq<byte>, b: seq<byte>, i: nat)
    requires i < |a|
    ensures (a + b)[..i] == a[..i] && (a + b)[i] == a[i] && (a + b)[i + 1..] == a[i + 1..] + b
  {
  }

  lemma ConsAssoc(h: seq<byte>, xs: seq<seq<byte>>, ys: seq<seq<byte>>)
    ensures [h] + (xs + ys) == ([h] + xs) + ys
  {
  }

  /** State of one client connection's reader: the bytes received but not yet framed. */
  datatype Reader = Reader(buffer: seq<byte>)

  /** One `recv` chunk: append it to the buffer and cut off every complete frame. */
  function Receive(rd: Reader, chunk: seq<byte>): (r: (Reader, seq<seq<byte>>))
    ensures NoDelimiter(r.0.buffer)
  {
    ExtractClean(rd.buffer + chunk);
    var e := Extract(rd.buffer + chunk);
    (Reader(e.1), e.0)
  }

  /** All frames delivered while a connection receives `chunks` in order, and the final reader. */
  function ReceiveAll(rd: Reader, chunks: seq<seq<byte>>): (r: (Reader, seq<seq<byte>>))
    decreases |chunks|
  {
    if |chunks| == 0 then (rd, [])
    else
      var first := Receive(rd, chunks[0]);
      var more := ReceiveAll(first.0, chunks[1..]);
      (more.0, first.1 + more.1)
  }

  function Concat(chunks: seq<seq<byte>>): seq<byte> {
    if |chunks| == 0 then [] else chunks[0] + Concat(chunks[1..])
  }

  /**
   * However the stream is cut into chunks, the connection sees exactly the frames of
   * the whole stream, each once and in order, and keeps its incomplete tail.
   */
  lemma {:induction false} ChunkingIrrelevant(rd: Reader, chunks: seq<seq<byte>>)
    requires NoDelimiter(rd.buffer)
    ensures ReceiveAll(rd, chunks).1 == Extract(rd.buffer + Concat(chunks)).0
    ensures ReceiveAll(rd, chunks).0.buffer == Extract(rd.buffer + Concat(chunks)).1
    decreases |chunks|
  {
    if |chunks| > 0 {
      var x := rd.buffer + chunks[0];
      var c := Concat(chunks[1..]);
      var e := Extract(x);
      ExtractClean(x);
      ChunkingIrrelevant(Reader(e.1), chunks[1..]);
      ExtractAppend(x, c);
      assert Concat(chunks) == chunks[0] + c;
      assert rd.buffer + Concat(chunks) == x + c;
      var more := ReceiveAll(Reader(e.1), chunks[1..]);
      assert Receive(rd, chunks[0]) == (Reader(e.1), e.0);
      assert ReceiveAll(rd, chunks) == (more.0, e.0 + more.1);
    } else {
      assert rd.buffer + Concat(chunks) == rd.buffer;
    }
  }

  /** The frames a client loop actually processes: the non-blank ones, in order. */
  function Processed(frames: seq<seq<byte>>): (r: seq<seq<byte>>)
    ensures |r| <= |frames|
  {
    if |frames| == 0 then []
    else if IsBlank(frames[0]) then Processed(frames[1..])
    else [frames[0]] + Processed(frames[1..])
  }

  /** A stream of three frames, one of them blank, cut into two chunks mid-frame. */
  lemma TwoChunkExample()
    ensures var r := ReceiveAll(Reader([]), [[65, 42, 32], [10, 42, 66, 42, 67]]);
      r.1 == [[65], [32, 10], [66]] && r.0.buffer == [67] && Processed(r.1) == [[65], [66]]
  {
    ExampleFrames();
    ExampleSkipsBlank();
  }

  lemma ExampleFrames()
    ensures var r := ReceiveAll(Reader([]), [[65, 42, 32], [10, 42, 66, 42, 67]]);
      r.1 == [[65], [32, 10], [66]] && r.0.buffer == [67]
  {
    var chunks: seq<seq<byte>> := [[65, 42, 32], [10, 42, 66, 42, 67]];
    var stream: seq<byte> := [65, 42, 32, 10, 42, 66, 42, 67];
    var whole: seq<seq<byte>> := [[65], [32, 10], [66]];
    assert Concat(chunks) == stream by {
      assert Concat(chunks[1..]) == [10, 42, 66, 42, 67];
    }
    assert Extract(stream) == (whole, [67]) by {
      assert Joined(whole[2..]) == [66, 42];
      assert Joined(whole[1..]) == [32, 10, 42, 66, 42];
      assert Joined(whole) + [67] == stream;
      ExtractOfJoined(whole, [67]);
    }
    ChunkingIrrelevant(Reader([]), chunks);
    assert [] + stream == stream;
  }

  lemma ExampleSkipsBlank()
    ensures Processed([[65], [32, 10], [66]]) == [[65], [66]]
  {
    var a: seq<byte>, sp: seq<byte>, b: seq<byte> := [65], [32, 10], [66];
    assert !IsAsciiSpace(a[0]) && !IsAsciiSpace(b[0]);
    assert IsBlank(sp);
    var whole := [a, sp, b];
    assert Processed(whole[2..]) == [b];
    assert Processed(whole[1..]) == [b];
  }
}
