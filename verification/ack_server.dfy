/**
 * The Assignment 8 order manager's per-frame pipeline: decode, validate, assign a
 * server id when the client gave none, acknowledge. Sockets and threads are outside
 * the model; a connection is the sequence of byte chunks it receives, and the
 * acknowledgements are returned in the order they would be sent.
 */
module AckServer {
  import opened Wrappers
  import opened Framing
  import opened OrderIntake

  /** What `json.loads(frame.decode("utf-8"))` makes of a frame. */
  datatype Decoded =
    | NotUtf8          // UnicodeDecodeError, which the frame handler does not catch
    | BadJson          // json.JSONDecodeError
    | Json(p: Payload)

  /** The text of an acknowledgement's "msg" field. */
  datatype Message =
    | Says(text: string)
    | ConversionText   // the message of Python's own int()/float() ValueError

  /** The acknowledgement object `_send_ack` serialises: "ok", then "order" and "msg" when present. */
  datatype Ack = Ack(ok: bool, order: Option<Order>, msg: Option<Message>)

  /** What handling one frame does: acknowledge it, or raise out of the client loop. */
  datatype FrameResult = Replied(ack: Ack) | Raised

  /** Server state shared by all connections: the next id `count(1)` hands out. */
  datatype Server = Server(nextId: int)

  const Initial := Server(1)

  /** What a frame amounts to once decoded and validated. */
  datatype Verdict =
    | Accept(order: Order)   // a valid order, still without a server id when the client sent none
    | Refuse(ack: Ack)       // a negative acknowledgement
    | Abort                  // an exception escapes to the client loop

  /** Decoding and `Order.from_dict`, with the replies for bad JSON and invalid orders. */
  function Judge(frame: seq<byte>, decode: seq<byte> -> Decoded): (v: Verdict)
    ensures v.Accept? ==> WellFormed(v.order)
    ensures v.Refuse? ==> !v.ack.ok && v.ack.order.None? && v.ack.msg.Some?
  {
    match decode(frame)
    case NotUtf8 => Abort
    case BadJson => Refuse(Ack(false, None, Some(Says("bad_json"))))
    case Json(p) =>
      match FromDict(p)
      case Err(Crashed) => Abort
      case Err(Rejected(m)) => Refuse(Ack(false, None, if m == "" then None else Some(Says(m))))
      case Err(ConversionFailed) => Refuse(Ack(false, None, Some(ConversionText)))
      case Ok(o) => Accept(o)
  }

  /**
   * Which frames are refused and how: undecodable bytes abort, bad JSON is answered
   * "bad_json", a validation error is answered with its message, and only a valid
   * order is accepted.
   */
  lemma JudgeFollowsIntake(frame: seq<byte>, decode: seq<byte> -> Decoded)
    ensures decode(frame).NotUtf8? ==> Judge(frame, decode).Abort?
    ensures decode(frame).BadJson? ==> Judge(frame, decode) == Refuse(Ack(false, None, Some(Says("bad_json"))))
    ensures decode(frame).Json? ==> match FromDict(decode(frame).p)
      case Err(Crashed) => Judge(frame, decode).Abort?
      case Err(Rejected(m)) => Judge(frame, decode) == Refuse(Ack(false, None, Some(Says(m))))
      case Err(ConversionFailed) => Judge(frame, decode) == Refuse(Ack(false, None, Some(ConversionText)))
      case Ok(o) => Judge(frame, decode) == Accept(o)
  {
  }

  /** `_process_order_frame` once the frame is judged: number an accepted order that has no id, acknowledge. */
  function ProcessFrame(s: Server, v: Verdict): (r: (Server, FrameResult))
    ensures v.Abort? ==> r == (s, Raised)
    ensures v.Refuse? ==> r == (s, Replied(v.ack))
    ensures v.Accept? ==>
      r.1.Replied? && r.1.ack.ok && r.1.ack.msg.None? && r.1.ack.order.Some?
      && var sent := r.1.ack.order.value;
      sent == v.order.(id := sent.id) && sent.id.Some?
      && (v.order.id.Some? ==> sent.id == v.order.id && r.0 == s)
      && (v.order.id.None? ==> sent.id == Some(s.nextId) && r.0.nextId == s.nextId + 1)
  {
    match v
    case Abort => (s, Raised)
    case Refuse(a) => (s, Replied(a))
    case Accept(o) =>
      if o.id.None? then (Server(s.nextId + 1), Replied(Ack(true, Some(o.(id := Some(s.nextId))), None)))
      else (s, Replied(Ack(true, Some(o), None)))
  }

  /** The verdict function the server applies to every frame. */
  function Verdicts(decode: seq<byte> -> Decoded): seq<byte> -> Verdict {
    frame => Judge(frame, decode)
  }

  /**
   * The client loop over the frames it has cut off: blank frames are skipped, every
   * other frame is processed in order, and an exception ends the loop (false).
   */
  function Serve(s: Server, frames: seq<seq<byte>>, judge: seq<byte> -> Verdict): (r: (Server, seq<Ack>, bool))
    ensures |r.1| <= |Processed(frames)|
    ensures r.2 ==> |r.1| == |Processed(frames)|
    ensures r.0.nextId >= s.nextId
    decreases |frames|
  {
    if |frames| == 0 then (s, [], true)
    else if IsBlank(frames[0]) then Serve(s, frames[1..], judge)
    else
      var step := ProcessFrame(s, judge(frames[0]));
      if step.1.Raised? then (step.0, [], false)
      else
        var rest := Serve(step.0, frames[1..], judge);
        (rest.0, [step.1.ack] + rest.1, rest.2)
  }

  /** Serving a replied-to frame followed by others. */
  lemma ServeStep(s: Server, f: seq<byte>, rest: seq<seq<byte>>, judge: seq<byte> -> Verdict)
    requires !IsBlank(f) && ProcessFrame(s, judge(f)).1.Replied?
    ensures var step := ProcessFrame(s, judge(f));
      var more := Serve(step.0, rest, judge);
      Serve(s, [f] + rest, judge) == (more.0, [step.1.ack] + more.1, more.2)
  {
    assert ([f] + rest)[0] == f && ([f] + rest)[1..] == rest;
  }

  /** Serving two batches of frames one after the other is serving their concatenation. */
  lemma {:induction false} ServeAppend(s: Server, a: seq<seq<byte>>, b: seq<seq<byte>>, judge: seq<byte> -> Verdict)
    ensures var ra := Serve(s, a, judge);
      Serve(s, a + b, judge) ==
        if ra.2 then var rb := Serve(ra.0, b, judge); (rb.0, ra.1 + rb.1, rb.2) else ra
    decreases |a|
  {
    if |a| == 0 {
      assert a + b == b;
      var rb := Serve(s, b, judge);
      assert [] + rb.1 == rb.1;
    } else {
      assert (a + b)[0] == a[0] && (a + b)[1..] == a[1..] + b;
      if IsBlank(a[0]) {
        ServeAppend(s, a[1..], b, judge);
      } else {
        var step := ProcessFrame(s, judge(a[0]));
        if step.1.Replied? {
          ServeAppend(step.0, a[1..], b, judge);
          var ra := Serve(step.0, a[1..], judge);
          if ra.2 {
            var rb := Serve(ra.0, b, judge);
            assert [step.1.ack] + (ra.1 + rb.1) == ([step.1.ack] + ra.1) + rb.1;
          }
        }
      }
    }
  }

  /** `_handle_client`: receive chunks, cut frames, serve them; an exception closes the connection. */
  function Connection(s: Server, rd: Reader, chunks: seq<seq<byte>>, judge: seq<byte> -> Verdict): (r: (Server, seq<Ack>, bool))
    decreases |chunks|
  {
    if |chunks| == 0 then (s, [], true)
    else
      var received := Receive(rd, chunks[0]);
      var served := Serve(s, received.1, judge);
      if !served.2 then served
      else
        var rest := Connection(served.0, received.0, chunks[1..], judge);
        (rest.0, served.1 + rest.1, rest.2)
  }

  /**
   * Each complete frame of the stream is handled exactly once and in arrival order:
   * a connection replies exactly as serving the frames of the whole byte stream would,
   * however the stream was cut into chunks.
   */
  lemma {:induction false} ConnectionServesStream(s: Server, rd: Reader, chunks: seq<seq<byte>>, judge: seq<byte> -> Verdict)
    requires NoDelimiter(rd.buffer)
    ensures Connection(s, rd, chunks, judge) == Serve(s, Extract(rd.buffer + Concat(chunks)).0, judge)
    decreases |chunks|
  {
    if |chunks| == 0 {
      assert rd.buffer + Concat(chunks) == rd.buffer;
      assert Find(rd.buffer) == -1;
    } else {
      var x := rd.buffer + chunks[0];
      var c := Concat(chunks[1..]);
      var e := Extract(x);
      ExtractClean(x);
      assert Receive(rd, chunks[0]) == (Reader(e.1), e.0);
      var served := Serve(s, e.0, judge);
      ConnectionServesStream(served.0, Reader(e.1), chunks[1..], judge);
      ExtractAppend(x, c);
      assert Concat(chunks) == chunks[0] + c;
      assert rd.buffer + Concat(chunks) == x + c;
      ServeAppend(s, e.0, Extract(e.1 + c).0, judge);
    }
  }

  /** A non-JSON frame gets exactly one negative "bad_json" reply and the connection keeps reading. */
  lemma BadJsonKeepsReading(s: Server, frame: seq<byte>, more: seq<seq<byte>>, decode: seq<byte> -> Decoded)
    requires !IsBlank(frame) && decode(frame).BadJson?
    ensures var judge := Verdicts(decode);
      var r := Serve(s, [frame] + more, judge);
      |r.1| >= 1 && r.1[0] == Ack(false, None, Some(Says("bad_json")))
      && r.1[1..] == Serve(s, more, judge).1 && r.2 == Serve(s, more, judge).2
  {
    assert ([frame] + more)[1..] == more;
  }

  /** Frames whose payload is an object without "id": the ones that draw a server id when valid. */
  predicate LacksId(frame: seq<byte>, judge: seq<byte> -> Verdict) {
    judge(frame).Accept? && judge(frame).order.id.None?
  }

  /** The server ids handed out while serving frames: consecutive, from the counter on. */
  function IdsDrawn(frames: seq<seq<byte>>, judge: seq<byte> -> Verdict): nat
    decreases |frames|
  {
    if |frames| == 0 then 0
    else if !IsBlank(frames[0]) && LacksId(frames[0], judge) then 1 + IdsDrawn(frames[1..], judge)
    else if !IsBlank(frames[0]) && ProcessFrame(Initial, judge(frames[0])).1.Raised? then 0
    else IdsDrawn(frames[1..], judge)
  }

  /**
   * The counter advances by exactly one per accepted order that lacked an id; rejected
   * and client-numbered orders leave it alone. So server ids are unique and increasing.
   */
  lemma {:induction false} CounterCountsDrawnIds(s: Server, frames: seq<seq<byte>>, judge: seq<byte> -> Verdict)
    ensures Serve(s, frames, judge).0.nextId == s.nextId + IdsDrawn(frames, judge)
    decreases |frames|
  {
    if |frames| > 0 && !IsBlank(frames[0]) {
      var step := ProcessFrame(s, judge(frames[0]));
      assert step.1.Raised? <==> ProcessFrame(Initial, judge(frames[0])).1.Raised?;
      if step.1.Replied? {
        CounterCountsDrawnIds(step.0, frames[1..], judge);
      }
    } else if |frames| > 0 {
      CounterCountsDrawnIds(s, frames[1..], judge);
    }
  }

  /** Two orders without ids in a row are numbered n and n + 1. */
  lemma ConsecutiveIds(s: Server, f1: seq<byte>, f2: seq<byte>, judge: seq<byte> -> Verdict)
    requires !IsBlank(f1) && !IsBlank(f2) && LacksId(f1, judge) && LacksId(f2, judge)
    ensures var r := Serve(s, [f1, f2], judge);
      |r.1| == 2 && r.1[0].order.Some? && r.1[0].order.value.id == Some(s.nextId)
      && r.1[1].order.Some? && r.1[1].order.value.id == Some(s.nextId + 1)
      && r.0.nextId == s.nextId + 2
  {
    var r1 := ProcessFrame(s, judge(f1));
    var r2 := ProcessFrame(r1.0, judge(f2));
    assert r1.1.Replied? && r1.1.ack.order.Some? && r1.1.ack.order.value.id == Some(s.nextId)
      && r1.0.nextId == s.nextId + 1;
    assert r2.1.Replied? && r2.1.ack.order.Some? && r2.1.ack.order.value.id == Some(s.nextId + 1)
      && r2.0.nextId == s.nextId + 2;
    var m2 := Serve(r2.0, [], judge);
    assert m2 == (r2.0, [], true);
    ServeStep(r1.0, f2, [], judge);
    assert [f2] + [] == [f2];
    var m1 := Serve(r1.0, [f2], judge);
    assert [r2.1.ack] + [] == [r2.1.ack];
    assert m1 == (r2.0, [r2.1.ack], true);
    ServeStep(s, f1, [f2], judge);
    assert [f1] + [f2] == [f1, f2];
    assert Serve(s, [f1, f2], judge) == (r2.0, [r1.1.ack] + [r2.1.ack], true);
  }
}
