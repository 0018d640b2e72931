/**
 * The connection-facing half of the server (jrpc::BaseServer): the length-prefixed frame
 * decoder that drains a connection's input buffer into `handleRequest`, and the policy for
 * exceptions that escape it. A frame is `decimal length, CRLF, body`, where the body the
 * length counts ends in the CRLF `sendResponse` appends.
 */
module BaseServer {
  import opened Wrappers
  import opened Ascii
  import opened JsonValue
  import opened ReaderSpec
  import opened RpcErrors
  import opened ServerWire
  import RpcServer
  import RoundTrip
  import Writer

  /** `kMaxMessageLen`: a declared length at or above 100 MiB is refused. */
  const MaxMessageLen: nat := 100 * 1024 * 1024

  /** `kHighWatermark`: the output backlog at which a connection stops reading. */
  const HighWatermark: nat := 65536

  predicate CRLFAt(s: string, k: nat) {
    k + 1 < |s| && s[k] == '\r' && s[k + 1] == '\n'
  }

  /** `findCRLF`: the position of the first CRLF at or after `i`, if any. */
  function FindCRLF(s: string, i: nat): (r: Option<nat>)
    ensures r.Some? ==> i <= r.value && CRLFAt(s, r.value) && forall k :: i <= k < r.value ==> !CRLFAt(s, k)
    ensures r.None? ==> forall k :: i <= k ==> !CRLFAt(s, k)
    decreases |s| - i
  {
    if i + 1 >= |s| then None
    else if CRLFAt(s, i) then Some(i)
    else FindCRLF(s, i + 1)
  }

  /**
   * The readable bytes of a connection's input buffer (muduo's Buffer, which is not part
   * of this model). Bytes are only ever taken from the front.
   */
  class Buffer {
    var bytes: string

    constructor (initial: string)
      ensures bytes == initial
    {
      bytes := initial;
    }

    /** `retrieve`: drops `n` readable bytes from the front. */
    method Retrieve(n: nat)
      requires n <= |bytes|
      modifies this
      ensures bytes == old(bytes)[n..]
    {
      bytes := bytes[n..];
    }

    /** `retrieveAsString`: takes `n` bytes from the front and returns them. */
    method RetrieveAsString(n: nat) returns (taken: string)
      requires n <= |bytes|
      modifies this
      ensures taken + bytes == old(bytes) && |taken| == n
    {
      taken := bytes[..n];
      bytes := bytes[n..];
    }
  }

  /** What the front of the buffer holds, as one turn of `handleMessage` sees it. */
  datatype FrameStep =
    | Incomplete                            // no CRLF yet, or fewer bytes than declared
    | Heartbeat                             // an empty line
    | BadHeader(detail: Detail)             // a length that is not accepted
    | Complete(consumed: nat, body: string) // header and body, `consumed` bytes in all

  /**
   * One turn of the decoder. The header is everything up to and including the first
   * CRLF; an empty header is a heartbeat line.
   */
  function NextFrame(s: string): (f: FrameStep)
    ensures f.Heartbeat? ==> CRLFAt(s, 0)
    ensures f.BadHeader? ==> f.detail in {InvalidMessageLength, MessageTooLong}
  {
    match FindCRLF(s, 0)
    case None => Incomplete
    case Some(k) => if k == 0 then Heartbeat else FrameAfterHeader(s, k + 2)
  }

  /**
   * The frame behind a header of `headerLen` bytes: the header must read as a JSON int32
   * greater than zero and below the limit; the body is the next `length` bytes once they
   * are all there.
   */
  function FrameAfterHeader(s: string, headerLen: nat): (f: FrameStep)
    requires headerLen <= |s|
    ensures !f.Heartbeat?
    ensures f.Complete? ==> f.consumed == headerLen + |f.body| <= |s| && s[headerLen..f.consumed] == f.body &&
                            0 < |f.body| < MaxMessageLen && ParseText(s[..headerLen]).Parsed? &&
                            ParseText(s[..headerLen]).value == Int32(|f.body| as int32)
  {
    var header := ParseText(s[..headerLen]);
    if !(header.Parsed? && header.value.Int32? && header.value.i32 > 0) then BadHeader(InvalidMessageLength)
    else
      var jsonLen := header.value.i32 as int;
      if jsonLen >= MaxMessageLen then BadHeader(MessageTooLong)
      else if |s| < headerLen + jsonLen then Incomplete
      else Complete(headerLen + jsonLen, s[headerLen..headerLen + jsonLen])
  }

  /** The exception that ends a call of `handleMessage`, if one does. */
  datatype Escape = RequestEscape(e: RequestException) | NotifyEscape(ne: NotifyException)

  /**
   * What draining a buffer did: the bytes left behind, the frames sent back (in order),
   * the requests handed to notification procedures, and the exception that ended it.
   */
  datatype Drained = Drained(rest: string, sent: seq<string>, notified: seq<Value>, escape: Option<Escape>)

  /** The `done` callback of `handleMessage`: every response but json null is sent. */
  function Outgoing(done: seq<Value>): (sent: seq<string>)
    ensures |sent| <= |done|
    ensures (forall i :: 0 <= i < |done| ==> done[i].Null?) ==> sent == []
  {
    if done == [] then []
    else (if done[0].Null? then [] else [SendResponse(done[0])]) + Outgoing(done[1..])
  }

  /** Earlier frames' effects in front of what draining the rest does. */
  function After(sent: seq<string>, notified: seq<Value>, d: Drained): Drained {
    Drained(d.rest, sent + d.sent, notified + d.notified, d.escape)
  }

  /**
   * `handleMessage` as a function of the buffer: frames are handled in order until the
   * buffer holds no complete frame, an empty line has been consumed, or an exception
   * escapes. A bad header leaves its bytes in place; a body is consumed before it is
   * handled.
   */
  function HandleMessageSpec(server: RpcServer.RpcServer, s: string): (d: Drained)
    reads server, server.services.Values
    ensures |d.rest| <= |s|
    decreases |s|
  {
    match NextFrame(s)
    case Incomplete => Drained(s, [], [], None)
    case Heartbeat => Drained(s[2..], [], [], None)
    case BadHeader(detail) => Drained(s, [], [], Some(RequestEscape(NoIdError(RpcInvalidRequest, detail))))
    case Complete(n, body) =>
      match server.HandleRequestSpec(body)
      case RequestError(e) => Drained(s[n..], [], [], Some(RequestEscape(e)))
      case NotifyError(ne) => Drained(s[n..], [], [], Some(NotifyEscape(ne)))
      case Handled(notified, done) => After(Outgoing(done), notified, HandleMessageSpec(server, s[n..]))
  }

  lemma AfterAfter(a: seq<string>, b: seq<Value>, c: seq<string>, e: seq<Value>, d: Drained)
    ensures After(a, b, After(c, e, d)) == After(a + c, b + e, d)
  {
    assert a + (c + d.sent) == (a + c) + d.sent;
    assert b + (e + d.notified) == (b + e) + d.notified;
  }

  lemma AfterNothing(d: Drained)
    ensures After([], [], d) == d
  {
    assert [] + d.sent == d.sent;
    assert [] + d.notified == d.notified;
  }

  /** The bytes a turn of the decoder takes off the buffer. */
  function Consumed(f: FrameStep): nat {
    match f
    case Heartbeat => 2
    case Complete(n, _) => n
    case _ => 0
  }

  lemma TakenFront(s: string, h: nat, taken: string, rest: string)
    requires h <= |s| && taken + rest == s[h..]
    ensures taken == s[h..h + |taken|] && rest == s[h + |taken|..]
  {
    assert taken == (taken + rest)[..|taken|];
    assert rest == (taken + rest)[|taken|..];
  }

  /**
   * One turn of `handleMessage` up to the call of `handleRequest`: find the CRLF, then
   * read the frame behind the header.
   */
  method ReadFrame(buffer: Buffer) returns (f: FrameStep)
    modifies buffer
    ensures f == NextFrame(old(buffer.bytes))
    ensures Consumed(f) <= |old(buffer.bytes)| && buffer.bytes == old(buffer.bytes)[Consumed(f)..]
  {
    var crlf := FindCRLF(buffer.bytes, 0);
    if crlf.None? {
      return Incomplete;
    }
    if crlf.value == 0 {
      buffer.Retrieve(2);
      return Heartbeat;
    }
    f := TakeFrame(buffer, crlf.value + 2);
  }

  /**
   * Reads the header, checks the declared length and, when the whole frame is there,
   * takes the header and the body off the buffer.
   */
  method TakeFrame(buffer: Buffer, headerLen: nat) returns (f: FrameStep)
    requires headerLen <= |buffer.bytes|
    modifies buffer
    ensures f == FrameAfterHeader(old(buffer.bytes), headerLen)
    ensures Consumed(f) <= |old(buffer.bytes)| && buffer.bytes == old(buffer.bytes)[Consumed(f)..]
  {
    var header := ParseText(buffer.bytes[..headerLen]);
    if !(header.Parsed? && header.value.Int32? && header.value.i32 > 0) {
      return BadHeader(InvalidMessageLength);
    }
    var jsonLen := header.value.i32 as int;
    if jsonLen >= MaxMessageLen {
      return BadHeader(MessageTooLong);
    }
    if |buffer.bytes| < headerLen + jsonLen {
      return Incomplete;
    }
    buffer.Retrieve(headerLen);
    var json := buffer.RetrieveAsString(jsonLen);
    TakenFront(old(buffer.bytes), headerLen, json, buffer.bytes);
    f := Complete(headerLen + jsonLen, json);
  }

  /**
   * One turn of `handleMessage`: read a frame and hand its body to `handleRequest`. It
   * either stops the loop, with what the rest of the call does, or goes on with the next
   * frame after sending and notifying what this one caused.
   */
  method DrainTurn(server: RpcServer.RpcServer, buffer: Buffer) returns (stop: bool, step: Drained)
    modifies buffer
    ensures stop ==> step == HandleMessageSpec(server, old(buffer.bytes)) && step.rest == buffer.bytes
    ensures !stop ==> |buffer.bytes| < |old(buffer.bytes)| &&
                      HandleMessageSpec(server, old(buffer.bytes)) == After(step.sent, step.notified, HandleMessageSpec(server, buffer.bytes))
  {
    var f := ReadFrame(buffer);
    match f
    case Incomplete =>
      return true, Drained(buffer.bytes, [], [], None);
    case Heartbeat =>
      return true, Drained(buffer.bytes, [], [], None);
    case BadHeader(detail) =>
      return true, Drained(buffer.bytes, [], [], Some(RequestEscape(NoIdError(RpcInvalidRequest, detail))));
    case Complete(_, json) =>
      var h := server.HandleRequest(json);
      match h
      case RequestError(e) =>
        return true, Drained(buffer.bytes, [], [], Some(RequestEscape(e)));
      case NotifyError(ne) =>
        return true, Drained(buffer.bytes, [], [], Some(NotifyEscape(ne)));
      case Handled(n, done) =>
        return false, Drained(buffer.bytes, Outgoing(done), n, None);
  }

  /**
   * `handleMessage`: the decoder loop over the buffer, in place. It leaves the buffer,
   * sends and notifies exactly what `HandleMessageSpec` says, and reports the exception
   * that ended it instead of throwing.
   */
  method HandleMessage(server: RpcServer.RpcServer, buffer: Buffer)
    returns (sent: seq<string>, notified: seq<Value>, escape: Option<Escape>)
    modifies buffer
    ensures Drained(buffer.bytes, sent, notified, escape) == HandleMessageSpec(server, old(buffer.bytes))
  {
    sent, notified, escape := [], [], None;
    AfterNothing(HandleMessageSpec(server, buffer.bytes));
    while true
      invariant HandleMessageSpec(server, old(buffer.bytes)) == After(sent, notified, HandleMessageSpec(server, buffer.bytes))
      decreases |buffer.bytes|
    {
      var stop, step := DrainTurn(server, buffer);
      if stop {
        sent, notified, escape := sent + step.sent, notified + step.notified, step.escape;
        return;
      }
      AfterAfter(sent, notified, step.sent, step.notified, HandleMessageSpec(server, buffer.bytes));
      sent, notified := sent + step.sent, notified + step.notified;
    }
  }

  /**
   * `onMessage`: drain the buffer; a RequestException that escapes is answered with its
   * error response and the connection is shut down, a NotifyException is only logged.
   */
  method OnMessage(server: RpcServer.RpcServer, buffer: Buffer) returns (sent: seq<string>, shutdown: bool)
    modifies buffer
    ensures var d := HandleMessageSpec(server, old(buffer.bytes));
            buffer.bytes == d.rest &&
            (shutdown <==> d.escape.Some? && d.escape.value.RequestEscape?) &&
            sent == d.sent + (if shutdown then [SendResponse(WrapException(d.escape.value.e))] else [])
  {
    var notified: seq<Value>, escape: Option<Escape>;
    sent, notified, escape := HandleMessage(server, buffer);
    shutdown := false;
    if escape.Some? && escape.value.RequestEscape? {
      sent := sent + [SendResponse(WrapException(escape.value.e))];
      shutdown := true;
    }
  }

  // ---------------------------------------------------------------- properties

  /** The header `sendResponse` writes reads back as the int32 it declares. */
  lemma HeaderRoundTrip(n: int)
    requires 0 < n < 0x8000_0000
    ensures ParseText(Dec(n) + CRLF) == Parsed(Int32(n as int32), |Dec(n)| + 2)
  {
    var d := Dec(n);
    var h := d + CRLF;
    PositiveText(n);
    RoundTrip.NoWs(h, 0);
    RoundTrip.ValueIsNumber(h, 0);
    assert h[0..|d|] == d;
    MatchesAtSlice(h, 0, d);
    RoundTrip.NumberRoundTrip(h, 0, n);
    assert SkipWs(h, |d|) == SkipWs(h, |d| + 1) == |h|;
  }

  /** A buffer that starts with the header of a positive length goes on to read its body. */
  lemma HeaderAt(s: string, n: int)
    requires 0 < n < 0x8000_0000 && |Dec(n)| + 2 <= |s| && s[..|Dec(n)| + 2] == Dec(n) + CRLF
    ensures NextFrame(s) == FrameAfterHeader(s, |Dec(n)| + 2)
    ensures ParseText(s[..|Dec(n)| + 2]) == Parsed(Int32(n as int32), |Dec(n)| + 2)
  {
    PositiveText(n);
    FirstLineAt(s, Dec(n));
    HeaderRoundTrip(n);
  }

  /** Digits followed by CRLF: the first CRLF is the one after the digits. */
  lemma FirstLineAt(s: string, d: string)
    requires AllDigits(d) && |d| + 2 <= |s| && s[..|d| + 2] == d + CRLF
    ensures FindCRLF(s, 0) == Some(|d|)
  {
    assert CRLFAt(s, |d|) by {
      assert s[|d|] == (d + CRLF)[|d|] && s[|d| + 1] == (d + CRLF)[|d| + 1];
    }
    assert forall k :: 0 <= k < |d| ==> !CRLFAt(s, k) by {
      forall k | 0 <= k < |d| ensures !CRLFAt(s, k) {
        assert s[k] == (d + CRLF)[k] == d[k];
      }
    }
  }

  /**
   * A frame built by `sendResponse`, with anything behind it, is decoded in one turn: the
   * body is the text and its CRLF, and exactly the frame is consumed.
   */
  lemma FrameRoundTrip(t: string, rest: string)
    requires |t| + 2 < MaxMessageLen
    ensures NextFrame(Frame(t) + rest) == Complete(|Frame(t)|, t + CRLF)
  {
    var n := |t| + 2;
    var d := Dec(n);
    var s := Frame(t) + rest;
    assert s[..|d| + 2] == d + CRLF;
    HeaderAt(s, n);
    assert s[|d| + 2..|d| + 2 + n] == t + CRLF;
  }

  /** A frame that has only partly arrived is left in the buffer, whatever part is there. */
  lemma PartialFrameWaits(t: string, k: nat)
    requires |t| + 2 < MaxMessageLen && k < |Frame(t)|
    ensures NextFrame(Frame(t)[..k]) == Incomplete
  {
    var n := |t| + 2;
    var d := Dec(n);
    var s := Frame(t)[..k];
    if k < |d| + 2 {
      PartialHeaderWaits(n, s);
    } else {
      assert s[..|d| + 2] == d + CRLF;
      HeaderAt(s, n);
    }
  }

  /** Before the header's CRLF has fully arrived there is no line to read. */
  lemma PartialHeaderWaits(n: int, s: string)
    requires n > 0 && |s| < |Dec(n)| + 2 && forall j :: 0 <= j < |s| && j < |Dec(n)| ==> s[j] == Dec(n)[j]
    ensures NextFrame(s) == Incomplete
  {
    PositiveText(n);
    assert forall j :: 0 <= j ==> !CRLFAt(s, j);
  }

  /**
   * Draining a buffer that starts with a frame hands `handleRequest` the frame's text and
   * CRLF; what follows is drained after it only if no exception escaped.
   */
  lemma FrameDelivered(server: RpcServer.RpcServer, t: string, rest: string)
    requires |t| + 2 < MaxMessageLen
    ensures var d := HandleMessageSpec(server, Frame(t) + rest);
            var h := server.HandleRequestSpec(t + CRLF);
            (h.Handled? ==> d == After(Outgoing(h.done), h.notified, HandleMessageSpec(server, rest))) &&
            (h.RequestError? ==> d == Drained(rest, [], [], Some(RequestEscape(h.e)))) &&
            (h.NotifyError? ==> d == Drained(rest, [], [], Some(NotifyEscape(h.ne))))
  {
    FrameRoundTrip(t, rest);
    assert (Frame(t) + rest)[|Frame(t)|..] == rest;
  }

  /**
   * A response frame read back by a peer with the same decoder: one complete frame whose
   * body parses to the response (integers in their narrowest type).
   */
  lemma ResponseReadBack(response: Value)
    requires RoundTrip.Writable(response) && |Writer.Text(response)| + 2 < MaxMessageLen
    ensures NextFrame(SendResponse(response)) == Complete(|SendResponse(response)|, Writer.Text(response) + CRLF)
    ensures ParseText(Writer.Text(response) + CRLF) == Parsed(RoundTrip.Normalize(response), |Writer.Text(response)| + 2)
  {
    FrameRoundTrip(Writer.Text(response), []);
    assert Frame(Writer.Text(response)) + [] == Frame(Writer.Text(response));
    RoundTrip.ParseTextThenCRLF(response);
  }

  /** Bytes without a CRLF are left alone: nothing is consumed, sent or raised. */
  lemma NoLineWaits(server: RpcServer.RpcServer, s: string)
    requires forall k :: 0 <= k ==> !CRLFAt(s, k)
    ensures HandleMessageSpec(server, s) == Drained(s, [], [], None)
  {
    assert FindCRLF(s, 0).None?;
  }

  /** An empty line consumes its two bytes and ends the call; frames behind it wait. */
  lemma HeartbeatStops(server: RpcServer.RpcServer, s: string)
    requires CRLFAt(s, 0)
    ensures HandleMessageSpec(server, s) == Drained(s[2..], [], [], None)
  {
    assert FindCRLF(s, 0) == Some(0);
  }
}
