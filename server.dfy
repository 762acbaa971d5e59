/**
  The server side: the per-stream handler that reads the tunnel request,
  dials the target and answers with one status byte; the loop that hands
  accepted streams to it; and the rule that picks the client address to log.
 */
module Server {
  import opened Common
  import opened TunnelProtocol
  import opened HostPort

  /**
    Go's io.ReadFull of `n` bytes from a stream whose remaining input is
    `input[pos..]` up to its end: it succeeds only if all `n` bytes are there.
   */
  method ReadFull(input: seq<byte>, pos: nat, n: nat) returns (ok: bool, buf: seq<byte>, next: nat)
    requires pos <= |input|
    ensures ok <==> pos + n <= |input|
    ensures ok ==> buf == input[pos..pos + n] && next == pos + n
    ensures next <= |input|
  {
    if pos + n <= |input| {
      return true, input[pos..pos + n], pos + n;
    }
    return false, [], |input|;
  }

  /** Where handling a stream stopped. */
  datatype StreamEnd =
    | LengthUnread   // the length byte never arrived
    | AddressUnread  // fewer address bytes arrived than announced
    | DialFailed     // the target could not be reached; 0x01 sent, stream closed
    | Relaying       // 0x00 sent; the relay owns the stream from here

  /** What the handler did: whom it dialed, every byte it wrote, and whether it closed the stream. */
  datatype Handled = Handled(dialed: Option<seq<byte>>, written: seq<byte>, closed: bool, end: StreamEnd)

  /**
    Handle one accepted stream. `incoming` is everything the client sends on it
    before its side ends; `dial` says whether dialing a target succeeds.
   */
  method HandleStream(incoming: seq<byte>, dial: seq<byte> -> bool) returns (h: Handled)
    // parsing is exactly the tunnel request decoder
    ensures DecodeRequest(incoming).Malformed? ==>
      h.dialed == None && h.written == [] && h.closed &&
      h.end == (if DecodeRequest(incoming).error == ShortLength then LengthUnread else AddressUnread)
    ensures DecodeRequest(incoming).Decoded? ==>
      var target := DecodeRequest(incoming).request.target;
      && h.dialed == Some(target)
      && (dial(target) ==> h.written == [STATUS_OK] && !h.closed && h.end == Relaying)
      && (!dial(target) ==> h.written == [STATUS_DIAL_FAILED] && h.closed && h.end == DialFailed)
    // at most one byte is ever written, and it says whether the relay runs
    ensures |h.written| <= 1
    ensures h.end == Relaying <==> h.written == [STATUS_OK]
    // a zero length byte is accepted: the empty target is dialed
    ensures |incoming| >= 1 && incoming[0] == 0 ==> h.dialed == Some([])
  {
    var ok, lenBuf, pos := ReadFull(incoming, 0, 1);
    if !ok {
      return Handled(None, [], true, LengthUnread);
    }
    var addrLen: nat := lenBuf[0];
    var addrBuf;
    ok, addrBuf, pos := ReadFull(incoming, pos, addrLen);
    if !ok {
      return Handled(None, [], true, AddressUnread);
    }
    var target := addrBuf;
    if !dial(target) {
      return Handled(Some(target), [STATUS_DIAL_FAILED], true, DialFailed);
    }
    return Handled(Some(target), [STATUS_OK], false, Relaying);
  }

  /**
    One result of the session's Accept: a new stream, or an error. Whether the
    error is io.EOF only chooses a log line, so the model does not record it.
   */
  datatype AcceptEvent = Accepted(stream: seq<byte>) | AcceptFailed

  /**
    The accept loop of one websocket's session. `events` are the successive
    results of Accept; the loop hands each accepted stream to a handler and
    stops at the first error. `stopped` is false when the events run out with
    the loop still waiting in Accept.
   */
  method AcceptLoop(events: seq<AcceptEvent>) returns (dispatched: seq<seq<byte>>, stopped: bool)
    ensures |dispatched| <= |events|
    ensures forall i :: 0 <= i < |dispatched| ==> events[i] == Accepted(dispatched[i])
    ensures stopped <==> exists i :: 0 <= i < |events| && events[i].AcceptFailed?
    ensures stopped ==> |dispatched| < |events| && events[|dispatched|].AcceptFailed?
    ensures !stopped ==> |dispatched| == |events|
  {
    dispatched := [];
    var i := 0;
    while i < |events|
      invariant i == |dispatched| <= |events|
      invariant forall j :: 0 <= j < i ==> events[j] == Accepted(dispatched[j])
    {
      if events[i].AcceptFailed? {
        return dispatched, true;
      }
      dispatched := dispatched + [events[i].stream];
      i := i + 1;
    }
    return dispatched, false;
  }

  /**
    The client address to log: the X-Forwarded-For value `xff` when present,
    else the host part of the connection's remote address, else the remote
    address itself.
   */
  function GetClientIP(xff: string, remoteAddr: string): (ip: string)
    ensures xff != "" ==> ip == xff
    ensures xff == "" ==>
      ip == remoteAddr || ip + ":" <= remoteAddr || "[" + ip + "]:" <= remoteAddr
    ensures xff == "" && ':' !in remoteAddr ==> ip == remoteAddr
    ensures xff == "" && SplitHostPort(remoteAddr).Invalid? ==> ip == remoteAddr
    ensures xff == "" && SplitHostPort(remoteAddr).Split? ==> ip == SplitHostPort(remoteAddr).host
  {
    if xff != "" then xff
    else
      match SplitHostPort(remoteAddr)
      case Split(host, _) => host
      case Invalid(_) => remoteAddr
  }

  /** For an address the HTTP server formats as host and port, the host comes back. */
  lemma ClientIPOfRemoteAddr(host: string, port: string)
    requires Plain(host, port)
    ensures GetClientIP("", JoinHostPort(host, port)) == host
  {
    SplitJoin(host, port);
  }
}
