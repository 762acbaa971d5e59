/**
  The adapter that presents a websocket (a channel of whole messages) as the
  continuous byte stream the multiplexer runs over. The client and the server
  carry identical copies of it.

  The channel is an oracle: `inbox` holds the messages the peer will still
  deliver, and `endError` is what fetching the next message reports once they
  are used up (the channel closed, or a transport error).
 */
module WsAdapter {
  import opened Common

  datatype ChannelError = ChannelClosed | TransportError(code: nat)

  /** Moving the first n bytes of `rest` from the pending side to the delivered side keeps the total. */
  lemma TakeFront(delivered: seq<byte>, rest: seq<byte>, n: nat, queued: seq<byte>)
    requires n <= |rest|
    ensures rest + queued == rest[..n] + (rest[n..] + queued)
    ensures (delivered + rest[..n]) + (rest[n..] + queued) == delivered + (rest + queued)
    ensures n == |rest| ==> rest[n..] + queued == queued
  {
  }

  class Adapter {
    /** Messages not yet fetched from the channel. */
    var inbox: seq<seq<byte>>
    /** What fetching reports when `inbox` is exhausted. */
    var endError: ChannelError
    /** The unread rest of the current message; None when no message is being read. */
    var cursor: Option<seq<byte>>
    /** Messages written to the channel, in order. */
    var outbox: seq<seq<byte>>
    var closed: bool

    /** Every byte handed to readers so far. */
    ghost var delivered: seq<byte>
    /** The concatenation of every message the channel delivers. */
    ghost var stream: seq<byte>

    /** The bytes still to be read: the cursor's rest, then the queued messages. */
    function Pending(): seq<byte>
      reads this
    {
      (if cursor.Some? then cursor.value else []) + Flatten(inbox)
    }

    /** Delivered bytes, then the cursor, then the queue, make up the whole stream. */
    ghost predicate Valid()
      reads this
    {
      delivered + Pending() == stream
    }

    constructor (messages: seq<seq<byte>>, endError: ChannelError)
      ensures Valid()
      ensures inbox == messages && this.endError == endError
      ensures cursor == None && outbox == [] && !closed
      ensures delivered == [] && stream == Flatten(messages)
    {
      inbox := messages;
      this.endError := endError;
      cursor := None;
      outbox := [];
      closed := false;
      delivered := [];
      stream := Flatten(messages);
    }

    /**
      Read into a buffer of `bufLen` bytes. `eofWithData` says whether the
      message reader reports end of message together with its last bytes
      (rather than on the following call); `fault` is an error the message
      reader itself reports part-way through a message.
     */
    method Read(bufLen: nat, eofWithData: bool, fault: Option<ChannelError>)
      returns (data: seq<byte>, err: Option<ChannelError>)
      requires Valid()
      modifies this
      ensures Valid() && stream == old(stream)
      ensures outbox == old(outbox) && closed == old(closed) && endError == old(endError)
      // the bytes returned are the next ones of the stream, in order
      ensures |data| <= bufLen
      ensures delivered == old(delivered) + data
      ensures old(Pending()) == data + Pending()
      // a new message is fetched only when no cursor is held
      ensures old(cursor).Some? ==> inbox == old(inbox)
      ensures old(cursor).None? && old(inbox) != [] ==> inbox == old(inbox)[1..]
      // errors come only from fetching on an exhausted channel or from the message reader
      ensures old(cursor).None? && old(inbox) == [] ==>
        err == Some(old(endError)) && data == [] && cursor == None && inbox == []
      ensures (old(cursor).Some? || old(inbox) != []) ==> err == fault
      ensures err.Some? ==> data == []
      // a reader fault keeps the current message: the next read resumes it
      ensures err.Some? && old(cursor).Some? ==> cursor == old(cursor)
      ensures err.Some? && old(cursor).None? && old(inbox) != [] ==> cursor == Some(old(inbox)[0])
      // without an error: as much of the current message as fits, and the
      // cursor is cleared exactly when that message is used up
      ensures err.None? ==>
        var cur := if old(cursor).Some? then old(cursor).value else old(inbox)[0];
        && |data| == (if bufLen < |cur| then bufLen else |cur|)
        && data == cur[..|data|]
        && (cursor.None? <==> |cur| == 0 || (eofWithData && |cur| <= bufLen))
        && (cursor.Some? ==> cursor.value == cur[|data|..])
    {
      if cursor.None? {
        if inbox == [] {
          return [], Some(endError);
        }
        var next := inbox[0];
        assert Flatten(inbox) == next + Flatten(inbox[1..]);
        cursor := Some(next);
        inbox := inbox[1..];
      }
      assert Pending() == old(Pending());
      if fault.Some? {
        return [], fault;
      }
      var rest := cursor.value;
      var n := if bufLen < |rest| then bufLen else |rest|;
      data := rest[..n];
      TakeFront(delivered, rest, n, Flatten(inbox));
      delivered := delivered + data;
      if |rest| == 0 || (eofWithData && n == |rest|) {
        cursor := None;
      } else {
        cursor := Some(rest[n..]);
      }
      err := None;
    }

    /**
      Send all of `b` as one binary message; `sendError` is the channel's
      verdict while it is open. Once closed, the channel refuses every write.
     */
    method Write(b: seq<byte>, sendError: Option<ChannelError>) returns (n: nat, err: Option<ChannelError>)
      requires Valid()
      modifies this
      ensures Valid()
      ensures old(closed) ==> n == 0 && err == Some(ChannelClosed) && outbox == old(outbox)
      ensures !old(closed) ==> err == sendError
      ensures !old(closed) && sendError.None? ==> n == |b| && outbox == old(outbox) + [b]
      ensures !old(closed) && sendError.Some? ==> n == 0 && outbox == old(outbox)
      ensures inbox == old(inbox) && cursor == old(cursor) && closed == old(closed)
      ensures delivered == old(delivered) && stream == old(stream) && endError == old(endError)
    {
      if closed {
        return 0, Some(ChannelClosed);
      }
      if sendError.Some? {
        return 0, sendError;
      }
      outbox := outbox + [b];
      return |b|, None;
    }

    /** Close the channel: every later write fails. */
    method Close()
      requires Valid()
      modifies this
      ensures Valid() && closed
      ensures inbox == old(inbox) && cursor == old(cursor) && outbox == old(outbox)
      ensures delivered == old(delivered) && stream == old(stream) && endError == old(endError)
    {
      closed := true;
    }
  }
}
