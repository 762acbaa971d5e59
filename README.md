# netpump tunnel core in Dafny

netpump carries TCP connections between two machines through a browser tab.
On the client, a SOCKS5 proxy hands each connection to `dialThroughTunnel`.
That function opens a stream on the yamux session that runs over the browser's
websocket. It writes the target address and reads back one status byte. On
the server, each accepted stream is handled by `handleStream`: it reads the
address, dials it, answers `0x00` or `0x01` and then relays bytes. Both sides
run yamux over `wsAdapter`, which turns websocket messages into a byte stream.

This project models that core:

- `common.dfy` (`Common`): bytes, `Option`, and `Flatten`, the byte stream a
  sequence of messages amounts to.
- `tunnel_protocol.dfy` (`TunnelProtocol`): the request header
  `[len: u8][addr]`, the server's decoder, and the status bytes. It proves the
  round trip for addresses of at most 255 bytes. It also proves what happens
  to longer ones: the length byte wraps modulo 256 and the server reads a
  truncated address.
- `client_dial.dfy` (`ClientDial`): `dialThroughTunnel` as a method with a
  loop. Everything it observes from outside is an oracle (`Env`): the session
  slot at each check, cancellation during each one-second wait, and the
  results of `Open`, of writing the header and of reading the status byte.
  The result records how many checks, waits and `Open` calls were made, the
  operations on the stream in order, and the outcome.
- `client_sessions.dfy` (`ClientSessions`): the client's `muxSession`/`wsConn`
  slot as a class. `handleLocalWebSocket` becomes `Attach` followed later by
  `SessionClosed`. `Stop` is also modelled. Every `Close` call is logged.
- `ws_adapter.dfy` (`WsAdapter`): `wsAdapter` as a class. It holds a queue of
  incoming messages, the optional cursor over the current message and a log
  of sent messages. Its invariant: the bytes delivered so far, then the rest
  of the cursor, then the queued messages, make up the whole incoming stream.
  The client and server copies are identical, so one class models both.
- `server.dfy` (`Server`): `handleStream`, proved against the decoder; the
  accept loop of `handleWebSocket`; and `getClientIP`.
- `host_port.dfy` (`HostPort`): `getClientIP` calls Go's `net.SplitHostPort`,
  which is not part of the repository. This module models Go's algorithm for
  it, and `JoinHostPort` as its inverse.

Three behaviours of the code are worth knowing up front:

- A session close clears the slot unconditionally, so a stale close wipes a
  newer session (see Findings).
- Addresses longer than 255 bytes are not rejected: the length byte wraps
  modulo 256.
- The server keeps no session slot: each websocket runs its own accept loop.

## Model

| member | source | states |
|---|---|---|
| `TunnelProtocol.LengthByte` | private/client/client.go:126 | `byte(len(addr))` equals the length whenever the length is at most 255 |
| `TunnelProtocol.EncodeRequest` | private/client/client.go:126-127 | the header is `1 + len(addr)` bytes long; everything after the first byte is the address; for addresses up to 255 bytes the first byte is the length |
| `TunnelProtocol.DecodeRequest` | private/server/server.go:104-118 | only an empty stream fails on the length byte; a decoded request uses exactly `1 + len(target)` bytes, never more than were sent |
| `TunnelProtocol.DecodedIsEncoding` | private/server/server.go:104-118 | whatever the server decodes is exactly the client's encoding of that target followed by unread bytes; the target is at most 255 bytes |
| `TunnelProtocol.DecodeEncode` | private/server/server.go:111-118 | round trip: the encoding of any address of at most 255 bytes decodes back to that address, whatever bytes follow |
| `TunnelProtocol.DecodeLongAddress` | private/client/client.go:126-127 | for an address of more than 255 bytes nothing rejects it; the length byte is `len mod 256` and the server decodes only the first `len mod 256` bytes, which differ from the address |
| `TunnelProtocol.Address256DecodesEmpty` | private/client/client.go:126 | a 256-byte address reaches the server as the empty target |
| `ClientDial.DialThroughTunnel` | private/client/client.go:94-147 | at most 30 checks of the session slot; timeout exactly when all 30 checks and waits saw neither a session nor cancellation, with no stream opened; cancellation is seen only during a wait and opens nothing; a found session gets exactly one `Open`; an `Open` error is returned at once with nothing written; then exactly one header write `EncodeRequest(addr)` and one status read, with the stream closed after a failed write, a failed read or a non-zero status; only status `0x00` returns the open stream |
| `WsAdapter.Adapter.constructor` | private/client/client.go:191 | a fresh adapter holds no cursor and has sent and delivered nothing; its stream is the concatenation of the channel's messages |
| `WsAdapter.Adapter.Read` | private/client/client.go:221-239 | keeps the invariant that delivered bytes, then the cursor, then the queue, make up the stream; returns the next bytes of the stream in order, at most the buffer's size; fetches a message only when no cursor is held; copies as much of the current message as fits; clears the cursor exactly when the message ends and still returns no error; errors come only from fetching on an exhausted channel or from the message reader, with no bytes; a reader error keeps the current message under the cursor, so the next read resumes it |
| `WsAdapter.Adapter.Write` | private/client/client.go:241-247 | on an open channel, success sends all of `b` as exactly one new message and returns `len(b)`, and failure sends nothing and returns 0 and the error; after `Close` every write fails with nothing sent; the read side is untouched |
| `WsAdapter.Adapter.Close` | private/client/client.go:249-251 | marks the channel closed, after which `Write` refuses every message; nothing else changes |
| `ClientSessions.Client.constructor` | private/client/client.go:35-46 | a new client has empty slots, a live context and has closed nothing |
| `ClientSessions.Client.Attach` | private/client/client.go:179-199 | closes the previous websocket if there is one, then stores the new one; publishes the new session if setup succeeded; if setup failed, keeps the old session and closes the new websocket, which stays in the slot |
| `ClientSessions.Client.SessionClosed` | private/client/client.go:204-209 | when a session ends, both slots become empty whatever they hold, and the handler's websocket is closed |
| `ClientSessions.Client.SessionClosedIfCurrent` | private/client/client.go:206-209 | corrected close handling: the slots are emptied only when they still hold the session that ended; otherwise they are left as they are |
| `ClientSessions.Client.Stop` | private/client/client.go:80-91 | cancels the context and closes the session and the websocket, each if present; the slots keep their values |
| `ClientSessions.StaleCloseWipesNewerSession` | private/client/client.go:184-209 | attach 1, attach 2, end of session 1: both slots end up empty although session 2 is alive |
| `ClientSessions.StaleCloseKeepsNewerSession` | private/client/client.go:206-209 | the same events with the corrected close keep session 2 and websocket 2 in the slot |
| `Server.ReadFull` | private/server/server.go:105 | `io.ReadFull` over a stream that ends: it succeeds exactly when `n` bytes remain, and then returns those bytes |
| `Server.HandleStream` | private/server/server.go:100-130 | parses exactly what `DecodeRequest` parses; a short length or short address writes nothing and closes the stream; otherwise dials the decoded target; on failure writes exactly `0x01` and closes; on success writes exactly `0x00` before any relay traffic; a zero length byte dials the empty target |
| `Server.AcceptLoop` | private/server/server.go:84-97 | hands accepted streams to handlers in order and stops at the first `Accept` error; no stream after that error is handled |
| `Server.GetClientIP` | private/server/server.go:151-162 | a non-empty `X-Forwarded-For` is returned verbatim; otherwise, when `SplitHostPort` splits the remote address, the result is its host (the part in front of `:port`, unbracketed), and when it does not, the remote address unchanged |
| `Server.ClientIPOfRemoteAddr` | private/server/server.go:157-161 | for a remote address built from a host and a port, the host is returned |
| `HostPort.SplitHostPort` | private/server/server.go:157 | a successful split gives a colon-free port, and the address is `host:port` or `[host]:port`; an address without a colon is rejected for missing its port |
| `HostPort.SplitJoin` | private/server/server.go:157 | splitting `JoinHostPort(host, port)` gives back `host` and `port` when neither contains brackets and the port contains no colon |

## Left out

- The relay in `handleStream` (private/server/server.go:134-147). It is two
  goroutines running `io.Copy`, so it is about concurrency. The model stops
  once `0x00` is written. The deferred close after the relay is not modelled.
- The SOCKS5 server, the HTTP servers, the websocket upgrade handlers beyond
  the slot logic, `Start`, `startWebInterface`, `handleHealth` and the
  server's `Stop`. These are network plumbing over libraries. So are the
  early returns of `handleWebSocket` when the upgrade or yamux setup fails.
- yamux itself (framing, flow control, `Open`, `Accept`, close
  notification) and websocket framing. They appear only as oracle results.
- Time. Each one-second wait in `dialThroughTunnel` is one abstract step. The
  10-second `net.DialTimeout` is the `dial` oracle of `HandleStream`.
- The mutexes `muxMu` and `wsAdapter.mu`. Each critical section is one atomic
  method. `Stop` does not take `muxMu` in the source; that race is not modelled.
- `Stop` also closes the client's HTTP server; that is not modelled.
- The `network` argument of `dialThroughTunnel`, which the source ignores.
- `LocalAddr` and `RemoteAddr` of `wsAdapter`, which only forward to the
  websocket.
- The message type returned by `NextReader`. The source ignores it, and so
  does the model.
- Logging, html.go and the command-line entry point.
- WsAdapter.Adapter.Read: the underlying reader is assumed to fill the buffer
  as far as the current message allows. A short read that is not at the end
  of a message is not modelled. A reader error returns no bytes; Go allows
  bytes to come with the error.
- WsAdapter.Adapter.Close: the error `ws.Close` returns is not modelled,
  including the one from a second close. Reads after a close are not
  constrained: the channel oracle still delivers queued messages and the
  bytes under the cursor. Writes after a close fail with `ChannelClosed`,
  which stands for whatever error the closed connection reports.
- Server.AcceptLoop: the deferred `session.Close()` and `ws.Close()` of
  `handleWebSocket` (private/server/server.go:70, 82), which run once the
  loop stops, are not modelled.
- HostPort.SplitHostPort: the contract describes successful splits and the
  missing-colon case; the other error kinds are not characterised in the
  contract.

## Findings

| source | as written | input that shows it | evidently intended | confidence | as-written member | corrected member |
|---|---|---|---|---|---|---|
| private/client/client.go:206-209 | when a session ends, its handler sets `muxSession` and `wsConn` to nil whatever they hold | browser A attaches (websocket 1, session 1); browser B attaches (websocket 2, session 2), which closes websocket 1; session 1 then ends and empties the slot while session 2 is live, so new dials wait or time out | clear the slot only if it still holds the session that ended (compare-and-clear) | high; not executed | `ClientSessions.StaleCloseWipesNewerSession` | `ClientSessions.Client.SessionClosedIfCurrent` |
