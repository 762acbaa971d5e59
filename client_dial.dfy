/**
  The client's dial hook: wait (bounded) for a multiplexed session, open one
  stream on it, write the tunnel request and read back the one-byte status.
  Everything the function observes from outside is an oracle in `Env`.
 */
module ClientDial {
  import opened Common
  import opened TunnelProtocol

  /** How many times the session slot is checked before giving up (one check per second). */
  const MAX_CHECKS := 30

  /** The outside world as `dialThroughTunnel` observes it. */
  datatype Env = Env(
    sessionPresent: nat -> bool,       // whether the slot holds a session at check number i
    cancelledDuringWait: nat -> bool,  // whether the context is done during the wait after check i
    openOk: bool,                      // whether the session's Open succeeds
    writeOk: bool,                     // whether writing the request header succeeds
    status: Option<byte>)              // the status byte read back, or None when that read fails

  /** The operations performed on the opened stream, in order. */
  datatype StreamOp = Write(data: seq<byte>) | ReadStatus | Close

  datatype DialError =
    | OpenFailed     // the session refused to open a stream
    | Cancelled      // the context ended while waiting for a session
    | TimedOut       // no session within MAX_CHECKS checks
    | SendFailed     // writing the request header failed
    | StatusFailed   // reading the status byte failed
    | RemoteRefused  // the server answered with a non-zero status

  datatype Outcome = Connected | Failed(error: DialError)

  /**
    What one call did: how many times it checked the slot, how many waits it
    started, how many times it called Open, what it did to the stream, and how
    it ended.
   */
  datatype Trace = Trace(checks: nat, waits: nat, opens: nat, ops: seq<StreamOp>, outcome: Outcome)

  /** No session and no cancellation at any of the first n checks. */
  ghost predicate QuietUpTo(env: Env, n: nat)
  {
    forall j: nat :: j < n ==> !env.sessionPresent(j) && !env.cancelledDuringWait(j)
  }

  method DialThroughTunnel(addr: seq<byte>, env: Env) returns (t: Trace)
    // bounded wait: at most MAX_CHECKS checks, and every check but the last found nothing
    ensures 1 <= t.checks <= MAX_CHECKS
    ensures QuietUpTo(env, t.checks - 1)
    // timeout exactly when all MAX_CHECKS checks and waits saw nothing
    ensures t.outcome == Failed(TimedOut) <==> QuietUpTo(env, MAX_CHECKS)
    ensures t.outcome == Failed(TimedOut) ==> t.checks == t.waits == MAX_CHECKS && t.opens == 0 && t.ops == []
    // cancellation is only seen while waiting, and nothing is opened
    ensures t.outcome == Failed(Cancelled) <==>
      !env.sessionPresent(t.checks - 1) && env.cancelledDuringWait(t.checks - 1)
    ensures t.outcome == Failed(Cancelled) ==> t.waits == t.checks && t.opens == 0 && t.ops == []
    // a session found: exactly one Open, no wait after that check
    ensures env.sessionPresent(t.checks - 1) <==> t.opens == 1
    ensures t.opens <= 1
    ensures t.opens == 1 ==> t.waits == t.checks - 1
    // an Open error is returned at once: nothing written, no retry
    ensures t.outcome == Failed(OpenFailed) <==> t.opens == 1 && !env.openOk
    ensures t.outcome == Failed(OpenFailed) ==> t.ops == []
    // the handshake: one header write, then one status read, closing on any failure
    ensures t.opens == 1 && env.openOk ==> |t.ops| >= 2 && t.ops[0] == Write(EncodeRequest(addr))
    ensures t.outcome == Failed(SendFailed) <==> t.opens == 1 && env.openOk && !env.writeOk
    ensures t.outcome == Failed(SendFailed) ==> t.ops == [Write(EncodeRequest(addr)), Close]
    ensures t.outcome == Failed(StatusFailed) <==> t.opens == 1 && env.openOk && env.writeOk && env.status.None?
    ensures t.outcome == Failed(RemoteRefused) <==>
      t.opens == 1 && env.openOk && env.writeOk && env.status.Some? && env.status.value != STATUS_OK
    ensures t.outcome == Failed(StatusFailed) || t.outcome == Failed(RemoteRefused) ==>
      t.ops == [Write(EncodeRequest(addr)), ReadStatus, Close]
    // only status 0x00 hands the open stream back, after one write and one read
    ensures t.outcome == Connected <==>
      t.opens == 1 && env.openOk && env.writeOk && env.status == Some(STATUS_OK)
    ensures t.outcome == Connected ==> t.ops == [Write(EncodeRequest(addr)), ReadStatus]
  {
    var haveStream := false;
    var checks, waits := 0, 0;
    var retries := 0;
    while retries < MAX_CHECKS
      invariant 0 <= retries <= MAX_CHECKS
      invariant !haveStream && checks == retries && waits == retries
      invariant QuietUpTo(env, retries)
    {
      checks := checks + 1;
      if env.sessionPresent(retries) {
        if env.openOk {
          haveStream := true;
          break;
        }
        return Trace(checks, waits, 1, [], Failed(OpenFailed));
      }
      waits := waits + 1;
      if env.cancelledDuringWait(retries) {
        return Trace(checks, waits, 0, [], Failed(Cancelled));
      }
      retries := retries + 1;
    }

    if !haveStream {
      return Trace(checks, waits, 0, [], Failed(TimedOut));
    }

    var header := EncodeRequest(addr);
    var ops := [Write(header)];
    if !env.writeOk {
      return Trace(checks, waits, 1, ops + [Close], Failed(SendFailed));
    }

    ops := ops + [ReadStatus];
    if env.status.None? {
      return Trace(checks, waits, 1, ops + [Close], Failed(StatusFailed));
    }

    if env.status.value != STATUS_OK {
      return Trace(checks, waits, 1, ops + [Close], Failed(RemoteRefused));
    }
    return Trace(checks, waits, 1, ops, Connected);
  }
}
