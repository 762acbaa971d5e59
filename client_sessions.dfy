/**
  The client's single session slot: the browser websocket currently in use and
  the multiplexed session running over it, both guarded by one mutex in the
  source (each critical section is one atomic method here). Websocket
  connections and sessions are named by numbers; `closedConns` and
  `closedSessions` log every Close call, in order, repeats included.
 */
module ClientSessions {
  import opened Common

  type ConnId = nat
  type SessionId = nat

  class Client {
    var muxSession: Option<SessionId>
    var wsConn: Option<ConnId>
    /** Whether the client's context has been cancelled. */
    var cancelled: bool
    var closedConns: seq<ConnId>
    var closedSessions: seq<SessionId>

    /** A new client: both slots empty, nothing closed, context live. */
    constructor ()
      ensures muxSession == None && wsConn == None && !cancelled
      ensures closedConns == [] && closedSessions == []
    {
      muxSession := None;
      wsConn := None;
      cancelled := false;
      closedConns := [];
      closedSessions := [];
    }

    /**
      A browser websocket `ws` attaches. The previous websocket, if any, is
      closed and `ws` takes its slot; `setup` is the session the multiplexer
      builds over `ws`, or None when that setup fails, in which case the
      handler returns and its deferred close shuts `ws` (still in the slot)
      while the old session stays published.
     */
    method Attach(ws: ConnId, setup: Option<SessionId>)
      modifies this
      ensures wsConn == Some(ws)
      ensures muxSession == if setup.Some? then setup else old(muxSession)
      ensures closedConns ==
        old(closedConns)
        + (if old(wsConn).Some? then [old(wsConn).value] else [])
        + (if setup.None? then [ws] else [])
      ensures closedSessions == old(closedSessions) && cancelled == old(cancelled)
    {
      if wsConn.Some? {
        closedConns := closedConns + [wsConn.value];
      }
      wsConn := Some(ws);
      if setup.None? {
        closedConns := closedConns + [ws];
        return;
      }
      muxSession := setup;
    }

    /**
      The session of the handler that attached `ws` has closed: both slots are
      emptied whatever they hold now, then the handler's deferred close shuts `ws`.
     */
    method SessionClosed(ws: ConnId)
      modifies this
      ensures muxSession == None && wsConn == None
      ensures closedConns == old(closedConns) + [ws]
      ensures closedSessions == old(closedSessions) && cancelled == old(cancelled)
    {
      muxSession := None;
      wsConn := None;
      closedConns := closedConns + [ws];
    }

    /**
      The close handling as evidently intended: the slots are emptied only if
      they still hold the session that closed.
     */
    method SessionClosedIfCurrent(session: SessionId, ws: ConnId)
      modifies this
      ensures old(muxSession) == Some(session) ==> muxSession == None && wsConn == None
      ensures old(muxSession) != Some(session) ==>
        muxSession == old(muxSession) && wsConn == old(wsConn)
      ensures closedConns == old(closedConns) + [ws]
      ensures closedSessions == old(closedSessions) && cancelled == old(cancelled)
    {
      if muxSession == Some(session) {
        muxSession := None;
        wsConn := None;
      }
      closedConns := closedConns + [ws];
    }

    /**
      Shut the client down: cancel the context and close whatever the slots
      hold, session first. The slots themselves are left as they are.
     */
    method Stop()
      modifies this
      ensures cancelled
      ensures closedSessions ==
        old(closedSessions) + (if old(muxSession).Some? then [old(muxSession).value] else [])
      ensures closedConns ==
        old(closedConns) + (if old(wsConn).Some? then [old(wsConn).value] else [])
      ensures muxSession == old(muxSession) && wsConn == old(wsConn)
    {
      cancelled := true;
      if muxSession.Some? {
        closedSessions := closedSessions + [muxSession.value];
      }
      if wsConn.Some? {
        closedConns := closedConns + [wsConn.value];
      }
    }
  }

  /**
    Browser A attaches (websocket 1, session 1); browser B replaces it
    (websocket 2, session 2), which closes websocket 1; session 1 then ends,
    and its handler empties the slot although session 2 is alive.
   */
  method StaleCloseWipesNewerSession() returns (slot: Option<SessionId>, conn: Option<ConnId>)
    ensures slot == None && conn == None
  {
    var c := new Client();
    c.Attach(1, Some(1));
    c.Attach(2, Some(2));
    assert c.closedConns == [1];
    c.SessionClosed(1);
    slot, conn := c.muxSession, c.wsConn;
  }

  /** The same events with compare-and-clear: session 2 stays published. */
  method StaleCloseKeepsNewerSession() returns (slot: Option<SessionId>, conn: Option<ConnId>)
    ensures slot == Some(2) && conn == Some(2)
  {
    var c := new Client();
    c.Attach(1, Some(1));
    c.Attach(2, Some(2));
    c.SessionClosedIfCurrent(1, 1);
    slot, conn := c.muxSession, c.wsConn;
  }
}
