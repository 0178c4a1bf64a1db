/** The shared fields of a rule in the form of internal/proxy/udp.go and rule.go: each method
    is one section under the lock, and changes the fields in place. */
module SessionTable {
  import opened Streams
  import opened Specs
  import opened Sessions

  class Table {
    var running: bool
    var udpSessions: map<string, Session>
    var activeConns: int
    var conns: set<nat>
    var connSeq: nat
    var upstreams: set<nat>

    function Value(): Shared
      reads this
    {
      Shared(running, udpSessions, activeConns, conns, connSeq, upstreams)
    }

    constructor ()
      ensures Value() == NOTHING
    {
      running, udpSessions, activeConns, conns, connSeq, upstreams := false, map[], 0, {}, 0, {};
    }

    method CloseSession(session: Session)
      modifies `upstreams
      ensures Value() == CloseUpstream(old(Value()), session.id)
    {
      upstreams := upstreams - {session.id};
    }

    /** handleUDPDatagram up to the first unlock. */
    method FindSession(key: string, target: Endpoint, maxConns: int) returns (found: Found)
      requires forall k | k in udpSessions :: udpSessions[k].key == k
      modifies `udpSessions, `activeConns, `upstreams
      ensures (Value(), found) == LookUp(old(Value()), key, target, maxConns)
    {
      if !running { return Refused; }
      found := if key in udpSessions then Existing(udpSessions[key]) else Missing;
      if found.Existing? && found.session.target != target {
        udpSessions := udpSessions - {key};
        CloseSession(found.session);
        found := Missing;
        activeConns := activeConns - 1;
      }
      if found.Missing? && maxConns > 0 && |udpSessions| >= maxConns {
        found := Refused;
      }
    }

    method OpenSession(key: string, target: Endpoint) returns (session: Session)
      modifies `connSeq, `upstreams
      ensures (Value(), session) == Dialed(old(Value()), key, target)
    {
      connSeq := connSeq + 1;
      upstreams := upstreams + {connSeq};
      session := Session(connSeq, key, target);
    }

    /** The second locked section of handleUDPDatagram. */
    method InstallSession(session: Session) returns (outcome: Installed)
      modifies `udpSessions, `upstreams
      ensures (Value(), outcome) == Install(old(Value()), session)
    {
      if !running {
        CloseSession(session);
        return Stopped;
      }
      if session.key in udpSessions {
        CloseSession(session);
        return Other(udpSessions[session.key]);
      }
      udpSessions := udpSessions[session.key := session];
      return Installed.Installed;
    }

    /** removeUDPSession up to the unlock. */
    method RemoveSession(session: Session)
      modifies `udpSessions, `activeConns
      ensures Value() == Remove(old(Value()), session)
    {
      if session.key in udpSessions && udpSessions[session.key] == session {
        udpSessions := udpSessions - {session.key};
        activeConns := activeConns - 1;
      }
    }

    /** The slot of a TCP connection; None when it is refused. */
    method ReserveSlot(maxConns: int) returns (id: Option<nat>)
      modifies `connSeq, `conns, `activeConns
      ensures Value() == Reserve(old(Value()), maxConns)
      ensures id == if Value() == old(Value()) then None else Some(connSeq)
    {
      if !running { return None; }
      if maxConns > 0 && |conns| >= maxConns { return None; }
      connSeq := connSeq + 1;
      conns := conns + {connSeq};
      activeConns := activeConns + 1;
      return Some(connSeq);
    }

    method ReleaseSlot(id: nat)
      requires id in conns
      modifies `conns, `activeConns
      ensures Value() == Release(old(Value()), id)
    {
      conns := conns - {id};
      activeConns := activeConns - 1;
    }
  }
}
