/** Which session a datagram is sent on, and what each step grants: said of the tables, the counts and
    the sockets. */
module SessionTargets {
  import opened Streams
  import opened Specs
  import opened Sessions

  // ----- one step -----------------------------------------------------------------------

  /** Only the handler moved on. */
  predicate OnlyHandler(after: State, before: State, handler: Handler) {
    after == before.(handler := handler)
  }

  /** A stopped rule drops the datagram. A running one uses the session of the client while that leads
      to the current target, and touches nothing; for an unknown client it dials, unless the table
      is full. */
  lemma DatagramUsesItsSession(s: State, key: string, target: Endpoint, maxConns: int)
    requires Sessions.Ok(s) && s.loop && s.handler.Idle?
    requires key in s.shared.table ==> !s.shared.running || s.shared.table[key].target == target
    ensures var next, table := Next(s, Datagram(key, target, maxConns)), s.shared.table;
            if !s.shared.running then next == s
            else if key in table then OnlyHandler(next, s, Sending(table[key]))
            else OnlyHandler(next, s, if maxConns > 0 && |table| >= maxConns then Idle else Dialing(key, target))
  {
    DropsTheOld(s.shared, key, target);
    hide Sessions.Ok, DropStale;
  }

  /** The session of a client that leads elsewhere leaves the table, is closed and counted down once, and
      the current target is dialed instead. */
  lemma DatagramLeavesTheOldTarget(s: State, key: string, target: Endpoint, maxConns: int)
    requires Sessions.Ok(s) && s.loop && s.handler.Idle? && s.shared.running
    requires key in s.shared.table && s.shared.table[key].target != target
    ensures var next, id := Next(s, Datagram(key, target, maxConns)), s.shared.table[key].id;
            && next.shared.table == s.shared.table - {key}
            && next.shared.open == s.shared.open - {id}
            && next.shared.active == s.shared.active - 1
            && next.downs == s.downs + multiset{id}
            && next.shared.conns == s.shared.conns && next.installed == s.installed && next.readers == s.readers
            && next.handler == if maxConns > 0 && |s.shared.table| - 1 >= maxConns then Idle else Dialing(key, target)
  {
    TableKeys(s);
    DropsTheOld(s.shared, key, target);
    hide Sessions.Ok, DropStale;
    assert |s.shared.table - {key}| == |s.shared.table| - 1;
  }

  lemma DropsTheOld(h: Shared, key: string, target: Endpoint)
    requires key in h.table ==> h.table[key].key == key
    ensures if key in h.table && h.table[key].target != target
            then DropStale(h, key, target) == h.(table := h.table - {key}, open := h.open - {h.table[key].id}, active := h.active - 1)
            else DropStale(h, key, target) == h
  {
  }

  /** A number that nobody has. */
  predicate Unused(s: State, id: nat) {
    id !in s.readers && id !in s.installed && id !in s.shared.open && id !in s.shared.conns
    && forall k | k in s.shared.table :: s.shared.table[k].id != id
  }

  /** A dial that succeeds opens an upstream for what was dialed, under a number of its own. */
  lemma DialOutcome(s: State, ok: bool)
    requires Sessions.Ok(s) && s.handler.Dialing?
    ensures var next := Next(s, DialReturns(ok));
            && (!ok ==> OnlyHandler(next, s, Idle))
            && (ok ==>
                  && next.handler.Holding?
                  && next.handler.session.key == s.handler.key && next.handler.session.target == s.handler.target
                  && Unused(s, next.handler.session.id)
                  && next.shared.open == s.shared.open + {next.handler.session.id}
                  && next.shared.table == s.shared.table && next.shared.active == s.shared.active
                  && next.shared.conns == s.shared.conns)
  {
    NextIsUnused(s);
    hide Sessions.Ok, Unused;
  }

  /** The dialed session enters the table of a running rule and is closed otherwise. */
  lemma InstallOutcome(s: State)
    requires Sessions.Ok(s) && s.handler.Holding?
    ensures var next, session := Next(s, TryInstall), s.handler.session;
            && next.shared.active == s.shared.active && next.shared.conns == s.shared.conns
            && (s.shared.running ==>
                  && session.key !in s.shared.table && next.shared.table == s.shared.table[session.key := session]
                  && next.shared.open == s.shared.open && next.handler == Counting(session))
            && (!s.shared.running ==>
                  && next.shared.table == s.shared.table
                  && next.shared.open == s.shared.open - {session.id} && next.handler == Idle)
  {
    hide SessionsOk;
  }

  /** A connection is granted exactly while the rule runs and is below its limit, where 0 means that
      there is none; it then gets a number of its own and counts. */
  lemma ReserveOutcome(s: State, maxConns: int)
    requires Sessions.Ok(s) && s.accepted > 0
    ensures var next := Next(s, TryReserve(maxConns));
            && next.accepted == s.accepted - 1 && next.shared.table == s.shared.table && next.shared.open == s.shared.open
            && (if s.shared.running && (maxConns <= 0 || |s.shared.conns| < maxConns)
                then
                  && Unused(s, next.shared.connSeq)
                  && next.shared.conns == s.shared.conns + {next.shared.connSeq} && next.shared.active == s.shared.active + 1
                else next.shared == s.shared)
  {
    NextIsUnused(s);
    hide Sessions.Ok, Unused;
  }

  lemma NextIsUnused(s: State)
    requires Sessions.Ok(s)
    ensures Unused(s, s.shared.connSeq + 1)
  {
    hide TableApart, TableServed, Downs;
  }

  /** A reader that ends takes its own session out of the table, if it is still there, and no other. */
  lemma ReaderOutcome(s: State, id: nat)
    requires Sessions.Ok(s) && id in s.readers && s.readers[id].Reading?
    ensures var next := Next(s, ReaderRemoves(id));
            && (forall k :: k in next.shared.table <==> k in s.shared.table && s.shared.table[k].id != id)
            && (forall k | k in next.shared.table :: next.shared.table[k] == s.shared.table[k])
            && next.shared.active == s.shared.active - |s.shared.table| + |next.shared.table|
            && next.shared.open == s.shared.open && next.shared.conns == s.shared.conns
  {
    hide Sessions.Ok, Remove, InTable;
    IdIsItsSession(s, id);
    RemovesThatOne(s.shared, s.readers[id].session);
  }

  lemma RemovesThatOne(h: Shared, session: Session)
    ensures var next := Remove(h, session);
            && (forall k :: k in next.table <==> k in h.table && !(k == session.key && InTable(h, session)))
            && (forall k | k in next.table :: next.table[k] == h.table[k])
            && next.active == h.active - |h.table| + |next.table|
            && next.open == h.open && next.conns == h.conns
  {
    if InTable(h, session) {
      assert |h.table - {session.key}| == |h.table| - 1;
    }
  }

  lemma IdIsItsSession(s: State, id: nat)
    requires Sessions.Ok(s) && id in s.readers && s.readers[id].Reading?
    ensures var session := s.readers[id].session;
            forall k | k in s.shared.table :: s.shared.table[k].id == id <==> k == session.key && InTable(s.shared, session)
  {
    hide Downs;
    forall k | k in s.shared.table && s.shared.table[k].id == id
      ensures s.shared.table[k] == s.readers[id].session && k == s.readers[id].session.key
    {
    }
  }

  /** A session that cannot be written to is taken out of the table and closed; one that can, stays. */
  lemma SendOutcome(s: State)
    requires Sessions.Ok(s) && s.handler.Sending?
    ensures OnlyHandler(Next(s, SendReturns(true)), s, Idle)
    ensures var next, session := Next(Next(s, SendReturns(false)), DropEnds), s.handler.session;
            && next.handler == Idle && next.shared.open == s.shared.open - {session.id}
            && (forall k :: k in next.shared.table <==> k in s.shared.table && s.shared.table[k] != session)
            && (forall k | k in next.shared.table :: next.shared.table[k] == s.shared.table[k])
            && next.shared.active == s.shared.active - |s.shared.table| + |next.shared.table|
            && next.shared.conns == s.shared.conns && next.readers == s.readers
  {
    TableKeys(s);
    RemovesThatOne(s.shared, s.handler.session);
    hide Sessions.Ok, Remove;
  }

  // ----- whole runs ---------------------------------------------------------------------

  /** The last datagram that the loop has handed to its handler. */
  function LastDatagram(actions: seq<Action>): (last: Option<Action>)
    ensures last.Some? ==> last.value.Datagram?
  {
    if actions == [] then None
    else
      var front, a := actions[..|actions| - 1], actions[|actions| - 1];
      if a.Datagram? && Run(front).loop && Run(front).handler == Idle then Some(a) else LastDatagram(front)
  }

  predicate OnTarget(handler: Handler, key: string, target: Endpoint) {
    match handler
    case Idle => true
    case Dialing(k, t) => k == key && t == target
    case Holding(session) => session.key == key && session.target == target
    case Counting(session) => session.key == key && session.target == target
    case Sending(session) => session.key == key && session.target == target
    case Dropping(session) => session.key == key && session.target == target
  }

  lemma StepOnTarget(s: State, a: Action, key: string, target: Endpoint)
    requires Sessions.Ok(s) && OnTarget(s.handler, key, target)
    requires !(a.Datagram? && s.loop && s.handler.Idle?)
    ensures OnTarget(Next(s, a).handler, key, target)
  {
    if a.TryInstall? && s.handler.Holding? { InstallOutcome(s); }
    hide Sessions.Ok;
  }

  lemma DatagramOnTarget(s: State, key: string, target: Endpoint, maxConns: int)
    requires Sessions.Ok(s) && s.loop && s.handler.Idle?
    ensures OnTarget(Next(s, Datagram(key, target, maxConns)).handler, key, target)
  {
    if s.shared.running && key in s.shared.table && s.shared.table[key].target != target {
      DatagramLeavesTheOldTarget(s, key, target, maxConns);
    } else {
      DatagramUsesItsSession(s, key, target, maxConns);
    }
    TableKeys(s);
    hide Next, SessionsOk, BooksOk;
  }

  /** At every moment of every interleaving, what the handler is dialing, holding or sending on belongs
      to the client that the datagram came from, and leads to the target that was current when the
      datagram came: nothing is ever sent to the target of before. */
  lemma {:induction false} DatagramsGoToTheirTarget(actions: seq<Action>)
    ensures var handler := Run(actions).handler;
            match LastDatagram(actions)
            case None => handler == Idle
            case Some(last) => OnTarget(handler, last.key, last.target)
  {
    hide Next, Sessions.Ok, OnTarget;
    if actions == [] {
    } else {
      var front, a := actions[..|actions| - 1], actions[|actions| - 1];
      DatagramsGoToTheirTarget(front);
      RunOk(front);
      TargetStep(front, a);
      assert front + [a] == actions;
    }
  }

  lemma TargetStep(front: seq<Action>, a: Action)
    requires Sessions.Ok(Run(front))
    requires var handler := Run(front).handler;
             match LastDatagram(front)
             case None => handler == Idle
             case Some(last) => OnTarget(handler, last.key, last.target)
    ensures var handler := Run(front + [a]).handler;
            match LastDatagram(front + [a])
            case None => handler == Idle
            case Some(last) => OnTarget(handler, last.key, last.target)
  {
    hide Sessions.Ok, OnTarget, Next;
    assert (front + [a])[..|front|] == front;
    var s := Run(front);
    if a.Datagram? && s.loop && s.handler.Idle? {
      DatagramOnTarget(s, a.key, a.target, a.maxConns);
    } else {
      match LastDatagram(front) {
        case None => IdleStays(s, a);
        case Some(last) => StepOnTarget(s, a, last.key, last.target);
      }
    }
  }

  lemma IdleStays(s: State, a: Action)
    requires s.handler.Idle? && !(a.Datagram? && s.loop)
    ensures Next(s, a).handler == Idle
  {
  }
}
