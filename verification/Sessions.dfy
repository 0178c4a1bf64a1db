/** The session table and the slot reservation of internal/proxy/udp.go and rule.go, as the
    atomic sections that the lock makes of them, and as an interleaving of one datagram
    handler, any number of reader goroutines, the handlers of TCP connections, and Start and Stop. */
module Sessions {
  import opened Streams
  import opened Specs

  /** A session is identified by the connection number it was given. */
  datatype Session = Session(id: nat, key: string, target: Endpoint)

  /** The fields of a rule that its goroutines share, and the upstream sockets that are open. */
  datatype Shared = Shared(
    running: bool, table: map<string, Session>, active: int, conns: set<nat>, connSeq: nat, open: set<nat>)

  const NOTHING := Shared(false, map[], 0, {}, 0, {})

  // ----- atomic sections ----------------------------------------------------------

  predicate InTable(h: Shared, s: Session) { s.key in h.table && h.table[s.key] == s }

  /** removeUDPSession, up to the unlock: only the very session that is in the table counts down. */
  function Remove(h: Shared, s: Session): Shared {
    if InTable(h, s) then h.(table := h.table - {s.key}, active := h.active - 1) else h
  }

  function CloseUpstream(h: Shared, id: nat): Shared { h.(open := h.open - {id}) }

  datatype Found = Refused | Missing | Existing(session: Session)

  /** The session that a change of target makes useless. */
  predicate Stale(h: Shared, key: string, target: Endpoint) {
    key in h.table && h.table[key].target != target
  }

  function DropStale(h: Shared, key: string, target: Endpoint): Shared {
    if Stale(h, key, target) then CloseUpstream(Remove(h, h.table[key]), h.table[key].id) else h
  }

  /** The first locked section of handleUDPDatagram. */
  function LookUp(h: Shared, key: string, target: Endpoint, maxConns: int): (Shared, Found) {
    if !h.running then (h, Refused)
    else
      var kept := DropStale(h, key, target);
      if key in kept.table then (kept, Existing(kept.table[key]))
      else if maxConns > 0 && |kept.table| >= maxConns then (kept, Refused)
      else (kept, Missing)
  }

  function Dialed(h: Shared, key: string, target: Endpoint): (Shared, Session) {
    (h.(connSeq := h.connSeq + 1, open := h.open + {h.connSeq + 1}), Session(h.connSeq + 1, key, target))
  }

  datatype Installed = Stopped | Installed | Other(session: Session)

  /** The second locked section of handleUDPDatagram. */
  function Install(h: Shared, s: Session): (Shared, Installed) {
    if !h.running then (CloseUpstream(h, s.id), Stopped)
    else if s.key in h.table then (CloseUpstream(h, s.id), Other(h.table[s.key]))
    else (h.(table := h.table[s.key := s]), Installed.Installed)
  }

  /** The locked section of handle: reserve a slot for a TCP connection, or refuse it. */
  function Reserve(h: Shared, maxConns: int): Shared {
    if !h.running || (maxConns > 0 && |h.conns| >= maxConns) then h
    else h.(connSeq := h.connSeq + 1, conns := h.conns + {h.connSeq + 1}, active := h.active + 1)
  }

  function Release(h: Shared, id: nat): Shared
    requires id in h.conns
  {
    h.(conns := h.conns - {id}, active := h.active - 1)
  }

  // ----- interleaving -------------------------------------------------------------

  /** Where the datagram handler is; there is one, and it treats one datagram at a time. */
  datatype Handler =
    | Idle
    | Dialing(key: string, target: Endpoint)
    | Holding(session: Session)
    | Counting(session: Session)
    | Sending(session: Session)
    | Dropping(session: Session)

  /** A reader goroutine reads, then removes its session, then closes it. */
  datatype Reader = Reading(session: Session) | Closing(session: Session)

  datatype Life = Down | Up | Stopping(toClose: set<nat>)

  datatype State = State(
    shared: Shared, life: Life, loop: bool, handler: Handler, readers: map<nat, Reader>, accepted: nat,
    installed: set<nat>, downs: multiset<nat>)

  const INIT := State(NOTHING, Down, false, Idle, map[], 0, {}, multiset{})

  datatype Action =
    | Start
    | StopBegin
    | StopClose(id: nat)
    | StopEnd
    | LoopExit
    | Datagram(key: string, target: Endpoint, maxConns: int)
    | DialReturns(ok: bool)
    | TryInstall
    | CountUp
    | SendReturns(ok: bool)
    | DropEnds
    | ReaderRemoves(id: nat)
    | ReaderCloses(id: nat)
    | Accept
    | TryReserve(maxConns: int)
    | Hangup(id: nat)

  /** The removal of a session is counted when it really was in the table. */
  function Drop(s: State, session: Session): State {
    s.(shared := Remove(s.shared, session),
       downs := if InTable(s.shared, session) then s.downs + multiset{session.id} else s.downs)
  }

  function Ids(table: map<string, Session>): set<nat> {
    set k | k in table :: table[k].id
  }

  predicate Enabled(s: State, a: Action) {
    match a
    case Start => s.life.Down?
    case StopBegin => s.life.Up?
    case StopClose(id) => s.life.Stopping? && id in s.life.toClose
    case StopEnd =>
      // wg.Wait has returned: no loop, no reader and no connection handler is left.
      s.life.Stopping? && s.life.toClose == {} && !s.loop && s.readers == map[] && s.accepted == 0 && s.shared.conns == {}
    case LoopExit => s.life.Stopping? && s.loop && s.handler.Idle?
    case Datagram(_, _, _) => s.loop && s.handler.Idle?
    case DialReturns(_) => s.handler.Dialing?
    case TryInstall => s.handler.Holding?
    case CountUp => s.handler.Counting?
    case SendReturns(_) => s.handler.Sending?
    case DropEnds => s.handler.Dropping?
    case ReaderRemoves(id) => id in s.readers && s.readers[id].Reading?
    case ReaderCloses(id) => id in s.readers && s.readers[id].Closing?
    case Accept => s.loop
    case TryReserve(_) => s.accepted > 0
    case Hangup(id) => id in s.shared.conns
  }

  function DoDatagram(s: State, key: string, target: Endpoint, maxConns: int): State {
    var (shared, found) := LookUp(s.shared, key, target, maxConns);
    var downs := if s.shared.running && Stale(s.shared, key, target) then s.downs + multiset{s.shared.table[key].id} else s.downs;
    s.(shared := shared, downs := downs,
       handler := match found
                  case Refused => Idle
                  case Missing => Dialing(key, target)
                  case Existing(session) => Sending(session))
  }

  function DoInstall(s: State, session: Session): State {
    var (shared, outcome) := Install(s.shared, session);
    s.(shared := shared,
       installed := if outcome.Installed? then s.installed + {session.id} else s.installed,
       handler := match outcome
                  case Stopped => Idle
                  case Installed => Counting(session)
                  case Other(existing) => Sending(existing))
  }

  function DoDial(s: State, key: string, target: Endpoint, ok: bool): State {
    if !ok then s.(handler := Idle)
    else
      var (shared, session) := Dialed(s.shared, key, target);
      s.(shared := shared, handler := Holding(session))
  }

  /** One step of any of the goroutines; a step that is not possible changes nothing. */
  function Next(s: State, a: Action): State {
    if !Enabled(s, a) then s
    else
      match a
      case Start => s.(life := Up, loop := true, shared := s.shared.(running := true))
      case StopBegin => s.(life := Stopping(Ids(s.shared.table)), shared := s.shared.(running := false))
      case StopClose(id) => s.(life := Stopping(s.life.toClose - {id}), shared := CloseUpstream(s.shared, id))
      case StopEnd => s.(life := Down)
      case LoopExit => s.(loop := false)
      case Datagram(key, target, maxConns) => DoDatagram(s, key, target, maxConns)
      case DialReturns(ok) => DoDial(s, s.handler.key, s.handler.target, ok)
      case TryInstall => DoInstall(s, s.handler.session)
      case CountUp =>
        var session := s.handler.session;
        s.(shared := s.shared.(active := s.shared.active + 1), readers := s.readers[session.id := Reading(session)],
           handler := Sending(session))
      case SendReturns(ok) => if ok then s.(handler := Idle) else Drop(s, s.handler.session).(handler := Dropping(s.handler.session))
      case DropEnds => s.(shared := CloseUpstream(s.shared, s.handler.session.id), handler := Idle)
      case ReaderRemoves(id) =>
        var session := s.readers[id].session;
        Drop(s, session).(readers := s.readers[id := Closing(session)])
      case ReaderCloses(id) => s.(shared := CloseUpstream(s.shared, id), readers := s.readers - {id})
      case Accept => s.(accepted := s.accepted + 1)
      case TryReserve(maxConns) => s.(shared := Reserve(s.shared, maxConns), accepted := s.accepted - 1)
      case Hangup(id) => s.(shared := Release(s.shared, id))
  }

  function Run(actions: seq<Action>): State {
    if actions == [] then INIT else Next(Run(actions[..|actions| - 1]), actions[|actions| - 1])
  }

  // ----- the invariant --------------------------------------------------------------

  /** A session that is in the table but not yet counted. */
  function Pending(s: State): nat { if s.handler.Counting? then 1 else 0 }

  /** Every key has a session of its own, numbered before now, that was installed. */
  predicate TableOk(s: State) {
    forall k | k in s.shared.table ::
      s.shared.table[k].key == k && s.shared.table[k].id in s.installed
  }

  /** Different keys hold different sessions. */
  predicate TableApart(s: State) {
    forall j, k | j in s.shared.table && k in s.shared.table && j != k :: s.shared.table[j].id != s.shared.table[k].id
  }

  /** Only a session with a reader, or one whose reader is about to start, is in the table. */
  predicate TableServed(s: State) {
    forall k | k in s.shared.table ::
      var session := s.shared.table[k];
      (session.id in s.readers && s.readers[session.id] == Reading(session)) || s.handler == Counting(session)
  }

  /** Each installed session is counted down once it has left the table, and not before. */
  ghost predicate Downs(s: State) {
    forall id :: s.downs[id] == if id in s.installed && id !in Ids(s.shared.table) then 1 else 0
  }

  predicate HandlerOk(s: State) {
    match s.handler
    case Idle => true
    case Dialing(key, _) => s.loop && key !in s.shared.table
    case Holding(session) =>
      s.loop && session.key !in s.shared.table && session.id !in s.installed && session.id <= s.shared.connSeq
    case Counting(session) => s.loop && session.id in s.installed && session.id !in s.readers
    case Sending(session) => s.loop && session.id in s.installed
    case Dropping(session) => s.loop && session.id in s.installed
  }

  predicate Holds(s: State, id: nat) {
    (s.handler.Holding? || s.handler.Counting?) && s.handler.session.id == id
  }

  predicate NumbersOk(s: State) {
    && (forall id | id in s.installed :: id <= s.shared.connSeq)
    && (forall id | id in s.readers :: id in s.installed && s.readers[id].session.id == id)
    && (forall id | id in s.shared.open :: id in s.readers || Holds(s, id))
    && (forall id | id in s.shared.conns :: id <= s.shared.connSeq)
  }

  predicate Counted(s: State) {
    s.shared.active + Pending(s) == |s.shared.table| + |s.shared.conns|
  }

  predicate LifeOk(s: State) {
    && s.shared.running == s.life.Up?
    && (s.life.Up? ==> s.loop)
    && (s.life.Down? ==> !s.loop && s.readers == map[] && s.accepted == 0 && s.shared.conns == {})
    && (!s.loop ==> s.handler.Idle?)
  }

  ghost predicate SessionsOk(s: State) {
    TableOk(s) && TableApart(s) && TableServed(s) && Downs(s)
  }

  predicate BooksOk(s: State) {
    HandlerOk(s) && NumbersOk(s) && Counted(s) && LifeOk(s)
  }

  ghost predicate Ok(s: State) { SessionsOk(s) && BooksOk(s) }

  lemma IdsWithout(table: map<string, Session>, k: string)
    requires k in table
    requires forall j | j in table && j != k :: table[j].id != table[k].id
    ensures Ids(table - {k}) == Ids(table) - {table[k].id}
  {
    var rest := table - {k};
    forall id | id in Ids(table) - {table[k].id} ensures id in Ids(rest) {
      var j :| j in table && table[j].id == id;
      assert rest[j].id == id;
    }
    forall id | id in Ids(rest) ensures id in Ids(table) - {table[k].id} {
      var j :| j in rest && rest[j].id == id;
      assert table[j].id == id;
    }
  }

  lemma DropDowns(s: State, session: Session)
    requires TableOk(s) && TableApart(s) && Downs(s)
    ensures Downs(Drop(s, session))
  {
    if InTable(s.shared, session) {
      assert session.id in Ids(s.shared.table);
      IdsWithout(s.shared.table, session.key);
    }
  }

  lemma DropOk(s: State, session: Session)
    requires Ok(s)
    ensures Ok(Drop(s, session))
  {
    DropTable(s, session);
    DropBooks(s, session);
    hide SessionsOk, BooksOk;
  }

  lemma DropTable(s: State, session: Session)
    requires SessionsOk(s)
    ensures SessionsOk(Drop(s, session))
  {
    DropDowns(s, session);
    hide Downs;
  }

  lemma DropBooks(s: State, session: Session)
    requires BooksOk(s)
    ensures BooksOk(Drop(s, session))
  {
  }

  /** Changes that concern neither the table nor who serves it. */
  lemma KeepsSessions(s: State, t: State)
    requires SessionsOk(s)
    requires t.shared.table == s.shared.table && t.installed == s.installed && t.downs == s.downs
    requires forall id | id in s.readers && s.readers[id].Reading? :: id in t.readers && t.readers[id] == s.readers[id]
    requires s.handler.Counting? ==> t.handler == s.handler
    ensures SessionsOk(t)
  {
  }

  lemma LifeOkSteps(s: State, a: Action)
    requires Ok(s) && Enabled(s, a)
    requires a.Start? || a.StopBegin? || a.StopClose? || a.StopEnd? || a.LoopExit? || a.Accept?
    ensures Ok(Next(s, a))
  {
    hide SessionsOk;
    KeepsSessions(s, Next(s, a));
  }

  lemma ReserveStep(s: State, maxConns: int)
    requires Ok(s) && Enabled(s, TryReserve(maxConns))
    ensures Ok(Next(s, TryReserve(maxConns)))
  {
    hide SessionsOk, BooksOk;
    KeepsSessions(s, Next(s, TryReserve(maxConns)));
    ReserveBooks(s, maxConns);
  }

  lemma ReserveBooks(s: State, maxConns: int)
    requires BooksOk(s) && Enabled(s, TryReserve(maxConns))
    ensures BooksOk(Next(s, TryReserve(maxConns)))
  {
  }

  lemma HangupStep(s: State, id: nat)
    requires Ok(s) && Enabled(s, Hangup(id))
    ensures Ok(Next(s, Hangup(id)))
  {
    hide SessionsOk, BooksOk;
    KeepsSessions(s, Next(s, Hangup(id)));
    HangupBooks(s, id);
  }

  lemma HangupBooks(s: State, id: nat)
    requires BooksOk(s) && Enabled(s, Hangup(id))
    ensures BooksOk(Next(s, Hangup(id)))
  {
  }

  lemma HandlerSteps(s: State, a: Action)
    requires Ok(s) && Enabled(s, a)
    requires a.DialReturns? || a.DropEnds? || (a.SendReturns? && a.ok)
    ensures Ok(Next(s, a))
  {
    hide SessionsOk;
    KeepsSessions(s, Next(s, a));
  }

  lemma ReaderCloseStep(s: State, id: nat)
    requires Ok(s) && Enabled(s, ReaderCloses(id))
    ensures Ok(Next(s, ReaderCloses(id)))
  {
    hide SessionsOk;
    KeepsSessions(s, Next(s, ReaderCloses(id)));
  }

  lemma CountUpStep(s: State)
    requires Ok(s) && s.handler.Counting?
    ensures Ok(Next(s, CountUp))
  {
    hide SessionsOk, BooksOk;
    HandlerOf(s);
    CountUpTable(s);
    CountUpBooks(s);
  }

  lemma HandlerOf(s: State)
    requires BooksOk(s)
    ensures s.handler.Counting? ==> s.handler.session.id !in s.readers
    ensures s.handler.Holding? ==> s.handler.session.key !in s.shared.table && s.handler.session.id !in s.installed
    ensures s.shared.running == s.life.Up?
    ensures forall id | id in s.readers :: s.readers[id].session.id == id
  {
  }

  lemma CountUpBooks(s: State)
    requires BooksOk(s) && s.handler.Counting?
    ensures BooksOk(Next(s, CountUp))
  {
  }

  lemma CountUpTable(s: State)
    requires SessionsOk(s) && s.handler.Counting? && s.handler.session.id !in s.readers
    ensures SessionsOk(Next(s, CountUp))
  {
    hide Downs;
    assert Next(s, CountUp).shared.table == s.shared.table;
    DownsKept(s, Next(s, CountUp));
  }

  lemma DownsKept(s: State, t: State)
    requires Downs(s) && t.shared.table == s.shared.table && t.installed == s.installed && t.downs == s.downs
    ensures Downs(t)
  {
  }

  lemma SendFailsStep(s: State)
    requires Ok(s) && s.handler.Sending?
    ensures Ok(Next(s, SendReturns(false)))
  {
    hide SessionsOk, InTable;
    DropOk(s, s.handler.session);
    KeepsSessions(Drop(s, s.handler.session), Next(s, SendReturns(false)));
  }

  lemma ReaderRemovesStep(s: State, id: nat)
    requires Ok(s) && Enabled(s, ReaderRemoves(id))
    ensures Ok(Next(s, ReaderRemoves(id)))
  {
    hide SessionsOk, BooksOk, Drop;
    HandlerOf(s);
    DropOk(s, s.readers[id].session);
    RemovedTable(s, id);
    DropKeepsReaders(s, s.readers[id].session);
    ClosingBooks(Drop(s, s.readers[id].session), id);
  }

  lemma DropKeepsReaders(s: State, session: Session)
    ensures Drop(s, session).readers == s.readers
  {
  }

  lemma ClosingBooks(s: State, id: nat)
    requires BooksOk(s) && id in s.readers
    ensures BooksOk(s.(readers := s.readers[id := Closing(s.readers[id].session)]))
  {
  }

  lemma RemovedTable(s: State, id: nat)
    requires SessionsOk(s) && id in s.readers && s.readers[id].Reading? && s.readers[id].session.id == id
    ensures SessionsOk(Drop(s, s.readers[id].session).(readers := s.readers[id := Closing(s.readers[id].session)]))
  {
    DropTable(s, s.readers[id].session);
    DownsKept(Drop(s, s.readers[id].session), Drop(s, s.readers[id].session).(readers := s.readers[id := Closing(s.readers[id].session)]));
    hide Downs;
  }

  lemma InstallStep(s: State)
    requires Ok(s) && s.handler.Holding?
    ensures Ok(Next(s, TryInstall))
  {
    hide SessionsOk, BooksOk;
    HandlerOf(s);
    InstallBooks(s);
    if s.shared.running {
      InstallTable(s);
    } else {
      KeepsSessions(s, Next(s, TryInstall));
    }
  }

  lemma InstallBooks(s: State)
    requires BooksOk(s) && s.handler.Holding?
    ensures BooksOk(Next(s, TryInstall))
  {
    var session := s.handler.session;
    assert |s.shared.table[session.key := session]| == |s.shared.table| + 1;
  }

  lemma InstallTable(s: State)
    requires SessionsOk(s) && s.handler.Holding? && s.shared.running
    requires s.handler.session.key !in s.shared.table && s.handler.session.id !in s.installed
    ensures SessionsOk(Next(s, TryInstall))
  {
    InstallDowns(s);
    hide Downs;
  }

  lemma InstallDowns(s: State)
    requires SessionsOk(s) && s.handler.Holding? && s.shared.running
    requires s.handler.session.key !in s.shared.table && s.handler.session.id !in s.installed
    ensures Downs(Next(s, TryInstall))
  {
    var session := s.handler.session;
    IdsWith(s.shared.table, session);
    assert session.id !in Ids(s.shared.table);
  }

  lemma IdsWith(table: map<string, Session>, session: Session)
    requires session.key !in table
    ensures Ids(table[session.key := session]) == Ids(table) + {session.id}
  {
    var more := table[session.key := session];
    assert more[session.key].id == session.id;
    forall id | id in Ids(table) ensures id in Ids(more) {
      var j :| j in table && table[j].id == id;
      assert more[j].id == id;
    }
  }

  /** A datagram from a client whose target has changed first gives up its old session. */
  lemma DatagramStep(s: State, key: string, target: Endpoint, maxConns: int)
    requires Ok(s) && Enabled(s, Datagram(key, target, maxConns))
    ensures Ok(Next(s, Datagram(key, target, maxConns)))
  {
    hide SessionsOk, BooksOk, DropStale, Drop;
    HandlerOf(s);
    var kept := if s.shared.running then WithoutStale(s, key, target) else s;
    WithoutStaleOk(s, key, target);
    KeepsSessions(kept, Next(s, Datagram(key, target, maxConns)));
    FoundBooks(kept, Next(s, Datagram(key, target, maxConns)), key);
  }

  function WithoutStale(s: State, key: string, target: Endpoint): State {
    if Stale(s.shared, key, target) then
      var t := Drop(s, s.shared.table[key]);
      t.(shared := CloseUpstream(t.shared, s.shared.table[key].id))
    else s
  }

  lemma WithoutStaleOk(s: State, key: string, target: Endpoint)
    requires Ok(s) && s.handler.Idle?
    ensures var t := WithoutStale(s, key, target);
            && Ok(t) && t.shared == DropStale(s.shared, key, target)
            && t == s.(shared := t.shared, downs := t.downs)
            && (Stale(s.shared, key, target) ==> t.downs == s.downs + multiset{s.shared.table[key].id})
            && (!Stale(s.shared, key, target) ==> t.downs == s.downs)
            && (key in t.shared.table ==> t.shared.table[key].id in t.installed)
  {
    hide SessionsOk, BooksOk;
    TableKeys(s);
    if Stale(s.shared, key, target) {
      var t := Drop(s, s.shared.table[key]);
      DropOk(s, s.shared.table[key]);
      KeepsSessions(t, WithoutStale(s, key, target));
      ClosedBooks(t, s.shared.table[key].id);
    }
    TableKeys(WithoutStale(s, key, target));
  }

  lemma TableKeys(s: State)
    requires SessionsOk(s)
    ensures forall k | k in s.shared.table :: s.shared.table[k].key == k && s.shared.table[k].id in s.installed
  {
  }

  lemma ClosedBooks(s: State, id: nat)
    requires BooksOk(s)
    ensures BooksOk(s.(shared := CloseUpstream(s.shared, id)))
  {
  }

  /** The handler's next place after the first locked section. */
  lemma FoundBooks(s: State, t: State, key: string)
    requires BooksOk(s) && s.handler.Idle? && s.loop && t == s.(handler := t.handler)
    requires || t.handler.Idle?
             || (t.handler.Dialing? && t.handler.key !in s.shared.table)
             || (t.handler.Sending? && t.handler.session.id in s.installed)
    ensures BooksOk(t)
  {
  }

  // ----- all runs ---------------------------------------------------------------

  lemma StepOk(s: State, a: Action)
    requires Ok(s)
    ensures Ok(Next(s, a))
  {
    hide Ok;
    if Enabled(s, a) {
      match a
      case Datagram(key, target, maxConns) => DatagramStep(s, key, target, maxConns);
      case TryInstall => InstallStep(s);
      case CountUp => CountUpStep(s);
      case ReaderRemoves(id) => ReaderRemovesStep(s, id);
      case ReaderCloses(id) => ReaderCloseStep(s, id);
      case SendReturns(ok) => if ok { HandlerSteps(s, a); } else { SendFailsStep(s); }
      case DialReturns(_) => HandlerSteps(s, a);
      case DropEnds => HandlerSteps(s, a);
      case TryReserve(maxConns) => ReserveStep(s, maxConns);
      case Hangup(id) => HangupStep(s, id);
      case _ => LifeOkSteps(s, a);
    }
  }

  lemma {:induction false} RunOk(actions: seq<Action>)
    ensures Ok(Run(actions))
  {
    hide Ok, Next;
    if actions == [] {
      InitOk();
    } else {
      RunOk(actions[..|actions| - 1]);
      StepOk(Run(actions[..|actions| - 1]), actions[|actions| - 1]);
    }
  }

  lemma InitOk()
    ensures Ok(INIT)
  {
  }

  /** At every moment of every interleaving the active count, with the one installation that is
      not counted yet, is the number of sessions in the table and of reserved connections; and
      every session in the table has a running reader, or is about to get one. */
  lemma {:induction false} ActiveCountIsExact(actions: seq<Action>)
    ensures var s := Run(actions);
            && s.shared.active + Pending(s) == |s.shared.table| + |s.shared.conns|
            && forall k | k in s.shared.table ::
                 var session := s.shared.table[k];
                 (session.id in s.readers && s.readers[session.id] == Reading(session)) || s.handler == Counting(session)
  {
    RunOk(actions);
  }

  /** However often its key is used again, a session that was installed is counted down once
      when it has left the table, and never before; no other session is ever counted down. */
  lemma CountedDownExactlyOnce(actions: seq<Action>, id: nat)
    ensures var s := Run(actions);
            s.downs[id] == if id in s.installed && !(exists k | k in s.shared.table :: s.shared.table[k].id == id) then 1 else 0
  {
    RunOk(actions);
    hide Run;
    var s := Run(actions);
    assert id in Ids(s.shared.table) <==> exists k | k in s.shared.table :: s.shared.table[k].id == id;
  }

  /** Once Stop has returned nothing is left: no session, no reserved connection, a count of
      zero, no upstream socket, and every session that ever was installed has been counted down. */
  lemma StoppedMeansEmpty(actions: seq<Action>)
    requires Run(actions).life.Down?
    ensures var s := Run(actions);
            && s.shared.table == map[] && s.shared.conns == {} && s.shared.active == 0 && s.shared.open == {}
            && forall id | id in s.installed :: s.downs[id] == 1
  {
    RunOk(actions);
    hide Run;
    var s := Run(actions);
    assert s.shared.table.Keys == {};
  }

  /** An upstream socket is open only while a reader or the handler is there to close it. */
  lemma {:induction false} OpenUpstreamsAreHeld(actions: seq<Action>, id: nat)
    ensures var s := Run(actions); id in s.shared.open ==> id in s.readers || Holds(s, id)
  {
    RunOk(actions);
  }

  /** The second look into the table never finds another session for the key: there is one
      handler, and nobody else installs. */
  lemma InstallFindsTheKeyFree(actions: seq<Action>)
    ensures var s := Run(actions); s.handler.Holding? ==> s.handler.session.key !in s.shared.table
  {
    RunOk(actions);
  }

  // ----- capacity -----------------------------------------------------------------

  /** The step uses this limit, if it uses one. */
  predicate Limited(a: Action, maxConns: int) {
    (a.Datagram? ==> a.maxConns == maxConns) && (a.TryReserve? ==> a.maxConns == maxConns)
  }

  predicate WithinLimit(s: State, maxConns: int) {
    && |s.shared.table| <= maxConns && |s.shared.conns| <= maxConns
    && (s.handler.Dialing? || s.handler.Holding? ==> |s.shared.table| < maxConns)
  }

  lemma ShrinksOrStays(h: Shared, s: Session)
    ensures |Remove(h, s).table| <= |h.table| && Remove(h, s).conns == h.conns
  {
    if InTable(h, s) {
      var rest := h.table - {s.key};
      assert rest.Keys == h.table.Keys - {s.key};
      assert |rest.Keys| == |rest| && |h.table.Keys| == |h.table|;
    }
  }

  lemma DatagramWithinLimit(s: State, key: string, target: Endpoint, maxConns: int)
    requires WithinLimit(s, maxConns) && maxConns > 0
    ensures WithinLimit(DoDatagram(s, key, target, maxConns), maxConns)
  {
    hide InTable;
    if key in s.shared.table { ShrinksOrStays(s.shared, s.shared.table[key]); }
  }

  lemma DropWithinLimit(s: State, session: Session, maxConns: int)
    requires WithinLimit(s, maxConns)
    ensures WithinLimit(Drop(s, session), maxConns) && Drop(s, session).handler == s.handler
  {
    hide InTable;
    ShrinksOrStays(s.shared, session);
  }

  lemma ConnectionsWithinLimit(s: State, a: Action, maxConns: int)
    requires WithinLimit(s, maxConns) && Limited(a, maxConns) && maxConns > 0
    requires a.TryReserve? || a.Hangup?
    ensures WithinLimit(Next(s, a), maxConns)
  {
    if a.Hangup? {
      SubsetSize(s.shared.conns - {a.id}, s.shared.conns);
    }
  }

  lemma StepWithinLimit(s: State, a: Action, maxConns: int)
    requires WithinLimit(s, maxConns) && Limited(a, maxConns) && maxConns > 0
    ensures WithinLimit(Next(s, a), maxConns)
  {
    hide DoDatagram, Drop, Release, Reserve;
    match a
    case Datagram(key, target, _) => DatagramWithinLimit(s, key, target, maxConns);
    case SendReturns(_) => if s.handler.Sending? { DropWithinLimit(s, s.handler.session, maxConns); }
    case ReaderRemoves(id) => if id in s.readers { DropWithinLimit(s, s.readers[id].session, maxConns); }
    case TryReserve(_) => ConnectionsWithinLimit(s, a, maxConns);
    case Hangup(_) => ConnectionsWithinLimit(s, a, maxConns);
    case _ =>
  }

  lemma SubsetSize(a: set<nat>, b: set<nat>)
    requires a <= b
    ensures |a| <= |b|
  {
    assert b == a + (b - a);
  }

  /** With a fixed positive limit neither the sessions nor the connections ever exceed it,
      although the handler lets go of the lock while it dials. */
  lemma {:induction false} LimitIsNeverExceeded(actions: seq<Action>, maxConns: int)
    requires maxConns > 0 && forall a | a in actions :: Limited(a, maxConns)
    ensures WithinLimit(Run(actions), maxConns)
  {
    hide Next, WithinLimit;
    if actions == [] {
      InitWithinLimit(maxConns);
    } else {
      var front := actions[..|actions| - 1];
      LimitIsNeverExceeded(front, maxConns);
      StepWithinLimit(Run(front), actions[|actions| - 1], maxConns);
    }
  }

  lemma InitWithinLimit(maxConns: int)
    requires maxConns > 0
    ensures WithinLimit(INIT, maxConns)
  {
  }
}
