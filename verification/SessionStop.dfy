/** Why Stop of internal/proxy/rule.go returns: every goroutine that it waits for is let go. */
module SessionStop {
  import opened Specs
  import opened Sessions

  /** A reader that still reads from an open upstream has its session in the table, unless the
      handler is about to close it. */
  predicate ReadersListed(s: State) {
    forall id | id in s.readers && s.readers[id].Reading? && id in s.shared.open ::
      InTable(s.shared, s.readers[id].session) || s.handler == Dropping(s.readers[id].session)
  }

  predicate CountingListed(s: State) {
    s.handler.Counting? ==> InTable(s.shared, s.handler.session)
  }

  /** While Stop goes through its list, the open sessions of the table are still on it. */
  predicate TableOnList(s: State) {
    s.life.Stopping? ==>
      forall k | k in s.shared.table && s.shared.table[k].id in s.shared.open :: s.shared.table[k].id in s.life.toClose
  }

  predicate StopOk(s: State) { ReadersListed(s) && CountingListed(s) && TableOnList(s) }

  lemma DropStopOk(s: State, session: Session)
    requires Ok(s) && StopOk(s) && (s.handler.Counting? ==> s.handler.session != session)
    ensures var t := Drop(s, session);
            && CountingListed(t) && TableOnList(t)
            && forall id | id in t.readers && t.readers[id].Reading? && id in t.shared.open ::
                 InTable(t.shared, t.readers[id].session) || t.handler == Dropping(t.readers[id].session)
                 || t.readers[id].session == session
  {
    hide SessionsOk, BooksOk;
    TableKeys(s);
  }

  lemma LifeSteps(s: State, a: Action)
    requires Ok(s) && StopOk(s) && Enabled(s, a)
    requires a.Start? || a.StopBegin? || a.StopClose? || a.StopEnd? || a.LoopExit? || a.Accept? || a.TryReserve? || a.Hangup?
    ensures StopOk(Next(s, a))
  {
    hide SessionsOk, BooksOk;
    forall k | k in s.shared.table ensures s.shared.table[k].id in Ids(s.shared.table) {
    }
  }

  lemma QuietSteps(s: State, a: Action)
    requires Ok(s) && StopOk(s) && Enabled(s, a)
    requires a.DropEnds? || (a.SendReturns? && a.ok) || a.ReaderCloses?
    ensures StopOk(Next(s, a))
  {
    hide SessionsOk, BooksOk;
    NumbersOf(s);
  }

  lemma DialStep(s: State, ok: bool)
    requires Ok(s) && StopOk(s) && s.handler.Dialing?
    ensures StopOk(Next(s, DialReturns(ok)))
  {
    hide SessionsOk, BooksOk;
    NumbersOf(s);
  }

  lemma CountUpStep(s: State)
    requires Ok(s) && StopOk(s) && s.handler.Counting?
    ensures StopOk(Next(s, CountUp))
  {
    hide SessionsOk, BooksOk;
    NumbersOf(s);
  }

  lemma SendFailsStep(s: State)
    requires Ok(s) && StopOk(s) && s.handler.Sending?
    ensures StopOk(Next(s, SendReturns(false)))
  {
    hide SessionsOk, BooksOk, InTable, Drop;
    DropStopOk(s, s.handler.session);
    DropKeeps(s, s.handler.session);
  }

  lemma DropKeeps(s: State, session: Session)
    ensures var t := Drop(s, session);
            t == s.(shared := t.shared, downs := t.downs) && t.shared.open == s.shared.open
  {
  }

  lemma ReaderRemovesStep(s: State, id: nat)
    requires Ok(s) && StopOk(s) && Enabled(s, ReaderRemoves(id))
    ensures StopOk(Next(s, ReaderRemoves(id)))
  {
    hide SessionsOk, BooksOk, InTable, Drop;
    NumbersOf(s);
    DropStopOk(s, s.readers[id].session);
    DropKeeps(s, s.readers[id].session);
  }

  lemma InstallStep(s: State)
    requires Ok(s) && StopOk(s) && s.handler.Holding?
    ensures StopOk(Next(s, TryInstall))
  {
    hide SessionsOk, BooksOk;
    NumbersOf(s);
  }

  lemma DatagramStep(s: State, key: string, target: Endpoint, maxConns: int)
    requires Ok(s) && StopOk(s) && Enabled(s, Datagram(key, target, maxConns))
    ensures StopOk(Next(s, Datagram(key, target, maxConns)))
  {
    hide SessionsOk, BooksOk, Drop;
    NumbersOf(s);
    if s.shared.running && Stale(s.shared, key, target) {
      TableKeys(s);
      DropStopOk(s, s.shared.table[key]);
      StaleStep(s, key, target, maxConns);
      DropKeeps(s, s.shared.table[key]);
    }
  }

  lemma NumbersOf(s: State)
    requires Ok(s)
    ensures forall id | id in s.readers :: s.readers[id].session.id == id && id <= s.shared.connSeq
    ensures forall k | k in s.shared.table :: s.shared.table[k].id <= s.shared.connSeq
    ensures s.handler.Counting? ==> s.handler.session.id !in s.readers
    ensures s.handler.Holding? ==> s.handler.session.key !in s.shared.table && s.handler.session.id !in s.readers
    ensures s.shared.running == s.life.Up?
  {
  }

  lemma StaleStep(s: State, key: string, target: Endpoint, maxConns: int)
    requires s.shared.running && Stale(s.shared, key, target)
    ensures var t, u := Drop(s, s.shared.table[key]), Next(s, Datagram(key, target, maxConns));
            Enabled(s, Datagram(key, target, maxConns)) ==>
              u == t.(shared := CloseUpstream(t.shared, s.shared.table[key].id), downs := u.downs, handler := u.handler)
  {
    hide InTable;
  }

  lemma StepStopOk(s: State, a: Action)
    requires Ok(s) && StopOk(s)
    ensures StopOk(Next(s, a))
  {
    hide Ok, StopOk;
    if Enabled(s, a) {
      match a
      case Datagram(key, target, maxConns) => DatagramStep(s, key, target, maxConns);
      case TryInstall => InstallStep(s);
      case CountUp => CountUpStep(s);
      case ReaderRemoves(id) => ReaderRemovesStep(s, id);
      case SendReturns(ok) => if ok { QuietSteps(s, a); } else { SendFailsStep(s); }
      case DialReturns(ok) => DialStep(s, ok);
      case DropEnds => QuietSteps(s, a);
      case ReaderCloses(id) => QuietSteps(s, a);
      case _ => LifeSteps(s, a);
    }
  }

  lemma {:induction false} RunStopOk(actions: seq<Action>)
    ensures StopOk(Run(actions))
  {
    hide Ok, StopOk, Next;
    if actions == [] {
      InitStopOk();
    } else {
      RunStopOk(actions[..|actions| - 1]);
      RunOk(actions[..|actions| - 1]);
      StepStopOk(Run(actions[..|actions| - 1]), actions[|actions| - 1]);
    }
  }

  lemma InitStopOk()
    ensures StopOk(INIT)
  {
  }

  /** No reader waits for ever: once Stop has gone through its list and the datagram loop has ended,
      every reader that still reads does so from a closed upstream, in every interleaving. */
  lemma ReadersAreLetGo(actions: seq<Action>, id: nat)
    requires var s := Run(actions); s.life.Stopping? && s.life.toClose == {} && !s.loop
    requires var s := Run(actions); id in s.readers && s.readers[id].Reading?
    ensures id !in Run(actions).shared.open
  {
    RunStopOk(actions);
    RunOk(actions);
    hide Run;
    NumbersOf(Run(actions));
    LoopEnds(Run(actions));
  }

  lemma LoopEnds(s: State)
    requires Ok(s) && !s.loop
    ensures s.handler.Idle?
  {
  }

  // ----- Stop returns -------------------------------------------------------------------

  function StillReading(s: State): set<nat> {
    set id | id in s.readers && s.readers[id].Reading?
  }

  /** What is left to be done before Stop returns. */
  function Work(s: State): nat {
    (if s.life.Stopping? then |s.life.toClose| else 0)
    + |StillReading(s)| + |s.readers| + s.accepted + |s.shared.conns|
  }

  lemma Smaller(a: set<nat>, x: nat)
    requires x in a
    ensures |a - {x}| == |a| - 1
  {
  }

  lemma ReaderWork(s: State, id: nat)
    requires id in s.readers
    ensures var t := s.(readers := s.readers - {id}); |t.readers| == |s.readers| - 1
    ensures s.readers[id].Closing? ==> StillReading(s.(readers := s.readers - {id})) == StillReading(s)
    ensures s.readers[id].Reading? ==>
      var t := s.(readers := s.readers[id := Closing(s.readers[id].session)]);
      |t.readers| == |s.readers| && |StillReading(t)| == |StillReading(s)| - 1
  {
    assert (s.readers - {id}).Keys == s.readers.Keys - {id};
    Smaller(s.readers.Keys, id);
    if s.readers[id].Reading? {
      var t := s.(readers := s.readers[id := Closing(s.readers[id].session)]);
      assert StillReading(t) == StillReading(s) - {id};
      assert t.readers.Keys == s.readers.Keys;
      Smaller(StillReading(s), id);
    }
  }

  lemma SameReaders(s: State, t: State)
    requires s.readers == t.readers
    ensures StillReading(s) == StillReading(t)
  {
  }

  /** Once the datagram loop has ended every step that is possible brings Stop nearer to its end, or
      is its end, so no schedule can keep it from returning. */
  lemma EveryStepBringsStopNearer(s: State, a: Action)
    requires Ok(s) && s.life.Stopping? && !s.loop && Enabled(s, a)
    ensures Next(s, a).life.Down? || (Next(s, a).life.Stopping? && !Next(s, a).loop && Work(Next(s, a)) < Work(s))
  {
    LoopEnds(s);
    NumbersOf(s);
    hide SessionsOk, BooksOk, StillReading, InTable;
    match a
    case StopClose(id) => Smaller(s.life.toClose, id); SameReaders(s, Next(s, a));
    case ReaderRemoves(id) =>
      ReaderWork(s, id);
      SameReaders(s.(readers := s.readers[id := Closing(s.readers[id].session)]), Next(s, a));
    case ReaderCloses(id) => ReaderWork(s, id); SameReaders(s.(readers := s.readers - {id}), Next(s, a));
    case TryReserve(_) => SameReaders(s, Next(s, a));
    case Hangup(id) => Smaller(s.shared.conns, id); SameReaders(s, Next(s, a));
    case _ =>
  }

  /** And there is always such a step: Stop returns at once when nothing is left to be done, and
      otherwise some goroutine can go on. */
  lemma SomeStepIsPossible(s: State) returns (a: Action)
    requires Ok(s) && s.life.Stopping? && !s.loop
    ensures Enabled(s, a) && (Work(s) == 0 <==> a == StopEnd)
  {
    if s.life.toClose != {} {
      var id :| id in s.life.toClose;
      a := StopClose(id);
    } else if s.readers != map[] {
      var id :| id in s.readers;
      a := if s.readers[id].Reading? then ReaderRemoves(id) else ReaderCloses(id);
    } else if s.accepted > 0 {
      a := TryReserve(0);
    } else if s.shared.conns != {} {
      var id :| id in s.shared.conns;
      a := Hangup(id);
    } else {
      a := StopEnd;
      assert StillReading(s) == {};
    }
  }
}
