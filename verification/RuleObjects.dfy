/** Rules in the form of internal/proxy/rule.go and health.go: objects whose fields are
    updated in place, and the operating system they take their sockets from. */
module RuleObjects {
  import opened Streams
  import opened Specs
  import opened Rules
  import Health
  import Store

  /** The sockets of the program, and the identifiers it has generated. */
  class Network {
    const env: Env
    var open: map<nat, Binding>
    var binds: nat
    var ids: nat

    function Value(): Sys
      reads this
    {
      Sys(open, binds, ids)
    }

    constructor (env: Env)
      ensures Value() == Sys(map[], 0, 0) && this.env == env
    {
      this.env, open, binds, ids := env, map[], 0, 0;
    }

    method Bind(b: Binding) returns (socket: Option<nat>)
      modifies `open, `binds
      ensures Value() == Rules.Bind(env, old(Value()), b) && socket == Bound(env, old(Value()))
    {
      if env.refuses(binds) {
        socket := None;
      } else {
        socket := Some(binds);
        open := open[binds := b];
      }
      binds := binds + 1;
    }

    method Close(socket: Option<nat>)
      modifies `open
      ensures Value() == Rules.Close(old(Value()), socket)
    {
      if socket.Some? {
        open := open - {socket.value};
      }
    }

    method NewId() returns (id: Id)
      modifies `ids
      ensures id == env.ids(old(ids)) && Value() == old(Value()).(ids := old(ids) + 1)
    {
      id := env.ids(ids);
      ids := ids + 1;
    }
  }

  class Rule {
    var spec: RuleSpec
    var acl: seq<nat>
    var running: bool
    var socket: Option<nat>
    var rec: Store.State
    var targetUp: bool
    var backupUp: bool
    var usingBackup: bool
    var failStreak: int
    var riseStreak: int
    var bkFailStrk: int
    var bkRiseStrk: int

    function RouteValue(): Health.Route
      reads `targetUp, `backupUp, `usingBackup, `failStreak, `riseStreak, `bkFailStrk, `bkRiseStrk
    {
      Health.Route(Health.Probe(targetUp, failStreak, riseStreak), Health.Probe(backupUp, bkFailStrk, bkRiseStrk), usingBackup)
    }

    function Value(): RuleState
      reads this
    {
      RuleState(spec, acl, running, socket, rec, RouteValue())
    }

    constructor (spec: RuleSpec)
      ensures Value() == NewRule(spec)
    {
      this.spec, acl, running, socket := spec, ParseAcl(spec.allow), false, None;
      rec := Store.NewState(spec.dump.maxConns, spec.dump.maxBytesPer);
      targetUp, backupUp, usingBackup := true, true, spec.routingMode == "backup";
      failStreak, riseStreak, bkFailStrk, bkRiseStrk := 0, 0, 0, 0;
    }

    // ----- health -------------------------------------------------------------

    method DecideFailover()
      modifies `usingBackup
      ensures RouteValue() == Health.DecideFailover(spec, old(RouteValue()))
    {
      var hasBackup := spec.backup.Some? && !spec.backup.value.IsZero();
      if !hasBackup || spec.routingMode == "primary" {
        usingBackup := false;
      } else if spec.routingMode == "backup" {
        usingBackup := true;
      } else if spec.health.enabled {
        if !usingBackup && !targetUp && backupUp && spec.health.autoFail {
          usingBackup := true;
        } else if usingBackup && targetUp && spec.health.autoBack {
          usingBackup := false;
        } else if usingBackup && !backupUp && targetUp {
          usingBackup := false;
        }
      }
    }

    method NoteTarget(ok: bool, failAfter: int, riseAfter: int)
      modifies `targetUp, `failStreak, `riseStreak
      ensures RouteValue() == old(RouteValue()).(target := Health.Note(old(RouteValue()).target, ok, failAfter, riseAfter))
    {
      if ok {
        failStreak := 0;
        if riseStreak < riseAfter { riseStreak := riseStreak + 1; }
        if riseStreak >= riseAfter { targetUp := true; }
      } else {
        riseStreak := 0;
        if failStreak < failAfter { failStreak := failStreak + 1; }
        if failStreak >= failAfter { targetUp := false; }
      }
    }

    method NoteBackup(ok: bool, failAfter: int, riseAfter: int)
      modifies `backupUp, `bkFailStrk, `bkRiseStrk
      ensures RouteValue() == old(RouteValue()).(backup := Health.Note(old(RouteValue()).backup, ok, failAfter, riseAfter))
    {
      if ok {
        bkFailStrk := 0;
        if bkRiseStrk < riseAfter { bkRiseStrk := bkRiseStrk + 1; }
        if bkRiseStrk >= riseAfter { backupUp := true; }
      } else {
        bkRiseStrk := 0;
        if bkFailStrk < failAfter { bkFailStrk := bkFailStrk + 1; }
        if bkFailStrk >= failAfter { backupUp := false; }
      }
    }

    method NoteProbe(primary: bool, ok: bool)
      modifies `targetUp, `failStreak, `riseStreak, `backupUp, `bkFailStrk, `bkRiseStrk, `usingBackup
      ensures RouteValue() == Health.NoteProbe(spec, old(RouteValue()), primary, ok)
    {
      var failAfter, riseAfter := spec.health.failAfter, spec.health.riseAfter;
      if failAfter <= 0 { failAfter := 2; }
      if riseAfter <= 0 { riseAfter := 2; }
      if primary {
        NoteTarget(ok, failAfter, riseAfter);
      } else {
        NoteBackup(ok, failAfter, riseAfter);
      }
      DecideFailover();
    }

    /** Late outcomes of another endpoint are ignored. */
    method NoteEndpointProbe(o: Health.Outcome)
      modifies `targetUp, `failStreak, `riseStreak, `backupUp, `bkFailStrk, `bkRiseStrk, `usingBackup
      ensures RouteValue() == Health.NoteEndpointProbe(spec, old(RouteValue()), o)
    {
      if o.primary && spec.target != o.endpoint { return; }
      if !o.primary && (spec.backup.None? || spec.backup.value != o.endpoint) { return; }
      NoteProbe(o.primary, o.ok);
    }

    method SetRoutingMode(mode: string) returns (error: Option<Failure>)
      modifies `spec, `usingBackup
      ensures error == if !Health.IsMode(mode) then Some(BadMode)
                       else if !Health.ModeAccepted(old(spec), mode) then Some(NoBackup) else None
      ensures Value() == if error.Some? then old(Value()) else Routed(old(Value()), mode)
    {
      if mode != "auto" && mode != "primary" && mode != "backup" { return Some(BadMode); }
      if mode == "backup" && (spec.backup.None? || spec.backup.value.IsZero()) { return Some(NoBackup); }
      if spec.routingMode != mode {
        spec := spec.(routingMode := mode);
      }
      DecideFailover();
      return None;
    }

    /** Where the next connection goes, and whether that is the backup. */
    method CurrentTarget() returns (endpoint: Endpoint, viaBackup: bool)
      ensures (endpoint, viaBackup) == Health.CurrentTarget(spec, usingBackup)
    {
      if usingBackup && spec.backup.Some? && !spec.backup.value.IsZero() {
        return spec.backup.value, true;
      }
      return spec.target, false;
    }

    // ----- life cycle -----------------------------------------------------------

    method Start(net: Network, bound: Option<nat>) returns (ok: bool)
      modifies `running, `socket, net`open, net`binds
      ensures Running(net.Value(), Value()) == Rules.Start(net.env, old(net.Value()), old(Value()), bound)
      ensures ok == running
    {
      if running {
        net.Close(bound);
        return true;
      }
      var got := bound;
      if got.None? {
        got := net.Bind(BindingOf(spec));
        if got.None? {
          return false;
        }
      }
      running, socket := true, got;
      return true;
    }

    method Stop(net: Network)
      modifies `running, `socket, net`open
      ensures Running(net.Value(), Value()) == Rules.Stop(old(net.Value()), old(Value()))
    {
      if !running { return; }
      running := false;
      var listener := socket;
      socket := None;
      net.Close(listener);
    }

    method StartOrDisable(net: Network) returns (ok: bool)
      modifies `spec, `running, `socket, net`open, net`binds
      ensures Running(net.Value(), Value()) == Rules.StartOrDisable(net.env, old(net.Value()), old(Value()))
      ensures ok == running
    {
      ok := Start(net, None);
      if !ok {
        spec := spec.(enabled := false);
      }
    }

    // ----- the part of Manager.updateLocked that works on one rule ----------------

    /** Bind the new listener; if the old one may be in the way, stop it and try again. */
    method Prepare(net: Network, s: RuleSpec) returns (candidate: Option<nat>, stoppedOld: bool)
      modifies `running, `socket, net`open, net`binds
      ensures Prepared(net.Value(), Value(), candidate, stoppedOld)
           == Rules.Prepare(net.env, old(net.Value()), old(Value()), s)
    {
      candidate, stoppedOld := None, false;
      var needListener := s.enabled && (!running || BindingOf(spec) != BindingOf(s));
      if needListener {
        candidate := net.Bind(BindingOf(s));
        if candidate.None? && running && spec.listenPort == s.listenPort && spec.protocol == s.protocol {
          Stop(net);
          stoppedOld := true;
          candidate := net.Bind(BindingOf(s));
        }
      }
    }

    /** Give up the new listener, and start again on the old address if that was stopped. */
    method Restore(net: Network, candidate: Option<nat>, stoppedOld: bool)
      modifies `spec, `running, `socket, net`open, net`binds
      ensures Running(net.Value(), Value())
           == Rules.Restore(net.env, Prepared(old(net.Value()), old(Value()), candidate, stoppedOld))
    {
      net.Close(candidate);
      if stoppedOld {
        var _ := StartOrDisable(net);
      }
    }

    method ForgetOutcomes(before: RuleSpec, s: RuleSpec)
      modifies `targetUp, `failStreak, `riseStreak, `backupUp, `bkFailStrk, `bkRiseStrk
      ensures RouteValue() == old(RouteValue()).(
        target := if before.target != s.target then Health.FRESH else old(RouteValue()).target,
        backup := if before.backup != s.backup then Health.FRESH else old(RouteValue()).backup)
    {
      if before.target != s.target {
        targetUp, failStreak, riseStreak := true, 0, 0;
      }
      if before.backup != s.backup {
        backupUp, bkFailStrk, bkRiseStrk := true, 0, 0;
      }
    }

    /** Take over the settings; endpoints that changed count as up again. */
    method Configure(s: RuleSpec)
      modifies `spec, `acl, `rec, `targetUp, `failStreak, `riseStreak, `backupUp, `bkFailStrk, `bkRiseStrk, `usingBackup
      ensures Value() == Configured(old(Value()), s)
    {
      hide ParseAcl, Store.Resize, Health.Decide;
      var before := spec;
      rec := Store.Resize(rec, s.dump.maxConns, s.dump.maxBytesPer);
      spec, acl := s, ParseAcl(s.allow);
      ForgetOutcomes(before, s);
      DecideFailover();
    }

    method Reconfigure(net: Network, s: RuleSpec) returns (error: Option<Failure>)
      modifies this, net`open, net`binds
      ensures Running(net.Value(), Value()) == Rules.Reconfigure(net.env, old(net.Value()), old(Value()), s)
      ensures error == Obstacle(Rules.Prepare(net.env, old(net.Value()), old(Value()), s), old(Value()), s)
    {
      hide Rules.Prepare, Rules.Restore, Configured, Rules.Start, Rules.Stop;
      var wasRunning := running;
      var needListener := s.enabled && (!running || BindingOf(spec) != BindingOf(s));
      PrepareKeepsRecorder(net.env, net.Value(), Value(), s);
      var candidate, stoppedOld := Prepare(net, s);
      if needListener && candidate.None? {
        Restore(net, candidate, stoppedOld);
        return Some(CannotBind);
      }
      if !Store.ResizeAccepted(rec, s.dump.maxConns, s.dump.maxBytesPer) {
        Restore(net, candidate, stoppedOld);
        return Some(TooManyPins);
      }
      if wasRunning && (!s.enabled || needListener) && !stoppedOld {
        Stop(net);
      }
      Configure(s);
      if needListener {
        var _ := Start(net, candidate);
      }
      return None;
    }
  }

  lemma PrepareKeepsRecorder(env: Env, sys: Sys, r: RuleState, s: RuleSpec)
    ensures Rules.Prepare(env, sys, r, s).rule.rec == r.rec
  {
  }
}
