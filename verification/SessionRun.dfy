/** The whole life of one station session: how fresh the status check behind every uplink is, and what a cut stops. */
module SessionRun {
  import opened Errs
  import opened Schema
  import opened Clock
  import Chain
  import K = Keeper
  import M = Monitor
  import T = Session

  datatype Setup = Setup(h: Chain.Hasher, maxAge: int)

  /** One uplink: when, and when the last check that allowed the peer was. */
  datatype Uplink = Uplink(command: Command, at: int, allowed: Option<int>)

  /** `allowed` is when a check last allowed the peer, `cutEvents` how often
      session_cut was emitted. */
  datatype World = World(session: T.SessionState, keeper: K.KeeperState, allowed: Option<int>, cutEvents: nat,
                         uplinks: seq<Uplink>)

  /** A relay by anyone, a tick of the session's loop, its end, or another session's check of some agent. */
  datatype Event =
    | Relay(caller: T.Caller, tok: CommandToken, call: T.Call)
    | Tick(got: K.Fetched, now: int)
    | End
    | OtherCheck(agent: string, got: K.Fetched, now: int)

  /** Whether a relay gets as far as the status check. */
  predicate Reaches(s: T.SessionState, caller: T.Caller, now: int) {
    !s.closed && T.Begins(s.mandate) <= now <= T.Ends(s.mandate) && caller.jkt == s.mandate.jkt
  }

  /** Whether this relay's own status check allowed the peer. */
  predicate ChecksAndAllows(u: Setup, w: World, caller: T.Caller, call: T.Call) {
    match w.session.monitor
    case None => M.Allows(u.maxAge, M.NewMonitor(caller.agentID), w.keeper, call.got, call.now)
    case Some(m) => M.Due(m, call.now, M.TOKEN_EVERY) && M.Allows(u.maxAge, m, w.keeper, call.got, call.now)
  }

  predicate CutFires(before: Option<M.MonitorState>, after: Option<M.MonitorState>) {
    before.Some? && after.Some? && before.value.cut.None? && after.value.cut.Some?
  }

  function Step(u: Setup, w: World, e: Event): World {
    match e
    case Relay(caller, tok, call) =>
      var r := T.Relay(u.h, u.maxAge, w.session, w.keeper, caller, tok, call);
      var allowed := if Reaches(w.session, caller, call.now) && ChecksAndAllows(u, w, caller, call) then Some(call.now) else w.allowed;
      World(r.session, r.keeper, allowed, w.cutEvents + (if CutFires(w.session.monitor, r.session.monitor) then 1 else 0),
            if r.uplinked.Some? then w.uplinks + [Uplink(r.uplinked.value, call.now, allowed)] else w.uplinks)
    case Tick(got, now) =>
      (match w.session.monitor
       case None => w
       case Some(m) =>
         var t := M.Tick(u.maxAge, m, w.keeper, got, now);
         World(w.session.(monitor := Some(t.mon)), t.keeper, if M.Allows(u.maxAge, m, w.keeper, got, now) then Some(now) else w.allowed,
               w.cutEvents + (if t.fired then 1 else 0), w.uplinks))
    case End => w.(session := w.session.(closed := true))
    case OtherCheck(agent, got, now) => w.(keeper := K.Check(u.maxAge, w.keeper, agent, got, now).0)
  }

  function Run(u: Setup, w: World, es: seq<Event>): World
    decreases |es|
  {
    if es == [] then w else Run(u, Step(u, w, es[0]), es[1..])
  }

  // ------------------------------------------------------------- freshness

  predicate Fresh(x: Uplink) { x.allowed.Some? && x.at - x.allowed.value < 30_000_000_000 }

  /** This session checks its agent, the fetch fails, and the keeper holds no token for it: possible only when another
      session's check of that agent has dropped the token. */
  predicate Starved(w: World, e: Event) {
    && w.session.monitor.Some? && w.session.monitor.value.cut.None? && w.session.monitor.value.agent !in w.keeper.held
    && match e
       case Tick(got, _) => got.None?
       case Relay(caller, _, call) =>
         Reaches(w.session, caller, call.now) && M.Due(w.session.monitor.value, call.now, M.TOKEN_EVERY) && call.got.None?
       case _ => false
  }

  /** At each of its own checks, the keeper holds a token for the agent or the fetch succeeds. */
  ghost predicate Supplied(u: Setup, w: World, es: seq<Event>)
    decreases |es|
  {
    es == [] || (!Starved(w, es[0]) && Supplied(u, Step(u, w, es[0]), es[1..]))
  }

  /** An installed monitor that is not cut was last checked when the peer was last allowed. */
  ghost predicate Settled(mon: Option<M.MonitorState>, allowed: Option<int>) {
    mon.Some? && mon.value.cut.None? ==> mon.value.good && allowed == Some(mon.value.last)
  }

  ghost predicate Inv(w: World) {
    && K.HeldActive(w.keeper) && Settled(w.session.monitor, w.allowed)
    && (w.cutEvents == if w.session.monitor.Some? && w.session.monitor.value.cut.Some? then 1 else 0)
    && (forall i :: 0 <= i < |w.uplinks| ==> Fresh(w.uplinks[i]))
  }

  /** What a check before a command leaves. */
  lemma WatchSettles(u: Setup, w: World, caller: T.Caller, tok: CommandToken, call: T.Call)
    requires Inv(w) && Reaches(w.session, caller, call.now) && !Starved(w, Relay(caller, tok, call))
    ensures var r := T.Watch(u.maxAge, w.session.monitor, w.keeper, caller.agentID, call.got, call.now);
            var allowed := if ChecksAndAllows(u, w, caller, call) then Some(call.now) else w.allowed;
            && K.HeldActive(r.keeper) && Settled(r.monitor, allowed)
            && (w.session.monitor.Some? ==> r.monitor.Some?)
            && (w.session.monitor.None? && r.monitor.Some? ==> r.monitor.value.cut.None?)
            && (w.session.monitor.Some? && w.session.monitor.value.cut.Some? ==> r.monitor == w.session.monitor)
            && (r.refused.None? ==> allowed.Some? && call.now - allowed.value < M.TOKEN_EVERY)
  {
    var agent := if w.session.monitor.Some? then w.session.monitor.value.agent else caller.agentID;
    K.CheckHeldActive(u.maxAge, w.keeper, agent, call.got, call.now);
  }

  /** A relay beyond its status check leaves the monitor and keeper alone. */
  lemma RelayAfterWatch(u: Setup, w: World, caller: T.Caller, tok: CommandToken, call: T.Call)
    ensures var r := T.Relay(u.h, u.maxAge, w.session, w.keeper, caller, tok, call);
            if Reaches(w.session, caller, call.now) then
              var watched := T.Watch(u.maxAge, w.session.monitor, w.keeper, caller.agentID, call.got, call.now);
              r.session.monitor == watched.monitor && r.keeper == watched.keeper && (watched.refused.Some? ==> r.uplinked.None?)
            else r.session.monitor == w.session.monitor && r.keeper == w.keeper && r.uplinked.None?
    ensures var r := T.Relay(u.h, u.maxAge, w.session, w.keeper, caller, tok, call);
            r.session.mandate == w.session.mandate && (r.uplinked.None? ==> r.session.chain == w.session.chain)
  {
    var r := T.Relay(u.h, u.maxAge, w.session, w.keeper, caller, tok, call);
    if Reaches(w.session, caller, call.now) {
      var watched := T.Watch(u.maxAge, w.session.monitor, w.keeper, caller.agentID, call.got, call.now);
      var s1 := w.session.(monitor := watched.monitor);
      if watched.refused.None? {
        assert r == T.RelayChecked(u.h, s1, watched.keeper, tok, call.uplink);
        CheckedKeepsMonitor(u.h, s1, watched.keeper, tok, call.uplink);
      }
    }
  }

  lemma CheckedKeepsMonitor(h: Chain.Hasher, s: T.SessionState, k: K.KeeperState, tok: CommandToken, reply: T.UplinkReply)
    ensures var r := T.RelayChecked(h, s, k, tok, reply);
            r.session.monitor == s.monitor && r.session.mandate == s.mandate && r.keeper == k &&
            (r.uplinked.None? ==> r.session.chain == s.chain)
  {
    if T.CheckCommand(s, tok).Ok? {
      var cmd := T.CheckCommand(s, tok).value;
      var next := T.RecordReply(h, s, cmd, tok, reply).0;
      assert next.monitor == s.monitor && next.mandate == s.mandate;
    }
  }

  /** A relay goes up exactly when the session is open and in its window, the caller has the mandate's key, the status
      check refuses nothing, and the command is of the mandate's classes, for this mandate, with a counter above every
      one already chained. */
  lemma UplinksExactlyWhen(u: Setup, w: World, caller: T.Caller, tok: CommandToken, call: T.Call)
    requires Chain.Chained(u.h, w.session.chain)
    ensures T.Relay(u.h, u.maxAge, w.session, w.keeper, caller, tok, call).uplinked.Some? <==>
              && !w.session.closed && caller.jkt == w.session.mandate.jkt
              && (w.session.mandate.nbf - 30) * 1_000_000_000 <= call.now <= (w.session.mandate.exp + 30) * 1_000_000_000
              && T.Watch(u.maxAge, w.session.monitor, w.keeper, caller.agentID, call.got, call.now).refused.None?
              && PeekCommand(tok).Ok?
              && var cmd := PeekCommand(tok).value;
                 && cmd.class_ in w.session.mandate.classes && cmd.mandateID == w.session.booking.mandateID
                 && forall i :: 0 <= i < |w.session.chain.records| ==> w.session.chain.records[i].counter < cmd.counter
  {
    var r := T.Relay(u.h, u.maxAge, w.session, w.keeper, caller, tok, call);
    var watched := T.Watch(u.maxAge, w.session.monitor, w.keeper, caller.agentID, call.got, call.now);
    var s1 := w.session.(monitor := watched.monitor);
    if Reaches(w.session, caller, call.now) && watched.refused.None? {
      assert r == T.RelayChecked(u.h, s1, watched.keeper, tok, call.uplink);
      assert r.uplinked.Some? <==> T.CheckCommand(s1, tok).Ok?;
    } else {
      assert r.uplinked.None?;
    }
  }

  lemma RelayKeeps(u: Setup, w: World, caller: T.Caller, tok: CommandToken, call: T.Call)
    requires Inv(w) && !Starved(w, Relay(caller, tok, call))
    ensures Inv(Step(u, w, Relay(caller, tok, call)))
  {
    RelayAfterWatch(u, w, caller, tok, call);
    if Reaches(w.session, caller, call.now) {
      WatchSettles(u, w, caller, tok, call);
    }
  }

  lemma TickKeeps(u: Setup, w: World, got: K.Fetched, now: int)
    requires Inv(w) && !Starved(w, Tick(got, now))
    ensures Inv(Step(u, w, Tick(got, now)))
  {
    if w.session.monitor.Some? {
      K.CheckHeldActive(u.maxAge, w.keeper, w.session.monitor.value.agent, got, now);
    }
  }

  lemma StepKeeps(u: Setup, w: World, e: Event)
    requires Inv(w) && !Starved(w, e)
    ensures Inv(Step(u, w, e))
  {
    match e {
      case Relay(caller, tok, call) => RelayKeeps(u, w, caller, tok, call);
      case Tick(got, now) => TickKeeps(u, w, got, now);
      case End =>
      case OtherCheck(other, got, now) => K.CheckHeldActive(u.maxAge, w.keeper, other, got, now);
    }
  }

  lemma {:induction false} RunKeeps(u: Setup, w: World, es: seq<Event>)
    requires Inv(w) && Supplied(u, w, es)
    ensures Inv(Run(u, w, es))
    decreases |es|
  {
    if es != [] {
      StepKeeps(u, w, es[0]);
      RunKeeps(u, Step(u, w, es[0]), es[1..]);
    }
  }

  /** A session that has just been opened, on a keeper that holds only ACTIVE tokens. */
  ghost predicate Opened(w: World) {
    w.session.monitor.None? && w.uplinks == [] && w.cutEvents == 0 && K.HeldActive(w.keeper)
  }

  /** Whoever shares the keeper: if at each of the session's own checks the keeper holds a token for its agent or the
      fetch succeeds, every uplink follows a check that allowed the agent less than 30 s before; and session_cut was
      emitted once if the session is cut, else never. */
  lemma SuppliedUplinksFresh(u: Setup, w: World, es: seq<Event>)
    requires Opened(w) && Supplied(u, w, es)
    ensures var end := Run(u, w, es);
            && (forall i :: 0 <= i < |end.uplinks| ==> Fresh(end.uplinks[i]))
            && end.cutEvents == (if end.session.monitor.Some? && end.session.monitor.value.cut.Some? then 1 else 0)
  {
    RunKeeps(u, w, es);
  }

  // ------------------------------------------------------- a keeper to itself

  /** The mandate's key is one agent's, and no other session uses the keeper for that agent. */
  predicate Sole(agent: string, jkt: string, es: seq<Event>) {
    forall i :: 0 <= i < |es| ==> SoleEvent(agent, jkt, es[i])
  }

  predicate SoleEvent(agent: string, jkt: string, e: Event) {
    (e.OtherCheck? ==> e.agent != agent) && (e.Relay? && e.caller.jkt == jkt ==> e.caller.agentID == agent)
  }

  /** The monitor watches that agent, and while it is up the keeper holds the agent's ACTIVE token. */
  ghost predicate Holding(agent: string, jkt: string, w: World) {
    && w.session.mandate.jkt == jkt && K.HeldActive(w.keeper)
    && (w.session.monitor.Some? ==>
          && w.session.monitor.value.agent == agent
          && (w.session.monitor.value.cut.None? ==> w.session.monitor.value.good && M.HoldsToken(w.keeper, agent)))
  }

  lemma WatchHolds(u: Setup, w: World, caller: T.Caller, call: T.Call, agent: string, jkt: string)
    requires Holding(agent, jkt, w) && caller.agentID == agent
    ensures var r := T.Watch(u.maxAge, w.session.monitor, w.keeper, caller.agentID, call.got, call.now);
            && K.HeldActive(r.keeper)
            && (r.monitor.Some? ==>
                  && r.monitor.value.agent == agent
                  && (r.monitor.value.cut.None? ==> r.monitor.value.good && M.HoldsToken(r.keeper, agent)))
  {
    K.CheckHeldActive(u.maxAge, w.keeper, agent, call.got, call.now);
  }

  lemma StepHolds(u: Setup, w: World, e: Event, agent: string, jkt: string)
    requires Holding(agent, jkt, w) && SoleEvent(agent, jkt, e)
    ensures Holding(agent, jkt, Step(u, w, e)) && !Starved(w, e)
  {
    match e {
      case Relay(caller, tok, call) =>
        RelayAfterWatch(u, w, caller, tok, call);
        if Reaches(w.session, caller, call.now) {
          WatchHolds(u, w, caller, call, agent, jkt);
        }
      case Tick(got, now) => K.CheckHeldActive(u.maxAge, w.keeper, agent, got, now);
      case End =>
      case OtherCheck(other, got, now) => K.CheckHeldActive(u.maxAge, w.keeper, other, got, now);
    }
  }

  lemma {:induction false} SoleIsSupplied(u: Setup, w: World, es: seq<Event>, agent: string, jkt: string)
    requires Holding(agent, jkt, w) && Sole(agent, jkt, es)
    ensures Supplied(u, w, es) && Holding(agent, jkt, Run(u, w, es))
    decreases |es|
  {
    if es != [] {
      StepHolds(u, w, es[0], agent, jkt);
      assert Sole(agent, jkt, es[1..]) by {
        assert forall i :: 0 <= i < |es[1..]| ==> es[1..][i] == es[i + 1];
      }
      SoleIsSupplied(u, Step(u, w, es[0]), es[1..], agent, jkt);
    }
  }

  /** From its opening on, with the keeper to itself for the relaying agent, every uplink of a session follows a
      check that allowed the agent less than 30 s before, and while the session is up the keeper holds its token. */
  lemma EveryUplinkFresh(u: Setup, w: World, es: seq<Event>, agent: string, jkt: string)
    requires Opened(w) && w.session.mandate.jkt == jkt && Sole(agent, jkt, es)
    ensures var end := Run(u, w, es);
            && (forall i :: 0 <= i < |end.uplinks| ==> Fresh(end.uplinks[i]))
            && (end.session.monitor.Some? && end.session.monitor.value.cut.None? ==> M.HoldsToken(end.keeper, agent))
  {
    SoleIsSupplied(u, w, es, agent, jkt);
    SuppliedUplinksFresh(u, w, es);
  }

  // ------------------------------------------------------------------ cuts

  ghost predicate IsCut(w: World, code: Code) {
    w.session.monitor.Some? && w.session.monitor.value.cut == Some(code)
  }

  lemma CutStep(u: Setup, w: World, e: Event, code: Code)
    requires IsCut(w, code)
    ensures var next := Step(u, w, e);
            IsCut(next, code) && next.uplinks == w.uplinks && next.session.chain == w.session.chain && next.cutEvents == w.cutEvents
  {
    if e.Relay? {
      RelayAfterWatch(u, w, e.caller, e.tok, e.call);
    }
  }

  /** Once a session is cut, whoever relays and whatever the keeper learns, nothing more goes up or is chained, the
      code stays, and session_cut is not emitted again. No assumption on the keeper's other users. */
  lemma {:induction false} CutEndsUplinks(u: Setup, w: World, es: seq<Event>, code: Code)
    requires IsCut(w, code)
    ensures var end := Run(u, w, es);
            IsCut(end, code) && end.uplinks == w.uplinks && end.session.chain == w.session.chain && end.cutEvents == w.cutEvents
    decreases |es|
  {
    if es != [] {
      CutStep(u, w, es[0], code);
      CutEndsUplinks(u, Step(u, w, es[0]), es[1..], code);
    }
  }

  // --------------------------------------------------------- sessions that stand

  /** What holds of every session in every run, however the keeper is shared: an installed monitor that is not cut has
      been allowed, and session_cut was emitted once if cut. */
  ghost predicate Standing(w: World) {
    && K.HeldActive(w.keeper)
    && (w.session.monitor.Some? && w.session.monitor.value.cut.None? ==> w.session.monitor.value.good && w.allowed.Some?)
    && (w.cutEvents == if w.session.monitor.Some? && w.session.monitor.value.cut.Some? then 1 else 0)
  }

  lemma RelayStands(u: Setup, w: World, caller: T.Caller, tok: CommandToken, call: T.Call)
    requires Standing(w)
    ensures Standing(Step(u, w, Relay(caller, tok, call)))
  {
    RelayAfterWatch(u, w, caller, tok, call);
    var agent := if w.session.monitor.Some? then w.session.monitor.value.agent else caller.agentID;
    K.CheckHeldActive(u.maxAge, w.keeper, agent, call.got, call.now);
  }

  lemma StepStands(u: Setup, w: World, e: Event)
    requires Standing(w)
    ensures Standing(Step(u, w, e))
  {
    match e {
      case Relay(caller, tok, call) => RelayStands(u, w, caller, tok, call);
      case Tick(got, now) =>
        if w.session.monitor.Some? {
          K.CheckHeldActive(u.maxAge, w.keeper, w.session.monitor.value.agent, got, now);
        }
      case End =>
      case OtherCheck(other, got, now) => K.CheckHeldActive(u.maxAge, w.keeper, other, got, now);
    }
  }

  lemma {:induction false} RunStands(u: Setup, w: World, es: seq<Event>)
    requires Standing(w)
    ensures Standing(Run(u, w, es))
    decreases |es|
  {
    if es != [] {
      StepStands(u, w, es[0]);
      RunStands(u, Step(u, w, es[0]), es[1..]);
    }
  }

  // ----------------------------------------------- exactly when uplinks stay fresh

  ghost predicate AllFresh(w: World) { forall i :: 0 <= i < |w.uplinks| ==> Fresh(w.uplinks[i]) }

  ghost predicate FreshFrom(n: nat, w: World) { forall i :: n <= i < |w.uplinks| ==> Fresh(w.uplinks[i]) }

  /** Whatever happens from now on, with the keeper to itself for the agent, every later uplink is fresh. */
  ghost predicate StaysFresh(u: Setup, w: World, agent: string, jkt: string) {
    forall es :: Sole(agent, jkt, es) ==> FreshFrom(|w.uplinks|, Run(u, w, es))
  }

  /** The window reaches 30 s past the last allowing check. */
  predicate RoomLeft(m: Mandate, allowed: int) { T.Begins(m) <= T.Ends(m) && allowed + M.TOKEN_EVERY <= T.Ends(m) }

  /** There is a time in the window when no check is due, 30 s or more after the last allowing one. */
  ghost predicate Gap(m: Mandate, last: int, allowed: int) {
    exists now :: T.Begins(m) <= now <= T.Ends(m) && InGap(last, allowed, now)
  }

  predicate InGap(last: int, allowed: int, now: int) { now - last < M.TOKEN_EVERY && now - allowed >= M.TOKEN_EVERY }

  /** There is a command the session would send up. */
  ghost predicate CommandLeft(s: T.SessionState) { exists tok :: T.CheckCommand(s, tok).Ok? }

  /** A session that is up and watches that agent, whatever its last check found. */
  ghost predicate Up(w: World, agent: string, jkt: string) {
    && Standing(w) && w.session.mandate.jkt == jkt && w.session.monitor.Some?
    && w.session.monitor.value.cut.None? && w.session.monitor.value.agent == agent
  }

  /** A time at which the session could send a command up on a check too old. */
  ghost predicate MayGoStale(w: World, agent: string)
    requires w.session.monitor.Some? && w.allowed.Some?
  {
    && !w.session.closed && CommandLeft(w.session)
    && if agent in w.keeper.held then Gap(w.session.mandate, w.session.monitor.value.last, w.allowed.value)
       else RoomLeft(w.session.mandate, w.allowed.value)
  }

  /** For every session that is up: with the keeper to itself from now on, every later uplink of every continuation is
      fresh, if and only if the session is closed, or no command is left that it would send up, or its window has no time
      for a stale one: with a token held, none when no check is due and the last allowing check is 30 s old; without,
      none 30 s past that check. */
  lemma StaysFreshIff(u: Setup, w: World, agent: string, jkt: string)
    requires Up(w, agent, jkt)
    ensures StaysFresh(u, w, agent, jkt) <==> !MayGoStale(w, agent)
  {
    var last, allowed := w.session.monitor.value.last, w.allowed.value;
    if MayGoStale(w, agent) {
      var tok :| T.CheckCommand(w.session, tok).Ok?;
      if agent in w.keeper.held {
        var now :| T.Begins(w.session.mandate) <= now <= T.Ends(w.session.mandate) && InGap(last, allowed, now);
        StaleInGap(u, w, agent, jkt, tok, now);
      } else {
        StaleUplink(u, w, agent, jkt, tok);
      }
    } else {
      forall es | Sole(agent, jkt, es) ensures FreshFrom(|w.uplinks|, Run(u, w, es)) {
        if w.session.closed || !CommandLeft(w.session) {
          NothingSent(u, w, es);
        } else {
          var w0 := w.(uplinks := []);
          WaitingFresh(u, w0, es, last, allowed, agent, jkt);
          assert w == Logged(w.uplinks, w0) by {
            assert w.uplinks + [] == w.uplinks;
          }
          RunAfter(u, w0, w.uplinks, es);
        }
      }
    }
  }

  /** The same world with these uplinks before its own. */
  function Logged(pre: seq<Uplink>, w: World): World { w.(uplinks := pre + w.uplinks) }

  lemma StepAfter(u: Setup, w: World, pre: seq<Uplink>, e: Event)
    ensures Step(u, Logged(pre, w), e) == Logged(pre, Step(u, w, e))
  {
    if e.Relay? {
      var r := T.Relay(u.h, u.maxAge, w.session, w.keeper, e.caller, e.tok, e.call);
      if r.uplinked.Some? {
        var x := Step(u, w, e).uplinks[|w.uplinks|];
        assert Step(u, w, e).uplinks == w.uplinks + [x];
        assert pre + w.uplinks + [x] == pre + (w.uplinks + [x]);
      }
    }
  }

  /** What was sent before makes no difference. */
  lemma {:induction false} RunAfter(u: Setup, w: World, pre: seq<Uplink>, es: seq<Event>)
    ensures Run(u, Logged(pre, w), es) == Logged(pre, Run(u, w, es))
    decreases |es|
  {
    if es != [] {
      StepAfter(u, w, pre, es[0]);
      RunAfter(u, Step(u, w, es[0]), pre, es[1..]);
    }
  }

  /** When the failing run's tick and command come. */
  function LateTime(m: Mandate, allowed: int): int {
    if allowed + M.TOKEN_EVERY >= T.Begins(m) then allowed + M.TOKEN_EVERY else T.Begins(m)
  }

  /** The failing run without a token: a tick that finds none counts as a check, and a command right after it goes up,
      30 s or more after the last allowing check. */
  lemma StaleUplink(u: Setup, w: World, agent: string, jkt: string, tok: CommandToken)
    requires Up(w, agent, jkt) && agent !in w.keeper.held && !w.session.closed
    requires RoomLeft(w.session.mandate, w.allowed.value) && T.CheckCommand(w.session, tok).Ok?
    ensures !StaysFresh(u, w, agent, jkt)
    ensures var late := LateTime(w.session.mandate, w.allowed.value);
            var es := [Tick(None, late), Relay(T.Caller("", agent, jkt), tok, T.Call(None, late, None, T.NoReply))];
            var end := Run(u, w, es);
            |end.uplinks| == |w.uplinks| + 1 && !Fresh(end.uplinks[|w.uplinks|])
  {
    var late := LateTime(w.session.mandate, w.allowed.value);
    var caller, call := T.Caller("", agent, jkt), T.Call(None, late, None, T.NoReply);
    var e1, e2 := Tick(None, late), Relay(caller, tok, call);
    var w1 := Step(u, w, e1);
    TickFindsNone(u, w, agent, jkt, late);
    SentUnchecked(u, w1, caller, tok, call);
    var w2 := Step(u, w1, e2);
    RunOfTwo(u, w, e1, e2);
    assert Sole(agent, jkt, [e1, e2]);
    assert w2.uplinks == w1.uplinks + [Uplink(PeekCommand(tok).value, late, w.allowed)];
    assert !Fresh(w2.uplinks[|w.uplinks|]) && !FreshFrom(|w.uplinks|, w2);
  }

  /** The failing run with a token: a command when no check is due, 30 s or more after the last allowing check. */
  lemma StaleInGap(u: Setup, w: World, agent: string, jkt: string, tok: CommandToken, now: int)
    requires Up(w, agent, jkt) && !w.session.closed && T.CheckCommand(w.session, tok).Ok?
    requires T.Begins(w.session.mandate) <= now <= T.Ends(w.session.mandate)
    requires InGap(w.session.monitor.value.last, w.allowed.value, now)
    ensures !StaysFresh(u, w, agent, jkt)
    ensures var end := Run(u, w, [Relay(T.Caller("", agent, jkt), tok, T.Call(None, now, None, T.NoReply))]);
            |end.uplinks| == |w.uplinks| + 1 && !Fresh(end.uplinks[|w.uplinks|])
  {
    var caller, call := T.Caller("", agent, jkt), T.Call(None, now, None, T.NoReply);
    var e := Relay(caller, tok, call);
    SentUnchecked(u, w, caller, tok, call);
    var w1 := Step(u, w, e);
    assert [e][1..] == [] && Run(u, w, [e]) == w1;
    assert Sole(agent, jkt, [e]);
    assert w1.uplinks == w.uplinks + [Uplink(PeekCommand(tok).value, now, w.allowed)];
    assert !Fresh(w1.uplinks[|w.uplinks|]) && !FreshFrom(|w.uplinks|, w1);
  }

  /** Another session's check of the agent finds it revoked, this session's tick finds no token, and another check finds
      the agent ACTIVE again: the token is held once more, but the last own check allowed nothing. */
  function RevokedAndBack(agent: string, at: int, revoked: int, back: int): seq<Event> {
    [OtherCheck(agent, Some(K.StatusToken(false, revoked)), at + 5 * SECOND), Tick(None, at + 20 * SECOND),
     OtherCheck(agent, Some(K.StatusToken(true, back)), at + 25 * SECOND)]
  }

  /** The input: after that, with its token held and the keeper to itself, a session allowed at `at` sends a command up
      40 s later without another check. */
  lemma HeldButStale(u: Setup, w: World, agent: string, jkt: string, tok: CommandToken, revoked: int, back: int)
    requires Up(w, agent, jkt) && w.allowed == Some(w.session.monitor.value.last) && !w.session.closed
    requires T.CheckCommand(w.session, tok).Ok? && K.ZERO_TIME < revoked < back
    requires agent in w.keeper.revoked ==> w.keeper.revoked[agent] < back
    requires T.Begins(w.session.mandate) <= w.allowed.value + 40 * SECOND <= T.Ends(w.session.mandate)
    ensures var end := Run(u, w, RevokedAndBack(agent, w.allowed.value, revoked, back));
            Up(end, agent, jkt) && !end.session.closed && agent in end.keeper.held && !StaysFresh(u, end, agent, jkt)
  {
    var at := w.allowed.value;
    var es := RevokedAndBack(agent, at, revoked, back);
    var w1 := Step(u, w, es[0]);
    assert agent !in w1.keeper.held;
    StepStands(u, w, es[0]);
    TickFindsNone(u, w1, agent, jkt, at + 20 * SECOND);
    var w2 := Step(u, w1, es[1]);
    var w3 := Step(u, w2, es[2]);
    RunStands(u, w, es);
    RunOfThree(u, w, es[0], es[1], es[2]);
    assert w3.session == w.session.(monitor := Some(w.session.monitor.value.(last := at + 20 * SECOND))) && w3.allowed == w.allowed;
    assert T.CheckCommand(w3.session, tok) == T.CheckCommand(w.session, tok);
    StaleInGap(u, w3, agent, jkt, tok, at + 40 * SECOND);
  }

  lemma RunOfThree(u: Setup, w: World, e1: Event, e2: Event, e3: Event)
    ensures Run(u, w, [e1, e2, e3]) == Step(u, Step(u, Step(u, w, e1), e2), e3)
  {
    assert [e1, e2, e3][1..] == [e2, e3];
    RunOfTwo(u, Step(u, w, e1), e2, e3);
  }

  lemma RunOfTwo(u: Setup, w: World, e1: Event, e2: Event)
    ensures Run(u, w, [e1, e2]) == Step(u, Step(u, w, e1), e2)
  {
    assert [e1, e2][1..] == [e2] && [e2][1..] == [];
    assert Run(u, Step(u, w, e1), [e2]) == Run(u, Step(u, Step(u, w, e1), e2), []);
  }

  lemma TickFindsNone(u: Setup, w: World, agent: string, jkt: string, now: int)
    requires Up(w, agent, jkt) && agent !in w.keeper.held
    ensures var mon := w.session.monitor.value.(last := now);
            Step(u, w, Tick(None, now)) == w.(session := w.session.(monitor := Some(mon)))
  {
  }

  /** A relay that is not due for a check sends the command up. */
  lemma SentUnchecked(u: Setup, w: World, caller: T.Caller, tok: CommandToken, call: T.Call)
    requires Reaches(w.session, caller, call.now) && T.CheckCommand(w.session, tok).Ok? && w.session.monitor.Some?
    requires w.session.monitor.value.cut.None? && !M.Due(w.session.monitor.value, call.now, M.TOKEN_EVERY)
    ensures Step(u, w, Relay(caller, tok, call)).uplinks ==
              w.uplinks + [Uplink(PeekCommand(tok).value, call.now, w.allowed)]
  {
    var r := T.Relay(u.h, u.maxAge, w.session, w.keeper, caller, tok, call);
    var watched := T.Watch(u.maxAge, w.session.monitor, w.keeper, caller.agentID, call.got, call.now);
    assert watched == T.Watched(w.session.monitor, w.keeper, None);
    assert w.session.(monitor := watched.monitor) == w.session;
    assert r == T.RelayChecked(u.h, w.session, w.keeper, tok, call.uplink);
  }

  /** What goes up passed the command checks, and everything they look at but the chain is fixed. */
  lemma RelayNeedsCommand(u: Setup, w: World, caller: T.Caller, tok: CommandToken, call: T.Call)
    ensures var r := T.Relay(u.h, u.maxAge, w.session, w.keeper, caller, tok, call);
            && r.session.booking == w.session.booking && r.session.mandate == w.session.mandate
            && (w.session.closed ==> r.session.closed && r.uplinked.None?)
            && (r.uplinked.None? ==> r.session.chain == w.session.chain)
            && (r.uplinked.Some? ==> T.CheckCommand(w.session, tok).Ok?)
  {
    var r := T.Relay(u.h, u.maxAge, w.session, w.keeper, caller, tok, call);
    if Reaches(w.session, caller, call.now) {
      var watched := T.Watch(u.maxAge, w.session.monitor, w.keeper, caller.agentID, call.got, call.now);
      var s1 := w.session.(monitor := watched.monitor);
      if watched.refused.None? {
        assert r == T.RelayChecked(u.h, s1, watched.keeper, tok, call.uplink);
        assert T.CheckCommand(s1, tok) == T.CheckCommand(w.session, tok);
        if T.CheckCommand(s1, tok).Ok? {
          var next := T.RecordReply(u.h, s1, T.CheckCommand(s1, tok).value, tok, call.uplink).0;
          assert next.booking == s1.booking && next.mandate == s1.mandate;
        }
      }
    }
  }

  /** A closed session, or one with no command left, stays so and sends nothing. */
  lemma NothingSentStep(u: Setup, w: World, e: Event)
    requires w.session.closed || !CommandLeft(w.session)
    ensures var next := Step(u, w, e);
            next.uplinks == w.uplinks && (next.session.closed || !CommandLeft(next.session))
  {
    if e.Relay? {
      RelayNeedsCommand(u, w, e.caller, e.tok, e.call);
    }
    var next := Step(u, w, e);
    assert next.session.booking == w.session.booking && next.session.mandate == w.session.mandate;
    assert next.session.chain == w.session.chain;
    forall tok ensures T.CheckCommand(next.session, tok) == T.CheckCommand(w.session, tok) {
    }
  }

  lemma {:induction false} NothingSent(u: Setup, w: World, es: seq<Event>)
    requires w.session.closed || !CommandLeft(w.session)
    ensures Run(u, w, es).uplinks == w.uplinks
    decreases |es|
  {
    if es != [] {
      NothingSentStep(u, w, es[0]);
      NothingSent(u, Step(u, w, es[0]), es[1..]);
    }
  }

  /** Up since a check at `allowed`, with no own check since that allowed the agent; no time of the window is both open
      to a command and 30 s past that check. */
  ghost predicate Waiting(w: World, last: int, allowed: int, agent: string, jkt: string) {
    && w.session.mandate.jkt == jkt && K.HeldActive(w.keeper) && AllFresh(w) && w.cutEvents == 0
    && w.session.monitor.Some? && w.session.monitor.value.cut.None?
    && w.session.monitor.value.good && w.session.monitor.value.agent == agent && w.allowed == Some(allowed)
    && if agent in w.keeper.held
       then w.session.monitor.value.last == last && !Gap(w.session.mandate, last, allowed)
       else !RoomLeft(w.session.mandate, allowed)
  }

  /** Up with a token, as an allowing check leaves it. */
  ghost predicate Restored(w: World, agent: string, jkt: string) { Inv(w) && Holding(agent, jkt, w) }

  ghost predicate Ended(w: World) {
    AllFresh(w) && w.session.monitor.Some? && w.session.monitor.value.cut.Some?
  }

  ghost predicate Onward(w: World, last: int, allowed: int, agent: string, jkt: string) {
    Waiting(w, last, allowed, agent, jkt) || Restored(w, agent, jkt) || Ended(w)
  }

  /** What a check while waiting leaves: a token, or a cut; or, when none was held, nothing new. */
  lemma CheckWhileWaiting(u: Setup, w: World, last: int, allowed: int, agent: string, jkt: string, got: K.Fetched, now: int)
    requires Waiting(w, last, allowed, agent, jkt)
    ensures var t := M.Tick(u.maxAge, w.session.monitor.value, w.keeper, got, now);
            var allows := M.Allows(u.maxAge, w.session.monitor.value, w.keeper, got, now);
            && K.HeldActive(t.keeper) && t.mon.agent == agent
            && (if allows then t.code.None? && t.mon.cut.None? && t.mon.good && t.mon.last == now && M.HoldsToken(t.keeper, agent)
                else t.code.Some? && (t.mon.cut.None? ==> t.mon.good && agent !in w.keeper.held && agent !in t.keeper.held && !t.fired)
                     && (t.mon.cut.Some? ==> t.fired))
  {
    K.CheckHeldActive(u.maxAge, w.keeper, agent, got, now);
  }

  lemma TickWhileWaiting(u: Setup, w: World, last: int, allowed: int, agent: string, jkt: string, got: K.Fetched, now: int)
    requires Waiting(w, last, allowed, agent, jkt)
    ensures Onward(Step(u, w, Tick(got, now)), last, allowed, agent, jkt)
  {
    CheckWhileWaiting(u, w, last, allowed, agent, jkt, got, now);
  }

  /** A command sent up while no check is due is still fresh. */
  lemma StillFresh(w: World, last: int, allowed: int, agent: string, jkt: string, caller: T.Caller, now: int, cmd: Command)
    requires Waiting(w, last, allowed, agent, jkt) && Reaches(w.session, caller, now)
    requires !M.Due(w.session.monitor.value, now, M.TOKEN_EVERY)
    ensures Fresh(Uplink(cmd, now, w.allowed))
  {
    if agent in w.keeper.held {
      assert !InGap(last, allowed, now);
    }
  }

  lemma RelayWhileWaiting(u: Setup, w: World, last: int, allowed: int, agent: string, jkt: string, caller: T.Caller,
                          tok: CommandToken, call: T.Call)
    requires Waiting(w, last, allowed, agent, jkt)
    ensures Onward(Step(u, w, Relay(caller, tok, call)), last, allowed, agent, jkt)
  {
    RelayAfterWatch(u, w, caller, tok, call);
    var r := T.Relay(u.h, u.maxAge, w.session, w.keeper, caller, tok, call);
    if Reaches(w.session, caller, call.now) {
      if M.Due(w.session.monitor.value, call.now, M.TOKEN_EVERY) {
        CheckWhileWaiting(u, w, last, allowed, agent, jkt, call.got, call.now);
      } else if r.uplinked.Some? {
        StillFresh(w, last, allowed, agent, jkt, caller, call.now, r.uplinked.value);
      }
    }
  }

  lemma {:induction false} WaitingFresh(u: Setup, w: World, es: seq<Event>, last: int, allowed: int, agent: string, jkt: string)
    requires Waiting(w, last, allowed, agent, jkt) && Sole(agent, jkt, es)
    ensures AllFresh(Run(u, w, es))
    decreases |es|
  {
    if es != [] {
      var next, rest := Step(u, w, es[0]), es[1..];
      assert SoleEvent(agent, jkt, es[0]);
      assert Sole(agent, jkt, rest) by {
        assert forall i :: 0 <= i < |rest| ==> rest[i] == es[i + 1];
      }
      match es[0] {
        case Relay(caller, tok, call) => RelayWhileWaiting(u, w, last, allowed, agent, jkt, caller, tok, call);
        case Tick(got, now) => TickWhileWaiting(u, w, last, allowed, agent, jkt, got, now);
        case End =>
        case OtherCheck(other, got, now) => K.CheckHeldActive(u.maxAge, w.keeper, other, got, now);
      }
      if Waiting(next, last, allowed, agent, jkt) {
        WaitingFresh(u, next, rest, last, allowed, agent, jkt);
      } else if Restored(next, agent, jkt) {
        SoleIsSupplied(u, next, rest, agent, jkt);
        RunKeeps(u, next, rest);
      } else {
        CutEndsUplinks(u, next, rest, next.session.monitor.value.cut.value);
      }
    }
  }

  /** In every run of a session from its opening, however the keeper is shared: once it is up, its uplinks stay fresh
      with the keeper to itself exactly when they cannot go stale. */
  lemma StaysFreshInEveryRun(u: Setup, w: World, es: seq<Event>, agent: string, jkt: string)
    requires Opened(w)
    requires var end := Run(u, w, es);
             end.session.mandate.jkt == jkt && end.session.monitor.Some? && end.session.monitor.value.cut.None? &&
             end.session.monitor.value.agent == agent
    ensures Up(Run(u, w, es), agent, jkt)
    ensures StaysFresh(u, Run(u, w, es), agent, jkt) <==> !MayGoStale(Run(u, w, es), agent)
  {
    RunStands(u, w, es);
    StaysFreshIff(u, Run(u, w, es), agent, jkt);
  }
}
