/** The session monitor: a peer's status token under the keeper's policy, with a sticky cut
    (internal/session/monitor.go). */
module Monitor {
  import opened Errs
  import opened Clock
  import K = Keeper

  const TOKEN_EVERY := 30 * SECOND

  datatype MonitorState = MonitorState(agent: string, cut: Option<Code>, last: int, good: bool)

  function NewMonitor(agent: string): MonitorState { MonitorState(agent, None, 0, false) }

  /** What one tick leaves: the code returned, and whether OnCut ran. */
  datatype Ticked = Ticked(mon: MonitorState, keeper: K.KeeperState, code: Option<Code>, fired: bool)

  function CutWith(m: MonitorState, code: Code): MonitorState {
    if m.cut.Some? then m else m.(cut := Some(code))
  }

  function Tick(maxAge: int, m: MonitorState, k: K.KeeperState, got: K.Fetched, now: int): Ticked {
    if m.cut.Some? then Ticked(m, k, m.cut, false)
    else
      var (next, d) := K.Check(maxAge, k, m.agent, got, now);
      var m1 := m.(last := now, good := m.good || d.Allow?);
      match d
      case Allow(_, _) => Ticked(m1, next, None, false)
      case Deny(NoToken) => Ticked(m1, next, Some(SessionRejectedToken), false)
      case Deny(kind) =>
        var code := if kind.Revoked? then SessionCutRevoked else SessionCutStale;
        Ticked(CutWith(m1, code), next, Some(code), true)
  }

  predicate Due(m: MonitorState, now: int, every: int) { !m.good || now - m.last >= every }

  function TickIfDue(maxAge: int, m: MonitorState, k: K.KeeperState, got: K.Fetched, now: int, every: int): Ticked {
    if Due(m, now, every) then Tick(maxAge, m, k, got, now) else Ticked(m, k, m.cut, false)
  }

  class Monitor {
    const agent: string
    var cut: Option<Code>
    var last: int
    var good: bool
    /** How often the OnCut handler ran. */
    var onCutRuns: nat

    function State(): MonitorState
      reads this
    {
      MonitorState(agent, cut, last, good)
    }

    constructor (agent: string)
      ensures State() == NewMonitor(agent) && onCutRuns == 0
    {
      this.agent, cut, last, good, onCutRuns := agent, None, 0, false, 0;
    }

    method Cut(code: Code)
      modifies this
      ensures State() == CutWith(old(State()), code)
      ensures onCutRuns == old(onCutRuns) + if old(cut).None? then 1 else 0
    {
      if cut.Some? {
        return;
      }
      cut := Some(code);
      onCutRuns := onCutRuns + 1;
    }

    method TickNow(keeper: K.Keeper, got: K.Fetched, now: int) returns (code: Option<Code>)
      modifies this, keeper
      ensures var t := Tick(keeper.maxAge, old(State()), old(keeper.State()), got, now);
              State() == t.mon && keeper.State() == t.keeper && code == t.code &&
              onCutRuns == old(onCutRuns) + if t.fired then 1 else 0
    {
      if cut.Some? {
        return cut;
      }
      var d := keeper.CheckToken(agent, got, now);
      last := now;
      if d.Allow? {
        good := true;
        return None;
      }
      if d.kind.NoToken? {
        return Some(SessionRejectedToken);
      }
      code := Some(if d.kind.Revoked? then SessionCutRevoked else SessionCutStale);
      Cut(code.value);
    }

    method TickWhenDue(keeper: K.Keeper, got: K.Fetched, now: int, every: int) returns (code: Option<Code>)
      modifies this, keeper
      ensures var t := TickIfDue(keeper.maxAge, old(State()), old(keeper.State()), got, now, every);
              State() == t.mon && keeper.State() == t.keeper && code == t.code &&
              onCutRuns == old(onCutRuns) + if t.fired then 1 else 0
    {
      if !good || now - last >= every {
        code := TickNow(keeper, got, now);
      } else {
        code := cut;
      }
    }
  }

  // ------------------------------------------------------------------ runs

  /** A monitor and the keeper it uses, with how often OnCut ran and when a check last allowed the peer. */
  datatype Watch = Watch(mon: MonitorState, keeper: K.KeeperState, fires: nat, allowed: Option<int>)

  /** A tick of the loop, a check before a command, a cut for another reason, or another session's check. */
  datatype Event =
    | Loop(got: K.Fetched, now: int)
    | BeforeCommand(got: K.Fetched, now: int)
    | CutNow(code: Code)
    | OtherCheck(agent: string, got: K.Fetched, now: int)

  predicate Allows(maxAge: int, m: MonitorState, k: K.KeeperState, got: K.Fetched, now: int) {
    m.cut.None? && K.Check(maxAge, k, m.agent, got, now).1.Allow?
  }

  function Apply(w: Watch, t: Ticked, allows: bool, now: int): Watch {
    Watch(t.mon, t.keeper, w.fires + (if t.fired then 1 else 0), if allows then Some(now) else w.allowed)
  }

  function Step(maxAge: int, w: Watch, e: Event): Watch {
    match e
    case Loop(got, now) =>
      Apply(w, Tick(maxAge, w.mon, w.keeper, got, now), Allows(maxAge, w.mon, w.keeper, got, now), now)
    case BeforeCommand(got, now) =>
      Apply(w, TickIfDue(maxAge, w.mon, w.keeper, got, now, TOKEN_EVERY),
            Due(w.mon, now, TOKEN_EVERY) && Allows(maxAge, w.mon, w.keeper, got, now), now)
    case CutNow(code) =>
      Watch(CutWith(w.mon, code), w.keeper, w.fires + (if w.mon.cut.None? then 1 else 0), w.allowed)
    case OtherCheck(agent, got, now) => w.(keeper := K.Check(maxAge, w.keeper, agent, got, now).0)
  }

  function Run(maxAge: int, w: Watch, es: seq<Event>): Watch
    decreases |es|
  {
    if es == [] then w else Run(maxAge, Step(maxAge, w, es[0]), es[1..])
  }

  /** Whatever happens, OnCut has run once if the session is cut and never otherwise, and a cut keeps its code:
      no later tick or command check returns anything else. */
  lemma {:induction false} CutOnceForAll(maxAge: int, w: Watch, es: seq<Event>)
    requires w.fires == if w.mon.cut.Some? then 1 else 0
    ensures var r := Run(maxAge, w, es);
            r.fires == (if r.mon.cut.Some? then 1 else 0) && (w.mon.cut.Some? ==> r.mon.cut == w.mon.cut) &&
            r.mon.agent == w.mon.agent
    ensures var r := Run(maxAge, w, es);
            w.mon.cut.Some? ==> forall got, now :: TickIfDue(maxAge, r.mon, r.keeper, got, now, TOKEN_EVERY).code == w.mon.cut
    decreases |es|
  {
    if es != [] {
      CutOnceForAll(maxAge, Step(maxAge, w, es[0]), es[1..]);
    }
  }

  /** A keeper no other session uses for this agent. */
  predicate Sole(agent: string, es: seq<Event>) {
    forall i :: 0 <= i < |es| && es[i].OtherCheck? ==> es[i].agent != agent
  }

  ghost predicate HoldsToken(k: K.KeeperState, agent: string) { agent in k.held && k.held[agent].active }

  /** A monitor that is installed and not cut: its last check allowed, and the keeper holds an ACTIVE token. */
  ghost predicate Live(w: Watch) {
    w.mon.cut.None? ==> w.mon.good && w.allowed == Some(w.mon.last) && HoldsToken(w.keeper, w.mon.agent)
  }

  lemma {:induction false} StaysLive(maxAge: int, w: Watch, es: seq<Event>)
    requires Live(w) && Sole(w.mon.agent, es)
    ensures Live(Run(maxAge, w, es))
    decreases |es|
  {
    if es != [] {
      assert es[0].OtherCheck? ==> es[0].agent != w.mon.agent;
      assert Sole(w.mon.agent, es[1..]) by {
        forall i | 0 <= i < |es[1..]| && es[1..][i].OtherCheck? ensures es[1..][i].agent != w.mon.agent {
          assert es[1..][i] == es[i + 1];
        }
      }
      StaysLive(maxAge, Step(maxAge, w, es[0]), es[1..]);
    }
  }

  /** From installation on, with the keeper to itself, a monitor lets a command through only on a check that
      allowed the peer less than 30 s ago. */
  lemma FreshAtEveryCommand(maxAge: int, agent: string, k: K.KeeperState, got: K.Fetched, now: int,
                            es: seq<Event>, got': K.Fetched, now': int)
    requires K.HeldActive(k)
    requires Tick(maxAge, NewMonitor(agent), k, got, now).code.None?
    requires Sole(agent, es)
    ensures var t := Tick(maxAge, NewMonitor(agent), k, got, now);
            var w := Run(maxAge, Watch(t.mon, t.keeper, 0, Some(now)), es);
            var after := Step(maxAge, w, BeforeCommand(got', now'));
            TickIfDue(maxAge, w.mon, w.keeper, got', now', TOKEN_EVERY).code.None? ==>
              after.allowed.Some? && now' - after.allowed.value < TOKEN_EVERY && HoldsToken(after.keeper, agent)
  {
    var t := Tick(maxAge, NewMonitor(agent), k, got, now);
    var w0 := Watch(t.mon, t.keeper, 0, Some(now));
    StaysLive(maxAge, w0, es);
    CutOnceForAll(maxAge, w0, es);
    var w := Run(maxAge, w0, es);
    assert Run(maxAge, w, [BeforeCommand(got', now')]) == Step(maxAge, w, BeforeCommand(got', now'));
    StaysLive(maxAge, w, [BeforeCommand(got', now')]);
  }

  /** Whether the check before a command lets it through. */
  predicate LetsThrough(maxAge: int, w: Watch, got: K.Fetched, now: int) {
    TickIfDue(maxAge, w.mon, w.keeper, got, now, TOKEN_EVERY).code.None?
  }

  /** The promise: a command let through now has an allowing check less than 30 s old. */
  predicate FreshIfThrough(maxAge: int, w: Watch, got: K.Fetched, now: int) {
    LetsThrough(maxAge, w, got, now) ==>
      var after := Step(maxAge, w, BeforeCommand(got, now));
      after.allowed.Some? && now - after.allowed.value < 30_000_000_000
  }

  /** Installed and not cut, on a keeper that holds only ACTIVE tokens. */
  ghost predicate Up(w: Watch) { w.mon.cut.None? && w.mon.good && K.HeldActive(w.keeper) }

  /** After one more tick at any later time, whatever it fetched, the 30 s promise holds for every command, if and only
      if the keeper still holds a token for the agent. */
  lemma FreshIffHeld(maxAge: int, w: Watch)
    requires Up(w)
    ensures (forall got, now, got', now' :: w.mon.last <= now <= now' ==>
               FreshIfThrough(maxAge, Step(maxAge, w, Loop(got, now)), got', now')) <==>
            w.mon.agent in w.keeper.held
  {
    if w.mon.agent in w.keeper.held {
      forall got, now, got', now' | w.mon.last <= now <= now'
        ensures FreshIfThrough(maxAge, Step(maxAge, w, Loop(got, now)), got', now')
      {
        TickSettles(maxAge, w, got, now);
        NearIsFresh(maxAge, Step(maxAge, w, Loop(got, now)), w.mon.agent, got', now');
      }
    } else {
      var late := if w.allowed.Some? && w.allowed.value > w.mon.last then w.allowed.value + TOKEN_EVERY
                  else w.mon.last + TOKEN_EVERY;
      assert !FreshIfThrough(maxAge, Step(maxAge, w, Loop(None, late)), None, late);
    }
  }

  /** While it is up, the agent was allowed no earlier than the last check, and its token is held. */
  ghost predicate Near(w: Watch, agent: string) {
    && w.mon.agent == agent && K.HeldActive(w.keeper)
    && (w.mon.cut.None? ==>
          w.mon.good && w.allowed.Some? && w.mon.last <= w.allowed.value && HoldsToken(w.keeper, agent))
  }

  lemma TickSettles(maxAge: int, w: Watch, got: K.Fetched, now: int)
    requires Up(w) && w.mon.agent in w.keeper.held
    ensures Near(Step(maxAge, w, Loop(got, now)), w.mon.agent)
  {
    K.CheckHeldActive(maxAge, w.keeper, w.mon.agent, got, now);
  }

  lemma NearIsFresh(maxAge: int, w: Watch, agent: string, got: K.Fetched, now: int)
    requires Near(w, agent)
    ensures FreshIfThrough(maxAge, w, got, now)
  {
  }

  lemma StepNear(maxAge: int, w: Watch, agent: string, e: Event)
    requires Near(w, agent) && (e.OtherCheck? ==> e.agent != agent)
    ensures Near(Step(maxAge, w, e), agent)
  {
    match e {
      case Loop(got, now) => K.CheckHeldActive(maxAge, w.keeper, agent, got, now);
      case BeforeCommand(got, now) => K.CheckHeldActive(maxAge, w.keeper, agent, got, now);
      case CutNow(_) =>
      case OtherCheck(other, got, now) => K.CheckHeldActive(maxAge, w.keeper, other, got, now);
    }
  }

  lemma {:induction false} StaysNear(maxAge: int, w: Watch, agent: string, es: seq<Event>)
    requires Near(w, agent) && Sole(agent, es)
    ensures Near(Run(maxAge, w, es), agent)
    decreases |es|
  {
    if es != [] {
      StepNear(maxAge, w, agent, es[0]);
      assert Sole(agent, es[1..]) by {
        assert forall i :: 0 <= i < |es[1..]| ==> es[1..][i] == es[i + 1];
      }
      StaysNear(maxAge, Step(maxAge, w, es[0]), agent, es[1..]);
    }
  }

  /** The promise for a command after a run with the keeper to itself. */
  predicate FreshAfter(maxAge: int, w: Watch, es: seq<Event>, got: K.Fetched, now: int) {
    Sole(w.mon.agent, es) ==> FreshIfThrough(maxAge, Run(maxAge, w, es), got, now)
  }

  /** Over whole runs, for every monitor that is up: with the keeper to itself from now on, the promise holds at every
      command of every run, if and only if the keeper holds a token for the agent now and the last check allowed it. */
  lemma FreshInEveryRunIff(maxAge: int, w: Watch)
    requires Up(w)
    ensures (forall es, got, now :: FreshAfter(maxAge, w, es, got, now)) <==>
            w.mon.agent in w.keeper.held && w.allowed.Some? && w.mon.last <= w.allowed.value
  {
    var agent := w.mon.agent;
    if agent in w.keeper.held && w.allowed.Some? && w.mon.last <= w.allowed.value {
      forall es, got, now ensures FreshAfter(maxAge, w, es, got, now) {
        if Sole(agent, es) {
          StaysNear(maxAge, w, agent, es);
          NearIsFresh(maxAge, Run(maxAge, w, es), agent, got, now);
        }
      }
    } else if agent in w.keeper.held {
      assert Sole(agent, []) && Run(maxAge, w, []) == w;
      assert !FreshIfThrough(maxAge, w, None, w.mon.last + TOKEN_EVERY - 1);
      assert !FreshAfter(maxAge, w, [], None, w.mon.last + TOKEN_EVERY - 1);
    } else {
      var late := if w.allowed.Some? then w.allowed.value + TOKEN_EVERY else 0;
      var es := [Loop(None, late)];
      assert es[1..] == [] && Run(maxAge, w, es) == Step(maxAge, w, es[0]);
      assert Sole(agent, es);
      assert !FreshIfThrough(maxAge, Step(maxAge, w, es[0]), None, late);
      assert !FreshAfter(maxAge, w, es, None, late);
    }
  }

  /** With a shared keeper the 30 s promise fails: another session sees the peer revoked, this session's next
      fetch fails, and the command after that goes through 50 s after the last allowing check. */
  lemma SharedKeeperGap(agent: string)
    ensures var maxAge := 10 * MINUTE;
            var t := Tick(maxAge, NewMonitor(agent), K.EMPTY, Some(K.StatusToken(true, 0)), 0);
            var es := [OtherCheck(agent, Some(K.StatusToken(false, 1)), 20 * SECOND),
                       BeforeCommand(None, 40 * SECOND)];
            var w := Run(maxAge, Watch(t.mon, t.keeper, 0, Some(0)), es);
            t.code.None? && w.allowed == Some(0) &&
            TickIfDue(maxAge, w.mon, w.keeper, None, 50 * SECOND, TOKEN_EVERY).code.None?
  {
    var maxAge := 10 * MINUTE;
    var t := Tick(maxAge, NewMonitor(agent), K.EMPTY, Some(K.StatusToken(true, 0)), 0);
    var e1, e2 := OtherCheck(agent, Some(K.StatusToken(false, 1)), 20 * SECOND), BeforeCommand(None, 40 * SECOND);
    var w0 := Watch(t.mon, t.keeper, 0, Some(0));
    assert [e1, e2][1..] == [e2] && [e2][1..] == [];
    assert Run(maxAge, w0, [e1, e2]) == Run(maxAge, Step(maxAge, w0, e1), [e2]);
    assert Run(maxAge, Step(maxAge, w0, e1), [e2]) == Step(maxAge, Step(maxAge, w0, e1), e2);
  }

  /** What a tick answers, for a monitor on a keeper with any history: a standing cut stays; a token that is not ACTIVE or
      was outlived by a revocation cuts as revoked; a failed fetch cuts as stale once the newest live token has reached
      the maximum age, and refuses without a cut when none is live; anything else passes. */
  lemma TickAnswers(maxAge: int, m: MonitorState, h: seq<K.Checked>, got: K.Fetched, now: int)
    ensures var t := Tick(maxAge, m, K.After(maxAge, h), got, now);
            if m.cut.Some? then t.code == m.cut && t.mon == m && !t.fired
            else
              && t.mon.last == now && t.mon.agent == m.agent
              && (t.fired <==> t.mon.cut.Some?) && (t.fired ==> t.code == t.mon.cut) && (t.mon.good <==> m.good || t.code.None?)
              && (t.mon.cut == Some(SessionCutRevoked) <==>
                    got.Some? && (!got.value.active || K.Outlived(h, m.agent, got.value.iat)))
              && (t.mon.cut == Some(SessionCutStale) <==>
                    got.None? && exists x :: K.NewestLive(h, m.agent, x) && now - x.iat * 1_000_000_000 >= maxAge)
              && (t.mon.cut.None? ==> t.code.None? || t.code == Some(SessionRejectedToken))
              && (t.code == Some(SessionRejectedToken) <==> got.None? && forall i :: !K.Live(h, m.agent, i))
  {
    if m.cut.None? {
      K.AnswersFromHistory(maxAge, h, K.Checked(m.agent, got, now));
      NewestUnique(h, m.agent);
    }
  }

  lemma NewestUnique(h: seq<K.Checked>, agent: string)
    ensures forall x, y :: K.NewestLive(h, agent, x) && K.NewestLive(h, agent, y) ==> x == y
    ensures forall x :: K.NewestLive(h, agent, x) ==> exists i :: K.Live(h, agent, i)
  {
    forall x | K.NewestLive(h, agent, x) ensures exists i :: K.Live(h, agent, i) {
      var i :| K.Live(h, agent, i) && h[i].got == Some(x);
    }
  }

  /** A check before a command runs when the last one is 30 s old or none has passed yet, and is skipped otherwise. */
  lemma DueMeans(maxAge: int, m: MonitorState, k: K.KeeperState, got: K.Fetched, now: int)
    ensures var t := TickIfDue(maxAge, m, k, got, now, TOKEN_EVERY);
            if m.good && now < m.last + 30_000_000_000 then t == Ticked(m, k, m.cut, false)
            else t == Tick(maxAge, m, k, got, now)
  {
  }
}
