/** Time in nanoseconds, as Go's time.Time compares it. */
module Clock {
  const SECOND := 1_000_000_000
  const MINUTE := 60 * SECOND

  /** time.Time.Unix: whole seconds, rounded down. */
  function Unix(t: int): int { t / SECOND }
}

/** The status-token policy and the keeper that applies it (internal/verify/token.go). */
module Keeper {
  import opened Errs
  import opened Clock

  /** The Unix second of Go's zero time, the value a map lookup gives for a missing agent. */
  const ZERO_TIME := -62_135_596_800

  datatype StatusToken = StatusToken(active: bool, iat: int)

  /** One fetch: a verified token, or no token and an error. */
  type Fetched = Option<StatusToken>

  datatype Denial = Revoked | Stale | NoToken

  datatype Decision = Allow(token: StatusToken, warning: bool) | Deny(kind: Denial)

  datatype KeeperState = KeeperState(held: map<string, StatusToken>, revoked: map<string, int>)

  const EMPTY := KeeperState(map[], map[])

  function Decide(maxAge: int, held: Option<StatusToken>, got: Fetched, now: int): Decision {
    match got
    case Some(t) => if t.active then Allow(t, false) else Deny(Revoked)
    case None =>
      if held.None? || !held.value.active then Deny(NoToken)
      else if now - held.value.iat * SECOND >= maxAge then Deny(Stale)
      else Allow(held.value, true)
  }

  function Held(k: KeeperState, agent: string): Option<StatusToken> {
    if agent in k.held then Some(k.held[agent]) else None
  }

  /** Whether an ACTIVE token was issued at or before a known non-ACTIVE one. */
  predicate Predates(k: KeeperState, agent: string, t: StatusToken) {
    t.active && agent in k.revoked && t.iat <= k.revoked[agent]
  }

  function Record(k: KeeperState, agent: string, t: StatusToken): KeeperState {
    if !t.active then
      var known := if agent in k.revoked then k.revoked[agent] else ZERO_TIME;
      KeeperState(k.held - {agent}, if t.iat > known then k.revoked[agent := t.iat] else k.revoked)
    else if Predates(k, agent, t) then k
    else if agent !in k.held || t.iat > k.held[agent].iat then k.(held := k.held[agent := t])
    else k
  }

  function Check(maxAge: int, k: KeeperState, agent: string, got: Fetched, now: int): (KeeperState, Decision) {
    if got.Some? && Predates(k, agent, got.value) then (k, Deny(Revoked))
    else
      var next := if got.Some? then Record(k, agent, got.value) else k;
      (next, Decide(maxAge, Held(next, agent), got, now))
  }

  class Keeper {
    const maxAge: int
    var held: map<string, StatusToken>
    var revoked: map<string, int>

    function State(): KeeperState
      reads this
    {
      KeeperState(held, revoked)
    }

    constructor (maxAge: int)
      ensures this.maxAge == maxAge && State() == EMPTY
    {
      this.maxAge, held, revoked := maxAge, map[], map[];
    }

    method RecordToken(agent: string, t: StatusToken)
      modifies this
      ensures State() == Record(old(State()), agent, t)
    {
      if !t.active {
        if t.iat > (if agent in revoked then revoked[agent] else ZERO_TIME) {
          revoked := revoked[agent := t.iat];
        }
        held := held - {agent};
        return;
      }
      if agent in revoked && t.iat <= revoked[agent] {
        return;
      }
      if agent !in held || t.iat > held[agent].iat {
        held := held[agent := t];
      }
    }

    /** Decides on a fetch that just finished. */
    method CheckToken(agent: string, got: Fetched, now: int) returns (d: Decision)
      modifies this
      ensures (State(), d) == Check(maxAge, old(State()), agent, got, now)
    {
      if got.Some? {
        if agent in revoked && got.value.active && got.value.iat <= revoked[agent] {
          return Deny(Revoked);
        }
        RecordToken(agent, got.value);
      }
      d := Decide(maxAge, Held(State(), agent), got, now);
    }
  }

  // ------------------------------------------------------------------ runs

  /** One finished check: fetches may finish in any order, for any agent. */
  datatype Checked = Checked(agent: string, got: Fetched, now: int)

  function After(maxAge: int, h: seq<Checked>): KeeperState
    decreases |h|
  {
    if h == [] then EMPTY
    else
      var e := h[|h| - 1];
      Check(maxAge, After(maxAge, h[..|h| - 1]), e.agent, e.got, e.now).0
  }

  predicate Saw(h: seq<Checked>, agent: string, t: StatusToken) {
    exists i :: 0 <= i < |h| && h[i].agent == agent && h[i].got == Some(t)
  }

  ghost predicate KeepsNewest(h: seq<Checked>, agent: string, k: KeeperState) {
    && (agent in k.revoked ==>
          k.revoked[agent] > ZERO_TIME && Saw(h, agent, StatusToken(false, k.revoked[agent])) &&
          forall t :: Saw(h, agent, t) && !t.active ==> t.iat <= k.revoked[agent])
    && (agent !in k.revoked ==> forall t :: Saw(h, agent, t) && !t.active ==> t.iat <= ZERO_TIME)
    && (agent in k.held ==>
          k.held[agent].active && Saw(h, agent, k.held[agent]) &&
          (agent in k.revoked ==> k.held[agent].iat > k.revoked[agent]))
  }

  lemma SawSnoc(h: seq<Checked>, e: Checked, agent: string, t: StatusToken)
    ensures Saw(h + [e], agent, t) <==> Saw(h, agent, t) || (e.agent == agent && e.got == Some(t))
  {
    if Saw(h, agent, t) {
      var i :| 0 <= i < |h| && h[i].agent == agent && h[i].got == Some(t);
      assert (h + [e])[i] == h[i];
    }
    assert (h + [e])[|h|] == e;
  }

  lemma {:induction false} AlwaysKeepsNewest(maxAge: int, h: seq<Checked>, agent: string)
    ensures KeepsNewest(h, agent, After(maxAge, h))
    decreases |h|
  {
    if h != [] {
      var front, e := h[..|h| - 1], h[|h| - 1];
      assert h == front + [e];
      AlwaysKeepsNewest(maxAge, front, agent);
      forall t ensures Saw(h, agent, t) <==> Saw(front, agent, t) || (e.agent == agent && e.got == Some(t)) {
        SawSnoc(front, e, agent, t);
      }
    }
  }

  /** Only ACTIVE tokens are held. */
  ghost predicate HeldActive(k: KeeperState) { forall a :: a in k.held ==> k.held[a].active }

  lemma CheckHeldActive(maxAge: int, k: KeeperState, agent: string, got: Fetched, now: int)
    requires HeldActive(k)
    ensures HeldActive(Check(maxAge, k, agent, got, now).0)
  {
  }

  /** What an Allow must rest on: an ACTIVE token fetched for that agent, issued strictly after every non-ACTIVE
      token seen before, and younger than maxAge when this fetch failed. */
  ghost predicate RestsOnLiveToken(maxAge: int, h: seq<Checked>, e: Checked) {
    var d := Check(maxAge, After(maxAge, h), e.agent, e.got, e.now).1;
    d.Allow? ==>
      && d.token.active
      && (e.got == Some(d.token) || Saw(h, e.agent, d.token))
      && (forall t :: Saw(h, e.agent, t) && !t.active ==> t.iat < d.token.iat)
      && (e.got.None? ==> d.warning && e.now - d.token.iat * SECOND < maxAge)
  }

  /** After any history, every later Allow for an agent rests on a live token if and only if no non-ACTIVE token
      was seen for it, or one was issued after Go's zero time. */
  lemma AllowIffRevocationDated(maxAge: int, h: seq<Checked>, agent: string)
    ensures (forall e: Checked :: e.agent == agent ==> RestsOnLiveToken(maxAge, h, e)) <==>
            ((exists t :: Saw(h, agent, t) && !t.active) ==>
              exists t :: Saw(h, agent, t) && !t.active && t.iat > ZERO_TIME)
  {
    var k := After(maxAge, h);
    AlwaysKeepsNewest(maxAge, h, agent);
    if t :| Saw(h, agent, t) && !t.active && forall u :: Saw(h, agent, u) && !u.active ==> u.iat <= ZERO_TIME {
      assert agent !in k.revoked;
      var e := Checked(agent, Some(StatusToken(true, t.iat)), 0);
      assert !RestsOnLiveToken(maxAge, h, e);
    } else {
      forall e: Checked | e.agent == agent ensures RestsOnLiveToken(maxAge, h, e) {
      }
    }
  }

  /** The one failing family is real: an undated revocation does not stop an ACTIVE token of the same date. */
  lemma UndatedRevocationForgotten(maxAge: int, agent: string)
    ensures var h := [Checked(agent, Some(StatusToken(false, ZERO_TIME)), 0)];
            !RestsOnLiveToken(maxAge, h, Checked(agent, Some(StatusToken(true, ZERO_TIME)), 0))
  {
    var h := [Checked(agent, Some(StatusToken(false, ZERO_TIME)), 0)];
    assert h[..0] == [];
    assert After(maxAge, h[..0]) == EMPTY;
    assert h[0].agent == agent && Saw(h, agent, StatusToken(false, ZERO_TIME));
  }

  // ------------------------------------------------ every answer, from the history

  /** A non-ACTIVE token for the agent. */
  predicate Revokes(e: Checked, agent: string) { e.agent == agent && e.got.Some? && !e.got.value.active }

  /** A dated revocation of the agent was seen that an ACTIVE token issued then does not outlive. */
  predicate Outlived(h: seq<Checked>, agent: string, iat: int) {
    exists i :: 0 <= i < |h| && Revokes(h[i], agent) && h[i].got.value.iat > ZERO_TIME && iat <= h[i].got.value.iat
  }

  /** The i-th check fetched an ACTIVE token that no revocation before it outlived and no check after it revoked. */
  predicate Live(h: seq<Checked>, agent: string, i: int) {
    && 0 <= i < |h| && h[i].agent == agent && h[i].got.Some? && h[i].got.value.active
    && !Outlived(h[..i], agent, h[i].got.value.iat)
    && forall j :: i < j < |h| ==> !Revokes(h[j], agent)
  }

  /** The newest live token of the history. */
  ghost predicate NewestLive(h: seq<Checked>, agent: string, t: StatusToken) {
    && (exists i :: Live(h, agent, i) && h[i].got == Some(t))
    && (forall i :: Live(h, agent, i) ==> h[i].got.value.iat <= t.iat)
  }

  lemma OutlivedIff(maxAge: int, h: seq<Checked>, agent: string, iat: int)
    ensures var k := After(maxAge, h); Outlived(h, agent, iat) <==> agent in k.revoked && iat <= k.revoked[agent]
  {
    var k := After(maxAge, h);
    AlwaysKeepsNewest(maxAge, h, agent);
    if agent in k.revoked && iat <= k.revoked[agent] {
      var i :| 0 <= i < |h| && h[i].agent == agent && h[i].got == Some(StatusToken(false, k.revoked[agent]));
      assert Revokes(h[i], agent);
    }
    if i :| 0 <= i < |h| && Revokes(h[i], agent) && h[i].got.value.iat > ZERO_TIME && iat <= h[i].got.value.iat {
      assert Saw(h, agent, h[i].got.value);
    }
  }

  lemma LiveSnoc(h: seq<Checked>, e: Checked, agent: string, i: int)
    ensures Live(h + [e], agent, i) <==>
              || (Live(h, agent, i) && !Revokes(e, agent))
              || (i == |h| && e.agent == agent && e.got.Some? && e.got.value.active && !Outlived(h, agent, e.got.value.iat))
  {
    var g := h + [e];
    if 0 <= i < |h| {
      assert g[..i] == h[..i] && g[i] == h[i] && g[|h|] == e;
      assert forall j :: i < j < |h| ==> g[j] == h[j];
    } else if i == |h| {
      assert g[..i] == h;
    }
  }

  /** The keeper holds a token exactly when one is live, and then the newest. */
  ghost predicate HoldsRight(h: seq<Checked>, agent: string, k: KeeperState) {
    && (agent !in k.held ==> forall i :: !Live(h, agent, i))
    && (agent in k.held ==> NewestLive(h, agent, k.held[agent]))
  }

  lemma {:induction false} HoldsNewest(maxAge: int, h: seq<Checked>, agent: string)
    ensures HoldsRight(h, agent, After(maxAge, h))
    decreases |h|
  {
    if h != [] {
      var front, e := h[..|h| - 1], h[|h| - 1];
      assert h == front + [e];
      HoldsNewest(maxAge, front, agent);
      if e.agent != agent || e.got.None? {
        SameLive(front, e, agent, After(maxAge, front), After(maxAge, h));
      } else {
        HoldsStep(maxAge, front, e);
      }
    }
  }

  /** A check that neither revokes nor brings a live token leaves the live ones as they were. */
  lemma SameLive(front: seq<Checked>, e: Checked, agent: string, k0: KeeperState, k: KeeperState)
    requires HoldsRight(front, agent, k0) && !Revokes(e, agent)
    requires e.agent == agent && e.got.Some? ==> Outlived(front, agent, e.got.value.iat)
    requires agent in k.held <==> agent in k0.held
    requires agent in k.held ==> k.held[agent] == k0.held[agent]
    ensures HoldsRight(front + [e], agent, k)
  {
    var h := front + [e];
    forall i ensures Live(h, agent, i) <==> Live(front, agent, i) {
      LiveSnoc(front, e, agent, i);
    }
    if agent in k.held {
      var i :| Live(front, agent, i) && front[i].got == Some(k.held[agent]);
      assert Live(h, agent, i) && h[i].got == Some(k.held[agent]);
    }
  }

  lemma HoldsStep(maxAge: int, front: seq<Checked>, e: Checked)
    requires HoldsRight(front, e.agent, After(maxAge, front)) && e.got.Some?
    ensures HoldsRight(front + [e], e.agent, Check(maxAge, After(maxAge, front), e.agent, e.got, e.now).0)
  {
    var k0 := After(maxAge, front);
    var k := Check(maxAge, k0, e.agent, e.got, e.now).0;
    OutlivedIff(maxAge, front, e.agent, e.got.value.iat);
    if Revokes(e, e.agent) {
      forall i ensures !Live(front + [e], e.agent, i) {
        LiveSnoc(front, e, e.agent, i);
      }
    } else if Outlived(front, e.agent, e.got.value.iat) {
      SameLive(front, e, e.agent, k0, k);
    } else {
      NewLive(front, e, k0, k.held[e.agent]);
    }
  }

  lemma NewLive(front: seq<Checked>, e: Checked, k0: KeeperState, t: StatusToken)
    requires HoldsRight(front, e.agent, k0) && e.got.Some? && e.got.value.active && !Outlived(front, e.agent, e.got.value.iat)
    requires t == if e.agent in k0.held && k0.held[e.agent].iat >= e.got.value.iat then k0.held[e.agent] else e.got.value
    ensures NewestLive(front + [e], e.agent, t)
  {
    var h := front + [e];
    forall i ensures Live(h, e.agent, i) <==> Live(front, e.agent, i) || i == |front| {
      LiveSnoc(front, e, e.agent, i);
    }
    assert h[|front|] == e;
    if t == e.got.value {
      assert Live(h, e.agent, |front|) && h[|front|].got == Some(t);
    } else {
      var i :| Live(front, e.agent, i) && front[i].got == Some(t);
      assert Live(h, e.agent, i) && h[i].got == Some(t);
    }
    forall i | Live(h, e.agent, i) ensures h[i].got.value.iat <= t.iat {
      if i < |front| {
        assert Live(front, e.agent, i) && h[i] == front[i];
      }
    }
  }

  /** The keeper's whole answer, from what was fetched before. A fetched token is denied as revoked when it is not ACTIVE
      or a dated revocation outlived it, and allowed otherwise. A failed fetch is denied for want of a token when none is
      live; as stale when the newest live one has reached the maximum age; and otherwise that one is allowed with a
      warning. */
  lemma AnswersFromHistory(maxAge: int, h: seq<Checked>, e: Checked)
    ensures match Check(maxAge, After(maxAge, h), e.agent, e.got, e.now).1
            case Deny(Revoked) => e.got.Some? && (!e.got.value.active || Outlived(h, e.agent, e.got.value.iat))
            case Deny(NoToken) => e.got.None? && forall i :: !Live(h, e.agent, i)
            case Deny(Stale) =>
              e.got.None? && exists t :: NewestLive(h, e.agent, t) && e.now - t.iat * 1_000_000_000 >= maxAge
            case Allow(t, warning) =>
              if warning then e.got.None? && NewestLive(h, e.agent, t) && e.now - t.iat * 1_000_000_000 < maxAge
              else e.got == Some(t) && t.active && !Outlived(h, e.agent, t.iat)
  {
    var k := After(maxAge, h);
    AlwaysKeepsNewest(maxAge, h, e.agent);
    HoldsNewest(maxAge, h, e.agent);
    if e.got.Some? {
      OutlivedIff(maxAge, h, e.agent, e.got.value.iat);
    } else if e.agent in k.held {
      assert NewestLive(h, e.agent, k.held[e.agent]);
    }
  }
}
