/** The station's side of a pass session (internal/session/station.go). */
module Session {
  import opened Errs
  import opened Clock
  import opened Schema
  import opened Rules
  import Chain
  import Evidence
  import K = Keeper
  import M = Monitor
  import S = Store

  const SLACK := 30 * SECOND

  /** The proven identity of a caller. */
  datatype Caller = Caller(ansName: string, agentID: string, jkt: string)

  datatype SessionState = SessionState(booking: S.Booking, mandate: Mandate, chain: Chain.ChainState,
                                       acks: map<int, Ack>, missing: seq<int>, monitor: Option<M.MonitorState>,
                                       closed: bool)

  function Open(b: S.Booking, m: Mandate): SessionState {
    SessionState(b, m, Chain.EMPTY, map[], [], None, false)
  }

  /** What the spacecraft link gave back for one uplink. */
  datatype UplinkReply = Replied(ack: Ack) | NoReply

  /** What one relay_command call meets: its caller, the clock, the token fetch and the uplink. */
  datatype Call = Call(caller: Option<Caller>, now: int, got: K.Fetched, uplink: UplinkReply)

  function Begins(m: Mandate): int { m.nbf * SECOND - SLACK }

  function Ends(m: Mandate): int { m.exp * SECOND + SLACK }

  function EntryOf(h: Chain.Hasher, cmd: Command, tok: CommandToken): Chain.Entry {
    Chain.Entry(cmd.counter, cmd.mandateID, cmd.class_, h.token(tok.raw))
  }

  // ------------------------------------------------------------- the checks

  datatype Watched = Watched(monitor: Option<M.MonitorState>, keeper: K.KeeperState, refused: Option<Code>)

  /** The first command opens the token check and installs the monitor only if it is allowed; later commands
      re-check at most every 30 s. */
  function Watch(maxAge: int, mon: Option<M.MonitorState>, k: K.KeeperState, agent: string, got: K.Fetched, now: int): Watched {
    match mon
    case None =>
      var t := M.Tick(maxAge, M.NewMonitor(agent), k, got, now);
      Watched(if t.code.None? then Some(t.mon) else None, t.keeper, t.code)
    case Some(m) =>
      var t := M.TickIfDue(maxAge, m, k, got, now, M.TOKEN_EVERY);
      Watched(Some(t.mon), t.keeper, t.code)
  }

  function CheckCommand(s: SessionState, tok: CommandToken): (r: Result<Command>)
    ensures r.Ok? ==> PeekCommand(tok) == r
    ensures r.Ok? <==>
              && PeekCommand(tok).Ok? && PeekCommand(tok).value.class_ in s.mandate.classes
              && PeekCommand(tok).value.mandateID == s.booking.mandateID
              && (s.chain.records == [] || s.chain.records[|s.chain.records| - 1].counter < PeekCommand(tok).value.counter)
    ensures r.Err? ==> r.code in {CommandParseError, TypRejected, ClassRejected, CommandRejectedMandID, CommandRejectedCounter}
  {
    match PeekCommand(tok)
    case Err(code) => Err(code)
    case Ok(cmd) =>
      if cmd.class_ !in s.mandate.classes then Err(ClassRejected)
      else if cmd.mandateID != s.booking.mandateID then Err(CommandRejectedMandID)
      else if s.chain.records != [] && cmd.counter <= s.chain.records[|s.chain.records| - 1].counter
        then Err(CommandRejectedCounter)
      else Ok(cmd)
  }

  /** After the uplink: the record is chained, then the reply is judged. */
  function RecordReply(h: Chain.Hasher, s: SessionState, cmd: Command, tok: CommandToken,
                       reply: UplinkReply): (SessionState, Result<Ack>)
  {
    match Chain.Append(h, s.chain, EntryOf(h, cmd, tok))
    case Err(code) => (s, Err(code))
    case Ok(chain) =>
      if reply.NoReply? || !reply.ack.Valid() || reply.ack.counter != cmd.counter then
        (s.(chain := chain, missing := s.missing + [cmd.counter]), Err(AckMissing))
      else
        (s.(chain := chain, acks := s.acks[cmd.counter := reply.ack]), Ok(reply.ack))
  }

  /** The result of one relay; `uplinked` is the command if it was sent to the spacecraft. */
  datatype Relayed = Relayed(session: SessionState, keeper: K.KeeperState, answer: Result<Ack>, uplinked: Option<Command>)

  function RelayChecked(h: Chain.Hasher, s: SessionState, k: K.KeeperState, tok: CommandToken, reply: UplinkReply): Relayed {
    match CheckCommand(s, tok)
    case Err(code) => Relayed(s, k, Err(code), None)
    case Ok(cmd) =>
      var (next, answer) := RecordReply(h, s, cmd, tok, reply);
      Relayed(next, k, answer, Some(cmd))
  }

  function Relay(h: Chain.Hasher, maxAge: int, s: SessionState, k: K.KeeperState, caller: Caller, tok: CommandToken,
                 call: Call): Relayed
  {
    if s.closed || call.now > Ends(s.mandate) then Relayed(s.(closed := true), k, Err(WindowClosed), None)
    else if call.now < Begins(s.mandate) then Relayed(s, k, Err(WindowClosed), None)
    else if caller.jkt != s.mandate.jkt then Relayed(s, k, Err(DPoPRejectedKey), None)
    else
      var w := Watch(maxAge, s.monitor, k, caller.agentID, call.got, call.now);
      var s1 := s.(monitor := w.monitor);
      if w.refused.Some? then Relayed(s1, w.keeper, Err(w.refused.value), None)
      else RelayChecked(h, s1, w.keeper, tok, call.uplink)
  }

  predicate MayRead(s: SessionState, auditors: seq<string>, ansName: string) {
    ansName == s.mandate.sub || ansName in auditors
  }

  function EvidenceOf(s: SessionState): Evidence.Evidence {
    Evidence.Evidence(s.chain.head, s.chain.records, Evidence.AcksOf(s.chain.records, s.acks), s.missing,
                      if s.monitor.Some? then s.monitor.value.cut else None)
  }

  // -------------------------------------------------------- every session

  datatype ManagerState = ManagerState(keeper: K.KeeperState, sessions: map<string, SessionState>)

  function OpenStored(st: S.StoreState, id: string): Result<SessionState> {
    if id !in st.bookings then Err(SessionRejectedBooked)
    else match PeekMandate(st.bookings[id].mandate)
      case Err(code) => Err(code)
      case Ok(md) => Ok(Open(st.bookings[id], md))
  }

  /** The booking's session, opened from the stored booking the first time. */
  function FindSession(m: ManagerState, st: S.StoreState, id: string): Result<SessionState> {
    if id in m.sessions then Ok(m.sessions[id]) else OpenStored(st, id)
  }

  datatype Managed = Managed(manager: ManagerState, answer: Result<Ack>, uplinked: Option<Command>)

  function RelayCommand(h: Chain.Hasher, maxAge: int, m: ManagerState, st: S.StoreState, id: string, tok: CommandToken,
                        call: Call): Managed
  {
    if call.caller.None? then Managed(m, Err(DPoPRejectedKey), None)
    else match FindSession(m, st, id)
      case Err(code) => Managed(m, Err(code), None)
      case Ok(s) =>
        var r := Relay(h, maxAge, s, m.keeper, call.caller.value, tok, call);
        Managed(ManagerState(r.keeper, m.sessions[id := r.session]), r.answer, r.uplinked)
  }

  // ------------------------------------------------------------ the objects

  class StationSession {
    const booking: S.Booking
    const mandate: Mandate
    const chain: Chain.Chain
    var acks: map<int, Ack>
    var missing: seq<int>
    var monitor: M.Monitor?
    var closed: bool

    function State(): SessionState
      reads this, chain, monitor
    {
      SessionState(booking, mandate, chain.State(), acks, missing,
                   if monitor == null then None else Some(monitor.State()), closed)
    }

    constructor (booking: S.Booking, mandate: Mandate)
      ensures State() == Open(booking, mandate) && fresh(chain) && monitor == null
    {
      this.booking, this.mandate := booking, mandate;
      chain := new Chain.Chain();
      acks, missing, monitor, closed := map[], [], null, false;
    }

    method WatchCaller(keeper: K.Keeper, agent: string, got: K.Fetched, now: int) returns (refused: Option<Code>)
      modifies this`monitor, monitor, keeper
      ensures var w := Watch(keeper.maxAge, old(State()).monitor, old(keeper.State()), agent, got, now);
              State() == old(State()).(monitor := w.monitor) && keeper.State() == w.keeper && refused == w.refused
      ensures monitor == old(monitor) || fresh(monitor)
    {
      if monitor == null {
        var mon := new M.Monitor(agent);
        refused := mon.TickNow(keeper, got, now);
        if refused.None? {
          monitor := mon;
        }
      } else {
        refused := monitor.TickWhenDue(keeper, got, now, M.TOKEN_EVERY);
      }
    }

    method Record(h: Chain.Hasher, cmd: Command, tok: CommandToken, reply: UplinkReply) returns (answer: Result<Ack>)
      modifies this, chain
      ensures (State(), answer) == RecordReply(h, old(State()), cmd, tok, reply)
      ensures monitor == old(monitor)
    {
      var appended := chain.AppendRecord(h, EntryOf(h, cmd, tok));
      if appended.Err? {
        return Err(appended.code);
      }
      if reply.NoReply? || !reply.ack.Valid() || reply.ack.counter != cmd.counter {
        missing := missing + [cmd.counter];
        return Err(AckMissing);
      }
      acks := acks[cmd.counter := reply.ack];
      answer := Ok(reply.ack);
    }

    method RelayOne(h: Chain.Hasher, keeper: K.Keeper, caller: Caller, tok: CommandToken, call: Call) returns (answer: Result<Ack>)
      modifies this, chain, monitor, keeper
      ensures var r := Relay(h, keeper.maxAge, old(State()), old(keeper.State()), caller, tok, call);
              State() == r.session && keeper.State() == r.keeper && answer == r.answer
      ensures monitor == old(monitor) || fresh(monitor)
    {
      if closed || call.now > Ends(mandate) {
        closed := true;
        return Err(WindowClosed);
      }
      if call.now < Begins(mandate) {
        return Err(WindowClosed);
      }
      if caller.jkt != mandate.jkt {
        return Err(DPoPRejectedKey);
      }
      var refused := WatchCaller(keeper, caller.agentID, call.got, call.now);
      if refused.Some? {
        return Err(refused.value);
      }
      var cmd := CheckCommand(State(), tok);
      if cmd.Err? {
        return Err(cmd.code);
      }
      answer := Record(h, cmd.value, tok, call.uplink);
    }

    /** The booking's Ops agent and the configured auditors may read the evidence; nobody else. */
    method Show(auditors: seq<string>, ansName: string) returns (r: Result<Evidence.Evidence>)
      ensures r == if MayRead(State(), auditors, ansName) then Ok(EvidenceOf(State())) else Err(SessionRejectedCaller)
    {
      if ansName != mandate.sub && ansName !in auditors {
        return Err(SessionRejectedCaller);
      }
      var held := Evidence.CollectAcks(chain.records, acks);
      r := Ok(Evidence.Evidence(chain.head, chain.records, held, missing, if monitor == null then None else monitor.cut));
    }
  }

  class Manager {
    const keeper: K.Keeper
    const store: S.Store
    var sessions: map<string, StationSession>

    /** No two sessions share an object. */
    ghost predicate Valid()
      reads this, sessions.Values
    {
      forall a, b :: a in sessions && b in sessions && a != b ==>
        sessions[a] != sessions[b] && sessions[a].chain != sessions[b].chain &&
        (sessions[a].monitor == null || sessions[a].monitor != sessions[b].monitor)
    }

    ghost function Parts(): set<object>
      reads this, sessions.Values
    {
      (set id | id in sessions :: sessions[id].chain) +
      (set id | id in sessions && sessions[id].monitor != null :: sessions[id].monitor)
    }

    constructor (keeper: K.Keeper, store: S.Store)
      ensures Valid() && this.keeper == keeper && this.store == store
      ensures sessions == map[]
    {
      this.keeper, this.store, sessions := keeper, store, map[];
    }

    /** Opens the session from the stored booking unless it is there already. */
    method Locate(id: string) returns (found: Result<StationSession>)
      requires Valid()
      modifies this`sessions
      ensures Valid() && (found.Err? ==> sessions == old(sessions))
      ensures found.Ok? ==>
                && sessions.Keys == old(sessions.Keys) + {id} && sessions[id] == found.value
                && (forall b :: b in sessions && b != id ==> sessions[b] == old(sessions)[b])
                && (if id in old(sessions) then found.value == old(sessions)[id]
                    else fresh(found.value) && fresh(found.value.chain) && found.value.monitor == null)
      ensures id in old(sessions) ==> found.Ok?
      ensures id !in old(sessions) ==>
                match OpenStored(store.State(), id)
                case Ok(s) => found.Ok? && found.value.State() == s
                case Err(code) => found == Err(code)
    {
      if id in sessions {
        return Ok(sessions[id]);
      }
      if id !in store.bookings {
        return Err(SessionRejectedBooked);
      }
      var md := PeekMandate(store.bookings[id].mandate);
      if md.Err? {
        return Err(md.code);
      }
      var s := new StationSession(store.bookings[id], md.value);
      sessions := sessions[id := s];
      found := Ok(s);
    }

    /** Relays on one open session; the others keep their state. */
    method RelayAt(h: Chain.Hasher, id: string, caller: Caller, tok: CommandToken, call: Call) returns (answer: Result<Ack>)
      requires Valid() && id in sessions
      modifies keeper, sessions[id], sessions[id].chain, sessions[id].monitor
      ensures Valid() && forall b :: b in sessions && b != id ==> sessions[b].State() == old(sessions[b].State())
      ensures var r := Relay(h, keeper.maxAge, old(sessions[id].State()), old(keeper.State()), caller, tok, call);
              sessions[id].State() == r.session && keeper.State() == r.keeper && answer == r.answer
    {
      answer := sessions[id].RelayOne(h, keeper, caller, tok, call);
      forall b | b in sessions && b != id ensures sessions[b].State() == old(sessions[b].State()) {
        assert unchanged(sessions[b], sessions[b].chain);
      }
    }

    /** The session's objects are its own, so opening another leaves its state alone. */
    twostate lemma OthersKept(id: string)
      requires forall b :: b in old(sessions) && b != id ==> b in sessions && sessions[b] == old(sessions)[b]
      requires forall b :: b in old(sessions) ==>
                 unchanged(old(sessions)[b], old(sessions)[b].chain) &&
                 (old(sessions[b].monitor) != null ==> unchanged(old(sessions[b].monitor)))
      ensures forall b :: b in old(sessions) ==> old(sessions)[b].State() == old(sessions[b].State())
    {
    }

    /** One relay_command call: refused before a session is found, or relayed on that session alone. */
    method Handle(h: Chain.Hasher, id: string, tok: CommandToken, call: Call) returns (answer: Result<Ack>)
      requires Valid()
      modifies this, keeper, sessions.Values, Parts()
      ensures Valid()
      ensures call.caller.None? ==>
                && answer == Err(DPoPRejectedKey) && sessions == old(sessions) && keeper.State() == old(keeper.State())
                && forall b :: b in sessions ==> sessions[b].State() == old(sessions[b].State())
      ensures call.caller.Some? ==>
                match if id in old(sessions) then Ok(old(sessions[id].State())) else OpenStored(store.State(), id)
                case Err(code) =>
                  && answer == Err(code) && sessions == old(sessions) && keeper.State() == old(keeper.State())
                  && forall b :: b in sessions ==> sessions[b].State() == old(sessions[b].State())
                case Ok(s) =>
                  var r := Relay(h, keeper.maxAge, s, old(keeper.State()), call.caller.value, tok, call);
                  && sessions.Keys == old(sessions.Keys) + {id} && sessions[id].State() == r.session
                  && keeper.State() == r.keeper && answer == r.answer
      ensures forall b :: b in old(sessions) && b != id ==> b in sessions && sessions[b].State() == old(sessions[b].State())
    {
      if call.caller.None? {
        return Err(DPoPRejectedKey);
      }
      var found := Locate(id);
      if found.Err? {
        return Err(found.code);
      }
      OthersKept(id);
      answer := RelayAt(h, id, call.caller.value, tok, call);
    }
  }

  // ------------------------------------------------------- what each answer means

  /** What a command token must meet, in the order it is checked. */
  function CommandRules(s: SessionState, tok: CommandToken): seq<Rule> {
    var n := |s.chain.records|;
    [Rule(!tok.Malformed?, CommandParseError), Rule(!tok.OtherType?, TypRejected),
     Rule(tok.Jws? && tok.payload.Wire(), CommandParseError),
     Rule(tok.Jws? && tok.payload.class_ in s.mandate.classes, ClassRejected),
     Rule(tok.Jws? && tok.payload.mandateID == s.booking.mandateID, CommandRejectedMandID),
     Rule(tok.Jws? && (n == 0 || s.chain.records[n - 1].counter < tok.payload.counter), CommandRejectedCounter)]
  }

  lemma CommandRefusal(s: SessionState, tok: CommandToken)
    ensures Answers(CheckCommand(s, tok), CommandRules(s, tok))
    ensures AllHold(CommandRules(s, tok)) ==> tok.Jws? && CheckCommand(s, tok) == Ok(tok.payload)
  {
    var rules := CommandRules(s, tok);
    if !rules[0].holds {
      assert FailsAt(rules, 0);
    } else if !rules[1].holds {
      assert FailsAt(rules, 1);
    } else if !rules[2].holds {
      assert FailsAt(rules, 2);
    } else if !rules[3].holds {
      assert FailsAt(rules, 3);
    } else if !rules[4].holds {
      assert FailsAt(rules, 4);
    } else if !rules[5].holds {
      assert FailsAt(rules, 5);
    } else {
      assert AllHold(rules);
    }
  }

  /** What a call must meet before its status check: the window widened by 30 s each way, and the mandate's key. */
  function GateRules(s: SessionState, caller: Caller, now: int): seq<Rule> {
    [Rule(!s.closed && now <= (s.mandate.exp + 30) * 1_000_000_000, WindowClosed),
     Rule((s.mandate.nbf - 30) * 1_000_000_000 <= now, WindowClosed), Rule(caller.jkt == s.mandate.jkt, DPoPRejectedKey)]
  }

  lemma GateRefusal(h: Chain.Hasher, maxAge: int, s: SessionState, k: K.KeeperState, caller: Caller, tok: CommandToken, call: Call)
    requires !AllHold(GateRules(s, caller, call.now))
    ensures var r := Relay(h, maxAge, s, k, caller, tok, call);
            && Answers(r.answer, GateRules(s, caller, call.now)) && r.uplinked.None? && r.keeper == k
            && r.session == s.(closed := s.closed || call.now > (s.mandate.exp + 30) * 1_000_000_000)
  {
    var rules := GateRules(s, caller, call.now);
    if !rules[0].holds {
      assert FailsAt(rules, 0);
    } else if !rules[1].holds {
      assert FailsAt(rules, 1);
    } else {
      assert FailsAt(rules, 2);
    }
  }

  lemma GatePassed(s: SessionState, caller: Caller, now: int)
    requires AllHold(GateRules(s, caller, now))
    ensures !s.closed && Begins(s.mandate) <= now <= Ends(s.mandate) && caller.jkt == s.mandate.jkt
  {
    var rules := GateRules(s, caller, now);
    assert rules[0].holds && rules[1].holds && rules[2].holds;
  }

  /** A relayed command is refused by the first rule it fails: the window and key, then the status check, then the command
      itself. One that fails none goes up as it was signed, and only then is anything recorded. */
  lemma RelayRefusal(h: Chain.Hasher, maxAge: int, s: SessionState, k: K.KeeperState, caller: Caller, tok: CommandToken, call: Call)
    ensures var r := Relay(h, maxAge, s, k, caller, tok, call);
            var w := Watch(maxAge, s.monitor, k, caller.agentID, call.got, call.now);
            if !AllHold(GateRules(s, caller, call.now)) then
              Answers(r.answer, GateRules(s, caller, call.now)) && r.uplinked.None? && r.keeper == k
            else
              && r.keeper == w.keeper && r.session.monitor == w.monitor && r.session.closed == s.closed
              && if w.refused.Some? then
                   r.answer == Err(w.refused.value) && r.uplinked.None? && r.session == s.(monitor := w.monitor)
                 else if !AllHold(CommandRules(s, tok)) then
                   Answers(r.answer, CommandRules(s, tok)) && r.uplinked.None? && r.session == s.(monitor := w.monitor)
                 else tok.Jws? && r.uplinked == Some(tok.payload)
  {
    if !AllHold(GateRules(s, caller, call.now)) {
      GateRefusal(h, maxAge, s, k, caller, tok, call);
    } else {
      GatePassed(s, caller, call.now);
      var w := Watch(maxAge, s.monitor, k, caller.agentID, call.got, call.now);
      var s1 := s.(monitor := w.monitor);
      if w.refused.None? {
        assert Relay(h, maxAge, s, k, caller, tok, call) == RelayChecked(h, s1, w.keeper, tok, call.uplink);
        assert CommandRules(s1, tok) == CommandRules(s, tok);
        CommandRefusal(s1, tok);
        CheckedOnly(h, s1, w.keeper, tok, call.uplink);
      }
    }
  }

  lemma CheckedOnly(h: Chain.Hasher, s: SessionState, k: K.KeeperState, tok: CommandToken, reply: UplinkReply)
    ensures var r := RelayChecked(h, s, k, tok, reply);
            && r.keeper == k && r.session.monitor == s.monitor && r.session.closed == s.closed
            && match CheckCommand(s, tok)
               case Err(code) => r.answer == Err(code) && r.uplinked.None? && r.session == s
               case Ok(cmd) => r.uplinked == Some(cmd)
  {
  }

  /** What an uplink leaves behind: one more record, of this counter, mandate, class and token; and its ack on file if the
      spacecraft answered with a valid one for this counter, or the counter among the missing. */
  lemma RecordExactly(h: Chain.Hasher, s: SessionState, cmd: Command, tok: CommandToken, reply: UplinkReply)
    requires Chain.Append(h, s.chain, EntryOf(h, cmd, tok)).Ok?
    ensures var (next, answer) := RecordReply(h, s, cmd, tok, reply);
            var n := |s.chain.records|;
            && |next.chain.records| == n + 1 && next.chain.records[..n] == s.chain.records
            && next.chain.records[n].counter == cmd.counter && next.chain.records[n].mandateID == cmd.mandateID
            && next.chain.records[n].class_ == cmd.class_ && next.chain.records[n].cmdSHA256 == h.token(tok.raw)
            && next.booking == s.booking && next.mandate == s.mandate && next.monitor == s.monitor && next.closed == s.closed
            && if reply.Replied? && reply.ack.Valid() && reply.ack.counter == cmd.counter then
                 answer == Ok(reply.ack) && next.acks == s.acks[cmd.counter := reply.ack] && next.missing == s.missing
               else answer == Err(AckMissing) && next.acks == s.acks && next.missing == s.missing + [cmd.counter]
  {
  }

  /** The check before a command, on a keeper with any history. The first one is for the caller's own agent and installs
      a monitor only by passing; later ones are for that same agent, and are skipped for 30 s after the last. */
  lemma WatchMeans(maxAge: int, mon: Option<M.MonitorState>, h: seq<K.Checked>, agent: string, got: K.Fetched, now: int)
    requires mon.Some? ==> mon.value.good
    ensures var w := Watch(maxAge, mon, K.After(maxAge, h), agent, got, now);
            var who := if mon.Some? then mon.value.agent else agent;
            && (w.monitor.Some? <==> mon.Some? || w.refused.None?)
            && (w.monitor.Some? ==> w.monitor.value.agent == who && w.monitor.value.good)
            && if mon.Some? && now < mon.value.last + 30_000_000_000 then w.monitor == mon && w.refused == mon.value.cut
               else if mon.Some? && mon.value.cut.Some? then w.monitor == mon && w.refused == mon.value.cut
               else
                 && (w.refused == Some(SessionCutRevoked) <==>
                       got.Some? && (!got.value.active || K.Outlived(h, who, got.value.iat)))
                 && (w.refused == Some(SessionCutStale) <==>
                       got.None? && exists x :: K.NewestLive(h, who, x) && now - x.iat * 1_000_000_000 >= maxAge)
                 && (w.refused == Some(SessionRejectedToken) <==> got.None? && forall i :: !K.Live(h, who, i))
                 && (w.refused.None? || w.refused.value in {SessionCutRevoked, SessionCutStale, SessionRejectedToken})
  {
    var m := if mon.Some? then mon.value else M.NewMonitor(agent);
    M.TickAnswers(maxAge, m, h, got, now);
  }

  /** Evidence is shown to the mandate's subject and to the auditors, and to nobody else. */
  lemma ReadersExactly(s: SessionState, auditors: seq<string>, name: string)
    ensures MayRead(s, auditors, name) <==>
              name == s.mandate.sub || exists i :: 0 <= i < |auditors| && auditors[i] == name
  {
  }

  /** A booking without a session yet opens one from the stored row: its mandate decoded, nothing chained, acked, missing,
      watched or closed. */
  lemma OpensExactly(st: S.StoreState, id: string)
    ensures var r := OpenStored(st, id);
            && (r.Ok? <==> id in st.bookings && st.bookings[id].mandate.Jws? && st.bookings[id].mandate.payload.Valid())
            && (r.Ok? ==>
                  && r.value.booking == st.bookings[id] && r.value.mandate == st.bookings[id].mandate.payload
                  && r.value.chain.records == [] && r.value.chain.head == Chain.Zeros(64) && r.value.acks == map[]
                  && r.value.missing == [] && r.value.monitor.None? && !r.value.closed)
            && (id !in st.bookings ==> r == Err(SessionRejectedBooked))
            && (id in st.bookings && st.bookings[id].mandate.OtherType? ==> r == Err(TypRejected))
            && (id in st.bookings && !st.bookings[id].mandate.OtherType? && r.Err? ==> r.code == MandateParseError)
  {
  }

  /** The evidence is the whole chain, every counter without an ack and the monitor's cut, and an ack for each record that
      has one on file. */
  lemma ShownExactly(s: SessionState, i: nat)
    requires i < |s.chain.records|
    ensures var e := EvidenceOf(s);
            && e.head == s.chain.head && e.records == s.chain.records && e.missing == s.missing
            && (s.monitor.None? ==> e.cut.None?) && (s.monitor.Some? ==> e.cut == s.monitor.value.cut)
            && (s.chain.records[i].counter in s.acks ==> s.acks[s.chain.records[i].counter] in e.acks)
  {
    var records := s.chain.records;
    assert records == records[..i] + [records[i]] + records[i + 1..];
    Evidence.AcksOfConcat(records[..i] + [records[i]], records[i + 1..], s.acks);
    Evidence.AcksOfConcat(records[..i], [records[i]], s.acks);
    Evidence.AcksOfConcat([records[i]], [], s.acks);
  }
}
