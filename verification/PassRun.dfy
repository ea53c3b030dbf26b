/** A whole pass: Ops sending one command at a time, a network that loses and delays, an honest station and any
    spacecraft link. */
module PassRun {
  import opened Errs
  import opened Schema
  import opened Sequences
  import opened Commander
  import Chain
  import K = Keeper
  import M = Monitor
  import O = Ops
  import S = Store
  import T = Session

  datatype Setup = Setup(h: Chain.Hasher, maxAge: int, signer: Signer, mandateID: string)

  /** `pending` is the command of the Send in progress, `requests` the tokens on their way to the station,
      `answer` the reply on its way back. */
  datatype World = World(ops: O.PassState, store: S.StoreState, pending: Option<Built>, requests: set<CommandToken>,
                         answer: Option<O.Reply>, station: T.SessionState, keeper: K.KeeperState)

  datatype Event =
    | StartSend(class_: string, body: string, issuedAt: int, raw: string)
    | Deliver(tok: CommandToken, call: T.Call)
    | Guard(tok: CommandToken, code: Code)
    | LoseRequest(tok: CommandToken)
    | LoseAnswer
    | Receive
    | GiveUp(err: Error)
    | OtherPass
    | OpsCut(code: Code)
    | Enqueue(class_: string, body: string)
    | Stranger(tok: CommandToken, call: T.Call)
    | StationTick(got: K.Fetched, now: int)
    | StationEnd
    | OtherSession(agent: string, got: K.Fetched, now: int)

  predicate FromOps(call: T.Call, m: Mandate) { call.caller.Some? && call.caller.value.jkt == m.jkt }

  /** Sends are sequential; a request arrives at most once, possibly late; what Ops reads is what the station
      answered, or a failure of its own making; only Ops holds the mandate's key. */
  predicate Possible(w: World, e: Event) {
    match e
    case StartSend(_, _, _, _) => w.pending.None?
    case Deliver(tok, _) => tok in w.requests
    case Guard(tok, code) => tok in w.requests && code != AckMissing && code != AckParseError
    case LoseRequest(tok) => tok in w.requests
    case LoseAnswer => w.answer.Some?
    case Receive => w.answer.Some? && w.pending.Some?
    case GiveUp(err) => w.pending.Some? && (err == Named(Unavailable) || err == Plain)
    case Stranger(_, call) => !FromOps(call, w.station.mandate)
    case _ => true
  }

  function ReplyOf(r: Result<Ack>): O.Reply {
    match r case Ok(ack) => O.Answer(ack) case Err(code) => O.Broke(Named(code))
  }

  /** relay_command on this booking's session. */
  function AtStation(u: Setup, w: World, tok: CommandToken, call: T.Call): T.Relayed {
    if call.caller.None? then T.Relayed(w.station, w.keeper, Err(DPoPRejectedKey), None)
    else T.Relay(u.h, u.maxAge, w.station, w.keeper, call.caller.value, tok, call)
  }

  function Answered(w: World, tok: CommandToken, reply: O.Reply): World {
    w.(requests := w.requests - {tok},
       answer := if w.pending.Some? && w.pending.value.token == tok then Some(reply) else w.answer)
  }

  function Finished(u: Setup, w: World, reply: O.Reply): World
    requires w.pending.Some?
  {
    w.(ops := O.Finish(u.h, w.ops, w.pending.value, reply).0, pending := None, answer := None)
  }

  function Step(u: Setup, w: World, e: Event): World
    requires Possible(w, e)
  {
    match e
    case StartSend(class_, body, issuedAt, raw) =>
      (match O.Begin(w.ops, u.signer, w.store, u.mandateID, class_, body, issuedAt, raw)
       case NotSent(store, _) => w.(store := store)
       case InFlight(store, built) => w.(store := store, pending := Some(built), requests := w.requests + {built.token}))
    case Deliver(tok, call) =>
      var r := AtStation(u, w, tok, call);
      Answered(w, tok, ReplyOf(r.answer)).(station := r.session, keeper := r.keeper)
    case Guard(tok, code) => Answered(w, tok, O.Broke(Named(code)))
    case LoseRequest(tok) => w.(requests := w.requests - {tok})
    case LoseAnswer => w.(answer := None)
    case Receive => Finished(u, w, w.answer.value)
    case GiveUp(err) => Finished(u, w, O.Broke(err))
    case OtherPass => w.(store := S.NextCounter(w.store, CounterName(u.signer.norad)).0)
    case OpsCut(code) => w.(ops := O.Cut(w.ops, code))
    case Enqueue(class_, body) => w.(ops := O.Enqueue(w.ops, class_, body))
    case Stranger(tok, call) =>
      var r := AtStation(u, w, tok, call);
      w.(station := r.session, keeper := r.keeper)
    case StationTick(got, now) =>
      (match w.station.monitor
       case None => w
       case Some(m) =>
         var t := M.Tick(u.maxAge, m, w.keeper, got, now);
         w.(station := w.station.(monitor := Some(t.mon)), keeper := t.keeper))
    case StationEnd => w.(station := w.station.(closed := true))
    case OtherSession(agent, got, now) => w.(keeper := K.Check(u.maxAge, w.keeper, agent, got, now).0)
  }

  ghost predicate Run(u: Setup, w: World, es: seq<Event>, end: World)
    decreases |es|
  {
    if es == [] then w == end
    else Possible(w, es[0]) && Run(u, Step(u, w, es[0]), es[1..], end)
  }

  /** A pass that was just started, and a session that was just opened. */
  ghost predicate Init(w: World, b: S.Booking, m: Mandate) {
    w.ops == O.START && w.pending.None? && w.requests == {} && w.answer.None? && w.station == T.Open(b, m)
  }

  // ------------------------------------------------------- one relay call

  predicate CutCodes(s: T.SessionState) {
    s.monitor.Some? && s.monitor.value.cut.Some? ==> s.monitor.value.cut.value in {SessionCutRevoked, SessionCutStale}
  }

  predicate Has(records: seq<Chain.CommandRecord>, counter: int) {
    exists i :: 0 <= i < |records| && records[i].counter == counter
  }

  /** Every ack is filed under its own counter, and that counter is chained. */
  predicate AcksFiled(records: seq<Chain.CommandRecord>, acks: map<int, Ack>) {
    forall c :: c in acks ==> acks[c].counter == c && Has(records, c)
  }

  ghost predicate Sound(h: Chain.Hasher, s: T.SessionState) {
    Chain.Chained(h, s.chain) && CutCodes(s) && AcksFiled(s.chain.records, s.acks)
  }

  lemma WatchCodes(u: Setup, s: T.SessionState, k: K.KeeperState, agent: string, got: K.Fetched, now: int)
    requires CutCodes(s)
    ensures var w := T.Watch(u.maxAge, s.monitor, k, agent, got, now);
            CutCodes(s.(monitor := w.monitor)) &&
            (w.refused.Some? ==> w.refused.value in {SessionCutRevoked, SessionCutStale, SessionRejectedToken})
  {
  }

  /** The relay sent the command up: its record is appended, and the answer is the ack or ACK_MISSING. */
  ghost predicate SentUp(h: Chain.Hasher, s: T.SessionState, tok: CommandToken, r: T.Relayed) {
    && r.uplinked.Some? && PeekCommand(tok) == Ok(r.uplinked.value) && r.uplinked.value.counter > s.chain.counter
    && (r.answer.Ok? || r.answer == Err(AckMissing))
    && Chain.Entries(r.session.chain.records) ==
       Chain.Entries(s.chain.records) + [T.EntryOf(h, r.uplinked.value, tok)]
  }

  /** The relay refused the command: the chain and acks are as they were, and Ops can tell from the code. */
  ghost predicate TurnedAway(s: T.SessionState, r: T.Relayed) {
    && r.uplinked.None? && r.session.chain == s.chain && r.session.acks == s.acks
    && r.answer.Err? && O.RefusedBeforeRelay(Named(r.answer.code))
  }

  lemma HasSnoc(records: seq<Chain.CommandRecord>, r: Chain.CommandRecord, c: int)
    ensures Has(records + [r], c) <==> Has(records, c) || r.counter == c
  {
    if Has(records, c) {
      var i :| 0 <= i < |records| && records[i].counter == c;
      assert (records + [r])[i] == records[i];
    }
    assert (records + [r])[|records|] == r;
  }

  lemma AcksStayFiled(records: seq<Chain.CommandRecord>, r: Chain.CommandRecord, acks: map<int, Ack>)
    requires AcksFiled(records, acks)
    ensures AcksFiled(records + [r], acks)
    ensures forall a: Ack :: a.counter == r.counter ==> AcksFiled(records + [r], acks[r.counter := a])
  {
    forall c | c in acks || c == r.counter ensures c in acks || c == r.counter ==> Has(records + [r], c) {
      HasSnoc(records, r, c);
    }
  }

  lemma RecordAnswers(h: Chain.Hasher, s: T.SessionState, cmd: Command, tok: CommandToken, reply: T.UplinkReply)
    requires Sound(h, s) && cmd.Valid() && cmd.counter > s.chain.counter
    ensures var (next, answer) := T.RecordReply(h, s, cmd, tok, reply);
            && Sound(h, next) && (answer.Ok? || answer == Err(AckMissing))
            && Chain.Entries(next.chain.records) == Chain.Entries(s.chain.records) + [T.EntryOf(h, cmd, tok)]
  {
    var e := T.EntryOf(h, cmd, tok);
    Chain.AppendChained(h, s.chain, e);
    var next := Chain.Append(h, s.chain, e).value;
    AcksStayFiled(s.chain.records, next.records[|s.chain.records|], s.acks);
  }

  lemma CheckedAnswers(h: Chain.Hasher, s: T.SessionState, k: K.KeeperState, tok: CommandToken, reply: T.UplinkReply)
    requires Sound(h, s)
    ensures var r := T.RelayChecked(h, s, k, tok, reply);
            Sound(h, r.session) && (SentUp(h, s, tok, r) || TurnedAway(s, r))
  {
    var checked := T.CheckCommand(s, tok);
    if checked.Ok? {
      RecordAnswers(h, s, checked.value, tok, reply);
    }
  }

  /** The station chains exactly what it sends up: after an uplink the append never fails and the answer is the ack
      or ACK_MISSING; without one nothing is chained, and the answer is a refusal Ops recognises. */
  lemma RelayAnswers(u: Setup, s: T.SessionState, k: K.KeeperState, caller: T.Caller, tok: CommandToken, call: T.Call)
    requires Sound(u.h, s)
    ensures var r := T.Relay(u.h, u.maxAge, s, k, caller, tok, call);
            && Sound(u.h, r.session) && r.session.mandate == s.mandate
            && (SentUp(u.h, s, tok, r) || TurnedAway(s, r)) && (r.uplinked.Some? ==> caller.jkt == s.mandate.jkt)
  {
    var r := T.Relay(u.h, u.maxAge, s, k, caller, tok, call);
    if s.closed || call.now > T.Ends(s.mandate) || call.now < T.Begins(s.mandate) || caller.jkt != s.mandate.jkt {
      assert TurnedAway(s, r);
    } else {
      WatchCodes(u, s, k, caller.agentID, call.got, call.now);
      var w := T.Watch(u.maxAge, s.monitor, k, caller.agentID, call.got, call.now);
      var s1 := s.(monitor := w.monitor);
      if w.refused.Some? {
        assert TurnedAway(s, r);
      } else {
        assert r == T.RelayChecked(u.h, s1, w.keeper, tok, call.uplink);
        CheckedAnswers(u.h, s1, w.keeper, tok, call.uplink);
        assert SentUp(u.h, s1, tok, r) ==> SentUp(u.h, s, tok, r);
        assert TurnedAway(s1, r) ==> TurnedAway(s, r);
      }
    }
  }

  // ------------------------------------------------ chains over a whole run

  function OpsEntries(w: World): seq<Chain.Entry> { Chain.Entries(w.ops.chain.records) }

  function StationEntries(w: World): seq<Chain.Entry> { Chain.Entries(w.station.chain.records) }

  /** The Send in progress: a signed command whose counter is above everything Ops has chained. */
  ghost predicate PendingFits(u: Setup, chained: int, drawn: int, pending: Option<Built>) {
    pending.Some? ==>
      var b := pending.value;
      && b.command.Valid() && SignCommand(b.command, u.signer.key, b.token.raw) == Some(b.token)
      && chained < b.command.counter <= drawn
  }

  /** Whatever the station chained, or a request may still bring it, Ops has chained or is about to judge. */
  ghost predicate Covered(h: Chain.Hasher, station: seq<Chain.Entry>, ops: seq<Chain.Entry>, pending: Option<Built>,
                          requests: set<CommandToken>)
  {
    && (forall e :: e in station ==> e in ops || (pending.Some? && e == O.EntryOf(h, pending.value)))
    && (forall t :: t in requests && t.Jws? ==>
          T.EntryOf(h, t.payload, t) in ops || (pending.Some? && t == pending.value.token))
  }

  /** While its request is on the way, or once its refusal is on the way back, the station has not chained the
      command of the Send in progress. */
  ghost predicate Unchained(h: Chain.Hasher, station: seq<Chain.Entry>, pending: Option<Built>,
                            requests: set<CommandToken>, answer: Option<O.Reply>)
  {
    && (answer.Some? ==> pending.Some?)
    && (pending.Some? && pending.value.token in requests ==>
          O.EntryOf(h, pending.value) !in station && answer.None?)
    && (pending.Some? && answer.Some? && answer.value.Broke? && O.RefusedBeforeRelay(answer.value.err) ==>
          O.EntryOf(h, pending.value) !in station)
  }

  function Drawn(u: Setup, w: World): int { S.Counter(w.store, CounterName(u.signer.norad)) }

  ghost predicate Inv(u: Setup, w: World) {
    && Chain.Chained(u.h, w.ops.chain) && w.ops.chain.counter <= Drawn(u, w) && Sound(u.h, w.station)
    && PendingFits(u, w.ops.chain.counter, Drawn(u, w), w.pending)
    && Covered(u.h, StationEntries(w), OpsEntries(w), w.pending, w.requests)
    && Unchained(u.h, StationEntries(w), w.pending, w.requests, w.answer)
  }

  lemma EntryBound(h: Chain.Hasher, c: Chain.ChainState, e: Chain.Entry)
    requires Chain.Chained(h, c) && e in Chain.Entries(c.records)
    ensures 0 < e.counter <= c.counter
  {
  }

  lemma StartKeeps(u: Setup, w: World, e: Event)
    requires Inv(u, w) && e.StartSend? && Possible(w, e)
    ensures Inv(u, Step(u, w, e))
  {
    if w.ops.cut.None? {
      BuildDrawsNext(u.signer, w.store, u.mandateID, e.class_, e.body, e.issuedAt, e.raw);
      var next := Step(u, w, e);
      forall x | x in StationEntries(w) ensures x.counter <= w.ops.chain.counter {
        EntryBound(u.h, w.ops.chain, x);
      }
    }
  }

  /** A refused Send: neither side has the command. */
  lemma RefusedKeeps(u: Setup, w: World)
    requires Inv(u, w) && w.pending.Some?
    requires O.EntryOf(u.h, w.pending.value) !in StationEntries(w) && w.pending.value.token !in w.requests
    ensures Inv(u, w.(pending := None, answer := None))
  {
    var next := w.(pending := None, answer := None);
    assert Covered(u.h, StationEntries(w), OpsEntries(w), None, w.requests);
    assert StationEntries(next) == StationEntries(w) && OpsEntries(next) == OpsEntries(w);
  }

  /** A Send that is chained: Ops has the command, whatever the station has. */
  lemma ChainedKeeps(u: Setup, w: World, ops: O.PassState)
    requires Inv(u, w) && w.pending.Some? && Chain.Chained(u.h, ops.chain) && ops.chain.counter <= Drawn(u, w)
    requires Chain.Entries(ops.chain.records) == OpsEntries(w) + [O.EntryOf(u.h, w.pending.value)]
    ensures Inv(u, w.(ops := ops, pending := None, answer := None))
  {
    var b := w.pending.value;
    var x := O.EntryOf(u.h, b);
    var next := w.(ops := ops, pending := None, answer := None);
    assert x in OpsEntries(next) by {
      assert OpsEntries(next)[|OpsEntries(w)|] == x;
    }
    assert b.token.Jws? ==> T.EntryOf(u.h, b.token.payload, b.token) == x;
    assert Covered(u.h, StationEntries(w), OpsEntries(next), None, w.requests);
    assert StationEntries(next) == StationEntries(w);
  }

  lemma FinishKeeps(u: Setup, w: World, reply: O.Reply)
    requires Inv(u, w) && w.pending.Some?
    requires reply.Broke? && O.RefusedBeforeRelay(reply.err) ==>
               O.EntryOf(u.h, w.pending.value) !in StationEntries(w) && w.pending.value.token !in w.requests
    ensures Inv(u, Finished(u, w, reply))
  {
    if reply.Broke? && O.RefusedBeforeRelay(reply.err) {
      RefusedKeeps(u, w);
    } else {
      O.FinishChains(u.h, w.ops, w.pending.value, reply);
      ChainedKeeps(u, w, O.Finish(u.h, w.ops, w.pending.value, reply).0);
    }
  }

  lemma AtStationAnswers(u: Setup, w: World, tok: CommandToken, call: T.Call)
    requires Sound(u.h, w.station)
    ensures var r := AtStation(u, w, tok, call);
            Sound(u.h, r.session) && r.session.mandate == w.station.mandate &&
            (SentUp(u.h, w.station, tok, r) || TurnedAway(w.station, r)) &&
            (r.uplinked.Some? ==> FromOps(call, w.station.mandate))
  {
    if call.caller.Some? {
      RelayAnswers(u, w.station, w.keeper, call.caller.value, tok, call);
    }
  }

  lemma DeliveredKeeps(u: Setup, w: World, tok: CommandToken, answer: Result<Ack>, next: World)
    requires Inv(u, w) && tok in w.requests && tok.Jws? && Sound(u.h, next.station)
    requires answer.Ok? || answer == Err(AckMissing)
    requires next == Answered(w, tok, ReplyOf(answer)).(station := next.station, keeper := next.keeper)
    requires StationEntries(next) == StationEntries(w) + [T.EntryOf(u.h, tok.payload, tok)]
    ensures Inv(u, next)
  {
    var e := T.EntryOf(u.h, tok.payload, tok);
    if w.pending.Some? && w.pending.value.token != tok {
      EntryBound(u.h, w.ops.chain, e);
      assert e != O.EntryOf(u.h, w.pending.value);
    }
  }

  lemma DeliverKeeps(u: Setup, w: World, tok: CommandToken, call: T.Call)
    requires Inv(u, w) && tok in w.requests
    ensures Inv(u, Step(u, w, Deliver(tok, call)))
  {
    AtStationAnswers(u, w, tok, call);
    var r := AtStation(u, w, tok, call);
    var next := Step(u, w, Deliver(tok, call));
    if r.uplinked.Some? {
      DeliveredKeeps(u, w, tok, r.answer, next);
    } else {
      assert StationEntries(next) == StationEntries(w);
    }
  }

  lemma StrangerKeeps(u: Setup, w: World, tok: CommandToken, call: T.Call)
    requires Inv(u, w) && !FromOps(call, w.station.mandate)
    ensures Inv(u, Step(u, w, Stranger(tok, call)))
  {
    AtStationAnswers(u, w, tok, call);
    assert StationEntries(Step(u, w, Stranger(tok, call))) == StationEntries(w);
  }

  /** The station's monitor and the keeper may change as they like. */
  lemma MonitorReplaced(u: Setup, w: World, mon: M.MonitorState, k: K.KeeperState)
    requires Inv(u, w) && CutCodes(w.station.(monitor := Some(mon)))
    ensures Inv(u, w.(station := w.station.(monitor := Some(mon)), keeper := k))
  {
    assert StationEntries(w.(station := w.station.(monitor := Some(mon)), keeper := k)) == StationEntries(w);
  }

  lemma TickKeeps(u: Setup, w: World, got: K.Fetched, now: int)
    requires Inv(u, w)
    ensures Inv(u, Step(u, w, StationTick(got, now)))
  {
    if w.station.monitor.Some? {
      var t := M.Tick(u.maxAge, w.station.monitor.value, w.keeper, got, now);
      TickCodes(u.maxAge, w.station, w.keeper, got, now);
      MonitorReplaced(u, w, t.mon, t.keeper);
    }
  }

  lemma TickCodes(maxAge: int, s: T.SessionState, k: K.KeeperState, got: K.Fetched, now: int)
    requires CutCodes(s) && s.monitor.Some?
    ensures CutCodes(s.(monitor := Some(M.Tick(maxAge, s.monitor.value, k, got, now).mon)))
  {
  }

  lemma StepKeeps(u: Setup, w: World, e: Event)
    requires Inv(u, w) && Possible(w, e)
    ensures Inv(u, Step(u, w, e))
  {
    match e {
      case StartSend(_, _, _, _) => StartKeeps(u, w, e);
      case Deliver(tok, call) => DeliverKeeps(u, w, tok, call);
      case Stranger(tok, call) => StrangerKeeps(u, w, tok, call);
      case Receive => FinishKeeps(u, w, w.answer.value);
      case GiveUp(err) => FinishKeeps(u, w, O.Broke(err));
      case StationTick(got, now) => TickKeeps(u, w, got, now);
      case _ =>
    }
  }

  lemma {:induction false} RunKeeps(u: Setup, w: World, es: seq<Event>, end: World)
    requires Inv(u, w) && Run(u, w, es, end)
    ensures Inv(u, end)
    decreases |es|
  {
    if es != [] {
      StepKeeps(u, w, es[0]);
      RunKeeps(u, Step(u, w, es[0]), es[1..], end);
    }
  }

  lemma InitInv(u: Setup, w: World, b: S.Booking, m: Mandate)
    requires Init(w, b, m) && 0 <= Drawn(u, w)
    ensures Inv(u, w)
  {
    Chain.EmptyChained(u.h);
  }

  lemma SortedSubset(h: Chain.Hasher, a: Chain.ChainState, b: Chain.ChainState)
    requires Chain.Chained(h, a) && Chain.Chained(h, b)
    requires forall e :: e in Chain.Entries(a.records) ==> e in Chain.Entries(b.records)
    ensures Subsequence(Chain.Entries(a.records), Chain.Entries(b.records))
  {
    var x, y := Chain.Entries(a.records), Chain.Entries(b.records);
    forall i, j, p, q | 0 <= i < j < |x| && 0 <= p < |y| && 0 <= q < |y| && y[p] == x[i] && y[q] == x[j] ensures p < q {
      assert a.records[i].counter < a.records[j].counter;
      assert y[p].counter == b.records[p].counter && y[q].counter == b.records[q].counter;
    }
    OrderedSubset(x, y);
  }

  /** Whatever is lost, late, refused or forged, whenever no Send is in progress the commands the station chained
      are a subsequence of those Ops chained. */
  lemma StationChainsASubsequence(u: Setup, w: World, b: S.Booking, m: Mandate, es: seq<Event>, end: World)
    requires Init(w, b, m) && 0 <= Drawn(u, w)
    requires Run(u, w, es, end) && end.pending.None?
    ensures Subsequence(StationEntries(end), OpsEntries(end))
  {
    InitInv(u, w, b, m);
    RunKeeps(u, w, es, end);
    assert forall e :: e in StationEntries(end) ==> e in OpsEntries(end);
    SortedSubset(u.h, end.station.chain, end.ops.chain);
  }

  // ------------------------------------------------------ when nothing is lost

  /** Every request is answered, every answer arrives, and none of them is unavailable or internal. */
  predicate Clean(e: Event) {
    match e
    case LoseRequest(_) => false
    case LoseAnswer => false
    case GiveUp(_) => false
    case Guard(_, code) => code != Unavailable && code != Internal
    case _ => true
  }

  predicate Refusal(reply: O.Reply) { reply.Broke? && O.RefusedBeforeRelay(reply.err) }

  /** The chains agree, up to a command the station has already judged and Ops is about to. */
  ghost predicate Agree(h: Chain.Hasher, station: seq<Chain.Entry>, ops: seq<Chain.Entry>, pending: Option<Built>,
                        requests: set<CommandToken>, answer: Option<O.Reply>)
  {
    match pending
    case None => requests == {} && station == ops
    case Some(b) =>
      && (b.token in requests ==> requests == {b.token} && answer.None? && station == ops)
      && (b.token !in requests ==>
            requests == {} && answer.Some? && station == ops + if Refusal(answer.value) then [] else [O.EntryOf(h, b)])
  }

  ghost predicate Agreeing(u: Setup, w: World) {
    Agree(u.h, StationEntries(w), OpsEntries(w), w.pending, w.requests, w.answer)
  }

  ghost predicate InStep(u: Setup, w: World) { Inv(u, w) && Agreeing(u, w) }

  lemma ReceiveAgrees(u: Setup, w: World)
    requires InStep(u, w) && Possible(w, Receive)
    ensures Agreeing(u, Step(u, w, Receive))
  {
    if !Refusal(w.answer.value) {
      Chain.AppendChained(u.h, w.ops.chain, O.EntryOf(u.h, w.pending.value));
    }
  }

  lemma DeliverAgrees(u: Setup, w: World, tok: CommandToken, call: T.Call)
    requires InStep(u, w) && tok in w.requests
    ensures Agreeing(u, Step(u, w, Deliver(tok, call)))
  {
    AtStationAnswers(u, w, tok, call);
    var r := AtStation(u, w, tok, call);
    var next := Step(u, w, Deliver(tok, call));
    assert w.pending.Some? && w.pending.value.token == tok && next.answer == Some(ReplyOf(r.answer));
    if r.uplinked.Some? {
      assert tok.payload == w.pending.value.command;
    } else {
      assert StationEntries(next) == StationEntries(w);
    }
  }

  lemma StrangerAgrees(u: Setup, w: World, tok: CommandToken, call: T.Call)
    requires InStep(u, w) && !FromOps(call, w.station.mandate)
    ensures Agreeing(u, Step(u, w, Stranger(tok, call)))
  {
    AtStationAnswers(u, w, tok, call);
    assert StationEntries(Step(u, w, Stranger(tok, call))) == StationEntries(w);
  }

  lemma CleanStepAgrees(u: Setup, w: World, e: Event)
    requires InStep(u, w) && Possible(w, e) && Clean(e)
    ensures Agreeing(u, Step(u, w, e))
  {
    match e {
      case Deliver(tok, call) => DeliverAgrees(u, w, tok, call);
      case Receive => ReceiveAgrees(u, w);
      case Stranger(tok, call) => StrangerAgrees(u, w, tok, call);
      case _ =>
    }
  }

  lemma {:induction false} CleanRunAgrees(u: Setup, w: World, es: seq<Event>, end: World)
    requires InStep(u, w) && Run(u, w, es, end) && forall i :: 0 <= i < |es| ==> Clean(es[i])
    ensures InStep(u, end)
    decreases |es|
  {
    if es != [] {
      StepKeeps(u, w, es[0]);
      CleanStepAgrees(u, w, es[0]);
      CleanRunAgrees(u, Step(u, w, es[0]), es[1..], end);
    }
  }

  /** If every answer arrives and none is unavailable or internal, then whenever no Send is in progress the two
      chains, and so the two heads, are equal, whatever was refused and whatever acks went missing. */
  lemma CleanRunEqualChains(u: Setup, w: World, b: S.Booking, m: Mandate, es: seq<Event>, end: World)
    requires Init(w, b, m) && 0 <= Drawn(u, w)
    requires Run(u, w, es, end) && end.pending.None? && forall i :: 0 <= i < |es| ==> Clean(es[i])
    ensures end.station.chain == end.ops.chain
  {
    InitInv(u, w, b, m);
    assert OpsEntries(w) == StationEntries(w) == [];
    CleanRunAgrees(u, w, es, end);
  }
}
