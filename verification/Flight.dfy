/** A pass flown to the spacecraft: what an Accepted ack, held by Ops or by the station, says about the spacecraft. */
module Flight {
  import opened Errs
  import opened Schema
  import opened Commander
  import Chain
  import C = Spacecraft
  import K = Keeper
  import O = Ops
  import P = PassRun
  import S = Store
  import T = Session
  import U = Uplinks

  /** `accepted` is what the spacecraft ever accepted. */
  datatype World = World(pass: P.World, craftStore: S.StoreState, craft: C.CraftState, accepted: seq<CommandToken>)

  /** A relay through this station, whose link may lose the command on the way up or the ack on the way down; any other
      step of the pass; a delivery by anyone else; a restart of the spacecraft. */
  datatype Event =
    | Relay(tok: CommandToken, call: T.Call, byOps: bool, up: bool, down: bool)
    | OnGround(e: P.Event)
    | Elsewhere(tok: CommandToken)
    | Restart

  /** What the spacecraft's answer looks like to the station. */
  function Heard(c: C.Craft, w: World, tok: CommandToken, up: bool, down: bool): T.UplinkReply {
    var reply := C.Uplink(c, w.craftStore, w.craft, tok).reply;
    if up && down && reply.Ok? then T.Replied(reply.value) else T.NoReply
  }

  function Ground(c: C.Craft, w: World, e: Event): P.Event
    requires e.Relay? || e.OnGround?
  {
    match e
    case Relay(tok, call, byOps, up, down) =>
      var heard := call.(uplink := Heard(c, w, tok, up, down));
      if byOps then P.Deliver(tok, heard) else P.Stranger(tok, heard)
    case OnGround(pe) => pe
  }

  predicate Possible(c: C.Craft, w: World, e: Event) {
    match e
    case Relay(_, _, _, _, _) => P.Possible(w.pass, Ground(c, w, e))
    case OnGround(pe) => !pe.Deliver? && !pe.Stranger? && P.Possible(w.pass, pe)
    case _ => true
  }

  function Flown(c: C.Craft, w: World, tok: CommandToken): World {
    var u := C.Uplink(c, w.craftStore, w.craft, tok);
    w.(craftStore := u.store, craft := u.state, accepted := if u.accepted then w.accepted + [tok] else w.accepted)
  }

  function Step(u: P.Setup, c: C.Craft, w: World, e: Event): World
    requires Possible(c, w, e)
  {
    match e
    case Relay(tok, call, _, up, down) =>
      var sent := P.AtStation(u, w.pass, tok, call.(uplink := Heard(c, w, tok, up, down))).uplinked.Some?;
      (if sent && up then Flown(c, w, tok) else w).(pass := P.Step(u, w.pass, Ground(c, w, e)))
    case OnGround(pe) => w.(pass := P.Step(u, w.pass, pe))
    case Elsewhere(tok) => Flown(c, w, tok)
    case Restart => w.(craft := C.New(c, w.craftStore))
  }

  ghost predicate Run(u: P.Setup, c: C.Craft, w: World, es: seq<Event>, end: World)
    decreases |es|
  {
    if es == [] then w == end
    else Possible(c, w, es[0]) && Run(u, c, Step(u, c, w, es[0]), es[1..], end)
  }

  // ------------------------------------------------------------ true acks

  /** The spacecraft accepted the very token chained under that counter. */
  ghost predicate Flew(h: Chain.Hasher, accepted: seq<CommandToken>, entries: seq<Chain.Entry>, counter: int) {
    exists t :: t in accepted && t.Jws? && t.payload.counter == counter && T.EntryOf(h, t.payload, t) in entries
  }

  ghost predicate TrueAcks(h: Chain.Hasher, accepted: seq<CommandToken>, entries: seq<Chain.Entry>, acks: map<int, Ack>) {
    forall k :: k in acks && acks[k].result.Accepted? ==> Flew(h, accepted, entries, k)
  }

  /** An Accepted ack on its way to Ops is for the command of the Send in progress. */
  ghost predicate TrueAnswer(accepted: seq<CommandToken>, pending: Option<Built>, answer: Option<O.Reply>) {
    answer.Some? && answer.value.Answer? && answer.value.ack.result.Accepted? ==>
      pending.Some? && pending.value.token in accepted
  }

  ghost predicate Inv(u: P.Setup, w: World) {
    && P.Inv(u, w.pass) && (forall t :: t in w.accepted ==> t.Jws?)
    && TrueAcks(u.h, w.accepted, P.StationEntries(w.pass), w.pass.station.acks)
    && TrueAcks(u.h, w.accepted, P.OpsEntries(w.pass), w.pass.ops.acks)
    && TrueAnswer(w.accepted, w.pass.pending, w.pass.answer)
  }

  lemma TrueAcksGrow(h: Chain.Hasher, accepted: seq<CommandToken>, entries: seq<Chain.Entry>, acks: map<int, Ack>,
                     more: seq<CommandToken>, entries': seq<Chain.Entry>)
    requires TrueAcks(h, accepted, entries, acks) && accepted <= more && entries <= entries'
    ensures TrueAcks(h, more, entries', acks)
  {
    forall k | k in acks && acks[k].result.Accepted? ensures Flew(h, more, entries', k) {
      var t :| t in accepted && t.Jws? && t.payload.counter == k && T.EntryOf(h, t.payload, t) in entries;
      assert t in more && T.EntryOf(h, t.payload, t) in entries';
    }
  }

  lemma FlownGrows(c: C.Craft, w: World, tok: CommandToken)
    requires forall t :: t in w.accepted ==> t.Jws?
    ensures w.accepted <= Flown(c, w, tok).accepted && forall t :: t in Flown(c, w, tok).accepted ==> t.Jws?
  {
    U.AcceptanceAdvances(c, w.craftStore, w.craft, tok);
  }

  /** An Accepted ack the station hears means the spacecraft has accepted the token. */
  lemma HeardIsTrue(c: C.Craft, w: World, tok: CommandToken, up: bool, down: bool)
    ensures var heard := Heard(c, w, tok, up, down);
            heard.Replied? && heard.ack.result.Accepted? ==> up && tok in Flown(c, w, tok).accepted
  {
    C.AckNamesItsCommand(c, w.craftStore, w.craft, tok);
  }

  // ------------------------------------------------------------- the station

  /** What a relay files: nothing, or the ack it heard, under the command's counter, for the entry it chained. */
  ghost predicate RelayFiled(h: Chain.Hasher, s: T.SessionState, tok: CommandToken, reply: T.UplinkReply, r: T.Relayed) {
    && Chain.Entries(s.chain.records) <= Chain.Entries(r.session.chain.records)
    && (if r.answer.Ok? then
          && r.uplinked.Some? && tok.Jws? && tok.payload == r.uplinked.value && reply.Replied? && r.answer.value == reply.ack
          && r.session.acks == s.acks[tok.payload.counter := reply.ack]
          && T.EntryOf(h, tok.payload, tok) in Chain.Entries(r.session.chain.records)
        else r.session.acks == s.acks)
  }

  lemma RecordFiled(h: Chain.Hasher, s: T.SessionState, k: K.KeeperState, cmd: Command, tok: CommandToken, reply: T.UplinkReply)
    requires P.Sound(h, s) && cmd.counter > s.chain.counter && PeekCommand(tok) == Ok(cmd)
    ensures var (next, answer) := T.RecordReply(h, s, cmd, tok, reply);
            RelayFiled(h, s, tok, reply, T.Relayed(next, k, answer, Some(cmd)))
  {
    P.RecordAnswers(h, s, cmd, tok, reply);
    var next := T.RecordReply(h, s, cmd, tok, reply).0;
    var e := T.EntryOf(h, cmd, tok);
    assert Chain.Entries(next.chain.records)[|s.chain.records|] == e;
  }

  lemma CheckedFiled(h: Chain.Hasher, s: T.SessionState, k: K.KeeperState, tok: CommandToken, reply: T.UplinkReply)
    requires P.Sound(h, s)
    ensures RelayFiled(h, s, tok, reply, T.RelayChecked(h, s, k, tok, reply))
  {
    if T.CheckCommand(s, tok).Ok? {
      RecordFiled(h, s, k, T.CheckCommand(s, tok).value, tok, reply);
    }
  }

  lemma AtStationFiled(u: P.Setup, w: P.World, tok: CommandToken, call: T.Call)
    requires P.Sound(u.h, w.station)
    ensures RelayFiled(u.h, w.station, tok, call.uplink, P.AtStation(u, w, tok, call))
  {
    var s, r := w.station, P.AtStation(u, w, tok, call);
    if call.caller.None? || s.closed || call.now > T.Ends(s.mandate) || call.now < T.Begins(s.mandate) ||
       call.caller.value.jkt != s.mandate.jkt {
      assert r.session.chain == s.chain && r.session.acks == s.acks && r.answer.Err?;
    } else {
      var watched := T.Watch(u.maxAge, s.monitor, w.keeper, call.caller.value.agentID, call.got, call.now);
      var s1 := s.(monitor := watched.monitor);
      P.WatchCodes(u, s, w.keeper, call.caller.value.agentID, call.got, call.now);
      if watched.refused.None? {
        assert r == T.RelayChecked(u.h, s1, watched.keeper, tok, call.uplink);
        CheckedFiled(u.h, s1, watched.keeper, tok, call.uplink);
      }
    }
  }

  lemma FiledIsTrue(h: Chain.Hasher, s: T.SessionState, tok: CommandToken, reply: T.UplinkReply, r: T.Relayed,
                    accepted: seq<CommandToken>, more: seq<CommandToken>)
    requires RelayFiled(h, s, tok, reply, r) && accepted <= more
    requires TrueAcks(h, accepted, Chain.Entries(s.chain.records), s.acks)
    requires r.answer.Ok? && r.answer.value.result.Accepted? ==> tok in more
    ensures TrueAcks(h, more, Chain.Entries(r.session.chain.records), r.session.acks)
  {
    TrueAcksGrow(h, accepted, Chain.Entries(s.chain.records), s.acks, more, Chain.Entries(r.session.chain.records));
  }

  // --------------------------------------------------------------- each step

  /** Every step of the spacecraft only adds to what it accepted. */
  lemma FlightKeeps(u: P.Setup, c: C.Craft, w: World, tok: CommandToken)
    requires Inv(u, w)
    ensures Inv(u, Flown(c, w, tok))
  {
    var next := Flown(c, w, tok);
    FlownGrows(c, w, tok);
    TrueAcksGrow(u.h, w.accepted, P.StationEntries(w.pass), w.pass.station.acks, next.accepted, P.StationEntries(w.pass));
    TrueAcksGrow(u.h, w.accepted, P.OpsEntries(w.pass), w.pass.ops.acks, next.accepted, P.OpsEntries(w.pass));
  }

  /** What one relay does to the pass, and that its ack is true. */
  lemma RelayKeeps(u: P.Setup, w: World, tok: CommandToken, call: T.Call, byOps: bool)
    requires Inv(u, w) && P.Possible(w.pass, if byOps then P.Deliver(tok, call) else P.Stranger(tok, call))
    requires call.uplink == T.NoReply || call.uplink.ack.result.Rejected? || tok in w.accepted ||
             P.AtStation(u, w.pass, tok, call).uplinked.None?
    ensures Inv(u, w.(pass := P.Step(u, w.pass, if byOps then P.Deliver(tok, call) else P.Stranger(tok, call))))
  {
    var e := if byOps then P.Deliver(tok, call) else P.Stranger(tok, call);
    var r, next := P.AtStation(u, w.pass, tok, call), P.Step(u, w.pass, e);
    P.StepKeeps(u, w.pass, e);
    AtStationFiled(u, w.pass, tok, call);
    FiledIsTrue(u.h, w.pass.station, tok, call.uplink, r, w.accepted, w.accepted);
    RelayStepIs(u, w.pass, tok, call, byOps);
  }

  lemma RelayStepIs(u: P.Setup, w: P.World, tok: CommandToken, call: T.Call, byOps: bool)
    requires P.Possible(w, if byOps then P.Deliver(tok, call) else P.Stranger(tok, call))
    ensures var r, next := P.AtStation(u, w, tok, call), P.Step(u, w, if byOps then P.Deliver(tok, call) else P.Stranger(tok, call));
            && next.station == r.session && next.ops == w.ops && next.pending == w.pending
            && next.answer == if byOps && w.pending.Some? && w.pending.value.token == tok then Some(P.ReplyOf(r.answer)) else w.answer
  {
  }

  lemma RelayStepKeeps(u: P.Setup, c: C.Craft, w: World, e: Event)
    requires Inv(u, w) && e.Relay? && Possible(c, w, e)
    ensures Inv(u, Step(u, c, w, e))
  {
    var call := e.call.(uplink := Heard(c, w, e.tok, e.up, e.down));
    var sent := P.AtStation(u, w.pass, e.tok, call).uplinked.Some?;
    HeardIsTrue(c, w, e.tok, e.up, e.down);
    var flown := if sent && e.up then Flown(c, w, e.tok) else w;
    if sent && e.up {
      FlightKeeps(u, c, w, e.tok);
    }
    RelayKeeps(u, flown, e.tok, call, e.byOps);
  }

  /** The end of a Send: Ops files the ack for the entry it chains. */
  lemma FinishTrue(u: P.Setup, w: World, reply: O.Reply)
    requires Inv(u, w) && w.pass.pending.Some?
    requires reply.Answer? && reply.ack.result.Accepted? ==> w.pass.pending.value.token in w.accepted
    ensures var p := O.Finish(u.h, w.pass.ops, w.pass.pending.value, reply).0;
            TrueAcks(u.h, w.accepted, Chain.Entries(p.chain.records), p.acks)
  {
    var b := w.pass.pending.value;
    var p := O.Finish(u.h, w.pass.ops, b, reply).0;
    if !(reply.Broke? && O.RefusedBeforeRelay(reply.err)) {
      O.FinishChains(u.h, w.pass.ops, b, reply);
      var entries := Chain.Entries(p.chain.records);
      assert entries[|P.OpsEntries(w.pass)|] == O.EntryOf(u.h, b);
      TrueAcksGrow(u.h, w.accepted, P.OpsEntries(w.pass), w.pass.ops.acks, w.accepted, entries);
      if b.token in w.accepted {
        assert b.token.payload == b.command && T.EntryOf(u.h, b.token.payload, b.token) == O.EntryOf(u.h, b);
        assert Flew(u.h, w.accepted, entries, b.command.counter);
      }
    }
  }

  lemma GroundQuiet(u: P.Setup, w: P.World, e: P.Event)
    requires P.Possible(w, e) && !e.Deliver? && !e.Stranger? && !e.Receive? && !e.GiveUp?
    ensures var next := P.Step(u, w, e);
            && next.station.chain == w.station.chain && next.station.acks == w.station.acks
            && next.ops.chain == w.ops.chain && next.ops.acks == w.ops.acks
            && (next.pending == w.pending || w.pending.None?)
            && (next.answer == w.answer || next.answer.None? || next.answer.value.Broke?)
  {
  }

  lemma GroundKeeps(u: P.Setup, w: World, e: P.Event)
    requires Inv(u, w) && P.Possible(w.pass, e) && !e.Deliver? && !e.Stranger?
    ensures Inv(u, w.(pass := P.Step(u, w.pass, e)))
  {
    P.StepKeeps(u, w.pass, e);
    if e.Receive? {
      FinishTrue(u, w, w.pass.answer.value);
    } else if e.GiveUp? {
      FinishTrue(u, w, O.Broke(e.err));
    } else {
      GroundQuiet(u, w.pass, e);
    }
  }

  lemma {:induction false} RunKeeps(u: P.Setup, c: C.Craft, w: World, es: seq<Event>, end: World)
    requires Inv(u, w) && Run(u, c, w, es, end)
    ensures Inv(u, end)
    decreases |es|
  {
    if es != [] {
      match es[0] {
        case Relay(_, _, _, _, _) => RelayStepKeeps(u, c, w, es[0]);
        case OnGround(pe) => GroundKeeps(u, w, pe);
        case Elsewhere(tok) => FlightKeeps(u, c, w, tok);
        case Restart =>
      }
      RunKeeps(u, c, Step(u, c, w, es[0]), es[1..], end);
    }
  }

  /** In every run, through any losses, strangers, other stations and restarts: an Accepted ack held by Ops or by the
      station for a counter means the spacecraft accepted the very token that side chained under that counter. */
  lemma AcceptedAcksAreTrue(u: P.Setup, c: C.Craft, w: World, b: S.Booking, m: Mandate, es: seq<Event>, end: World)
    requires P.Init(w.pass, b, m) && 0 <= P.Drawn(u, w.pass) && w.accepted == [] && Run(u, c, w, es, end)
    ensures TrueAcks(u.h, end.accepted, P.OpsEntries(end.pass), end.pass.ops.acks)
    ensures TrueAcks(u.h, end.accepted, P.StationEntries(end.pass), end.pass.station.acks)
  {
    P.InitInv(u, w.pass, b, m);
    RunKeeps(u, c, w, es, end);
  }
}
