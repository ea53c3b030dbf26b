/** The simulated satellite (internal/spacecraft). */
module Spacecraft {
  import opened Errs
  import opened Schema
  import opened Decimal
  import Chain
  import S = Store

  datatype CraftState = CraftState(mode: string, battery: int, beacon: int, lastCmd: int)

  /** What the spacecraft reads in a command's body. */
  datatype Body = Body(op: string, mode: string, beacon: int)

  /** Its NORAD ID and Ops keys, how it reads a body, and the digest of its state. */
  datatype Craft = Craft(norad: int, opsKeys: set<Key>, decode: string -> Option<Body>, telemetry: CraftState -> Chain.Digest)

  function CounterName(norad: int): string { "spacecraft:" + FormatInt(norad) }

  function New(c: Craft, st: S.StoreState): CraftState {
    CraftState("nominal", 87, 30, S.Counter(st, CounterName(c.norad)))
  }

  function Apply(s: CraftState, body: Option<Body>): CraftState {
    match body
    case None => s
    case Some(b) =>
      var s1 :=
        if b.op == "set_mode" && (b.mode == "nominal" || b.mode == "safe") then s.(mode := b.mode)
        else if b.op == "set_beacon" && 5 <= b.beacon <= 600 then s.(beacon := b.beacon)
        else s;
      if s1.battery > 20 then s1.(battery := s1.battery - 1) else s1
  }

  function ReasonText(code: Code): string {
    match code
    case CommandRejectedNorad => "COMMAND_REJECTED:norad_id"
    case CommandRejectedCounter => "COMMAND_REJECTED:counter"
    case _ => "COMMAND_REJECTED:signature"
  }

  function RejectedAck(counter: int, code: Code): Ack {
    Ack(if counter < 1 then 1 else counter, Rejected, "", ReasonText(code))
  }

  datatype Uplinked = Uplinked(store: S.StoreState, state: CraftState, reply: Result<Ack>, accepted: bool)

  function Uplink(c: Craft, st: S.StoreState, s: CraftState, tok: CommandToken): Uplinked {
    match VerifyCommand(tok, c.opsKeys)
    case Err(code) =>
      (match PeekCommand(tok)
       case Err(_) => Uplinked(st, s, Err(code), false)
       case Ok(peek) => Uplinked(st, s, Ok(RejectedAck(peek.counter, code)), false))
    case Ok(cmd) =>
      if cmd.norad != c.norad then Uplinked(st, s, Ok(RejectedAck(cmd.counter, CommandRejectedNorad)), false)
      else
        var (next, advanced) := S.Advance(st, CounterName(c.norad), cmd.counter);
        if !advanced then Uplinked(st, s, Ok(RejectedAck(cmd.counter, CommandRejectedCounter)), false)
        else
          var s1 := Apply(s.(lastCmd := cmd.counter), c.decode(cmd.body));
          Uplinked(next, s1, Ok(Ack(cmd.counter, Accepted, c.telemetry(s1), "")), true)
  }

  class Spacecraft {
    const craft: Craft
    const store: S.Store
    var mode: string
    var battery: int
    var beacon: int
    var lastCmd: int

    function State(): CraftState
      reads this
    {
      CraftState(mode, battery, beacon, lastCmd)
    }

    constructor (craft: Craft, store: S.Store)
      ensures this.craft == craft && this.store == store && State() == New(craft, store.State())
    {
      this.craft, this.store := craft, store;
      mode, battery, beacon, lastCmd := "nominal", 87, 30, S.Counter(store.State(), CounterName(craft.norad));
    }

    method ApplyBody(body: Option<Body>)
      modifies this
      ensures State() == Apply(old(State()), body)
    {
      if body.None? {
        return;
      }
      var b := body.value;
      if b.op == "set_mode" {
        if b.mode == "nominal" || b.mode == "safe" {
          mode := b.mode;
        }
      } else if b.op == "set_beacon" {
        if b.beacon >= 5 && b.beacon <= 600 {
          beacon := b.beacon;
        }
      }
      if battery > 20 {
        battery := battery - 1;
      }
    }

    method Receive(tok: CommandToken) returns (reply: Result<Ack>)
      modifies this, store
      ensures var u := Uplink(craft, old(store.State()), old(State()), tok);
              store.State() == u.store && State() == u.state && reply == u.reply
    {
      var cmd := VerifyCommand(tok, craft.opsKeys);
      if cmd.Err? {
        var peek := PeekCommand(tok);
        if peek.Err? {
          return Err(cmd.code);
        }
        return Ok(RejectedAck(peek.value.counter, cmd.code));
      }
      if cmd.value.norad != craft.norad {
        return Ok(RejectedAck(cmd.value.counter, CommandRejectedNorad));
      }
      var advanced := store.AdvanceCounter(CounterName(craft.norad), cmd.value.counter);
      if !advanced {
        return Ok(RejectedAck(cmd.value.counter, CommandRejectedCounter));
      }
      lastCmd := cmd.value.counter;
      ApplyBody(craft.decode(cmd.value.body));
      reply := Ok(Ack(cmd.value.counter, Accepted, craft.telemetry(State()), ""));
    }
  }

  /** Every token a station can read gets a valid ack with that command's own counter, accepted or not. */
  lemma AckNamesItsCommand(c: Craft, st: S.StoreState, s: CraftState, tok: CommandToken)
    ensures PeekCommand(tok).Ok? <==> Uplink(c, st, s, tok).reply.Ok?
    ensures PeekCommand(tok).Ok? ==>
              var ack := Uplink(c, st, s, tok).reply.value;
              ack.Valid() && ack.counter == PeekCommand(tok).value.counter &&
              (ack.result.Accepted? <==> Uplink(c, st, s, tok).accepted)
  {
    RejectionsNamed();
  }

  /** A new spacecraft is nominal, at 87 % with a 30 s beacon, and remembers only its counter. */
  lemma NewCraft(c: Craft, st: S.StoreState)
    ensures var s := New(c, st);
            s.mode == "nominal" && s.battery == 87 && s.beacon == 30 &&
            s.lastCmd == if CounterName(c.norad) in st.counters then st.counters[CounterName(c.norad)] else 0
  {
  }

  /** The command sets that mode, and it is one of the two there are. */
  predicate SetsMode(b: Option<Body>) { b.Some? && b.value.op == "set_mode" && b.value.mode in {"nominal", "safe"} }

  /** The command sets that beacon, within 5 to 600 seconds. */
  predicate SetsBeacon(b: Option<Body>) { b.Some? && b.value.op == "set_beacon" && 5 <= b.value.beacon <= 600 }

  /** When a command is accepted, and what it leaves. */
  lemma UplinkExactly(c: Craft, st: S.StoreState, s: CraftState, tok: CommandToken)
    ensures var u := Uplink(c, st, s, tok);
            var name := CounterName(c.norad);
            && (u.accepted <==>
                  && tok.Jws? && tok.payload.Wire() && tok.key in c.opsKeys && tok.payload.norad == c.norad
                  && (name in st.counters ==> st.counters[name] < tok.payload.counter))
            && (!u.accepted ==> u.state == s && u.store == st)
            && (u.accepted ==>
                  var body := c.decode(tok.payload.body);
                  && u.store == st.(counters := st.counters[name := tok.payload.counter])
                  && u.state.lastCmd == tok.payload.counter
                  && u.state.mode == (if SetsMode(body) then body.value.mode else s.mode)
                  && u.state.beacon == (if SetsBeacon(body) then body.value.beacon else s.beacon)
                  && u.state.battery == (if body.Some? && s.battery > 20 then s.battery - 1 else s.battery)
                  && u.reply == Ok(Ack(tok.payload.counter, Accepted, c.telemetry(u.state), "")))
  {
  }

  /** Which reason a refused command gets. */
  lemma RejectionExactly(c: Craft, st: S.StoreState, s: CraftState, tok: CommandToken)
    requires !Uplink(c, st, s, tok).accepted && tok.Jws? && tok.payload.Wire()
    ensures Uplink(c, st, s, tok).reply ==
              Ok(Ack(tok.payload.counter, Rejected, "",
                     if tok.key !in c.opsKeys then "COMMAND_REJECTED:signature"
                     else if tok.payload.norad != c.norad then "COMMAND_REJECTED:norad_id"
                     else "COMMAND_REJECTED:counter"))
  {
    if tok.key !in c.opsKeys {
      assert VerifyCommand(tok, c.opsKeys) == Err(CommandRejectedSignature);
    } else {
      assert VerifyCommand(tok, c.opsKeys) == Ok(tok.payload);
    }
  }

  /** Each spacecraft has a counter of its own. */
  lemma OwnCounter(m: int, n: int)
    ensures CounterName(m) == CounterName(n) <==> m == n
  {
    var a, b := CounterName(m), CounterName(n);
    assert a[11..] == FormatInt(m) && b[11..] == FormatInt(n);
    if a == b {
      FormatIntInjective(m, n);
    }
  }

  lemma RejectionsNamed()
    ensures ValidName("COMMAND_REJECTED:norad_id") && ValidName("COMMAND_REJECTED:counter")
    ensures ValidName("COMMAND_REJECTED:signature")
  {
  }
}

/** Ops signing, any relay behaviour at all, and a spacecraft that may restart. */
module Uplinks {
  import opened Errs
  import opened Schema
  import opened Decimal
  import opened Sequences
  import opened Commander
  import C = Spacecraft
  import S = Store
  import Chain

  /** `log` is what Ops ever signed, in signing order; `accepted` what the spacecraft accepted, in order. */
  datatype World = World(ops: S.StoreState, log: seq<CommandToken>, craftStore: S.StoreState, craft: C.CraftState,
                         accepted: seq<CommandToken>)

  datatype Event =
    | Sign(norad: int, mandateID: string, class_: string, body: string, issuedAt: int, raw: string)
    | Deliver(tok: CommandToken)
    | Restart

  /** Anyone may deliver anything, any number of times, except that nobody forges the Ops signature. */
  predicate Possible(key: Key, w: World, e: Event) {
    e.Deliver? && e.tok.Jws? && e.tok.key == key ==> e.tok in w.log
  }

  function Step(c: C.Craft, key: Key, w: World, e: Event): World {
    match e
    case Sign(norad, mandateID, class_, body, issuedAt, raw) =>
      var (ops, built) := Build(Signer(norad, key), w.ops, mandateID, class_, body, issuedAt, raw);
      w.(ops := ops, log := if built.Some? then w.log + [built.value.token] else w.log)
    case Deliver(tok) =>
      var u := C.Uplink(c, w.craftStore, w.craft, tok);
      w.(craftStore := u.store, craft := u.state, accepted := if u.accepted then w.accepted + [tok] else w.accepted)
    case Restart => w.(craft := C.New(c, w.craftStore))
  }

  predicate Run(c: C.Craft, key: Key, w: World, es: seq<Event>, end: World)
    decreases |es|
  {
    if es == [] then w == end
    else Possible(key, w, es[0]) && Run(c, key, Step(c, key, w, es[0]), es[1..], end)
  }

  ghost predicate Init(c: C.Craft, w: World) {
    w.log == [] && w.accepted == []
  }

  predicate SignedFor(t: CommandToken, norad: int) { t.Jws? && t.payload.norad == norad && t.payload.Wire() }

  /** Counters grow along the log for each satellite. */
  ghost predicate LogOrdered(norad: int, log: seq<CommandToken>, top: int) {
    && (forall i :: 0 <= i < |log| && SignedFor(log[i], norad) ==> log[i].payload.counter <= top)
    && (forall i, j :: 0 <= i < j < |log| && SignedFor(log[i], norad) && SignedFor(log[j], norad) ==>
          log[i].payload.counter < log[j].payload.counter)
  }

  /** Counters grow along the accepted list too, and the persisted counter is at least the last of them. */
  ghost predicate Ordered(c: C.Craft, key: Key, w: World) {
    && LogOrdered(c.norad, w.log, S.Counter(w.ops, CounterName(c.norad)))
    && (forall i :: 0 <= i < |w.accepted| ==>
          SignedFor(w.accepted[i], c.norad) && w.accepted[i] in w.log &&
          w.accepted[i].payload.counter <= S.Counter(w.craftStore, C.CounterName(c.norad)))
    && (forall i, j :: 0 <= i < j < |w.accepted| ==> w.accepted[i].payload.counter < w.accepted[j].payload.counter)
    && (w.accepted != [] ==> C.CounterName(c.norad) in w.craftStore.counters)
  }

  lemma CounterNamesDiffer(a: nat, b: nat)
    ensures CounterName(a) == CounterName(b) ==> a == b
  {
    if CounterName(a) == CounterName(b) {
      Chain.CancelPrefix("cmd:", FormatInt(a), FormatInt(b));
      FormatInjective(a, b);
    }
  }

  lemma SignKeepsOrder(c: C.Craft, key: Key, w: World, e: Event)
    requires Ordered(c, key, w) && e.Sign?
    ensures Ordered(c, key, Step(c, key, w, e))
  {
    BuildDrawsNext(Signer(e.norad, key), w.ops, e.mandateID, e.class_, e.body, e.issuedAt, e.raw);
    if e.norad > 0 && c.norad > 0 {
      CounterNamesDiffer(e.norad, c.norad);
    }
    var next := Step(c, key, w, e);
    assert LogOrdered(c.norad, next.log, S.Counter(next.ops, CounterName(c.norad)));
  }

  /** What the spacecraft accepts is signed for it, and moves its persisted counter up to the command's own. */
  lemma AcceptanceAdvances(c: C.Craft, st: S.StoreState, s: C.CraftState, tok: CommandToken)
    ensures var u := C.Uplink(c, st, s, tok);
            var name := C.CounterName(c.norad);
            if u.accepted then
              && SignedFor(tok, c.norad) && tok.key in c.opsKeys
              && (name in st.counters ==> st.counters[name] < tok.payload.counter)
              && name in u.store.counters && u.store.counters[name] == tok.payload.counter
            else u.store == st
  {
  }

  lemma DeliverKeepsOrder(c: C.Craft, key: Key, w: World, e: Event)
    requires Ordered(c, key, w) && e.Deliver? && Possible(key, w, e) && c.opsKeys == {key}
    ensures Ordered(c, key, Step(c, key, w, e))
  {
    AcceptanceAdvances(c, w.craftStore, w.craft, e.tok);
    var u := C.Uplink(c, w.craftStore, w.craft, e.tok);
    if u.accepted {
      AcceptedKeepsOrder(c, key, w, e.tok, u.store, u.state);
    }
  }

  lemma AcceptedKeepsOrder(c: C.Craft, key: Key, w: World, tok: CommandToken, store: S.StoreState, craft: C.CraftState)
    requires Ordered(c, key, w) && SignedFor(tok, c.norad) && tok in w.log
    requires var name := C.CounterName(c.norad);
             && (name in w.craftStore.counters ==> w.craftStore.counters[name] < tok.payload.counter)
             && name in store.counters && store.counters[name] == tok.payload.counter
    ensures Ordered(c, key, w.(craftStore := store, craft := craft, accepted := w.accepted + [tok]))
  {
    var top := S.Counter(w.craftStore, C.CounterName(c.norad));
    assert w.accepted != [] ==> top < tok.payload.counter;
    var more := w.accepted + [tok];
    assert forall i :: 0 <= i < |more| ==> more[i] == if i < |w.accepted| then w.accepted[i] else tok;
  }

  lemma {:induction false} AlwaysOrdered(c: C.Craft, key: Key, w: World, es: seq<Event>, end: World)
    requires Ordered(c, key, w) && Run(c, key, w, es, end) && c.opsKeys == {key}
    ensures Ordered(c, key, end)
    decreases |es|
  {
    if es != [] {
      match es[0] {
        case Sign(_, _, _, _, _, _) => SignKeepsOrder(c, key, w, es[0]);
        case Deliver(_) => DeliverKeepsOrder(c, key, w, es[0]);
        case Restart =>
      }
      AlwaysOrdered(c, key, Step(c, key, w, es[0]), es[1..], end);
    }
  }

  lemma OrderedIsSubsequence(c: C.Craft, key: Key, w: World)
    requires Ordered(c, key, w)
    ensures Subsequence(w.accepted, w.log)
  {
    var a, b := w.accepted, w.log;
    forall i, j, p, q | 0 <= i < j < |a| && 0 <= p < |b| && 0 <= q < |b| && b[p] == a[i] && b[q] == a[j] ensures p < q {
      assert SignedFor(b[p], c.norad) && SignedFor(b[q], c.norad);
      assert a[i].payload.counter < a[j].payload.counter;
    }
    OrderedSubset(a, b);
  }

  function CounterOf(t: CommandToken): int { if t.Jws? then t.payload.counter else 0 }

  /** Whatever relays reorder, repeat, drop or invent, and however often the spacecraft restarts, what it accepts
      is a subsequence of what Ops signed, with strictly increasing counters, so nothing is accepted twice. */
  lemma AcceptedInSigningOrder(c: C.Craft, key: Key, w: World, es: seq<Event>, end: World)
    requires Init(c, w) && Run(c, key, w, es, end) && c.opsKeys == {key}
    ensures Subsequence(end.accepted, end.log)
    ensures forall i, j :: 0 <= i < j < |end.accepted| ==> CounterOf(end.accepted[i]) < CounterOf(end.accepted[j])
  {
    AlwaysOrdered(c, key, w, es, end);
    OrderedIsSubsequence(c, key, end);
  }

  /** Some event asked for exactly that command. */
  ghost predicate Asked(es: seq<Event>, t: CommandToken) {
    exists i :: 0 <= i < |es| && IsOrder(es[i], t)
  }

  predicate IsOrder(e: Event, t: CommandToken) {
    && e.Sign? && t.Jws? && t.raw == e.raw && t.payload.norad == e.norad && t.payload.mandateID == e.mandateID
    && t.payload.class_ == e.class_ && t.payload.body == e.body && t.payload.issuedAt == e.issuedAt
  }

  lemma StepAsked(c: C.Craft, key: Key, w: World, e: Event, t: CommandToken)
    requires t.Jws? && t in Step(c, key, w, e).log
    ensures t in w.log || IsOrder(e, t)
  {
    if e.Sign? {
      BuildDrawsNext(Signer(e.norad, key), w.ops, e.mandateID, e.class_, e.body, e.issuedAt, e.raw);
    }
  }

  lemma {:induction false} LogAsked(c: C.Craft, key: Key, w: World, es: seq<Event>, end: World, t: CommandToken)
    requires Run(c, key, w, es, end) && t.Jws? && t in end.log
    ensures t in w.log || Asked(es, t)
    decreases |es|
  {
    if es != [] {
      LogAsked(c, key, Step(c, key, w, es[0]), es[1..], end, t);
      if t in Step(c, key, w, es[0]).log {
        StepAsked(c, key, w, es[0], t);
        assert IsOrder(es[0], t) ==> Asked(es, t);
      } else {
        var i :| 0 <= i < |es[1..]| && IsOrder(es[1..][i], t);
        assert IsOrder(es[i + 1], t);
      }
    }
  }

  /** Every command the spacecraft accepts was asked of Ops, with that satellite, mandate, class, body and time. */
  lemma AcceptedWasAsked(c: C.Craft, key: Key, w: World, es: seq<Event>, end: World, t: CommandToken)
    requires Init(c, w) && Run(c, key, w, es, end) && c.opsKeys == {key} && t in end.accepted
    ensures Asked(es, t)
  {
    AlwaysOrdered(c, key, w, es, end);
    LogAsked(c, key, w, es, end, t);
  }
}
