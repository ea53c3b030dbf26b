/** Mission Ops' side of a pass (internal/ops). */
module Ops {
  import opened Errs
  import opened Schema
  import opened Commander
  import Chain
  import Evidence
  import S = Store

  /** What came back from the station: an ack, or an error (named by the station, or not). */
  datatype Reply = Answer(ack: Ack) | Broke(err: Error)

  /** What Send returns. */
  datatype Sent = Acked(ack: Ack) | Failed(err: Error)

  datatype PassState = PassState(chain: Chain.ChainState, acks: map<int, Ack>, missing: seq<int>,
                                 queue: seq<(string, string)>, cut: Option<Code>)

  const START := PassState(Chain.EMPTY, map[], [], [], None)

  /** A named rejection other than these four was issued before the command reached the spacecraft. */
  predicate RefusedBeforeRelay(err: Error) {
    err.Named? && err.code !in {AckMissing, AckParseError, Unavailable, Internal}
  }

  function EntryOf(h: Chain.Hasher, b: Built): Chain.Entry {
    Chain.Entry(b.command.counter, b.command.mandateID, b.command.class_, h.token(b.token.raw))
  }

  function Cut(p: PassState, code: Code): PassState { p.(queue := [], cut := Some(code)) }

  function Enqueue(p: PassState, class_: string, body: string): PassState {
    if p.cut.None? then p.(queue := p.queue + [(class_, body)]) else p
  }

  /** Send up to the relay call. */
  datatype Begun = NotSent(store: S.StoreState, err: Error) | InFlight(store: S.StoreState, built: Built)

  function Begin(p: PassState, c: Signer, st: S.StoreState, mandateID: string, class_: string, body: string,
                 issuedAt: int, raw: string): Begun
  {
    if p.cut.Some? then NotSent(st, Named(p.cut.value))
    else
      var (next, built) := Build(c, st, mandateID, class_, body, issuedAt, raw);
      if built.None? then NotSent(next, Plain) else InFlight(next, built.value)
  }

  /** Send from the relay's return on: a refusal before the relay chains nothing, anything else is chained. */
  function Finish(h: Chain.Hasher, p: PassState, b: Built, reply: Reply): (PassState, Sent) {
    if reply.Broke? && RefusedBeforeRelay(reply.err) then (p, Failed(reply.err))
    else match Chain.Append(h, p.chain, EntryOf(h, b))
      case Err(code) => (p, Failed(Named(code)))
      case Ok(chain) =>
        var p1 := p.(chain := chain);
        var err :=
          if reply.Broke? then Some(reply.err)
          else if !reply.ack.Valid() then Some(Named(AckParseError))
          else if reply.ack.counter != b.command.counter then Some(Named(AckMissing))
          else None;
        if err.Some? then (p1.(missing := p.missing + [b.command.counter]), Failed(err.value))
        else (p1.(acks := p.acks[b.command.counter := reply.ack]), Acked(reply.ack))
  }

  function SendOne(h: Chain.Hasher, c: Signer, mandateID: string, p: PassState, st: S.StoreState, class_: string,
                   body: string, issuedAt: int, raw: string, station: CommandToken -> Reply): (PassState, S.StoreState, Sent)
  {
    match Begin(p, c, st, mandateID, class_, body, issuedAt, raw)
    case NotSent(next, err) => (p, next, Failed(err))
    case InFlight(next, built) =>
      var (p1, sent) := Finish(h, p, built, station(built.token));
      (p1, next, sent)
  }

  datatype Flushed = Flushed(pass: PassState, store: S.StoreState, acks: seq<Ack>, err: Option<Error>)

  /** Sends the queue in order until it is empty or a send fails, adding to the acks already out; the i-th send has
      its own time and token text. */
  function FlushFrom(h: Chain.Hasher, c: Signer, mandateID: string, p: PassState, st: S.StoreState, out: seq<Ack>,
                     at: nat -> int, raw: nat -> string, station: CommandToken -> Reply): Flushed
    decreases |p.queue|
  {
    if p.queue == [] then Flushed(p, st, out, None)
    else
      var q := p.queue[0];
      var (p1, st1, sent) :=
        SendOne(h, c, mandateID, p.(queue := p.queue[1..]), st, q.0, q.1, at(|out|), raw(|out|), station);
      match sent
      case Failed(err) => Flushed(p1, st1, out, Some(err))
      case Acked(ack) => FlushFrom(h, c, mandateID, p1, st1, out + [ack], at, raw, station)
  }

  class Pass {
    const signer: Signer
    const mandateID: string
    const store: S.Store
    const chain: Chain.Chain
    var acks: map<int, Ack>
    var missing: seq<int>
    var queue: seq<(string, string)>
    var cut: Option<Code>

    function State(): PassState
      reads this, chain
    {
      PassState(chain.State(), acks, missing, queue, cut)
    }

    constructor (signer: Signer, mandateID: string, store: S.Store)
      ensures State() == START && fresh(chain)
      ensures this.signer == signer && this.mandateID == mandateID && this.store == store
    {
      this.signer, this.mandateID, this.store := signer, mandateID, store;
      chain := new Chain.Chain();
      acks, missing, queue, cut := map[], [], [], None;
    }

    /** The cut handler: the queue is discarded and no later command is sent. */
    method OnCut(code: Code)
      modifies this
      ensures State() == Cut(old(State()), code)
    {
      queue, cut := [], Some(code);
    }

    method Queue(class_: string, body: string)
      modifies this
      ensures State() == Enqueue(old(State()), class_, body)
    {
      if cut.None? {
        queue := queue + [(class_, body)];
      }
    }

    method FinishSend(h: Chain.Hasher, b: Built, reply: Reply) returns (sent: Sent)
      modifies this, chain
      ensures (State(), sent) == Finish(h, old(State()), b, reply)
    {
      if reply.Broke? && RefusedBeforeRelay(reply.err) {
        return Failed(reply.err);
      }
      var appended := chain.AppendRecord(h, EntryOf(h, b));
      if appended.Err? {
        return Failed(Named(appended.code));
      }
      if reply.Answer? && reply.ack.Valid() && reply.ack.counter == b.command.counter {
        acks := acks[b.command.counter := reply.ack];
        return Acked(reply.ack);
      }
      missing := missing + [b.command.counter];
      sent := Failed(if reply.Broke? then reply.err
                     else if !reply.ack.Valid() then Named(AckParseError) else Named(AckMissing));
    }

    method Send(h: Chain.Hasher, class_: string, body: string, issuedAt: int, raw: string, station: CommandToken -> Reply)
      returns (sent: Sent)
      modifies this, chain, store
      ensures (State(), store.State(), sent) ==
              SendOne(h, signer, mandateID, old(State()), old(store.State()), class_, body, issuedAt, raw, station)
    {
      if cut.Some? {
        return Failed(Named(cut.value));
      }
      var n := store.DrawCounter(CounterName(signer.norad));
      var cmd := Command(signer.norad, n, mandateID, class_, body, issuedAt);
      var tok := SignCommand(cmd, signer.key, raw);
      if tok.None? {
        return Failed(Plain);
      }
      sent := FinishSend(h, Built(tok.value, cmd), station(tok.value));
    }

    method Flush(h: Chain.Hasher, at: nat -> int, raw: nat -> string, station: CommandToken -> Reply)
      returns (out: seq<Ack>, err: Option<Error>)
      modifies this, chain, store
      ensures Flushed(State(), store.State(), out, err) ==
              FlushFrom(h, signer, mandateID, old(State()), old(store.State()), [], at, raw, station)
    {
      out := [];
      while queue != []
        invariant FlushFrom(h, signer, mandateID, old(State()), old(store.State()), [], at, raw, station) ==
                  FlushFrom(h, signer, mandateID, State(), store.State(), out, at, raw, station)
        decreases |queue|
      {
        var q := queue[0];
        queue := queue[1..];
        var sent := Send(h, q.0, q.1, at(|out|), raw(|out|), station);
        if sent.Failed? {
          return out, Some(sent.err);
        }
        out := out + [sent.ack];
      }
      err := None;
    }

    method Show() returns (e: Evidence.Evidence)
      ensures e == Evidence.Evidence(chain.head, chain.records, Evidence.AcksOf(chain.records, acks), missing, cut)
    {
      var held := Evidence.CollectAcks(chain.records, acks);
      e := Evidence.Evidence(chain.head, chain.records, held, missing, cut);
    }
  }

  // ---------------------------------------------------------- what sends do

  /** What Ops has chained after a Send that was not refused. */
  lemma FinishChains(h: Chain.Hasher, p: PassState, b: Built, reply: Reply)
    requires Chain.Chained(h, p.chain) && EntryOf(h, b).Valid() && p.chain.counter < b.command.counter
    requires !(reply.Broke? && RefusedBeforeRelay(reply.err))
    ensures var next := Finish(h, p, b, reply).0;
            && Chain.Chained(h, next.chain) && next.chain.counter == b.command.counter
            && Chain.Entries(next.chain.records) == Chain.Entries(p.chain.records) + [EntryOf(h, b)]
  {
    Chain.AppendChained(h, p.chain, EntryOf(h, b));
  }

  /** The chain is well formed, below the counter to be drawn, and above every ack. */
  ghost predicate Ready(h: Chain.Hasher, c: Signer, p: PassState, st: S.StoreState) {
    && Chain.Chained(h, p.chain) && p.chain.counter <= S.Counter(st, CounterName(c.norad))
    && forall k :: k in p.acks ==> k <= p.chain.counter
  }

  /** The ack for the record at that place of the chain. */
  ghost predicate AckFor(r: PassState, place: int, a: Ack, class_: string) {
    && 0 <= place < |r.chain.records| && r.chain.records[place].counter == a.counter
    && r.chain.records[place].class_ == class_ && a.counter in r.acks && r.acks[a.counter] == a
  }

  /** From p to r, these acks were filed, and no others, each for the next record chained; those before are kept. */
  ghost predicate Filed(p: PassState, r: PassState, acks: seq<Ack>, classes: seq<string>) {
    && |acks| <= |classes| && p.chain.records <= r.chain.records && |p.chain.records| + |acks| <= |r.chain.records|
    && (forall j :: 0 <= j < |acks| ==> AckFor(r, |p.chain.records| + j, acks[j], classes[j]))
    && (forall k :: k in p.acks ==> k in r.acks && r.acks[k] == p.acks[k])
    && |r.acks| == |p.acks| + |acks|
  }

  lemma OneFiled(p: PassState, r: PassState, rec: Chain.CommandRecord, a: Ack)
    requires r.chain.records == p.chain.records + [rec] && r.acks == p.acks[rec.counter := a]
    requires rec.counter !in p.acks && a.counter == rec.counter
    ensures Filed(p, r, [a], [rec.class_])
  {
    assert r.acks.Keys == p.acks.Keys + {rec.counter};
    assert |r.acks| == |r.acks.Keys| && |p.acks| == |p.acks.Keys|;
  }

  lemma NoneFiled(p: PassState, r: PassState, classes: seq<string>)
    requires p.chain.records <= r.chain.records && r.acks == p.acks
    ensures Filed(p, r, [], classes)
  {
  }

  lemma SendFiles(h: Chain.Hasher, c: Signer, mandateID: string, p: PassState, st: S.StoreState, class_: string, body: string,
                  issuedAt: int, raw: string, station: CommandToken -> Reply)
    requires Ready(h, c, p, st)
    ensures var (p1, st1, sent) := SendOne(h, c, mandateID, p, st, class_, body, issuedAt, raw, station);
            && Ready(h, c, p1, st1) && p1.queue == p.queue
            && Filed(p, p1, if sent.Acked? then [sent.ack] else [], [class_])
            && (sent.Acked? ==> |p1.chain.records| == |p.chain.records| + 1) && |p1.chain.records| <= |p.chain.records| + 1
  {
    BuildDrawsNext(c, st, mandateID, class_, body, issuedAt, raw);
    match Begin(p, c, st, mandateID, class_, body, issuedAt, raw) {
      case NotSent(_, _) =>
      case InFlight(_, b) => FinishFiles(h, p, b, station(b.token));
    }
  }

  lemma FinishFiles(h: Chain.Hasher, p: PassState, b: Built, reply: Reply)
    requires Chain.Chained(h, p.chain) && b.command.Valid() && p.chain.counter < b.command.counter
    requires forall k :: k in p.acks ==> k <= p.chain.counter
    ensures var (p1, sent) := Finish(h, p, b, reply);
            && Chain.Chained(h, p1.chain) && p1.chain.counter <= b.command.counter && p1.queue == p.queue
            && (forall k :: k in p1.acks ==> k <= p1.chain.counter)
            && Filed(p, p1, if sent.Acked? then [sent.ack] else [], [b.command.class_])
            && (sent.Acked? ==> |p1.chain.records| == |p.chain.records| + 1) && |p1.chain.records| <= |p.chain.records| + 1
  {
    var (p1, sent) := Finish(h, p, b, reply);
    if reply.Broke? && RefusedBeforeRelay(reply.err) {
      NoneFiled(p, p1, [b.command.class_]);
    } else {
      FinishChains(h, p, b, reply);
      var rec := Chain.Link(h, EntryOf(h, b), p.chain.head).value;
      assert p1.chain.records == p.chain.records + [rec] && rec.counter == b.command.counter;
      if sent.Acked? {
        OneFiled(p, p1, rec, sent.ack);
      } else {
        NoneFiled(p, p1, [b.command.class_]);
      }
    }
  }

  lemma FiledThen(p: PassState, p1: PassState, r: PassState, a: Ack, class_: string, acks: seq<Ack>, classes: seq<string>)
    requires Filed(p, p1, [a], [class_]) && |p1.chain.records| == |p.chain.records| + 1 && Filed(p1, r, acks, classes)
    ensures Filed(p, r, [a] + acks, [class_] + classes)
  {
    var n, all, names := |p.chain.records|, [a] + acks, [class_] + classes;
    forall j | 0 <= j < |all| ensures AckFor(r, n + j, all[j], names[j]) {
      if j == 0 {
        assert AckFor(p1, n + 0, [a][0], [class_][0]);
      } else {
        assert AckFor(r, |p1.chain.records| + (j - 1), acks[j - 1], classes[j - 1]);
      }
    }
  }

  function Classes(queue: seq<(string, string)>): (cs: seq<string>)
    ensures |cs| == |queue| && forall i :: 0 <= i < |queue| ==> cs[i] == queue[i].0
  {
    if queue == [] then [] else [queue[0].0] + Classes(queue[1..])
  }

  /** What one send was asked for. */
  datatype Order = Order(class_: string, body: string, issuedAt: int, raw: string)

  /** The record and the ack answer that order: the command signed has its class and body, this pass's mandate and the
      ack's counter; the station was given that token and answered with that ack; the record is of that token. */
  ghost predicate AnswerTo(h: Chain.Hasher, c: Signer, mandateID: string, station: CommandToken -> Reply,
                           rec: Chain.CommandRecord, a: Ack, order: Order)
  {
    var tok := SignCommand(Command(c.norad, a.counter, mandateID, order.class_, order.body, order.issuedAt), c.key, order.raw);
    && tok.Some? && station(tok.value) == Answer(a)
    && rec.ToEntry() == Chain.Entry(a.counter, mandateID, order.class_, h.token(tok.value.raw))
  }

  lemma SendAnswers(h: Chain.Hasher, c: Signer, mandateID: string, p: PassState, st: S.StoreState, o: Order,
                    station: CommandToken -> Reply)
    requires Ready(h, c, p, st)
    ensures var (p1, st1, sent) := SendOne(h, c, mandateID, p, st, o.class_, o.body, o.issuedAt, o.raw, station);
            sent.Acked? ==> |p1.chain.records| == |p.chain.records| + 1 &&
                            AnswerTo(h, c, mandateID, station, p1.chain.records[|p.chain.records|], sent.ack, o)
  {
    BuildDrawsNext(c, st, mandateID, o.class_, o.body, o.issuedAt, o.raw);
    match Begin(p, c, st, mandateID, o.class_, o.body, o.issuedAt, o.raw) {
      case NotSent(_, _) =>
      case InFlight(_, b) => FinishFiles(h, p, b, station(b.token));
    }
  }

  /** The j-th new ack of a flush answers the j-th queued command. */
  ghost predicate AnswersQueue(h: Chain.Hasher, c: Signer, mandateID: string, p: PassState, out: seq<Ack>, at: nat -> int,
                               raw: nat -> string, station: CommandToken -> Reply, r: Flushed, j: nat)
  {
    && j < |p.queue| && |p.chain.records| + j < |r.pass.chain.records| && |out| + j < |r.acks|
    && AnswerTo(h, c, mandateID, station, r.pass.chain.records[|p.chain.records| + j], r.acks[|out| + j],
                Order(p.queue[j].0, p.queue[j].1, at(|out| + j), raw(|out| + j)))
  }

  lemma AnswersOnward(h: Chain.Hasher, c: Signer, mandateID: string, p: PassState, p1: PassState, out: seq<Ack>, a: Ack,
                      at: nat -> int, raw: nat -> string, station: CommandToken -> Reply, r: Flushed, j: nat)
    requires p.queue != [] && p1.queue == p.queue[1..] && |p1.chain.records| == |p.chain.records| + 1
    requires p1.chain.records <= r.pass.chain.records && out + [a] <= r.acks
    requires j == 0 ==> AnswerTo(h, c, mandateID, station, p1.chain.records[|p.chain.records|], a,
                                 Order(p.queue[0].0, p.queue[0].1, at(|out|), raw(|out|)))
    requires j > 0 ==> AnswersQueue(h, c, mandateID, p1, out + [a], at, raw, station, r, j - 1)
    ensures AnswersQueue(h, c, mandateID, p, out, at, raw, station, r, j)
  {
    if j == 0 {
      assert r.acks[|out|] == (out + [a])[|out|] == a;
    } else {
      assert p1.queue[j - 1] == p.queue[j] && |out + [a]| + (j - 1) == |out| + j;
    }
  }

  /** What a flush from p did: it filed exactly the acks it adds, for the records it chained, in queue order and chain
      order. Without an error every queued command was chained and acked and the queue is empty; with one, the failed
      command may be chained without an ack, and the commands after it are still queued. */
  ghost predicate FlushOK(h: Chain.Hasher, c: Signer, p: PassState, out: seq<Ack>, r: Flushed) {
    && Ready(h, c, r.pass, r.store) && out <= r.acks && Filed(p, r.pass, r.acks[|out|..], Classes(p.queue))
    && |r.pass.chain.records| <= |p.chain.records| + (|r.acks| - |out|) + (if r.err.Some? then 1 else 0)
    && (r.err.None? ==>
          && r.pass.queue == [] && |r.acks| == |out| + |p.queue|
          && |r.pass.chain.records| == |p.chain.records| + |p.queue|)
    && (r.err.Some? ==> |r.acks| < |out| + |p.queue| && r.pass.queue == p.queue[|r.acks| - |out| + 1..])
  }

  /** And each of its acks answers the command queued in that place. */
  ghost predicate AllAnswer(h: Chain.Hasher, c: Signer, mandateID: string, p: PassState, out: seq<Ack>, at: nat -> int,
                            raw: nat -> string, station: CommandToken -> Reply, r: Flushed)
  {
    forall j: nat :: j < |r.acks| - |out| ==> AnswersQueue(h, c, mandateID, p, out, at, raw, station, r, j)
  }

  lemma FailedFlush(h: Chain.Hasher, c: Signer, p: PassState, p1: PassState, st1: S.StoreState, out: seq<Ack>, err: Error)
    requires p.queue != [] && Ready(h, c, p1, st1) && p1.queue == p.queue[1..]
    requires Filed(p.(queue := p.queue[1..]), p1, [], [p.queue[0].0]) && |p1.chain.records| <= |p.chain.records| + 1
    ensures FlushOK(h, c, p, out, Flushed(p1, st1, out, Some(err)))
  {
    assert out[|out|..] == [];
    FiledWhenQueued(p, p.(queue := p.queue[1..]), p1, [], [p.queue[0].0], Classes(p.queue));
  }

  lemma AllOnward(h: Chain.Hasher, c: Signer, mandateID: string, p: PassState, p1: PassState, out: seq<Ack>, a: Ack,
                  at: nat -> int, raw: nat -> string, station: CommandToken -> Reply, r: Flushed)
    requires p.queue != [] && p1.queue == p.queue[1..] && |p1.chain.records| == |p.chain.records| + 1
    requires p1.chain.records <= r.pass.chain.records && out + [a] <= r.acks
    requires AnswerTo(h, c, mandateID, station, p1.chain.records[|p.chain.records|], a,
                      Order(p.queue[0].0, p.queue[0].1, at(|out|), raw(|out|)))
    requires AllAnswer(h, c, mandateID, p1, out + [a], at, raw, station, r)
    ensures AllAnswer(h, c, mandateID, p, out, at, raw, station, r)
  {
    forall j: nat | j < |r.acks| - |out| ensures AnswersQueue(h, c, mandateID, p, out, at, raw, station, r, j) {
      if j > 0 {
        assert AnswersQueue(h, c, mandateID, p1, out + [a], at, raw, station, r, j - 1);
      }
      AnswersOnward(h, c, mandateID, p, p1, out, a, at, raw, station, r, j);
    }
  }

  lemma AckedThenFiled(p: PassState, p1: PassState, r: PassState, out: seq<Ack>, a: Ack, acks: seq<Ack>)
    requires p.queue != [] && p1.queue == p.queue[1..] && |p1.chain.records| == |p.chain.records| + 1
    requires Filed(p.(queue := p.queue[1..]), p1, [a], [p.queue[0].0]) && out + [a] <= acks
    requires Filed(p1, r, acks[|out| + 1..], Classes(p1.queue))
    ensures Filed(p, r, acks[|out|..], Classes(p.queue))
  {
    var class_ := p.queue[0].0;
    FiledWhenQueued(p, p.(queue := p.queue[1..]), p1, [a], [class_], [class_]);
    FiledThen(p, p1, r, a, class_, acks[|out| + 1..], Classes(p1.queue));
    assert acks[|out|] == (out + [a])[|out|];
    assert acks[|out|..] == [a] + acks[|out| + 1..];
    assert Classes(p.queue) == [class_] + Classes(p1.queue);
  }

  lemma AckedFlush(h: Chain.Hasher, c: Signer, p: PassState, p1: PassState, out: seq<Ack>, a: Ack, r: Flushed)
    requires p.queue != [] && p1.queue == p.queue[1..] && |p1.chain.records| == |p.chain.records| + 1
    requires Filed(p.(queue := p.queue[1..]), p1, [a], [p.queue[0].0]) && FlushOK(h, c, p1, out + [a], r)
    ensures FlushOK(h, c, p, out, r)
  {
    AckedThenFiled(p, p1, r.pass, out, a, r.acks);
  }

  /** What a flush did to the pass, and that it sent what was queued. */
  ghost predicate FlushDone(h: Chain.Hasher, c: Signer, mandateID: string, p: PassState, out: seq<Ack>, at: nat -> int,
                            raw: nat -> string, station: CommandToken -> Reply, r: Flushed)
  {
    FlushOK(h, c, p, out, r) && AllAnswer(h, c, mandateID, p, out, at, raw, station, r)
  }

  lemma DoneOnward(h: Chain.Hasher, c: Signer, mandateID: string, p: PassState, p1: PassState, out: seq<Ack>, a: Ack,
                   at: nat -> int, raw: nat -> string, station: CommandToken -> Reply, r: Flushed)
    requires p.queue != [] && p1.queue == p.queue[1..] && |p1.chain.records| == |p.chain.records| + 1
    requires Filed(p.(queue := p.queue[1..]), p1, [a], [p.queue[0].0])
    requires AnswerTo(h, c, mandateID, station, p1.chain.records[|p.chain.records|], a,
                      Order(p.queue[0].0, p.queue[0].1, at(|out|), raw(|out|)))
    requires FlushDone(h, c, mandateID, p1, out + [a], at, raw, station, r)
    ensures FlushDone(h, c, mandateID, p, out, at, raw, station, r)
  {
    AckedFlush(h, c, p, p1, out, a, r);
    AllOnward(h, c, mandateID, p, p1, out, a, at, raw, station, r);
  }

  lemma {:induction false} FlushFiles(h: Chain.Hasher, c: Signer, mandateID: string, p: PassState, st: S.StoreState,
                                      out: seq<Ack>, at: nat -> int, raw: nat -> string, station: CommandToken -> Reply)
    requires Ready(h, c, p, st)
    ensures FlushDone(h, c, mandateID, p, out, at, raw, station, FlushFrom(h, c, mandateID, p, st, out, at, raw, station))
    decreases |p.queue|
  {
    if p.queue == [] {
      assert out[|out|..] == [];
      NoneFiled(p, p, []);
    } else {
      var q, p0 := p.queue[0], p.(queue := p.queue[1..]);
      SendFiles(h, c, mandateID, p0, st, q.0, q.1, at(|out|), raw(|out|), station);
      SendAnswers(h, c, mandateID, p0, st, Order(q.0, q.1, at(|out|), raw(|out|)), station);
      var (p1, st1, sent) := SendOne(h, c, mandateID, p0, st, q.0, q.1, at(|out|), raw(|out|), station);
      if sent.Failed? {
        FailedFlush(h, c, p, p1, st1, out, sent.err);
      } else {
        var r := FlushFrom(h, c, mandateID, p1, st1, out + [sent.ack], at, raw, station);
        FlushFiles(h, c, mandateID, p1, st1, out + [sent.ack], at, raw, station);
        DoneOnward(h, c, mandateID, p, p1, out, sent.ack, at, raw, station, r);
      }
    }
  }

  /** The queue has no part in what is filed. */
  lemma FiledWhenQueued(p: PassState, p0: PassState, r: PassState, acks: seq<Ack>, classes: seq<string>, names: seq<string>)
    requires Filed(p0, r, acks, classes) && p0 == p.(queue := p0.queue) && |acks| <= |names|
    requires forall j :: 0 <= j < |acks| ==> classes[j] == names[j]
    ensures Filed(p, r, acks, names)
  {
  }

  /** So the acks a flush returns have increasing counters. */
  lemma FlushedInOrder(h: Chain.Hasher, c: Signer, mandateID: string, p: PassState, st: S.StoreState, at: nat -> int,
                       raw: nat -> string, station: CommandToken -> Reply, i: nat, j: nat)
    requires Ready(h, c, p, st) && i < j < |FlushFrom(h, c, mandateID, p, st, [], at, raw, station).acks|
    ensures var acks := FlushFrom(h, c, mandateID, p, st, [], at, raw, station).acks; acks[i].counter < acks[j].counter
  {
    FlushFiles(h, c, mandateID, p, st, [], at, raw, station);
    var r := FlushFrom(h, c, mandateID, p, st, [], at, raw, station);
    var n := |p.chain.records|;
    assert r.acks[0..] == r.acks;
    assert r.pass.chain.records[n + i].counter < r.pass.chain.records[n + j].counter;
  }

  // --------------------------------------------------------- how a send ends

  /** Ops chains a command exactly when the answer leaves open that it was relayed: any ack, an error without a code, or
      one of four codes. */
  predicate MayHaveBeenRelayed(reply: Reply) {
    match reply
    case Answer(_) => true
    case Broke(Plain) => true
    case Broke(Named(code)) => code == AckMissing || code == AckParseError || code == Unavailable || code == Internal
  }

  /** What the end of a Send does, over every answer. */
  lemma FinishExactly(h: Chain.Hasher, p: PassState, b: Built, reply: Reply)
    requires Chain.Chained(h, p.chain) && b.command.Valid() && p.chain.counter < b.command.counter
    ensures var (p1, sent) := Finish(h, p, b, reply);
            var n := b.command.counter;
            && p1.queue == p.queue && p1.cut == p.cut
            && (if MayHaveBeenRelayed(reply) then
                  Chain.Entries(p1.chain.records) == Chain.Entries(p.chain.records) +
                    [Chain.Entry(n, b.command.mandateID, b.command.class_, h.token(b.token.raw))]
                else p1 == p)
            && (sent.Acked? <==> reply.Answer? && reply.ack.Valid() && reply.ack.counter == n)
            && (sent.Acked? ==> sent.ack == reply.ack && p1.acks == p.acks[n := reply.ack] && p1.missing == p.missing)
            && (sent.Failed? ==> p1.acks == p.acks && p1.missing == p.missing + if MayHaveBeenRelayed(reply) then [n] else [])
            && (sent.Failed? ==> sent.err == match reply
                                             case Broke(err) => err
                                             case Answer(a) => Named(if a.Valid() then AckMissing else AckParseError))
  {
    if MayHaveBeenRelayed(reply) {
      FinishChains(h, p, b, reply);
    }
  }

  /** A cut drops what is queued for good; before it, commands queue at the end. */
  lemma QueueExactly(p: PassState, class_: string, body: string, code: Code)
    ensures Cut(p, code).queue == [] && Cut(p, code).cut == Some(code) && Cut(p, code).(queue := p.queue, cut := p.cut) == p
    ensures Enqueue(Cut(p, code), class_, body) == Cut(p, code)
    ensures p.cut.None? ==>
              var q := Enqueue(p, class_, body).queue;
              && |q| == |p.queue| + 1 && q[|p.queue|] == (class_, body) && (forall i :: 0 <= i < |p.queue| ==> q[i] == p.queue[i])
              && Enqueue(p, class_, body).(queue := p.queue) == p
  {
  }

  /** When nothing is sent: a cut pass answers with its cut and draws no counter; an invalid command draws its counter and
      fails without a name. Either way the pass stays as it was. */
  lemma UnsentExactly(h: Chain.Hasher, c: Signer, mandateID: string, p: PassState, st: S.StoreState, o: Order,
                      station: CommandToken -> Reply)
    ensures var (p1, st1, sent) := SendOne(h, c, mandateID, p, st, o.class_, o.body, o.issuedAt, o.raw, station);
            var n := S.Counter(st, CounterName(c.norad)) + 1;
            && (p.cut.Some? ==> p1 == p && st1 == st && sent == Failed(Named(p.cut.value)))
            && (p.cut.None? ==> st1 == st.(counters := st.counters[CounterName(c.norad) := n]))
            && (p.cut.None? && !Command(c.norad, n, mandateID, o.class_, o.body, o.issuedAt).Valid() ==> p1 == p && sent == Failed(Plain))
  {
  }
}
