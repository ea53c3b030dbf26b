/** Both sides of a pass account for every command they chained. */
module PassLedger {
  import opened Errs
  import opened Schema
  import opened Commander
  import opened PassRun
  import Chain
  import K = Keeper
  import O = Ops
  import S = Store
  import T = Session

  /** Every chained command is acked or counted missing, never both, and nothing else is in either list. */
  ghost predicate Accounted(records: seq<Chain.CommandRecord>, acks: map<int, Ack>, missing: seq<int>) {
    && (forall i :: 0 <= i < |records| ==> (records[i].counter in acks <==> records[i].counter !in missing))
    && (forall c :: c in acks || c in missing ==> Has(records, c))
    && |acks| + |missing| == |records|
  }

  /** One more command, with a new counter, on one of the two lists. */
  lemma OneMore(records: seq<Chain.CommandRecord>, acks: map<int, Ack>, missing: seq<int>, r: Chain.CommandRecord, a: Ack)
    requires Accounted(records, acks, missing) && !Has(records, r.counter)
    ensures Accounted(records + [r], acks[r.counter := a], missing)
    ensures Accounted(records + [r], acks, missing + [r.counter])
  {
    forall c ensures Has(records + [r], c) <==> Has(records, c) || r.counter == c {
      HasSnoc(records, r, c);
    }
    forall i | 0 <= i < |records| ensures records[i].counter != r.counter {
    }
    assert acks[r.counter := a].Keys == acks.Keys + {r.counter};
    assert |acks[r.counter := a]| == |acks[r.counter := a].Keys| && |acks| == |acks.Keys|;
  }

  /** A chain that grew by one grew by a counter it did not have. */
  lemma AppendedIsNew(h: Chain.Hasher, c: Chain.ChainState, e: Chain.Entry)
    requires Chain.Chained(h, c) && Chain.Append(h, c, e).Ok?
    ensures var next := Chain.Append(h, c, e).value;
            |next.records| == |c.records| + 1 && next.records[|c.records|].counter == e.counter &&
            next.records == c.records + [next.records[|c.records|]] && !Has(c.records, e.counter)
  {
  }

  lemma RecordAccounts(h: Chain.Hasher, s: T.SessionState, cmd: Command, tok: CommandToken, reply: T.UplinkReply)
    requires Chain.Chained(h, s.chain) && Accounted(s.chain.records, s.acks, s.missing)
    ensures var next := T.RecordReply(h, s, cmd, tok, reply).0;
            Accounted(next.chain.records, next.acks, next.missing)
  {
    var e := T.EntryOf(h, cmd, tok);
    if Chain.Append(h, s.chain, e).Ok? {
      AppendedIsNew(h, s.chain, e);
      var r := Chain.Append(h, s.chain, e).value.records[|s.chain.records|];
      OneMore(s.chain.records, s.acks, s.missing, r, if reply.Replied? then reply.ack else Ack(1, Rejected, "", ""));
    }
  }

  lemma RelayAccounts(u: Setup, s: T.SessionState, k: K.KeeperState, caller: T.Caller, tok: CommandToken, call: T.Call)
    requires Chain.Chained(u.h, s.chain) && Accounted(s.chain.records, s.acks, s.missing)
    ensures var next := T.Relay(u.h, u.maxAge, s, k, caller, tok, call).session;
            Accounted(next.chain.records, next.acks, next.missing)
  {
    var r := T.Relay(u.h, u.maxAge, s, k, caller, tok, call);
    if s.closed || call.now > T.Ends(s.mandate) || call.now < T.Begins(s.mandate) || caller.jkt != s.mandate.jkt {
      assert r.session.chain == s.chain && r.session.acks == s.acks && r.session.missing == s.missing;
    } else {
      var w := T.Watch(u.maxAge, s.monitor, k, caller.agentID, call.got, call.now);
      var s1 := s.(monitor := w.monitor);
      if w.refused.None? {
        assert r == T.RelayChecked(u.h, s1, w.keeper, tok, call.uplink);
        if T.CheckCommand(s1, tok).Ok? {
          RecordAccounts(u.h, s1, T.CheckCommand(s1, tok).value, tok, call.uplink);
        }
      }
    }
  }

  lemma FinishAccounts(h: Chain.Hasher, p: O.PassState, b: Built, reply: O.Reply)
    requires Chain.Chained(h, p.chain) && Accounted(p.chain.records, p.acks, p.missing)
    ensures var next := O.Finish(h, p, b, reply).0;
            Accounted(next.chain.records, next.acks, next.missing)
  {
    var e := O.EntryOf(h, b);
    if !(reply.Broke? && O.RefusedBeforeRelay(reply.err)) && Chain.Append(h, p.chain, e).Ok? {
      AppendedIsNew(h, p.chain, e);
      var r := Chain.Append(h, p.chain, e).value.records[|p.chain.records|];
      OneMore(p.chain.records, p.acks, p.missing, r, if reply.Answer? then reply.ack else Ack(1, Rejected, "", ""));
    }
  }

  ghost predicate OpsAccounts(p: O.PassState) { Accounted(p.chain.records, p.acks, p.missing) }

  ghost predicate StationAccounts(s: T.SessionState) { Accounted(s.chain.records, s.acks, s.missing) }

  /** Only the end of a Send changes what Ops accounts for. */
  lemma OpsQuiet(u: Setup, w: World, e: Event)
    requires Possible(w, e) && !e.Receive? && !e.GiveUp?
    ensures var p := Step(u, w, e).ops; p.chain == w.ops.chain && p.acks == w.ops.acks && p.missing == w.ops.missing
  {
  }

  lemma OpsStep(u: Setup, w: World, e: Event)
    requires Chain.Chained(u.h, w.ops.chain) && OpsAccounts(w.ops) && Possible(w, e)
    ensures OpsAccounts(Step(u, w, e).ops)
  {
    if e.Receive? {
      FinishAccounts(u.h, w.ops, w.pending.value, w.answer.value);
    } else if e.GiveUp? {
      FinishAccounts(u.h, w.ops, w.pending.value, O.Broke(e.err));
    } else {
      OpsQuiet(u, w, e);
    }
  }

  /** Only a relay changes what the station accounts for. */
  lemma StationQuiet(u: Setup, w: World, e: Event)
    requires Possible(w, e) && !e.Deliver? && !e.Stranger?
    ensures var s := Step(u, w, e).station;
            s.chain == w.station.chain && s.acks == w.station.acks && s.missing == w.station.missing
  {
  }

  lemma RelayStep(u: Setup, w: World, tok: CommandToken, call: T.Call)
    requires Chain.Chained(u.h, w.station.chain) && StationAccounts(w.station)
    ensures StationAccounts(AtStation(u, w, tok, call).session)
  {
    if call.caller.Some? {
      RelayAccounts(u, w.station, w.keeper, call.caller.value, tok, call);
    }
  }

  lemma StationStep(u: Setup, w: World, e: Event)
    requires Chain.Chained(u.h, w.station.chain) && StationAccounts(w.station) && Possible(w, e)
    ensures StationAccounts(Step(u, w, e).station)
  {
    if e.Deliver? || e.Stranger? {
      RelayStep(u, w, e.tok, e.call);
      RelayedStation(u, w, e);
    } else {
      StationQuiet(u, w, e);
    }
  }

  lemma RelayedStation(u: Setup, w: World, e: Event)
    requires Possible(w, e) && (e.Deliver? || e.Stranger?)
    ensures Step(u, w, e).station == AtStation(u, w, e.tok, e.call).session
  {
  }

  lemma {:induction false} RunAccounts(u: Setup, w: World, es: seq<Event>, end: World)
    requires Inv(u, w) && OpsAccounts(w.ops) && StationAccounts(w.station) && Run(u, w, es, end)
    ensures OpsAccounts(end.ops) && StationAccounts(end.station)
    decreases |es|
  {
    if es != [] {
      OpsStep(u, w, es[0]);
      StationStep(u, w, es[0]);
      StepKeeps(u, w, es[0]);
      RunAccounts(u, Step(u, w, es[0]), es[1..], end);
    }
  }

  /** In every run, at every moment, each side's chained commands are split exactly into those acked and those counted
      missing: an ack that was lost, malformed or for another counter is never silently dropped. */
  lemma EveryCommandAccounted(u: Setup, w: World, b: S.Booking, m: Mandate, es: seq<Event>, end: World)
    requires Init(w, b, m) && 0 <= Drawn(u, w) && Run(u, w, es, end)
    ensures OpsAccounts(end.ops) && StationAccounts(end.station)
  {
    InitInv(u, w, b, m);
    RunAccounts(u, w, es, end);
  }
}
