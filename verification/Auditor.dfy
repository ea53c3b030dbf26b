/** The passive audit of a finished pass (internal/auditor). */
module Auditor {
  import opened Errs
  import opened Schema
  import opened Evidence
  import Chain

  function Counters(acks: seq<Ack>): set<int> { set i | 0 <= i < |acks| :: acks[i].counter }

  /** How many records have no ack. */
  function Unacked(records: seq<Chain.CommandRecord>, acked: set<int>): nat {
    if records == [] then 0
    else Unacked(records[..|records| - 1], acked) + if records[|records| - 1].counter in acked then 0 else 1
  }

  function Abs(n: int): nat { if n < 0 then -n else n }

  function Missing(ops: Evidence, station: Evidence): nat {
    Unacked(station.records, Counters(station.acks)) + Abs(|ops.records| - |station.records|)
  }

  method CountMissing(ops: Evidence, station: Evidence) returns (missing: nat)
    ensures missing == Missing(ops, station)
  {
    var acked: set<int> := {};
    for i := 0 to |station.acks|
      invariant acked == Counters(station.acks[..i])
    {
      acked := acked + {station.acks[i].counter};
      assert forall k :: 0 <= k < i ==> station.acks[..i + 1][k] == station.acks[..i][k];
      assert station.acks[..i + 1][i] == station.acks[i];
    }
    assert station.acks[..|station.acks|] == station.acks;
    missing := 0;
    for i := 0 to |station.records|
      invariant missing == Unacked(station.records[..i], acked)
    {
      assert station.records[..i + 1][..i] == station.records[..i];
      if station.records[i].counter !in acked {
        missing := missing + 1;
      }
    }
    assert station.records[..|station.records|] == station.records;
    if |ops.records| != |station.records| {
      missing := missing + Abs(|ops.records| - |station.records|);
    }
  }

  /** What the auditor verified before it looks at the chains: the station's identity, the mandate the receipt
      names, and the mandate itself. */
  datatype Verified = Verified(identity: bool, receiptMandate: Option<string>, mandate: Option<Mandate>)

  datatype CheckName = Identity | Receipt | MandateCheck | DPoPBinding | ChainMatch | Acks

  datatype Check = Check(name: CheckName, failed: Option<Code>)

  datatype Report = Report(checks: seq<Check>, missingAcks: nat, pass: bool)

  /** What each check asks. */
  predicate Passes(name: CheckName, v: Verified, ops: Evidence, station: Evidence) {
    match name
    case Identity => v.identity
    case Receipt => v.receiptMandate.Some?
    case MandateCheck => v.mandate.Some?
    case DPoPBinding =>
      v.mandate.Some? && v.receiptMandate.Some? && v.mandate.value.jkt != "" &&
      v.receiptMandate.value == v.mandate.value.mandateID
    case ChainMatch => ops.head != "" && ops.head == station.head
    case Acks => Missing(ops, station) == 0
  }

  predicate NoneFailed(checks: seq<Check>) { forall i :: 0 <= i < |checks| ==> checks[i].failed.None? }

  method Add(checks: seq<Check>, pass: bool, name: CheckName, ok: bool, code: Code) returns (out: seq<Check>, still: bool)
    requires pass == NoneFailed(checks)
    ensures out == checks + [Row(name, ok, code)] && still == NoneFailed(out)
  {
    out, still := checks, pass;
    var c := Check(name, None);
    if !ok {
      c, still := c.(failed := Some(code)), false;
    }
    out := out + [c];
    assert out[|checks|] == c && forall i :: 0 <= i < |checks| ==> out[i] == checks[i];
  }

  function Row(name: CheckName, ok: bool, code: Code): Check { Check(name, if ok then None else Some(code)) }

  /** The six checks in order, each failed exactly when it does not pass. */
  function Rows(v: Verified, ops: Evidence, station: Evidence): seq<Check> {
    []
    + [Row(Identity, Passes(Identity, v, ops, station), CardRejectedSignature)]
    + [Row(Receipt, Passes(Receipt, v, ops, station), ReceiptRejectedSignature)]
    + [Row(MandateCheck, Passes(MandateCheck, v, ops, station), MandateRejectedSignature)]
    + [Row(DPoPBinding, Passes(DPoPBinding, v, ops, station), DPoPRejectedKey)]
    + [Row(ChainMatch, Passes(ChainMatch, v, ops, station), ChainMismatch)]
    + [Row(Acks, Passes(Acks, v, ops, station), AckMissing)]
  }

  /** The count of records without an ack is a count. */
  lemma {:induction false} UnackedCounts(records: seq<Chain.CommandRecord>, acked: set<int>)
    ensures Unacked(records, acked) == |set i | 0 <= i < |records| && records[i].counter !in acked|
  {
    if records != [] {
      var n := |records| - 1;
      UnackedCounts(records[..n], acked);
      var before := set i | 0 <= i < n && records[..n][i].counter !in acked;
      var all := set i | 0 <= i < |records| && records[i].counter !in acked;
      assert before == set i | 0 <= i < n && records[i].counter !in acked;
      assert all == if records[n].counter in acked then before else before + {n};
    }
  }

  lemma {:induction false} NoneUnacked(records: seq<Chain.CommandRecord>, acked: set<int>)
    ensures Unacked(records, acked) == 0 <==> forall i :: 0 <= i < |records| ==> records[i].counter in acked
  {
    if records != [] {
      NoneUnacked(records[..|records| - 1], acked);
      assert forall i :: 0 <= i < |records| - 1 ==> records[..|records| - 1][i] == records[i];
    }
  }

  /** The chains are as long, and the station shows an ack for each of its records. */
  ghost predicate AllAcked(ops: Evidence, station: Evidence) {
    && |ops.records| == |station.records|
    && forall i :: 0 <= i < |station.records| ==> Shows(station, station.records[i].counter)
  }

  predicate Shows(e: Evidence, c: int) { exists j :: 0 <= j < |e.acks| && e.acks[j].counter == c }

  lemma NoneMissing(ops: Evidence, station: Evidence)
    ensures Missing(ops, station) == 0 <==> AllAcked(ops, station)
  {
    NoneUnacked(station.records, Counters(station.acks));
    assert forall c :: c in Counters(station.acks) <==> Shows(station, c);
  }

  /** The receipt names the mandate, and the mandate a key. */
  predicate Bound(v: Verified) {
    && v.receiptMandate.Some? && v.mandate.Some? && v.receiptMandate.value == v.mandate.value.mandateID
    && v.mandate.value.jkt != ""
  }

  function Shown(name: CheckName, ok: bool, code: Code): Check { if ok then Check(name, None) else Check(name, Some(code)) }

  /** The six rows, each under its own name and code: identity, receipt and mandate verified, the key bound, one head, and
      every record acked. */
  lemma RowsMean(v: Verified, ops: Evidence, station: Evidence)
    ensures Rows(v, ops, station) ==
              [Shown(Identity, v.identity, CardRejectedSignature),
               Shown(Receipt, v.receiptMandate.Some?, ReceiptRejectedSignature),
               Shown(MandateCheck, v.mandate.Some?, MandateRejectedSignature), Shown(DPoPBinding, Bound(v), DPoPRejectedKey),
               Shown(ChainMatch, ops.head == station.head != "", ChainMismatch), Shown(Acks, AllAcked(ops, station), AckMissing)]
  {
    NoneMissing(ops, station);
  }

  /** A pass means that all of this holds. */
  lemma PassMeans(v: Verified, ops: Evidence, station: Evidence)
    ensures NoneFailed(Rows(v, ops, station)) <==>
              v.identity && Bound(v) && ops.head == station.head != "" && AllAcked(ops, station)
  {
    RowsMean(v, ops, station);
    var rows := Rows(v, ops, station);
    assert NoneFailed(rows) <==>
             rows[0].failed.None? && rows[1].failed.None? && rows[2].failed.None? && rows[3].failed.None? &&
             rows[4].failed.None? && rows[5].failed.None?;
  }

  /** The verdict is pass exactly when none of the six checks failed. */
  method Audit(v: Verified, ops: Evidence, station: Evidence) returns (rep: Report)
    ensures rep.checks == Rows(v, ops, station) && rep.missingAcks == Missing(ops, station)
    ensures rep.pass <==> NoneFailed(rep.checks)
  {
    var checks, pass := Add([], true, Identity, v.identity, CardRejectedSignature);
    checks, pass := Add(checks, pass, Receipt, v.receiptMandate.Some?, ReceiptRejectedSignature);
    checks, pass := Add(checks, pass, MandateCheck, v.mandate.Some?, MandateRejectedSignature);
    checks, pass := Add(checks, pass, DPoPBinding,
      v.mandate.Some? && v.receiptMandate.Some? && v.mandate.value.jkt != "" &&
      v.receiptMandate.value == v.mandate.value.mandateID, DPoPRejectedKey);
    checks, pass := Add(checks, pass, ChainMatch, ops.head != "" && ops.head == station.head, ChainMismatch);
    var missing := CountMissing(ops, station);
    checks, pass := Add(checks, pass, Acks, missing == 0, AckMissing);
    rep := Report(checks, missing, pass);
  }
}

/** The audit of an honest run. */
module AuditRun {
  import opened Errs
  import opened Schema
  import opened Sequences
  import opened PassRun
  import A = Auditor
  import Chain
  import E = Evidence
  import S = Store
  import T = Session

  function OpsEvidence(w: World): E.Evidence {
    E.Evidence(w.ops.chain.head, w.ops.chain.records, E.AcksOf(w.ops.chain.records, w.ops.acks), w.ops.missing,
               w.ops.cut)
  }

  function StationEvidence(w: World): E.Evidence { T.EvidenceOf(w.station) }

  lemma CountersSnoc(acks: seq<Ack>, a: Ack)
    ensures A.Counters(acks + [a]) == A.Counters(acks) + {a.counter}
  {
    var all := acks + [a];
    assert all[|acks|] == a && forall i :: 0 <= i < |acks| ==> all[i] == acks[i];
    forall c | c in A.Counters(acks) ensures c in A.Counters(all) {
      var i :| 0 <= i < |acks| && acks[i].counter == c;
      assert all[i].counter == c;
    }
  }

  /** The acks shown are those of the recorded counters. */
  lemma {:induction false} AcksShown(records: seq<Chain.CommandRecord>, acks: map<int, Ack>, c: int)
    requires forall k :: k in acks ==> acks[k].counter == k
    ensures c in A.Counters(E.AcksOf(records, acks)) <==> c in acks && Has(records, c)
  {
    if records != [] {
      var front, last := records[..|records| - 1], records[|records| - 1];
      AcksShown(front, acks, c);
      HasSnoc(front, last, c);
      assert records == front + [last];
      if last.counter in acks {
        CountersSnoc(E.AcksOf(front, acks), acks[last.counter]);
      } else {
        assert E.AcksOf(front, acks) + [] == E.AcksOf(front, acks);
      }
    }
  }

  /** Each record either shows an ack or counts as unacked. */
  lemma {:induction false} AckedOrNot(records: seq<Chain.CommandRecord>, acks: map<int, Ack>, acked: set<int>)
    requires forall i :: 0 <= i < |records| ==> (records[i].counter in acked <==> records[i].counter in acks)
    ensures A.Unacked(records, acked) + |E.AcksOf(records, acks)| == |records|
  {
    if records != [] {
      AckedOrNot(records[..|records| - 1], acks, acked);
    }
  }

  lemma UnackedAtStation(records: seq<Chain.CommandRecord>, acks: map<int, Ack>)
    requires AcksFiled(records, acks)
    ensures A.Unacked(records, A.Counters(E.AcksOf(records, acks))) + |E.AcksOf(records, acks)| == |records|
  {
    var acked := A.Counters(E.AcksOf(records, acks));
    forall i | 0 <= i < |records| ensures records[i].counter in acked <==> records[i].counter in acks {
      AcksShown(records, acks, records[i].counter);
      assert Has(records, records[i].counter);
    }
    AckedOrNot(records, acks, acked);
  }

  /** What the audit of a pass at rest shows. */
  ghost predicate AuditTells(w: World) {
    && A.Missing(OpsEvidence(w), StationEvidence(w)) == |OpsEvidence(w).records| - |StationEvidence(w).acks|
    && (forall v :: A.Passes(A.Acks, v, OpsEvidence(w), StationEvidence(w)) ==>
          A.Passes(A.ChainMatch, v, OpsEvidence(w), StationEvidence(w)) && w.station.chain == w.ops.chain)
  }

  lemma CountAtRest(u: Setup, w: World)
    requires Sound(u.h, w.station) && Subsequence(StationEntries(w), OpsEntries(w))
    ensures A.Missing(OpsEvidence(w), StationEvidence(w)) == |w.ops.chain.records| - |StationEvidence(w).acks|
    ensures |StationEvidence(w).acks| <= |w.station.chain.records| <= |w.ops.chain.records|
  {
    SubsequenceLength(StationEntries(w), OpsEntries(w));
    UnackedAtStation(w.station.chain.records, w.station.acks);
  }

  /** Chains that Appends built from the same entries are the same. */
  lemma SameChain(u: Setup, w: World)
    requires Inv(u, w) && Subsequence(StationEntries(w), OpsEntries(w)) && |w.station.chain.records| == |w.ops.chain.records|
    ensures w.station.chain == w.ops.chain && w.ops.chain.head != ""
  {
    SubsequenceLength(StationEntries(w), OpsEntries(w));
    assert StationEntries(w) == OpsEntries(w);
  }

  lemma AtRest(u: Setup, w: World)
    requires Inv(u, w) && w.pending.None? && Subsequence(StationEntries(w), OpsEntries(w))
    ensures AuditTells(w)
  {
    CountAtRest(u, w);
    var ops, station := OpsEvidence(w), StationEvidence(w);
    if A.Missing(ops, station) == 0 {
      SameChain(u, w);
      HeadsMatch(ops, station);
    } else {
      AcksFail(ops, station);
    }
  }

  lemma HeadsMatch(ops: E.Evidence, station: E.Evidence)
    requires ops.head == station.head && ops.head != ""
    ensures forall v :: A.Passes(A.ChainMatch, v, ops, station)
  {
  }

  lemma AcksFail(ops: E.Evidence, station: E.Evidence)
    requires A.Missing(ops, station) != 0
    ensures forall v :: !A.Passes(A.Acks, v, ops, station)
  {
  }

  /** In every honest run at rest, whatever was lost, the auditor's missing-ack count is the number of commands Ops
      chained minus the number of acks the station holds. So if the acks check passes, every command was acked
      through the station, the two chains are equal and the chain check passes too. */
  lemma AcksCheckImpliesChainMatch(u: Setup, w: World, b: S.Booking, m: Mandate, es: seq<Event>, end: World)
    requires Init(w, b, m) && 0 <= Drawn(u, w) && Run(u, w, es, end) && end.pending.None?
    ensures AuditTells(end)
  {
    StationChainsASubsequence(u, w, b, m, es, end);
    InitInv(u, w, b, m);
    RunKeeps(u, w, es, end);
    AtRest(u, end);
  }
}
