/** What one side can show about a pass, as the auditor reads it. */
module Evidence {
  import opened Errs
  import opened Schema
  import Chain

  datatype Evidence = Evidence(head: string, records: seq<Chain.CommandRecord>, acks: seq<Ack>, missing: seq<int>,
                               cut: Option<Code>)

  /** The acks held for the records, in record order. */
  function AcksOf(records: seq<Chain.CommandRecord>, acks: map<int, Ack>): seq<Ack> {
    if records == [] then []
    else
      var last := records[|records| - 1].counter;
      AcksOf(records[..|records| - 1], acks) + if last in acks then [acks[last]] else []
  }

  method CollectAcks(records: seq<Chain.CommandRecord>, acks: map<int, Ack>) returns (out: seq<Ack>)
    ensures out == AcksOf(records, acks)
  {
    out := [];
    for i := 0 to |records|
      invariant out == AcksOf(records[..i], acks)
    {
      assert records[..i + 1][..i] == records[..i];
      if records[i].counter in acks {
        out := out + [acks[records[i].counter]];
      }
    }
    assert records[..|records|] == records;
  }

  /** The acks shown go with the records, one for each that has one on file, in record order. */
  lemma {:induction false} AcksOfConcat(a: seq<Chain.CommandRecord>, b: seq<Chain.CommandRecord>, acks: map<int, Ack>)
    ensures AcksOf(a + b, acks) == AcksOf(a, acks) + AcksOf(b, acks)
    ensures |a| == 1 ==> AcksOf(a, acks) == if a[0].counter in acks then [acks[a[0].counter]] else []
    decreases |b|
  {
    if b == [] {
      assert a + b == a;
    } else {
      var n := |b| - 1;
      assert (a + b)[..|a + b| - 1] == a + b[..n];
      AcksOfConcat(a, b[..n], acks);
    }
  }
}
