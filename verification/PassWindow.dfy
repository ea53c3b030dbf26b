/** What the pass scan returns at the edges of its window, against what its comment says (internal/passes/passes.go). */
module PassWindow {
  import opened Errs
  import opened Passes
  import opened Sorting

  // ------------------------------------------------------------ sampled contacts

  /** The samples rise above the mask after sample k, stay above it through m and set after m, whenever that is. */
  ghost predicate RiseAndSet(el: Elevation, start: int, k: nat, m: nat) {
    && k < m && Below(el, Sample(start, k)) && (forall j :: k < j <= m ==> Above(el, Sample(start, j)))
    && Below(el, Sample(start, m + 1))
  }

  ghost predicate Returned(el: Elevation, link: Link, start: int, out: seq<Pass>, k: nat, m: nat) {
    exists i :: 0 <= i < |out| && IsContact(el, link, start, k, m, out[i])
  }

  /** A sampled contact lasting a minute is returned exactly when the first sample above the mask is by the horizon and
      the first below it again is within the overrun. */
  lemma ReturnedIff(el: Elevation, link: Link, start: int, end: int, out: seq<Pass>, k: nat, m: nat)
    requires Predicted(el, link, start, end, out) && RiseAndSet(el, start, k, m) && Long(el, start, k, m)
    ensures Returned(el, link, start, out, k, m) <==>
            start + 10 * (k + 1) <= end && start + 10 * (m + 1) <= end + 1200
  {
    if Sample(start, k + 1) <= end && Sample(start, m + 1) <= end + OVERRUN {
      PredictedComplete(el, link, start, end, out, k, m);
    }
    forall i | 0 <= i < |out| && IsContact(el, link, start, k, m, out[i])
      ensures Sample(start, k + 1) <= end && Sample(start, m + 1) <= end + OVERRUN
    {
      StepsInWindow(el, link, start, end, out, k, m, i);
    }
  }

  lemma StepsInWindow(el: Elevation, link: Link, start: int, end: int, out: seq<Pass>, k: nat, m: nat, i: nat)
    requires Predicted(el, link, start, end, out) && i < |out| && IsContact(el, link, start, k, m, out[i])
    ensures Sample(start, k + 1) <= end && Sample(start, m + 1) <= end + OVERRUN
  {
    var spans: seq<(nat, nat)> :| Sound(el, link, start, end, out, spans) && Complete(el, start, end, spans);
    SameStep(el, start, k, spans[i].0);
    SameStep(el, start, m, spans[i].1);
  }

  /** A crossing lies in one step. */
  lemma SameStep(el: Elevation, start: int, k: int, j: int)
    requires CrossingAt(el, start, k).Some? && CrossingAt(el, start, k) == CrossingAt(el, start, j)
    ensures k == j
  {
    CrossingEdge(el, start, k);
    CrossingEdge(el, start, j);
  }

  // ------------------------------------------------------------- only one answer

  predicate Earlier(x: (nat, nat), y: (nat, nat)) { x.0 < y.0 }

  /** The spans of the passes out: the long contacts, each once, in order. */
  lemma SpansFixed(el: Elevation, link: Link, start: int, end: int, out: seq<Pass>, spans: seq<(nat, nat)>)
    requires Sound(el, link, start, end, out, spans) && Complete(el, start, end, spans)
    ensures Ordered(spans, Earlier) && Distinct(spans) && NoTies(spans, Earlier)
    ensures forall k: nat, m: nat :: (k, m) in spans <==> Contact(el, start, end, k, m) && Long(el, start, k, m)
  {
    forall i, j | 0 <= i < j < |spans| ensures spans[i].0 < spans[j].0 {
      assert Contact(el, start, end, spans[i].0, spans[i].1);
    }
    forall x | x in spans ensures Contact(el, start, end, x.0, x.1) && Long(el, start, x.0, x.1) {
      var i :| 0 <= i < |spans| && spans[i] == x;
      assert IsContact(el, link, start, x.0, x.1, out[i]);
    }
    forall x, y | x in spans && y in spans && !Earlier(x, y) && !Earlier(y, x) ensures x == y {
      var i :| 0 <= i < |spans| && spans[i] == x;
      var j :| 0 <= j < |spans| && spans[j] == y;
      assert i == j;
    }
  }

  lemma SpansPermute(s: seq<(nat, nat)>, t: seq<(nat, nat)>)
    requires Distinct(s) && Distinct(t) && forall k: nat, m: nat :: (k, m) in s <==> (k, m) in t
    ensures multiset(s) == multiset(t)
  {
    forall x: (nat, nat) ensures multiset(s)[x] == multiset(t)[x] {
      DistinctCount(s, x);
      DistinctCount(t, x);
      assert x == (x.0, x.1);
      assert x in s <==> multiset(s)[x] > 0;
      assert x in t <==> multiset(t)[x] > 0;
    }
  }

  lemma SameSpans(el: Elevation, link: Link, start: int, end: int, out: seq<Pass>, s: seq<(nat, nat)>, out': seq<Pass>,
                  t: seq<(nat, nat)>)
    requires Sound(el, link, start, end, out, s) && Complete(el, start, end, s)
    requires Sound(el, link, start, end, out', t) && Complete(el, start, end, t)
    ensures s == t
  {
    SpansFixed(el, link, start, end, out, s);
    SpansFixed(el, link, start, end, out', t);
    SpansPermute(s, t);
    OrderedUnique(s, t, Earlier);
  }

  lemma SamePass(el: Elevation, link: Link, start: int, k: nat, m: nat, p: Pass, q: Pass)
    requires IsContact(el, link, start, k, m, p) && IsContact(el, link, start, k, m, q)
    ensures p == q
  {
    var n: nat, u :| PeakOf(el, start, k, m, p, n, u);
    var n': nat, u' :| PeakOf(el, start, k, m, q, n', u');
    assert n == n';
    assert el(u).value <= el(u').value <= el(u).value;
  }

  /** What is predicted is fixed: every pass, in order. */
  lemma PredictedUnique(el: Elevation, link: Link, start: int, end: int, out: seq<Pass>, out': seq<Pass>)
    requires Predicted(el, link, start, end, out) && Predicted(el, link, start, end, out')
    ensures out == out'
  {
    var s: seq<(nat, nat)> :| Sound(el, link, start, end, out, s) && Complete(el, start, end, s);
    var t: seq<(nat, nat)> :| Sound(el, link, start, end, out', t) && Complete(el, start, end, t);
    SameSpans(el, link, start, end, out, s, out', t);
    forall i | 0 <= i < |out| ensures out[i] == out'[i] {
      SamePass(el, link, start, s[i].0, s[i].1, out[i], out'[i]);
    }
  }

  // -------------------------------------------------------------- a test contact

  /** Above the mask for a hundred seconds from `rise`, and never else. */
  function Hump(rise: int): Elevation { (t: int) => Some(if rise <= t < rise + 100 then 45.0 else 0.0) }

  function HumpPass(link: Link, rise: int): Pass {
    Pass(link.station, link.host, link.norad, rise, rise + 100, 45, 100, 0)
  }

  /** The hump rises in the step after sample q. */
  predicate RisesAfter(start: int, q: int, rise: int) { Sample(start, q) < rise <= Sample(start, q + 1) }

  lemma HumpEdges(start: int, q: nat, rise: int)
    requires RisesAfter(start, q, rise)
    ensures CrossingAt(Hump(rise), start, q) == Some(rise) && CrossingAt(Hump(rise), start, q + 10) == Some(rise + 100)
  {
    OneCrossing(Hump(rise), Sample(start, q), Sample(start, q + 1), rise);
    OneCrossing(Hump(rise), Sample(start, q + 10), Sample(start, q + 11), rise + 100);
  }

  /** The hump is one contact of the samples. */
  lemma HumpContact(start: int, q: nat, rise: int, k: nat, m: nat)
    requires RisesAfter(start, q, rise)
    ensures RiseAndSet(Hump(rise), start, k, m) <==> k == q && m == q + 10
  {
    var el := Hump(rise);
    if RiseAndSet(el, start, k, m) {
      assert Above(el, Sample(start, k + 1)) && Above(el, Sample(start, m));
    }
  }

  lemma HumpPeak(link: Link, start: int, q: nat, rise: int)
    ensures PeakOf(Hump(rise), start, q, q + 10, HumpPass(link, rise), 0, rise)
  {
    var el := Hump(rise);
    assert forall t :: el(t).Some? && el(t).value <= 45.0;
    assert Five(rise, 0) == rise && el(rise).value == 45.0 && Near(rise, rise + 100, rise, rise);
  }

  /** What the scan gives for it, if its first sample is by the end of the window. */
  lemma HumpTaken(link: Link, start: int, end: int, q: nat, rise: int)
    requires RisesAfter(start, q, rise) && Sample(start, q + 1) <= end
    ensures Predicted(Hump(rise), link, start, end, [HumpPass(link, rise)])
  {
    var el, p := Hump(rise), HumpPass(link, rise);
    var spans: seq<(nat, nat)> := [(q, q + 10)];
    HumpEdges(start, q, rise);
    HumpContact(start, q, rise, q, q + 10);
    HumpPeak(link, start, q, rise);
    assert IsContact(el, link, start, q, q + 10, p);
    forall k: nat, m: nat | Contact(el, start, end, k, m) && Long(el, start, k, m) ensures (k, m) in spans {
      HumpContact(start, q, rise, k, m);
      assert spans[0] == (k, m);
    }
    assert Sound(el, link, start, end, [p], spans);
  }

  /** And if it is not. */
  lemma HumpMissed(link: Link, start: int, end: int, q: nat, rise: int)
    requires RisesAfter(start, q, rise) && end < Sample(start, q + 1)
    ensures Predicted(Hump(rise), link, start, end, [])
  {
    forall k: nat, m: nat ensures !Contact(Hump(rise), start, end, k, m) {
      HumpContact(start, q, rise, k, m);
    }
    assert Sound(Hump(rise), link, start, end, [], []) && Complete(Hump(rise), start, end, []);
  }

  // ------------------------------------------------------ AOS before the end

  ghost predicate AllBefore(out: seq<Pass>, end: int) { forall i :: 0 <= i < |out| ==> out[i].aos < end }

  /** Every pass predicted over a window of this length, for any satellite, site and start, rises before its end. */
  ghost predicate RisesBeforeEnd(horizon: int) {
    forall el, link, start, end, out :: end == start + horizon && Predicted(el, link, start, end, out) ==> AllBefore(out, end)
  }

  lemma OffStepBeforeEnd(horizon: int)
    requires horizon % STEP != 0 || horizon <= 0
    ensures RisesBeforeEnd(horizon)
  {
    forall el, link, start, end, out: seq<Pass> | end == start + horizon && Predicted(el, link, start, end, out)
      ensures AllBefore(out, end)
    {
      forall i | 0 <= i < |out| ensures out[i].aos < end {
        RiseOnSample(el, link, start, end, out, i);
        var n: nat :| n > 0 && out[i].aos <= Sample(start, n) <= end;
        StepBefore(n, horizon);
      }
    }
  }

  lemma StepBefore(n: nat, horizon: int)
    requires 0 < STEP * n <= horizon && horizon % STEP != 0
    ensures STEP * n < horizon
  {
  }

  lemma OnStepAtEnd(horizon: int)
    requires horizon % STEP == 0 && horizon > 0
    ensures !RisesBeforeEnd(horizon)
  {
    LateHump(horizon / STEP - 1, horizon);
  }

  /** A rise on the last sample of the window. */
  lemma LateHump(q: nat, horizon: int)
    requires horizon == Sample(0, q + 1)
    ensures !RisesBeforeEnd(horizon)
  {
    var link := Link("", "", 0);
    HumpTaken(link, 0, horizon, q, horizon);
    NotBefore(Hump(horizon), link, 0, horizon, HumpPass(link, horizon));
  }

  lemma NotBefore(el: Elevation, link: Link, start: int, end: int, p: Pass)
    requires Predicted(el, link, start, end, [p]) && p.aos >= end
    ensures !RisesBeforeEnd(end - start)
  {
    var out := [p];
    assert out[0].aos >= end && !AllBefore(out, end);
  }

  /** AOS is before start plus horizon exactly when the horizon is not a positive multiple of the sampling step. */
  lemma BeforeEndIffOffStep(horizon: int)
    ensures RisesBeforeEnd(horizon) <==> horizon % 10 != 0 || horizon <= 0
  {
    if horizon % STEP != 0 || horizon <= 0 {
      OffStepBeforeEnd(horizon);
    } else {
      OnStepAtEnd(horizon);
    }
  }

  lemma RiseOnSample(el: Elevation, link: Link, start: int, end: int, out: seq<Pass>, i: nat)
    requires Predicted(el, link, start, end, out) && i < |out|
    ensures exists n: nat :: n > 0 && out[i].aos <= Sample(start, n) <= end
  {
    var spans: seq<(nat, nat)> :| Sound(el, link, start, end, out, spans) && Complete(el, start, end, spans);
    ContactEdges(el, link, start, end, spans[i].0, spans[i].1, out[i]);
    assert spans[i].0 + 1 > 0 && out[i].aos <= Sample(start, spans[i].0 + 1) <= end;
  }

  /** The input: a satellite that rises at second 10, scanned for ten seconds from 0. */
  lemma RiseAtHorizonTaken(link: Link, out: seq<Pass>)
    ensures Predicted(Hump(10), link, 0, 10, [HumpPass(link, 10)]) && HumpPass(link, 10).aos == 0 + 10
    ensures Predicted(Hump(10), link, 0, 10, out) ==> |out| == 1 && out[0].aos == 0 + 10
  {
    HumpTaken(link, 0, 10, 0, 10);
    if Predicted(Hump(10), link, 0, 10, out) {
      PredictedUnique(Hump(10), link, 0, 10, [HumpPass(link, 10)], out);
    }
  }

  /** A rise exactly at start is left out, although the mask is crossed there: the first sample is already above it. */
  lemma RiseAtStartLeftOut(link: Link, start: int, end: int, out: seq<Pass>)
    ensures Below(Hump(start), start - 1) && Above(Hump(start), start)
    ensures Predicted(Hump(start), link, start, end, []) && (Predicted(Hump(start), link, start, end, out) ==> out == [])
  {
    var el := Hump(start);
    forall k: nat, m: nat ensures !Contact(el, start, end, k, m) {
      assert Contact(el, start, end, k, m) ==> Above(el, Sample(start, k + 1));
    }
    assert Sound(el, link, start, end, [], []) && Complete(el, start, end, []);
    if Predicted(el, link, start, end, out) {
      PredictedUnique(el, link, start, end, [], out);
    }
  }

  // ------------------------------------------ rises before the end are returned

  /** A sampled contact lasting a minute, with AOS after start and before the end, that sets within the overrun. */
  ghost predicate Due(el: Elevation, start: int, end: int, k: nat, m: nat) {
    && RiseAndSet(el, start, k, m) && Long(el, start, k, m)
    && start < CrossingAt(el, start, k).value < end && Sample(start, m + 1) <= end + OVERRUN
  }

  /** Over a window of this length, for any satellite, site and start, every contact due is returned. */
  ghost predicate DueReturned(horizon: int) {
    forall el, link, start, end, out, k: nat, m: nat ::
      end == start + horizon && Predicted(el, link, start, end, out) && Due(el, start, end, k, m) ==>
        Returned(el, link, start, out, k, m)
  }

  lemma OnStepReturned(horizon: int)
    requires horizon % STEP <= 1 || horizon < 0
    ensures DueReturned(horizon)
  {
    forall el, link, start, end, out, k: nat, m: nat |
      end == start + horizon && Predicted(el, link, start, end, out) && Due(el, start, end, k, m)
      ensures Returned(el, link, start, out, k, m)
    {
      CrossingEdge(el, start, k);
      assert Sample(start, k + 1) <= end;
      ReturnedIff(el, link, start, end, out, k, m);
    }
  }

  lemma OffStepMissed(horizon: int)
    requires horizon % STEP > 1 && horizon >= 0
    ensures !DueReturned(horizon)
  {
    var q: nat, link := horizon / STEP, Link("", "", 0);
    var rise := STEP * q + 1;
    HumpMissed(link, 0, horizon, q, rise);
    HumpContact(0, q, rise, q, q + 10);
    HumpEdges(0, q, rise);
    assert Due(Hump(rise), 0, horizon, q, q + 10);
    assert !Returned(Hump(rise), link, 0, [], q, q + 10);
    assert horizon == 0 + horizon;
  }

  /** Every contact with AOS after start and before start plus horizon, lasting a minute and setting within the overrun,
      is returned exactly when the horizon is at most a second past a multiple of the sampling step. */
  lemma DueReturnedIffOnStep(horizon: int)
    ensures DueReturned(horizon) <==> horizon % 10 <= 1 || horizon < 0
  {
    if horizon % STEP <= 1 || horizon < 0 {
      OnStepReturned(horizon);
    } else {
      OffStepMissed(horizon);
    }
  }

  /** The input: a satellite up from second 12 to 112, scanned from 0 for 15 seconds. Its rise is before the horizon but
      after the last sample by it, and nothing is returned. */
  lemma LateRiseMissed(link: Link, out: seq<Pass>)
    ensures Due(Hump(12), 0, 15, 1, 11) && CrossingAt(Hump(12), 0, 1) == Some(12)
    ensures Predicted(Hump(12), link, 0, 15, []) && (Predicted(Hump(12), link, 0, 15, out) ==> out == [])
  {
    HumpContact(0, 1, 12, 1, 11);
    HumpEdges(0, 1, 12);
    HumpMissed(link, 0, 15, 1, 12);
    if Predicted(Hump(12), link, 0, 15, out) {
      PredictedUnique(Hump(12), link, 0, 15, [], out);
    }
  }

  /** The input: a satellite up for 2000 seconds from second 10, scanned for ten seconds, is not returned at all. */
  lemma LongPassDropped(link: Link, out: seq<Pass>)
    ensures Predicted(Plateau, link, 0, 10, []) && (Predicted(Plateau, link, 0, 10, out) ==> out == [])
  {
    forall k: nat, m: nat ensures !Contact(Plateau, 0, 10, k, m) {
      assert Contact(Plateau, 0, 10, k, m) ==> Above(Plateau, Sample(0, m)) && Below(Plateau, Sample(0, m + 1));
    }
    assert Sound(Plateau, link, 0, 10, [], []) && Complete(Plateau, 0, 10, []);
    if Predicted(Plateau, link, 0, 10, out) {
      PredictedUnique(Plateau, link, 0, 10, [], out);
    }
  }

  function Plateau(t: int): Option<real> { Some(if 10 <= t < 2010 then 45.0 else 0.0) }
}
