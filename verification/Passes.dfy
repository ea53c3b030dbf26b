/** Contacts, and the scan that finds them (internal/passes/passes.go). Times are whole epoch seconds. */
module Passes {
  import opened Errs

  /** One contact. */
  datatype Pass = Pass(station: string, host: string, norad: int, aos: int, los: int, maxElevation: int,
                       duration: int, demoOf: int) {
    /** Whether the two share a second. */
    predicate Overlaps(q: Pass) { aos < q.los && q.aos < los }
  }

  /** Which site a scan is for, and which satellite. */
  datatype Link = Link(station: string, host: string, norad: int)

  const MASK := 10.0
  const STEP := 10
  const MIN_PASS := 60
  const OVERRUN := 1200

  /** The satellite's elevation in degrees at a second, or a propagation fault. */
  type Elevation = int -> Option<real>

  predicate Above(el: Elevation, t: int) { el(t).Some? && el(t).value >= MASK }

  predicate Below(el: Elevation, t: int) { el(t).Some? && el(t).value < MASK }

  ghost predicate Faulty(el: Elevation) { exists t :: el(t).None? }

  /** math.Round: to the nearest integer, halves away from zero. */
  function Round(x: real): int { if x >= 0.0 then (x + 0.5).Floor else -((0.5 - x).Floor) }

  // ------------------------------------------------------------- crossings

  function Bisect(el: Elevation, a: int, b: int, rising: bool): (r: Option<int>)
    requires a < b
    ensures r.Some? ==> a < r.value <= b
    ensures r.Some? && el(a).Some? && el(b).Some? && Above(el, a) != rising && Above(el, b) == rising ==>
              if rising then Below(el, r.value - 1) && Above(el, r.value) else Above(el, r.value - 1) && Below(el, r.value)
    ensures r.None? ==> Faulty(el)
    decreases b - a
  {
    if b - a <= 1 then Some(b)
    else
      var mid := a + (b - a) / 2;
      if el(mid).None? then None
      else if Above(el, mid) == rising then Bisect(el, a, mid, rising)
      else Bisect(el, mid, b, rising)
  }

  /** A second inside (a, b] where the mask is crossed: up if a is below it, else down. It is the only such second when
      there is only one. */
  function CrossingIn(el: Elevation, a: int, b: int): (r: Option<int>)
    requires a < b
  {
    if el(a).None? then None else Bisect(el, a, b, el(a).value < MASK)
  }

  lemma {:induction false} BisectFinds(el: Elevation, a: int, b: int, c: int, rising: bool)
    requires a < c <= b && (forall t :: a <= t <= b ==> el(t).Some?)
    requires (forall t :: a <= t < c ==> Above(el, t) != rising) && (forall t :: c <= t <= b ==> Above(el, t) == rising)
    ensures Bisect(el, a, b, rising) == Some(c)
    decreases b - a
  {
    if b - a > 1 {
      var mid := a + (b - a) / 2;
      if Above(el, mid) == rising {
        BisectFinds(el, a, mid, c, rising);
      } else {
        BisectFinds(el, mid, b, c, rising);
      }
    }
  }

  /** In a step with one crossing, the bisection finds the first second at or above the mask for a rise, or the first
      below it for a set. */
  lemma OneCrossing(el: Elevation, a: int, b: int, c: int)
    requires a < c <= b
    requires || ((forall t :: a <= t < c ==> Below(el, t)) && (forall t :: c <= t <= b ==> Above(el, t)))
             || ((forall t :: a <= t < c ==> Above(el, t)) && (forall t :: c <= t <= b ==> Below(el, t)))
    ensures CrossingIn(el, a, b) == Some(c)
  {
    forall t | a <= t <= b ensures el(t).Some? {
      assert Below(el, t) || Above(el, t);
    }
    var rising := el(a).value < MASK;
    assert Below(el, a) == rising && Above(el, a) != rising;
    forall t | a <= t <= b ensures Above(el, t) == (rising == (c <= t)) {
      assert Below(el, t) == !Above(el, t);
    }
    BisectFinds(el, a, b, c, rising);
  }

  method Crossing(el: Elevation, a: int, b: int) returns (r: Option<int>)
    requires a < b
    ensures r == CrossingIn(el, a, b)
  {
    if el(a).None? {
      return None;
    }
    var rising := el(a).value < MASK;
    var lo, hi := a, b;
    while hi - lo > 1
      invariant lo < hi && Bisect(el, lo, hi, rising) == Bisect(el, a, b, rising)
      decreases hi - lo
    {
      var mid := lo + (hi - lo) / 2;
      if el(mid).None? {
        return None;
      }
      if (el(mid).value >= MASK) == rising {
        hi := mid;
      } else {
        lo := mid;
      }
    }
    return Some(hi);
  }

  // ------------------------------------------------------------------ peak

  /** The highest five-second sample from aos to los, the first if several are. */
  ghost predicate Coarse(el: Elevation, aos: int, los: int, n: nat) {
    && Five(aos, n) <= los && el(Five(aos, n)).Some?
    && (forall i :: 0 <= i && Five(aos, i) <= los ==> el(Five(aos, i)).Some? && el(Five(aos, i)).value <= el(Five(aos, n)).value)
    && (forall i :: 0 <= i < n ==> el(Five(aos, i)).Some? && el(Five(aos, i)).value < el(Five(aos, n)).value)
  }

  function Five(aos: int, i: int): int { aos + 5 * i }

  predicate Near(aos: int, los: int, at: int, t: int) { aos <= t <= los && at - 5 <= t <= at + 5 }

  /** The highest second within five of the coarse peak. */
  ghost predicate Refined(el: Elevation, aos: int, los: int, n: nat, u: int) {
    && Coarse(el, aos, los, n) && Near(aos, los, Five(aos, n), u) && el(u).Some?
    && forall t :: Near(aos, los, Five(aos, n), t) ==> el(t).Some? && el(t).value <= el(u).value
  }

  /** The highest elevation found: one the satellite has between aos and los, no lower than at any five-second sample, nor
      at any second within five of the highest of those; or -90 when none is higher. */
  method PeakElevation(el: Elevation, aos: int, los: int) returns (r: Option<real>)
    ensures r.None? ==> Faulty(el)
    ensures r.Some? && r.value != -90.0 ==> exists u :: aos <= u <= los && el(u) == r
    ensures r.Some? ==> forall i :: 0 <= i && Five(aos, i) <= los ==> el(Five(aos, i)).Some? && el(Five(aos, i)).value <= r.value
    ensures r.Some? && aos <= los && el(aos).Some? && el(aos).value > -90.0 ==>
              exists n: nat, u :: Refined(el, aos, los, n, u) && el(u) == r
  {
    var best, at := -90.0, aos;
    var ts := aos;
    ghost var i: nat, n: nat := 0, 0;
    while ts <= los
      invariant ts == Five(aos, i) && at == Five(aos, n) && (i == 0 ==> best == -90.0 && n == 0) && n <= i
      invariant best > -90.0 ==> aos <= at <= los && el(at) == Some(best)
      invariant best >= -90.0 && (i > 0 ==> at <= los)
      invariant forall j :: 0 <= j < i ==> el(Five(aos, j)).Some? && el(Five(aos, j)).value <= best
      invariant forall j :: 0 <= j < n ==> el(Five(aos, j)).value < best
      invariant i > 0 && el(aos).Some? && el(aos).value > -90.0 ==> best > -90.0
      decreases los - ts
    {
      assert Five(aos, 0) == aos;
      if el(ts).None? {
        return None;
      }
      if el(ts).value > best {
        best, at := el(ts).value, ts;
        n := i;
      }
      ts := ts + 5;
      i := i + 1;
    }
    assert forall j :: 0 <= j && Five(aos, j) <= los ==> j < i;
    ghost var u := at;
    ghost var coarse := best;
    assert aos <= los && el(aos).Some? && el(aos).value > -90.0 ==> Coarse(el, aos, los, n);
    ts := at - 5;
    while ts <= at + 5
      invariant best > -90.0 ==> Near(aos, los, at, u) && el(u) == Some(best)
      invariant best >= coarse >= -90.0
      invariant forall t :: Near(aos, los, at, t) && t < ts ==> el(t).Some? && el(t).value <= best
      decreases at + 5 - ts
    {
      if aos <= ts <= los {
        if el(ts).None? {
          return None;
        }
        if el(ts).value > best {
          best, u := el(ts).value, ts;
        }
      }
      ts := ts + 1;
    }
    assert aos <= los && el(aos).Some? && el(aos).value > -90.0 ==> Refined(el, aos, los, n, u);
    return Some(best);
  }

  // ------------------------------------------------------------------ scan

  function Sample(start: int, k: int): int { start + STEP * k }

  /** The samples rise above the mask after sample k, by the horizon, stay above it through m and set after m, within
      the overrun. */
  ghost predicate Contact(el: Elevation, start: int, end: int, k: nat, m: nat) {
    && k < m && Below(el, Sample(start, k)) && (forall j :: k < j <= m ==> Above(el, Sample(start, j)))
    && Below(el, Sample(start, m + 1)) && Sample(start, k + 1) <= end && Sample(start, m + 1) <= end + 1200
  }

  /** Where the mask is crossed in the step after sample k. */
  function CrossingAt(el: Elevation, start: int, k: int): Option<int> {
    CrossingIn(el, Sample(start, k), Sample(start, k + 1))
  }

  /** Long enough to be a usable contact. */
  ghost predicate Long(el: Elevation, start: int, k: int, m: int) {
    CrossingAt(el, start, k).Some? && CrossingAt(el, start, m).Some? &&
    CrossingAt(el, start, m).value - CrossingAt(el, start, k).value >= 60
  }

  predicate SampleOf(start: int, k: int, m: int, u: int) { exists j :: k < j <= m && u == Sample(start, j) }

  /** p's height is that of second u: a sample of p or near its coarse peak, and no lower than any of those. */
  ghost predicate PeakOf(el: Elevation, start: int, k: int, m: int, p: Pass, n: nat, u: int) {
    && p.aos <= u <= p.los && el(u).Some? && p.maxElevation == Round(el(u).value)
    && Coarse(el, p.aos, p.los, n) && (Near(p.aos, p.los, Five(p.aos, n), u) || SampleOf(start, k, m, u))
    && (forall t :: Near(p.aos, p.los, Five(p.aos, n), t) ==> el(t).Some? && el(t).value <= el(u).value)
    && (forall j :: k < j <= m ==> el(Sample(start, j)).Some? && el(Sample(start, j)).value <= el(u).value)
  }

  /** p is the contact whose samples rise after k and set after m. */
  ghost predicate IsContact(el: Elevation, link: Link, start: int, k: int, m: int, p: Pass) {
    && p.station == link.station && p.host == link.host && p.norad == link.norad
    && Some(p.aos) == CrossingAt(el, start, k) && Some(p.los) == CrossingAt(el, start, m)
    && p.duration == p.los - p.aos >= 60 && p.demoOf == 0
    && exists n: nat, u :: PeakOf(el, start, k, m, p, n, u)
  }

  ghost predicate Sound(el: Elevation, link: Link, start: int, end: int, out: seq<Pass>, spans: seq<(nat, nat)>) {
    && |spans| == |out|
    && (forall i :: 0 <= i < |out| ==>
          Contact(el, start, end, spans[i].0, spans[i].1) && IsContact(el, link, start, spans[i].0, spans[i].1, out[i]))
    && (forall i, j :: 0 <= i < j < |spans| ==> spans[i].1 < spans[j].0)
  }

  ghost predicate Complete(el: Elevation, start: int, end: int, spans: seq<(nat, nat)>) {
    forall k: nat, m: nat :: Contact(el, start, end, k, m) && Long(el, start, k, m) ==> (k, m) in spans
  }

  /** The long contacts that set by sample `last`. */
  ghost predicate FoundBy(el: Elevation, start: int, end: int, last: nat, spans: seq<(nat, nat)>) {
    && (forall i :: 0 <= i < |spans| ==> spans[i].1 < last)
    && (forall k: nat, m: nat :: Contact(el, start, end, k, m) && m < last && Long(el, start, k, m) ==> (k, m) in spans)
  }

  /** Where the scan is after sample `last`. A pass followed since its rise has `aos`; one in progress since start has
      none. */
  ghost predicate Following(el: Elevation, start: int, end: int, last: nat, inPass: bool, aos: Option<int>, rise: nat) {
    && (if inPass then Above(el, Sample(start, last)) else Below(el, Sample(start, last)))
    && (aos.Some? ==>
          && inPass && rise < last && Sample(start, rise + 1) <= end && aos == CrossingAt(el, start, rise)
          && Below(el, Sample(start, rise)) && forall j :: rise < j <= last ==> Above(el, Sample(start, j)))
    && (inPass && aos.None? ==> forall j :: 0 <= j <= last ==> Above(el, Sample(start, j)))
  }

  ghost predicate HighestSeen(el: Elevation, start: int, last: nat, rise: nat, maxEl: real, at: int) {
    && rise < at <= last && el(Sample(start, at)) == Some(maxEl)
    && forall j :: rise < j <= last && Above(el, Sample(start, j)) ==> el(Sample(start, j)).value <= maxEl
  }

  /** A set ends the one contact that was followed. */
  lemma SetEnds(el: Elevation, start: int, end: int, last: nat, inPass: bool, aos: Option<int>, rise: nat, k: nat)
    requires Following(el, start, end, last, inPass, aos, rise) && Contact(el, start, end, k, last)
    ensures aos.Some? && k == rise
  {
    assert !Above(el, Sample(start, k)) && Above(el, Sample(start, last));
    if aos.Some? {
      assert !Above(el, Sample(start, rise));
    }
  }

  /** A step that ends no long contact. */
  lemma NothingEnds(el: Elevation, start: int, end: int, last: nat, spans: seq<(nat, nat)>)
    requires FoundBy(el, start, end, last, spans)
    requires forall k: nat :: Contact(el, start, end, k, last) ==> !Long(el, start, k, last)
    ensures FoundBy(el, start, end, last + 1, spans)
  {
    forall k: nat, m: nat | Contact(el, start, end, k, m) && m < last + 1 && Long(el, start, k, m) ensures (k, m) in spans {
      assert m == last ==> Contact(el, start, end, k, last);
    }
  }

  lemma NotBelow(el: Elevation, start: int, end: int, last: nat)
    requires !Below(el, Sample(start, last + 1)) || !Above(el, Sample(start, last))
    ensures forall k: nat :: !Contact(el, start, end, k, last)
  {
    forall k: nat ensures !Contact(el, start, end, k, last) {
      assert Contact(el, start, end, k, last) ==> Above(el, Sample(start, last));
    }
  }

  /** A step that ends the contact followed. */
  lemma OneEnds(el: Elevation, start: int, end: int, last: nat, spans: seq<(nat, nat)>, rise: nat)
    requires FoundBy(el, start, end, last, spans)
    requires forall k: nat :: Contact(el, start, end, k, last) ==> k == rise
    ensures FoundBy(el, start, end, last + 1, spans + [(rise, last)])
  {
    var more := spans + [(rise, last)];
    assert more[|spans|] == (rise, last);
    forall k: nat, m: nat | Contact(el, start, end, k, m) && m < last + 1 && Long(el, start, k, m) ensures (k, m) in more {
      if m == last {
        assert Contact(el, start, end, k, last);
      }
    }
  }

  /** Spans found end before the pass being followed. */
  lemma FoundBefore(el: Elevation, link: Link, start: int, end: int, last: nat, out: seq<Pass>, spans: seq<(nat, nat)>,
                    aos: Option<int>, rise: nat)
    requires Sound(el, link, start, end, out, spans) && FoundBy(el, start, end, last, spans)
    requires Following(el, start, end, last, true, aos, rise) && aos.Some?
    ensures forall i :: 0 <= i < |spans| ==> spans[i].1 < rise
  {
    forall i | 0 <= i < |spans| ensures spans[i].1 < rise {
      assert Contact(el, start, end, spans[i].0, spans[i].1);
      assert !Above(el, Sample(start, spans[i].1 + 1));
    }
  }

  lemma SoundAppend(el: Elevation, link: Link, start: int, end: int, out: seq<Pass>, spans: seq<(nat, nat)>, rise: nat,
                    m: nat, p: Pass)
    requires Sound(el, link, start, end, out, spans) && (forall i :: 0 <= i < |spans| ==> spans[i].1 < rise)
    requires Contact(el, start, end, rise, m) && IsContact(el, link, start, rise, m, p)
    ensures Sound(el, link, start, end, out + [p], spans + [(rise, m)])
  {
  }

  /** When the scan stops, every contact by the horizon has set. */
  lemma ScanDone(el: Elevation, start: int, end: int, last: nat, inPass: bool, aos: Option<int>, rise: nat, spans: seq<(nat, nat)>)
    requires Following(el, start, end, last, inPass, aos, rise) && FoundBy(el, start, end, last, spans)
    requires Sample(start, last + 1) > end && !(inPass && aos.Some? && Sample(start, last + 1) <= end + OVERRUN)
    ensures Complete(el, start, end, spans)
  {
    forall k: nat, m: nat | Contact(el, start, end, k, m) ensures m < last {
      assert !Above(el, Sample(start, k));
      assert k < last;
      assert last <= m ==> Above(el, Sample(start, last));
    }
  }

  /** A set: the contact followed, if any, is added unless it was too short. */
  lemma PassEnds(el: Elevation, link: Link, start: int, end: int, last: nat, aos: Option<int>, rise: nat, out: seq<Pass>,
                 spans: seq<(nat, nat)>, p: seq<Pass>) returns (more: seq<(nat, nat)>)
    requires Sound(el, link, start, end, out, spans) && FoundBy(el, start, end, last, spans)
    requires Following(el, start, end, last, true, aos, rise) && |p| <= 1
    requires p != [] ==> aos.Some? && Contact(el, start, end, rise, last) && IsContact(el, link, start, rise, last, p[0])
    requires p == [] && aos.Some? ==> !Long(el, start, rise, last)
    ensures Sound(el, link, start, end, out + p, more) && FoundBy(el, start, end, last + 1, more)
  {
    forall k: nat | Contact(el, start, end, k, last) ensures aos.Some? && k == rise {
      SetEnds(el, start, end, last, true, aos, rise, k);
    }
    if p == [] {
      assert out + p == out;
      NothingEnds(el, start, end, last, spans);
      more := spans;
    } else {
      assert p == [p[0]];
      FoundBefore(el, link, start, end, last, out, spans, aos, rise);
      SoundAppend(el, link, start, end, out, spans, rise, last, p[0]);
      OneEnds(el, start, end, last, spans, rise);
      more := spans + [(rise, last)];
    }
  }

  lemma PassStays(el: Elevation, start: int, end: int, last: nat, aos: Option<int>, rise: nat, maxEl: real, at: int)
    requires Following(el, start, end, last, true, aos, rise) && Above(el, Sample(start, last + 1))
    requires aos.Some? ==> HighestSeen(el, start, last, rise, maxEl, at)
    ensures Following(el, start, end, last + 1, true, aos, rise)
    ensures var cur := el(Sample(start, last + 1)).value;
            aos.Some? ==> if cur > maxEl then HighestSeen(el, start, last + 1, rise, cur, last + 1)
                          else HighestSeen(el, start, last + 1, rise, maxEl, at)
  {
  }

  lemma PassRises(el: Elevation, start: int, end: int, last: nat, aos: Option<int>)
    requires Below(el, Sample(start, last)) && Above(el, Sample(start, last + 1)) && Sample(start, last + 1) <= end
    requires aos.Some? && aos == CrossingAt(el, start, last)
    ensures Following(el, start, end, last + 1, true, aos, last)
    ensures HighestSeen(el, start, last + 1, last, el(Sample(start, last + 1)).value, last + 1)
  {
  }

  /** The passes out are the samples' contacts of at least a minute, all of them, in time order. */
  ghost predicate Predicted(el: Elevation, link: Link, start: int, end: int, out: seq<Pass>) {
    exists spans :: Sound(el, link, start, end, out, spans) && Complete(el, start, end, spans)
  }

  /** The scan's variables, and beside them what the proof remembers of the pass being followed and those found. */
  datatype Scanner = Scanner(inPass: bool, aos: Option<int>, maxEl: real, out: seq<Pass>)

  datatype Memory = Memory(rise: nat, at: int, spans: seq<(nat, nat)>)

  ghost predicate ScanOK(el: Elevation, link: Link, start: int, end: int, last: nat, s: Scanner, mem: Memory) {
    && Following(el, start, end, last, s.inPass, s.aos, mem.rise)
    && Sound(el, link, start, end, s.out, mem.spans) && FoundBy(el, start, end, last, mem.spans)
    && (s.aos.Some? ==> HighestSeen(el, start, last, mem.rise, s.maxEl, mem.at))
  }

  method Predict(el: Elevation, link: Link, start: int, horizon: int) returns (r: Option<seq<Pass>>)
    ensures r.None? ==> Faulty(el)
    ensures r.Some? ==> Predicted(el, link, start, start + horizon, r.value)
  {
    var end := start + horizon;
    if el(start).None? {
      return None;
    }
    var s := Scanner(el(start).value >= MASK, None, el(start).value, []);
    var ts := start + STEP;
    ghost var last: nat := 0;
    ghost var mem := Memory(0, 0, []);
    while ts <= end || (s.inPass && s.aos.Some? && ts <= end + OVERRUN)
      invariant ts == Sample(start, last + 1) && ScanOK(el, link, start, end, last, s, mem)
      decreases end + OVERRUN - ts
    {
      var next, mem' := ScanStep(el, link, ts, s, start, end, last, mem);
      if next.None? {
        return None;
      }
      s, mem := next.value, mem';
      ts := ts + STEP;
      last := last + 1;
    }
    ScanFinished(el, link, start, end, last, s, mem);
    return Some(s.out);
  }

  lemma ScanFinished(el: Elevation, link: Link, start: int, end: int, last: nat, s: Scanner, mem: Memory)
    requires ScanOK(el, link, start, end, last, s, mem) && Sample(start, last + 1) > end
    requires !(s.inPass && s.aos.Some? && Sample(start, last + 1) <= end + OVERRUN)
    ensures Predicted(el, link, start, end, s.out)
  {
    ScanDone(el, start, end, last, s.inPass, s.aos, mem.rise, mem.spans);
  }

  /** One sample: a rise, a set, or neither. Past the horizon only a pass being followed is sampled, so no rise is. */
  method ScanStep(el: Elevation, link: Link, ts: int, s: Scanner, ghost start: int, ghost end: int, ghost last: nat,
                  ghost mem: Memory) returns (next: Option<Scanner>, ghost mem': Memory)
    requires ts == Sample(start, last + 1) && ScanOK(el, link, start, end, last, s, mem)
    requires ts <= end || (s.inPass && s.aos.Some? && ts <= end + OVERRUN)
    ensures next.None? ==> Faulty(el)
    ensures next.Some? ==> ScanOK(el, link, start, end, last + 1, next.value, mem')
  {
    mem' := mem;
    if el(ts).None? {
      return None, mem;
    }
    var cur := el(ts).value;
    if s.inPass && cur < MASK {
      var p := [];
      if s.aos.Some? {
        var whole := Finish(el, link, ts, s.aos.value, s.maxEl, start, end, last, mem.rise, mem.at);
        if whole.None? {
          return None, mem;
        }
        p := whole.value;
      }
      var spans := PassEnds(el, link, start, end, last, s.aos, mem.rise, s.out, mem.spans, p);
      return Some(Scanner(false, None, s.maxEl, s.out + p)), mem.(spans := spans);
    }
    NotBelow(el, start, end, last);
    NothingEnds(el, start, end, last, mem.spans);
    if s.inPass {
      PassStays(el, start, end, last, s.aos, mem.rise, s.maxEl, mem.at);
      if cur > s.maxEl {
        return Some(s.(maxEl := cur)), mem.(at := last + 1);
      }
      return Some(s), mem;
    }
    if cur < MASK {
      return Some(s), mem;
    }
    var aos := Crossing(el, ts - STEP, ts);
    if aos.None? {
      return None, mem;
    }
    PassRises(el, start, end, last, aos);
    return Some(Scanner(true, aos, cur, s.out)), mem.(rise := last, at := last + 1);
  }

  /** The pass that has just set, unless it was too short. */
  method Finish(el: Elevation, link: Link, ts: int, aos: int, maxEl: real,
                ghost start: int, ghost end: int, ghost last: nat, ghost rise: nat, ghost at: int)
    returns (p: Option<seq<Pass>>)
    requires ts == Sample(start, last + 1)
    requires Following(el, start, end, last, true, Some(aos), rise) && HighestSeen(el, start, last, rise, maxEl, at)
    requires Below(el, Sample(start, last + 1)) && Sample(start, last + 1) <= end + OVERRUN
    ensures p.None? ==> Faulty(el)
    ensures p.Some? ==> |p.value| <= 1 && (p.value == [] ==> !Long(el, start, rise, last))
    ensures p.Some? && p.value != [] ==> Contact(el, start, end, rise, last) && IsContact(el, link, start, rise, last, p.value[0])
  {
    var los := Crossing(el, ts - STEP, ts);
    if los.None? {
      return None;
    }
    assert Above(el, Sample(start, rise + 1));
    var peak := PeakElevation(el, aos, los.value);
    if peak.None? {
      return None;
    }
    assert peak.value >= MASK by {
      assert Five(aos, 0) == aos && el(aos).value <= peak.value;
    }
    if los.value - aos < MIN_PASS {
      return Some([]);
    }
    var top := if peak.value > maxEl then peak.value else maxEl;
    var pass := Pass(link.station, link.host, link.norad, aos, los.value, Round(top), los.value - aos, 0);
    TopOf(el, start, end, last, rise, at, maxEl, peak.value, pass);
    return Some([pass]);
  }

  lemma TopOf(el: Elevation, start: int, end: int, last: nat, rise: nat, at: int, maxEl: real, peak: real, p: Pass)
    requires Following(el, start, end, last, true, Some(p.aos), rise) && HighestSeen(el, start, last, rise, maxEl, at)
    requires Below(el, Sample(start, last + 1)) && Some(p.los) == CrossingAt(el, start, last)
    requires exists n: nat, u :: Refined(el, p.aos, p.los, n, u) && el(u) == Some(peak)
    requires p.maxElevation == Round(if peak > maxEl then peak else maxEl)
    ensures exists n: nat, u :: PeakOf(el, start, rise, last, p, n, u)
  {
    var n: nat, fine :| Refined(el, p.aos, p.los, n, fine) && el(fine) == Some(peak);
    CrossingEdge(el, start, rise);
    CrossingEdge(el, start, last);
    TopIsPeak(el, start, rise, last, p, maxEl, at, n, fine, if peak > maxEl then fine else Sample(start, at));
  }

  lemma TopIsPeak(el: Elevation, start: int, k: nat, m: nat, p: Pass, maxEl: real, at: int, coarse: nat, fine: int, u: int)
    requires HighestSeen(el, start, m, k, maxEl, at) && (forall j :: k < j <= m ==> Above(el, Sample(start, j)))
    requires Refined(el, p.aos, p.los, coarse, fine) && p.aos <= Sample(start, at) <= p.los
    requires u == if el(fine).value > maxEl then fine else Sample(start, at)
    requires p.maxElevation == Round(el(u).value)
    ensures PeakOf(el, start, k, m, p, coarse, u)
  {
    forall j | k < j <= m ensures el(Sample(start, j)).Some? && el(Sample(start, j)).value <= el(u).value {
      assert Above(el, Sample(start, j));
    }
  }

  /** The mask is crossed exactly at a step's crossing second. */
  lemma CrossingEdge(el: Elevation, start: int, k: int)
    requires CrossingAt(el, start, k).Some?
    ensures var r := CrossingAt(el, start, k).value;
            && Sample(start, k) < r <= Sample(start, k + 1)
            && (Below(el, Sample(start, k)) && Above(el, Sample(start, k + 1)) ==> Below(el, r - 1) && Above(el, r))
            && (Above(el, Sample(start, k)) && Below(el, Sample(start, k + 1)) ==> Above(el, r - 1) && Below(el, r))
  {
  }

  lemma ContactEdges(el: Elevation, link: Link, start: int, end: int, k: nat, m: nat, p: Pass)
    requires Contact(el, start, end, k, m) && IsContact(el, link, start, k, m, p)
    ensures Sample(start, k) < p.aos <= Sample(start, k + 1) && Sample(start, m) < p.los <= Sample(start, m + 1)
    ensures Below(el, p.aos - 1) && Above(el, p.aos) && Above(el, p.los - 1) && Below(el, p.los)
  {
    CrossingEdge(el, start, k);
    CrossingEdge(el, start, m);
    assert Above(el, Sample(start, k + 1)) && Above(el, Sample(start, m));
  }

  lemma BetweenAbove(el: Elevation, link: Link, start: int, end: int, k: nat, m: nat, p: Pass, j: int)
    requires Contact(el, start, end, k, m) && IsContact(el, link, start, k, m, p) && p.aos <= Sample(start, j) < p.los
    ensures Above(el, Sample(start, j))
  {
    ContactEdges(el, link, start, end, k, m, p);
    assert k < j <= m;
  }

  lemma InOrder(el: Elevation, link: Link, start: int, end: int, out: seq<Pass>, spans: seq<(nat, nat)>, i: nat, j: nat)
    requires Sound(el, link, start, end, out, spans) && i < j < |out|
    ensures out[i].los < out[j].aos
  {
    ContactEdges(el, link, start, end, spans[i].0, spans[i].1, out[i]);
    ContactEdges(el, link, start, end, spans[j].0, spans[j].1, out[j]);
  }

  /** The mask is crossed exactly at AOS and at LOS, and every sample between is above it; the pass rises after start
      and by the horizon, and lasts a minute. */
  ghost predicate WholePass(el: Elevation, start: int, end: int, p: Pass) {
    && start < p.aos <= end && p.los <= end + 1200 && p.duration == p.los - p.aos >= 60
    && Below(el, p.aos - 1) && Above(el, p.aos) && Above(el, p.los - 1) && Below(el, p.los)
    && el(p.aos - 1).value < 10.0 <= el(p.aos).value && el(p.los).value < 10.0 <= el(p.los - 1).value
    && forall j :: p.aos <= Sample(start, j) < p.los ==> el(Sample(start, j)).Some? && el(Sample(start, j)).value >= 10.0
  }

  lemma ContactIsWhole(el: Elevation, link: Link, start: int, end: int, k: nat, m: nat, p: Pass)
    requires Contact(el, start, end, k, m) && IsContact(el, link, start, k, m, p)
    ensures WholePass(el, start, end, p)
  {
    ContactEdges(el, link, start, end, k, m, p);
    forall j | p.aos <= Sample(start, j) < p.los ensures Above(el, Sample(start, j)) {
      BetweenAbove(el, link, start, end, k, m, p, j);
    }
  }

  /** Every pass out is whole, and each rises after the one before has set. */
  lemma PredictedSound(el: Elevation, link: Link, start: int, end: int, out: seq<Pass>, i: nat)
    requires Predicted(el, link, start, end, out) && i < |out|
    ensures WholePass(el, start, end, out[i]) && forall j :: i < j < |out| ==> out[i].los < out[j].aos
    ensures out[i].station == link.station && out[i].host == link.host && out[i].norad == link.norad && out[i].demoOf == 0
  {
    var spans: seq<(nat, nat)> :| Sound(el, link, start, end, out, spans) && Complete(el, start, end, spans);
    ContactIsWhole(el, link, start, end, spans[i].0, spans[i].1, out[i]);
    forall j | i < j < |out| ensures out[i].los < out[j].aos {
      InOrder(el, link, start, end, out, spans, i, j);
    }
  }

  /** Every sampled contact lasting a minute is out exactly once. */
  lemma PredictedComplete(el: Elevation, link: Link, start: int, end: int, out: seq<Pass>, k: nat, m: nat)
    requires Predicted(el, link, start, end, out) && Contact(el, start, end, k, m) && Long(el, start, k, m)
    ensures exists i :: 0 <= i < |out| && IsContact(el, link, start, k, m, out[i]) &&
                        forall j :: 0 <= j < |out| && IsContact(el, link, start, k, m, out[j]) ==> j == i
  {
    var spans: seq<(nat, nat)> :| Sound(el, link, start, end, out, spans) && Complete(el, start, end, spans);
    assert (k, m) in spans;
    var i :| 0 <= i < |spans| && spans[i] == (k, m);
    forall j | 0 <= j < |out| && IsContact(el, link, start, k, m, out[j]) ensures j == i {
      PredictedSound(el, link, start, end, out, if i < j then i else j);
    }
  }

  /** Rounding gives the nearest integer, the one further from zero when two are as near. */
  lemma RoundNearest(x: real)
    ensures var n := Round(x) as real;
            n - 0.5 <= x <= n + 0.5 && (x == n + 0.5 ==> x < 0.0) && (x == n - 0.5 ==> x > 0.0)
  {
  }
}
