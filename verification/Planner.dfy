/** The greedy pass planner (internal/planner/planner.go). */
module Planner {
  import opened Errs
  import opened Decimal
  import opened Schema
  import opened Passes
  import opened Sorting
  import opened Tiers

  const MAX_PRICE_CENTS := 100_000_000
  const MAX_POINTS_PER_DOLLAR := 10_000

  datatype Station = Station(host: string, verified: bool, tier: string, bonus: int)

  datatype Request = Request(mode: string, goal: int, pointsPerDollar: int) {
    predicate Valid() { ValidMode(mode) && goal > 0 && 0 <= pointsPerDollar <= MAX_POINTS_PER_DOLLAR }
  }

  datatype Candidate = Candidate(pass: Pass, amount: int, score: int, selected: bool, code: Option<Code>)

  /** What a plan was made for. */
  datatype Brief = Brief(stations: map<string, Station>, prices: map<string, int>, request: Request)

  datatype Plan = Plan(brief: Brief, selected: seq<Candidate>, others: seq<Candidate>, contact: int, goalMet: bool,
                       excluded: seq<string>)

  function PriceKey(p: Pass): string { p.host + "@" + FormatInt(p.aos) }

  lemma NoAt(n: int)
    ensures '@' !in FormatInt(n)
  {
    assert AllDigits(Digits(if n < 0 then -n else n));
  }

  lemma SameHostLength(h: string, f: string, k: string, g: string)
    requires '@' !in f && '@' !in g
    ensures h + "@" + f == k + "@" + g ==> |h| == |k|
  {
    var s, t := h + "@" + f, k + "@" + g;
    assert s[|h|] == '@' && t[|k|] == '@';
    assert |h| < |k| && |k| < |s| ==> s[|k|] == f[|k| - |h| - 1];
    assert |k| < |h| && |h| < |t| ==> t[|h|] == g[|h| - |k| - 1];
  }

  lemma LastAt(h: string, f: string, k: string, g: string)
    requires h + "@" + f == k + "@" + g && '@' !in f && '@' !in g
    ensures h == k && f == g
  {
    SameHostLength(h, f, k, g);
    var s, t := h + "@" + f, k + "@" + g;
    assert h == s[..|h|] && k == t[..|k|] && f == s[|h| + 1..] && g == t[|k| + 1..];
  }

  /** A price key names one host and AOS, whatever the host contains. */
  lemma PriceKeyInjective(p: Pass, q: Pass)
    ensures PriceKey(p) == PriceKey(q) <==> SameKey(p, q)
  {
    NoAt(p.aos);
    NoAt(q.aos);
    if PriceKey(p) == PriceKey(q) {
      LastAt(p.host, FormatInt(p.aos), q.host, FormatInt(q.aos));
      FormatIntInjective(p.aos, q.aos);
    }
  }

  // -------------------------------------------------------------- orders

  /** Go's order on strings. */
  predicate Less(a: string, b: string) {
    b != "" && (a == "" || a[0] < b[0] || (a[0] == b[0] && Less(a[1..], b[1..])))
  }

  lemma {:induction false} LessAsymmetric(a: string, b: string)
    ensures !(Less(a, b) && Less(b, a))
  {
    if a != "" && b != "" {
      LessAsymmetric(a[1..], b[1..]);
    }
  }

  lemma {:induction false} LessConnected(a: string, b: string)
    requires !Less(a, b) && !Less(b, a)
    ensures a == b
  {
    if a != "" && b != "" {
      LessConnected(a[1..], b[1..]);
      assert a == [a[0]] + a[1..] && b == [b[0]] + b[1..];
    }
  }

  lemma {:induction false} NotLessTransitive(a: string, b: string, c: string)
    requires !Less(a, b) && !Less(b, c)
    ensures !Less(a, c)
  {
    if a != "" && b != "" && c != "" && a[0] == b[0] == c[0] {
      NotLessTransitive(a[1..], b[1..], c[1..]);
    }
  }

  predicate Sooner(p: Pass, q: Pass) { if p.aos != q.aos then p.aos < q.aos else Less(p.host, q.host) }

  predicate ByTime(a: Candidate, b: Candidate) { Sooner(a.pass, b.pass) }

  predicate Better(a: Candidate, b: Candidate) { if a.score != b.score then a.score > b.score else ByTime(a, b) }

  predicate SameKey(p: Pass, q: Pass) { p.host == q.host && p.aos == q.aos }

  lemma SoonerWeak()
    ensures WeakOrder(Sooner)
  {
    forall p, q ensures !(Sooner(p, q) && Sooner(q, p)) {
      LessAsymmetric(p.host, q.host);
    }
    forall p, q, r | !Sooner(p, q) && !Sooner(q, r) ensures !Sooner(p, r) {
      if p.aos == q.aos == r.aos {
        NotLessTransitive(p.host, q.host, r.host);
      }
    }
  }

  lemma SoonerTie(p: Pass, q: Pass)
    ensures !Sooner(p, q) && !Sooner(q, p) <==> SameKey(p, q)
  {
    if !Sooner(p, q) && !Sooner(q, p) {
      LessConnected(p.host, q.host);
    } else {
      LessAsymmetric(p.host, q.host);
    }
  }

  lemma ByTimeWeak()
    ensures WeakOrder(ByTime)
  {
    SoonerWeak();
    forall a: Candidate, b: Candidate ensures !(ByTime(a, b) && ByTime(b, a)) {
      assert !(Sooner(a.pass, b.pass) && Sooner(b.pass, a.pass));
    }
    forall a, b, c | !ByTime(a, b) && !ByTime(b, c) ensures !ByTime(a, c) {
      assert !Sooner(a.pass, b.pass) && !Sooner(b.pass, c.pass);
    }
  }

  lemma BetterWeak()
    ensures WeakOrder(Better)
  {
    ByTimeWeak();
    forall a, b ensures !(Better(a, b) && Better(b, a)) {
      assert !(ByTime(a, b) && ByTime(b, a));
    }
    forall a, b, c | !Better(a, b) && !Better(b, c) ensures !Better(a, c) {
      if a.score == b.score == c.score {
        assert !ByTime(a, b) && !ByTime(b, c);
      }
    }
  }

  // ---------------------------------------------------------- eligibility

  predicate TierAllows(tier: string, mode: string) {
    if mode == MODE_UPLINK then tier == FIDUCIARY
    else mode == MODE_DOWNLINK && (tier == FIDUCIARY || tier == TRANSACTIONAL)
  }

  /** Why p cannot be booked at all, if it cannot. */
  function Refusal(p: Pass, b: Brief, ex: set<string>): Option<Code> {
    if p.host in ex then Some(PlanExcluded)
    else if p.host !in b.stations then Some(PlanUnknownHost)
    else if !b.stations[p.host].verified then Some(PlanUnverified)
    else if !TierAllows(b.stations[p.host].tier, b.request.mode) then Some(PolicyRefusedTier)
    else if PriceKey(p) !in b.prices then Some(PlanNoQuote)
    else if b.prices[PriceKey(p)] < 0 || b.prices[PriceKey(p)] > MAX_PRICE_CENTS then Some(PlanBadPrice)
    else None
  }

  function Judge(p: Pass, b: Brief, ex: set<string>): Candidate {
    var price := if PriceKey(p) in b.prices then b.prices[PriceKey(p)] else 0;
    var code := Refusal(p, b, ex);
    var score := if code.None? then 100 * p.maxElevation + 100 * b.stations[p.host].bonus - b.request.pointsPerDollar * price
                 else 0;
    Candidate(p, price, score, false, code)
  }

  /** The judgement of one planning run. */
  function Judging(b: Brief, excluded: seq<string>): Pass -> Candidate {
    var ex := Names(excluded);
    (p: Pass) => Judge(p, b, ex)
  }

  function Names(hosts: seq<string>): set<string> { set h | h in hosts }

  predicate Open(c: Candidate) { c.code.None? }

  predicate Closed(c: Candidate) { c.code.Some? }

  // -------------------------------------------------------------- greedy

  predicate OverlapsAny(p: Pass, cs: seq<Candidate>) {
    exists i :: 0 <= i < |cs| && p.Overlaps(cs[i].pass)
  }

  datatype Picks = Picks(selected: seq<Candidate>, passed: seq<Candidate>, contact: int, goalMet: bool)

  const NO_PICKS := Picks([], [], 0, false)

  function Take(p: Picks, c: Candidate, goal: int): Picks {
    if p.goalMet then p.(passed := p.passed + [c.(code := Some(PlanGoalMet))])
    else if OverlapsAny(c.pass, p.selected) then p.(passed := p.passed + [c.(code := Some(PlanOverlap))])
    else
      var contact := p.contact + c.pass.duration;
      Picks(p.selected + [c.(selected := true)], p.passed, contact, contact >= goal)
  }

  function TakeAll(p: Picks, cs: seq<Candidate>, goal: int): Picks
    decreases |cs|
  {
    if cs == [] then p else TakeAll(Take(p, cs[0], goal), cs[1..], goal)
  }

  function PicksFor(table: seq<Pass>, judge: Pass -> Candidate, goal: int): Picks {
    TakeAll(NO_PICKS, Sort(Filter(Map(table, judge), Open), Better), goal)
  }

  function OthersFor(table: seq<Pass>, judge: Pass -> Candidate, goal: int): seq<Candidate> {
    Sort(Filter(Map(table, judge), Closed) + PicksFor(table, judge, goal).passed, ByTime)
  }

  function Scheduled(table: seq<Pass>, b: Brief, excluded: seq<string>): Plan {
    var judge := Judging(b, excluded);
    var picks := PicksFor(table, judge, b.request.goal);
    Plan(b, Sort(picks.selected, ByTime), OthersFor(table, judge, b.request.goal), picks.contact, picks.goalMet, excluded)
  }

  method ScheduleTable(table: seq<Pass>, b: Brief, excluded: seq<string>) returns (plan: Plan)
    ensures plan == Scheduled(table, b, excluded)
  {
    var judge := Judging(b, excluded);
    var eligible, refused := JudgeTable(table, judge);
    var picks := PickPasses(Sort(eligible, Better), b.request.goal);
    plan := Plan(b, Sort(picks.selected, ByTime), Sort(refused + picks.passed, ByTime), picks.contact, picks.goalMet, excluded);
  }

  method JudgeTable(table: seq<Pass>, judge: Pass -> Candidate) returns (eligible: seq<Candidate>, refused: seq<Candidate>)
    ensures eligible == Filter(Map(table, judge), Open) && refused == Filter(Map(table, judge), Closed)
  {
    eligible, refused := [], [];
    ghost var all := Map(table, judge);
    for i := 0 to |table|
      invariant eligible + Filter(Map(table[i..], judge), Open) == Filter(all, Open)
      invariant refused + Filter(Map(table[i..], judge), Closed) == Filter(all, Closed)
    {
      assert table[i..][0] == table[i] && table[i..][1..] == table[i + 1..];
      var c := judge(table[i]);
      assert Map(table[i..], judge) == [c] + Map(table[i + 1..], judge);
      if c.code.None? {
        eligible := eligible + [c];
      } else {
        refused := refused + [c];
      }
    }
  }

  method PickPasses(eligible: seq<Candidate>, goal: int) returns (picks: Picks)
    ensures picks == TakeAll(NO_PICKS, eligible, goal)
  {
    var selected, passed, contact, goalMet := [], [], 0, false;
    for i := 0 to |eligible|
      invariant TakeAll(Picks(selected, passed, contact, goalMet), eligible[i..], goal) == TakeAll(NO_PICKS, eligible, goal)
    {
      assert eligible[i..][0] == eligible[i] && eligible[i..][1..] == eligible[i + 1..];
      var c := eligible[i];
      var overlaps := FindOverlap(c.pass, selected);
      if goalMet {
        passed := passed + [c.(code := Some(PlanGoalMet))];
      } else if overlaps {
        passed := passed + [c.(code := Some(PlanOverlap))];
      } else {
        selected := selected + [c.(selected := true)];
        contact := contact + c.pass.duration;
        goalMet := contact >= goal;
      }
    }
    picks := Picks(selected, passed, contact, goalMet);
  }

  method FindOverlap(p: Pass, cs: seq<Candidate>) returns (found: bool)
    ensures found <==> OverlapsAny(p, cs)
  {
    for i := 0 to |cs|
      invariant forall k :: 0 <= k < i ==> !p.Overlaps(cs[k].pass)
    {
      if p.Overlaps(cs[i].pass) {
        return true;
      }
    }
    return false;
  }

  // ------------------------------------------------------------- requests

  predicate HostsOK(ss: seq<Station>) {
    && (forall i :: 0 <= i < |ss| ==> ss[i].host != "")
    && (forall i, j :: 0 <= i < j < |ss| ==> ss[i].host != ss[j].host)
  }

  function ByHost(ss: seq<Station>): map<string, Station> {
    if ss == [] then map[] else ByHost(ss[..|ss| - 1])[ss[|ss| - 1].host := ss[|ss| - 1]]
  }

  function Schedule(table: seq<Pass>, ss: seq<Station>, prices: map<string, int>, r: Request): Result<Plan> {
    if r.Valid() && HostsOK(ss) then Ok(Scheduled(table, Brief(ByHost(ss), prices, r), [])) else Err(BadRequest)
  }

  lemma {:induction false} ByHostKeys(ss: seq<Station>, h: string)
    ensures h in ByHost(ss) <==> exists i :: 0 <= i < |ss| && ss[i].host == h
  {
    if ss != [] {
      ByHostKeys(ss[..|ss| - 1], h);
      if h in ByHost(ss) && h != ss[|ss| - 1].host {
        var i :| 0 <= i < |ss| - 1 && ss[..|ss| - 1][i].host == h;
        assert ss[i].host == h;
      }
      if i :| 0 <= i < |ss| && ss[i].host == h {
        assert i < |ss| - 1 ==> ss[..|ss| - 1][i].host == h;
      }
    }
  }

  method IndexStations(ss: seq<Station>) returns (st: Option<map<string, Station>>)
    ensures st == if HostsOK(ss) then Some(ByHost(ss)) else None
  {
    var m: map<string, Station> := map[];
    for i := 0 to |ss|
      invariant HostsOK(ss[..i]) && m == ByHost(ss[..i])
    {
      assert ss[..i + 1][..i] == ss[..i];
      ByHostKeys(ss[..i], ss[i].host);
      if ss[i].host == "" || ss[i].host in m {
        return None;
      }
      m := m[ss[i].host := ss[i]];
    }
    assert ss[..|ss|] == ss;
    return Some(m);
  }

  method PlanPasses(table: seq<Pass>, ss: seq<Station>, prices: map<string, int>, r: Request) returns (plan: Result<Plan>)
    ensures plan == Schedule(table, ss, prices, r)
  {
    if !r.Valid() {
      return Err(BadRequest);
    }
    var st := IndexStations(ss);
    if st.None? {
      return Err(BadRequest);
    }
    var p := ScheduleTable(table, Brief(st.value, prices, r), []);
    return Ok(p);
  }

  // ---------------------------------------------------- what the orders mean

  /** One string is before another exactly when it is a proper prefix of it or has the lower character at the first
      place they differ. */
  lemma {:induction false} LessMeans(a: string, b: string)
    ensures Less(a, b) <==> exists k :: DifferAt(a, b, k)
  {
    if Less(a, b) {
      var k := LessAt(a, b);
    }
    forall k | DifferAt(a, b, k) ensures Less(a, b) {
      AtLess(a, b, k);
    }
  }

  predicate DifferAt(a: string, b: string, k: nat) {
    k <= |a| && k < |b| && a[..k] == b[..k] && (k < |a| ==> a[k] < b[k])
  }

  lemma {:induction false} LessAt(a: string, b: string) returns (k: nat)
    requires Less(a, b)
    ensures DifferAt(a, b, k)
  {
    k := 0;
    if a != "" && a[0] == b[0] {
      var j := LessAt(a[1..], b[1..]);
      k := j + 1;
      assert a[..k] == [a[0]] + a[1..][..j] && b[..k] == [b[0]] + b[1..][..j];
    }
  }

  lemma {:induction false} AtLess(a: string, b: string, k: nat)
    requires DifferAt(a, b, k)
    ensures Less(a, b)
    decreases k
  {
    if k > 0 {
      assert a[0] == a[..k][0] == b[..k][0] == b[0];
      assert a[1..][..k - 1] == a[..k][1..] && b[1..][..k - 1] == b[..k][1..];
      AtLess(a[1..], b[1..], k - 1);
    }
  }

  /** Better is a higher score; then an earlier AOS; then the host that sorts first. */
  lemma BetterMeans(a: Candidate, b: Candidate)
    ensures Better(a, b) <==>
              || a.score > b.score
              || (a.score == b.score && a.pass.aos < b.pass.aos)
              || (a.score == b.score && a.pass.aos == b.pass.aos && exists k :: DifferAt(a.pass.host, b.pass.host, k))
  {
    LessMeans(a.pass.host, b.pass.host);
  }

  /** Passes that last overlap exactly when they share a second. */
  lemma OverlapMeans(p: Pass, q: Pass)
    requires p.aos < p.los && q.aos < q.los
    ensures p.Overlaps(q) <==> exists t :: During(p, t) && During(q, t)
  {
    if p.Overlaps(q) {
      var t := if p.aos >= q.aos then p.aos else q.aos;
      assert During(p, t) && During(q, t);
    }
  }

  predicate During(p: Pass, t: int) { p.aos <= t < p.los }

  /** A plan comes back exactly for a known mode, a positive goal, a price weight of 0 to 10000 and stations with names of
      their own; each station is then looked up under its name. */
  lemma ScheduleExactly(table: seq<Pass>, ss: seq<Station>, prices: map<string, int>, r: Request)
    ensures var plan := Schedule(table, ss, prices, r);
            && (plan.Ok? <==>
                  && (r.mode == "uplink" || r.mode == "downlink") && 0 < r.goal && 0 <= r.pointsPerDollar <= 10_000
                  && (forall i :: 0 <= i < |ss| ==> |ss[i].host| > 0)
                  && (forall i, j :: 0 <= i < j < |ss| ==> ss[i].host != ss[j].host))
            && (plan.Err? ==> plan.code == BadRequest)
            && (plan.Ok? ==>
                  && plan.value.brief.prices == prices && plan.value.brief.request == r && plan.value.excluded == []
                  && (forall i :: 0 <= i < |ss| ==> ss[i].host in plan.value.brief.stations && plan.value.brief.stations[ss[i].host] == ss[i])
                  && (forall h :: h in plan.value.brief.stations ==> exists i :: 0 <= i < |ss| && ss[i].host == h))
  {
    if HostsOK(ss) {
      forall i | 0 <= i < |ss| ensures ss[i].host in ByHost(ss) && ByHost(ss)[ss[i].host] == ss[i] {
        ByHostFinds(ss, i);
      }
      forall h | h in ByHost(ss) ensures exists i :: 0 <= i < |ss| && ss[i].host == h {
        ByHostKeys(ss, h);
      }
    }
  }

  lemma {:induction false} ByHostFinds(ss: seq<Station>, i: nat)
    requires HostsOK(ss) && i < |ss|
    ensures ss[i].host in ByHost(ss) && ByHost(ss)[ss[i].host] == ss[i]
  {
    if i < |ss| - 1 {
      ByHostFinds(ss[..|ss| - 1], i);
    }
  }
}
