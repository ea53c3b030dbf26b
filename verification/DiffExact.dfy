/** Exactly which tables keep the diff's contact seconds in balance (internal/planner/planner.go). */
module DiffExact {
  import opened Errs
  import opened Schema
  import opened Tiers
  import opened Passes
  import opened Sorting
  import opened Planner
  import opened PlanRules
  import opened PlanOrder
  import opened Replan
  import opened DiffBalance

  /** What every pass of the scan is: as long as its window, and not empty. */
  ghost predicate Real(table: seq<Pass>) { forall p :: p in table ==> p.duration == p.los - p.aos && p.aos < p.los }

  /** No pass of the table with p's host and AOS is higher. */
  ghost predicate Highest(p: Pass, table: seq<Pass>) {
    forall r :: r in table && SameKey(r, p) ==> r.maxElevation <= p.maxElevation
  }

  /** Of the passes with one host and AOS, the highest are the shortest. */
  ghost predicate HighestShortest(table: seq<Pass>) {
    forall p, q :: p in table && q in table && SameKey(p, q) && Highest(p, table) ==> p.los <= q.los
  }

  lemma {:induction false} HighestExists(table: seq<Pass>, c: Pass) returns (p: Pass)
    requires exists q :: q in table && SameKey(q, c)
    ensures p in table && SameKey(p, c) && Highest(p, table)
  {
    if q :| q in table[1..] && SameKey(q, c) {
      p := HighestExists(table[1..], c);
      if SameKey(table[0], c) && table[0].maxElevation > p.maxElevation {
        p := table[0];
      }
    } else {
      p := table[0];
    }
    assert forall r :: r in table ==> r == table[0] || r in table[1..];
  }

  // --------------------------------------------------- highest are shortest: enough

  lemma ApartMembers(cs: seq<Candidate>, s: Candidate, c: Candidate)
    requires Apart(cs) && s in cs && c in cs && s != c
    ensures !s.pass.Overlaps(c.pass) && !c.pass.Overlaps(s.pass)
  {
    var i :| 0 <= i < |cs| && cs[i] == s;
    var j :| 0 <= j < |cs| && cs[j] == c;
    assert if i < j then !cs[i].pass.Overlaps(cs[j].pass) else !cs[j].pass.Overlaps(cs[i].pass);
  }

  /** What was passed over because of a selection that holds c is no better than c, or not inside c's window. */
  lemma ExplainedBeside(o: Candidate, c: Candidate, selected: seq<Candidate>, goal: int)
    requires Explained(o, selected, goal) && c in selected && Apart(selected)
    requires c.pass.aos <= o.pass.aos && o.pass.los <= c.pass.los
    ensures !Better(o, c)
  {
    if o.code == Some(PlanOverlap) {
      var s :| s in selected && o.pass.Overlaps(s.pass) && !Better(o, s);
      if s != c {
        ApartMembers(selected, s, c);
      }
    }
  }

  /** A pass of the table is selected or among the others. */
  lemma SelectedOrNot(t: seq<Pass>, b: Brief, excluded: seq<string>, p: Pass)
    requires b.request.goal > 0 && p in t
    ensures var plan := Scheduled(t, b, excluded);
            (exists c :: c in plan.selected && c.pass == p) || (exists c :: c in plan.others && c.pass == p)
  {
    var plan := Scheduled(t, b, excluded);
    PlanPartitions(t, b, excluded);
    assert p in multiset(t);
    if p in PassesOf(plan.selected) {
      MapMember(plan.selected, PassOf, p);
    } else {
      assert p in multiset(PassesOf(plan.others));
      MapMember(plan.others, PassOf, p);
    }
  }

  /** A pass with c's host and AOS that is not selected and not longer than c is not higher. */
  lemma LeftNotHigher(t: seq<Pass>, b: Brief, excluded: seq<string>, c: Candidate, o: Candidate)
    requires b.request.goal > 0 && c in Scheduled(t, b, excluded).selected && o in Scheduled(t, b, excluded).others
    requires SameKey(o.pass, c.pass) && o.pass.los <= c.pass.los
    ensures o.pass.maxElevation <= c.pass.maxElevation
  {
    SelectedRules(t, b, excluded);
    OthersExplained(t, b, excluded);
    SameJudgement(o.pass, c.pass, b, Names(excluded));
    ExplainedBeside(o, c, Scheduled(t, b, excluded).selected, b.request.goal);
  }

  lemma SelectedTwice(t: seq<Pass>, b: Brief, excluded: seq<string>, c: Candidate, s: Candidate)
    requires b.request.goal > 0 && Real(t) && c in Scheduled(t, b, excluded).selected && s in Scheduled(t, b, excluded).selected
    requires SameKey(s.pass, c.pass)
    ensures s == c
  {
    SelectedRules(t, b, excluded);
    if s != c {
      ApartMembers(Scheduled(t, b, excluded).selected, s, c);
    }
  }

  /** A selected pass is no longer than a highest one of its host and AOS, when those are the shortest. */
  lemma NoLongerThanHighest(t: seq<Pass>, b: Brief, excluded: seq<string>, c: Candidate, p: Pass)
    requires b.request.goal > 0 && Real(t) && HighestShortest(t) && c in Scheduled(t, b, excluded).selected
    requires p in t && SameKey(p, c.pass) && Highest(p, t)
    ensures c.pass.los <= p.los
  {
    var plan := Scheduled(t, b, excluded);
    SelectedOrNot(t, b, excluded, p);
    if s :| s in plan.selected && s.pass == p {
      SelectedTwice(t, b, excluded, c, s);
    } else {
      var o :| o in plan.others && o.pass == p;
      if p.los < c.pass.los {
        LeftNotHigher(t, b, excluded, c, o);
        SelectedRules(t, b, excluded);
        NotHigher(t, c.pass, p);
      }
    }
  }

  lemma NotHigher(t: seq<Pass>, c: Pass, p: Pass)
    requires HighestShortest(t) && c in t && p in t && SameKey(p, c) && Highest(p, t) && p.maxElevation <= c.maxElevation
    ensures c.los <= p.los
  {
    assert Highest(c, t);
  }

  lemma ShortestCandidate(t: seq<Pass>, b: Brief, excluded: seq<string>, s: Candidate, q: Pass)
    requires b.request.goal > 0 && Real(t) && HighestShortest(t)
    requires s in Scheduled(t, b, excluded).selected && q in t && SameKey(q, s.pass)
    ensures s.pass.los <= q.los
  {
    var p := HighestExists(t, s.pass);
    NoLongerThanHighest(t, b, excluded, s, p);
    assert SameKey(p, q);
  }

  lemma SelectedShortest(t: seq<Pass>, b: Brief, excluded: seq<string>, c: Pass, q: Pass)
    requires b.request.goal > 0 && Real(t) && HighestShortest(t)
    requires c in PassesOf(Scheduled(t, b, excluded).selected) && q in t && SameKey(q, c)
    ensures c in t && c.los <= q.los
  {
    SelectedPasses(t, b, excluded);
    MapMember(Scheduled(t, b, excluded).selected, PassOf, c);
    var s :| s in Scheduled(t, b, excluded).selected && PassOf(s) == c;
    ShortestCandidate(t, b, excluded, s, q);
  }

  lemma SameTable(s: seq<Pass>, t: seq<Pass>)
    requires forall p :: p in s <==> p in t
    ensures Real(s) ==> Real(t)
    ensures HighestShortest(s) ==> HighestShortest(t)
  {
    if HighestShortest(s) {
      forall p, q | p in t && q in t && SameKey(p, q) && Highest(p, t) ensures p.los <= q.los {
        assert Highest(p, s);
      }
    }
  }

  /** For real passes of which the highest are the shortest, kept and added make up the plan after in contact seconds. */
  lemma HighestShortestBalances(table: seq<Pass>, b: Brief, excluded: seq<string>, host: string)
    requires b.request.goal > 0 && Real(table) && HighestShortest(table)
    ensures var prev := Scheduled(table, b, excluded); SecondsBalance(prev, Replanned(prev, host), host)
  {
    var prev := Scheduled(table, b, excluded);
    var next := Replanned(prev, host);
    BothKeysDistinct(table, b, excluded, host);
    NextContact(table, b, excluded, host);
    var t := ReplanPermutes(table, b, excluded, host);
    SameTable(table, t);
    forall p, q | p in PassesOf(prev.selected) && q in PassesOf(next.selected) && SameKey(p, q)
      ensures p.duration == q.duration
    {
      SelectedShortest(table, b, excluded, p, q);
      SelectedShortest(t, b, excluded + [host], q, p);
    }
    SecondsAfter(prev, next, host);
  }

  // ------------------------------------------------------ and nothing less is

  function AllHosts(table: seq<Pass>): string {
    if table == [] then "" else table[0].host + AllHosts(table[1..])
  }

  lemma {:induction false} HostShorter(table: seq<Pass>, p: Pass)
    requires p in table
    ensures |p.host| <= |AllHosts(table)|
  {
    if p != table[0] {
      HostShorter(table[1..], p);
    }
  }

  /** A trap in a table: p is highest of its host and AOS, v is shorter; and two passes of other hosts, w that rises as p
      sets, and s that overlaps w and p but not v. */
  datatype Trap = Trap(p: Pass, v: Pass, w: Pass, s: Pass)

  function TrapFor(table: seq<Pass>, p: Pass, v: Pass): Trap {
    Trap(p, v, Pass("", "x" + AllHosts(table), 0, p.los, p.los + 20, 0, 20, 0),
         Pass("", "y" + AllHosts(table), 0, v.los, p.los + 10, 0, p.los + 10 - v.los, 0))
  }

  ghost predicate Traps(k: Trap, table: seq<Pass>) {
    && Real(table) && k.p in table && k.v in table && SameKey(k.p, k.v) && Highest(k.p, table) && k.v.los < k.p.los
    && k == TrapFor(table, k.p, k.v)
  }

  lemma TrapHosts(k: Trap, table: seq<Pass>)
    requires Traps(k, table)
    ensures k.w.host != k.s.host && forall r :: r in table ==> r.host != k.w.host && r.host != k.s.host
  {
    assert k.w.host[0] != k.s.host[0];
    forall r | r in table ensures r.host != k.w.host && r.host != k.s.host {
      HostShorter(table, r);
    }
  }

  /** Only p's host and AOS, w and s have a price; w scores most, then s, then p. */
  function TrapBrief(k: Trap): Brief {
    var station := (host: string, bonus: int) => Station(host, true, FIDUCIARY, bonus);
    Brief(map[k.p.host := station(k.p.host, 0), k.w.host := station(k.w.host, k.p.maxElevation + 2),
              k.s.host := station(k.s.host, k.p.maxElevation + 1)],
          map[PriceKey(k.p) := 0, PriceKey(k.w) := 0, PriceKey(k.s) := 0],
          Request(MODE_UPLINK, 21 + k.s.duration, 0))
  }

  /** Whom the trap's brief lets plan, and the scores. */
  ghost predicate TrapScores(k: Trap, table: seq<Pass>, judge: Pass -> Candidate) {
    && Fair(judge)
    && Open(judge(k.s)) && judge(k.s).score == 100 * (k.p.maxElevation + 1)
    && (forall r :: r in table ==> (Open(judge(r)) <==> SameKey(r, k.p)))
    && (forall r :: r in table && SameKey(r, k.p) ==> judge(r).score == 100 * r.maxElevation)
  }

  lemma TrapJudges(k: Trap, table: seq<Pass>, excluded: seq<string>)
    requires Traps(k, table) && (excluded == [] || excluded == [k.w.host])
    ensures TrapScores(k, table, Judging(TrapBrief(k), excluded))
    ensures Open(Judging(TrapBrief(k), excluded)(k.w)) <==> excluded == []
    ensures excluded == [] ==> Judging(TrapBrief(k), excluded)(k.w).score == 100 * (k.p.maxElevation + 2)
  {
    var b := TrapBrief(k);
    TrapHosts(k, table);
    JudgingFair(b, excluded);
    assert Names([]) == {} && Names([k.w.host]) == {k.w.host};
    forall r | r in table
      ensures Open(Judging(b, excluded)(r)) <==> SameKey(r, k.p)
      ensures SameKey(r, k.p) ==> Judging(b, excluded)(r).score == 100 * r.maxElevation
    {
      PriceKeyInjective(r, k.p);
      PriceKeyInjective(r, k.w);
      PriceKeyInjective(r, k.s);
    }
  }

  // ------------------------------------------------------ before: w and p

  lemma {:induction false} TakeAllConcat(p: Picks, a: seq<Candidate>, b: seq<Candidate>, goal: int)
    ensures TakeAll(p, a + b, goal) == TakeAll(TakeAll(p, a, goal), b, goal)
    decreases |a|
  {
    if a == [] {
      assert a + b == b;
    } else {
      assert (a + b)[1..] == a[1..] + b;
      TakeAllConcat(Take(p, a[0], goal), a[1..], b, goal);
    }
  }

  lemma {:induction false} AllPassed(p: Picks, cs: seq<Candidate>, goal: int)
    requires forall c :: c in cs ==> OverlapsAny(c.pass, p.selected)
    ensures TakeAll(p, cs, goal).selected == p.selected
    decreases |cs|
  {
    if cs != [] {
      assert cs[0] in cs;
      AllPassed(Take(p, cs[0], goal), cs[1..], goal);
    }
  }

  lemma FrontTaken(w: Candidate, s: Candidate, p: Candidate, goal: int)
    requires s.pass.Overlaps(w.pass) && !p.pass.Overlaps(w.pass) && w.pass.duration < goal
    ensures TakeAll(NO_PICKS, [w, s, p], goal).selected == [w.(selected := true), p.(selected := true)]
  {
    var p1 := Take(NO_PICKS, w, goal);
    assert p1.selected == [w.(selected := true)] && !p1.goalMet;
    var p2 := Take(p1, s, goal);
    assert s.pass.Overlaps(p1.selected[0].pass) && p2.selected == p1.selected && !p2.goalMet;
    var p3 := Take(p2, p, goal);
    assert !OverlapsAny(p.pass, p2.selected);
    assert [w, s, p][1..] == [s, p] && [s, p][1..] == [p] && [p][1..] == [];
    assert TakeAll(p2, [p], goal) == TakeAll(p3, [], goal);
    assert TakeAll(p1, [s, p], goal) == TakeAll(p2, [p], goal);
  }

  function TrapTable(k: Trap, rest: seq<Pass>): seq<Pass> { [k.w, k.s, k.p] + rest }

  lemma TrapOrder(k: Trap, table: seq<Pass>, rest: seq<Pass>, judge: Pass -> Candidate)
    requires Traps(k, table) && TrapScores(k, table, judge) && (forall r :: r in rest ==> r in table)
    requires Open(judge(k.w)) && judge(k.w).score == 100 * (k.p.maxElevation + 2)
    ensures Sort(EligibleOf(TrapTable(k, rest), judge), Better) ==
              [judge(k.w), judge(k.s), judge(k.p)] + Sort(EligibleOf(rest, judge), Better)
    ensures forall e :: e in Sort(EligibleOf(rest, judge), Better) ==> e.pass in table && SameKey(e.pass, k.p)
  {
    var a, es := [judge(k.w), judge(k.s), judge(k.p)], EligibleOf(rest, judge);
    MapConcat([k.w, k.s, k.p], rest, judge);
    assert [k.w, k.s, k.p] == [k.w] + [k.s, k.p];
    MapPrepend(k.w, [k.s, k.p], judge);
    MapTwo(k.s, k.p, judge);
    FilterConcat(a, Map(rest, judge), Open);
    assert SameKey(k.p, k.p) && Open(judge(k.p));
    FilterAll(a, Open);
    BetterWeak();
    SortIsMerge(a, es, Better);
    SortPermutes(es, Better);
    SameElements(es, Sort(es, Better));
    forall e | e in Sort(es, Better) ensures e.pass in table && SameKey(e.pass, k.p) && e.score <= judge(k.p).score {
      EligibleMember(rest, judge, e);
    }
    forall x, e | x in a && e in Sort(es, Better) ensures !Better(e, x) {
      SoonerTie(e.pass, k.p);
    }
    MergeFront(a, Sort(es, Better), Better);
  }

  lemma TrapBefore(k: Trap, table: seq<Pass>, rest: seq<Pass>)
    requires Traps(k, table) && (forall r :: r in rest ==> r in table)
    ensures PassesOf(Scheduled(TrapTable(k, rest), TrapBrief(k), []).selected) == [k.p, k.w]
  {
    var b, judge := TrapBrief(k), Judging(TrapBrief(k), []);
    var goal := b.request.goal;
    TrapJudges(k, table, []);
    TrapOrder(k, table, rest, judge);
    var w, p, es := judge(k.w).(selected := true), judge(k.p).(selected := true), Sort(EligibleOf(rest, judge), Better);
    FrontTaken(judge(k.w), judge(k.s), judge(k.p), goal);
    var front := TakeAll(NO_PICKS, [judge(k.w), judge(k.s), judge(k.p)], goal);
    forall e | e in es ensures OverlapsAny(e.pass, front.selected) {
      assert e.pass.Overlaps(front.selected[1].pass);
    }
    TakeAllConcat(NO_PICKS, [judge(k.w), judge(k.s), judge(k.p)], es, goal);
    AllPassed(front, es, goal);
    assert PicksFor(TrapTable(k, rest), judge, goal).selected == [w, p];
    SortTwo(w, p, ByTime);
    PassesOfTwo(p, w);
  }

  lemma PassesOfTwo(a: Candidate, b: Candidate)
    ensures PassesOf([a, b]) == [a.pass, b.pass]
  {
    MapTwo(a, b, PassOf);
  }

  // ------------------------------------------------ after: s and a shorter one

  /** The table of the trap, in any order. */
  ghost predicate TrapIn(k: Trap, table: seq<Pass>, t: seq<Pass>) {
    Traps(k, table) && forall r :: r in t <==> r == k.w || r == k.s || r in table
  }

  function TrapNext(k: Trap, t: seq<Pass>): Plan { Scheduled(t, TrapBrief(k), [k.w.host]) }

  lemma TrapReal(k: Trap, table: seq<Pass>, t: seq<Pass>)
    requires TrapIn(k, table, t)
    ensures Real(t) && k.s in t && k.v in t && SameKey(k.v, k.p) && SameKey(k.p, k.v)
  {
  }

  /** What may be selected without w's host. */
  lemma TrapSelected(k: Trap, table: seq<Pass>, t: seq<Pass>, x: Candidate)
    requires TrapIn(k, table, t) && x in TrapNext(k, t).selected
    ensures x.pass == k.s || (x.pass in table && SameKey(x.pass, k.p))
    ensures if x.pass == k.s then x.score == 100 * (k.p.maxElevation + 1) else x.score <= 100 * k.p.maxElevation
  {
    TrapJudges(k, table, [k.w.host]);
    SelectedRules(t, TrapBrief(k), [k.w.host]);
    var judge := Judging(TrapBrief(k), [k.w.host]);
    assert x == judge(x.pass).(selected := true) && Open(judge(x.pass));
  }

  lemma NoContact(cs: seq<Candidate>)
    requires cs == []
    ensures ContactTime(cs) == 0
  {
  }

  lemma TrapTakesS(k: Trap, table: seq<Pass>, t: seq<Pass>) returns (x: Candidate)
    requires TrapIn(k, table, t)
    ensures x in TrapNext(k, t).selected && x.pass == k.s
  {
    var b, plan := TrapBrief(k), TrapNext(k, t);
    TrapReal(k, table, t);
    TrapJudges(k, table, [k.w.host]);
    SelectedOrNot(t, b, [k.w.host], k.s);
    if !exists c :: c in plan.selected && c.pass == k.s {
      var o :| o in plan.others && o.pass == k.s;
      OthersExplained(t, b, [k.w.host]);
      forall c | c in plan.selected ensures Better(o, c) {
        TrapSelected(k, table, t, c);
      }
      NobodyBetter(o, plan.selected, b.request.goal);
    }
    x :| x in plan.selected && x.pass == k.s;
  }

  /** A candidate better than all that is selected was not passed over. */
  lemma NobodyBetter(o: Candidate, selected: seq<Candidate>, goal: int)
    requires goal > 0 && forall c :: c in selected ==> Better(o, c)
    ensures !Explained(o, selected, goal)
  {
    if selected == [] {
      NoContact(selected);
    } else {
      assert selected[0] in selected;
    }
  }

  lemma TrapTakesShorter(k: Trap, table: seq<Pass>, t: seq<Pass>) returns (x: Candidate)
    requires TrapIn(k, table, t)
    ensures x in TrapNext(k, t).selected && x.pass in table && SameKey(x.pass, k.p)
  {
    var b, plan := TrapBrief(k), TrapNext(k, t);
    TrapReal(k, table, t);
    TrapJudges(k, table, [k.w.host]);
    SelectedOrNot(t, b, [k.w.host], k.v);
    if !exists c :: c in plan.selected && c.pass in table && SameKey(c.pass, k.p) {
      var o :| o in plan.others && o.pass == k.v;
      OthersExplained(t, b, [k.w.host]);
      SelectedRules(t, b, [k.w.host]);
      forall c | c in plan.selected ensures c.pass == k.s {
        TrapSelected(k, table, t, c);
      }
      OnlyS(k, table, plan.selected, o, b.request.goal);
    }
    x :| x in plan.selected && x.pass in table && SameKey(x.pass, k.p);
  }

  lemma SameOnce(cs: seq<Candidate>, s: Pass)
    requires Apart(cs) && s.aos < s.los && forall c :: c in cs ==> c.pass == s
    ensures |cs| <= 1
  {
    if cs != [] {
      var second := if |cs| > 1 then 1 else 0;
      assert cs[0] in cs && cs[second] in cs;
    }
  }

  /** If only s were selected, v would not have been passed over. */
  lemma OnlyS(k: Trap, table: seq<Pass>, selected: seq<Candidate>, o: Candidate, goal: int)
    requires Traps(k, table) && Apart(selected) && (forall c :: c in selected ==> c.pass == k.s) && o.pass == k.v
    requires goal > k.s.duration && goal > 0
    ensures !Explained(o, selected, goal)
  {
    SameOnce(selected, k.s);
    if |selected| == 1 {
      assert selected == [selected[0]] && selected[0] in selected;
      ContactAppend([], selected[0]);
      assert [] + [selected[0]] == selected;
    } else if selected == [] {
      NoContact(selected);
    }
  }

  lemma TwoMembers<T>(s: seq<T>, a: T, b: T)
    requires Distinct(s) && a in s && b in s && a != b && forall x :: x in s ==> x == a || x == b
    ensures s == [a, b] || s == [b, a]
  {
    var i :| 0 <= i < |s| && s[i] == a;
    var j :| 0 <= j < |s| && s[j] == b;
    var second, last := if |s| > 1 then 1 else 0, |s| - 1;
    assert s[0] in s && s[second] in s && s[last] in s;
  }

  lemma TrapAfter(k: Trap, table: seq<Pass>, t: seq<Pass>) returns (c: Pass)
    requires TrapIn(k, table, t)
    ensures PassesOf(TrapNext(k, t).selected) == [c, k.s] && c in table && SameKey(c, k.p) && c.los <= k.v.los
  {
    var b, plan := TrapBrief(k), TrapNext(k, t);
    var x := TrapTakesS(k, table, t);
    var y := TrapTakesShorter(k, table, t);
    c := y.pass;
    TrapReal(k, table, t);
    TrapHosts(k, table);
    SelectedRules(t, b, [k.w.host]);
    forall z | z in plan.selected ensures z == x || z == y {
      TrapSelected(k, table, t, z);
      if z.pass == k.s {
        SelectedTwice(t, b, [k.w.host], x, z);
      } else {
        SelectedTwice(t, b, [k.w.host], y, z);
      }
    }
    ApartDistinct(t, b, [k.w.host]);
    ApartMembers(plan.selected, x, y);
    TwoMembers(plan.selected, x, y);
    assert ByTime(y, x);
    PassesOfTwo(y, x);
  }

  lemma ApartDistinct(t: seq<Pass>, b: Brief, excluded: seq<string>)
    requires b.request.goal > 0 && Real(t)
    ensures Distinct(Scheduled(t, b, excluded).selected)
  {
    var cs := Scheduled(t, b, excluded).selected;
    SelectedRules(t, b, excluded);
    forall i, j | 0 <= i < j < |cs| ensures cs[i] != cs[j] {
      assert cs[i] in cs && cs[j] in cs && !cs[i].pass.Overlaps(cs[j].pass);
    }
  }

  // ----------------------------------------------------------- exactly when

  /** Passes of other stations beside the table: of other hosts, each at its own time. */
  ghost predicate Beside(table: seq<Pass>, more: seq<Pass>) {
    KeysDistinct(more) && forall p, q :: p in table && q in more ==> p.host != q.host
  }

  /** Whatever passes of other stations stand beside the table, in any order, and whatever is asked: kept and added make
      up the plan after every replan, in contact seconds. */
  ghost predicate AlwaysBalances(table: seq<Pass>) {
    forall more, t, b: Brief, excluded, host ::
      Beside(table, more) && Real(more) && multiset(t) == multiset(table + more) && b.request.goal > 0 ==>
        SecondsBalance(Scheduled(t, b, excluded), Replanned(Scheduled(t, b, excluded), host), host)
  }

  lemma BesideHighest(table: seq<Pass>, more: seq<Pass>)
    requires HighestShortest(table) && Real(table) && Real(more) && Beside(table, more)
    ensures HighestShortest(table + more) && Real(table + more)
  {
    var all := table + more;
    forall p, q | p in all && q in all && SameKey(p, q) && Highest(p, all) ensures p.los <= q.los {
      if p in table {
        assert Highest(p, table);
      } else {
        assert q in more;
        KeysMember(more, p, q);
      }
    }
  }

  lemma ShortestAlwaysBalances(table: seq<Pass>)
    requires Real(table) && HighestShortest(table)
    ensures AlwaysBalances(table)
  {
    forall more, t, b: Brief, excluded, host |
      Beside(table, more) && Real(more) && multiset(t) == multiset(table + more) && b.request.goal > 0
      ensures SecondsBalance(Scheduled(t, b, excluded), Replanned(Scheduled(t, b, excluded), host), host)
    {
      BesideHighest(table, more);
      SameElements(table + more, t);
      SameTable(table + more, t);
      HighestShortestBalances(t, b, excluded, host);
    }
  }

  /** With p kept for a shorter pass, the seconds do not add up. */
  lemma TrapUnbalanced(k: Trap, table: seq<Pass>, before: Plan, after: Plan, c: Pass, host: string)
    requires Traps(k, table) && c in table && SameKey(c, k.p) && c.los <= k.v.los
    requires PassesOf(before.selected) == [k.p, k.w] && PassesOf(after.selected) == [c, k.s]
    requires after.contact == ContactTime(after.selected)
    ensures !SecondsBalance(before, after, host)
  {
    TrapHosts(k, table);
    InPlanPass(k.p, after.selected);
    InPlanPass(k.w, after.selected);
    InPlanPass(c, before.selected);
    InPlanPass(k.s, before.selected);
    assert c in [c, k.s] && k.p in [k.p, k.w];
    FilterTwo(k.p, k.w, Within(after.selected));
    FilterTwo(c, k.s, Outside(before.selected));
    SecondsOfTwo(c, k.s);
    SecondsOfTwo(k.p, k.s);
  }

  lemma FilterTwo(x: Pass, y: Pass, f: Pass -> bool)
    ensures Filter([x, y], f) == (if f(x) then [x] else []) + (if f(y) then [y] else [])
  {
    assert [x, y] == [x] + [y];
    FilterConcat([x], [y], f);
    FilterOne(x, f);
    FilterOne(y, f);
  }

  lemma FilterOne(x: Pass, f: Pass -> bool)
    ensures Filter([x], f) == if f(x) then [x] else []
  {
    if f(x) {
      FilterAll([x], f);
    } else {
      FilterNone([x], f);
    }
  }

  lemma SecondsOfTwo(x: Pass, y: Pass)
    ensures Seconds([x, y]) == x.duration + y.duration && Seconds([x]) == x.duration && Seconds([y]) == y.duration
  {
    assert [x, y] == [x] + [y];
    SecondsConcat([x], [y]);
    assert [y][1..] == [] && [x][1..] == [];
    assert Seconds([x]) == x.duration + Seconds([]) && Seconds([y]) == y.duration + Seconds([]);
  }

  /** The trap's own passes stand beside the table. */
  lemma TrapBeside(k: Trap, table: seq<Pass>)
    requires Traps(k, table)
    ensures Beside(table, [k.w, k.s]) && Real([k.w, k.s])
  {
    TrapHosts(k, table);
    var more := [k.w, k.s];
    assert forall q :: q in more ==> q == k.w || q == k.s;
  }

  lemma TrapRuns(k: Trap, table: seq<Pass>, rest: seq<Pass>)
    requires Traps(k, table) && (forall r :: r in TrapTable(k, rest) <==> r == k.w || r == k.s || r in table)
    requires forall r :: r in rest ==> r in table
    ensures var prev := Scheduled(TrapTable(k, rest), TrapBrief(k), []);
            !SecondsBalance(prev, Replanned(prev, k.w.host), k.w.host)
  {
    var t, b := TrapTable(k, rest), TrapBrief(k);
    TrapBefore(k, table, rest);
    var t' := ReplanPermutes(t, b, [], k.w.host);
    assert [] + [k.w.host] == [k.w.host];
    var c := TrapAfter(k, table, t');
    NextContact(t, b, [], k.w.host);
    TrapUnbalanced(k, table, Scheduled(t, b, []), TrapNext(k, t'), c, k.w.host);
  }

  lemma TrapBreaks(k: Trap, table: seq<Pass>)
    requires Traps(k, table)
    ensures !AlwaysBalances(table)
  {
    var i: nat :| i < |table| && table[i] == k.p;
    var rest, more := Without(table, i), [k.w, k.s];
    var t := TrapTable(k, rest);
    TrapTablePermutes(k, table, i);
    SameElements(t, table + more);
    TrapBeside(k, table);
    WithoutMembers(table, i);
    TrapRuns(k, table, rest);
    assert TrapBrief(k).request.goal > 0;
  }

  lemma WithoutMembers(table: seq<Pass>, i: nat)
    requires i < |table|
    ensures forall r :: r in Without(table, i) ==> r in table
  {
  }

  lemma TrapTablePermutes(k: Trap, table: seq<Pass>, i: nat)
    requires i < |table| && table[i] == k.p
    ensures multiset(TrapTable(k, Without(table, i))) == multiset(table + [k.w, k.s])
  {
    PutFirst(table, i);
    assert TrapTable(k, Without(table, i)) == [k.w, k.s] + ([k.p] + Without(table, i));
  }

  /** For real passes: the contact seconds of every replan balance, whatever other stations' passes stand beside the
      table, if and only if of the passes with one host and AOS the highest are the shortest. */
  lemma AlwaysBalancesIff(table: seq<Pass>)
    requires Real(table)
    ensures AlwaysBalances(table) <==> HighestShortest(table)
  {
    if HighestShortest(table) {
      ShortestAlwaysBalances(table);
    } else {
      var p, v :| p in table && v in table && SameKey(p, v) && Highest(p, table) && p.los > v.los;
      TrapBreaks(TrapFor(table, p, v), table);
    }
  }

  /** The input: one station offers at one AOS a high long pass and a low short one. Some replan keeps one for the
      other. */
  lemma SwapUnbalanced()
    ensures var long, short := Pass("", "a", 1, 0, 100, 20, 100, 0), Pass("", "a", 1, 0, 50, 10, 50, 0);
            Real([long, short]) && !AlwaysBalances([long, short])
  {
    var long, short := Pass("", "a", 1, 0, 100, 20, 100, 0), Pass("", "a", 1, 0, 50, 10, 50, 0);
    var table := [long, short];
    assert table[0] == long && table[1] == short && Highest(long, table);
    AlwaysBalancesIff(table);
  }
}
