/** Exactly which tables give one selection in every order (internal/planner/planner.go). */
module SelectedExact {
  import opened Errs
  import opened Schema
  import opened Tiers
  import opened Passes
  import opened Sorting
  import opened Planner
  import opened PlanRules
  import opened PlanOrder
  import opened DiffBalance
  import opened DiffExact

  /** A higher pass of the same host and AOS sets no later: it is taken, or what keeps it out keeps p out too. */
  predicate Dominated(p: Pass, table: seq<Pass>) {
    exists z :: z in table && SameKey(z, p) && z.maxElevation > p.maxElevation && z.los <= p.los
  }

  /** Of two different passes that share host, AOS and elevation, one is dominated. */
  ghost predicate Uncontested(table: seq<Pass>) {
    forall p, q :: p in table && q in table && SameKey(p, q) && p.maxElevation == q.maxElevation && p != q ==>
      Dominated(p, table) || Dominated(q, table)
  }

  // ------------------------------------------------- dominated passes do not matter

  ghost predicate SameChoice(p: Picks, q: Picks) {
    p.selected == q.selected && p.contact == q.contact && p.goalMet == q.goalMet
  }

  ghost predicate Lasting(cs: seq<Candidate>) { forall c :: c in cs ==> c.pass.aos < c.pass.los }

  /** Each candidate seen overlaps what is selected, unless the goal is met. */
  ghost predicate Handled(p: Picks, done: seq<Candidate>) {
    forall d :: d in done ==> p.goalMet || OverlapsAny(d.pass, p.selected)
  }

  lemma TakeHandles(p: Picks, c: Candidate, goal: int, done: seq<Candidate>)
    requires Handled(p, done) && c.pass.aos < c.pass.los
    ensures Handled(Take(p, c, goal), done + [c])
  {
    var q := Take(p, c, goal);
    forall d | d in done && !q.goalMet ensures OverlapsAny(d.pass, q.selected) {
      var i :| 0 <= i < |p.selected| && d.pass.Overlaps(p.selected[i].pass);
      assert d.pass.Overlaps(q.selected[i].pass);
    }
    if !p.goalMet && !OverlapsAny(c.pass, p.selected) {
      assert c.pass.Overlaps(q.selected[|p.selected|].pass);
    }
  }

  /** What is around a candidate already handled cannot be selected. */
  lemma TakeAround(p: Picks, c: Candidate, z: Candidate, goal: int, done: seq<Candidate>)
    requires Handled(p, done) && z in done && z.pass.aos == c.pass.aos && z.pass.los <= c.pass.los
    ensures SameChoice(Take(p, c, goal), p)
  {
    if !p.goalMet {
      var i :| 0 <= i < |p.selected| && z.pass.Overlaps(p.selected[i].pass);
      assert c.pass.Overlaps(p.selected[i].pass);
    }
  }

  ghost predicate Around(c: Candidate, cs: seq<Candidate>) {
    exists z :: z in cs && Better(z, c) && z.pass.aos == c.pass.aos && z.pass.los <= c.pass.los
  }

  lemma BetterIsBefore(done: seq<Candidate>, rest: seq<Candidate>, z: Candidate)
    requires Ordered(done + rest, Better) && rest != [] && z in done + rest && Better(z, rest[0])
    ensures z in done
  {
    BetterWeak();
    var all := done + rest;
    var i :| 0 <= i < |all| && all[i] == z;
    assert all[|done|] == rest[0];
    assert i < |done| ==> z == done[i];
  }

  lemma {:induction false} SkipDominated(p: Picks, q: Picks, done: seq<Candidate>, rest: seq<Candidate>,
                                         keep: Candidate -> bool, goal: int)
    requires Ordered(done + rest, Better) && Handled(p, done) && SameChoice(p, q) && Lasting(done + rest)
    requires forall c :: c in rest && !keep(c) ==> Around(c, done + rest)
    ensures SameChoice(TakeAll(p, rest, goal), TakeAll(q, Filter(rest, keep), goal))
    decreases |rest|
  {
    if rest != [] {
      var c := rest[0];
      assert done + rest == (done + [c]) + rest[1..] && c in done + rest;
      TakeHandles(p, c, goal, done);
      if keep(c) {
        assert Filter(rest, keep)[1..] == Filter(rest[1..], keep);
        SkipDominated(Take(p, c, goal), Take(q, c, goal), done + [c], rest[1..], keep, goal);
      } else {
        var z :| z in done + rest && Better(z, c) && z.pass.aos == c.pass.aos && z.pass.los <= c.pass.los;
        BetterIsBefore(done, rest, z);
        TakeAround(p, c, z, goal, done);
        SkipDominated(Take(p, c, goal), q, done + [c], rest[1..], keep, goal);
      }
    }
  }

  function Contender(table: seq<Pass>): Candidate -> bool { (c: Candidate) => !Dominated(c.pass, table) }

  lemma DominatedAround(table: seq<Pass>, b: Brief, excluded: seq<string>, c: Candidate)
    requires c in EligibleOf(table, Judging(b, excluded)) && Dominated(c.pass, table)
    ensures Around(c, EligibleOf(table, Judging(b, excluded)))
  {
    var judge := Judging(b, excluded);
    JudgingFair(b, excluded);
    EligibleMember(table, judge, c);
    var z :| z in table && SameKey(z, c.pass) && z.maxElevation > c.pass.maxElevation && z.los <= c.pass.los;
    SameJudgement(z, c.pass, b, Names(excluded));
    var i :| 0 <= i < |table| && table[i] == z;
    MapAt(table, judge, i);
    FilterMember(Map(table, judge), Open, judge(z));
    assert Better(judge(z), c);
  }

  /** The selection is what the greedy rule makes of the passes that are not dominated. */
  lemma PicksOfContenders(table: seq<Pass>, b: Brief, excluded: seq<string>)
    requires Nonempty(table)
    ensures var es := EligibleOf(table, Judging(b, excluded));
            SameChoice(PicksFor(table, Judging(b, excluded), b.request.goal),
                       TakeAll(NO_PICKS, Sort(Filter(es, Contender(table)), Better), b.request.goal))
  {
    var judge := Judging(b, excluded);
    var es := EligibleOf(table, judge);
    var sorted := Sort(es, Better);
    JudgingFair(b, excluded);
    BetterWeak();
    SortOrdered(es, Better);
    SortPermutes(es, Better);
    SameElements(es, sorted);
    FilterSort(es, Better, Contender(table));
    assert [] + sorted == sorted;
    forall c | c in sorted ensures c.pass.aos < c.pass.los && (Dominated(c.pass, table) ==> Around(c, sorted)) {
      EligibleMember(table, judge, c);
      if Dominated(c.pass, table) {
        DominatedAround(table, b, excluded, c);
        AroundPermutes(c, es, sorted);
      }
    }
    SkipDominated(NO_PICKS, NO_PICKS, [], sorted, Contender(table), b.request.goal);
  }

  lemma AroundPermutes(c: Candidate, cs: seq<Candidate>, ds: seq<Candidate>)
    requires Around(c, cs) && forall x :: x in cs <==> x in ds
    ensures Around(c, ds)
  {
  }

  lemma ContendersUntied(table: seq<Pass>, b: Brief, excluded: seq<string>)
    requires Uncontested(table)
    ensures NoTies(Filter(EligibleOf(table, Judging(b, excluded)), Contender(table)), Better)
  {
    var judge := Judging(b, excluded);
    var es := EligibleOf(table, judge);
    JudgingFair(b, excluded);
    var cs := Filter(es, Contender(table));
    forall x, y | x in cs && y in cs && !Better(x, y) && !Better(y, x) ensures x == y {
      FilterMember(es, Contender(table), x);
      FilterMember(es, Contender(table), y);
      EligibleMember(table, judge, x);
      EligibleMember(table, judge, y);
      SoonerTie(x.pass, y.pass);
      SameJudgement(x.pass, y.pass, b, Names(excluded));
    }
  }

  lemma DominatedPermutes(s: seq<Pass>, t: seq<Pass>, cs: seq<Candidate>)
    requires forall p :: p in s <==> p in t
    ensures Filter(cs, Contender(s)) == Filter(cs, Contender(t))
  {
    forall p ensures Dominated(p, s) == Dominated(p, t) {
    }
    FilterSame(cs, Contender(s), Contender(t));
  }

  /** For passes that last: if no two contenders tie, every order of the table gives the same selection. */
  lemma UncontestedSelected(s: seq<Pass>, t: seq<Pass>, b: Brief, excluded: seq<string>)
    requires Nonempty(s) && Uncontested(s) && multiset(s) == multiset(t)
    ensures var p, q := Scheduled(s, b, excluded), Scheduled(t, b, excluded);
            p.selected == q.selected && p.contact == q.contact && p.goalMet == q.goalMet
  {
    var judge := Judging(b, excluded);
    var es, fs := EligibleOf(s, judge), EligibleOf(t, judge);
    SameElements(s, t);
    PicksOfContenders(s, b, excluded);
    PicksOfContenders(t, b, excluded);
    DominatedPermutes(s, t, fs);
    MapPermutes(s, t, judge);
    FilterPermutes(Map(s, judge), Map(t, judge), Open);
    FilterPermutes(es, fs, Contender(s));
    ContendersUntied(s, b, excluded);
    BetterWeak();
    SortUnique(Filter(es, Contender(s)), Filter(fs, Contender(s)), Better);
  }

  // ------------------------------------------------------ a contest in a table

  /** Two different passes that share host, AOS and elevation, neither dominated; and w of another host, that rises when
      the later of them sets. */
  datatype Contest = Contest(p: Pass, q: Pass, w: Pass)

  function TopElevation(table: seq<Pass>): int {
    if table == [] then 0
    else
      var top := TopElevation(table[1..]);
      if table[0].maxElevation >= top then table[0].maxElevation + 1 else top
  }

  lemma {:induction false} BelowTop(table: seq<Pass>, p: Pass)
    requires p in table
    ensures p.maxElevation < TopElevation(table)
  {
    if p != table[0] {
      BelowTop(table[1..], p);
    }
  }

  function ContestFor(table: seq<Pass>, p: Pass, q: Pass): Contest {
    var sets := if p.los >= q.los then p.los else q.los;
    Contest(p, q, Pass("", "x" + AllHosts(table), 0, sets, sets + 1, 0, 1, 0))
  }

  ghost predicate Contests(k: Contest, table: seq<Pass>) {
    && Nonempty(table) && k.p in table && k.q in table && k.p != k.q && SameKey(k.p, k.q)
    && k.p.maxElevation == k.q.maxElevation && !Dominated(k.p, table) && !Dominated(k.q, table)
    && k == ContestFor(table, k.p, k.q)
  }

  /** Only p's host and AOS and w have a price, and w scores most. */
  function ContestBrief(k: Contest, table: seq<Pass>): Brief {
    Brief(map[k.p.host := Station(k.p.host, true, FIDUCIARY, 0),
              k.w.host := Station(k.w.host, true, FIDUCIARY, TopElevation(table))],
          map[PriceKey(k.p) := 0, PriceKey(k.w) := 0], Request(MODE_UPLINK, 2, 0))
  }

  lemma ContestJudges(k: Contest, table: seq<Pass>)
    requires Contests(k, table)
    ensures var judge := Judging(ContestBrief(k, table), []);
            && Fair(judge) && Open(judge(k.w)) && judge(k.w).score == 100 * TopElevation(table)
            && (forall r :: r in table ==> (Open(judge(r)) <==> SameKey(r, k.p)))
            && (forall r :: r in table && SameKey(r, k.p) ==> judge(r).score == 100 * r.maxElevation)
  {
    var b := ContestBrief(k, table);
    JudgingFair(b, []);
    assert Names([]) == {};
    forall r | r in table
      ensures r.host != k.w.host && (Open(Judging(b, [])(r)) <==> SameKey(r, k.p))
      ensures SameKey(r, k.p) ==> Judging(b, [])(r).score == 100 * r.maxElevation
    {
      HostShorter(table, r);
      PriceKeyInjective(r, k.p);
      PriceKeyInjective(r, k.w);
    }
  }

  /** w keeps out every pass higher than the two, and neither of them. */
  lemma ContestWindow(k: Contest, table: seq<Pass>, r: Pass)
    requires Contests(k, table) && r in table && SameKey(r, k.p)
    ensures r.maxElevation > k.p.maxElevation ==> r.Overlaps(k.w)
    ensures !k.p.Overlaps(k.w) && !k.q.Overlaps(k.w)
  {
    assert k.p.aos < k.p.los && r.aos < r.los;
    assert SameKey(r, k.q);
  }

  /** The first of the contenders is taken after w, the rest are passed over. */
  lemma {:induction false} MergeOne(picks: Picks, r: Candidate, cs: seq<Candidate>, goal: int)
    requires !picks.goalMet && !OverlapsAny(r.pass, picks.selected)
    requires forall c :: c in cs ==> c.pass.Overlaps(r.pass) && (Better(c, r) ==> OverlapsAny(c.pass, picks.selected))
    ensures TakeAll(picks, Merge([r], cs, Better), goal).selected == picks.selected + [r.(selected := true)]
    decreases |cs|
  {
    if cs != [] && Better(cs[0], r) {
      assert cs[0] in cs;
      var rest := Merge([r], cs[1..], Better);
      assert ([cs[0]] + rest)[1..] == rest;
      MergeOne(Take(picks, cs[0], goal), r, cs[1..], goal);
    } else {
      assert Merge([r], cs, Better) == [r] + cs by {
        assert [r][1..] == [] && (cs != [] ==> Merge([], cs, Better) == cs);
      }
      var next := Take(picks, r, goal);
      assert ([r] + cs)[1..] == cs;
      forall c | c in cs ensures OverlapsAny(c.pass, next.selected) {
        assert c.pass.Overlaps(next.selected[|picks.selected|].pass);
      }
      AllPassed(next, cs, goal);
    }
  }

  lemma WFirst(w: Candidate, r: Candidate, cs: seq<Candidate>, goal: int)
    requires w.pass.duration < goal && !r.pass.Overlaps(w.pass) && (forall c :: c in cs ==> !Better(c, w))
    requires forall c :: c in cs ==> c.pass.Overlaps(r.pass) && (Better(c, r) ==> c.pass.Overlaps(w.pass))
    ensures TakeAll(NO_PICKS, Merge([w, r], cs, Better), goal).selected == [w.(selected := true), r.(selected := true)]
  {
    assert [w, r][1..] == [r];
    assert Merge([w, r], cs, Better) == [w] + Merge([r], cs, Better) by {
      if cs == [] {
        assert [w, r] == [w] + [r];
      } else {
        assert cs[0] in cs;
      }
    }
    var picks := Take(NO_PICKS, w, goal);
    assert picks.selected == [w.(selected := true)] && !picks.goalMet;
    assert ([w] + Merge([r], cs, Better))[1..] == Merge([r], cs, Better);
    forall c | c in cs && Better(c, r) ensures OverlapsAny(c.pass, picks.selected) {
      assert c.pass.Overlaps(picks.selected[0].pass);
    }
    MergeOne(picks, r, cs, goal);
  }

  lemma ContestRest(k: Contest, table: seq<Pass>, r: Pass, rest: seq<Pass>, x: Candidate)
    requires Contests(k, table) && (r == k.p || r == k.q) && forall y :: y in rest ==> y in table
    requires x in EligibleOf(rest, Judging(ContestBrief(k, table), []))
    ensures var judge := Judging(ContestBrief(k, table), []);
            !Better(x, judge(k.w)) && x.pass.Overlaps(r) && (Better(x, judge(r)) ==> x.pass.Overlaps(k.w))
  {
    var judge := Judging(ContestBrief(k, table), []);
    ContestJudges(k, table);
    EligibleMember(rest, judge, x);
    BelowTop(table, x.pass);
    ContestWindow(k, table, x.pass);
    SoonerTie(x.pass, r);
  }

  /** With w first and r, one of the two, second in the table, r is selected. */
  lemma ContestSelects(k: Contest, table: seq<Pass>, r: Pass, rest: seq<Pass>)
    requires Contests(k, table) && (r == k.p || r == k.q) && forall x :: x in rest ==> x in table
    ensures PassesOf(Scheduled([k.w, r] + rest, ContestBrief(k, table), []).selected) == [r, k.w]
  {
    var b := ContestBrief(k, table);
    var judge := Judging(b, []);
    ContestJudges(k, table);
    var w, c, es := judge(k.w), judge(r), EligibleOf(rest, judge);
    ContestEligible(k, table, r, rest, judge);
    var cs := Sort(es, Better);
    SortPermutes(es, Better);
    SameElements(es, cs);
    BetterWeak();
    BelowTop(table, r);
    SortIsMerge([w, c], es, Better);
    ContestWindow(k, table, r);
    forall x | x in cs ensures !Better(x, w) && x.pass.Overlaps(c.pass) && (Better(x, c) ==> x.pass.Overlaps(w.pass)) {
      ContestRest(k, table, r, rest, x);
    }
    WFirst(w, c, cs, b.request.goal);
    SortTwo(w.(selected := true), c.(selected := true), ByTime);
    PassesOfTwo(c.(selected := true), w.(selected := true));
  }

  lemma ContestEligible(k: Contest, table: seq<Pass>, r: Pass, rest: seq<Pass>, judge: Pass -> Candidate)
    requires Open(judge(k.w)) && Open(judge(r))
    ensures EligibleOf([k.w, r] + rest, judge) == [judge(k.w), judge(r)] + EligibleOf(rest, judge)
  {
    MapConcat([k.w, r], rest, judge);
    MapTwo(k.w, r, judge);
    FilterConcat([judge(k.w), judge(r)], Map(rest, judge), Open);
    FilterAll([judge(k.w), judge(r)], Open);
  }

  // ----------------------------------------------------------- exactly when

  /** Whatever passes of other stations stand beside the table, and whatever is asked, the selection is the same in every
      order. */
  ghost predicate SelectedFree(table: seq<Pass>) {
    forall more, s, t, b, excluded ::
      Beside(table, more) && Nonempty(more) && multiset(s) == multiset(table + more) && multiset(t) == multiset(s) ==>
        SameSelected(s, t, b, excluded)
  }

  ghost predicate SameSelected(s: seq<Pass>, t: seq<Pass>, b: Brief, excluded: seq<string>) {
    Scheduled(s, b, excluded).selected == Scheduled(t, b, excluded).selected
  }

  lemma NotFree(table: seq<Pass>, more: seq<Pass>, s: seq<Pass>, t: seq<Pass>, b: Brief, excluded: seq<string>)
    requires Beside(table, more) && Nonempty(more) && multiset(s) == multiset(table + more) && multiset(t) == multiset(s)
    requires !SameSelected(s, t, b, excluded)
    ensures !SelectedFree(table)
  {
  }

  lemma BesideUncontested(table: seq<Pass>, more: seq<Pass>, s: seq<Pass>)
    requires Nonempty(table) && Nonempty(more) && Uncontested(table) && Beside(table, more)
    requires forall p :: p in s <==> p in table || p in more
    ensures Nonempty(s) && Uncontested(s)
  {
    forall p, q | p in s && q in s && SameKey(p, q) && p.maxElevation == q.maxElevation && p != q
      ensures Dominated(p, s) || Dominated(q, s)
    {
      if p in table {
        assert q in table && (Dominated(p, table) || Dominated(q, table));
      } else {
        KeysMember(more, p, q);
      }
    }
  }

  lemma UncontestedFree(table: seq<Pass>)
    requires Nonempty(table) && Uncontested(table)
    ensures SelectedFree(table)
  {
    forall more, s, t, b, excluded |
      Beside(table, more) && Nonempty(more) && multiset(s) == multiset(table + more) && multiset(t) == multiset(s)
      ensures SameSelected(s, t, b, excluded)
    {
      SameElements(s, table + more);
      BesideUncontested(table, more, s);
      UncontestedSelected(s, t, b, excluded);
    }
  }

  lemma ContestTable(table: seq<Pass>, w: Pass, i: nat)
    requires i < |table|
    ensures multiset([w, table[i]] + Without(table, i)) == multiset(table + [w])
  {
    PutFirst(table, i);
    assert [w, table[i]] + Without(table, i) == [w] + ([table[i]] + Without(table, i));
  }

  lemma ContestBeside(k: Contest, table: seq<Pass>)
    requires Contests(k, table)
    ensures Beside(table, [k.w]) && Nonempty([k.w])
  {
    forall r | r in table ensures r.host != k.w.host {
      HostShorter(table, r);
    }
  }

  lemma ContestDiffers(k: Contest, table: seq<Pass>, rest: seq<Pass>, rest': seq<Pass>)
    requires Contests(k, table) && (forall x :: x in rest ==> x in table) && (forall x :: x in rest' ==> x in table)
    ensures !SameSelected([k.w, k.p] + rest, [k.w, k.q] + rest', ContestBrief(k, table), [])
  {
    ContestSelects(k, table, k.p, rest);
    ContestSelects(k, table, k.q, rest');
    assert [k.p, k.w][0] != [k.q, k.w][0];
  }

  lemma ContestBreaks(k: Contest, table: seq<Pass>)
    requires Contests(k, table)
    ensures !SelectedFree(table)
  {
    var i: nat :| i < |table| && table[i] == k.p;
    var j: nat :| j < |table| && table[j] == k.q;
    ContestTable(table, k.w, i);
    ContestTable(table, k.w, j);
    ContestBeside(k, table);
    WithoutMembers(table, i);
    WithoutMembers(table, j);
    ContestDiffers(k, table, Without(table, i), Without(table, j));
    NotFree(table, [k.w], [k.w, k.p] + Without(table, i), [k.w, k.q] + Without(table, j), ContestBrief(k, table), []);
  }

  /** For passes that last: the selection is the same for every order of the table, every request and whatever other
      stations' passes beside it, if and only if of any two different passes that share host, AOS and elevation one is
      dominated. */
  lemma SelectedFreeIff(table: seq<Pass>)
    requires Nonempty(table)
    ensures SelectedFree(table) <==> Uncontested(table)
  {
    if Uncontested(table) {
      UncontestedFree(table);
    } else {
      var p, q :| p in table && q in table && SameKey(p, q) && p.maxElevation == q.maxElevation && p != q &&
                  !Dominated(p, table) && !Dominated(q, table);
      ContestBreaks(ContestFor(table, p, q), table);
    }
  }
}
