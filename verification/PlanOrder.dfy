/** When a plan does not depend on the order of the pass table and the stations. */
module PlanOrder {
  import opened Errs
  import opened Schema
  import opened Passes
  import opened Sorting
  import opened Planner
  import opened PlanRules

  /** A host and an AOS name one pass of the table. */
  ghost predicate Keyed(table: seq<Pass>) {
    forall p, q :: p in table && q in table && SameKey(p, q) ==> p == q
  }

  // ------------------------------------------------------- passes passed over

  ghost predicate OnePer(cs: seq<Candidate>) {
    forall x, y :: x in cs && y in cs && x.pass == y.pass ==> x == y
  }

  ghost predicate LeftOver(p: Picks, done: seq<Candidate>) {
    forall x :: x in p.passed ==> x.code in {Some(PlanOverlap), Some(PlanGoalMet)} && x.(code := None) in done
  }

  /** What passed over the last candidate would do the same to it again. */
  ghost predicate SameAgain(p: Picks, last: Pass) {
    forall x :: x in p.passed && x.pass == last ==>
      if x.code == Some(PlanGoalMet) then p.goalMet else !p.goalMet && OverlapsAny(last, p.selected)
  }

  /** Candidates between two equal ones in the order are equal too. */
  lemma Between(done: seq<Candidate>, c: Candidate, x: Candidate)
    requires Ordered(done + [c], Better) && NoTies(done + [c], Better) && x in done && x == c
    ensures done[|done| - 1] == c
  {
    var all, n := done + [c], |done| - 1;
    var k :| 0 <= k < |done| && done[k] == x;
    assert all[k] == c && all[n] == done[n] && all[n + 1] == c;
    assert all[n] in all && all[n + 1] in all;
    assert !Better(all[n + 1], all[n]);
    assert k < n ==> !Better(all[n], all[k]);
  }

  lemma TakeAgain(p: Picks, c: Candidate, goal: int, done: seq<Candidate>)
    requires Ordered(done + [c], Better) && NoTies(done + [c], Better) && OnePer(done + [c]) && c.code.None?
    requires LeftOver(p, done) && OnePer(p.passed) && (done != [] ==> SameAgain(p, done[|done| - 1].pass))
    ensures LeftOver(Take(p, c, goal), done + [c]) && OnePer(Take(p, c, goal).passed) && SameAgain(Take(p, c, goal), c.pass)
  {
    var q := Take(p, c, goal);
    forall x | x in p.passed && x.pass == c.pass
      ensures if x.code == Some(PlanGoalMet) then p.goalMet else !p.goalMet && OverlapsAny(c.pass, p.selected)
      ensures x.(code := None) == c
    {
      var d := x.(code := None);
      assert d in done + [c] && c in done + [c] && d.pass == c.pass;
      Between(done, c, d);
    }
    if p.goalMet || OverlapsAny(c.pass, p.selected) {
      var n := c.(code := Some(if p.goalMet then PlanGoalMet else PlanOverlap));
      assert q.passed == p.passed + [n] && n.(code := None) == c;
      forall x | x in p.passed && x.pass == c.pass ensures x == n {
        assert x.code == n.code && x.(code := None) == n.(code := None);
      }
    }
  }

  lemma {:induction false} PassedOnce(p: Picks, done: seq<Candidate>, rest: seq<Candidate>, goal: int)
    requires Ordered(done + rest, Better) && NoTies(done + rest, Better) && OnePer(done + rest)
    requires forall c :: c in rest ==> c.code.None?
    requires LeftOver(p, done) && OnePer(p.passed) && (done != [] ==> SameAgain(p, done[|done| - 1].pass))
    ensures LeftOver(TakeAll(p, rest, goal), done + rest) && OnePer(TakeAll(p, rest, goal).passed)
    decreases |rest|
  {
    if rest == [] {
      assert done + rest == done;
    } else {
      var c := rest[0];
      assert done + rest == (done + [c]) + rest[1..];
      assert Ordered(done + [c], Better) by {
        var all := (done + [c]) + rest[1..];
        assert forall i :: 0 <= i < |done + [c]| ==> (done + [c])[i] == all[i];
      }
      TakeAgain(p, c, goal, done);
      PassedOnce(Take(p, c, goal), done + [c], rest[1..], goal);
    }
  }

  // -------------------------------------------------------- permuted tables

  lemma EligibleNoTies(table: seq<Pass>, judge: Pass -> Candidate)
    requires Fair(judge) && Keyed(table)
    ensures NoTies(EligibleOf(table, judge), Better) && OnePer(EligibleOf(table, judge))
  {
    var es := EligibleOf(table, judge);
    forall x, y | x in es && y in es && (x.pass == y.pass || (!Better(x, y) && !Better(y, x))) ensures x == y {
      EligibleMember(table, judge, x);
      EligibleMember(table, judge, y);
      SoonerTie(x.pass, y.pass);
    }
  }

  /** What is passed over is eligible, each pass with one reason. */
  lemma PassedOpen(table: seq<Pass>, judge: Pass -> Candidate, goal: int)
    requires Fair(judge) && Keyed(table)
    ensures var passed := PicksFor(table, judge, goal).passed;
            OnePer(passed) && forall x :: x in passed ==> x.pass in table && judge(x.pass).code.None?
  {
    var es := Sort(EligibleOf(table, judge), Better);
    SortPermutes(EligibleOf(table, judge), Better);
    SameElements(es, EligibleOf(table, judge));
    BetterWeak();
    SortOrdered(EligibleOf(table, judge), Better);
    EligibleNoTies(table, judge);
    forall c | c in es ensures c.code.None? {
      EligibleMember(table, judge, c);
    }
    assert [] + es == es;
    PassedOnce(NO_PICKS, [], es, goal);
    forall x | x in PicksFor(table, judge, goal).passed ensures x.pass in table && judge(x.pass).code.None? {
      EligibleMember(table, judge, x.(code := None));
    }
  }

  lemma RefusedClosed(table: seq<Pass>, judge: Pass -> Candidate, x: Candidate)
    requires Fair(judge) && x in Filter(Map(table, judge), Closed)
    ensures x.pass in table && x == judge(x.pass) && judge(x.pass).code.Some?
  {
    FilterMember(Map(table, judge), Closed, x);
    JudgedMember(table, judge, x);
  }

  /** Every candidate passed over or refused, and no two with one key. */
  lemma OthersNoTies(table: seq<Pass>, judge: Pass -> Candidate, goal: int)
    requires Fair(judge) && Keyed(table)
    ensures NoTies(Filter(Map(table, judge), Closed) + PicksFor(table, judge, goal).passed, ByTime)
  {
    var passed, refused := PicksFor(table, judge, goal).passed, Filter(Map(table, judge), Closed);
    PassedOpen(table, judge, goal);
    forall x | x in refused ensures x.pass in table && x == judge(x.pass) && judge(x.pass).code.Some? {
      RefusedClosed(table, judge, x);
    }
    forall x, y | x in refused + passed && y in refused + passed && !ByTime(x, y) && !ByTime(y, x) ensures x == y {
      SoonerTie(x.pass, y.pass);
    }
  }

  lemma PermutedPicks(s: seq<Pass>, t: seq<Pass>, judge: Pass -> Candidate, goal: int)
    requires Fair(judge) && Keyed(s) && multiset(s) == multiset(t)
    ensures PicksFor(s, judge, goal) == PicksFor(t, judge, goal) && OthersFor(s, judge, goal) == OthersFor(t, judge, goal)
  {
    MapPermutes(s, t, judge);
    FilterPermutes(Map(s, judge), Map(t, judge), Open);
    FilterPermutes(Map(s, judge), Map(t, judge), Closed);
    EligibleNoTies(s, judge);
    BetterWeak();
    SortUnique(EligibleOf(s, judge), EligibleOf(t, judge), Better);
    OthersNoTies(s, judge, goal);
    ByTimeWeak();
    var passed := PicksFor(s, judge, goal).passed;
    SortUnique(Filter(Map(s, judge), Closed) + passed, Filter(Map(t, judge), Closed) + passed, ByTime);
  }

  /** With one pass per host and AOS, any order of the table gives the same plan. */
  lemma PermutedTable(s: seq<Pass>, t: seq<Pass>, b: Brief, excluded: seq<string>)
    requires Keyed(s) && multiset(s) == multiset(t)
    ensures Scheduled(s, b, excluded) == Scheduled(t, b, excluded)
  {
    JudgingFair(b, excluded);
    PermutedPicks(s, t, Judging(b, excluded), b.request.goal);
  }

  // ------------------------------------------------------- what is selected

  /** Passes with one host and AOS are judged alike, and their scores differ by their elevation. */
  lemma SameJudgement(p: Pass, q: Pass, b: Brief, ex: set<string>)
    requires SameKey(p, q)
    ensures Refusal(p, b, ex) == Refusal(q, b, ex)
    ensures Refusal(p, b, ex).None? ==>
              Judge(p, b, ex).score - Judge(q, b, ex).score == 100 * (p.maxElevation - q.maxElevation)
  {
    PriceKeyInjective(p, q);
  }

  /** No two different passes share host, AOS and elevation: nothing ties in score. */
  ghost predicate Untied(table: seq<Pass>) {
    forall p, q :: p in table && q in table && SameKey(p, q) && p.maxElevation == q.maxElevation ==> p == q
  }

  lemma UntiedNoTies(table: seq<Pass>, b: Brief, excluded: seq<string>)
    requires Untied(table)
    ensures NoTies(EligibleOf(table, Judging(b, excluded)), Better)
  {
    var judge := Judging(b, excluded);
    JudgingFair(b, excluded);
    var es := EligibleOf(table, judge);
    forall x, y | x in es && y in es && !Better(x, y) && !Better(y, x) ensures x == y {
      EligibleMember(table, judge, x);
      EligibleMember(table, judge, y);
      SoonerTie(x.pass, y.pass);
      SameJudgement(x.pass, y.pass, b, Names(excluded));
    }
  }

  /** Selected needs less than the whole plan: without ties in score it is the same for every order of the table, though
      passes may share host and AOS. */
  lemma PermutedSelected(s: seq<Pass>, t: seq<Pass>, b: Brief, excluded: seq<string>)
    requires Untied(s) && multiset(s) == multiset(t)
    ensures var p, q := Scheduled(s, b, excluded), Scheduled(t, b, excluded);
            p.selected == q.selected && p.contact == q.contact && p.goalMet == q.goalMet
  {
    var judge := Judging(b, excluded);
    MapPermutes(s, t, judge);
    FilterPermutes(Map(s, judge), Map(t, judge), Open);
    UntiedNoTies(s, b, excluded);
    BetterWeak();
    SortUnique(EligibleOf(s, judge), EligibleOf(t, judge), Better);
  }

  // ------------------------------------------------------ permuted stations

  function HostOf(s: Station): string { s.host }

  lemma HostsOKByName(ss: seq<Station>)
    ensures HostsOK(ss) <==> Distinct(Map(ss, HostOf)) && "" !in Map(ss, HostOf)
  {
    MapLength(ss, HostOf);
    forall i | 0 <= i < |ss| ensures Map(ss, HostOf)[i] == ss[i].host {
      MapAt(ss, HostOf, i);
    }
  }

  lemma {:induction false} ByHostValue(ss: seq<Station>, i: nat)
    requires HostsOK(ss) && i < |ss|
    ensures ss[i].host in ByHost(ss) && ByHost(ss)[ss[i].host] == ss[i]
  {
    if i < |ss| - 1 {
      ByHostValue(ss[..|ss| - 1], i);
    }
  }

  lemma PermutedStations(ss: seq<Station>, tt: seq<Station>)
    requires multiset(ss) == multiset(tt)
    ensures HostsOK(ss) <==> HostsOK(tt)
    ensures HostsOK(ss) ==> ByHost(ss) == ByHost(tt)
  {
    HostsOKByName(ss);
    HostsOKByName(tt);
    MapPermutes(ss, tt, HostOf);
    SameElements(Map(ss, HostOf), Map(tt, HostOf));
    if Distinct(Map(ss, HostOf)) {
      DistinctPermutes(Map(ss, HostOf), Map(tt, HostOf));
    } else if Distinct(Map(tt, HostOf)) {
      DistinctPermutes(Map(tt, HostOf), Map(ss, HostOf));
    }
    if HostsOK(ss) {
      SameIndex(ss, tt);
    }
  }

  lemma SameIndex(ss: seq<Station>, tt: seq<Station>)
    requires multiset(ss) == multiset(tt) && HostsOK(ss) && HostsOK(tt)
    ensures ByHost(ss) == ByHost(tt)
  {
    SameElements(ss, tt);
    assert forall j :: 0 <= j < |tt| ==> tt[j] in ss;
    forall h ensures h in ByHost(ss) <==> h in ByHost(tt)
             ensures h in ByHost(ss) ==> ByHost(ss)[h] == ByHost(tt)[h]
    {
      ByHostKeys(ss, h);
      ByHostKeys(tt, h);
      if i :| 0 <= i < |ss| && ss[i].host == h {
        ByHostValue(ss, i);
        assert ss[i] in tt;
        var j :| 0 <= j < |tt| && tt[j] == ss[i];
        ByHostValue(tt, j);
      }
    }
  }

  // ----------------------------------------------------------- exactly when

  /** Whatever the stations, prices and request, the order of the table and of the stations does not matter. */
  ghost predicate OrderFree(table: seq<Pass>) {
    forall t, ss, tt, prices, r :: multiset(t) == multiset(table) && multiset(ss) == multiset(tt) ==>
      Schedule(t, tt, prices, r) == Schedule(table, ss, prices, r)
  }

  lemma KeyedIsOrderFree(table: seq<Pass>)
    requires Keyed(table)
    ensures OrderFree(table)
  {
    forall t, ss, tt, prices, r | multiset(t) == multiset(table) && multiset(ss) == multiset(tt)
      ensures Schedule(t, tt, prices, r) == Schedule(table, ss, prices, r)
    {
      PermutedStations(ss, tt);
      if r.Valid() && HostsOK(ss) {
        PermutedTable(table, t, Brief(ByHost(ss), prices, r), []);
      }
    }
  }

  function KeyIs(key: Pass): Candidate -> bool { (c: Candidate) => SameKey(c.pass, key) }

  /** With no station known, Others is the table in time order, and passes with one key keep their table order. */
  lemma UnknownHosts(table: seq<Pass>, b: Brief, key: Pass)
    requires b.stations == map[]
    ensures Filter(Scheduled(table, b, []).others, KeyIs(key)) ==
              Filter(Map(table, Judging(b, [])), KeyIs(key))
  {
    var judge := Judging(b, []);
    var same := KeyIs(key);
    var cs := Map(table, judge);
    JudgingFair(b, []);
    forall c | c in cs ensures c.code.Some? {
      JudgedMember(table, judge, c);
    }
    FilterAll(cs, Closed);
    FilterNone(cs, Open);
    assert PicksFor(table, judge, b.request.goal).passed == [];
    assert cs + [] == cs;
    assert Scheduled(table, b, []).others == Sort(cs, ByTime);
    ByTimeWeak();
    FilterSort(cs, ByTime, same);
    forall x, y | x in Filter(cs, same) && y in Filter(cs, same) ensures !ByTime(x, y) {
      FilterMember(cs, same, x);
      FilterMember(cs, same, y);
      SoonerTie(x.pass, y.pass);
    }
    TiedSort(Filter(cs, same), ByTime);
  }

  lemma FirstOfKey(p: Pass, q: Pass, rest: seq<Pass>, b: Brief)
    requires b.stations == map[]
    ensures var same := Filter(Scheduled([p, q] + rest, b, []).others, KeyIs(p));
            same != [] && same[0].pass == p
  {
    var table := [p, q] + rest;
    UnknownHosts(table, b, p);
    JudgingFair(b, []);
    assert Map(table, Judging(b, []))[0].pass == p;
  }

  lemma PutFirst(t: seq<Pass>, i: nat)
    requires i < |t|
    ensures multiset([t[i]] + Without(t, i)) == multiset(t)
  {
    WithoutCount(t, i);
    assert t[i] in multiset(t);
  }

  lemma SwapFirst(p: Pass, q: Pass, rest: seq<Pass>)
    ensures multiset([p, q] + rest) == multiset([q] + ([p] + rest))
  {
    assert [p, q] + rest == [p] + ([q] + rest);
  }

  lemma BringForward(table: seq<Pass>, i: nat, j: nat) returns (rest: seq<Pass>)
    requires i < j < |table|
    ensures multiset([table[i], table[j]] + rest) == multiset(table)
    ensures multiset([table[j], table[i]] + rest) == multiset(table)
  {
    var p, q, one := table[i], table[j], Without(table, j);
    rest := Without(one, i);
    PutFirst(table, j);
    PutFirst(one, i);
    assert one[i] == p;
    assert multiset([q] + ([p] + rest)) == multiset([q] + one);
    SwapFirst(p, q, rest);
    assert [q, p] + rest == [q] + ([p] + rest);
  }

  lemma SameEitherWay(table: seq<Pass>, i: nat, j: nat) returns (rest: seq<Pass>)
    requires OrderFree(table) && i < j < |table|
    ensures var b := Brief(map[], map[], Request(MODE_UPLINK, 1, 0));
            Scheduled([table[i], table[j]] + rest, b, []) == Scheduled([table[j], table[i]] + rest, b, [])
  {
    var r := Request(MODE_UPLINK, 1, 0);
    rest := BringForward(table, i, j);
    var s, t := [table[i], table[j]] + rest, [table[j], table[i]] + rest;
    assert Schedule(s, [], map[], r) == Schedule(table, [], map[], r);
    assert Schedule(t, [], map[], r) == Schedule(table, [], map[], r);
    NoStations(s, r);
    NoStations(t, r);
  }

  lemma NoStations(t: seq<Pass>, r: Request)
    requires r.Valid()
    ensures Schedule(t, [], map[], r) == Ok(Scheduled(t, Brief(map[], map[], r), []))
  {
    assert HostsOK([]) && ByHost([]) == map[];
  }

  lemma OrderFreeIsKeyed(table: seq<Pass>)
    requires OrderFree(table)
    ensures Keyed(table)
  {
    forall i: nat, j: nat | i < j < |table| && SameKey(table[i], table[j]) ensures table[i] == table[j] {
      var p, q := table[i], table[j];
      var b := Brief(map[], map[], Request(MODE_UPLINK, 1, 0));
      var rest := SameEitherWay(table, i, j);
      FirstOfKey(p, q, rest, b);
      FirstOfKey(q, p, rest, b);
      SameFilter(Scheduled([p, q] + rest, b, []).others, p, q);
    }
  }

  lemma SameFilter(cs: seq<Candidate>, p: Pass, q: Pass)
    requires SameKey(p, q)
    ensures Filter(cs, KeyIs(p)) == Filter(cs, KeyIs(q))
  {
    FilterSame(cs, KeyIs(p), KeyIs(q));
  }

  /** The plan is the same for every order of the table and the stations, for every request, exactly when the table
      has one pass per host and AOS. */
  lemma OrderFreeIffKeyed(table: seq<Pass>)
    ensures OrderFree(table) <==> Keyed(table)
  {
    if Keyed(table) {
      KeyedIsOrderFree(table);
    }
    if OrderFree(table) {
      OrderFreeIsKeyed(table);
    }
  }
}
