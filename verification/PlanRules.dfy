/** What every plan keeps to (internal/planner/planner.go). */
module PlanRules {
  import opened Errs
  import opened Schema
  import opened Passes
  import opened Sorting
  import opened Planner
  import opened Tiers
  import opened Rules

  function PassOf(c: Candidate): Pass { c.pass }

  function PassesOf(cs: seq<Candidate>): seq<Pass> { Map(cs, PassOf) }

  function Seconds(ps: seq<Pass>): int {
    if ps == [] then 0 else ps[0].duration + Seconds(ps[1..])
  }

  function ContactTime(cs: seq<Candidate>): int { Seconds(PassesOf(cs)) }

  lemma {:induction false} SecondsConcat(a: seq<Pass>, b: seq<Pass>)
    ensures Seconds(a + b) == Seconds(a) + Seconds(b)
  {
    if a == [] {
      assert a + b == b;
    } else {
      assert (a + b)[1..] == a[1..] + b;
      SecondsConcat(a[1..], b);
    }
  }

  lemma {:induction false} SecondsPermutes(a: seq<Pass>, b: seq<Pass>)
    requires multiset(a) == multiset(b)
    ensures Seconds(a) == Seconds(b)
    decreases |a|
  {
    SameElements(a, b);
    if a != [] {
      var i := TakeHead(a, b);
      SecondsPermutes(a[1..], Without(b, i));
      assert b == b[..i] + ([b[i]] + b[i + 1..]);
      SecondsConcat(b[..i], [b[i]] + b[i + 1..]);
      SecondsConcat(b[..i], b[i + 1..]);
    }
  }

  lemma ContactPermutes(a: seq<Candidate>, b: seq<Candidate>)
    requires multiset(a) == multiset(b)
    ensures ContactTime(a) == ContactTime(b)
  {
    MapPermutes(a, b, PassOf);
    SecondsPermutes(PassesOf(a), PassesOf(b));
  }

  lemma ContactAppend(cs: seq<Candidate>, c: Candidate)
    ensures PassesOf(cs + [c]) == PassesOf(cs) + [c.pass] && ContactTime(cs + [c]) == ContactTime(cs) + c.pass.duration
  {
    MapConcat(cs, [c], PassOf);
    SecondsConcat(PassesOf(cs), [c.pass]);
  }

  // ------------------------------------------------------------ the greedy rule

  ghost predicate Apart(cs: seq<Candidate>) {
    forall i, j :: 0 <= i < j < |cs| ==> !cs[i].pass.Overlaps(cs[j].pass)
  }

  /** Why an eligible pass was left: one at least as good overlaps it, taken when the goal was not yet met without worse
      ones; or ones at least as good met the goal. */
  ghost predicate Explained(c: Candidate, selected: seq<Candidate>, goal: int) {
    match c.code
    case Some(PlanOverlap) =>
      && (exists s :: s in selected && c.pass.Overlaps(s.pass) && !Better(c, s))
      && (ContactTime(selected) >= goal ==> exists s :: s in selected && !Better(s, c))
    case Some(PlanGoalMet) => ContactTime(selected) >= goal && forall s :: s in selected ==> !Better(c, s)
    case _ => false
  }

  /** Each was taken, best first, while the goal was not met by those before it. */
  ghost predicate TakenInTurn(order: seq<Candidate>, goal: int) {
    Ordered(order, Better) && forall i :: 0 <= i < |order| ==> ContactTime(order[..i]) < goal
  }

  ghost predicate SelectedOK(p: Picks, done: seq<Candidate>, goal: int) {
    && Apart(p.selected) && TakenInTurn(p.selected, goal)
    && p.contact == ContactTime(p.selected) && (p.goalMet <==> p.contact >= goal)
    && (forall s :: s in p.selected ==> s.selected && s.(selected := false) in done)
  }

  ghost predicate PassedOK(p: Picks, done: seq<Candidate>, goal: int) {
    forall x :: x in p.passed ==> Explained(x, p.selected, goal) && x.(code := None) in done
  }

  ghost predicate Partition(p: Picks, done: seq<Candidate>) {
    multiset(PassesOf(p.selected)) + multiset(PassesOf(p.passed)) == multiset(PassesOf(done))
  }

  lemma AddOne<T>(a: multiset<T>, b: multiset<T>, d: multiset<T>, x: T)
    requires a + b == d
    ensures (a + multiset{x}) + b == d + multiset{x} && a + (b + multiset{x}) == d + multiset{x}
  {
  }

  lemma PassesAppend(cs: seq<Candidate>, c: Candidate)
    ensures multiset(PassesOf(cs + [c])) == multiset(PassesOf(cs)) + multiset{c.pass}
  {
    ContactAppend(cs, c);
  }

  lemma TakePartition(p: Picks, c: Candidate, goal: int, done: seq<Candidate>)
    requires Partition(p, done)
    ensures Partition(Take(p, c, goal), done + [c])
  {
    PassesAppend(done, c);
    AddOne(multiset(PassesOf(p.selected)), multiset(PassesOf(p.passed)), multiset(PassesOf(done)), c.pass);
    if p.goalMet {
      PassesAppend(p.passed, c.(code := Some(PlanGoalMet)));
    } else if OverlapsAny(c.pass, p.selected) {
      PassesAppend(p.passed, c.(code := Some(PlanOverlap)));
    } else {
      PassesAppend(p.selected, c.(selected := true));
    }
  }

  lemma TakeSelected(p: Picks, c: Candidate, goal: int, done: seq<Candidate>)
    requires SelectedOK(p, done, goal) && !c.selected && forall d :: d in done ==> !Better(c, d)
    ensures SelectedOK(Take(p, c, goal), done + [c], goal)
  {
    if !p.goalMet && !OverlapsAny(c.pass, p.selected) {
      var s := c.(selected := true);
      var sel := p.selected + [s];
      ContactAppend(p.selected, s);
      forall i | 0 <= i < |sel| ensures ContactTime(sel[..i]) < goal {
        assert sel[..i] == p.selected[..i];
        assert i == |p.selected| ==> p.selected[..i] == p.selected;
      }
      forall i | 0 <= i < |p.selected| ensures !Better(s, p.selected[i]) {
        assert !Better(c, p.selected[i].(selected := false));
      }
      assert s.(selected := false) == c;
    }
  }

  lemma StaysExplained(p: Picks, c: Candidate, goal: int, x: Candidate)
    requires p.contact == ContactTime(p.selected) && (p.goalMet <==> p.contact >= goal) && Explained(x, p.selected, goal)
    requires !Better(c, x)
    ensures Explained(x, Take(p, c, goal).selected, goal)
  {
    if !p.goalMet && !OverlapsAny(c.pass, p.selected) {
      var s := c.(selected := true);
      assert s in Take(p, c, goal).selected && !Better(s, x);
    }
  }

  lemma NewlyExplained(p: Picks, c: Candidate, goal: int)
    requires p.contact == ContactTime(p.selected) && (p.goalMet <==> p.contact >= goal)
    requires p.goalMet || OverlapsAny(c.pass, p.selected)
    requires forall s :: s in p.selected ==> !Better(c, s)
    ensures Explained(c.(code := Some(if p.goalMet then PlanGoalMet else PlanOverlap)), p.selected, goal)
  {
    var x := c.(code := Some(if p.goalMet then PlanGoalMet else PlanOverlap));
    forall s | s in p.selected ensures !Better(x, s) {
      assert !Better(c, s);
    }
    if !p.goalMet {
      var i :| 0 <= i < |p.selected| && c.pass.Overlaps(p.selected[i].pass);
      assert p.selected[i] in p.selected && x.pass.Overlaps(p.selected[i].pass);
    }
  }

  lemma TakePassed(p: Picks, c: Candidate, goal: int, done: seq<Candidate>)
    requires SelectedOK(p, done, goal) && PassedOK(p, done, goal) && c.code.None? && forall d :: d in done ==> !Better(c, d)
    ensures PassedOK(Take(p, c, goal), done + [c], goal)
  {
    var q := Take(p, c, goal);
    forall s | s in p.selected ensures !Better(c, s) {
      assert !Better(c, s.(selected := false));
    }
    forall x | x in p.passed ensures Explained(x, q.selected, goal) && x.(code := None) in done + [c] {
      assert !Better(c, x.(code := None));
      StaysExplained(p, c, goal, x);
    }
    if p.goalMet || OverlapsAny(c.pass, p.selected) {
      NewlyExplained(p, c, goal);
      var x := c.(code := Some(if p.goalMet then PlanGoalMet else PlanOverlap));
      assert q.passed == p.passed + [x] && q.selected == p.selected && x.(code := None) == c;
    }
  }

  ghost predicate ChoiceOK(p: Picks, done: seq<Candidate>, goal: int) {
    SelectedOK(p, done, goal) && PassedOK(p, done, goal) && Partition(p, done)
  }

  lemma TakeOK(p: Picks, c: Candidate, goal: int, done: seq<Candidate>)
    requires ChoiceOK(p, done, goal) && !c.selected && c.code.None? && forall d :: d in done ==> !Better(c, d)
    ensures ChoiceOK(Take(p, c, goal), done + [c], goal)
  {
    TakePartition(p, c, goal, done);
    TakeSelected(p, c, goal, done);
    TakePassed(p, c, goal, done);
  }

  /** Nothing done is worse than what comes next. */
  lemma NextIsNoBetter(done: seq<Candidate>, rest: seq<Candidate>)
    requires Ordered(done + rest, Better) && rest != []
    ensures forall d :: d in done ==> !Better(rest[0], d)
  {
    forall d | d in done ensures !Better(rest[0], d) {
      var i :| 0 <= i < |done| && done[i] == d;
      assert (done + rest)[i] == d && (done + rest)[|done|] == rest[0];
    }
  }

  lemma {:induction false} TakeAllOK(p: Picks, done: seq<Candidate>, rest: seq<Candidate>, goal: int)
    requires Ordered(done + rest, Better) && forall c :: c in rest ==> c.code.None? && !c.selected
    requires ChoiceOK(p, done, goal)
    ensures ChoiceOK(TakeAll(p, rest, goal), done + rest, goal)
    decreases |rest|
  {
    if rest == [] {
      assert done + rest == done;
    } else {
      assert done + rest == (done + [rest[0]]) + rest[1..];
      NextIsNoBetter(done, rest);
      TakeOK(p, rest[0], goal, done);
      TakeAllOK(Take(p, rest[0], goal), done + [rest[0]], rest[1..], goal);
    }
  }

  // ------------------------------------------------------------- whole plans

  ghost predicate Fair(judge: Pass -> Candidate) {
    forall p :: judge(p).pass == p && !judge(p).selected
  }

  function EligibleOf(table: seq<Pass>, judge: Pass -> Candidate): seq<Candidate> { Filter(Map(table, judge), Open) }

  lemma JudgedMember(table: seq<Pass>, judge: Pass -> Candidate, c: Candidate)
    requires Fair(judge) && c in Map(table, judge)
    ensures c.pass in table && c == judge(c.pass) && !c.selected
  {
    MapMember(table, judge, c);
  }

  lemma EligibleMember(table: seq<Pass>, judge: Pass -> Candidate, c: Candidate)
    requires Fair(judge) && c in EligibleOf(table, judge)
    ensures c.pass in table && c == judge(c.pass) && !c.selected && c.code.None?
  {
    FilterMember(Map(table, judge), Open, c);
    JudgedMember(table, judge, c);
  }

  lemma PassesPrepend(c: Candidate, cs: seq<Candidate>)
    ensures multiset(PassesOf([c] + cs)) == multiset(PassesOf(cs)) + multiset{c.pass}
  {
    assert ([c] + cs)[1..] == cs;
  }

  lemma {:induction false} JudgedPasses(table: seq<Pass>, judge: Pass -> Candidate)
    requires Fair(judge)
    ensures multiset(PassesOf(Filter(Map(table, judge), Open))) + multiset(PassesOf(Filter(Map(table, judge), Closed))) == multiset(table)
  {
    if table != [] {
      JudgedPasses(table[1..], judge);
      assert table == [table[0]] + table[1..];
      assert multiset(table) == multiset(table[1..]) + multiset{table[0]};
      var c, cs := judge(table[0]), Map(table[1..], judge);
      assert Map(table, judge)[1..] == cs;
      AddOne(multiset(PassesOf(Filter(cs, Open))), multiset(PassesOf(Filter(cs, Closed))), multiset(table[1..]), table[0]);
      if Open(c) {
        PassesPrepend(c, Filter(cs, Open));
      } else {
        PassesPrepend(c, Filter(cs, Closed));
      }
    }
  }

  lemma PicksOK(table: seq<Pass>, judge: Pass -> Candidate, goal: int)
    requires Fair(judge) && goal > 0
    ensures var p := PicksFor(table, judge, goal);
            var es := Sort(EligibleOf(table, judge), Better);
            SelectedOK(p, es, goal) && PassedOK(p, es, goal) && Partition(p, es) && multiset(es) == multiset(EligibleOf(table, judge))
  {
    var es := Sort(EligibleOf(table, judge), Better);
    BetterWeak();
    SortOrdered(EligibleOf(table, judge), Better);
    SortPermutes(EligibleOf(table, judge), Better);
    SameElements(es, EligibleOf(table, judge));
    forall c | c in es ensures c.code.None? && !c.selected {
      EligibleMember(table, judge, c);
    }
    assert [] + es == es;
    TakeAllOK(NO_PICKS, [], es, goal);
  }

  lemma {:induction false} InsertApart(c: Candidate, cs: seq<Candidate>)
    requires Apart(cs) && forall i :: 0 <= i < |cs| ==> !c.pass.Overlaps(cs[i].pass)
    ensures Apart(Insert(c, cs, ByTime))
  {
    if cs != [] && ByTime(cs[0], c) {
      InsertApart(c, cs[1..]);
      var rest := Insert(c, cs[1..], ByTime);
      InsertPermutes(c, cs[1..], ByTime);
      forall i | 0 <= i < |rest| ensures !cs[0].pass.Overlaps(rest[i].pass) {
        assert rest[i] in multiset(rest);
        assert rest[i] == c || rest[i] in cs[1..];
      }
    }
  }

  lemma {:induction false} SortApart(cs: seq<Candidate>)
    requires Apart(cs)
    ensures Apart(Sort(cs, ByTime))
  {
    if cs != [] {
      SortApart(cs[1..]);
      var rest := Sort(cs[1..], ByTime);
      SortPermutes(cs[1..], ByTime);
      SameElements(rest, cs[1..]);
      forall i | 0 <= i < |rest| ensures !cs[0].pass.Overlaps(rest[i].pass) {
        assert rest[i] in cs[1..];
      }
      InsertApart(cs[0], rest);
    }
  }

  lemma ExplainedPermutes(c: Candidate, a: seq<Candidate>, b: seq<Candidate>, goal: int)
    requires multiset(a) == multiset(b) && Explained(c, a, goal)
    ensures Explained(c, b, goal)
  {
    SameElements(a, b);
    ContactPermutes(a, b);
  }

  lemma JudgingFair(b: Brief, excluded: seq<string>)
    ensures Fair(Judging(b, excluded))
  {
  }

  /** The table is split into Selected and Others, as a multiset. */
  lemma PlanPartitions(table: seq<Pass>, b: Brief, excluded: seq<string>)
    requires b.request.goal > 0
    ensures var plan := Scheduled(table, b, excluded);
            multiset(PassesOf(plan.selected)) + multiset(PassesOf(plan.others)) == multiset(table)
  {
    var judge := Judging(b, excluded);
    var goal := b.request.goal;
    JudgingFair(b, excluded);
    PicksOK(table, judge, goal);
    var p := PicksFor(table, judge, goal);
    var refused := Filter(Map(table, judge), Closed);
    SortPermutes(p.selected, ByTime);
    SortPermutes(refused + p.passed, ByTime);
    MapPermutes(p.selected, Sort(p.selected, ByTime), PassOf);
    MapPermutes(refused + p.passed, Sort(refused + p.passed, ByTime), PassOf);
    MapConcat(refused, p.passed, PassOf);
    MapPermutes(EligibleOf(table, judge), Sort(EligibleOf(table, judge), Better), PassOf);
    JudgedPasses(table, judge);
  }

  /** Selected is in time order, pairwise apart, all of it eligible at its price and score; its contact time is the
      plan's, which meets the goal exactly when the plan says so; and it was taken best first, only while needed. */
  lemma SelectedRules(table: seq<Pass>, b: Brief, excluded: seq<string>)
    requires b.request.goal > 0
    ensures var plan := Scheduled(table, b, excluded);
            && Ordered(plan.selected, ByTime) && Apart(plan.selected)
            && (forall s :: s in plan.selected ==>
                  && s.pass in table && Refusal(s.pass, b, Names(excluded)).None?
                  && s == Judge(s.pass, b, Names(excluded)).(selected := true))
            && plan.contact == ContactTime(plan.selected) && (plan.goalMet <==> plan.contact >= b.request.goal)
            && exists order :: multiset(order) == multiset(plan.selected) && TakenInTurn(order, b.request.goal)
  {
    var judge := Judging(b, excluded);
    JudgingFair(b, excluded);
    PicksOK(table, judge, b.request.goal);
    var p := PicksFor(table, judge, b.request.goal);
    var es := Sort(EligibleOf(table, judge), Better);
    ByTimeWeak();
    SortOrdered(p.selected, ByTime);
    SortApart(p.selected);
    SortPermutes(p.selected, ByTime);
    ContactPermutes(p.selected, Sort(p.selected, ByTime));
    SameElements(p.selected, Sort(p.selected, ByTime));
    SameElements(es, EligibleOf(table, judge));
    forall s | s in p.selected ensures s.pass in table && judge(s.pass).code.None? && s == judge(s.pass).(selected := true) {
      EligibleMember(table, judge, s.(selected := false));
    }
    assert TakenInTurn(p.selected, b.request.goal);
  }

  /** Whatever is selected can be booked: its station was not removed, is known, verified and of a tier that allows the
      mode, and its price is in range and in its score. */
  lemma SelectedBookable(table: seq<Pass>, b: Brief, excluded: seq<string>, s: Candidate)
    requires b.request.goal > 0 && s in Scheduled(table, b, excluded).selected
    ensures s.pass.host !in excluded && s.pass.host in b.stations && b.stations[s.pass.host].verified
    ensures b.request.mode == MODE_UPLINK ==> b.stations[s.pass.host].tier == FIDUCIARY
    ensures b.request.mode == MODE_DOWNLINK ==> b.stations[s.pass.host].tier in {FIDUCIARY, TRANSACTIONAL}
    ensures PriceKey(s.pass) in b.prices && s.amount == b.prices[PriceKey(s.pass)] && 0 <= s.amount <= MAX_PRICE_CENTS
    ensures s.score == 100 * s.pass.maxElevation + 100 * b.stations[s.pass.host].bonus - b.request.pointsPerDollar * s.amount
  {
    SelectedRules(table, b, excluded);
  }

  /** Every pass in Others is ineligible, with the reason, or explained by the selection. */
  lemma OthersExplained(table: seq<Pass>, b: Brief, excluded: seq<string>)
    requires b.request.goal > 0
    ensures var plan := Scheduled(table, b, excluded);
            && Ordered(plan.others, ByTime)
            && forall c :: c in plan.others ==>
                 && c.pass in table
                 && if Refusal(c.pass, b, Names(excluded)).Some? then c == Judge(c.pass, b, Names(excluded))
                    else c == Judge(c.pass, b, Names(excluded)).(code := c.code) && Explained(c, plan.selected, b.request.goal)
  {
    var judge := Judging(b, excluded);
    var goal := b.request.goal;
    JudgingFair(b, excluded);
    PicksOK(table, judge, goal);
    var p := PicksFor(table, judge, goal);
    var plan := Scheduled(table, b, excluded);
    var refused := Filter(Map(table, judge), Closed);
    ByTimeWeak();
    SortOrdered(refused + p.passed, ByTime);
    SortPermutes(refused + p.passed, ByTime);
    SameElements(refused + p.passed, plan.others);
    SortPermutes(p.selected, ByTime);
    forall c | c in plan.others
      ensures c.pass in table
      ensures if judge(c.pass).code.Some? then c == judge(c.pass)
              else c == judge(c.pass).(code := c.code) && Explained(c, plan.selected, goal)
    {
      if c in refused {
        FilterMember(Map(table, judge), Closed, c);
        JudgedMember(table, judge, c);
      } else {
        assert c in p.passed;
        ExplainedPermutes(c, p.selected, plan.selected, goal);
        SameElements(Sort(EligibleOf(table, judge), Better), EligibleOf(table, judge));
        EligibleMember(table, judge, c.(code := None));
      }
    }
  }

  // ---------------------------------------------------------- every reason

  /** Whether a tier may fly the mode: FIDUCIARY both ways, TRANSACTIONAL down only. */
  predicate MayFly(tier: string, mode: string) {
    match mode
    case "uplink" => tier == "FIDUCIARY"
    case "downlink" => tier == "FIDUCIARY" || tier == "TRANSACTIONAL"
    case _ => false
  }

  function Quoted(p: Pass, b: Brief): Option<int> {
    var key := p.host + "@" + Decimal.FormatInt(p.aos);
    if key in b.prices then Some(b.prices[key]) else None
  }

  /** What a pass must meet to be eligible, in the order it is checked. */
  function PassRules(p: Pass, b: Brief, excluded: seq<string>): seq<Rule> {
    var known, price := p.host in b.stations, Quoted(p, b);
    [Rule(p.host !in excluded, PlanExcluded), Rule(known, PlanUnknownHost),
     Rule(known && b.stations[p.host].verified, PlanUnverified),
     Rule(known && MayFly(b.stations[p.host].tier, b.request.mode), PolicyRefusedTier),
     Rule(price.Some?, PlanNoQuote), Rule(price.Some? && 0 <= price.value <= 100_000_000, PlanBadPrice)]
  }

  /** A pass as it comes out of the planner: its price on file, if any, and a score if it is eligible. */
  ghost predicate Shown(c: Candidate, b: Brief, excluded: seq<string>) {
    && c.amount == (if Quoted(c.pass, b).Some? then Quoted(c.pass, b).value else 0)
    && c.score == if AllHold(PassRules(c.pass, b, excluded)) && c.pass.host in b.stations
                  then 100 * (c.pass.maxElevation + b.stations[c.pass.host].bonus) - b.request.pointsPerDollar * c.amount
                  else 0
  }

  lemma JudgeMeans(p: Pass, b: Brief, excluded: seq<string>)
    ensures Verdict(Refusal(p, b, Names(excluded)), PassRules(p, b, excluded))
    ensures Judge(p, b, Names(excluded)).code == Refusal(p, b, Names(excluded))
    ensures Shown(Judge(p, b, Names(excluded)), b, excluded)
  {
    var rules := PassRules(p, b, excluded);
    if !rules[0].holds {
      assert FailsAt(rules, 0);
    } else if !rules[1].holds {
      assert FailsAt(rules, 1);
    } else if !rules[2].holds {
      assert FailsAt(rules, 2);
    } else if !rules[3].holds {
      assert FailsAt(rules, 3);
    } else if !rules[4].holds {
      assert FailsAt(rules, 4);
    } else if !rules[5].holds {
      assert FailsAt(rules, 5);
    } else {
      assert AllHold(rules);
    }
  }

  /** Selected holds eligible passes only. Others holds the ineligible ones, each with the first rule it fails, and the
      eligible ones left for an overlap or a met goal. */
  lemma EveryPassJudged(table: seq<Pass>, b: Brief, excluded: seq<string>)
    requires b.request.goal > 0
    ensures var plan := Scheduled(table, b, excluded);
            && (forall s :: s in plan.selected ==>
                  s.selected && s.code.None? && AllHold(PassRules(s.pass, b, excluded)) && Shown(s, b, excluded))
            && (forall c :: c in plan.others ==>
                  && !c.selected && Shown(c, b, excluded)
                  && if AllHold(PassRules(c.pass, b, excluded)) then Explained(c, plan.selected, b.request.goal)
                     else Verdict(c.code, PassRules(c.pass, b, excluded)))
  {
    var plan := Scheduled(table, b, excluded);
    SelectedRules(table, b, excluded);
    OthersExplained(table, b, excluded);
    forall s | s in plan.selected
      ensures s.selected && s.code.None? && AllHold(PassRules(s.pass, b, excluded)) && Shown(s, b, excluded)
    {
      JudgeMeans(s.pass, b, excluded);
    }
    forall c | c in plan.others
      ensures !c.selected && Shown(c, b, excluded)
      ensures if AllHold(PassRules(c.pass, b, excluded)) then Explained(c, plan.selected, b.request.goal)
              else Verdict(c.code, PassRules(c.pass, b, excluded))
    {
      JudgeMeans(c.pass, b, excluded);
    }
  }
}
