/** Replanning without a station, and the difference between two plans (internal/planner/planner.go). */
module Replan {
  import opened Errs
  import opened Passes
  import opened Sorting
  import opened Planner
  import opened PlanRules
  import opened PlanOrder

  datatype Diff = Diff(removed: string, dropped: seq<Pass>, added: seq<Pass>, kept: seq<Pass>, before: int, after: int)

  function Replanned(prev: Plan, host: string): Plan {
    Scheduled(Sort(PassesOf(prev.selected + prev.others), Sooner), prev.brief, prev.excluded + [host])
  }

  /** The selected pass of p's host at p's AOS, if there is one. */
  predicate InPlan(p: Pass, cs: seq<Candidate>) {
    exists i :: 0 <= i < |cs| && SameKey(cs[i].pass, p)
  }

  function Within(cs: seq<Candidate>): Pass -> bool { (p: Pass) => InPlan(p, cs) }

  function Outside(cs: seq<Candidate>): Pass -> bool { (p: Pass) => !InPlan(p, cs) }

  function DiffOf(before: Plan, after: Plan, host: string): Diff {
    Diff(host, Filter(PassesOf(before.selected), Outside(after.selected)),
         Filter(PassesOf(after.selected), Outside(before.selected)),
         Filter(PassesOf(before.selected), Within(after.selected)), before.contact, after.contact)
  }

  method FindPass(p: Pass, cs: seq<Candidate>) returns (found: bool)
    ensures found == InPlan(p, cs)
  {
    for i := 0 to |cs|
      invariant forall k :: 0 <= k < i ==> !SameKey(cs[k].pass, p)
    {
      if SameKey(cs[i].pass, p) {
        return true;
      }
    }
    return false;
  }

  method Split(cs: seq<Candidate>, other: seq<Candidate>) returns (found: seq<Pass>, missing: seq<Pass>)
    ensures found == Filter(PassesOf(cs), Within(other)) && missing == Filter(PassesOf(cs), Outside(other))
  {
    found, missing := [], [];
    ghost var all := PassesOf(cs);
    for i := 0 to |cs|
      invariant found + Filter(PassesOf(cs[i..]), Within(other)) == Filter(all, Within(other))
      invariant missing + Filter(PassesOf(cs[i..]), Outside(other)) == Filter(all, Outside(other))
    {
      var p := cs[i].pass;
      assert cs[i..][0] == cs[i] && cs[i..][1..] == cs[i + 1..];
      assert PassesOf(cs[i..]) == [p] + PassesOf(cs[i + 1..]);
      var b := FindPass(p, other);
      if b {
        found := found + [p];
      } else {
        missing := missing + [p];
      }
    }
  }

  method DiffPlans(before: Plan, after: Plan, host: string) returns (d: Diff)
    ensures d == DiffOf(before, after, host)
  {
    var kept, dropped := Split(before.selected, after.selected);
    var _, added := Split(after.selected, before.selected);
    d := Diff(host, dropped, added, kept, before.contact, after.contact);
  }

  /** No plan is the error; otherwise the new plan and what changed. */
  method ReplanWithout(prev: Option<Plan>, host: string) returns (r: Option<(Plan, Diff)>)
    ensures r == if prev.None? then None
                 else var next := Replanned(prev.value, host); Some((next, DiffOf(prev.value, next, host)))
  {
    if prev.None? {
      return None;
    }
    var table := PassList(prev.value.selected + prev.value.others);
    var next := ScheduleTable(Sort(table, Sooner), prev.value.brief, prev.value.excluded + [host]);
    var d := DiffPlans(prev.value, next, host);
    return Some((next, d));
  }

  method PassList(cs: seq<Candidate>) returns (ps: seq<Pass>)
    ensures ps == PassesOf(cs)
  {
    ps := [];
    for i := 0 to |cs|
      invariant ps + PassesOf(cs[i..]) == PassesOf(cs)
    {
      assert cs[i..][0] == cs[i] && cs[i..][1..] == cs[i + 1..];
      ps := ps + [cs[i].pass];
    }
  }

  // ------------------------------------------------- replanning is planning

  /** Replanning from a plan is planning the original table with one more host excluded. */
  lemma ReplanIsPlan(table: seq<Pass>, b: Brief, excluded: seq<string>, host: string)
    requires Keyed(table) && b.request.goal > 0
    ensures Replanned(Scheduled(table, b, excluded), host) == Scheduled(table, b, excluded + [host])
  {
    var prev := Scheduled(table, b, excluded);
    var t := Sort(PassesOf(prev.selected + prev.others), Sooner);
    PlanPartitions(table, b, excluded);
    MapConcat(prev.selected, prev.others, PassOf);
    SortPermutes(PassesOf(prev.selected + prev.others), Sooner);
    PermutedTable(table, t, b, excluded + [host]);
  }

  function ReplanAll(plan: Plan, hosts: seq<string>): Plan
    decreases |hosts|
  {
    if hosts == [] then plan else ReplanAll(Replanned(plan, hosts[0]), hosts[1..])
  }

  /** A family of plans closed under replanning, by the hosts excluded. */
  ghost predicate Follows(plan: seq<string> -> Plan) {
    forall e, h :: Follow(plan, e, h)
  }

  ghost predicate Follow(plan: seq<string> -> Plan, e: seq<string>, h: string) { Replanned(plan(e), h) == plan(e + [h]) }

  lemma {:induction false} ReplansFollow(plan: seq<string> -> Plan, excluded: seq<string>, hosts: seq<string>)
    requires Follows(plan)
    ensures ReplanAll(plan(excluded), hosts) == plan(excluded + hosts)
    decreases |hosts|
  {
    if hosts == [] {
      assert excluded + hosts == excluded;
    } else {
      assert excluded + [hosts[0]] + hosts[1..] == excluded + hosts;
      assert Follow(plan, excluded, hosts[0]);
      ReplansFollow(plan, excluded + [hosts[0]], hosts[1..]);
    }
  }

  /** Any run of replans is planning the original table with all those hosts excluded. */
  lemma ReplansArePlans(table: seq<Pass>, b: Brief, excluded: seq<string>, hosts: seq<string>)
    requires Keyed(table) && b.request.goal > 0
    ensures ReplanAll(Scheduled(table, b, excluded), hosts) == Scheduled(table, b, excluded + hosts)
  {
    var plan := (e: seq<string>) => Scheduled(table, b, e);
    forall e, h ensures Follow(plan, e, h) {
      ReplanIsPlan(table, b, e, h);
    }
    ReplansFollow(plan, excluded, hosts);
  }

  /** Planned, at first or again, from some table. */
  ghost predicate Planned(plan: Plan) {
    plan.brief.request.goal > 0 && exists table :: plan == Scheduled(table, plan.brief, plan.excluded)
  }

  lemma PlannedBars(plan: Plan)
    requires Planned(plan)
    ensures forall s :: s in plan.selected ==> s.pass.host !in plan.excluded
  {
    var table :| plan == Scheduled(table, plan.brief, plan.excluded);
    SelectedRules(table, plan.brief, plan.excluded);
  }

  lemma ReplannedIsPlanned(plan: Plan, host: string)
    requires plan.brief.request.goal > 0
    ensures Planned(Replanned(plan, host)) && Replanned(plan, host).excluded == plan.excluded + [host]
  {
    var t := Sort(PassesOf(plan.selected + plan.others), Sooner);
    assert Replanned(plan, host) == Scheduled(t, plan.brief, plan.excluded + [host]);
  }

  /** What replanning keeps, with one more host excluded each time. */
  ghost predicate Kept(inv: (Plan, seq<string>) -> bool) {
    forall p, e, h :: inv(p, e) ==> inv(Replanned(p, h), e + [h])
  }

  lemma {:induction false} ReplansKeep(inv: (Plan, seq<string>) -> bool, plan: Plan, excluded: seq<string>, hosts: seq<string>)
    requires Kept(inv) && inv(plan, excluded)
    ensures inv(ReplanAll(plan, hosts), excluded + hosts)
    decreases |hosts|
  {
    if hosts == [] {
      assert excluded + hosts == excluded;
    } else {
      assert excluded + [hosts[0]] + hosts[1..] == excluded + hosts;
      ReplansKeep(inv, Replanned(plan, hosts[0]), excluded + [hosts[0]], hosts[1..]);
    }
  }

  /** After any run of replans, of any table, no pass of a removed host is selected. */
  lemma NeverReadmitted(table: seq<Pass>, b: Brief, excluded: seq<string>, hosts: seq<string>)
    requires b.request.goal > 0
    ensures forall s :: s in ReplanAll(Scheduled(table, b, excluded), hosts).selected ==>
              s.pass.host !in excluded && s.pass.host !in hosts
  {
    var plan := Scheduled(table, b, excluded);
    var inv := (p: Plan, e: seq<string>) => Planned(p) && p.excluded == e;
    forall p, e, h | inv(p, e) ensures inv(Replanned(p, h), e + [h]) {
      ReplannedIsPlanned(p, h);
    }
    assert Planned(plan);
    ReplansKeep(inv, plan, excluded, hosts);
    PlannedBars(ReplanAll(plan, hosts));
  }

  lemma SameExclusions(table: seq<Pass>, b: Brief, e1: seq<string>, e2: seq<string>)
    requires Names(e1) == Names(e2)
    ensures Scheduled(table, b, e1) == Scheduled(table, b, e2).(excluded := e1)
  {
    assert Judging(b, e1) == Judging(b, e2);
  }

  /** The order and repetition of removals do not matter: the same hosts gone give the same plan. */
  lemma RemovalsCommute(table: seq<Pass>, b: Brief, excluded: seq<string>, first: seq<string>, second: seq<string>)
    requires Keyed(table) && b.request.goal > 0 && Names(first) == Names(second)
    ensures var p, q := ReplanAll(Scheduled(table, b, excluded), first), ReplanAll(Scheduled(table, b, excluded), second);
            p.selected == q.selected && p.others == q.others && p.contact == q.contact && p.goalMet == q.goalMet
  {
    ReplansArePlans(table, b, excluded, first);
    ReplansArePlans(table, b, excluded, second);
    SameNames(excluded, first, second);
    SameExclusions(table, b, excluded + first, excluded + second);
  }

  /** A replan plans a permutation of the table. */
  lemma ReplanPermutes(table: seq<Pass>, b: Brief, excluded: seq<string>, host: string) returns (t: seq<Pass>)
    requires b.request.goal > 0
    ensures multiset(t) == multiset(table) && (forall p :: p in t <==> p in table)
    ensures Replanned(Scheduled(table, b, excluded), host) == Scheduled(t, b, excluded + [host])
  {
    var prev := Scheduled(table, b, excluded);
    t := Sort(PassesOf(prev.selected + prev.others), Sooner);
    PlanPartitions(table, b, excluded);
    MapConcat(prev.selected, prev.others, PassOf);
    SortPermutes(PassesOf(prev.selected + prev.others), Sooner);
    SameElements(t, table);
  }

  /** Planned from the table, in some order, with those hosts excluded. */
  ghost predicate PlannedFrom(table: seq<Pass>, b: Brief, plan: Plan, excluded: seq<string>) {
    exists t :: multiset(t) == multiset(table) && plan == Scheduled(t, b, excluded)
  }

  lemma ReplansPermute(table: seq<Pass>, b: Brief, excluded: seq<string>, hosts: seq<string>)
    requires b.request.goal > 0
    ensures PlannedFrom(table, b, ReplanAll(Scheduled(table, b, excluded), hosts), excluded + hosts)
  {
    var inv := (p: Plan, e: seq<string>) => PlannedFrom(table, b, p, e);
    forall p, e, h | inv(p, e) ensures inv(Replanned(p, h), e + [h]) {
      var t :| multiset(t) == multiset(table) && p == Scheduled(t, b, e);
      var t' := ReplanPermutes(t, b, e, h);
    }
    ReplansKeep(inv, Scheduled(table, b, excluded), excluded, hosts);
  }

  /** Selected needs less: if no two different passes share host, AOS and elevation, the same hosts gone give the same
      Selected, in whatever order and however often they were removed. */
  lemma RemovalsCommuteOnSelected(table: seq<Pass>, b: Brief, excluded: seq<string>, first: seq<string>, second: seq<string>)
    requires Untied(table) && b.request.goal > 0 && Names(first) == Names(second)
    ensures var p, q := ReplanAll(Scheduled(table, b, excluded), first), ReplanAll(Scheduled(table, b, excluded), second);
            p.selected == q.selected && p.contact == q.contact && p.goalMet == q.goalMet
  {
    ReplansPermute(table, b, excluded, first);
    ReplansPermute(table, b, excluded, second);
    var s :| multiset(s) == multiset(table) &&
             ReplanAll(Scheduled(table, b, excluded), first) == Scheduled(s, b, excluded + first);
    var t :| multiset(t) == multiset(table) &&
             ReplanAll(Scheduled(table, b, excluded), second) == Scheduled(t, b, excluded + second);
    SameNames(excluded, first, second);
    PermutedSelected(table, s, b, excluded + first);
    PermutedSelected(table, t, b, excluded + second);
    SameExclusions(table, b, excluded + first, excluded + second);
  }

  lemma SameNames(excluded: seq<string>, first: seq<string>, second: seq<string>)
    requires Names(first) == Names(second)
    ensures Names(excluded + first) == Names(excluded + second)
  {
    assert forall h :: h in excluded + first <==> h in excluded || h in Names(first);
    assert forall h :: h in excluded + second <==> h in excluded || h in Names(second);
  }

  // ------------------------------------------------ hosts with no selected pass

  ghost predicate Removes(judge: Pass -> Candidate, without: Pass -> Candidate, host: string) {
    forall p: Pass :: if p.host == host then Closed(without(p)) else without(p) == judge(p)
  }

  lemma JudgingRemoves(b: Brief, excluded: seq<string>, host: string)
    ensures Removes(Judging(b, excluded), Judging(b, excluded + [host]), host)
  {
    forall p: Pass ensures if p.host == host then Closed(Judging(b, excluded + [host])(p))
                           else Judging(b, excluded + [host])(p) == Judging(b, excluded)(p)
    {
      assert p.host in Names(excluded + [host]) <==> p.host in Names(excluded) || p.host == host;
    }
  }

  /** Candidates tied in score are tied in time. */
  lemma TiedInTime()
    ensures forall a, b :: ByTime(a, b) ==> Better(a, b) || Better(b, a)
  {
  }

  /** Sorting the table by time first changes nothing: it keeps passes in order that tie in score. */
  lemma PresortedPicks(table: seq<Pass>, judge: Pass -> Candidate, goal: int)
    requires Fair(judge)
    ensures PicksFor(Sort(table, Sooner), judge, goal) == PicksFor(table, judge, goal)
  {
    var es := EligibleOf(table, judge);
    MapSort(table, judge, Sooner, ByTime);
    ByTimeWeak();
    BetterWeak();
    TiedInTime();
    FilterSort(Map(table, judge), ByTime, Open);
    forall x ensures Filter(Sort(es, ByTime), Tied(x, Better)) == Filter(es, Tied(x, Better)) {
      TiesKept(es, ByTime, Better, x);
    }
    SortByTies(Sort(es, ByTime), es, Better);
  }

  function Unselect(c: Candidate): Candidate { c.(selected := false) }

  /** Passes judged as they were when selected come out as the same candidates. */
  lemma {:induction false} SelectedAgain(cs: seq<Candidate>, judge: Pass -> Candidate)
    requires forall c :: c in cs ==> judge(c.pass) == Unselect(c) && Open(c)
    ensures EligibleOf(PassesOf(cs), judge) == Map(cs, Unselect)
  {
    if cs != [] {
      SelectedAgain(cs[1..], judge);
      assert PassesOf(cs)[1..] == PassesOf(cs[1..]);
      assert Map(PassesOf(cs), judge)[1..] == Map(PassesOf(cs[1..]), judge);
    }
  }

  /** Passed over because of selected candidates at least as good. */
  ghost predicate Left(u: Candidate, selected: seq<Candidate>, goal: int) {
    || (exists s :: s in selected && u.pass.Overlaps(s.pass) && !Better(u, s))
    || (ContactTime(selected) >= goal && forall s :: s in selected ==> !Better(u, s))
  }

  /** A selection that the greedy rule made: apart, and each taken in turn. */
  ghost predicate Choice(sel: seq<Candidate>, goal: int) {
    Apart(sel) && TakenInTurn(sel, goal) && forall s :: s in sel ==> s.selected
  }

  ghost predicate ChosenSoFar(p: Picks, sel: seq<Candidate>, k: nat, goal: int) {
    && k <= |sel| && p.selected == sel[..k] && p.contact == ContactTime(sel[..k]) && (p.goalMet <==> p.contact >= goal)
  }

  lemma TakeNext(p: Picks, sel: seq<Candidate>, k: nat, goal: int)
    requires Choice(sel, goal) && ChosenSoFar(p, sel, k, goal) && k < |sel|
    ensures ChosenSoFar(Take(p, Unselect(sel[k]), goal), sel, k + 1, goal)
  {
    assert ContactTime(sel[..k]) < goal;
    forall i | 0 <= i < k ensures !sel[k].pass.Overlaps(p.selected[i].pass) {
      assert !sel[i].pass.Overlaps(sel[k].pass);
    }
    assert sel[k] in sel && sel[..k + 1] == sel[..k] + [sel[k]];
    ContactAppend(sel[..k], sel[k]);
    assert Unselect(sel[k]).(selected := true) == sel[k];
  }

  /** A candidate passed over before is passed over again, however far the choice has come. */
  lemma PassOver(p: Picks, sel: seq<Candidate>, k: nat, u: Candidate, goal: int)
    requires Choice(sel, goal) && ChosenSoFar(p, sel, k, goal) && Left(u, sel, goal)
    requires k < |sel| ==> Better(u, sel[k])
    ensures ChosenSoFar(Take(p, u, goal), sel, k, goal)
  {
    BetterWeak();
    if s :| s in sel && u.pass.Overlaps(s.pass) && !Better(u, s) {
      var j :| 0 <= j < |sel| && sel[j] == s;
      assert j < k;
      assert u.pass.Overlaps(p.selected[j].pass);
    } else {
      assert sel[..k] == sel;
    }
  }

  lemma {:induction false} GreedyMerge(p: Picks, sel: seq<Candidate>, k: nat, us: seq<Candidate>, goal: int)
    requires Choice(sel, goal) && ChosenSoFar(p, sel, k, goal) && forall u :: u in us ==> Left(u, sel, goal)
    ensures |Map(sel, Unselect)| == |sel|
    ensures ChosenSoFar(TakeAll(p, Merge(Map(sel, Unselect)[k..], us, Better), goal), sel, |sel|, goal)
    decreases |sel| - k + |us|
  {
    MapLength(sel, Unselect);
    var a := Map(sel, Unselect)[k..];
    if a == [] && us == [] {
    } else if us == [] || (a != [] && !Better(us[0], a[0])) {
      MapAt(sel, Unselect, k);
      var rest := Merge(Map(sel, Unselect)[k + 1..], us, Better);
      assert a[1..] == Map(sel, Unselect)[k + 1..];
      assert Merge(a, us, Better) == [a[0]] + rest by {
        assert us == [] ==> a == [a[0]] + a[1..] && Merge(a[1..], us, Better) == a[1..];
      }
      assert ([a[0]] + rest)[1..] == rest;
      TakeNext(p, sel, k, goal);
      GreedyMerge(Take(p, a[0], goal), sel, k + 1, us, goal);
    } else {
      var rest := Merge(a, us[1..], Better);
      assert Merge(a, us, Better) == [us[0]] + rest by {
        assert a == [] ==> us == [us[0]] + us[1..];
      }
      assert ([us[0]] + rest)[1..] == rest;
      if k < |sel| {
        MapAt(sel, Unselect, k);
      }
      PassOver(p, sel, k, us[0], goal);
      GreedyMerge(Take(p, us[0], goal), sel, k, us[1..], goal);
    }
  }

  /** The greedy rule on the selection, in time order, followed by candidates it passed over, chooses it again. */
  lemma ChosenAgain(sel: seq<Candidate>, us: seq<Candidate>, goal: int)
    requires Choice(sel, goal) && goal > 0 && forall u :: u in us ==> Left(u, sel, goal)
    ensures ChosenSoFar(TakeAll(NO_PICKS, Sort(Map(Sort(sel, ByTime), Unselect) + us, Better), goal), sel, |sel|, goal)
  {
    var s0 := Map(sel, Unselect);
    var a := Sort(s0, ByTime);
    ByTimeWeak();
    BetterWeak();
    TiedInTime();
    MapSort(sel, Unselect, ByTime, ByTime);
    forall x ensures Filter(a + us, Tied(x, Better)) == Filter(s0 + us, Tied(x, Better)) {
      TiesKept(s0, ByTime, Better, x);
      FilterConcat(a, us, Tied(x, Better));
      FilterConcat(s0, us, Tied(x, Better));
    }
    SortByTies(a + us, s0 + us, Better);
    UnselectOrdered(sel);
    SortIsMerge(s0, us, Better);
    SortPermutes(us, Better);
    SameElements(us, Sort(us, Better));
    assert s0[0..] == s0 && sel[..0] == [];
    GreedyMerge(NO_PICKS, sel, 0, Sort(us, Better), goal);
  }

  lemma UnselectOrdered(sel: seq<Candidate>)
    requires Ordered(sel, Better)
    ensures Ordered(Map(sel, Unselect), Better)
  {
    MapLength(sel, Unselect);
    forall i | 0 <= i < |sel| ensures Map(sel, Unselect)[i] == Unselect(sel[i]) {
      MapAt(sel, Unselect, i);
    }
  }

  /** What the other passes of a plan become without the host. */
  lemma OthersLeft(table: seq<Pass>, b: Brief, excluded: seq<string>, host: string, u: Candidate)
    requires b.request.goal > 0
    requires u in EligibleOf(PassesOf(Scheduled(table, b, excluded).others), Judging(b, excluded + [host]))
    ensures Left(u, PicksFor(table, Judging(b, excluded), b.request.goal).selected, b.request.goal)
  {
    var plan, goal := Scheduled(table, b, excluded), b.request.goal;
    var judge, without := Judging(b, excluded), Judging(b, excluded + [host]);
    var sel := PicksFor(table, judge, goal).selected;
    JudgingFair(b, excluded + [host]);
    JudgingRemoves(b, excluded, host);
    EligibleMember(PassesOf(plan.others), without, u);
    assert judge(u.pass) == u && Refusal(u.pass, b, Names(excluded)).None?;
    MapMember(plan.others, PassOf, u.pass);
    var c :| c in plan.others && PassOf(c) == u.pass;
    OthersExplained(table, b, excluded);
    assert c == u.(code := c.code) && Explained(c, plan.selected, goal);
    SortPermutes(sel, ByTime);
    ExplainedPermutes(c, plan.selected, sel, goal);
    ExplainedIsLeft(c, u, sel, goal);
  }

  lemma ExplainedIsLeft(c: Candidate, u: Candidate, sel: seq<Candidate>, goal: int)
    requires Explained(c, sel, goal) && c == u.(code := c.code)
    ensures Left(u, sel, goal)
  {
    forall s | s in sel ensures Better(c, s) == Better(u, s) {
    }
  }

  /** Removing a host with no selected pass leaves Selected as it is, for every table. */
  lemma RemovingUnused(table: seq<Pass>, b: Brief, excluded: seq<string>, host: string)
    requires b.request.goal > 0
    requires forall s :: s in Scheduled(table, b, excluded).selected ==> s.pass.host != host
    ensures var prev := Scheduled(table, b, excluded);
            var next := Replanned(prev, host);
            next.selected == prev.selected && next.contact == prev.contact && next.goalMet == prev.goalMet
  {
    var judge, without, goal := Judging(b, excluded), Judging(b, excluded + [host]), b.request.goal;
    var prev, sel := Scheduled(table, b, excluded), PicksFor(table, judge, goal).selected;
    var us := EligibleOf(PassesOf(prev.others), without);
    JudgingFair(b, excluded);
    JudgingFair(b, excluded + [host]);
    PicksOK(table, judge, goal);
    SelectedRules(table, b, excluded);
    JudgingRemoves(b, excluded, host);
    forall s | s in prev.selected ensures without(s.pass) == Unselect(s) && Open(s) {
      assert judge(s.pass) == Unselect(s);
    }
    SelectedAgain(prev.selected, without);
    EligibleConcat(prev.selected, prev.others, without);
    forall u | u in us ensures Left(u, sel, goal) {
      OthersLeft(table, b, excluded, host, u);
    }
    ChosenAgain(sel, us, goal);
    PresortedPicks(PassesOf(prev.selected + prev.others), without, goal);
    assert sel[..|sel|] == sel;
  }

  lemma EligibleConcat(a: seq<Candidate>, b: seq<Candidate>, judge: Pass -> Candidate)
    ensures EligibleOf(PassesOf(a + b), judge) == EligibleOf(PassesOf(a), judge) + EligibleOf(PassesOf(b), judge)
  {
    MapConcat(a, b, PassOf);
    MapConcat(PassesOf(a), PassesOf(b), judge);
    FilterConcat(Map(PassesOf(a), judge), Map(PassesOf(b), judge), Open);
  }

  /** What a difference tells of each pass: kept or dropped as the plan after selects its host at its AOS or not, and
      added when only the plan after does; with both contact times. */
  lemma DiffMeans(before: Plan, after: Plan, host: string, p: Pass)
    ensures var d := DiffOf(before, after, host);
            && d.removed == host && d.before == before.contact && d.after == after.contact
            && (p in d.kept <==> (exists c :: c in before.selected && c.pass == p) && Selects(after, p))
            && (p in d.dropped <==> (exists c :: c in before.selected && c.pass == p) && !Selects(after, p))
            && (p in d.added <==> (exists c :: c in after.selected && c.pass == p) && !Selects(before, p))
  {
    FilterMember(PassesOf(before.selected), Within(after.selected), p);
    FilterMember(PassesOf(before.selected), Outside(after.selected), p);
    FilterMember(PassesOf(after.selected), Outside(before.selected), p);
    SelectedPass(before.selected, p);
    SelectedPass(after.selected, p);
  }

  /** The plan selects a pass of that host at that AOS. */
  ghost predicate Selects(plan: Plan, p: Pass) {
    exists c :: c in plan.selected && c.pass.host == p.host && c.pass.aos == p.aos
  }

  lemma {:induction false} SelectedPass(cs: seq<Candidate>, p: Pass)
    ensures p in PassesOf(cs) <==> exists c :: c in cs && c.pass == p
  {
    if cs != [] {
      SelectedPass(cs[1..], p);
      assert cs[0] in cs;
      assert forall c :: c in cs <==> c == cs[0] || c in cs[1..];
    }
  }
}
