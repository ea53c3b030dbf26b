/** When the diff of a replan adds up (internal/planner/planner.go). */
module DiffBalance {
  import opened Passes
  import opened Sorting
  import opened Planner
  import opened PlanRules
  import opened PlanOrder
  import opened Replan

  // ---------------------------------------------------------- keys of passes

  /** No two passes of the list have one host and AOS. */
  ghost predicate KeysDistinct(ps: seq<Pass>) {
    forall i, j :: 0 <= i < j < |ps| ==> !SameKey(ps[i], ps[j])
  }

  function KeyOf(p: Pass): (string, int) { (p.host, p.aos) }

  lemma KeysByName(t: seq<Pass>)
    ensures KeysDistinct(t) <==> Distinct(Map(t, KeyOf))
  {
    MapLength(t, KeyOf);
    forall i | 0 <= i < |t| ensures Map(t, KeyOf)[i] == (t[i].host, t[i].aos) {
      MapAt(t, KeyOf, i);
    }
  }

  lemma KeysPermute(s: seq<Pass>, t: seq<Pass>)
    requires KeysDistinct(s) && multiset(s) == multiset(t)
    ensures KeysDistinct(t)
  {
    KeysByName(s);
    KeysByName(t);
    MapPermutes(s, t, KeyOf);
    DistinctPermutes(Map(s, KeyOf), Map(t, KeyOf));
  }

  lemma {:induction false} FilterKeys(ps: seq<Pass>, f: Pass -> bool)
    requires KeysDistinct(ps)
    ensures KeysDistinct(Filter(ps, f))
  {
    if ps != [] {
      FilterKeys(ps[1..], f);
      var rest := Filter(ps[1..], f);
      forall j | 0 <= j < |rest| ensures !SameKey(ps[0], rest[j]) {
        FilterMember(ps[1..], f, rest[j]);
        var i :| 0 <= i < |ps[1..]| && ps[1..][i] == rest[j];
        assert !SameKey(ps[0], ps[i + 1]);
      }
    }
  }

  lemma InPlanPass(p: Pass, cs: seq<Candidate>)
    ensures InPlan(p, cs) <==> exists q :: q in PassesOf(cs) && SameKey(q, p)
  {
    MapLength(cs, PassOf);
    forall i | 0 <= i < |cs| ensures PassesOf(cs)[i] == cs[i].pass {
      MapAt(cs, PassOf, i);
    }
    if i :| 0 <= i < |cs| && SameKey(cs[i].pass, p) {
      assert PassesOf(cs)[i] in PassesOf(cs);
    }
  }

  // --------------------------------------------------- before: for every table

  lemma {:induction false} SplitCounts(ps: seq<Pass>, cs: seq<Candidate>)
    ensures |Filter(ps, Within(cs))| + |Filter(ps, Outside(cs))| == |ps|
    ensures Seconds(Filter(ps, Within(cs))) + Seconds(Filter(ps, Outside(cs))) == Seconds(ps)
  {
    if ps != [] {
      SplitCounts(ps[1..], cs);
    }
  }

  lemma HostDropped(before: Plan, after: Plan, host: string, p: Pass)
    requires p in PassesOf(before.selected) && p.host == host && forall s :: s in after.selected ==> s.pass.host != host
    ensures p in DiffOf(before, after, host).dropped
  {
    assert !InPlan(p, after.selected);
    FilterMember(PassesOf(before.selected), Outside(after.selected), p);
  }

  /** For every table: kept and dropped make up the plan before, in number and in contact seconds, and the removed host's
      passes are all dropped. */
  lemma BeforeBalances(table: seq<Pass>, b: Brief, excluded: seq<string>, host: string)
    requires b.request.goal > 0
    ensures var prev := Scheduled(table, b, excluded);
            var d := DiffOf(prev, Replanned(prev, host), host);
            && |d.kept| + |d.dropped| == |prev.selected| && Seconds(d.kept) + Seconds(d.dropped) == prev.contact
            && (forall p :: p in PassesOf(prev.selected) && p.host == host ==> p in d.dropped)
  {
    var prev := Scheduled(table, b, excluded);
    var next := Replanned(prev, host);
    SelectedRules(table, b, excluded);
    SplitCounts(PassesOf(prev.selected), next.selected);
    MapLength(prev.selected, PassOf);
    ReplannedIsPlanned(prev, host);
    PlannedBars(next);
    forall p | p in PassesOf(prev.selected) && p.host == host ensures p in DiffOf(prev, next, host).dropped {
      assert host in prev.excluded + [host];
      HostDropped(prev, next, host, p);
    }
  }

  // --------------------------------------------------- the plan after, in number

  /** Equal representatives exactly for one host and AOS. */
  ghost predicate Represents(rep: Pass -> Pass, ps: seq<Pass>, qs: seq<Pass>) {
    forall p, q :: (p in ps || p in qs) && (q in ps || q in qs) ==> (rep(p) == rep(q) <==> SameKey(p, q))
  }

  lemma RepDistinct(ps: seq<Pass>, f: Pass -> bool, rep: Pass -> Pass)
    requires KeysDistinct(ps) && Represents(rep, ps, ps)
    ensures Distinct(Map(Filter(ps, f), rep))
  {
    var some := Filter(ps, f);
    FilterKeys(ps, f);
    MapLength(some, rep);
    forall i, j | 0 <= i < j < |some| ensures Map(some, rep)[i] != Map(some, rep)[j] {
      MapAt(some, rep, i);
      MapAt(some, rep, j);
      FilterMember(ps, f, some[i]);
      FilterMember(ps, f, some[j]);
    }
  }

  /** A kept pass has its counterpart in the other plan. */
  lemma Counterpart(before: seq<Candidate>, after: seq<Candidate>, rep: Pass -> Pass, x: Pass)
    requires Represents(rep, PassesOf(before), PassesOf(after))
    requires x in Map(Filter(PassesOf(before), Within(after)), rep)
    ensures x in Map(Filter(PassesOf(after), Within(before)), rep)
  {
    var b, a := PassesOf(before), PassesOf(after);
    MapMember(Filter(b, Within(after)), rep, x);
    var p :| p in Filter(b, Within(after)) && rep(p) == x;
    FilterMember(b, Within(after), p);
    InPlanPass(p, after);
    var q :| q in a && SameKey(q, p);
    InPlanPass(q, before);
    assert SameKey(p, q);
    FilterMember(a, Within(before), q);
    var i :| 0 <= i < |Filter(a, Within(before))| && Filter(a, Within(before))[i] == q;
    MapAt(Filter(a, Within(before)), rep, i);
  }

  lemma SameMembers(s: seq<Pass>, t: seq<Pass>)
    requires Distinct(s) && Distinct(t) && forall x :: x in s <==> x in t
    ensures multiset(s) == multiset(t)
  {
    forall x: Pass ensures multiset(s)[x] == multiset(t)[x] {
      DistinctCount(s, x);
      DistinctCount(t, x);
      assert x in s <==> multiset(s)[x] > 0;
      assert x in t <==> multiset(t)[x] > 0;
    }
  }

  /** The passes kept, seen from either plan, up to their representatives. */
  lemma KeptEitherWay(before: seq<Candidate>, after: seq<Candidate>, rep: Pass -> Pass)
    requires KeysDistinct(PassesOf(before)) && KeysDistinct(PassesOf(after))
    requires Represents(rep, PassesOf(before), PassesOf(after))
    ensures multiset(Map(Filter(PassesOf(before), Within(after)), rep)) ==
            multiset(Map(Filter(PassesOf(after), Within(before)), rep))
  {
    var kept, back := Map(Filter(PassesOf(before), Within(after)), rep), Map(Filter(PassesOf(after), Within(before)), rep);
    RepDistinct(PassesOf(before), Within(after), rep);
    RepDistinct(PassesOf(after), Within(before), rep);
    forall x ensures x in kept <==> x in back {
      if x in kept {
        Counterpart(before, after, rep, x);
      }
      if x in back {
        Counterpart(after, before, rep, x);
      }
    }
    SameMembers(kept, back);
  }

  function KeyRep(p: Pass): Pass { Pass("", p.host, 0, p.aos, 0, 0, 0, 0) }

  lemma CountsAfter(before: Plan, after: Plan, host: string)
    requires KeysDistinct(PassesOf(before.selected)) && KeysDistinct(PassesOf(after.selected))
    ensures var d := DiffOf(before, after, host); |d.kept| + |d.added| == |after.selected|
  {
    var kept := Filter(PassesOf(before.selected), Within(after.selected));
    var back := Filter(PassesOf(after.selected), Within(before.selected));
    KeptEitherWay(before.selected, after.selected, KeyRep);
    MapLength(kept, KeyRep);
    MapLength(back, KeyRep);
    SameElements(Map(kept, KeyRep), Map(back, KeyRep));
    SplitCounts(PassesOf(after.selected), before.selected);
    MapLength(after.selected, PassOf);
  }

  /** Every pass lasts: what any real pass does. */
  ghost predicate Nonempty(table: seq<Pass>) { forall p :: p in table ==> p.aos < p.los }

  lemma SelectedPasses(table: seq<Pass>, b: Brief, excluded: seq<string>)
    requires b.request.goal > 0
    ensures forall p :: p in PassesOf(Scheduled(table, b, excluded).selected) ==> p in table
  {
    var plan := Scheduled(table, b, excluded);
    SelectedRules(table, b, excluded);
    forall p | p in PassesOf(plan.selected) ensures p in table {
      MapMember(plan.selected, PassOf, p);
    }
  }

  /** Passes that last and are apart have different keys. */
  lemma ApartKeys(cs: seq<Candidate>)
    requires Apart(cs) && Nonempty(PassesOf(cs))
    ensures KeysDistinct(PassesOf(cs))
  {
    MapLength(cs, PassOf);
    forall i, j | 0 <= i < j < |cs| ensures !SameKey(PassesOf(cs)[i], PassesOf(cs)[j]) {
      MapAt(cs, PassOf, i);
      MapAt(cs, PassOf, j);
      assert PassesOf(cs)[i] in PassesOf(cs) && PassesOf(cs)[j] in PassesOf(cs);
      assert !cs[i].pass.Overlaps(cs[j].pass);
    }
  }

  /** The passes a plan selects are passes of the table, none two with one host and AOS. */
  lemma SelectedKeys(table: seq<Pass>, b: Brief, excluded: seq<string>)
    requires b.request.goal > 0
    ensures var ps := PassesOf(Scheduled(table, b, excluded).selected);
            && (forall p :: p in ps ==> p in table) && (Nonempty(table) || KeysDistinct(table) ==> KeysDistinct(ps))
  {
    var plan := Scheduled(table, b, excluded);
    SelectedPasses(table, b, excluded);
    if Nonempty(table) {
      SelectedRules(table, b, excluded);
      ApartKeys(plan.selected);
    } else if KeysDistinct(table) {
      PlanPartitions(table, b, excluded);
      DistinctSelected(table, PassesOf(plan.selected), PassesOf(plan.others));
    }
  }

  lemma DistinctSelected(table: seq<Pass>, ps: seq<Pass>, others: seq<Pass>)
    requires KeysDistinct(table) && multiset(ps) + multiset(others) == multiset(table) && forall p :: p in ps ==> p in table
    ensures KeysDistinct(ps)
  {
    forall i, j | 0 <= i < j < |ps| ensures !SameKey(ps[i], ps[j]) {
      assert ps[i] in ps && ps[j] in ps;
      if SameKey(ps[i], ps[j]) {
        KeysMember(table, ps[i], ps[j]);
        RepeatCount(ps, i, j);
        DistinctCount(table, ps[i]);
      }
    }
  }

  lemma BothKeysDistinct(table: seq<Pass>, b: Brief, excluded: seq<string>, host: string)
    requires b.request.goal > 0 && (Nonempty(table) || KeysDistinct(table))
    ensures var prev := Scheduled(table, b, excluded);
            var before, after := PassesOf(prev.selected), PassesOf(Replanned(prev, host).selected);
            && KeysDistinct(before) && KeysDistinct(after)
            && (forall p :: p in before ==> p in table) && (forall p :: p in after ==> p in table)
  {
    SelectedKeys(table, b, excluded);
    var t := ReplanPermutes(table, b, excluded, host);
    if KeysDistinct(table) {
      KeysPermute(table, t);
    }
    SelectedKeys(t, b, excluded + [host]);
  }

  /** For every table of nonempty windows, or of distinct keys: kept and added make up the plan after, in number. */
  lemma AfterBalancesInNumber(table: seq<Pass>, b: Brief, excluded: seq<string>, host: string)
    requires b.request.goal > 0 && (Nonempty(table) || KeysDistinct(table))
    ensures var prev := Scheduled(table, b, excluded);
            var next := Replanned(prev, host);
            var d := DiffOf(prev, next, host);
            |d.kept| + |d.added| == |next.selected|
  {
    BothKeysDistinct(table, b, excluded, host);
    CountsAfter(Scheduled(table, b, excluded), Replanned(Scheduled(table, b, excluded), host), host);
  }

  // -------------------------------------------------- the plan after, in seconds

  ghost predicate SecondsBalance(before: Plan, after: Plan, host: string) {
    var d := DiffOf(before, after, host); Seconds(d.kept) + Seconds(d.added) == after.contact
  }

  /** Passes of both plans with one host and AOS last equally long. */
  ghost predicate SameLengths(ps: seq<Pass>, qs: seq<Pass>) {
    forall p, q :: p in ps && q in qs && SameKey(p, q) ==> p.duration == q.duration
  }

  function LengthRep(p: Pass): Pass { Pass("", p.host, 0, p.aos, 0, 0, p.duration, 0) }

  lemma {:induction false} RepSeconds(ps: seq<Pass>)
    ensures Seconds(Map(ps, LengthRep)) == Seconds(ps)
  {
    if ps != [] {
      RepSeconds(ps[1..]);
    }
  }

  lemma KeysMember(ps: seq<Pass>, p: Pass, q: Pass)
    requires KeysDistinct(ps) && p in ps && q in ps && SameKey(p, q)
    ensures p == q
  {
    var i :| 0 <= i < |ps| && ps[i] == p;
    var j :| 0 <= j < |ps| && ps[j] == q;
    assert i == j;
  }

  lemma SecondsAfter(before: Plan, after: Plan, host: string)
    requires KeysDistinct(PassesOf(before.selected)) && KeysDistinct(PassesOf(after.selected))
    requires SameLengths(PassesOf(before.selected), PassesOf(after.selected)) && after.contact == ContactTime(after.selected)
    ensures SecondsBalance(before, after, host)
  {
    var b, a := PassesOf(before.selected), PassesOf(after.selected);
    var kept, back := Filter(b, Within(after.selected)), Filter(a, Within(before.selected));
    forall p, q | (p in b || p in a) && (q in b || q in a) ensures LengthRep(p) == LengthRep(q) <==> SameKey(p, q) {
      if SameKey(p, q) {
        if p in b && q in b {
          KeysMember(b, p, q);
        } else if p in a && q in a {
          KeysMember(a, p, q);
        } else {
          assert SameKey(q, p);
        }
      }
    }
    KeptEitherWay(before.selected, after.selected, LengthRep);
    RepSeconds(kept);
    RepSeconds(back);
    SecondsPermutes(Map(kept, LengthRep), Map(back, LengthRep));
    SplitCounts(a, before.selected);
  }

  lemma NextContact(table: seq<Pass>, b: Brief, excluded: seq<string>, host: string)
    requires b.request.goal > 0
    ensures var next := Replanned(Scheduled(table, b, excluded), host); next.contact == ContactTime(next.selected)
  {
    var t := ReplanPermutes(table, b, excluded, host);
    SelectedRules(t, b, excluded + [host]);
  }

  /** With one pass per host and AOS, kept and added make up the plan after in contact seconds too. */
  lemma AfterBalancesInSeconds(table: seq<Pass>, b: Brief, excluded: seq<string>, host: string)
    requires b.request.goal > 0 && Keyed(table) && (Nonempty(table) || KeysDistinct(table))
    ensures var prev := Scheduled(table, b, excluded); SecondsBalance(prev, Replanned(prev, host), host)
  {
    BothKeysDistinct(table, b, excluded, host);
    NextContact(table, b, excluded, host);
    SecondsAfter(Scheduled(table, b, excluded), Replanned(Scheduled(table, b, excluded), host), host);
  }
}
