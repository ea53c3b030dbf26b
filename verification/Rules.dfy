/** Rules checked in order: the first that fails names the refusal. */
module Rules {
  import opened Errs

  datatype Rule = Rule(holds: bool, code: Code)

  predicate AllHold(rules: seq<Rule>) { forall i :: 0 <= i < |rules| ==> rules[i].holds }

  /** The rule at k fails and every rule before it holds. */
  predicate FailsAt(rules: seq<Rule>, k: nat) {
    k < |rules| && !rules[k].holds && forall j :: 0 <= j < k ==> rules[j].holds
  }

  /** No refusal exactly when every rule holds; otherwise the code of the first that fails. */
  predicate Verdict(refusal: Option<Code>, rules: seq<Rule>) {
    && (refusal.None? <==> AllHold(rules))
    && (refusal.Some? ==> exists k :: 0 <= k < |rules| && FailsAt(rules, k) && rules[k].code == refusal.value)
  }

  predicate Answers<T>(r: Result<T>, rules: seq<Rule>) {
    Verdict(if r.Ok? then None else Some(r.code), rules)
  }

  /** The first failing rule fixes the answer. */
  lemma AnswerIs<T>(r: Result<T>, rules: seq<Rule>, k: nat)
    requires Answers(r, rules) && FailsAt(rules, k)
    ensures r == Err(rules[k].code)
  {
    assert !AllHold(rules);
    var i :| 0 <= i < |rules| && FailsAt(rules, i) && rules[i].code == r.code;
    assert i == k;
  }
}
