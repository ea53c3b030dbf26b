/** The mission authority's issue_mandate skill (internal/authority). */
module Authority {
  import opened Errs
  import opened Schema
  import opened Tiers
  import opened Rules
  import T = Session
  import S = Store

  datatype TrustEval = TrustEval(integrity: int, behavior: int, auditFailures: bool, auditedPasses: int, certType: string)

  /** The flight rules; a threshold that is not positive, or an empty certificate floor, means the default. */
  datatype FlightRules = FlightRules(stations: seq<string>, minTier: string, classes: map<string, seq<string>>,
                                     maxCentsPerPass: int, maxPassesPerDay: int, operatorAllow: map<string, seq<string>>,
                                     downlinkMinIntegrity: int, uplinkMinIntegrity: int, uplinkMinBehavior: int,
                                     uplinkMinPasses: int, minCertType: string)
  {
    function DownlinkIntegrity(): int { if downlinkMinIntegrity > 0 then downlinkMinIntegrity else 50 }
    function UplinkIntegrity(): int { if uplinkMinIntegrity > 0 then uplinkMinIntegrity else 80 }
    function UplinkBehavior(): int { if uplinkMinBehavior > 0 then uplinkMinBehavior else 80 }
    function UplinkPasses(): int { if uplinkMinPasses > 0 then uplinkMinPasses else 3 }
    function CertFloor(): string { if minCertType != "" then minCertType else "DV" }

    /** The command classes a mode may carry. */
    function Allowed(mode: string): seq<string> { if mode in classes then classes[mode] else [] }

    predicate OperatorAllows(host: string, mode: string) { mode in operatorAllow && host in operatorAllow[mode] }
  }

  function CertRank(t: string): int {
    if t == "EV" then 3 else if t == "OV" then 2 else if t == "DV" then 1 else 0
  }

  function Rank(tier: string): int {
    if tier == FIDUCIARY then 3 else if tier == TRANSACTIONAL then 2 else if tier == READ_ONLY then 1 else 0
  }

  function OverpassTier(e: TrustEval, r: FlightRules): string {
    if !e.auditFailures && e.integrity >= r.UplinkIntegrity() && e.behavior >= r.UplinkBehavior() &&
       e.auditedPasses >= r.UplinkPasses() && CertRank(e.certType) >= CertRank(r.CertFloor())
      then FIDUCIARY
    else if !e.auditFailures && e.integrity >= r.DownlinkIntegrity() then TRANSACTIONAL
    else READ_ONLY
  }

  /** The flight rules applied to a quote; `eval` is the trust index's answer, if it gave one. */
  function CheckPolicy(r: FlightRules, q: Quote, host: string, requested: seq<string>,
                       eval: Option<TrustEval>, now: int): Result<seq<string>>
  {
    if q.exp <= now || q.los <= now then Err(PolicyRefusedWindow)
    else if r.stations != [] && host !in r.stations then Err(PolicyRefusedStation)
    else if !r.OperatorAllows(host, q.mode) &&
            (eval.None? || Rank(OverpassTier(eval.value, r)) < Rank(r.minTier) ||
             (q.mode == MODE_UPLINK && OverpassTier(eval.value, r) != FIDUCIARY))
      then Err(PolicyRefusedTier)
    else
      var allowed := r.Allowed(q.mode);
      var classes := if requested == [] then allowed else requested;
      if classes == [] then Err(PolicyRefusedClasses)
      else if !(forall k :: k in classes ==> k in allowed) then Err(PolicyRefusedClasses)
      else if r.maxCentsPerPass > 0 && q.amountCents > r.maxCentsPerPass then Err(PolicyRefusedAmount)
      else if r.maxPassesPerDay <= 0 then Err(PolicyRefusedDailyLimit)
      else Ok(classes)
  }

  datatype Authority = Authority(name: string, key: Key, rules: FlightRules, ops: seq<string>)

  /** One call: who called, what for, what verifying the station said, and the identifiers drawn. */
  datatype IssueCall = IssueCall(caller: Option<T.Caller>, quote: Quote, requested: seq<string>, host: Option<string>,
                                 verified: bool, eval: Option<TrustEval>, now: int, mandateID: string, nonce: string)

  function MandateFor(a: Authority, c: IssueCall, caller: T.Caller, classes: seq<string>): Mandate {
    Mandate(c.mandateID, a.name, caller.ansName, c.quote.station, c.quote.quoteID, Scope(c.quote.mode, c.quote.norad),
            classes, c.quote.amountCents, c.quote.aos, c.quote.los, caller.jkt, c.nonce)
  }

  /** The mandate is logged before it is signed, so one that signing then refuses still counts. */
  function Issue(a: Authority, st: S.StoreState, c: IssueCall): (S.StoreState, Result<Mandate>) {
    if !c.quote.Valid() then (st, Err(QuoteParseError))
    else if c.caller.None? || c.caller.value.ansName !in a.ops then (st, Err(PolicyRefusedCaller))
    else if c.host.None? then (st, Err(PolicyRefusedStation))
    else if !c.verified then (st, Err(PolicyRefusedUnverified))
    else match CheckPolicy(a.rules, c.quote, c.host.value, c.requested, c.eval, c.now)
      case Err(code) => (st, Err(code))
      case Ok(classes) =>
        var m := MandateFor(a, c, c.caller.value, classes);
        match S.RecordMandate(st, m.mandateID, c.quote.norad, c.quote.aos, c.host.value, a.rules.maxPassesPerDay)
        case Err(code) => (st, Err(code))
        case Ok(next) => (next, if m.Valid() then Ok(m) else Err(Internal))
  }

  /** The skill, writing the authority's store. */
  method IssueMandate(a: Authority, store: S.Store, c: IssueCall) returns (r: Result<Mandate>)
    modifies store
    ensures (store.State(), r) == Issue(a, old(store.State()), c)
  {
    if !c.quote.Valid() {
      return Err(QuoteParseError);
    }
    if c.caller.None? || c.caller.value.ansName !in a.ops {
      return Err(PolicyRefusedCaller);
    }
    if c.host.None? {
      return Err(PolicyRefusedStation);
    }
    if !c.verified {
      return Err(PolicyRefusedUnverified);
    }
    var classes := CheckPolicy(a.rules, c.quote, c.host.value, c.requested, c.eval, c.now);
    if classes.Err? {
      return Err(classes.code);
    }
    var m := MandateFor(a, c, c.caller.value, classes.value);
    var refused := store.InsertMandate(m.mandateID, c.quote.norad, c.quote.aos, c.host.value, a.rules.maxPassesPerDay);
    if refused.Some? {
      return Err(refused.value);
    }
    r := if m.Valid() then Ok(m) else Err(Internal);
  }

  /** What every issued mandate promises: the quoted station, window and satellite, the caller's own key, and only
      classes the flight rules allow for the mode; and it is logged for its satellite and day, within the limit. */
  lemma IssuedWithinRules(a: Authority, st: S.StoreState, c: IssueCall)
    requires Issue(a, st, c).1.Ok?
    ensures var (next, r) := Issue(a, st, c);
            var m := r.value;
            && m.Valid() && m.mandateID == c.mandateID && m.iss == a.name && m.scope == Scope(c.quote.mode, c.quote.norad)
            && ValidMode(c.quote.mode) && ValidNorad(c.quote.norad)
            && m.aud == c.quote.station && m.quoteID == c.quote.quoteID && m.maxAmountCents == c.quote.amountCents
            && m.nbf == c.quote.aos && m.exp == c.quote.los && m.nonce == c.nonce && c.caller.Some? && m.jkt == c.caller.value.jkt && m.sub == c.caller.value.ansName
            && m.classes == (if c.requested == [] then a.rules.Allowed(c.quote.mode) else c.requested)
            && m.sub in a.ops && (forall k :: k in m.classes ==> k in a.rules.Allowed(c.quote.mode))
            && m.mandateID !in st.issued
            && c.host.Some? && next.issued == st.issued[m.mandateID := S.IssuedRow(c.quote.norad, S.Day(m.nbf), c.host.value)]
  {
    assert forall k :: k in CheckPolicy(a.rules, c.quote, c.host.value, c.requested, c.eval, c.now).value ==>
                         k in a.rules.Allowed(c.quote.mode);
  }

  /** The log only grows. */
  lemma LogGrows(a: Authority, st: S.StoreState, c: IssueCall, id: string)
    requires id in st.issued
    ensures id in Issue(a, st, c).0.issued && Issue(a, st, c).0.issued[id] == st.issued[id]
  {
  }

  /** Uplink outside the operator's list needs the top tier, which needs every threshold at once. */
  lemma UplinkNeedsTopTier(r: FlightRules, q: Quote, host: string, requested: seq<string>, eval: Option<TrustEval>, now: int)
    requires CheckPolicy(r, q, host, requested, eval, now).Ok? && q.mode == MODE_UPLINK && !r.OperatorAllows(host, q.mode)
    ensures eval.Some? && !eval.value.auditFailures && eval.value.integrity >= r.UplinkIntegrity() &&
            eval.value.behavior >= r.UplinkBehavior() && eval.value.auditedPasses >= r.UplinkPasses() &&
            CertRank(eval.value.certType) >= CertRank(r.CertFloor())
  {
  }

  /** Whatever is asked, the log never holds more than the daily limit for a satellite and day. */
  lemma IssueKeepsLimit(a: Authority, st: S.StoreState, c: IssueCall, norad: int, day: int)
    requires |S.IssuedOn(st, norad, day)| <= a.rules.maxPassesPerDay || S.IssuedOn(st, norad, day) == {}
    ensures var next := Issue(a, st, c).0;
            |S.IssuedOn(next, norad, day)| <= a.rules.maxPassesPerDay || S.IssuedOn(next, norad, day) == {}
  {
    if Issue(a, st, c).0 != st {
      IssueWrites(a, st, c);
      S.RecordKeepsLimit(st, c.mandateID, c.quote.norad, c.quote.aos, c.host.value, a.rules.maxPassesPerDay, norad, day);
    }
  }

  lemma IssueWrites(a: Authority, st: S.StoreState, c: IssueCall)
    requires Issue(a, st, c).0 != st
    ensures c.host.Some?
    ensures S.RecordMandate(st, c.mandateID, c.quote.norad, c.quote.aos, c.host.value, a.rules.maxPassesPerDay) ==
              Ok(Issue(a, st, c).0)
  {
  }

  // ------------------------------------------------------- when it is granted

  /** A certificate is at least as strong as the floor: EV above OV above DV above anything else. */
  predicate CertReaches(cert: string, floor: string) {
    match floor
    case "EV" => cert == "EV"
    case "OV" => cert == "EV" || cert == "OV"
    case "DV" => cert == "EV" || cert == "OV" || cert == "DV"
    case _ => true
  }

  /** Every uplink threshold is met, each with its default: 80, 80, 3 passes, a DV certificate. */
  predicate UplinkGrade(e: TrustEval, r: FlightRules) {
    && !e.auditFailures
    && (if r.uplinkMinIntegrity > 0 then r.uplinkMinIntegrity else 80) <= e.integrity
    && (if r.uplinkMinBehavior > 0 then r.uplinkMinBehavior else 80) <= e.behavior
    && (if r.uplinkMinPasses > 0 then r.uplinkMinPasses else 3) <= e.auditedPasses
    && CertReaches(e.certType, if r.minCertType == "" then "DV" else r.minCertType)
  }

  predicate DownlinkGrade(e: TrustEval, r: FlightRules) {
    !e.auditFailures && (if r.downlinkMinIntegrity > 0 then r.downlinkMinIntegrity else 50) <= e.integrity
  }

  /** The operator names the host for the mode, or the trust index knows it and its grade is enough: the uplink grade
      for an uplink or under a FIDUCIARY floor, either grade under a TRANSACTIONAL floor, any under a lower one. */
  predicate Trusted(r: FlightRules, mode: string, host: string, eval: Option<TrustEval>) {
    || (mode in r.operatorAllow && host in r.operatorAllow[mode])
    || (eval.Some? && (mode == "uplink" || r.minTier == "FIDUCIARY" ==> UplinkGrade(eval.value, r))
                   && (r.minTier == "TRANSACTIONAL" ==> UplinkGrade(eval.value, r) || DownlinkGrade(eval.value, r)))
  }

  /** Every class asked for is allowed for the mode; with none asked for, the mode allows some. */
  predicate ClassesGranted(r: FlightRules, mode: string, requested: seq<string>) {
    if requested == [] then mode in r.classes && r.classes[mode] != []
    else mode in r.classes && forall k :: k in requested ==> k in r.classes[mode]
  }

  lemma ClassesIff(r: FlightRules, mode: string, requested: seq<string>)
    ensures var classes := if requested == [] then r.Allowed(mode) else requested;
            ClassesGranted(r, mode, requested) <==> classes != [] && forall k :: k in classes ==> k in r.Allowed(mode)
  {
    var allowed := r.Allowed(mode);
    if requested == [] {
      assert forall k :: k in allowed ==> k in allowed;
    } else if mode !in r.classes {
      assert requested[0] in requested && requested[0] !in allowed;
    } else {
      assert allowed == r.classes[mode];
    }
  }

  /** The flight rules, in the order they are checked. */
  function PolicyRules(r: FlightRules, q: Quote, host: string, requested: seq<string>, eval: Option<TrustEval>,
                       now: int): seq<Rule>
  {
    [Rule(now < q.exp && now < q.los, PolicyRefusedWindow),
     Rule(r.stations == [] || host in r.stations, PolicyRefusedStation),
     Rule(Trusted(r, q.mode, host, eval), PolicyRefusedTier),
     Rule(ClassesGranted(r, q.mode, requested), PolicyRefusedClasses),
     Rule(r.maxCentsPerPass <= 0 || q.amountCents <= r.maxCentsPerPass, PolicyRefusedAmount),
     Rule(0 < r.maxPassesPerDay, PolicyRefusedDailyLimit)]
  }

  lemma TrustedIff(r: FlightRules, mode: string, host: string, eval: Option<TrustEval>)
    ensures Trusted(r, mode, host, eval) <==>
              r.OperatorAllows(host, mode) ||
              (eval.Some? && Rank(OverpassTier(eval.value, r)) >= Rank(r.minTier) &&
               (mode == MODE_UPLINK ==> OverpassTier(eval.value, r) == FIDUCIARY))
  {
    if eval.Some? {
      GradeIff(eval.value, r);
    }
  }

  lemma GradeIff(e: TrustEval, r: FlightRules)
    ensures OverpassTier(e, r) ==
              if UplinkGrade(e, r) then "FIDUCIARY" else if DownlinkGrade(e, r) then "TRANSACTIONAL" else "READ_ONLY"
  {
  }

  /** The policy check answers with the first flight rule that fails. */
  lemma PolicyRefusal(r: FlightRules, q: Quote, host: string, requested: seq<string>, eval: Option<TrustEval>, now: int)
    ensures Answers(CheckPolicy(r, q, host, requested, eval, now), PolicyRules(r, q, host, requested, eval, now))
  {
    var rules := PolicyRules(r, q, host, requested, eval, now);
    TrustedIff(r, q.mode, host, eval);
    ClassesIff(r, q.mode, requested);
    if !rules[0].holds {
      assert FailsAt(rules, 0);
    } else if !rules[1].holds {
      assert FailsAt(rules, 1);
    } else if !rules[2].holds {
      assert FailsAt(rules, 2);
    } else if !rules[3].holds {
      assert FailsAt(rules, 3);
    } else if !rules[4].holds {
      assert FailsAt(rules, 4);
    } else if !rules[5].holds {
      assert FailsAt(rules, 5);
    } else {
      assert AllHold(rules);
    }
  }

  /** What is checked of the call before the flight rules. */
  function CallRules(a: Authority, c: IssueCall): seq<Rule> {
    [Rule(c.quote.Valid(), QuoteParseError),
     Rule(c.caller.Some? && c.caller.value.ansName in a.ops, PolicyRefusedCaller),
     Rule(c.host.Some?, PolicyRefusedStation), Rule(c.verified, PolicyRefusedUnverified)]
  }

  /** What is checked against the log, and of the mandate itself, after them. */
  function LogRules(a: Authority, st: S.StoreState, c: IssueCall, m: Mandate): seq<Rule> {
    var sameDay := set id | id in st.issued && st.issued[id].norad == c.quote.norad && st.issued[id].day == c.quote.aos / 86400;
    [Rule(|sameDay| < a.rules.maxPassesPerDay, PolicyRefusedDailyLimit), Rule(c.mandateID !in st.issued, Unavailable),
     Rule(m.Valid(), Internal)]
  }

  /** The mandate a call asks for. */
  function Requested(a: Authority, c: IssueCall): Mandate
    requires c.caller.Some?
  {
    Mandate(c.mandateID, a.name, c.caller.value.ansName, c.quote.station, c.quote.quoteID,
            "pass:" + c.quote.mode + ":" + Decimal.FormatInt(c.quote.norad),
            if c.requested != [] then c.requested
            else if c.quote.mode in a.rules.classes then a.rules.classes[c.quote.mode] else [],
            c.quote.amountCents, c.quote.aos, c.quote.los, c.caller.value.jkt, c.nonce)
  }

  lemma CallRefusal(a: Authority, st: S.StoreState, c: IssueCall)
    requires !AllHold(CallRules(a, c))
    ensures Answers(Issue(a, st, c).1, CallRules(a, c))
  {
    var rules := CallRules(a, c);
    if !rules[0].holds {
      assert FailsAt(rules, 0);
    } else if !rules[1].holds {
      assert FailsAt(rules, 1);
    } else if !rules[2].holds {
      assert FailsAt(rules, 2);
    } else {
      assert FailsAt(rules, 3);
    }
  }

  lemma CallPassed(a: Authority, c: IssueCall)
    requires AllHold(CallRules(a, c))
    ensures c.quote.Valid() && c.caller.Some? && c.caller.value.ansName in a.ops && c.host.Some? && c.verified
  {
    var rules := CallRules(a, c);
    assert rules[0].holds && rules[1].holds && rules[2].holds && rules[3].holds;
  }

  lemma SameCount(a: Authority, st: S.StoreState, c: IssueCall, m: Mandate)
    ensures LogRules(a, st, c, m)[0].holds <==>
              |S.IssuedOn(st, c.quote.norad, S.Day(c.quote.aos))| < a.rules.maxPassesPerDay
  {
    assert (set id | id in st.issued && st.issued[id].norad == c.quote.norad && st.issued[id].day == c.quote.aos / 86400) ==
           S.IssuedOn(st, c.quote.norad, S.Day(c.quote.aos));
  }

  lemma IsRequested(a: Authority, c: IssueCall)
    requires c.host.Some? && c.caller.Some?
    requires CheckPolicy(a.rules, c.quote, c.host.value, c.requested, c.eval, c.now).Ok?
    ensures MandateFor(a, c, c.caller.value, CheckPolicy(a.rules, c.quote, c.host.value, c.requested, c.eval, c.now).value) ==
              Requested(a, c)
  {
  }

  /** Past the flight rules, only the log and the mandate's own form decide. */
  lemma PastPolicy(a: Authority, st: S.StoreState, c: IssueCall)
    requires AllHold(CallRules(a, c)) && c.host.Some? && c.caller.Some?
    requires CheckPolicy(a.rules, c.quote, c.host.value, c.requested, c.eval, c.now).Ok?
    ensures Issue(a, st, c).1 ==
              match S.RecordMandate(st, c.mandateID, c.quote.norad, c.quote.aos, c.host.value, a.rules.maxPassesPerDay)
              case Err(code) => Err(code)
              case Ok(_) => if Requested(a, c).Valid() then Ok(Requested(a, c)) else Err(Internal)
  {
    CallPassed(a, c);
    IsRequested(a, c);
  }

  lemma LogRefusal(a: Authority, st: S.StoreState, c: IssueCall)
    requires AllHold(CallRules(a, c)) && c.host.Some? && c.caller.Some?
    requires CheckPolicy(a.rules, c.quote, c.host.value, c.requested, c.eval, c.now).Ok?
    ensures Answers(Issue(a, st, c).1, LogRules(a, st, c, Requested(a, c)))
    ensures Issue(a, st, c).1.Ok? ==> Issue(a, st, c).1.value == Requested(a, c)
  {
    PastPolicy(a, st, c);
    var m := Requested(a, c);
    var rules := LogRules(a, st, c, m);
    SameCount(a, st, c, m);
    if !rules[0].holds {
      assert FailsAt(rules, 0);
    } else if !rules[1].holds {
      assert FailsAt(rules, 1);
    } else if !rules[2].holds {
      assert FailsAt(rules, 2);
    } else {
      assert AllHold(rules);
    }
  }

  /** issue_mandate grants a mandate exactly when the call, every flight rule, the log and the mandate itself are in
      order, and then the one asked for; otherwise it answers with the first of these rules that fails. */
  lemma GrantedExactlyWhen(a: Authority, st: S.StoreState, c: IssueCall)
    ensures var r := Issue(a, st, c).1;
            if !AllHold(CallRules(a, c)) then Answers(r, CallRules(a, c))
            else
              && c.host.Some? && c.caller.Some?
              && var policy := PolicyRules(a.rules, c.quote, c.host.value, c.requested, c.eval, c.now);
                 && Answers(r, if !AllHold(policy) then policy else LogRules(a, st, c, Requested(a, c)))
                 && (r.Ok? ==> r.value == Requested(a, c))
  {
    if !AllHold(CallRules(a, c)) {
      CallRefusal(a, st, c);
    } else {
      CallPassed(a, c);
      PolicyRefusal(a.rules, c.quote, c.host.value, c.requested, c.eval, c.now);
      if CheckPolicy(a.rules, c.quote, c.host.value, c.requested, c.eval, c.now).Ok? {
        LogRefusal(a, st, c);
      }
    }
  }

  /** A refused call writes nothing, unless the mandate was logged and then could not be signed. */
  lemma RefusedUnlogged(a: Authority, st: S.StoreState, c: IssueCall)
    requires Issue(a, st, c).1.Err? && Issue(a, st, c).1.code != Internal
    ensures Issue(a, st, c).0 == st
  {
    if AllHold(CallRules(a, c)) {
      CallPassed(a, c);
    }
  }
}
