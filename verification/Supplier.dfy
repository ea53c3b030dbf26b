/** The supplier surface's quotes, replay cache and consumed mandates (internal/supplieradapter). Times are nanoseconds. */
module Supplier {
  import opened Errs
  import opened Clock
  import opened Rules

  const IAT_WINDOW := 300 * SECOND
  const JTI_LIFE := 10 * MINUTE
  const USED_LIFE := 24 * 60 * MINUTE
  const QUOTE_LIFE := 30 * MINUTE
  /** Leeway on a mandate's window, in seconds. */
  const LEEWAY := 30
  /** Added to max_amount before it is compared. */
  const EPSILON := 0.000000001

  type Key = nat

  datatype FlightOption = FlightOption(optionID: string, price: real, currency: string)

  /** A stored quote expires at a Unix second. */
  datatype Quote = Quote(quoteID: string, scope: string, options: seq<FlightOption>, exp: int)

  /** The adapter's own names, and the authority it pins ("" for none). `fold` is what strings.EqualFold compares,
      `lower` is strings.ToLower. */
  datatype Config = Config(ansName: string, host: string, publicURL: string, authority: string,
                           fold: string -> string, lower: string -> string)
  {
    predicate Same(a: string, b: string) { fold(a) == fold(b) }

    predicate OwnURL(url: string) { lower(publicURL) <= lower(url) }
  }

  /** The mandate's signature: no JWS, or one under a key id with the key that made it. */
  datatype Signature = NoJws | Signed(kid: string, key: Key)

  /** A mandate that parses. An absent nbf or exp reads as zero, an absent id, issuer or currency as "". */
  datatype Mandate = Mandate(mandateID: string, sigDigest: string, signature: Signature, issuer: string, audience: string,
                             quoteID: string, scope: string, maxAmount: real, currency: string, nbf: int, exp: int,
                             jkt: string)
  {
    /** What the mandate is remembered by. */
    function ID(): string { if mandateID == "" then sigDigest else mandateID }
  }

  /** A DPoP proof that verifies with the key it carries. An absent claim reads as zero or "". */
  datatype Proof = Proof(jkt: string, jti: string, htm: string, htu: string, iat: real)

  /** One book_flight call: its arguments as parsed, and the authority keys if they could be had. */
  datatype Attempt = Attempt(mandate: Option<Mandate>, quoteID: string, optionID: string, hasProof: bool,
                             proof: Option<Proof>, keys: Option<map<string, Key>>)

  datatype State = State(quotes: map<string, Quote>, usedJTI: map<string, int>, used: map<string, int>)

  const EMPTY := State(map[], map[], map[])

  /** int64 of a float: towards zero. */
  function Truncate(x: real): int { if x >= 0.0 then x.Floor else -((-x).Floor) }

  function Abs(n: int): int { if n < 0 then -n else n }

  predicate InWindow(p: Proof, now: int) {
    p.iat == 0.0 || Abs(now - Truncate(p.iat) * SECOND) <= IAT_WINDOW
  }

  function Collect(s: State, now: int): State {
    s.(quotes := map q | q in s.quotes && s.quotes[q].exp >= Unix(now) :: s.quotes[q],
       usedJTI := map k | k in s.usedJTI && Unix(s.usedJTI[k]) >= Unix(now) :: s.usedJTI[k])
  }

  function Offer(s: State, quoteID: string, scope: string, options: seq<FlightOption>, now: int): State {
    var kept := Collect(s, now);
    kept.(quotes := kept.quotes[quoteID := Quote(quoteID, scope, options, Unix(now + QUOTE_LIFE))])
  }

  function FindQuote(s: State, id: string, now: int): Option<Quote> {
    if id in s.quotes && s.quotes[id].exp >= Unix(now) then Some(s.quotes[id]) else None
  }

  /** The last option with that id. */
  function FindOption(options: seq<FlightOption>, id: string): (r: Option<FlightOption>)
    ensures r.Some? ==> exists i :: LastAt(options, id, i) && options[i] == r.value
    ensures r.None? ==> forall i :: 0 <= i < |options| ==> options[i].optionID != id
  {
    if options == [] then None
    else if options[|options| - 1].optionID == id then
      assert LastAt(options, id, |options| - 1);
      Some(options[|options| - 1])
    else
      var front := options[..|options| - 1];
      assert forall i :: LastAt(front, id, i) ==> LastAt(options, id, i) && options[i] == front[i];
      FindOption(front, id)
  }

  predicate LastAt(options: seq<FlightOption>, id: string, i: int) {
    0 <= i < |options| && options[i].optionID == id && forall j :: i < j < |options| ==> options[j].optionID != id
  }

  /** Steps 2 and 3: signature, issuer, audience. */
  function CheckIssuer(cfg: Config, m: Mandate, keys: Option<map<string, Key>>): Option<Code> {
    if keys.None? then Some(MandateRejectedUnknownKey)
    else if m.signature.NoJws? then Some(MandateRejectedSignature)
    else if m.signature.kid !in keys.value then Some(MandateRejectedUnknownKey)
    else if keys.value[m.signature.kid] != m.signature.key then Some(MandateRejectedSignature)
    else if cfg.authority != "" && m.issuer != "" && !cfg.Same(m.issuer, cfg.authority) then Some(MandateRejectedUnknownKey)
    else if !cfg.Same(m.audience, cfg.ansName) && !cfg.Same(m.audience, cfg.host) then Some(MandateRejectedAudience)
    else None
  }

  /** Steps 4 to 6: quote, option, scope, amount. */
  function CheckQuote(cfg: Config, s: State, m: Mandate, quoteID: string, optionID: string, now: int): Option<Code> {
    match FindQuote(s, quoteID, now)
    case None => Some(MandateRejectedQuote)
    case Some(q) =>
      if m.quoteID != quoteID then Some(MandateRejectedQuote)
      else match FindOption(q.options, optionID)
        case None => Some(MandateRejectedQuote)
        case Some(o) =>
          if !cfg.Same(m.scope, q.scope) then Some(MandateRejectedScope)
          else if m.maxAmount + EPSILON < o.price then Some(MandateRejectedAmount)
          else if m.currency != "" && !cfg.Same(m.currency, o.currency) then Some(MandateRejectedAmount)
          else None
  }

  /** Steps 7 and 8: the mandate's window, the proof and its binding. */
  function CheckProof(cfg: Config, m: Mandate, proof: Option<Proof>, now: int): Option<Code> {
    if m.nbf != 0 && Unix(now) < m.nbf - LEEWAY then Some(MandateRejectedExpired)
    else if m.exp != 0 && Unix(now) > m.exp + LEEWAY then Some(MandateRejectedExpired)
    else if proof.None? || proof.value.jti == "" || !InWindow(proof.value, now) then Some(DPoPRejectedKey)
    else if proof.value.jkt != m.jkt then Some(DPoPRejectedKey)
    else if proof.value.htm != "" && !cfg.Same(proof.value.htm, "POST") then Some(DPoPRejectedKey)
    else if proof.value.htu != "" && !cfg.OwnURL(proof.value.htu) then Some(DPoPRejectedKey)
    else None
  }

  /** The checks before the replay cache is looked at, in order. */
  function Refused(cfg: Config, s: State, a: Attempt, now: int): Option<Code> {
    if a.mandate.None? then Some(MandateParseError)
    else if a.quoteID == "" || a.optionID == "" || !a.hasProof then Some(MandateParseError)
    else if CheckIssuer(cfg, a.mandate.value, a.keys).Some? then CheckIssuer(cfg, a.mandate.value, a.keys)
    else if CheckQuote(cfg, s, a.mandate.value, a.quoteID, a.optionID, now).Some?
      then CheckQuote(cfg, s, a.mandate.value, a.quoteID, a.optionID, now)
    else CheckProof(cfg, a.mandate.value, a.proof, now)
  }

  function Verify(cfg: Config, s: State, a: Attempt, now: int): (State, Option<Code>) {
    var refused := Refused(cfg, s, a, now);
    if refused.Some? || a.proof.None? || a.mandate.None? then (s, refused)
    else
      var jti, id := a.proof.value.jti, a.mandate.value.ID();
      if jti in s.usedJTI then (s, Some(DPoPRejectedReplay))
      else if id in s.used then (s, Some(MandateRejectedConsumed))
      else (s.(usedJTI := s.usedJTI[jti := now + JTI_LIFE], used := s.used[id := now + USED_LIFE]), None)
  }

  /** The mandate is signed under a published key by the pinned authority, for this adapter. */
  predicate Genuine(cfg: Config, m: Mandate, keys: Option<map<string, Key>>) {
    && keys.Some? && m.signature.Signed? && m.signature.kid in keys.value && keys.value[m.signature.kid] == m.signature.key
    && (cfg.authority == "" || m.issuer == "" || cfg.Same(m.issuer, cfg.authority))
    && (cfg.Same(m.audience, cfg.ansName) || cfg.Same(m.audience, cfg.host))
  }

  /** The mandate covers an option of a quote that is on file and has not expired. */
  ghost predicate Covers(cfg: Config, s: State, m: Mandate, quoteID: string, optionID: string, now: int) {
    && quoteID in s.quotes && Unix(now) <= s.quotes[quoteID].exp && m.quoteID == quoteID
    && cfg.Same(m.scope, s.quotes[quoteID].scope)
    && exists i :: 0 <= i < |s.quotes[quoteID].options| && Affords(cfg, m, s.quotes[quoteID].options, i, optionID)
  }

  ghost predicate Affords(cfg: Config, m: Mandate, options: seq<FlightOption>, i: nat, optionID: string)
    requires i < |options|
  {
    && options[i].optionID == optionID && (forall j :: i < j < |options| ==> options[j].optionID != optionID)
    && options[i].price <= m.maxAmount + EPSILON && (m.currency == "" || cfg.Same(m.currency, options[i].currency))
  }

  /** The proof names itself, is recent or undated, is made with the mandate's key, and is for this call. */
  predicate Binds(cfg: Config, m: Mandate, p: Proof, now: int) {
    && p.jti != "" && InWindow(p, now) && p.jkt == m.jkt
    && (p.htm == "" || cfg.Same(p.htm, "POST")) && (p.htu == "" || cfg.OwnURL(p.htu))
  }

  lemma QuoteChecksExactly(cfg: Config, s: State, m: Mandate, quoteID: string, optionID: string, now: int)
    ensures CheckQuote(cfg, s, m, quoteID, optionID, now).None? <==> Covers(cfg, s, m, quoteID, optionID, now)
  {
    if quoteID in s.quotes {
      var options := s.quotes[quoteID].options;
      var o := FindOption(options, optionID);
      if o.Some? {
        var i :| LastAt(options, optionID, i) && options[i] == o.value;
        assert CheckQuote(cfg, s, m, quoteID, optionID, now).None? ==> Affords(cfg, m, options, i, optionID);
        forall k | 0 <= k < |options| && Affords(cfg, m, options, k, optionID) ensures k == i {
        }
      }
    }
  }

  /** A booking is accepted exactly when the mandate is genuine, covers a live quote's option and is in its window, the
      proof binds it, and neither the proof's id nor the mandate is remembered; otherwise nothing changes. */
  lemma AcceptsExactlyWhen(cfg: Config, s: State, a: Attempt, now: int)
    ensures var (next, refused) := Verify(cfg, s, a, now);
            && (refused.Some? ==> next == s)
            && (refused.None? <==>
                  && a.mandate.Some? && a.quoteID != "" && a.optionID != "" && a.hasProof && a.proof.Some?
                  && var m, p := a.mandate.value, a.proof.value;
                     && Genuine(cfg, m, a.keys) && Covers(cfg, s, m, a.quoteID, a.optionID, now)
                     && (m.nbf == 0 || m.nbf - 30 <= Unix(now)) && (m.exp == 0 || Unix(now) <= m.exp + 30)
                     && Binds(cfg, m, p, now) && p.jti !in s.usedJTI && m.ID() !in s.used)
  {
    if a.mandate.Some? {
      QuoteChecksExactly(cfg, s, a.mandate.value, a.quoteID, a.optionID, now);
      assert CheckIssuer(cfg, a.mandate.value, a.keys).None? <==> Genuine(cfg, a.mandate.value, a.keys);
    }
  }

  class Adapter {
    const cfg: Config
    var quotes: map<string, Quote>
    var usedJTI: map<string, int>
    var used: map<string, int>

    function Value(): State
      reads this
    {
      State(quotes, usedJTI, used)
    }

    constructor (cfg: Config)
      ensures this.cfg == cfg && Value() == EMPTY
    {
      this.cfg := cfg;
      quotes, usedJTI, used := map[], map[], map[];
    }

    method GC(now: int)
      modifies this
      ensures Value() == Collect(old(Value()), now)
    {
      DropQuotes(Unix(now));
      DropProofs(Unix(now));
    }

    method DropQuotes(now: int)
      modifies this`quotes
      ensures quotes == map q | q in old(quotes) && old(quotes)[q].exp >= now :: old(quotes)[q]
    {
      var todo := quotes.Keys;
      while todo != {}
        invariant todo <= old(quotes).Keys
        invariant quotes == map q | q in old(quotes) && (q in todo || old(quotes)[q].exp >= now) :: old(quotes)[q]
        decreases |todo|
      {
        var id :| id in todo;
        if quotes[id].exp < now {
          quotes := quotes - {id};
        }
        todo := todo - {id};
      }
    }

    method DropProofs(now: int)
      modifies this`usedJTI
      ensures usedJTI == map k | k in old(usedJTI) && Unix(old(usedJTI)[k]) >= now :: old(usedJTI)[k]
    {
      var todo := usedJTI.Keys;
      while todo != {}
        invariant todo <= old(usedJTI).Keys
        invariant usedJTI == map k | k in old(usedJTI) && (k in todo || Unix(old(usedJTI)[k]) >= now) :: old(usedJTI)[k]
        decreases |todo|
      {
        var k :| k in todo;
        if Unix(usedJTI[k]) < now {
          usedJTI := usedJTI - {k};
        }
        todo := todo - {k};
      }
    }

    method GetQuote(quoteID: string, scope: string, options: seq<FlightOption>, now: int)
      modifies this
      ensures Value() == Offer(old(Value()), quoteID, scope, options, now)
    {
      GC(now);
      quotes := quotes[quoteID := Quote(quoteID, scope, options, Unix(now + QUOTE_LIFE))];
    }

    /** The loop keeps the last option with the id. */
    method PickOption(options: seq<FlightOption>, id: string) returns (found: Option<FlightOption>)
      ensures found == FindOption(options, id)
    {
      found := None;
      for i := 0 to |options|
        invariant found == FindOption(options[..i], id)
      {
        assert options[..i + 1][..i] == options[..i];
        if options[i].optionID == id {
          found := Some(options[i]);
        }
      }
      assert options[..|options|] == options;
    }

    /** Steps 4 to 6 on the stored quote. */
    method CheckStored(m: Mandate, quoteID: string, optionID: string, now: int) returns (refused: Option<Code>)
      ensures refused == CheckQuote(cfg, Value(), m, quoteID, optionID, now)
    {
      if quoteID !in quotes || quotes[quoteID].exp < Unix(now) || m.quoteID != quoteID {
        return Some(MandateRejectedQuote);
      }
      var q := quotes[quoteID];
      var o := PickOption(q.options, optionID);
      if o.None? {
        return Some(MandateRejectedQuote);
      }
      if !cfg.Same(m.scope, q.scope) {
        return Some(MandateRejectedScope);
      }
      if m.maxAmount + EPSILON < o.value.price || (m.currency != "" && !cfg.Same(m.currency, o.value.currency)) {
        return Some(MandateRejectedAmount);
      }
      return None;
    }

    method BookFlight(a: Attempt, now: int) returns (refused: Option<Code>)
      modifies this
      ensures (Value(), refused) == Verify(cfg, old(Value()), a, now)
    {
      if a.mandate.None? || a.quoteID == "" || a.optionID == "" || !a.hasProof {
        return Some(MandateParseError);
      }
      var m := a.mandate.value;
      refused := CheckIssuer(cfg, m, a.keys);
      if refused.Some? {
        return;
      }
      refused := CheckStored(m, a.quoteID, a.optionID, now);
      if refused.Some? {
        return;
      }
      refused := CheckProof(cfg, m, a.proof, now);
      if refused.Some? {
        return;
      }
      var jti := a.proof.value.jti;
      if jti in usedJTI {
        return Some(DPoPRejectedReplay);
      }
      if m.ID() in used {
        return Some(MandateRejectedConsumed);
      }
      usedJTI := usedJTI[jti := now + JTI_LIFE];
      used := used[m.ID() := now + USED_LIFE];
    }
  }

  // ------------------------------------------------------------- whole runs

  datatype Event =
    | Quoted(quoteID: string, scope: string, options: seq<FlightOption>, now: int)
    | Booked(attempt: Attempt, now: int)

  /** One accepted call. */
  datatype Acceptance = Acceptance(mandate: string, proof: Proof, at: int)

  /** The adapter, its clock, and what it has accepted. */
  datatype World = World(state: State, clock: int, log: seq<Acceptance>)

  function Step(cfg: Config, w: World, e: Event): World {
    match e
    case Quoted(id, scope, options, now) => World(Offer(w.state, id, scope, options, now), now, w.log)
    case Booked(a, now) =>
      var (next, refused) := Verify(cfg, w.state, a, now);
      World(next, now, if refused.None? && a.mandate.Some? && a.proof.Some?
                       then w.log + [Acceptance(a.mandate.value.ID(), a.proof.value, now)] else w.log)
  }

  /** A run under a clock that does not go back. */
  ghost predicate Run(cfg: Config, w: World, es: seq<Event>, end: World)
    decreases |es|
  {
    if es == [] then w == end else es[0].now >= w.clock && Run(cfg, Step(cfg, w, es[0]), es[1..], end)
  }

  /** An acceptance is remembered: its mandate for good, its proof until the entry has expired. */
  ghost predicate Remembered(w: World, a: Acceptance) {
    && a.mandate in w.state.used && a.at <= w.clock && InWindow(a.proof, a.at)
    && ((a.proof.jti in w.state.usedJTI && w.state.usedJTI[a.proof.jti] >= a.at + JTI_LIFE) ||
        Unix(w.clock) > Unix(a.at + JTI_LIFE))
  }

  ghost predicate Inv(w: World) {
    && (forall i :: 0 <= i < |w.log| ==> Remembered(w, w.log[i]))
    && (forall i, j :: 0 <= i < j < |w.log| ==>
          w.log[i].mandate != w.log[j].mandate && (w.log[i].proof == w.log[j].proof ==> w.log[i].proof.iat == 0.0))
  }

  lemma UnixMonotone(a: int, b: int)
    requires a <= b
    ensures Unix(a) <= Unix(b)
  {
  }

  lemma QuotedRemembers(cfg: Config, w: World, e: Event, a: Acceptance)
    requires Remembered(w, a) && e.Quoted? && e.now >= w.clock
    ensures Remembered(Step(cfg, w, e), a)
  {
    UnixMonotone(w.clock, e.now);
    if a.proof.jti in w.state.usedJTI && w.state.usedJTI[a.proof.jti] >= a.at + JTI_LIFE {
      UnixMonotone(a.at + JTI_LIFE, w.state.usedJTI[a.proof.jti]);
    }
  }

  /** What a call that is accepted adds, and what it was not. */
  lemma AcceptedIsNew(cfg: Config, s: State, b: Attempt, now: int)
    requires Verify(cfg, s, b, now).1.None?
    ensures b.mandate.Some? && b.proof.Some? && b.proof.value.jti !in s.usedJTI && b.mandate.value.ID() !in s.used
    ensures InWindow(b.proof.value, now) && b.proof.value.jti != ""
    ensures Verify(cfg, s, b, now).0 == s.(usedJTI := s.usedJTI[b.proof.value.jti := now + JTI_LIFE],
                                           used := s.used[b.mandate.value.ID() := now + USED_LIFE])
  {
  }

  lemma BookedRemembers(cfg: Config, w: World, b: Attempt, now: int, a: Acceptance)
    requires Remembered(w, a) && now >= w.clock
    ensures Remembered(Step(cfg, w, Booked(b, now)), a)
  {
    UnixMonotone(w.clock, now);
    if Verify(cfg, w.state, b, now).1.None? {
      AcceptedIsNew(cfg, w.state, b, now);
    } else {
      assert Verify(cfg, w.state, b, now).0 == w.state;
    }
  }

  /** The window on iat closes before the cache forgets the proof. */
  lemma WindowClosesFirst(cfg: Config, w: World, b: Attempt, now: int, a: Acceptance)
    requires Remembered(w, a) && now >= w.clock && Verify(cfg, w.state, b, now).1.None?
    ensures b.mandate.Some? && b.proof.Some?
    ensures a.mandate != b.mandate.value.ID() && (a.proof == b.proof.value ==> a.proof.iat == 0.0)
  {
    AcceptedIsNew(cfg, w.state, b, now);
    if a.proof == b.proof.value && a.proof.iat != 0.0 {
      UnixMonotone(w.clock, a.at + JTI_LIFE);
    }
  }

  lemma AcceptedKeeps(cfg: Config, w: World, b: Attempt, now: int)
    requires Inv(w) && now >= w.clock && Verify(cfg, w.state, b, now).1.None?
    ensures Inv(Step(cfg, w, Booked(b, now)))
  {
    var next := Step(cfg, w, Booked(b, now));
    AcceptedIsNew(cfg, w.state, b, now);
    var new_ := Acceptance(b.mandate.value.ID(), b.proof.value, now);
    assert next.log == w.log + [new_];
    forall i | 0 <= i < |w.log|
      ensures Remembered(next, w.log[i]) && w.log[i].mandate != new_.mandate
      ensures w.log[i].proof == new_.proof ==> w.log[i].proof.iat == 0.0
    {
      BookedRemembers(cfg, w, b, now, w.log[i]);
      WindowClosesFirst(cfg, w, b, now, w.log[i]);
    }
    assert Remembered(next, new_);
  }

  lemma StepKeeps(cfg: Config, w: World, e: Event)
    requires Inv(w) && e.now >= w.clock
    ensures Inv(Step(cfg, w, e))
  {
    if e.Booked? && Verify(cfg, w.state, e.attempt, e.now).1.None? {
      AcceptedKeeps(cfg, w, e.attempt, e.now);
    } else {
      assert Step(cfg, w, e).log == w.log;
      forall i | 0 <= i < |w.log| ensures Remembered(Step(cfg, w, e), w.log[i]) {
        match e {
          case Quoted(_, _, _, _) => QuotedRemembers(cfg, w, e, w.log[i]);
          case Booked(a, now) => BookedRemembers(cfg, w, a, now, w.log[i]);
        }
      }
    }
  }

  lemma {:induction false} RunKeeps(cfg: Config, w: World, es: seq<Event>, end: World)
    requires Inv(w) && Run(cfg, w, es, end)
    ensures Inv(end)
    decreases |es|
  {
    if es != [] {
      StepKeeps(cfg, w, es[0]);
      RunKeeps(cfg, Step(cfg, w, es[0]), es[1..], end);
    }
  }

  /** In every run, no mandate is accepted twice. */
  lemma MandateOnce(cfg: Config, clock: int, es: seq<Event>, end: World)
    requires Run(cfg, World(EMPTY, clock, []), es, end)
    ensures forall i, j :: 0 <= i < j < |end.log| ==> end.log[i].mandate != end.log[j].mandate
  {
    RunKeeps(cfg, World(EMPTY, clock, []), es, end);
  }

  ghost predicate AtMostOnce(log: seq<Acceptance>, p: Proof) {
    forall i, j :: 0 <= i < j < |log| ==> !(log[i].proof == p && log[j].proof == p)
  }

  /** No run of this adapter accepts the proof twice. */
  ghost predicate NeverTwice(cfg: Config, p: Proof) {
    forall clock, es, end :: Run(cfg, World(EMPTY, clock, []), es, end) ==> AtMostOnce(end.log, p)
  }

  /** A mandate and call that meet every check, but for the proof. */
  function GoodCall(cfg: Config, p: Proof, id: string): Attempt {
    Attempt(Some(Mandate(id, "", Signed("k", 0), cfg.authority, cfg.ansName, "q", "s", 1.0, "", 0, 0, p.jkt)), "q", "o",
            true, Some(p), Some(map["k" := 0]))
  }

  const OPTIONS := [FlightOption("o", 1.0, "USD")]

  /** The proof is one this adapter may accept at all: it has an id, and a method and URL that fit if any. */
  predicate Usable(cfg: Config, p: Proof) {
    p.jti != "" && (p.htm == "" || cfg.Same(p.htm, "POST")) && (p.htu == "" || cfg.OwnURL(p.htu))
  }

  lemma GoodCallAccepted(cfg: Config, s: State, p: Proof, id: string, now: int)
    requires Usable(cfg, p) && p.iat == 0.0 && id != "" && p.jti !in s.usedJTI && id !in s.used
    requires "q" in s.quotes && s.quotes["q"] == Quote("q", "s", OPTIONS, s.quotes["q"].exp) && Unix(now) <= s.quotes["q"].exp
    ensures Verify(cfg, s, GoodCall(cfg, p, id), now).1.None?
  {
    var m := GoodCall(cfg, p, id).mandate.value;
    assert OPTIONS[0].optionID == "o" && Affords(cfg, m, OPTIONS, 0, "o");
    assert Covers(cfg, s, m, "q", "o", now);
    AcceptsExactlyWhen(cfg, s, GoodCall(cfg, p, id), now);
  }

  /** Quoted, accepted, and after eleven minutes quoted again, which sweeps the cache: accepted with another mandate. */
  lemma UndatedSteps(cfg: Config, p: Proof) returns (e1: Event, e2: Event, e3: Event, e4: Event)
    requires Usable(cfg, p) && p.iat == 0.0
    ensures 0 <= e1.now <= e2.now <= e3.now <= e4.now
    ensures var w := Step(cfg, Step(cfg, Step(cfg, Step(cfg, World(EMPTY, 0, []), e1), e2), e3), e4);
            |w.log| == 2 && w.log[0].proof == p && w.log[1].proof == p
  {
    var later := JTI_LIFE + MINUTE;
    e1, e2 := Quoted("q", "s", OPTIONS, 0), Booked(GoodCall(cfg, p, "m1"), 0);
    e3, e4 := Quoted("q", "s", OPTIONS, later), Booked(GoodCall(cfg, p, "m2"), later);
    var w1 := Step(cfg, World(EMPTY, 0, []), e1);
    GoodCallAccepted(cfg, w1.state, p, "m1", 0);
    AcceptedIsNew(cfg, w1.state, e2.attempt, 0);
    var w2 := Step(cfg, w1, e2);
    assert w2.log == [Acceptance("m1", p, 0)] && w2.state.used.Keys == {"m1"} && w2.state.usedJTI == map[p.jti := JTI_LIFE];
    var w3 := Step(cfg, w2, e3);
    assert w3.state.usedJTI == map[] && w3.log == w2.log && w3.state.used == w2.state.used;
    assert "m1" != "m2";
    GoodCallAccepted(cfg, w3.state, p, "m2", later);
    assert Step(cfg, w3, e4).log == [Acceptance("m1", p, 0), Acceptance("m2", p, later)];
  }

  lemma RunOfFour(cfg: Config, w: World, e1: Event, e2: Event, e3: Event, e4: Event)
    requires w.clock <= e1.now <= e2.now <= e3.now <= e4.now
    ensures Run(cfg, w, [e1, e2, e3, e4], Step(cfg, Step(cfg, Step(cfg, Step(cfg, w, e1), e2), e3), e4))
  {
    var w1 := Step(cfg, w, e1);
    var w2 := Step(cfg, w1, e2);
    var w3 := Step(cfg, w2, e3);
    var w4 := Step(cfg, w3, e4);
    assert w1.clock == e1.now && w2.clock == e2.now && w3.clock == e3.now;
    assert Run(cfg, w4, [], w4);
    assert [e4][1..] == [] && Run(cfg, w3, [e4], w4);
    assert [e3, e4][1..] == [e4] && Run(cfg, w2, [e3, e4], w4);
    assert [e2, e3, e4][1..] == [e3, e4] && Run(cfg, w1, [e2, e3, e4], w4);
    assert [e1, e2, e3, e4][1..] == [e2, e3, e4];
  }

  /** A proof without iat is accepted again once a quote request has swept the cache. */
  lemma UndatedTwice(cfg: Config, p: Proof)
    requires Usable(cfg, p) && p.iat == 0.0
    ensures !NeverTwice(cfg, p)
  {
    var e1, e2, e3, e4 := UndatedSteps(cfg, p);
    RunOfFour(cfg, World(EMPTY, 0, []), e1, e2, e3, e4);
    var end := Step(cfg, Step(cfg, Step(cfg, Step(cfg, World(EMPTY, 0, []), e1), e2), e3), e4);
    assert end.log[0].proof == p && end.log[1].proof == p;
    assert !AtMostOnce(end.log, p);
  }

  /** Only usable proofs are ever accepted. */
  lemma {:induction false} AcceptedUsable(cfg: Config, w: World, es: seq<Event>, end: World, i: nat)
    requires Run(cfg, w, es, end) && i < |end.log| && forall j :: 0 <= j < |w.log| ==> Usable(cfg, w.log[j].proof)
    ensures Usable(cfg, end.log[i].proof)
    decreases |es|
  {
    if es != [] {
      var next := Step(cfg, w, es[0]);
      if es[0].Booked? && Verify(cfg, w.state, es[0].attempt, es[0].now).1.None? {
        AcceptsExactlyWhen(cfg, w.state, es[0].attempt, es[0].now);
        assert next.log == w.log + [next.log[|w.log|]];
      } else {
        assert next.log == w.log;
      }
      AcceptedUsable(cfg, next, es[1..], end, i);
    }
  }

  /** A proof that an adapter may accept at all is accepted at most once in every run, exactly when it carries a
      nonzero iat. */
  lemma NeverTwiceIffDated(cfg: Config, p: Proof)
    ensures NeverTwice(cfg, p) <==> p.iat != 0.0 || !Usable(cfg, p)
  {
    if p.iat == 0.0 && Usable(cfg, p) {
      UndatedTwice(cfg, p);
    } else {
      forall clock, es, end | Run(cfg, World(EMPTY, clock, []), es, end) ensures AtMostOnce(end.log, p) {
        RunKeeps(cfg, World(EMPTY, clock, []), es, end);
        if !Usable(cfg, p) {
          forall i | 0 <= i < |end.log| ensures end.log[i].proof != p {
            AcceptedUsable(cfg, World(EMPTY, clock, []), es, end, i);
          }
        }
      }
    }
  }

  // ------------------------------------------------------- which refusal

  /** Towards zero: the whole part of the size, with the sign. */
  lemma TruncateMeans(x: real)
    ensures var n := Truncate(x);
            if x >= 0.0 then 0 <= n && n as real <= x < (n + 1) as real else n <= 0 && (n - 1) as real < x <= n as real
  {
  }

  function CallRules(a: Attempt): seq<Rule> {
    [Rule(a.mandate.Some?, MandateParseError),
     Rule(a.quoteID != "" && a.optionID != "" && a.hasProof, MandateParseError)]
  }

  function IssuerRules(cfg: Config, m: Mandate, keys: Option<map<string, Key>>): seq<Rule> {
    var known := keys.Some? && m.signature.Signed? && m.signature.kid in keys.value;
    [Rule(keys.Some?, MandateRejectedUnknownKey), Rule(m.signature.Signed?, MandateRejectedSignature),
     Rule(known, MandateRejectedUnknownKey), Rule(known && keys.value[m.signature.kid] == m.signature.key, MandateRejectedSignature),
     Rule(cfg.authority == "" || m.issuer == "" || cfg.fold(m.issuer) == cfg.fold(cfg.authority), MandateRejectedUnknownKey),
     Rule(cfg.fold(m.audience) in {cfg.fold(cfg.ansName), cfg.fold(cfg.host)}, MandateRejectedAudience)]
  }

  lemma IssuerRefusal(cfg: Config, m: Mandate, keys: Option<map<string, Key>>)
    ensures Verdict(CheckIssuer(cfg, m, keys), IssuerRules(cfg, m, keys))
  {
    var rules := IssuerRules(cfg, m, keys);
    if !rules[0].holds {
      assert FailsAt(rules, 0);
    } else if !rules[1].holds {
      assert FailsAt(rules, 1);
    } else if !rules[2].holds {
      assert FailsAt(rules, 2);
    } else if !rules[3].holds {
      assert FailsAt(rules, 3);
    } else if !rules[4].holds {
      assert FailsAt(rules, 4);
    } else if !rules[5].holds {
      assert FailsAt(rules, 5);
    } else {
      assert AllHold(rules);
    }
  }

  /** The last option with the id. */
  ghost predicate LastWith(options: seq<FlightOption>, id: string, o: FlightOption) {
    exists i :: LastAt(options, id, i) && options[i] == o
  }

  /** The quote's rules on the option picked. */
  function OptionRules(cfg: Config, m: Mandate, scope: string, o: FlightOption): seq<Rule> {
    [Rule(cfg.fold(m.scope) == cfg.fold(scope), MandateRejectedScope),
     Rule(o.price <= m.maxAmount + 0.000000001, MandateRejectedAmount),
     Rule(m.currency == "" || cfg.fold(m.currency) == cfg.fold(o.currency), MandateRejectedAmount)]
  }

  /** Without a live quote that the mandate names, or an option of that id in it, the quote is refused; otherwise the
      option's rules decide. */
  lemma QuoteRefusal(cfg: Config, s: State, m: Mandate, quoteID: string, optionID: string, now: int)
    ensures var refusal := CheckQuote(cfg, s, m, quoteID, optionID, now);
            if quoteID !in s.quotes || s.quotes[quoteID].exp < Unix(now) || m.quoteID != quoteID ||
               (forall o :: !LastWith(s.quotes[quoteID].options, optionID, o))
            then refusal == Some(MandateRejectedQuote)
            else forall o :: LastWith(s.quotes[quoteID].options, optionID, o) ==>
                   Verdict(refusal, OptionRules(cfg, m, s.quotes[quoteID].scope, o))
  {
    if quoteID in s.quotes && s.quotes[quoteID].exp >= Unix(now) && m.quoteID == quoteID {
      var options, scope := s.quotes[quoteID].options, s.quotes[quoteID].scope;
      forall o | LastWith(options, optionID, o) ensures FindOption(options, optionID) == Some(o) {
        LastIsFound(options, optionID, o);
      }
      var found := FindOption(options, optionID);
      if found.Some? {
        assert LastWith(options, optionID, found.value);
        OptionRefusal(cfg, s, m, quoteID, optionID, now, found.value);
      }
    }
  }

  lemma LastIsFound(options: seq<FlightOption>, id: string, o: FlightOption)
    requires LastWith(options, id, o)
    ensures FindOption(options, id) == Some(o)
  {
    var i :| LastAt(options, id, i) && options[i] == o;
    var found := FindOption(options, id);
    var k :| LastAt(options, id, k) && options[k] == found.value;
    assert i == k;
  }

  lemma OptionRefusal(cfg: Config, s: State, m: Mandate, quoteID: string, optionID: string, now: int, o: FlightOption)
    requires FindQuote(s, quoteID, now).Some? && m.quoteID == quoteID
    requires FindOption(FindQuote(s, quoteID, now).value.options, optionID) == Some(o)
    ensures Verdict(CheckQuote(cfg, s, m, quoteID, optionID, now), OptionRules(cfg, m, s.quotes[quoteID].scope, o))
  {
    var rules := OptionRules(cfg, m, s.quotes[quoteID].scope, o);
    if !rules[0].holds {
      assert FailsAt(rules, 0);
    } else if !rules[1].holds {
      assert FailsAt(rules, 1);
    } else if !rules[2].holds {
      assert FailsAt(rules, 2);
    } else {
      assert AllHold(rules);
    }
  }

  /** The mandate's window with 30 s to spare, then the proof: present, named, dated within 300 s if at all, made with
      the mandate's key, and for this call. */
  function ProofRules(cfg: Config, m: Mandate, proof: Option<Proof>, now: int): seq<Rule> {
    [Rule(m.nbf == 0 || m.nbf <= Unix(now) + 30, MandateRejectedExpired),
     Rule(m.exp == 0 || Unix(now) <= m.exp + 30, MandateRejectedExpired),
     Rule(&& proof.Some? && proof.value.jti != ""
          && (proof.value.iat == 0.0 ||
              (now - 300_000_000_000 <= Truncate(proof.value.iat) * 1_000_000_000 <= now + 300_000_000_000)), DPoPRejectedKey),
     Rule(proof.Some? && proof.value.jkt == m.jkt, DPoPRejectedKey),
     Rule(proof.Some? && (proof.value.htm == "" || cfg.fold(proof.value.htm) == cfg.fold("POST")), DPoPRejectedKey),
     Rule(proof.Some? && (proof.value.htu == "" || cfg.lower(cfg.publicURL) <= cfg.lower(proof.value.htu)), DPoPRejectedKey)]
  }

  lemma ProofRefusal(cfg: Config, m: Mandate, proof: Option<Proof>, now: int)
    ensures Verdict(CheckProof(cfg, m, proof, now), ProofRules(cfg, m, proof, now))
  {
    var rules := ProofRules(cfg, m, proof, now);
    if !rules[0].holds {
      assert FailsAt(rules, 0);
    } else if !rules[1].holds {
      assert FailsAt(rules, 1);
    } else if !rules[2].holds {
      assert FailsAt(rules, 2);
    } else if !rules[3].holds {
      assert FailsAt(rules, 3);
    } else if !rules[4].holds {
      assert FailsAt(rules, 4);
    } else if !rules[5].holds {
      assert FailsAt(rules, 5);
    } else {
      assert AllHold(rules);
    }
  }

  function MemoryRules(s: State, m: Mandate, p: Proof): seq<Rule> {
    [Rule(p.jti !in s.usedJTI, DPoPRejectedReplay),
     Rule((if m.mandateID == "" then m.sigDigest else m.mandateID) !in s.used, MandateRejectedConsumed)]
  }

  lemma CallRefusal(cfg: Config, s: State, a: Attempt, now: int)
    ensures !AllHold(CallRules(a)) ==> Verdict(Verify(cfg, s, a, now).1, CallRules(a))
    ensures AllHold(CallRules(a)) ==> a.mandate.Some? && a.quoteID != "" && a.optionID != "" && a.hasProof
  {
    var rules := CallRules(a);
    if !rules[0].holds {
      assert FailsAt(rules, 0);
    } else if !rules[1].holds {
      assert FailsAt(rules, 1);
    }
  }

  lemma MemoryRefusal(cfg: Config, s: State, a: Attempt, now: int)
    requires Refused(cfg, s, a, now).None? && a.mandate.Some? && a.proof.Some?
    ensures Verdict(Verify(cfg, s, a, now).1, MemoryRules(s, a.mandate.value, a.proof.value))
  {
    var rules := MemoryRules(s, a.mandate.value, a.proof.value);
    if !rules[0].holds {
      assert FailsAt(rules, 0);
    } else if !rules[1].holds {
      assert FailsAt(rules, 1);
    } else {
      assert AllHold(rules);
    }
  }

  /** book_flight refuses at the first stage that fails: the call, the issuer, the quote and option, the window and
      proof, and last what was used before; each stage by its own first failing rule. */
  lemma RefusedExactly(cfg: Config, s: State, a: Attempt, now: int)
    ensures var refusal := Verify(cfg, s, a, now).1;
            if !AllHold(CallRules(a)) then Verdict(refusal, CallRules(a))
            else
              && a.mandate.Some?
              && var m := a.mandate.value;
                 var quote := CheckQuote(cfg, s, m, a.quoteID, a.optionID, now);
                 if !AllHold(IssuerRules(cfg, m, a.keys)) then Verdict(refusal, IssuerRules(cfg, m, a.keys))
                 else if quote.Some? then refusal == quote
                 else if !AllHold(ProofRules(cfg, m, a.proof, now)) then Verdict(refusal, ProofRules(cfg, m, a.proof, now))
                 else a.proof.Some? && Verdict(refusal, MemoryRules(s, m, a.proof.value))
  {
    CallRefusal(cfg, s, a, now);
    if AllHold(CallRules(a)) {
      var m := a.mandate.value;
      IssuerRefusal(cfg, m, a.keys);
      ProofRefusal(cfg, m, a.proof, now);
      if Refused(cfg, s, a, now).None? {
        MemoryRefusal(cfg, s, a, now);
      }
    }
  }

  /** An accepted call is remembered: its proof for ten minutes, its mandate for a day. */
  lemma RemembersFor(cfg: Config, s: State, a: Attempt, now: int)
    requires Verify(cfg, s, a, now).1.None?
    ensures var next := Verify(cfg, s, a, now).0;
            && a.proof.Some? && a.mandate.Some? && next.quotes == s.quotes
            && next.usedJTI == s.usedJTI[a.proof.value.jti := now + 600_000_000_000]
            && next.used == s.used[a.mandate.value.ID() := now + 86_400_000_000_000]
  {
    AcceptedIsNew(cfg, s, a, now);
  }

  /** A quote offered stands for thirty minutes, to the second; only quotes and proofs whose second has passed go. */
  lemma OfferMeans(s: State, id: string, scope: string, options: seq<FlightOption>, now: int, at: int)
    ensures var next := Offer(s, id, scope, options, now);
            && (FindQuote(next, id, at).Some? <==> at / 1_000_000_000 <= (now + 1_800_000_000_000) / 1_000_000_000)
            && id in next.quotes && next.quotes[id].scope == scope && next.quotes[id].options == options
            && (forall q :: q != id ==> (q in next.quotes <==> q in s.quotes && now / 1_000_000_000 <= s.quotes[q].exp))
            && (forall k :: k in next.usedJTI <==> k in s.usedJTI && now / 1_000_000_000 <= s.usedJTI[k] / 1_000_000_000)
            && next.used == s.used
  {
  }
}
