/** A station's book_pass skill (internal/station), without rogue mode. */
module Booking {
  import opened Errs
  import opened Schema
  import opened Rules
  import T = Session
  import S = Store

  datatype Satellite = Satellite(norad: int, authority: string, ops: seq<string>)

  /** A station: its name, its signed satellite registry, and the mandate keys each issuer publishes. */
  datatype Station = Station(name: string, registry: seq<Satellite>, keys: string -> set<Key>)

  function FindSatellite(registry: seq<Satellite>, norad: int): (r: Option<Satellite>)
    ensures r.Some? ==> exists i :: 0 <= i < |registry| && registry[i] == r.value && r.value.norad == norad &&
                                    forall j :: 0 <= j < i ==> registry[j].norad != norad
    ensures r.None? ==> forall s :: s in registry ==> s.norad != norad
  {
    if registry == [] then None
    else if registry[0].norad == norad then Some(registry[0])
    else FindSatellite(registry[1..], norad)
  }

  datatype BookArgs = BookArgs(quoteID: string, mandate: MandateToken)

  /** Checks 1 to 4: the mandate parses, is signed by its issuer, by the satellite's registered authority for one of
      its Ops agents, and is meant for this station. */
  function CheckMandate(s: Station, t: MandateToken): Result<Mandate> {
    match PeekMandate(t)
    case Err(code) => Err(code)
    case Ok(peeked) =>
      match VerifyMandate(t, s.keys(peeked.iss))
      case Err(code) => Err(code)
      case Ok(m) =>
        var norad := ParseScope(m.scope).value.1;
        var sat := FindSatellite(s.registry, norad);
        if sat.None? || sat.value.authority != m.iss || m.sub !in sat.value.ops then Err(MandateRejectedNotOwner)
        else if m.aud != s.name then Err(MandateRejectedAudience)
        else Ok(m)
  }

  /** Checks 5 to 9: the quote booked, its scope, amount and window, and the caller's key. */
  function CheckQuote(st: S.StoreState, m: Mandate, quoteID: string, caller: Option<T.Caller>, now: int): Result<Quote> {
    if quoteID != m.quoteID then Err(MandateRejectedQuote)
    else match S.GetQuote(st, m.quoteID, now)
      case None => Err(MandateRejectedQuote)
      case Some(q) =>
        if m.scope != Scope(q.mode, q.norad) then Err(MandateRejectedScope)
        else if m.maxAmountCents < q.amountCents then Err(MandateRejectedAmount)
        else if m.nbf != q.aos || m.exp != q.los || m.exp <= now then Err(MandateRejectedWindow)
        else if caller.None? || caller.value.jkt != m.jkt then Err(DPoPRejectedKey)
        else Ok(q)
  }

  function RowFor(m: Mandate, q: Quote, t: MandateToken, bookingID: string): S.Booking {
    S.Booking(bookingID, q.quoteID, m.mandateID, m.iss, m.nonce, q.norad, m.nbf, m.exp, t)
  }

  /** The whole of book_pass, as one step on the station's store. */
  function BookPass(s: Station, st: S.StoreState, args: BookArgs, caller: Option<T.Caller>, bookingID: string,
                    now: int): (S.StoreState, Result<S.Booking>)
  {
    match CheckMandate(s, args.mandate)
    case Err(code) => (st, Err(code))
    case Ok(m) =>
      match CheckQuote(st, m, args.quoteID, caller, now)
      case Err(code) => (st, Err(code))
      case Ok(q) =>
        var b := RowFor(m, q, args.mandate, bookingID);
        match S.Book(st, b)
        case Err(code) => (st, Err(code))
        case Ok(next) => (next, Ok(b))
  }

  method Book(s: Station, store: S.Store, args: BookArgs, caller: Option<T.Caller>, bookingID: string, now: int)
    returns (r: Result<S.Booking>)
    modifies store
    ensures (store.State(), r) == BookPass(s, old(store.State()), args, caller, bookingID, now)
  {
    var m := CheckMandate(s, args.mandate);
    if m.Err? {
      return Err(m.code);
    }
    var q := CheckQuote(store.State(), m.value, args.quoteID, caller, now);
    if q.Err? {
      return Err(q.code);
    }
    var b := RowFor(m.value, q.value, args.mandate, bookingID);
    var refused := store.InsertBooking(b);
    r := if refused.Some? then Err(refused.value) else Ok(b);
  }

  // ------------------------------------------------- replaying a mandate

  /** What happens at one station: quotes, bookings, and proofs seen by its transport. */
  datatype Event =
    | QuoteEvent(q: Quote, now: int)
    | BookEvent(args: BookArgs, caller: Option<T.Caller>, bookingID: string, now: int)
    | ProofEvent(key: string, exp: int, now: int)

  function Step(s: Station, st: S.StoreState, e: Event): S.StoreState {
    match e
    case QuoteEvent(q, now) => S.PutQuote(st, q, now).0
    case BookEvent(args, caller, bookingID, now) => BookPass(s, st, args, caller, bookingID, now).0
    case ProofEvent(key, exp, now) => S.CheckAndStore(st, key, exp, now).0
  }

  function Run(s: Station, st: S.StoreState, es: seq<Event>): S.StoreState
    decreases |es|
  {
    if es == [] then st else Run(s, Step(s, st, es[0]), es[1..])
  }

  /** One antenna, and every stored quote filed under its own id. */
  ghost predicate Good(st: S.StoreState) {
    S.OneAntenna(st) && forall id :: id in st.quotes ==> st.quotes[id].quote.quoteID == id
  }

  lemma BookGood(st: S.StoreState, b: S.Booking)
    requires Good(st) && S.Book(st, b).Ok?
    ensures Good(S.Book(st, b).value)
  {
    S.BookKeepsOneAntenna(st, b);
  }

  lemma PruneGood(st: S.StoreState, now: int)
    requires Good(st)
    ensures Good(S.MaybePrune(st, now))
  {
    S.PruneKeeps(st, now);
  }

  lemma StepGood(s: Station, st: S.StoreState, e: Event)
    requires Good(st)
    ensures Good(Step(s, st, e))
  {
    match e {
      case QuoteEvent(_, now) => PruneGood(st, now);
      case ProofEvent(_, _, now) => PruneGood(st, now);
      case BookEvent(args, caller, bookingID, now) =>
        var (next, r) := BookPass(s, st, args, caller, bookingID, now);
        if r.Ok? {
          assert next == S.Book(st, r.value).value;
          BookGood(st, r.value);
        }
    }
  }

  lemma {:induction false} RunGood(s: Station, st: S.StoreState, es: seq<Event>)
    requires Good(st)
    ensures Good(Run(s, st, es))
    decreases |es|
  {
    if es != [] {
      StepGood(s, st, es[0]);
      RunGood(s, Step(s, st, es[0]), es[1..]);
    }
  }

  /** A booking made with this mandate is on file, its nonce is consumed, and its quote is kept past the window. */
  ghost predicate OnFile(st: S.StoreState, m: Mandate, q: Quote, id: string) {
    && id in st.bookings && st.bookings[id].quoteID == m.quoteID && st.bookings[id].iss == m.iss
    && st.bookings[id].nonce == m.nonce && st.bookings[id].nbf == m.nbf && st.bookings[id].exp == m.exp
    && (m.iss, m.nonce) in st.consumed
    && m.quoteID in st.quotes && st.quotes[m.quoteID].quote == q && st.quotes[m.quoteID].exp >= m.exp
  }

  lemma BookingStays(st: S.StoreState, b: S.Booking, m: Mandate, q: Quote, id: string)
    requires OnFile(st, m, q, id) && S.Book(st, b).Ok?
    ensures OnFile(S.Book(st, b).value, m, q, id)
  {
  }

  lemma StepStaysOnFile(s: Station, st: S.StoreState, e: Event, m: Mandate, q: Quote, id: string)
    requires OnFile(st, m, q, id)
    ensures OnFile(Step(s, st, e), m, q, id)
  {
    match e {
      case QuoteEvent(_, now) =>
        S.PruneKeeps(st, now);
        assert S.Booked(st, m.quoteID);
      case ProofEvent(_, _, now) =>
        S.PruneKeeps(st, now);
        assert S.Booked(st, m.quoteID);
      case BookEvent(args, caller, bookingID, now) =>
        var r := BookPass(s, st, args, caller, bookingID, now).1;
        if r.Ok? {
          BookingStays(st, r.value, m, q, id);
        }
    }
  }

  lemma {:induction false} RunStaysOnFile(s: Station, st: S.StoreState, es: seq<Event>, m: Mandate, q: Quote, id: string)
    requires OnFile(st, m, q, id)
    ensures OnFile(Run(s, st, es), m, q, id)
    decreases |es|
  {
    if es != [] {
      StepStaysOnFile(s, st, es[0], m, q, id);
      RunStaysOnFile(s, Step(s, st, es[0]), es[1..], m, q, id);
    }
  }

  /** With one antenna, a booking with the window, issuer and nonce of one on file meets no clash, only the consumed
      nonce. */
  lemma ConsumedNotClash(st: S.StoreState, b: S.Booking, id: string)
    requires S.OneAntenna(st) && id in st.bookings && S.SameNonce(st.bookings[id], b)
    requires st.bookings[id].nbf == b.nbf && st.bookings[id].exp == b.exp
    ensures S.Book(st, b) == Err(MandateRejectedConsumed)
  {
    forall k | k in st.bookings ensures !(S.Overlaps(st.bookings[k], b) && !S.SameNonce(st.bookings[k], b)) {
      if k != id {
        assert S.Apart(st.bookings[k], st.bookings[id]);
      }
    }
    assert (st.bookings[id].iss, st.bookings[id].nonce) in st.consumed;
  }

  /** With one antenna, the transaction accepts a booking exactly when its window is free of every booking, its nonce
      was never consumed and its id is new: skipping bookings with the same nonce lets nothing through. */
  lemma BooksFreeWindow(st: S.StoreState, b: S.Booking)
    requires S.OneAntenna(st)
    ensures S.Book(st, b).Ok? <==>
              && (forall id :: id in st.bookings ==> !S.Overlaps(st.bookings[id], b))
              && (b.iss, b.nonce) !in st.consumed && b.bookingID !in st.bookings
  {
    if (b.iss, b.nonce) !in st.consumed {
      forall id | id in st.bookings ensures !S.SameNonce(st.bookings[id], b) {
        assert (st.bookings[id].iss, st.bookings[id].nonce) in st.consumed;
      }
    }
  }

  /** The mandate is good here: signed by a key of its issuer, who is the satellite's registered authority, for one of
      its Ops agents, and meant for this station. */
  predicate Acceptable(s: Station, t: MandateToken) {
    && t.Jws? && t.payload.Valid() && t.key in s.keys(t.payload.iss) && t.payload.aud == s.name
    && var sat := FindSatellite(s.registry, ParseScope(t.payload.scope).value.1);
       sat.Some? && sat.value.authority == t.payload.iss && t.payload.sub in sat.value.ops
  }

  /** The mandate covers a quote that is still on file, and the caller holds its key. */
  predicate Covers(st: S.StoreState, m: Mandate, quoteID: string, caller: Option<T.Caller>, now: int) {
    && quoteID == m.quoteID && quoteID in st.quotes && now < st.quotes[quoteID].exp
    && var q := st.quotes[quoteID].quote;
       && m.scope == Scope(q.mode, q.norad) && q.amountCents <= m.maxAmountCents && m.nbf == q.aos && m.exp == q.los
       && now < m.exp && caller.Some? && caller.value.jkt == m.jkt
  }

  lemma ChecksExactly(s: Station, st: S.StoreState, args: BookArgs, caller: Option<T.Caller>, now: int)
    ensures CheckMandate(s, args.mandate).Ok? <==> Acceptable(s, args.mandate)
    ensures CheckMandate(s, args.mandate).Ok? ==> CheckMandate(s, args.mandate).value == args.mandate.payload
    ensures forall m :: CheckQuote(st, m, args.quoteID, caller, now).Ok? <==> Covers(st, m, args.quoteID, caller, now)
  {
  }

  /** In every history, book_pass succeeds exactly when the mandate is acceptable, covers a live quote for this caller,
      and the window is free of every booking with the nonce never used; otherwise nothing changes. */
  lemma BooksExactlyWhen(s: Station, before: seq<Event>, args: BookArgs, caller: Option<T.Caller>, bookingID: string, now: int)
    ensures var st := Run(s, S.EMPTY, before);
            var (next, r) := BookPass(s, st, args, caller, bookingID, now);
            && (r.Err? ==> next == st)
            && (r.Ok? <==>
                  && Acceptable(s, args.mandate)
                  && var m := args.mandate.payload;
                     && Covers(st, m, args.quoteID, caller, now)
                     && (forall id :: id in st.bookings ==> !(st.bookings[id].nbf < m.exp && m.nbf < st.bookings[id].exp))
                     && (m.iss, m.nonce) !in st.consumed && bookingID !in st.bookings)
  {
    var st := Run(s, S.EMPTY, before);
    RunGood(s, S.EMPTY, before);
    ChecksExactly(s, st, args, caller, now);
    if Acceptable(s, args.mandate) && Covers(st, args.mandate.payload, args.quoteID, caller, now) {
      var m := args.mandate.payload;
      var q := CheckQuote(st, m, args.quoteID, caller, now).value;
      BooksFreeWindow(st, RowFor(m, q, args.mandate, bookingID));
    }
  }

  /** A successful booking puts the mandate on file. */
  lemma BookedIsOnFile(s: Station, st: S.StoreState, args: BookArgs, caller: Option<T.Caller>, bookingID: string, now: int)
    requires Good(st) && BookPass(s, st, args, caller, bookingID, now).1.Ok?
    ensures args.mandate.Jws? && CheckMandate(s, args.mandate) == Ok(args.mandate.payload)
    ensures var m := args.mandate.payload;
            CheckQuote(st, m, args.quoteID, caller, now).Ok? &&
            OnFile(BookPass(s, st, args, caller, bookingID, now).0, m, CheckQuote(st, m, args.quoteID, caller, now).value, bookingID)
  {
    var m := CheckMandate(s, args.mandate).value;
    var q := CheckQuote(st, m, args.quoteID, caller, now).value;
    assert q.quoteID == m.quoteID;
  }

  /** A mandate on file that passes the first checks meets only the consumed nonce. */
  lemma OnFileIsConsumed(s: Station, st: S.StoreState, args: BookArgs, q: Quote, id: string, caller: Option<T.Caller>,
                         bookingID: string, now: int)
    requires Good(st) && CheckMandate(s, args.mandate).Ok?
    requires var m := CheckMandate(s, args.mandate).value;
             && OnFile(st, m, q, id) && args.quoteID == m.quoteID && m.scope == Scope(q.mode, q.norad)
             && m.maxAmountCents >= q.amountCents && m.nbf == q.aos && m.exp == q.los && now < m.exp
             && caller.Some? && caller.value.jkt == m.jkt
    ensures BookPass(s, st, args, caller, bookingID, now) == (st, Err(MandateRejectedConsumed))
  {
    var m := CheckMandate(s, args.mandate).value;
    assert CheckQuote(st, m, args.quoteID, caller, now) == Ok(q);
    ConsumedNotClash(st, RowFor(m, q, args.mandate, bookingID), id);
  }

  /** In every history of a station: after a successful booking, whatever quotes, bookings, proofs and prunes follow,
      the same key replaying the same mandate before it expires is told it was consumed. */
  lemma ReplayIsConsumed(s: Station, before: seq<Event>, args: BookArgs, caller: Option<T.Caller>, bookingID: string, now: int,
                         after: seq<Event>, again: Option<T.Caller>, bookingID': string, now': int)
    requires BookPass(s, Run(s, S.EMPTY, before), args, caller, bookingID, now).1.Ok?
    requires args.mandate.Jws? && again.Some? && again.value.jkt == args.mandate.payload.jkt
    requires now' < args.mandate.payload.exp
    ensures var later := Run(s, BookPass(s, Run(s, S.EMPTY, before), args, caller, bookingID, now).0, after);
            BookPass(s, later, args, again, bookingID', now') == (later, Err(MandateRejectedConsumed))
  {
    var st := Run(s, S.EMPTY, before);
    RunGood(s, S.EMPTY, before);
    BookedIsOnFile(s, st, args, caller, bookingID, now);
    var m := args.mandate.payload;
    var q := CheckQuote(st, m, args.quoteID, caller, now).value;
    StepGood(s, st, BookEvent(args, caller, bookingID, now));
    var first := BookPass(s, st, args, caller, bookingID, now).0;
    RunGood(s, first, after);
    RunStaysOnFile(s, first, after, m, q, bookingID);
    OnFileIsConsumed(s, Run(s, first, after), args, q, bookingID, again, bookingID', now');
  }

  // --------------------------------------------------------- which refusal

  /** The satellite a scope names is registered to the mandate's issuer, for the mandate's Ops agent. */
  predicate Registered(s: Station, m: Mandate) {
    exists i :: 0 <= i < |s.registry| && FirstFor(s.registry, i, m.scope) && s.registry[i].authority == m.iss &&
                m.sub in s.registry[i].ops
  }

  /** The i-th entry is the first for the satellite the scope names. */
  predicate FirstFor(registry: seq<Satellite>, i: nat, scope: string)
    requires i < |registry|
  {
    && ParseScope(scope).Some? && registry[i].norad == ParseScope(scope).value.1
    && forall j :: 0 <= j < i ==> registry[j].norad != registry[i].norad
  }

  lemma RegisteredIff(s: Station, m: Mandate)
    requires ParseScope(m.scope).Some?
    ensures var sat := FindSatellite(s.registry, ParseScope(m.scope).value.1);
            Registered(s, m) <==> sat.Some? && sat.value.authority == m.iss && m.sub in sat.value.ops
  {
    var norad := ParseScope(m.scope).value.1;
    var sat := FindSatellite(s.registry, norad);
    if sat.Some? {
      var i :| 0 <= i < |s.registry| && s.registry[i] == sat.value && sat.value.norad == norad &&
               forall j :: 0 <= j < i ==> s.registry[j].norad != norad;
      assert FirstFor(s.registry, i, m.scope);
      forall k | 0 <= k < |s.registry| && FirstFor(s.registry, k, m.scope) ensures k == i {
      }
    }
  }

  /** The mandate checks, in order. */
  function MandateRules(s: Station, t: MandateToken): seq<Rule> {
    [Rule(!t.Malformed?, MandateParseError), Rule(!t.OtherType?, TypRejected),
     Rule(t.Jws? && t.payload.Valid(), MandateParseError),
     Rule(t.Jws? && t.key in s.keys(t.payload.iss), MandateRejectedSignature),
     Rule(t.Jws? && Registered(s, t.payload), MandateRejectedNotOwner),
     Rule(t.Jws? && t.payload.aud == s.name, MandateRejectedAudience)]
  }

  lemma ReadMandate(s: Station, t: MandateToken)
    requires t.Jws? && t.payload.Valid()
    ensures CheckMandate(s, t) == if t.key !in s.keys(t.payload.iss) then Err(MandateRejectedSignature)
                                  else if !Registered(s, t.payload) then Err(MandateRejectedNotOwner)
                                  else if t.payload.aud != s.name then Err(MandateRejectedAudience)
                                  else Ok(t.payload)
  {
    RegisteredIff(s, t.payload);
  }

  lemma MandateRefusal(s: Station, t: MandateToken)
    ensures Answers(CheckMandate(s, t), MandateRules(s, t))
    ensures AllHold(MandateRules(s, t)) ==> t.Jws? && CheckMandate(s, t) == Ok(t.payload)
  {
    var rules := MandateRules(s, t);
    if t.Jws? && t.payload.Valid() {
      ReadMandate(s, t);
    }
    if !rules[0].holds {
      assert FailsAt(rules, 0);
    } else if !rules[1].holds {
      assert FailsAt(rules, 1);
    } else if !rules[2].holds {
      assert FailsAt(rules, 2);
    } else if !rules[3].holds {
      assert FailsAt(rules, 3);
    } else if !rules[4].holds {
      assert FailsAt(rules, 4);
    } else if !rules[5].holds {
      assert FailsAt(rules, 5);
    } else {
      assert AllHold(rules);
    }
  }

  /** The quote checks, in order, on the row on file. */
  function QuoteRules(st: S.StoreState, m: Mandate, quoteID: string, caller: Option<T.Caller>, now: int): seq<Rule> {
    var live := m.quoteID in st.quotes && now < st.quotes[m.quoteID].exp;
    [Rule(quoteID == m.quoteID, MandateRejectedQuote), Rule(live, MandateRejectedQuote)] +
    if live then TermRules(st.quotes[m.quoteID].quote, m, caller, now) else []
  }

  /** The mandate grants what was quoted, and the caller holds its key. */
  function TermRules(q: Quote, m: Mandate, caller: Option<T.Caller>, now: int): seq<Rule> {
    [Rule(m.scope == "pass:" + q.mode + ":" + Decimal.FormatInt(q.norad), MandateRejectedScope),
     Rule(q.amountCents <= m.maxAmountCents, MandateRejectedAmount),
     Rule(m.nbf == q.aos && m.exp == q.los && now < m.exp, MandateRejectedWindow),
     Rule(caller.Some? && caller.value.jkt == m.jkt, DPoPRejectedKey)]
  }

  lemma QuoteRefusal(st: S.StoreState, m: Mandate, quoteID: string, caller: Option<T.Caller>, now: int)
    ensures Answers(CheckQuote(st, m, quoteID, caller, now), QuoteRules(st, m, quoteID, caller, now))
    ensures AllHold(QuoteRules(st, m, quoteID, caller, now)) ==>
              m.quoteID in st.quotes && CheckQuote(st, m, quoteID, caller, now) == Ok(st.quotes[m.quoteID].quote)
  {
    var rules := QuoteRules(st, m, quoteID, caller, now);
    if !rules[0].holds {
      assert FailsAt(rules, 0);
    } else if !rules[1].holds {
      assert FailsAt(rules, 1);
    } else if !rules[2].holds {
      assert FailsAt(rules, 2);
    } else if !rules[3].holds {
      assert FailsAt(rules, 3);
    } else if !rules[4].holds {
      assert FailsAt(rules, 4);
    } else if !rules[5].holds {
      assert FailsAt(rules, 5);
    } else {
      assert AllHold(rules);
    }
  }

  /** The transaction's checks, in order; bookings with the mandate's own nonce are left to the second. */
  function TransactionRules(st: S.StoreState, m: Mandate, bookingID: string): seq<Rule> {
    [Rule(forall id :: id in st.bookings ==>
            || st.bookings[id].exp <= m.nbf || m.exp <= st.bookings[id].nbf
            || (st.bookings[id].iss == m.iss && st.bookings[id].nonce == m.nonce), BookingRejectedOverlap),
     Rule((m.iss, m.nonce) !in st.consumed, MandateRejectedConsumed), Rule(bookingID !in st.bookings, Unavailable)]
  }

  lemma NoClash(st: S.StoreState, m: Mandate, b: S.Booking)
    requires b.iss == m.iss && b.nonce == m.nonce && b.nbf == m.nbf && b.exp == m.exp
    ensures TransactionRules(st, m, b.bookingID)[0].holds <==> !S.Clashes(st, b)
  {
  }

  lemma TransactionRefusal(st: S.StoreState, m: Mandate, b: S.Booking)
    requires b.iss == m.iss && b.nonce == m.nonce && b.nbf == m.nbf && b.exp == m.exp
    ensures Answers(S.Book(st, b), TransactionRules(st, m, b.bookingID))
  {
    var bookingID := b.bookingID;
    NoClash(st, m, b);
    var rules := TransactionRules(st, m, bookingID);
    if !rules[0].holds {
      assert FailsAt(rules, 0);
    } else if !rules[1].holds {
      assert FailsAt(rules, 1);
    } else if !rules[2].holds {
      assert FailsAt(rules, 2);
    } else {
      assert AllHold(rules);
    }
  }

  /** book_pass answers with the first rule that fails, mandate before quote before transaction, and books otherwise. */
  lemma BookRefusal(s: Station, st: S.StoreState, args: BookArgs, caller: Option<T.Caller>, bookingID: string, now: int)
    ensures var r := BookPass(s, st, args, caller, bookingID, now).1;
            if !AllHold(MandateRules(s, args.mandate)) then Answers(r, MandateRules(s, args.mandate))
            else
              && args.mandate.Jws?
              && var m := args.mandate.payload;
                 var rules := QuoteRules(st, m, args.quoteID, caller, now);
                 Answers(r, if !AllHold(rules) then rules else TransactionRules(st, m, bookingID))
  {
    MandateRefusal(s, args.mandate);
    if AllHold(MandateRules(s, args.mandate)) {
      var m := args.mandate.payload;
      QuoteRefusal(st, m, args.quoteID, caller, now);
      if AllHold(QuoteRules(st, m, args.quoteID, caller, now)) {
        TransactionRefusal(st, m, RowFor(m, st.quotes[m.quoteID].quote, args.mandate, bookingID));
      }
    }
  }

  /** What a successful booking leaves: the row, for the mandate and the quote it covers; its nonce consumed under the
      mandate's id; the quote kept at least until the pass ends; and nothing else changed. */
  lemma BookedExactly(s: Station, st: S.StoreState, args: BookArgs, caller: Option<T.Caller>, bookingID: string, now: int)
    requires BookPass(s, st, args, caller, bookingID, now).1.Ok?
    ensures args.mandate.Jws? && args.mandate.payload.quoteID in st.quotes
    ensures var (next, r) := BookPass(s, st, args, caller, bookingID, now);
            var m := args.mandate.payload;
            var row := st.quotes[m.quoteID];
            && r.value == S.Booking(bookingID, row.quote.quoteID, m.mandateID, m.iss, m.nonce, row.quote.norad, row.quote.aos,
                                    row.quote.los, args.mandate)
            && next.bookings == st.bookings[bookingID := r.value] && next.consumed == st.consumed[(m.iss, m.nonce) := m.mandateID]
            && next.counters == st.counters && next.jti == st.jti && next.issued == st.issued && next.writes == st.writes
            && next.quotes.Keys == st.quotes.Keys
            && (forall id :: id in st.quotes && id != row.quote.quoteID ==> next.quotes[id] == st.quotes[id])
            && (row.quote.quoteID in st.quotes ==>
                  var kept := st.quotes[row.quote.quoteID];
                  next.quotes[row.quote.quoteID] == S.QuoteRow(kept.quote, if kept.exp < m.exp then m.exp else kept.exp))
  {
  }

  // ------------------------------------------------------ quotes over a run

  /** The quote is on file until its own expiry, or gone. */
  ghost predicate Unextended(st: S.StoreState, q: Quote) {
    q.quoteID in st.quotes ==> S.Booked(st, q.quoteID) || st.quotes[q.quoteID] == S.QuoteRow(q, q.exp)
  }

  /** Another quote under that id never comes. */
  predicate NotAgain(e: Event, q: Quote) { e.QuoteEvent? ==> e.q.quoteID != q.quoteID }

  lemma StepUnextended(s: Station, st: S.StoreState, e: Event, q: Quote)
    requires Unextended(st, q) && NotAgain(e, q)
    ensures Unextended(Step(s, st, e), q)
  {
    match e {
      case QuoteEvent(_, now) => PruneUnextended(st, now, q);
      case ProofEvent(_, _, now) => PruneUnextended(st, now, q);
      case BookEvent(args, caller, bookingID, now) =>
        var r := BookPass(s, st, args, caller, bookingID, now).1;
        if r.Ok? {
          BookUnextended(st, r.value, q);
        }
    }
  }

  lemma PruneUnextended(st: S.StoreState, now: int, q: Quote)
    requires Unextended(st, q)
    ensures Unextended(S.MaybePrune(st, now), q)
  {
    S.PruneKeeps(st, now);
    assert S.Booked(st, q.quoteID) <==> S.Booked(S.MaybePrune(st, now), q.quoteID);
  }

  lemma BookUnextended(st: S.StoreState, b: S.Booking, q: Quote)
    requires Unextended(st, q) && S.Book(st, b).Ok?
    ensures Unextended(S.Book(st, b).value, q)
  {
    var next := S.Book(st, b).value;
    assert next.bookings[b.bookingID] == b;
    if S.Booked(st, q.quoteID) {
      var id :| id in st.bookings && st.bookings[id].quoteID == q.quoteID;
      assert id in next.bookings && next.bookings[id].quoteID == q.quoteID;
    }
  }

  lemma {:induction false} RunUnextended(s: Station, st: S.StoreState, es: seq<Event>, q: Quote)
    requires Unextended(st, q) && forall i :: 0 <= i < |es| ==> NotAgain(es[i], q)
    ensures Unextended(Run(s, st, es), q)
    decreases |es|
  {
    if es != [] {
      StepUnextended(s, st, es[0], q);
      RunUnextended(s, Step(s, st, es[0]), es[1..], q);
    }
  }

  /** On file, still. */
  ghost predicate Lives(st: S.StoreState, q: Quote) {
    q.quoteID in st.quotes && st.quotes[q.quoteID].quote == q && st.quotes[q.quoteID].exp >= q.exp
  }

  lemma StepLives(s: Station, st: S.StoreState, e: Event, q: Quote)
    requires Lives(st, q) && e.now < q.exp
    ensures Lives(Step(s, st, e), q)
  {
    match e {
      case QuoteEvent(_, now) => LivesPruned(st, now, q);
      case ProofEvent(_, _, now) => LivesPruned(st, now, q);
      case BookEvent(args, caller, bookingID, now) =>
        var (next, r) := BookPass(s, st, args, caller, bookingID, now);
        if r.Ok? {
          assert next == S.Book(st, r.value).value;
        }
    }
  }

  lemma LivesPruned(st: S.StoreState, now: int, q: Quote)
    requires Lives(st, q) && now < q.exp
    ensures Lives(S.MaybePrune(st, now), q)
  {
  }

  lemma {:induction false} RunLives(s: Station, st: S.StoreState, es: seq<Event>, q: Quote)
    requires Lives(st, q) && forall i :: 0 <= i < |es| ==> es[i].now < q.exp
    ensures Lives(Run(s, st, es), q)
    decreases |es|
  {
    if es != [] {
      StepLives(s, st, es[0], q);
      RunLives(s, Step(s, st, es[0]), es[1..], q);
    }
  }

  /** In every history: a quote just stored is found at every time before its expiry, whatever quotes, bookings and proofs
      come in between; and once expired without a booking, a good mandate for it is refused for its quote. */
  lemma QuoteLastsExactly(s: Station, st: S.StoreState, es: seq<Event>, q: Quote, at: int, now: int, args: BookArgs,
                          caller: Option<T.Caller>, bookingID: string)
    requires S.PutQuote(st, q, at).1 && at <= now
    requires forall i :: 0 <= i < |es| ==> es[i].now <= now && NotAgain(es[i], q)
    ensures var later := Run(s, S.PutQuote(st, q, at).0, es);
            && (now < q.exp ==> S.GetQuote(later, q.quoteID, now) == Some(q))
            && (q.exp <= now && !S.Booked(later, q.quoteID) && Acceptable(s, args.mandate) &&
                args.mandate.payload.quoteID == q.quoteID ==>
                  BookPass(s, later, args, caller, bookingID, now) == (later, Err(MandateRejectedQuote)))
  {
    var first := S.PutQuote(st, q, at).0;
    var later := Run(s, first, es);
    S.PutExactly(st, q, at);
    if now < q.exp {
      RunLives(s, first, es, q);
    } else if !S.Booked(later, q.quoteID) && Acceptable(s, args.mandate) && args.mandate.payload.quoteID == q.quoteID {
      RunUnextended(s, first, es, q);
      ChecksExactly(s, later, args, caller, now);
      QuoteRefusal(later, args.mandate.payload, args.quoteID, caller, now);
      var rules := QuoteRules(later, args.mandate.payload, args.quoteID, caller, now);
      AnswerIs(CheckQuote(later, args.mandate.payload, args.quoteID, caller, now), rules, if args.quoteID != q.quoteID then 0 else 1);
    }
  }
}
