/** One agent's database (internal/store): its tables as maps, each transaction as one step. */
module Store {
  import opened Errs
  import opened Schema

  const PRUNE_EVERY := 256

  datatype QuoteRow = QuoteRow(quote: Quote, exp: int)

  datatype Booking = Booking(bookingID: string, quoteID: string, mandateID: string, iss: string, nonce: string,
                             norad: int, nbf: int, exp: int, mandate: MandateToken)

  datatype IssuedRow = IssuedRow(norad: int, day: int, station: string)

  datatype StoreState = StoreState(quotes: map<string, QuoteRow>, bookings: map<string, Booking>,
                                   consumed: map<(string, string), string>, counters: map<string, int>,
                                   jti: map<string, int>, issued: map<string, IssuedRow>, writes: nat)

  const EMPTY := StoreState(map[], map[], map[], map[], map[], map[], 0)

  // --------------------------------------------------------------- quotes

  predicate Booked(st: StoreState, quoteID: string) {
    exists b :: b in st.bookings && st.bookings[b].quoteID == quoteID
  }

  /** Drops expired replay entries, and expired quotes that no booking names. */
  function Prune(st: StoreState, now: int): StoreState {
    st.(jti := map k | k in st.jti && st.jti[k] > now :: st.jti[k],
        quotes := map q | q in st.quotes && (st.quotes[q].exp > now || Booked(st, q)) :: st.quotes[q])
  }

  function MaybePrune(st: StoreState, now: int): StoreState {
    var next := st.(writes := st.writes + 1);
    if next.writes % PRUNE_EVERY != 0 then next else Prune(next, now)
  }

  /** The row is new or the insert fails; either way the write counts towards pruning. */
  function PutQuote(st: StoreState, q: Quote, now: int): (StoreState, bool) {
    var next := MaybePrune(st, now);
    if q.quoteID in next.quotes then (next, false)
    else (next.(quotes := next.quotes[q.quoteID := QuoteRow(q, q.exp)]), true)
  }

  function GetQuote(st: StoreState, id: string, now: int): Option<Quote> {
    if id !in st.quotes || st.quotes[id].exp <= now then None else Some(st.quotes[id].quote)
  }

  // ------------------------------------------------------------- bookings

  predicate Overlaps(a: Booking, b: Booking) { a.nbf < b.exp && b.nbf < a.exp }

  predicate SameNonce(a: Booking, b: Booking) { a.iss == b.iss && a.nonce == b.nonce }

  predicate Clashes(st: StoreState, b: Booking) {
    exists id :: id in st.bookings && Overlaps(st.bookings[id], b) && !SameNonce(st.bookings[id], b)
  }

  /** The booking transaction: overlap, nonce, insert, and the quote kept until the pass ends. */
  function Book(st: StoreState, b: Booking): Result<StoreState> {
    if Clashes(st, b) then Err(BookingRejectedOverlap)
    else if (b.iss, b.nonce) in st.consumed then Err(MandateRejectedConsumed)
    else if b.bookingID in st.bookings then Err(Unavailable)
    else Ok(st.(consumed := st.consumed[(b.iss, b.nonce) := b.mandateID],
                bookings := st.bookings[b.bookingID := b],
                quotes := if b.quoteID !in st.quotes then st.quotes
                          else var row := st.quotes[b.quoteID];
                               st.quotes[b.quoteID := row.(exp := if b.exp > row.exp then b.exp else row.exp)]))
  }

  // ------------------------------------------------------------- counters

  function Counter(st: StoreState, name: string): int {
    if name in st.counters then st.counters[name] else 0
  }

  /** Inserts 1 or adds 1, and returns the new value. */
  function NextCounter(st: StoreState, name: string): (StoreState, int) {
    var v := Counter(st, name) + 1;
    (st.(counters := st.counters[name := v]), v)
  }

  /** Inserts v, or raises the counter to v if that is higher; reports whether it did. */
  function Advance(st: StoreState, name: string, v: int): (StoreState, bool) {
    if name in st.counters && v <= st.counters[name] then (st, false)
    else (st.(counters := st.counters[name := v]), true)
  }

  // ------------------------------------------- issued mandates, replayed proofs

  /** The UTC date of a Unix time. */
  function Day(unix: int): int { unix / 86400 }

  function IssuedOn(st: StoreState, norad: int, day: int): set<string> {
    set id | id in st.issued && st.issued[id].norad == norad && st.issued[id].day == day
  }

  function RecordMandate(st: StoreState, mandateID: string, norad: int, nbf: int, station: string, limit: int): Result<StoreState> {
    if |IssuedOn(st, norad, Day(nbf))| >= limit then Err(PolicyRefusedDailyLimit)
    else if mandateID in st.issued then Err(Unavailable)
    else Ok(st.(issued := st.issued[mandateID := IssuedRow(norad, Day(nbf), station)]))
  }

  /** True means a live entry for this key: a replay. */
  function CheckAndStore(st: StoreState, key: string, exp: int, now: int): (StoreState, bool) {
    var next := MaybePrune(st, now);
    if key in next.jti && next.jti[key] > now then (next, true)
    else (next.(jti := next.jti[key := exp]), false)
  }

  // ------------------------------------------------------------ the object

  class Store {
    var quotes: map<string, QuoteRow>
    var bookings: map<string, Booking>
    var consumed: map<(string, string), string>
    var counters: map<string, int>
    var jti: map<string, int>
    var issued: map<string, IssuedRow>
    var writes: nat

    function State(): StoreState
      reads this
    {
      StoreState(quotes, bookings, consumed, counters, jti, issued, writes)
    }

    constructor ()
      ensures State() == EMPTY
    {
      quotes, bookings, consumed, counters, jti, issued, writes := map[], map[], map[], map[], map[], map[], 0;
    }

    method PruneIfDue(now: int)
      modifies this
      ensures State() == MaybePrune(old(State()), now)
    {
      writes := writes + 1;
      if writes % PRUNE_EVERY != 0 {
        return;
      }
      jti := map k | k in jti && jti[k] > now :: jti[k];
      quotes := map q | q in quotes && (quotes[q].exp > now ||
                                        exists b :: b in bookings && bookings[b].quoteID == q) :: quotes[q];
      assert State() == Prune(old(State()).(writes := writes), now);
    }

    method InsertQuote(q: Quote, now: int) returns (ok: bool)
      modifies this
      ensures (State(), ok) == PutQuote(old(State()), q, now)
    {
      PruneIfDue(now);
      ok := q.quoteID !in quotes;
      if ok {
        quotes := quotes[q.quoteID := QuoteRow(q, q.exp)];
      }
    }

    /** A refused booking leaves every table as it was. */
    method InsertBooking(b: Booking) returns (refused: Option<Code>)
      modifies this
      ensures match Book(old(State()), b)
              case Ok(next) => State() == next && refused.None?
              case Err(code) => State() == old(State()) && refused == Some(code)
    {
      if exists id :: id in bookings && Overlaps(bookings[id], b) && !SameNonce(bookings[id], b) {
        return Some(BookingRejectedOverlap);
      }
      if (b.iss, b.nonce) in consumed {
        return Some(MandateRejectedConsumed);
      }
      if b.bookingID in bookings {
        return Some(Unavailable);
      }
      consumed := consumed[(b.iss, b.nonce) := b.mandateID];
      bookings := bookings[b.bookingID := b];
      if b.quoteID in quotes {
        var row := quotes[b.quoteID];
        quotes := quotes[b.quoteID := row.(exp := if b.exp > row.exp then b.exp else row.exp)];
      }
      refused := None;
    }

    method DrawCounter(name: string) returns (v: int)
      modifies this
      ensures (State(), v) == NextCounter(old(State()), name)
    {
      v := if name in counters then counters[name] + 1 else 1;
      counters := counters[name := v];
    }

    method AdvanceCounter(name: string, v: int) returns (advanced: bool)
      modifies this
      ensures (State(), advanced) == Advance(old(State()), name, v)
    {
      advanced := name !in counters || counters[name] < v;
      if advanced {
        counters := counters[name := v];
      }
    }

    method InsertMandate(id: string, norad: int, nbf: int, station: string, limit: int) returns (refused: Option<Code>)
      modifies this
      ensures match RecordMandate(old(State()), id, norad, nbf, station, limit)
              case Ok(next) => State() == next && refused.None?
              case Err(code) => State() == old(State()) && refused == Some(code)
    {
      var day := Day(nbf);
      var n := |set m | m in issued && issued[m].norad == norad && issued[m].day == day|;
      assert (set m | m in issued && issued[m].norad == norad && issued[m].day == day) == IssuedOn(State(), norad, day);
      if n >= limit {
        return Some(PolicyRefusedDailyLimit);
      }
      if id in issued {
        return Some(Unavailable);
      }
      issued := issued[id := IssuedRow(norad, day, station)];
      refused := None;
    }

    method SeenProof(key: string, exp: int, now: int) returns (seen: bool)
      modifies this
      ensures (State(), seen) == CheckAndStore(old(State()), key, exp, now)
    {
      PruneIfDue(now);
      seen := key in jti && jti[key] > now;
      if !seen {
        jti := jti[key := exp];
      }
    }
  }

  // ------------------------------------------------------------------ runs

  datatype Op =
    | PutOp(q: Quote, now: int)
    | BookOp(b: Booking)
    | NextOp(name: string)
    | AdvanceOp(name: string, v: int)
    | RecordOp(id: string, norad: int, nbf: int, station: string, limit: int)
    | JtiOp(key: string, exp: int, now: int)

  function Apply(st: StoreState, op: Op): StoreState {
    match op
    case PutOp(q, now) => PutQuote(st, q, now).0
    case BookOp(b) => var r := Book(st, b); if r.Ok? then r.value else st
    case NextOp(name) => NextCounter(st, name).0
    case AdvanceOp(name, v) => Advance(st, name, v).0
    case RecordOp(id, norad, nbf, station, limit) =>
      var r := RecordMandate(st, id, norad, nbf, station, limit); if r.Ok? then r.value else st
    case JtiOp(key, exp, now) => CheckAndStore(st, key, exp, now).0
  }

  function Run(st: StoreState, ops: seq<Op>): StoreState
    decreases |ops|
  {
    if ops == [] then st else Run(Apply(st, ops[0]), ops[1..])
  }

  lemma RecordKeepsLimit(st: StoreState, id: string, norad: int, nbf: int, station: string, limit: int, n: int, day: int)
    requires RecordMandate(st, id, norad, nbf, station, limit).Ok?
    requires |IssuedOn(st, n, day)| <= limit || IssuedOn(st, n, day) == {}
    ensures |IssuedOn(RecordMandate(st, id, norad, nbf, station, limit).value, n, day)| <= limit ||
            IssuedOn(RecordMandate(st, id, norad, nbf, station, limit).value, n, day) == {}
  {
    var next := RecordMandate(st, id, norad, nbf, station, limit).value;
    if norad == n && Day(nbf) == day {
      assert IssuedOn(next, n, day) == IssuedOn(st, n, day) + {id};
    } else {
      assert IssuedOn(next, n, day) == IssuedOn(st, n, day);
    }
  }

  predicate Apart(a: Booking, b: Booking) { !Overlaps(a, b) && !SameNonce(a, b) }

  /** One antenna: bookings' windows are pairwise disjoint, no two share an issuer and nonce, and every
      (issuer, nonce) of a booking is consumed. */
  ghost predicate OneAntenna(st: StoreState) {
    && (forall id :: id in st.bookings ==>
          st.bookings[id].bookingID == id && (st.bookings[id].iss, st.bookings[id].nonce) in st.consumed)
    && (forall a, b :: a in st.bookings && b in st.bookings && a != b ==> Apart(st.bookings[a], st.bookings[b]))
  }

  /** What pruning leaves alone. */
  lemma PruneKeeps(st: StoreState, now: int)
    ensures var next := MaybePrune(st, now);
            && next.bookings == st.bookings && next.consumed == st.consumed && next.counters == st.counters
            && next.issued == st.issued
            && (forall k :: k in st.jti && st.jti[k] > now ==> k in next.jti && next.jti[k] == st.jti[k])
            && (forall q :: q in st.quotes && Booked(st, q) ==> q in next.quotes && next.quotes[q] == st.quotes[q])
            && (forall q :: q in next.quotes ==> q in st.quotes && next.quotes[q] == st.quotes[q])
  {
  }

  /** Only a booking changes the bookings or the consumed nonces. */
  lemma OnlyBookBooks(st: StoreState, op: Op)
    requires !op.BookOp?
    ensures Apply(st, op).bookings == st.bookings && Apply(st, op).consumed == st.consumed
  {
    match op {
      case PutOp(_, now) => PruneKeeps(st, now);
      case JtiOp(_, _, now) => PruneKeeps(st, now);
      case _ =>
    }
  }

  /** A booking keeps one antenna, although the overlap query skips bookings with the same issuer and nonce:
      such a booking would have consumed the nonce. */
  lemma BookKeepsOneAntenna(st: StoreState, b: Booking)
    requires OneAntenna(st) && Book(st, b).Ok?
    ensures OneAntenna(Book(st, b).value)
  {
    var next := Book(st, b).value;
    forall id | id in st.bookings ensures Apart(st.bookings[id], b) && Apart(b, st.bookings[id]) {
      assert (st.bookings[id].iss, st.bookings[id].nonce) in st.consumed;
    }
    assert next.bookings == st.bookings[b.bookingID := b];
    assert next.consumed == st.consumed[(b.iss, b.nonce) := b.mandateID];
  }

  /** In every store reachable from one with one antenna (an empty one, say) there is one antenna. */
  lemma {:induction false} ReachableOneAntenna(st: StoreState, ops: seq<Op>)
    requires OneAntenna(st)
    ensures OneAntenna(Run(st, ops))
    decreases |ops|
  {
    if ops != [] {
      if ops[0].BookOp? {
        if Book(st, ops[0].b).Ok? {
          BookKeepsOneAntenna(st, ops[0].b);
        }
      } else {
        OnlyBookBooks(st, ops[0]);
      }
      ReachableOneAntenna(Apply(st, ops[0]), ops[1..]);
    }
  }

  /** A proof's key, once stored, reads as a replay at every later time before its expiry, whatever is stored or
      pruned in between. */
  lemma {:induction false} ReplayCaught(st: StoreState, ops: seq<Op>, key: string, exp: int, now: int)
    requires key in st.jti && st.jti[key] >= exp && now < exp
    requires forall i :: 0 <= i < |ops| ==>
               (ops[i].PutOp? ==> ops[i].now <= now) && (ops[i].JtiOp? ==> ops[i].now <= now)
    ensures forall e :: CheckAndStore(Run(st, ops), key, e, now).1
    decreases |ops|
  {
    if ops != [] {
      var next := Apply(st, ops[0]);
      assert key in next.jti && next.jti[key] == st.jti[key] by {
        match ops[0] {
          case PutOp(_, t) => PruneKeeps(st, t);
          case JtiOp(_, _, t) => PruneKeeps(st, t);
          case _ =>
        }
      }
      ReplayCaught(next, ops[1..], key, exp, now);
    }
  }

  // ------------------------------------------------------ what each answer means

  /** A quote is found exactly while its row is on file and has not expired. */
  lemma QuoteFoundIff(st: StoreState, id: string, now: int, q: Quote)
    ensures GetQuote(st, id, now) == Some(q) <==> id in st.quotes && now < st.quotes[id].exp && st.quotes[id].quote == q
  {
  }

  /** Every 256th write drops the expired proofs and the expired quotes without a booking; no other write drops any. */
  lemma PruneDrops(st: StoreState, now: int)
    ensures var next := MaybePrune(st, now);
            && next.writes == st.writes + 1
            && (if next.writes % 256 == 0 then
                  && (forall k :: k in next.jti ==> now < next.jti[k])
                  && (forall q :: q in next.quotes ==> now < next.quotes[q].exp || exists b :: b in st.bookings && st.bookings[b].quoteID == q)
                else next.jti == st.jti && next.quotes == st.quotes)
  {
    PruneKeeps(st, now);
  }

  /** A quote is stored exactly when its id is not on file after pruning, to last until its own expiry. */
  lemma PutExactly(st: StoreState, q: Quote, now: int)
    ensures var (next, ok) := PutQuote(st, q, now);
            && (ok <==> q.quoteID !in MaybePrune(st, now).quotes)
            && (ok ==> q.quoteID in next.quotes && next.quotes[q.quoteID].quote == q && next.quotes[q.quoteID].exp == q.exp)
            && (forall id :: id != q.quoteID ==> (id in next.quotes <==> id in MaybePrune(st, now).quotes))
  {
  }

  /** A proof is a replay exactly when a live entry has its key; otherwise it is stored until its own expiry. */
  lemma ReplayIff(st: StoreState, key: string, exp: int, now: int)
    ensures var (next, seen) := CheckAndStore(st, key, exp, now);
            && (seen <==> key in st.jti && now < st.jti[key])
            && (!seen ==> key in next.jti && next.jti[key] == exp)
            && (seen ==> key in next.jti && next.jti[key] == st.jti[key])
  {
    PruneKeeps(st, now);
  }

  /** A mandate is logged exactly while its satellite and day are under the limit and its id is new. */
  lemma LoggedIff(st: StoreState, id: string, norad: int, nbf: int, station: string, limit: int)
    ensures RecordMandate(st, id, norad, nbf, station, limit) ==
              if |IssuedOn(st, norad, Day(nbf))| >= limit then Err(PolicyRefusedDailyLimit)
              else if id in st.issued then Err(Unavailable)
              else Ok(st.(issued := st.issued[id := IssuedRow(norad, Day(nbf), station)]))
    ensures forall m :: m in IssuedOn(st, norad, Day(nbf)) <==>
              m in st.issued && st.issued[m].norad == norad && st.issued[m].day == Day(nbf)
  {
  }

  /** A UTC day is 86400 seconds from its midnight. */
  lemma DayMeans(t: int, d: int)
    ensures Day(t) == d <==> 86400 * d <= t < 86400 * (d + 1)
  {
  }

  /** Windows that last overlap exactly when they share a second. */
  lemma SharedSecond(a: Booking, b: Booking)
    requires a.nbf < a.exp && b.nbf < b.exp
    ensures Overlaps(a, b) <==> exists t :: InBoth(a, b, t)
  {
    if Overlaps(a, b) {
      assert InBoth(a, b, if a.nbf >= b.nbf then a.nbf else b.nbf);
    }
  }

  predicate InBoth(a: Booking, b: Booking, t: int) { a.nbf <= t < a.exp && b.nbf <= t < b.exp }
}
