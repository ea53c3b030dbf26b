/** The authority and every honest station together: who may uplink what, and how many passes a day. */
module Mission {
  import opened Errs
  import opened Schema
  import opened Sequences
  import A = Authority
  import B = Booking
  import Chain
  import K = Keeper
  import M = Monitor
  import S = Store
  import T = Session

  datatype Config = Config(auth: A.Authority, stations: map<string, B.Station>, h: Chain.Hasher, maxAge: int)

  /** Each station is known by its own name, and takes only the authority's key for the authority's name. */
  ghost predicate Trusts(c: Config) {
    forall n :: n in c.stations ==> c.stations[n].name == n && c.stations[n].keys(c.auth.name) <= {c.auth.key}
  }

  /** One mandate the authority signed: for whom, and for which quote. */
  datatype Grant = Grant(mandate: Mandate, caller: T.Caller, quote: Quote)

  /** One command a station sent to the spacecraft. */
  datatype Uplink = Uplink(station: string, booking: S.Booking, caller: T.Caller, command: Command, at: int)

  datatype World = World(auth: S.StoreState, grants: map<string, Grant>, stores: map<string, S.StoreState>,
                         managers: map<string, T.ManagerState>, uplinks: seq<Uplink>)

  datatype Event =
    | Issue(call: A.IssueCall)
    | AtStation(name: string, e: B.Event)
    | Relay(name: string, id: string, tok: CommandToken, relay: T.Call)
    | Tick(name: string, id: string, got: K.Fetched, now: int)

  function Init(c: Config): World {
    World(S.EMPTY, map[], map n | n in c.stations :: S.EMPTY, map n | n in c.stations :: T.ManagerState(K.EMPTY, map[]), [])
  }

  /** Nobody forges the authority's signature: a token under its key carries a mandate it granted. */
  predicate Genuine(c: Config, grants: map<string, Grant>, t: MandateToken) {
    t.Jws? && t.key == c.auth.key ==> t.payload.mandateID in grants && grants[t.payload.mandateID].mandate == t.payload
  }

  predicate Possible(c: Config, w: World, e: Event) {
    match e
    case Issue(_) => true
    case AtStation(name, be) =>
      && name in w.stores && name in c.stations
      && (be.QuoteEvent? ==> be.q.Valid()) && (be.BookEvent? ==> Genuine(c, w.grants, be.args.mandate))
    case Relay(name, _, _, _) => name in w.stores && name in w.managers
    case Tick(name, id, _, _) => name in w.managers && id in w.managers[name].sessions
  }

  function TickSession(maxAge: int, m: T.ManagerState, id: string, got: K.Fetched, now: int): T.ManagerState
    requires id in m.sessions
  {
    var s := m.sessions[id];
    match s.monitor
    case None => m
    case Some(mon) =>
      var t := M.Tick(maxAge, mon, m.keeper, got, now);
      T.ManagerState(t.keeper, m.sessions[id := s.(monitor := Some(t.mon))])
  }

  function Step(c: Config, w: World, e: Event): World
    requires Possible(c, w, e)
  {
    match e
    case Issue(call) =>
      var (auth, r) := A.Issue(c.auth, w.auth, call);
      w.(auth := auth,
         grants := if r.Ok? && call.caller.Some?
                   then w.grants[r.value.mandateID := Grant(r.value, call.caller.value, call.quote)] else w.grants)
    case AtStation(name, be) => w.(stores := w.stores[name := B.Step(c.stations[name], w.stores[name], be)])
    case Relay(name, id, tok, relay) =>
      var r := T.RelayCommand(c.h, c.maxAge, w.managers[name], w.stores[name], id, tok, relay);
      w.(managers := w.managers[name := r.manager],
         uplinks := if r.uplinked.Some? && relay.caller.Some? && id in r.manager.sessions
                    then w.uplinks + [Uplink(name, r.manager.sessions[id].booking, relay.caller.value, r.uplinked.value, relay.now)]
                    else w.uplinks)
    case Tick(name, id, got, now) =>
      w.(managers := w.managers[name := TickSession(c.maxAge, w.managers[name], id, got, now)])
  }

  ghost predicate Run(c: Config, w: World, es: seq<Event>, end: World)
    decreases |es|
  {
    if es == [] then w == end
    else Possible(c, w, es[0]) && Run(c, Step(c, w, es[0]), es[1..], end)
  }

  // -------------------------------------------------------------- grants

  /** A grant keeps to the flight rules, binds the requesting Ops agent's key, and has its own row in the log. */
  ghost predicate GrantOK(c: Config, auth: S.StoreState, id: string, g: Grant) {
    && g.mandate.Valid() && g.mandate.mandateID == id && g.mandate.iss == c.auth.name
    && g.mandate.scope == Scope(g.quote.mode, g.quote.norad) && ValidMode(g.quote.mode) && ValidNorad(g.quote.norad)
    && g.mandate.jkt == g.caller.jkt && g.mandate.sub == g.caller.ansName && g.caller.ansName in c.auth.ops
    && (forall k :: k in g.mandate.classes ==> k in c.auth.rules.Allowed(g.quote.mode))
    && id in auth.issued && auth.issued[id].norad == g.quote.norad && auth.issued[id].day == S.Day(g.mandate.nbf)
  }

  ghost predicate GrantsOK(c: Config, auth: S.StoreState, grants: map<string, Grant>) {
    forall id :: id in grants ==> GrantOK(c, auth, id, grants[id])
  }

  ghost predicate WithinLimit(c: Config, auth: S.StoreState, norad: int, day: int) {
    |S.IssuedOn(auth, norad, day)| <= c.auth.rules.maxPassesPerDay || S.IssuedOn(auth, norad, day) == {}
  }

  ghost predicate Extends(small: map<string, Grant>, big: map<string, Grant>) {
    forall id :: id in small ==> id in big && big[id] == small[id]
  }

  lemma OldGrantOK(c: Config, auth: S.StoreState, call: A.IssueCall, id: string, g: Grant)
    requires GrantOK(c, auth, id, g)
    ensures GrantOK(c, A.Issue(c.auth, auth, call).0, id, g)
  {
    A.LogGrows(c.auth, auth, call, id);
  }

  lemma NewGrantOK(c: Config, auth: S.StoreState, call: A.IssueCall)
    requires A.Issue(c.auth, auth, call).1.Ok?
    ensures call.caller.Some? && call.mandateID !in auth.issued
    ensures var (next, r) := A.Issue(c.auth, auth, call);
            r.value.mandateID == call.mandateID &&
            GrantOK(c, next, call.mandateID, Grant(r.value, call.caller.value, call.quote))
  {
    A.IssuedWithinRules(c.auth, auth, call);
  }

  lemma IssueKeepsGrants(c: Config, auth: S.StoreState, grants: map<string, Grant>, call: A.IssueCall)
    requires GrantsOK(c, auth, grants)
    ensures var (next, r) := A.Issue(c.auth, auth, call);
            if r.Ok? then
              call.caller.Some? &&
              var more := grants[r.value.mandateID := Grant(r.value, call.caller.value, call.quote)];
              GrantsOK(c, next, more) && Extends(grants, more)
            else GrantsOK(c, next, grants)
  {
    forall id | id in grants ensures GrantOK(c, A.Issue(c.auth, auth, call).0, id, grants[id]) {
      OldGrantOK(c, auth, call, id, grants[id]);
    }
    if A.Issue(c.auth, auth, call).1.Ok? {
      NewGrantOK(c, auth, call);
      assert forall id :: id in grants ==> GrantOK(c, auth, id, grants[id]) && id in auth.issued;
    }
  }

  // ------------------------------------------------------------ bookings

  /** A booking rests on a mandate for this station and satellite, from the satellite's registered authority for one
      of its Ops agents; and if that authority is ours, on a mandate it granted. */
  ghost predicate BookingOK(c: Config, grants: map<string, Grant>, name: string, b: S.Booking) {
    && b.mandate.Jws? && name in c.stations
    && var m := b.mandate.payload;
       var sat := B.FindSatellite(c.stations[name].registry, b.norad);
       && m.Valid() && m.mandateID == b.mandateID && m.iss == b.iss && m.nonce == b.nonce && m.nbf == b.nbf
       && m.exp == b.exp && m.aud == name && ParseScope(m.scope).value.1 == b.norad
       && sat.Some? && sat.value.authority == m.iss && m.sub in sat.value.ops
       && b.mandate.key in c.stations[name].keys(m.iss)
       && (m.iss == c.auth.name ==> m.mandateID in grants && grants[m.mandateID].mandate == m)
  }

  ghost predicate StoreOK(c: Config, grants: map<string, Grant>, name: string, st: S.StoreState) {
    && B.Good(st) && (forall q :: q in st.quotes ==> st.quotes[q].quote.Valid())
    && (forall id :: id in st.bookings ==> BookingOK(c, grants, name, st.bookings[id]))
  }

  lemma BookPassOK(c: Config, grants: map<string, Grant>, name: string, st: S.StoreState, args: B.BookArgs,
                   caller: Option<T.Caller>, bookingID: string, now: int)
    requires Trusts(c) && name in c.stations && StoreOK(c, grants, name, st) && Genuine(c, grants, args.mandate)
    requires B.BookPass(c.stations[name], st, args, caller, bookingID, now).1.Ok?
    ensures var (next, r) := B.BookPass(c.stations[name], st, args, caller, bookingID, now);
            BookingOK(c, grants, name, r.value) && S.Book(st, r.value) == Ok(next)
  {
    var s := c.stations[name];
    var m := B.CheckMandate(s, args.mandate).value;
    var q := B.CheckQuote(st, m, args.quoteID, caller, now).value;
    ParseScopeExact(m.scope, q.mode, q.norad);
  }

  lemma BookedStoreOK(c: Config, grants: map<string, Grant>, name: string, st: S.StoreState, b: S.Booking)
    requires StoreOK(c, grants, name, st) && BookingOK(c, grants, name, b) && S.Book(st, b).Ok?
    ensures StoreOK(c, grants, name, S.Book(st, b).value)
  {
    B.BookGood(st, b);
    var next := S.Book(st, b).value;
    assert next.bookings == st.bookings[b.bookingID := b];
  }

  lemma PrunedStoreOK(c: Config, grants: map<string, Grant>, name: string, st: S.StoreState, now: int)
    requires StoreOK(c, grants, name, st)
    ensures StoreOK(c, grants, name, S.MaybePrune(st, now)) && S.MaybePrune(st, now).bookings == st.bookings
  {
    B.PruneGood(st, now);
    S.PruneKeeps(st, now);
  }

  lemma QuoteAdded(c: Config, grants: map<string, Grant>, name: string, st: S.StoreState, q: Quote)
    requires StoreOK(c, grants, name, st) && q.Valid()
    ensures StoreOK(c, grants, name, st.(quotes := st.quotes[q.quoteID := S.QuoteRow(q, q.exp)]))
  {
    var next := st.(quotes := st.quotes[q.quoteID := S.QuoteRow(q, q.exp)]);
    assert B.Good(next) by {
      assert S.OneAntenna(st) ==> S.OneAntenna(next);
    }
  }

  lemma QuotedStoreOK(c: Config, grants: map<string, Grant>, name: string, st: S.StoreState, q: Quote, now: int)
    requires StoreOK(c, grants, name, st) && q.Valid()
    ensures StoreOK(c, grants, name, S.PutQuote(st, q, now).0) && S.PutQuote(st, q, now).0.bookings == st.bookings
  {
    PrunedStoreOK(c, grants, name, st, now);
    QuoteAdded(c, grants, name, S.MaybePrune(st, now), q);
  }

  lemma ProvedStoreOK(c: Config, grants: map<string, Grant>, name: string, st: S.StoreState, key: string, exp: int, now: int)
    requires StoreOK(c, grants, name, st)
    ensures StoreOK(c, grants, name, S.CheckAndStore(st, key, exp, now).0)
    ensures S.CheckAndStore(st, key, exp, now).0.bookings == st.bookings
  {
    PrunedStoreOK(c, grants, name, st, now);
  }

  ghost predicate Keeps(old_: S.StoreState, new_: S.StoreState) {
    forall id :: id in old_.bookings ==> id in new_.bookings && new_.bookings[id] == old_.bookings[id]
  }

  lemma BookStepOK(c: Config, grants: map<string, Grant>, name: string, st: S.StoreState, args: B.BookArgs,
                   caller: Option<T.Caller>, bookingID: string, now: int)
    requires Trusts(c) && name in c.stations && StoreOK(c, grants, name, st) && Genuine(c, grants, args.mandate)
    ensures var next := B.BookPass(c.stations[name], st, args, caller, bookingID, now).0;
            StoreOK(c, grants, name, next) && Keeps(st, next)
  {
    var (next, r) := B.BookPass(c.stations[name], st, args, caller, bookingID, now);
    if r.Ok? {
      BookPassOK(c, grants, name, st, args, caller, bookingID, now);
      BookedStoreOK(c, grants, name, st, r.value);
      BookedKeeps(st, r.value);
    } else {
      assert next == st;
    }
  }

  lemma BookedKeeps(st: S.StoreState, b: S.Booking)
    requires S.Book(st, b).Ok?
    ensures Keeps(st, S.Book(st, b).value)
  {
  }

  lemma StationStepOK(c: Config, grants: map<string, Grant>, name: string, st: S.StoreState, e: B.Event)
    requires Trusts(c) && name in c.stations && StoreOK(c, grants, name, st)
    requires (e.QuoteEvent? ==> e.q.Valid()) && (e.BookEvent? ==> Genuine(c, grants, e.args.mandate))
    ensures StoreOK(c, grants, name, B.Step(c.stations[name], st, e)) && Keeps(st, B.Step(c.stations[name], st, e))
  {
    match e {
      case QuoteEvent(q, now) => QuotedStoreOK(c, grants, name, st, q, now);
      case ProofEvent(key, exp, now) => ProvedStoreOK(c, grants, name, st, key, exp, now);
      case BookEvent(args, caller, bookingID, now) => BookStepOK(c, grants, name, st, args, caller, bookingID, now);
    }
  }

  // ------------------------------------------------------------- uplinks

  /** A session works on a booking of its station, with that booking's mandate. */
  ghost predicate SessionsOK(st: S.StoreState, m: T.ManagerState) {
    forall id :: id in m.sessions ==>
      && id in st.bookings && m.sessions[id].booking == st.bookings[id]
      && st.bookings[id].mandate.Jws? && m.sessions[id].mandate == st.bookings[id].mandate.payload
  }

  /** End-to-end authority for one uplink. */
  ghost predicate Authorized(c: Config, grants: map<string, Grant>, u: Uplink) {
    && BookingOK(c, grants, u.station, u.booking)
    && var m := u.booking.mandate.payload;
       && u.command.class_ in m.classes && u.command.mandateID == m.mandateID && u.caller.jkt == m.jkt
       && (m.nbf - 30) * 1_000_000_000 <= u.at <= (m.exp + 30) * 1_000_000_000
       && (m.iss == c.auth.name ==>
             var g := grants[m.mandateID];
             && g.mandate == m && g.caller.jkt == m.jkt && g.caller.ansName in c.auth.ops && m.sub == g.caller.ansName
             && m.scope == Scope(g.quote.mode, g.quote.norad) && g.quote.norad == u.booking.norad
             && u.command.class_ in c.auth.rules.Allowed(ParseScope(m.scope).value.0)
             && (forall k :: k in m.classes ==> k in c.auth.rules.Allowed(ParseScope(m.scope).value.0)))
  }

  lemma RelayUplinks(h: Chain.Hasher, maxAge: int, s: T.SessionState, k: K.KeeperState, caller: T.Caller, tok: CommandToken, call: T.Call)
    ensures var r := T.Relay(h, maxAge, s, k, caller, tok, call);
            && r.session.booking == s.booking && r.session.mandate == s.mandate
            && (r.uplinked.Some? ==>
                  && r.uplinked.value.class_ in s.mandate.classes && r.uplinked.value.mandateID == s.booking.mandateID
                  && caller.jkt == s.mandate.jkt && T.Begins(s.mandate) <= call.now <= T.Ends(s.mandate))
  {
    var r := T.Relay(h, maxAge, s, k, caller, tok, call);
    if s.closed || call.now > T.Ends(s.mandate) || call.now < T.Begins(s.mandate) || caller.jkt != s.mandate.jkt {
      assert r.uplinked.None?;
    } else {
      var w := T.Watch(maxAge, s.monitor, k, caller.agentID, call.got, call.now);
      var s1 := s.(monitor := w.monitor);
      if w.refused.None? {
        assert r == T.RelayChecked(h, s1, w.keeper, tok, call.uplink);
      }
    }
  }

  lemma FoundSessionOK(st: S.StoreState, m: T.ManagerState, id: string)
    requires SessionsOK(st, m) && T.FindSession(m, st, id).Ok?
    ensures var s := T.FindSession(m, st, id).value;
            id in st.bookings && s.booking == st.bookings[id] && s.booking.mandate.Jws? && s.mandate == s.booking.mandate.payload
  {
  }

  lemma SessionsUpdated(st: S.StoreState, m: T.ManagerState, id: string, k: K.KeeperState, s: T.SessionState)
    requires SessionsOK(st, m) && id in st.bookings && s.booking == st.bookings[id]
    requires s.booking.mandate.Jws? && s.mandate == s.booking.mandate.payload
    ensures SessionsOK(st, T.ManagerState(k, m.sessions[id := s]))
  {
  }

  lemma RelayedOK(c: Config, st: S.StoreState, m: T.ManagerState, id: string, s: T.SessionState, caller: T.Caller,
                  tok: CommandToken, call: T.Call)
    requires SessionsOK(st, m) && id in st.bookings && s.booking == st.bookings[id]
    requires s.booking.mandate.Jws? && s.mandate == s.booking.mandate.payload
    ensures var r := T.Relay(c.h, c.maxAge, s, m.keeper, caller, tok, call);
            && SessionsOK(st, T.ManagerState(r.keeper, m.sessions[id := r.session])) && r.session.booking == st.bookings[id]
            && (r.uplinked.Some? ==>
                  && r.uplinked.value.class_ in s.mandate.classes && r.uplinked.value.mandateID == s.booking.mandateID
                  && caller.jkt == s.mandate.jkt && T.Begins(s.mandate) <= call.now <= T.Ends(s.mandate))
  {
    RelayUplinks(c.h, c.maxAge, s, m.keeper, caller, tok, call);
    var r := T.Relay(c.h, c.maxAge, s, m.keeper, caller, tok, call);
    SessionsUpdated(st, m, id, r.keeper, r.session);
  }

  /** What RelayCommand does to the manager and sends up, without the details of the checks. */
  lemma ManagedOK(c: Config, grants: map<string, Grant>, name: string, st: S.StoreState, m: T.ManagerState, id: string,
                  tok: CommandToken, call: T.Call)
    requires StoreOK(c, grants, name, st) && SessionsOK(st, m)
    ensures var r := T.RelayCommand(c.h, c.maxAge, m, st, id, tok, call);
            && SessionsOK(st, r.manager)
            && (r.uplinked.Some? ==>
                  && call.caller.Some? && id in r.manager.sessions && r.manager.sessions[id].booking == st.bookings[id]
                  && BookingOK(c, grants, name, st.bookings[id])
                  && var md := st.bookings[id].mandate.payload;
                     && r.uplinked.value.class_ in md.classes && r.uplinked.value.mandateID == md.mandateID
                     && call.caller.value.jkt == md.jkt && T.Begins(md) <= call.now <= T.Ends(md))
  {
    if call.caller.Some? && T.FindSession(m, st, id).Ok? {
      FoundSessionOK(st, m, id);
      assert BookingOK(c, grants, name, st.bookings[id]);
      RelayedOK(c, st, m, id, T.FindSession(m, st, id).value, call.caller.value, tok, call);
    }
  }

  lemma RelayStepOK(c: Config, w: World, e: Event)
    requires e.Relay? && Possible(c, w, e) && GrantsOK(c, w.auth, w.grants)
    requires StoreOK(c, w.grants, e.name, w.stores[e.name]) && SessionsOK(w.stores[e.name], w.managers[e.name])
    ensures var next := Step(c, w, e);
            && SessionsOK(w.stores[e.name], next.managers[e.name])
            && (next.uplinks == w.uplinks ||
                exists u :: next.uplinks == w.uplinks + [u] && Authorized(c, w.grants, u))
  {
    ManagedOK(c, w.grants, e.name, w.stores[e.name], w.managers[e.name], e.id, e.tok, e.relay);
    var r := T.RelayCommand(c.h, c.maxAge, w.managers[e.name], w.stores[e.name], e.id, e.tok, e.relay);
    if r.uplinked.Some? {
      var b := w.stores[e.name].bookings[e.id];
      var u := Uplink(e.name, b, e.relay.caller.value, r.uplinked.value, e.relay.now);
      if b.mandate.payload.iss == c.auth.name {
        var g := w.grants[b.mandateID];
        assert GrantOK(c, w.auth, b.mandateID, g);
        ParseScopeExact(g.mandate.scope, g.quote.mode, g.quote.norad);
      }
      assert Authorized(c, w.grants, u);
      assert Step(c, w, e).uplinks == w.uplinks + [u];
    }
  }

  // ----------------------------------------------------------- whole runs

  ghost predicate Inv(c: Config, w: World) {
    && GrantsOK(c, w.auth, w.grants) && (forall norad, day :: WithinLimit(c, w.auth, norad, day))
    && w.stores.Keys == c.stations.Keys && w.managers.Keys == c.stations.Keys
    && (forall n :: n in w.stores ==> StoreOK(c, w.grants, n, w.stores[n]))
    && (forall n :: n in w.managers ==> SessionsOK(w.stores[n], w.managers[n]))
    && (forall i :: 0 <= i < |w.uplinks| ==> Authorized(c, w.grants, w.uplinks[i]))
  }

  lemma GrowKeeps(c: Config, small: map<string, Grant>, big: map<string, Grant>, name: string, b: S.Booking)
    requires Extends(small, big) && BookingOK(c, small, name, b)
    ensures BookingOK(c, big, name, b)
  {
  }

  lemma IssueStep(c: Config, w: World, call: A.IssueCall)
    requires Inv(c, w)
    ensures Inv(c, Step(c, w, Issue(call)))
  {
    var next := Step(c, w, Issue(call));
    IssueKeepsGrants(c, w.auth, w.grants, call);
    assert Extends(w.grants, next.grants);
    forall norad, day ensures WithinLimit(c, next.auth, norad, day) {
      assert WithinLimit(c, w.auth, norad, day);
      A.IssueKeepsLimit(c.auth, w.auth, call, norad, day);
    }
    forall n | n in w.stores ensures StoreOK(c, next.grants, n, w.stores[n]) {
      forall id | id in w.stores[n].bookings ensures BookingOK(c, next.grants, n, w.stores[n].bookings[id]) {
        GrowKeeps(c, w.grants, next.grants, n, w.stores[n].bookings[id]);
      }
    }
    forall i | 0 <= i < |w.uplinks| ensures Authorized(c, next.grants, w.uplinks[i]) {
      GrowKeeps(c, w.grants, next.grants, w.uplinks[i].station, w.uplinks[i].booking);
    }
  }

  lemma AtStationStep(c: Config, w: World, e: Event)
    requires Trusts(c) && Inv(c, w) && e.AtStation? && Possible(c, w, e)
    ensures Inv(c, Step(c, w, e))
  {
    StationStepOK(c, w.grants, e.name, w.stores[e.name], e.e);
    StoreReplaced(c, w, e.name, B.Step(c.stations[e.name], w.stores[e.name], e.e));
  }

  lemma StoreReplaced(c: Config, w: World, name: string, st: S.StoreState)
    requires Inv(c, w) && name in w.stores && StoreOK(c, w.grants, name, st) && Keeps(w.stores[name], st)
    ensures Inv(c, w.(stores := w.stores[name := st]))
  {
    var stores := w.stores[name := st];
    forall n | n in w.managers ensures SessionsOK(stores[n], w.managers[n]) {
      SessionsStay(w.stores[n], stores[n], w.managers[n]);
    }
    assert forall n :: n in stores ==> StoreOK(c, w.grants, n, stores[n]);
  }

  lemma SessionsStay(st: S.StoreState, next: S.StoreState, m: T.ManagerState)
    requires SessionsOK(st, m) && (st == next || Keeps(st, next))
    ensures SessionsOK(next, m)
  {
  }

  lemma RelayStep(c: Config, w: World, e: Event)
    requires Inv(c, w) && e.Relay? && Possible(c, w, e)
    ensures Inv(c, Step(c, w, e))
  {
    RelayStepOK(c, w, e);
    var next := Step(c, w, e);
    var w' := w.(managers := w.managers[e.name := next.managers[e.name]]);
    ManagerReplaced(c, w, e.name, next.managers[e.name]);
    if next.uplinks == w.uplinks {
      assert next == w';
    } else {
      var u :| next.uplinks == w.uplinks + [u] && Authorized(c, w.grants, u);
      UplinkAdded(c, w', u);
      assert next == w'.(uplinks := w'.uplinks + [u]);
    }
  }

  lemma UplinkAdded(c: Config, w: World, u: Uplink)
    requires Inv(c, w) && Authorized(c, w.grants, u)
    ensures Inv(c, w.(uplinks := w.uplinks + [u]))
  {
    var us := w.uplinks + [u];
    assert forall i :: 0 <= i < |us| ==> us[i] == if i < |w.uplinks| then w.uplinks[i] else u;
  }

  lemma ManagerReplaced(c: Config, w: World, name: string, m: T.ManagerState)
    requires Inv(c, w) && name in w.managers && SessionsOK(w.stores[name], m)
    ensures Inv(c, w.(managers := w.managers[name := m]))
  {
  }

  lemma TickedOK(maxAge: int, st: S.StoreState, m: T.ManagerState, id: string, got: K.Fetched, now: int)
    requires SessionsOK(st, m) && id in m.sessions
    ensures SessionsOK(st, TickSession(maxAge, m, id, got, now))
  {
    var s := m.sessions[id];
    if s.monitor.Some? {
      var t := M.Tick(maxAge, s.monitor.value, m.keeper, got, now);
      SessionsUpdated(st, m, id, t.keeper, s.(monitor := Some(t.mon)));
    }
  }

  lemma TickStep(c: Config, w: World, e: Event)
    requires Inv(c, w) && e.Tick? && Possible(c, w, e)
    ensures Inv(c, Step(c, w, e))
  {
    TickedOK(c.maxAge, w.stores[e.name], w.managers[e.name], e.id, e.got, e.now);
    ManagerReplaced(c, w, e.name, TickSession(c.maxAge, w.managers[e.name], e.id, e.got, e.now));
  }

  lemma {:induction false} RunKeeps(c: Config, w: World, es: seq<Event>, end: World)
    requires Trusts(c) && Inv(c, w) && Run(c, w, es, end)
    ensures Inv(c, end)
    decreases |es|
  {
    if es != [] {
      match es[0] {
        case Issue(call) => IssueStep(c, w, call);
        case AtStation(_, _) => AtStationStep(c, w, es[0]);
        case Relay(_, _, _, _) => RelayStep(c, w, es[0]);
        case Tick(_, _, _, _) => TickStep(c, w, es[0]);
      }
      RunKeeps(c, Step(c, w, es[0]), es[1..], end);
    }
  }

  lemma InitInv(c: Config)
    ensures Inv(c, Init(c))
  {
    forall norad, day ensures WithinLimit(c, S.EMPTY, norad, day) {
      assert S.IssuedOn(S.EMPTY, norad, day) == {};
    }
  }

  /** In every run, every command a station sent up rests on a booking made with a mandate for that station from the
      satellite's registered authority: the command's class is one of the mandate's, the caller holds the mandate's
      key, and the time is within the window widened by 30 s. When that authority is ours, it granted the mandate to
      an Ops agent with that same key, for classes its flight rules allow for the mode the mandate's scope names. */
  lemma EveryUplinkAuthorized(c: Config, es: seq<Event>, end: World)
    requires Trusts(c) && Run(c, Init(c), es, end)
    ensures forall i :: 0 <= i < |end.uplinks| ==> Authorized(c, end.grants, end.uplinks[i])
  {
    InitInv(c);
    RunKeeps(c, Init(c), es, end);
  }

  // --------------------------------------------------------- passes per day

  /** The bookings for one satellite on one UTC day, at all stations. */
  function BookedOn(w: World, norad: int, day: int): set<(string, string)> {
    set n, id | n in w.stores && id in w.stores[n].bookings && w.stores[n].bookings[id].norad == norad &&
                S.Day(w.stores[n].bookings[id].nbf) == day :: (n, id)
  }

  predicate SoleAuthority(c: Config, norad: int) {
    forall n :: n in c.stations && B.FindSatellite(c.stations[n].registry, norad).Some? ==>
      B.FindSatellite(c.stations[n].registry, norad).value.authority == c.auth.name
  }

  /** A booking's mandate has its own row in the authority's log, for that satellite and day. */
  lemma BookingLogged(c: Config, w: World, norad: int, day: int, n: string, id: string)
    requires Inv(c, w) && SoleAuthority(c, norad) && (n, id) in BookedOn(w, norad, day)
    ensures var b := w.stores[n].bookings[id];
            b.mandateID in S.IssuedOn(w.auth, norad, day) && b.mandateID in w.grants &&
            w.grants[b.mandateID].mandate.aud == n && w.grants[b.mandateID].mandate.iss == b.iss &&
            w.grants[b.mandateID].mandate.nonce == b.nonce
  {
    var b := w.stores[n].bookings[id];
    assert BookingOK(c, w.grants, n, b);
    var g := w.grants[b.mandateID];
    assert GrantOK(c, w.auth, b.mandateID, g);
    ParseScopeExact(g.mandate.scope, g.quote.mode, g.quote.norad);
  }

  /** Two bookings with one mandate are one booking: it names one station and one nonce. */
  lemma OneBookingPerMandate(c: Config, w: World, norad: int, day: int, p: (string, string), q: (string, string))
    requires Inv(c, w) && SoleAuthority(c, norad) && p in BookedOn(w, norad, day) && q in BookedOn(w, norad, day)
    requires w.stores[p.0].bookings[p.1].mandateID == w.stores[q.0].bookings[q.1].mandateID
    ensures p == q
  {
    BookingLogged(c, w, norad, day, p.0, p.1);
    BookingLogged(c, w, norad, day, q.0, q.1);
    var st := w.stores[p.0];
    assert StoreOK(c, w.grants, p.0, st) && S.OneAntenna(st);
    assert p.1 != q.1 ==> S.Apart(st.bookings[p.1], st.bookings[q.1]);
  }

  /** Across all honest stations together, the bookings of a satellite on a UTC day never exceed the authority's
      daily limit: bookings inject into logged mandates by station and nonce. */
  lemma DailyLimitHolds(c: Config, es: seq<Event>, end: World, norad: int, day: int)
    requires Trusts(c) && Run(c, Init(c), es, end) && SoleAuthority(c, norad)
    ensures |BookedOn(end, norad, day)| <= if c.auth.rules.maxPassesPerDay > 0 then c.auth.rules.maxPassesPerDay else 0
  {
    InitInv(c);
    RunKeeps(c, Init(c), es, end);
    BookedWithinLimit(c, end, norad, day);
  }

  function MandateOf(w: World, p: (string, string)): string {
    if p.0 in w.stores && p.1 in w.stores[p.0].bookings then w.stores[p.0].bookings[p.1].mandateID else ""
  }

  lemma CountByMandate(w: World, booked: set<(string, string)>, issued: set<string>)
    requires forall p :: p in booked ==> MandateOf(w, p) in issued
    requires forall p, q :: p in booked && q in booked && MandateOf(w, p) == MandateOf(w, q) ==> p == q
    ensures |booked| <= |issued|
  {
    InjectionSize(booked, map p | p in booked :: MandateOf(w, p), issued);
  }

  lemma BookedWithinLimit(c: Config, w: World, norad: int, day: int)
    requires Inv(c, w) && SoleAuthority(c, norad)
    ensures |BookedOn(w, norad, day)| <= if c.auth.rules.maxPassesPerDay > 0 then c.auth.rules.maxPassesPerDay else 0
  {
    var booked := BookedOn(w, norad, day);
    forall p | p in booked ensures MandateOf(w, p) in S.IssuedOn(w.auth, norad, day) {
      BookingLogged(c, w, norad, day, p.0, p.1);
    }
    forall p, q | p in booked && q in booked && MandateOf(w, p) == MandateOf(w, q) ensures p == q {
      OneBookingPerMandate(c, w, norad, day, p, q);
    }
    CountByMandate(w, booked, S.IssuedOn(w.auth, norad, day));
    assert WithinLimit(c, w.auth, norad, day);
  }
}
