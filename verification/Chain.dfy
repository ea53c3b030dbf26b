/** The command hash chain Ops and the station both keep (internal/chain). Every result holds for every hash
    function: SHA-256 is a parameter, and where the chain's promise rests on it the statement hands back the
    collision. */
module Chain {
  import opened Errs
  import opened Schema
  import opened Decimal

  function Zeros(n: nat): (s: string)
    ensures |s| == n && forall i :: 0 <= i < n ==> s[i] == '0'
  {
    if n == 0 then "" else ['0'] + Zeros(n - 1)
  }

  /** A SHA-256 value in lower-case hex. */
  type Digest = d: string | ValidHex64(d) witness Zeros(64)

  /** How a record is sealed to the head before it, and how a command token is digested. */
  datatype Hasher = Hasher(link: (Entry, string) -> Digest, token: string -> Digest)

  const GENESIS: Digest := Zeros(64)

  datatype CommandRecord = CommandRecord(counter: int, mandateID: string, class_: string, cmdSHA256: string,
                                         prevHash: string, hash: string)
  {
    predicate Valid() {
      && counter > 0 && ValidID(mandateID) && ValidClass(class_)
      && ValidHex64(cmdSHA256) && ValidHex64(prevHash) && ValidHex64(hash)
    }

    function ToEntry(): Entry { Entry(counter, mandateID, class_, cmdSHA256) }
  }

  /** What a side records about one command, before it is linked. */
  datatype Entry = Entry(counter: int, mandateID: string, class_: string, cmdSHA256: string)
  {
    predicate Valid() { counter > 0 && ValidID(mandateID) && ValidClass(class_) && ValidHex64(cmdSHA256) }
  }

  // ------------------------------------------------------- what is hashed

  predicate AnyHex(s: string) {
    forall i :: 0 <= i < |s| ==> HexChar(s[i]) || 'A' <= s[i] <= 'F'
  }

  function Nibble(c: char): (n: nat)
    requires HexChar(c) || 'A' <= c <= 'F'
    ensures n < 16
  {
    if c <= '9' then c as int - '0' as int
    else if c <= 'F' then c as int - 'A' as int + 10
    else c as int - 'a' as int + 10
  }

  /** hex.DecodeString; bytes are characters below 256. */
  function HexDecode(s: string): (b: string)
    requires AnyHex(s) && |s| % 2 == 0
    ensures |b| == |s| / 2
  {
    if s == "" then ""
    else [(Nibble(s[0]) * 16 + Nibble(s[1])) as char] + HexDecode(s[2..])
  }

  const CLASS_KEY := "{\"class\":\""
  const CMD_KEY := ",\"cmd_sha256\":\""
  const COUNTER_KEY := ",\"counter\":"
  const MANDATE_KEY := "\"mandate_id\":\""
  const PREV_KEY := ",\"prev_hash\":\""

  /** How the canonical encoding writes a counter: exactly up to 2^53 - 1, and above that through a double, which rounds.
      It never writes a comma, nor a rounded number like an exact one. */
  ghost predicate NumberText(num: int -> string) {
    && (forall n :: 0 < n <= MAX_SAFE_INT ==> num(n) == FormatInt(n)) && (forall n :: 0 < n ==> ',' !in num(n))
    && (forall n, m :: 0 < n <= MAX_SAFE_INT < m ==> num(n) != num(m))
  }

  /** The JCS form of a record without its hash. Its fields need no escaping once they are valid. */
  function Canonical(num: int -> string, e: Entry, prev: string): string {
    CLASS_KEY + (e.class_ + (['"'] + (CMD_KEY + (e.cmdSHA256 + (['"'] + (COUNTER_KEY + (num(e.counter) +
    ([','] + (MANDATE_KEY + (e.mandateID + (['"'] + (PREV_KEY + (prev + (['"'] + "}"))))))))))))))
  }

  /** The text, in full: the five members in the order of their names. */
  lemma CanonicalText(num: int -> string, e: Entry, prev: string)
    ensures Canonical(num, e, prev) ==
              "{\"class\":\"" + (e.class_ + ("\",\"cmd_sha256\":\"" + (e.cmdSHA256 + ("\",\"counter\":" + (num(e.counter) +
              (",\"mandate_id\":\"" + (e.mandateID + ("\",\"prev_hash\":\"" + (prev + "\"}")))))))))
  {
    var mandate := e.mandateID + (['"'] + (PREV_KEY + (prev + (['"'] + "}"))));
    MandateText(e, prev);
    var counter := num(e.counter) + ([','] + (MANDATE_KEY + mandate));
    QuotedKeys(e.cmdSHA256 + (['"'] + (COUNTER_KEY + counter)));
    QuotedKeys(counter);
  }

  lemma MandateText(e: Entry, prev: string)
    ensures [','] + (MANDATE_KEY + (e.mandateID + (['"'] + (PREV_KEY + (prev + (['"'] + "}")))))) ==
              ",\"mandate_id\":\"" + (e.mandateID + ("\",\"prev_hash\":\"" + (prev + "\"}")))
  {
    assert ['"'] + "}" == "\"}";
    var end := prev + "\"}";
    Joined('"', PREV_KEY, "\",\"prev_hash\":\"", end);
    Joined(',', MANDATE_KEY, ",\"mandate_id\":\"", e.mandateID + ("\",\"prev_hash\":\"" + end));
  }

  lemma QuotedKeys(rest: string)
    ensures ['"'] + (COUNTER_KEY + rest) == "\",\"counter\":" + rest
    ensures ['"'] + (CMD_KEY + rest) == "\",\"cmd_sha256\":\"" + rest
  {
    Joined('"', COUNTER_KEY, "\",\"counter\":", rest);
    Joined('"', CMD_KEY, "\",\"cmd_sha256\":\"", rest);
  }

  lemma Joined(c: char, key: string, text: string, rest: string)
    requires [c] + key == text
    ensures [c] + (key + rest) == text + rest
  {
    assert [c] + (key + rest) == ([c] + key) + rest;
  }

  /** Each byte is its two digits, the high one first, in either case. */
  lemma {:induction false} HexBytes(s: string, i: nat)
    requires AnyHex(s) && |s| % 2 == 0 && 2 * i < |s|
    ensures HexDecode(s)[i] as int == 16 * Nibble(s[2 * i]) + Nibble(s[2 * i + 1])
    ensures forall c :: HexChar(c) ==> "0123456789abcdef"[Nibble(c)] == c
    ensures forall c :: 'A' <= c <= 'F' ==> "ABCDEF"[Nibble(c) - 10] == c
  {
    if i > 0 {
      HexBytes(s[2..], i - 1);
    }
  }

  /** The raw bytes of the previous hash, then the record. */
  function HashInput(num: int -> string, e: Entry, prev: string): string {
    if AnyHex(prev) && |prev| == 64 then HexDecode(prev) + Canonical(num, e, prev) else ""
  }

  /** Sealing and digesting with one hash function over text: what the code does with SHA-256. */
  function Hashing(sha: string -> Digest, num: int -> string): Hasher {
    Hasher((e, prev) => sha(HashInput(num, e, prev)), sha)
  }

  function Link(h: Hasher, e: Entry, prev: string): (r: Result<CommandRecord>)
    ensures r.Ok? <==> e.Valid() && ValidHex64(prev)
    ensures r.Ok? ==> r.value.Valid() && r.value.ToEntry() == e && r.value.prevHash == prev
  {
    if !AnyHex(prev) || |prev| != 64 then Err(RecordParseError)
    else
      var r := CommandRecord(e.counter, e.mandateID, e.class_, e.cmdSHA256, prev, h.link(e, prev));
      if r.Valid() then Ok(r) else Err(RecordParseError)
  }

  lemma CancelPrefix<T>(p: seq<T>, a: seq<T>, b: seq<T>)
    requires p + a == p + b
    ensures a == b
  {
    assert (p + a)[|p|..] == a;
    assert (p + b)[|p|..] == b;
  }

  lemma FieldLength<T>(a: seq<T>, x: seq<T>, b: seq<T>, y: seq<T>, end: T)
    requires end !in a && end !in b
    ensures a + ([end] + x) == b + ([end] + y) ==> |a| == |b|
  {
    var s, t := a + ([end] + x), b + ([end] + y);
    assert s[|a|] == end && t[|b|] == end;
    assert |a| < |b| ==> t[|a|] == b[|a|];
    assert |b| < |a| ==> s[|b|] == a[|b|];
  }

  /** A field that cannot contain its terminator ends at the first one. */
  lemma CancelField<T>(a: seq<T>, x: seq<T>, b: seq<T>, y: seq<T>, end: T)
    requires end !in a && end !in b
    requires a + ([end] + x) == b + ([end] + y)
    ensures a == b && x == y
  {
    FieldLength(a, x, b, y, end);
    assert a == (a + ([end] + x))[..|a|] == (b + ([end] + y))[..|b|] == b;
    CancelPrefix(a, [end] + x, [end] + y);
    CancelPrefix([end], x, y);
  }

  lemma NoQuote(s: string)
    requires ValidClass(s) || ValidID(s) || ValidHex64(s)
    ensures '"' !in s
  {
  }

  /** The same counter, or two that the encoding rounds. */
  predicate SameOrRounded(a: int, b: int) { a == b || (a > MAX_SAFE_INT && b > MAX_SAFE_INT) }

  lemma SameText(num: int -> string, a: int, b: int)
    requires NumberText(num) && a > 0 && b > 0 && num(a) == num(b)
    ensures SameOrRounded(a, b)
  {
    if a <= MAX_SAFE_INT && b <= MAX_SAFE_INT {
      FormatInjective(a, b);
    }
  }

  lemma CanonicalTail(num: int -> string, a: Entry, p: string, b: Entry, q: string)
    requires NumberText(num) && a.Valid() && b.Valid() && ValidHex64(p) && ValidHex64(q)
    requires num(a.counter) + ([','] + (MANDATE_KEY + (a.mandateID + (['"'] + (PREV_KEY + (p + (['"'] + "}"))))))) ==
             num(b.counter) + ([','] + (MANDATE_KEY + (b.mandateID + (['"'] + (PREV_KEY + (q + (['"'] + "}")))))))
    ensures SameOrRounded(a.counter, b.counter) && a.mandateID == b.mandateID && p == q
  {
    NoQuote(a.mandateID); NoQuote(b.mandateID); NoQuote(p); NoQuote(q);
    var x := a.mandateID + (['"'] + (PREV_KEY + (p + (['"'] + "}"))));
    var y := b.mandateID + (['"'] + (PREV_KEY + (q + (['"'] + "}"))));
    CancelField(num(a.counter), MANDATE_KEY + x, num(b.counter), MANDATE_KEY + y, ',');
    SameText(num, a.counter, b.counter);
    CancelPrefix(MANDATE_KEY, x, y);
    CancelField(a.mandateID, PREV_KEY + (p + (['"'] + "}")), b.mandateID, PREV_KEY + (q + (['"'] + "}")), '"');
    CancelPrefix(PREV_KEY, p + (['"'] + "}"), q + (['"'] + "}"));
    CancelField(p, "}", q, "}", '"');
  }

  /** The bytes that are hashed determine the record and the head it links to, but for counters above 2^53 - 1. */
  lemma HashInputInjective(num: int -> string, a: Entry, p: string, b: Entry, q: string)
    requires NumberText(num) && a.Valid() && b.Valid() && ValidHex64(p) && ValidHex64(q)
    requires HashInput(num, a, p) == HashInput(num, b, q)
    ensures p == q && a == b.(counter := a.counter) && SameOrRounded(a.counter, b.counter)
  {
    var u, v := HashInput(num, a, p), HashInput(num, b, q);
    assert Canonical(num, a, p) == u[32..] == v[32..] == Canonical(num, b, q);
    NoQuote(a.class_); NoQuote(b.class_); NoQuote(a.cmdSHA256); NoQuote(b.cmdSHA256);
    var a3 := num(a.counter) + ([','] + (MANDATE_KEY + (a.mandateID + (['"'] + (PREV_KEY + (p + (['"'] + "}")))))));
    var b3 := num(b.counter) + ([','] + (MANDATE_KEY + (b.mandateID + (['"'] + (PREV_KEY + (q + (['"'] + "}")))))));
    var a2 := a.cmdSHA256 + (['"'] + (COUNTER_KEY + a3));
    var b2 := b.cmdSHA256 + (['"'] + (COUNTER_KEY + b3));
    CancelPrefix(CLASS_KEY, a.class_ + (['"'] + (CMD_KEY + a2)), b.class_ + (['"'] + (CMD_KEY + b2)));
    CancelField(a.class_, CMD_KEY + a2, b.class_, CMD_KEY + b2, '"');
    CancelPrefix(CMD_KEY, a2, b2);
    CancelField(a.cmdSHA256, COUNTER_KEY + a3, b.cmdSHA256, COUNTER_KEY + b3, '"');
    CancelPrefix(COUNTER_KEY, a3, b3);
    CanonicalTail(num, a, p, b, q);
  }

  // -------------------------------------------------------------- appending

  datatype ChainState = ChainState(head: string, counter: int, records: seq<CommandRecord>)

  const EMPTY := ChainState(GENESIS, 0, [])

  function Append(h: Hasher, c: ChainState, e: Entry): (r: Result<ChainState>)
  {
    if e.counter <= c.counter then Err(ChainMismatch)
    else match Link(h, e, c.head)
      case Err(code) => Err(code)
      case Ok(rec) => Ok(ChainState(rec.hash, e.counter, c.records + [rec]))
  }

  function AppendAll(h: Hasher, c: ChainState, es: seq<Entry>): Result<ChainState>
    decreases |es|
  {
    if es == [] then Ok(c)
    else match Append(h, c, es[0])
      case Err(code) => Err(code)
      case Ok(next) => AppendAll(h, next, es[1..])
  }

  class Chain {
    var head: string
    var counter: int
    var records: seq<CommandRecord>

    function State(): ChainState
      reads this
    {
      ChainState(head, counter, records)
    }

    constructor ()
      ensures State() == EMPTY
    {
      head, counter, records := GENESIS, 0, [];
    }

    /** Adds the record for one command; a refusal leaves the chain as it was. */
    method AppendRecord(h: Hasher, e: Entry) returns (r: Result<CommandRecord>)
      modifies this
      ensures match Append(h, old(State()), e)
              case Ok(next) => State() == next && r == Ok(next.records[|next.records| - 1])
              case Err(code) => State() == old(State()) && r == Err(code)
    {
      if e.counter <= counter {
        return Err(ChainMismatch);
      }
      var rec := Link(h, e, head);
      if rec.Ok? {
        head, counter := rec.value.hash, e.counter;
        records := records + [rec.value];
      }
      r := rec;
    }
  }

  // ---------------------------------------------------------------- walking

  function WalkFrom(h: Hasher, head: string, last: int, rs: seq<CommandRecord>): Result<string>
    decreases |rs|
  {
    if rs == [] then Ok(head)
    else
      var r := rs[0];
      if r.prevHash != head then Err(ChainMismatch)
      else if r.counter <= last then Err(ChainMismatch)
      else match Link(h, r.ToEntry(), r.prevHash)
        case Err(code) => Err(code)
        case Ok(want) =>
          if want.hash != r.hash then Err(ChainMismatch)
          else WalkFrom(h, r.hash, r.counter, rs[1..])
  }

  /** Re-verifies records from the genesis hash and returns the head. */
  method Walk(h: Hasher, records: seq<CommandRecord>) returns (r: Result<string>)
    ensures r == WalkFrom(h, GENESIS, 0, records)
  {
    var head: string, last := GENESIS, 0;
    for i := 0 to |records|
      invariant WalkFrom(h, GENESIS, 0, records) == WalkFrom(h, head, last, records[i..])
    {
      var rec := records[i];
      assert records[i..][1..] == records[i + 1..];
      if rec.prevHash != head {
        return Err(ChainMismatch);
      }
      if rec.counter <= last {
        return Err(ChainMismatch);
      }
      var want := Link(h, rec.ToEntry(), rec.prevHash);
      if want.Err? {
        return Err(want.code);
      }
      if want.value.hash != rec.hash {
        return Err(ChainMismatch);
      }
      head, last := rec.hash, rec.counter;
    }
    r := Ok(head);
  }

  function Entries(rs: seq<CommandRecord>): seq<Entry> {
    seq(|rs|, i requires 0 <= i < |rs| => rs[i].ToEntry())
  }

  /** Records that walk on top of a chain are rebuilt by appending their entries to it. */
  lemma {:induction false} WalkedIsRebuilt(h: Hasher, c: ChainState, rs: seq<CommandRecord>)
    requires WalkFrom(h, c.head, c.counter, rs).Ok?
    ensures AppendAll(h, c, Entries(rs)).Ok?
    ensures var built := AppendAll(h, c, Entries(rs)).value;
            built.records == c.records + rs && built.head == WalkFrom(h, c.head, c.counter, rs).value
    decreases |rs|
  {
    if rs == [] {
      assert c.records + rs == c.records;
    } else {
      var next := Append(h, c, rs[0].ToEntry()).value;
      assert next == ChainState(rs[0].hash, rs[0].counter, c.records + [rs[0]]);
      WalkedIsRebuilt(h, next, rs[1..]);
      assert Entries(rs)[1..] == Entries(rs[1..]);
      assert c.records + [rs[0]] + rs[1..] == c.records + rs;
    }
  }

  /** What appending adds to a chain walks on top of it, and carries exactly the entries that were appended. */
  lemma {:induction false} RebuiltIsWalked(h: Hasher, c: ChainState, es: seq<Entry>)
    requires AppendAll(h, c, es).Ok?
    ensures var built := AppendAll(h, c, es).value;
            |built.records| == |c.records| + |es| && c.records <= built.records &&
            Entries(built.records[|c.records|..]) == es &&
            WalkFrom(h, c.head, c.counter, built.records[|c.records|..]) == Ok(built.head)
    decreases |es|
  {
    if es != [] {
      var next := Append(h, c, es[0]).value;
      RebuiltIsWalked(h, next, es[1..]);
      var added := AppendAll(h, c, es).value.records[|c.records|..];
      assert added[0] == next.records[|c.records|];
      assert added[1..] == AppendAll(h, c, es).value.records[|next.records|..];
      assert Entries(added) == [es[0]] + es[1..];
    }
  }

  /** Walk accepts exactly the record lists that some sequence of Appends builds from an empty chain, and
      returns that chain's head. */
  lemma WalkAcceptsExactlyAppended(h: Hasher, rs: seq<CommandRecord>)
    ensures WalkFrom(h, GENESIS, 0, rs).Ok? <==>
            exists es :: AppendAll(h, EMPTY, es).Ok? && AppendAll(h, EMPTY, es).value.records == rs
    ensures forall es :: AppendAll(h, EMPTY, es).Ok? && AppendAll(h, EMPTY, es).value.records == rs ==>
              WalkFrom(h, GENESIS, 0, rs) == Ok(AppendAll(h, EMPTY, es).value.head)
  {
    if WalkFrom(h, GENESIS, 0, rs).Ok? {
      WalkedIsRebuilt(h, EMPTY, rs);
      assert EMPTY.records + rs == rs;
    }
    forall es | AppendAll(h, EMPTY, es).Ok? && AppendAll(h, EMPTY, es).value.records == rs
      ensures WalkFrom(h, GENESIS, 0, rs) == Ok(AppendAll(h, EMPTY, es).value.head)
    {
      RebuiltIsWalked(h, EMPTY, es);
      assert rs[|EMPTY.records|..] == rs;
    }
  }

  /** The record at i links to the one before it, or to the head, and its counter is higher. */
  predicate LinksOn(head: string, last: int, rs: seq<CommandRecord>, i: int)
    requires 0 <= i < |rs|
  {
    if i == 0 then rs[0].prevHash == head && last < rs[0].counter
    else rs[i].prevHash == rs[i - 1].hash && rs[i - 1].counter < rs[i].counter
  }

  /** And its fields are well formed and sealed by its hash. */
  predicate SoundAt(h: Hasher, head: string, last: int, rs: seq<CommandRecord>, i: int)
    requires 0 <= i < |rs|
  {
    LinksOn(head, last, rs, i) && rs[i].ToEntry().Valid() && rs[i].hash == h.link(rs[i].ToEntry(), rs[i].prevHash)
  }

  predicate BrokenAt(h: Hasher, head: string, last: int, rs: seq<CommandRecord>, k: int, code: Code) {
    && 0 <= k < |rs| && (forall i :: 0 <= i < k ==> SoundAt(h, head, last, rs, i)) && !SoundAt(h, head, last, rs, k)
    && code == if LinksOn(head, last, rs, k) && !rs[k].ToEntry().Valid() then RecordParseError else ChainMismatch
  }

  /** A walk succeeds exactly when every record is sound, with the last one's hash. Otherwise the first that is not
      decides: malformed fields are RECORD_PARSE_ERROR, anything else CHAIN_MISMATCH. */
  lemma {:induction false} WalkExactly(h: Hasher, head: string, last: int, rs: seq<CommandRecord>)
    requires ValidHex64(head)
    ensures var r := WalkFrom(h, head, last, rs);
            && (r.Ok? <==> forall i :: 0 <= i < |rs| ==> SoundAt(h, head, last, rs, i))
            && (r.Ok? ==> r.value == if rs == [] then head else rs[|rs| - 1].hash)
            && (r.Err? ==> exists k :: BrokenAt(h, head, last, rs, k, r.code))
    decreases |rs|
  {
    if rs != [] {
      var r := WalkFrom(h, head, last, rs);
      if !SoundAt(h, head, last, rs, 0) {
        assert BrokenAt(h, head, last, rs, 0, r.code);
      } else {
        var rest, mid, low := rs[1..], rs[0].hash, rs[0].counter;
        assert r == WalkFrom(h, mid, low, rest);
        WalkExactly(h, mid, low, rest);
        assert forall i :: 0 <= i < |rest| ==> rest[i] == rs[i + 1];
        forall i | 0 <= i < |rest| ensures SoundAt(h, mid, low, rest, i) <==> SoundAt(h, head, last, rs, i + 1) {
        }
        WalkOnward(h, head, last, rs, r);
      }
    }
  }

  lemma WalkOnward(h: Hasher, head: string, last: int, rs: seq<CommandRecord>, r: Result<string>)
    requires rs != [] && SoundAt(h, head, last, rs, 0)
    requires var rest := rs[1..];
             && (r.Ok? <==> forall i :: 0 <= i < |rest| ==> SoundAt(h, rs[0].hash, rs[0].counter, rest, i))
             && (r.Err? ==> exists k :: BrokenAt(h, rs[0].hash, rs[0].counter, rest, k, r.code))
    ensures r.Ok? <==> forall i :: 0 <= i < |rs| ==> SoundAt(h, head, last, rs, i)
    ensures r.Err? ==> exists k :: BrokenAt(h, head, last, rs, k, r.code)
  {
    var rest := rs[1..];
    forall i | 0 < i < |rs|
      ensures SoundAt(h, rs[0].hash, rs[0].counter, rest, i - 1) <==> SoundAt(h, head, last, rs, i)
      ensures LinksOn(rs[0].hash, rs[0].counter, rest, i - 1) <==> LinksOn(head, last, rs, i)
    {
      assert rest[i - 1] == rs[i];
    }
    if r.Err? {
      var k :| BrokenAt(h, rs[0].hash, rs[0].counter, rest, k, r.code);
      assert BrokenAt(h, head, last, rs, k + 1, r.code);
    }
  }

  // ------------------------------------------------------ chains in honest hands

  /** A chain that Appends built from empty; its counters grow and the last one is its counter. */
  ghost predicate Chained(h: Hasher, c: ChainState) {
    && AppendAll(h, EMPTY, Entries(c.records)) == Ok(c) && ValidHex64(c.head)
    && (forall i :: 0 <= i < |c.records| ==> 0 < c.records[i].counter <= c.counter)
    && (forall i, j :: 0 <= i < j < |c.records| ==> c.records[i].counter < c.records[j].counter)
    && c.counter == if c.records == [] then 0 else c.records[|c.records| - 1].counter
  }

  lemma {:induction false} AppendAllSnoc(h: Hasher, c: ChainState, es: seq<Entry>, e: Entry)
    ensures AppendAll(h, c, es + [e]) ==
            match AppendAll(h, c, es) case Ok(mid) => Append(h, mid, e) case Err(code) => Err(code)
    decreases |es|
  {
    if es == [] {
      assert es + [e] == [e];
      if Append(h, c, e).Ok? {
        assert AppendAll(h, Append(h, c, e).value, [e][1..]) == Append(h, c, e);
      }
    } else {
      assert (es + [e])[1..] == es[1..] + [e];
      if Append(h, c, es[0]).Ok? {
        AppendAllSnoc(h, Append(h, c, es[0]).value, es[1..], e);
      }
    }
  }

  /** A valid entry with a higher counter is always appended, and the chain stays a chain. */
  lemma AppendChained(h: Hasher, c: ChainState, e: Entry)
    requires Chained(h, c) && e.Valid() && e.counter > c.counter
    ensures Append(h, c, e).Ok?
    ensures var next := Append(h, c, e).value;
            Chained(h, next) && next.counter == e.counter && Entries(next.records) == Entries(c.records) + [e]
  {
    var next := Append(h, c, e).value;
    assert Entries(next.records) == Entries(c.records) + [e];
    AppendAllSnoc(h, EMPTY, Entries(c.records), e);
  }

  lemma EmptyChained(h: Hasher)
    ensures Chained(h, EMPTY)
  {
    assert Entries(EMPTY.records) == [];
  }

  // ------------------------------------------------- equal heads, equal lists

  datatype Divergence = Same | Collision(x: string, y: string) | GenesisPreimage(x: string)
    | Rounded(r: CommandRecord, s: CommandRecord)

  function Input(num: int -> string, r: CommandRecord): string { HashInput(num, r.ToEntry(), r.prevHash) }

  /** Reads two record lists from the end and reports where they part. */
  function Diverge(num: int -> string, a: seq<CommandRecord>, b: seq<CommandRecord>): Divergence
    decreases |a|
  {
    if a == [] && b == [] then Same
    else if a == [] then GenesisPreimage(Input(num, b[|b| - 1]))
    else if b == [] then GenesisPreimage(Input(num, a[|a| - 1]))
    else
      var r, s := a[|a| - 1], b[|b| - 1];
      if Input(num, r) != Input(num, s) then Collision(Input(num, r), Input(num, s))
      else if r != s then Rounded(r, s)
      else Diverge(num, a[..|a| - 1], b[..|b| - 1])
  }

  /** The last record of an accepted list is sealed to the rest, which is accepted too. */
  lemma {:induction false} WalkLast(h: Hasher, head: string, last: int, rs: seq<CommandRecord>)
    requires rs != [] && WalkFrom(h, head, last, rs).Ok?
    ensures var r := rs[|rs| - 1];
            r.Valid() && r.hash == h.link(r.ToEntry(), r.prevHash) && WalkFrom(h, head, last, rs).value == r.hash &&
            WalkFrom(h, head, last, rs[..|rs| - 1]) == Ok(r.prevHash)
    decreases |rs|
  {
    if |rs| > 1 {
      WalkLast(h, rs[0].hash, rs[0].counter, rs[1..]);
      assert rs[1..][..|rs| - 2] == rs[..|rs| - 1][1..];
    }
  }

  /** Two records that differ in nothing but counters the encoding rounds. */
  predicate RoundedAlike(r: CommandRecord, s: CommandRecord) {
    r != s && r == s.(counter := r.counter) && r.counter > MAX_SAFE_INT && s.counter > MAX_SAFE_INT
  }

  lemma SameInput(num: int -> string, r: CommandRecord, s: CommandRecord)
    requires NumberText(num) && r.Valid() && s.Valid() && r.hash == s.hash && Input(num, r) == Input(num, s)
    ensures r == s || RoundedAlike(r, s)
  {
    HashInputInjective(num, r.ToEntry(), r.prevHash, s.ToEntry(), s.prevHash);
  }

  ghost predicate Explains(sha: string -> Digest, num: int -> string, a: seq<CommandRecord>, b: seq<CommandRecord>, d: Divergence) {
    match d
    case Same => a == b
    case Collision(x, y) => x != y && sha(x) == sha(y)
    case GenesisPreimage(x) => sha(x) == GENESIS
    case Rounded(r, s) => r in a && s in b && RoundedAlike(r, s) && Input(num, r) == Input(num, s)
  }

  lemma ExplainsSnoc(sha: string -> Digest, num: int -> string, a: seq<CommandRecord>, b: seq<CommandRecord>, d: Divergence)
    requires a != [] && b != [] && a[|a| - 1] == b[|b| - 1]
    requires Explains(sha, num, a[..|a| - 1], b[..|b| - 1], d)
    ensures Explains(sha, num, a, b, d)
  {
    assert a == a[..|a| - 1] + [a[|a| - 1]] && b == b[..|b| - 1] + [b[|b| - 1]];
  }

  /** If two accepted lists have the same head, they are the same list, or Diverge hands back two different inputs with
      one hash, or an input that hashes to the genesis value, or two records that differ only in counters above
      2^53 - 1, which are hashed alike. */
  lemma {:induction false} EqualHeads(sha: string -> Digest, num: int -> string, a: seq<CommandRecord>, b: seq<CommandRecord>)
    requires NumberText(num) && WalkFrom(Hashing(sha, num), GENESIS, 0, a).Ok?
    requires WalkFrom(Hashing(sha, num), GENESIS, 0, b) == WalkFrom(Hashing(sha, num), GENESIS, 0, a)
    ensures Explains(sha, num, a, b, Diverge(num, a, b))
    decreases |a|
  {
    var h := Hashing(sha, num);
    if a != [] { WalkLast(h, GENESIS, 0, a); }
    if b != [] { WalkLast(h, GENESIS, 0, b); }
    if a != [] && b != [] && Input(num, a[|a| - 1]) == Input(num, b[|b| - 1]) {
      SameInput(num, a[|a| - 1], b[|b| - 1]);
      if a[|a| - 1] == b[|b| - 1] {
        EqualHeads(sha, num, a[..|a| - 1], b[..|b| - 1]);
        ExplainsSnoc(sha, num, a, b, Diverge(num, a[..|a| - 1], b[..|b| - 1]));
      }
    }
  }

  ghost predicate Exact(rs: seq<CommandRecord>) { forall r :: r in rs ==> r.counter <= MAX_SAFE_INT }

  /** With counters that strict decoding admits on one side, equal heads mean equal lists, but for a collision or a genesis
      preimage. */
  lemma EqualHeadsExact(sha: string -> Digest, num: int -> string, a: seq<CommandRecord>, b: seq<CommandRecord>)
    requires NumberText(num) && WalkFrom(Hashing(sha, num), GENESIS, 0, a).Ok? && Exact(a)
    requires WalkFrom(Hashing(sha, num), GENESIS, 0, b) == WalkFrom(Hashing(sha, num), GENESIS, 0, a)
    ensures Explains(sha, num, a, b, Diverge(num, a, b)) && !Diverge(num, a, b).Rounded?
  {
    EqualHeads(sha, num, a, b);
  }

  lemma OneRecord(h: Hasher, e: Entry)
    requires e.Valid()
    ensures Append(h, EMPTY, e).Ok?
    ensures var c := Append(h, EMPTY, e).value;
            |c.records| == 1 && c.records[0].ToEntry() == e && c.head == h.link(e, GENESIS) &&
            WalkFrom(h, GENESIS, 0, c.records) == Ok(c.head)
  {
    var c := Append(h, EMPTY, e).value;
    assert c.records[1..] == [];
    assert WalkFrom(h, c.head, e.counter, []) == Ok(c.head);
  }

  /** The input: one command recorded under 2^53 and under 2^53 + 1, which a double does not tell apart. Both lists are
      accepted, with one head, and no collision is behind it. */
  lemma RoundedCounters(sha: string -> Digest, num: int -> string, e: Entry)
    requires e.Valid() && num(MAX_SAFE_INT + 1) == num(MAX_SAFE_INT + 2)
    ensures var h := Hashing(sha, num);
            var a, b := Append(h, EMPTY, e.(counter := MAX_SAFE_INT + 1)), Append(h, EMPTY, e.(counter := MAX_SAFE_INT + 2));
            && a.Ok? && b.Ok? && a.value.records != b.value.records
            && WalkFrom(h, GENESIS, 0, a.value.records).Ok?
            && WalkFrom(h, GENESIS, 0, a.value.records) == WalkFrom(h, GENESIS, 0, b.value.records)
            && Diverge(num, a.value.records, b.value.records).Rounded?
  {
    var h := Hashing(sha, num);
    var x, y := e.(counter := MAX_SAFE_INT + 1), e.(counter := MAX_SAFE_INT + 2);
    OneRecord(h, x);
    OneRecord(h, y);
    assert HashInput(num, x, GENESIS) == HashInput(num, y, GENESIS);
  }
}
