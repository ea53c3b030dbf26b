/** Wire objects and their field checks (internal/schema). */
module Schema {
  import opened Errs
  import opened Decimal

  const MAX_ID_LEN := 128
  const MAX_NAME_LEN := 253
  const MAX_CLASSES := 32
  const MAX_CLASS_LEN := 32
  const MAX_BODY_BYTES := 16384
  const MAX_NORAD := 999_999_999
  /** The largest integer strict JSON decoding admits, 2^53 - 1. */
  const MAX_SAFE_INT := 0x1F_FFFF_FFFF_FFFF

  const MODE_UPLINK := "uplink"
  const MODE_DOWNLINK := "downlink"

  predicate ValidMode(m: string) { m == MODE_UPLINK || m == MODE_DOWNLINK }

  predicate IDChar(c: char) {
    'a' <= c <= 'z' || 'A' <= c <= 'Z' || '0' <= c <= '9' || c in "._:-"
  }

  predicate ValidID(s: string) {
    0 < |s| <= MAX_ID_LEN && forall i :: 0 <= i < |s| ==> IDChar(s[i])
  }

  predicate ValidName(s: string) {
    0 < |s| <= MAX_NAME_LEN && forall i :: 0 <= i < |s| ==> ' ' < s[i] <= '~'
  }

  predicate ClassChar(c: char) {
    'a' <= c <= 'z' || '0' <= c <= '9' || c == '_' || c == '-'
  }

  predicate ValidClass(s: string) {
    0 < |s| <= MAX_CLASS_LEN && forall i :: 0 <= i < |s| ==> ClassChar(s[i])
  }

  predicate HexChar(c: char) { '0' <= c <= '9' || 'a' <= c <= 'f' }

  predicate ValidHex64(s: string) {
    |s| == 64 && forall i :: 0 <= i < |s| ==> HexChar(s[i])
  }

  predicate Base64UrlChar(c: char) {
    'a' <= c <= 'z' || 'A' <= c <= 'Z' || '0' <= c <= '9' || c == '-' || c == '_'
  }

  predicate ValidBase64Url(s: string, min: nat, max: nat) {
    min <= |s| <= max && forall i :: 0 <= i < |s| ==> Base64UrlChar(s[i])
  }

  predicate ValidNorad(n: int) { 0 < n <= MAX_NORAD }

  predicate ValidWindow(start: int, end: int) { 0 < start < end }

  predicate ValidClasses(cs: seq<string>) {
    && 0 < |cs| <= MAX_CLASSES
    && (forall i :: 0 <= i < |cs| ==> ValidClass(cs[i]))
    && (forall i, j :: 0 <= i < j < |cs| ==> cs[i] != cs[j])
  }

  /** checkClasses: a list of 1 to 32 classes, each well formed and none repeated. */
  method CheckClasses(cs: seq<string>) returns (ok: bool)
    ensures ok <==> ValidClasses(cs)
  {
    if |cs| == 0 || |cs| > MAX_CLASSES {
      return false;
    }
    var seen: set<string> := {};
    for i := 0 to |cs|
      invariant forall c :: c in seen <==> c in cs[..i]
      invariant forall k :: 0 <= k < i ==> ValidClass(cs[k])
      invariant forall j, k :: 0 <= j < k < i ==> cs[j] != cs[k]
    {
      if !ValidClass(cs[i]) {
        return false;
      }
      if cs[i] in seen {
        var j :| 0 <= j < i && cs[..i][j] == cs[i];
        return false;
      }
      seen := seen + {cs[i]};
      assert cs[..i + 1] == cs[..i] + [cs[i]];
    }
    ok := true;
  }

  // ---------------------------------------------------------------- scopes

  function Scope(mode: string, norad: int): string {
    "pass:" + mode + ":" + FormatInt(norad)
  }

  /** strings.Split: the pieces of s between occurrences of sep. */
  function Split(s: string, sep: char): (parts: seq<string>)
    ensures |parts| > 0
  {
    if s == "" then [""]
    else
      var rest := Split(s[1..], sep);
      if s[0] == sep then [""] + rest
      else [[s[0]] + rest[0]] + rest[1..]
  }

  function ParseScope(s: string): Option<(string, int)> {
    var parts := Split(s, ':');
    if |parts| != 3 || parts[0] != "pass" then None
    else if !ValidMode(parts[1]) then None
    else match ParseInt(parts[2])
      case None => None
      case Some(n) =>
        if Scope(parts[1], n) != s then None
        else if !ValidNorad(n) then None
        else Some((parts[1], n))
  }

  lemma {:induction false} SplitNone(s: string, sep: char)
    requires sep !in s
    ensures Split(s, sep) == [s]
  {
    if s != "" {
      assert s == [s[0]] + s[1..];
      SplitNone(s[1..], sep);
    }
  }

  lemma {:induction false} SplitFirst(a: string, sep: char, rest: string)
    requires sep !in a
    ensures Split(a + [sep] + rest, sep) == [a] + Split(rest, sep)
  {
    var s := a + [sep] + rest;
    if a == "" {
      assert s[1..] == rest;
    } else {
      assert a == [a[0]] + a[1..];
      assert s[1..] == a[1..] + [sep] + rest;
      SplitFirst(a[1..], sep, rest);
    }
  }

  /** ParseScope accepts exactly the strings Scope builds from a known mode and a NORAD ID in range,
      and gives those two back. */
  lemma ParseScopeExact(s: string, mode: string, norad: int)
    ensures ParseScope(s) == Some((mode, norad)) <==>
            s == Scope(mode, norad) && ValidMode(mode) && ValidNorad(norad)
  {
    if s == Scope(mode, norad) && ValidMode(mode) && ValidNorad(norad) {
      var digits := FormatInt(norad);
      assert ':' !in digits;
      assert ':' !in "pass" && ':' !in mode;
      assert s == "pass" + [':'] + (mode + [':'] + digits);
      SplitFirst("pass", ':', mode + [':'] + digits);
      SplitFirst(mode, ':', digits);
      SplitNone(digits, ':');
      assert Split(s, ':') == ["pass", mode, digits];
      ParseFormat(norad);
    }
  }

  /** A scope names one mode and one satellite. */
  lemma ScopeInjective(m1: string, n1: int, m2: string, n2: int)
    requires ValidMode(m1) && ValidNorad(n1) && ValidMode(m2) && ValidNorad(n2)
    requires Scope(m1, n1) == Scope(m2, n2)
    ensures m1 == m2 && n1 == n2
  {
    ParseScopeExact(Scope(m1, n1), m1, n1);
    ParseScopeExact(Scope(m2, n2), m2, n2);
  }

  // --------------------------------------------------------------- objects

  type Key = nat

  datatype Quote = Quote(quoteID: string, station: string, norad: int, aos: int, los: int,
                         mode: string, amountCents: int, exp: int)
  {
    predicate Valid() {
      ValidID(quoteID) && ValidName(station) && ValidNorad(norad) && ValidWindow(aos, los) &&
      ValidMode(mode) && exp > 0 && amountCents >= 0
    }
  }

  datatype Mandate = Mandate(mandateID: string, iss: string, sub: string, aud: string, quoteID: string,
                             scope: string, classes: seq<string>, maxAmountCents: int,
                             nbf: int, exp: int, jkt: string, nonce: string)
  {
    predicate Valid() {
      && ValidID(mandateID) && ValidName(iss) && ValidName(sub) && ValidName(aud) && ValidID(quoteID)
      && ParseScope(scope).Some? && ValidClasses(classes) && ValidWindow(nbf, exp)
      && ValidBase64Url(jkt, 43, 43) && ValidBase64Url(nonce, 16, 128) && maxAmountCents >= 0
    }
  }

  datatype Command = Command(norad: int, counter: int, mandateID: string, class_: string, body: string, issuedAt: int)
  {
    predicate Valid() {
      && ValidNorad(norad) && 0 < counter && ValidID(mandateID) && ValidClass(class_)
      && 0 < |body| <= MAX_BODY_BYTES && body[0] == '{' && 0 < issuedAt
    }

    /** What a strict decoder admits: valid fields, and integers JSON carries exactly. */
    predicate Wire() { Valid() && counter <= MAX_SAFE_INT && issuedAt <= MAX_SAFE_INT }
  }

  datatype AckResult = Accepted | Rejected

  datatype Ack = Ack(counter: int, result: AckResult, telemetry: string, reason: string)
  {
    predicate Valid() {
      && counter > 0
      && (result.Accepted? ==> reason == "" && ValidHex64(telemetry))
      && (result.Rejected? ==> telemetry == "" && ValidName(reason))
    }
  }

  /** An ideal signed token: either it is malformed or of another type, or it carries a payload and the key that
      signed it. `raw` is the compact JWS text. */
  datatype Token<+T> = Malformed(raw: string) | OtherType(raw: string) | Jws(raw: string, payload: T, key: Key)

  type CommandToken = Token<Command>
  type MandateToken = Token<Mandate>

  /** Structure, typ and fields, without the signature. */
  function PeekCommand(t: CommandToken): (r: Result<Command>)
    ensures r.Ok? ==> t.Jws? && t.payload == r.value && r.value.Wire()
    ensures r.Err? ==> r.code == CommandParseError || r.code == TypRejected
  {
    match t
    case Malformed(_) => Err(CommandParseError)
    case OtherType(_) => Err(TypRejected)
    case Jws(_, c, _) => if c.Wire() then Ok(c) else Err(CommandParseError)
  }

  /** Signing refuses an invalid command with an unnamed error. An integer too big for JSON is rounded by the
      canonical encoding, and what comes out no strict decoder accepts. */
  function SignCommand(c: Command, key: Key, raw: string): Option<CommandToken> {
    if !c.Valid() then None
    else if c.Wire() then Some(Jws(raw, c, key))
    else Some(Malformed(raw))
  }

  function VerifyCommand(t: CommandToken, keys: set<Key>): (r: Result<Command>)
    ensures r.Ok? ==> r.value.Wire() && t.Jws? && t.key in keys && t.payload == r.value
  {
    match PeekCommand(t)
    case Err(code) => Err(code)
    case Ok(c) => if t.key in keys then Ok(c) else Err(CommandRejectedSignature)
  }

  function PeekMandate(t: MandateToken): (r: Result<Mandate>)
    ensures r.Ok? ==> t.Jws? && t.payload == r.value && r.value.Valid()
  {
    match t
    case Malformed(_) => Err(MandateParseError)
    case OtherType(_) => Err(TypRejected)
    case Jws(_, m, _) => if m.Valid() then Ok(m) else Err(MandateParseError)
  }

  function VerifyMandate(t: MandateToken, keys: set<Key>): (r: Result<Mandate>)
    ensures r.Ok? ==> r.value.Valid() && t.Jws? && t.key in keys && t.payload == r.value
  {
    match PeekMandate(t)
    case Err(code) => Err(code)
    case Ok(m) => if t.key in keys then Ok(m) else Err(MandateRejectedSignature)
  }

  /** Signing and verifying, over every command and key: a valid command is always signed; what comes out is the command
      for a verifier that holds the key, a bad signature for one that does not, and does not read when an integer is too
      big for JSON. */
  lemma SignVerify(c: Command, key: Key, raw: string, keys: set<Key>)
    ensures var t := SignCommand(c, key, raw);
            && (t.Some? <==> c.Valid())
            && (t.Some? ==>
                  && t.value.raw == raw
                  && VerifyCommand(t.value, keys) ==
                     if !(c.counter < 0x20_0000_0000_0000 && c.issuedAt < 0x20_0000_0000_0000) then Err(CommandParseError)
                     else if key in keys then Ok(c)
                     else Err(CommandRejectedSignature))
  {
  }

  // ---------------------------------------------------------- what fields hold

  /** The characters and lengths, spelled out. */
  lemma Alphabets(s: string)
    ensures ValidID(s) <==> 1 <= |s| <= 128 && forall i :: 0 <= i < |s| ==> AlphaNumeric(s[i]) || s[i] in {'.', '_', ':', '-'}
    ensures ValidClass(s) <==>
              1 <= |s| <= 32 && forall i :: 0 <= i < |s| ==> (AlphaNumeric(s[i]) && !(65 <= s[i] as int <= 90)) || s[i] in {'_', '-'}
    ensures ValidBase64Url(s, 43, 43) <==> |s| == 43 && forall i :: 0 <= i < |s| ==> AlphaNumeric(s[i]) || s[i] in {'_', '-'}
    ensures ValidName(s) <==> 1 <= |s| <= 253 && forall i :: 0 <= i < |s| ==> 33 <= s[i] as int <= 126
    ensures ValidHex64(s) <==> |s| == 64 && forall i :: 0 <= i < |s| ==> s[i] in "0123456789abcdef"
  {
  }

  predicate AlphaNumeric(c: char) {
    48 <= c as int <= 57 || 65 <= c as int <= 90 || 97 <= c as int <= 122
  }

  /** A mandate's scope is a mode and a satellite written out, its classes 1 to 32 distinct ones, its window not empty, its
      key thumbprint 43 characters and its nonce 16 to 128. */
  lemma MandateFields(m: Mandate)
    ensures m.Valid() <==>
              && ValidID(m.mandateID) && ValidID(m.quoteID) && ValidName(m.iss) && ValidName(m.sub) && ValidName(m.aud)
              && (exists norad :: 1 <= norad <= 999_999_999 &&
                                  m.scope in {"pass:uplink:" + FormatInt(norad), "pass:downlink:" + FormatInt(norad)})
              && 1 <= |m.classes| <= 32 && (forall i :: 0 <= i < |m.classes| ==> ValidClass(m.classes[i]))
              && (forall i, j :: 0 <= i < j < |m.classes| ==> m.classes[i] != m.classes[j])
              && 1 <= m.nbf < m.exp && m.maxAmountCents >= 0
              && ValidBase64Url(m.jkt, 43, 43) && ValidBase64Url(m.nonce, 16, 128)
  {
    ScopesParse(m.scope);
  }

  lemma ScopesParse(s: string)
    ensures ParseScope(s).Some? <==>
              exists norad :: 1 <= norad <= 999_999_999 && s in {"pass:uplink:" + FormatInt(norad), "pass:downlink:" + FormatInt(norad)}
  {
    if ParseScope(s).Some? {
      var (mode, norad) := ParseScope(s).value;
      ParseScopeExact(s, mode, norad);
      ScopeText(norad);
      assert s in {"pass:uplink:" + FormatInt(norad), "pass:downlink:" + FormatInt(norad)};
    }
    if norad :| 1 <= norad <= 999_999_999 && s in {"pass:uplink:" + FormatInt(norad), "pass:downlink:" + FormatInt(norad)} {
      ScopeText(norad);
      ParseScopeExact(s, if s == Scope(MODE_UPLINK, norad) then MODE_UPLINK else MODE_DOWNLINK, norad);
    }
  }

  lemma ScopeText(norad: int)
    ensures Scope(MODE_UPLINK, norad) == "pass:uplink:" + FormatInt(norad)
    ensures Scope(MODE_DOWNLINK, norad) == "pass:downlink:" + FormatInt(norad)
  {
    assert "pass:" + MODE_UPLINK + ":" == "pass:uplink:";
    assert "pass:" + MODE_DOWNLINK + ":" == "pass:downlink:";
  }

  /** The other objects' fields, with their limits. */
  lemma ObjectFields(q: Quote, c: Command, a: Ack)
    ensures q.Valid() <==>
              && ValidID(q.quoteID) && ValidName(q.station) && 1 <= q.norad <= 999_999_999 && 1 <= q.aos < q.los
              && q.mode in {"uplink", "downlink"} && q.exp >= 1 && q.amountCents >= 0
    ensures c.Valid() <==>
              && 1 <= c.norad <= 999_999_999 && c.counter >= 1 && c.issuedAt >= 1 && ValidID(c.mandateID) && ValidClass(c.class_)
              && |c.body| <= 16384 && "{" <= c.body
    ensures c.Wire() <==> c.Valid() && c.counter <= 9_007_199_254_740_991 && c.issuedAt <= 9_007_199_254_740_991
    ensures a.Valid() <==>
              && a.counter >= 1
              && if a.result == Accepted then a.reason == "" && ValidHex64(a.telemetry) else a.telemetry == "" && ValidName(a.reason)
  {
  }
}
