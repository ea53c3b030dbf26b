/** Mission Ops' signer (internal/ops): every command takes the next persistent counter of its satellite. */
module Commander {
  import opened Errs
  import opened Schema
  import opened Decimal
  import S = Store

  function CounterName(norad: int): string { "cmd:" + FormatInt(norad) }

  datatype Signer = Signer(norad: int, key: Key)

  datatype Built = Built(token: CommandToken, command: Command)

  /** The counter is drawn even when signing then refuses the command. */
  function Build(c: Signer, st: S.StoreState, mandateID: string, class_: string, body: string, issuedAt: int,
                 raw: string): (S.StoreState, Option<Built>)
  {
    var (next, n) := S.NextCounter(st, CounterName(c.norad));
    var cmd := Command(c.norad, n, mandateID, class_, body, issuedAt);
    match SignCommand(cmd, c.key, raw)
    case None => (next, None)
    case Some(tok) => (next, Some(Built(tok, cmd)))
  }

  /** The signed command is the one asked for, under its satellite's next counter, signed with the Ops key; other
      counters stay. It is built exactly when that command is valid. */
  lemma BuildDrawsNext(c: Signer, st: S.StoreState, mandateID: string, class_: string, body: string, issuedAt: int, raw: string)
    ensures var (next, built) := Build(c, st, mandateID, class_, body, issuedAt, raw);
            && S.Counter(next, CounterName(c.norad)) == S.Counter(st, CounterName(c.norad)) + 1
            && (forall name :: name != CounterName(c.norad) ==> S.Counter(next, name) == S.Counter(st, name))
            && (built.Some? <==> Command(c.norad, S.Counter(st, CounterName(c.norad)) + 1, mandateID, class_, body, issuedAt).Valid())
            && (built.Some? ==>
                  built.value.command == Command(c.norad, S.Counter(st, CounterName(c.norad)) + 1, mandateID, class_, body, issuedAt))
            && (built.Some? ==>
                  && SignCommand(built.value.command, c.key, raw) == Some(built.value.token)
                  && built.value.command.Valid() && built.value.command.norad == c.norad
                  && built.value.command.counter == S.Counter(next, CounterName(c.norad)))
  {
  }

  /** Each satellite has a counter of its own. */
  lemma OwnCounter(m: int, n: int)
    ensures CounterName(m) == CounterName(n) <==> m == n
  {
    var a, b := CounterName(m), CounterName(n);
    assert a[4..] == FormatInt(m) && b[4..] == FormatInt(n);
    if a == b {
      FormatIntInjective(m, n);
    }
  }
}
