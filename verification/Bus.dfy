/** The in-process event bus (internal/bus/bus.go). Channels are numbered in the order they were made. */
module Bus {
  import opened Errs

  const CHANNEL_SIZE := 64

  datatype Event = Event(id: nat, ts: int, body: string)

  /** A buffered channel; `closes` counts the calls to close, of which a second would panic. */
  datatype Channel = Channel(buffer: seq<Event>, closes: nat)

  datatype BusState = BusState(nextID: nat, backlog: seq<Event>, size: nat, maxSubs: int, subs: set<nat>, closed: bool,
                               channels: map<nat, Channel>, made: nat)
  {
    /** Subscribers hold channels that were made. */
    predicate Valid() { subs <= channels.Keys && forall c :: c in channels ==> c < made }
  }

  function New(size: nat, maxSubs: int): BusState { BusState(0, [], size, maxSubs, {}, false, map[], 0) }

  // ------------------------------------------------------------ operations

  function LastOf<T>(s: seq<T>, n: nat): seq<T> { if |s| > n then s[|s| - n..] else s }

  predicate HasRoom(c: Channel) { |c.buffer| < CHANNEL_SIZE }

  /** A send that does not block: a full channel is closed instead. */
  function Deliver(c: Channel, e: Event): Channel {
    if HasRoom(c) then c.(buffer := c.buffer + [e]) else c.(closes := c.closes + 1)
  }

  function DeliverTo(channels: map<nat, Channel>, cs: set<nat>, e: Event): map<nat, Channel> {
    map c | c in channels :: if c in cs then Deliver(channels[c], e) else channels[c]
  }

  /** The subscribers that can take one more event. */
  function WithRoom(channels: map<nat, Channel>, cs: set<nat>): set<nat> {
    set c | c in cs && c in channels && HasRoom(channels[c])
  }

  function CloseAll(channels: map<nat, Channel>, cs: set<nat>): map<nat, Channel> {
    map c | c in channels :: if c in cs then channels[c].(closes := channels[c].closes + 1) else channels[c]
  }

  /** None is the rejection of an event that does not encode. */
  function Publish(b: BusState, e: Event, encodes: bool, now: int): (BusState, Option<Event>)
    requires b.Valid()
  {
    if b.closed then (b, Some(e))
    else if !encodes then (b, None)
    else
      var sent := Event(b.nextID + 1, if e.ts == 0 then now else e.ts, e.body);
      (b.(nextID := b.nextID + 1, backlog := LastOf(b.backlog + [sent], b.size),
          subs := WithRoom(b.channels, b.subs), channels := DeliverTo(b.channels, b.subs, sent)),
       Some(sent))
  }

  function After(es: seq<Event>, id: nat): seq<Event> {
    if es == [] then [] else if es[0].id > id then [es[0]] + After(es[1..], id) else After(es[1..], id)
  }

  datatype Subscription = Subscription(backlog: seq<Event>, channel: nat)

  /** An id beyond the newest came from an earlier boot: the whole backlog is replayed. */
  function Subscribe(b: BusState, afterID: nat): (BusState, Result<Subscription>) {
    if b.closed || |b.subs| >= b.maxSubs then (b, Err(Unavailable))
    else
      var after := if afterID > b.nextID then 0 else afterID;
      (b.(subs := b.subs + {b.made}, channels := b.channels[b.made := Channel([], 0)], made := b.made + 1),
       Ok(Subscription(After(b.backlog, after), b.made)))
  }

  function Unsubscribe(b: BusState, c: nat): BusState {
    if c in b.subs && c in b.channels
    then b.(subs := b.subs - {c}, channels := b.channels[c := b.channels[c].(closes := b.channels[c].closes + 1)])
    else b
  }

  function Shut(b: BusState): BusState {
    b.(closed := true, subs := {}, channels := CloseAll(b.channels, b.subs))
  }

  /** The subscriber reads its channel. */
  function Receive(b: BusState, c: nat): (BusState, Option<Event>) {
    if c in b.channels && b.channels[c].buffer != []
    then (b.(channels := b.channels[c := b.channels[c].(buffer := b.channels[c].buffer[1..])]), Some(b.channels[c].buffer[0]))
    else (b, None)
  }

  class Bus {
    var nextID: nat
    var backlog: seq<Event>
    const size: nat
    const maxSubs: int
    var subs: set<nat>
    var closed: bool
    var channels: map<nat, Channel>
    var made: nat

    function State(): BusState
      reads this
    {
      BusState(nextID, backlog, size, maxSubs, subs, closed, channels, made)
    }

    constructor (size: nat, maxSubs: int)
      ensures State() == New(size, maxSubs)
    {
      this.size, this.maxSubs := size, maxSubs;
      nextID, backlog, subs, closed, channels, made := 0, [], {}, false, map[], 0;
    }

    method PublishEvent(e: Event, encodes: bool, now: int) returns (r: Option<Event>)
      requires State().Valid()
      modifies this
      ensures (State(), r) == Publish(old(State()), e, encodes, now)
    {
      if closed {
        return Some(e);
      }
      if !encodes {
        return None;
      }
      nextID := nextID + 1;
      var sent := Event(nextID, if e.ts == 0 then now else e.ts, e.body);
      backlog := backlog + [sent];
      if |backlog| > size {
        backlog := backlog[|backlog| - size..];
      }
      Fan(sent);
      ghost var spec := Publish(old(State()), e, encodes, now).0;
      assert backlog == spec.backlog;
      assert subs == spec.subs && channels == spec.channels;
      return Some(sent);
    }

    method Fan(e: Event)
      requires subs <= channels.Keys
      modifies this`subs, this`channels
      ensures subs == WithRoom(old(channels), old(subs))
      ensures channels == DeliverTo(old(channels), old(subs), e)
    {
      var todo := subs;
      while todo != {}
        invariant todo <= old(subs)
        invariant subs == set c | c in old(subs) && (c in todo || HasRoom(old(channels)[c]))
        invariant channels == DeliverTo(old(channels), old(subs) - todo, e)
        decreases |todo|
      {
        var c :| c in todo;
        if |channels[c].buffer| < CHANNEL_SIZE {
          channels := channels[c := channels[c].(buffer := channels[c].buffer + [e])];
        } else {
          subs := subs - {c};
          channels := channels[c := channels[c].(closes := channels[c].closes + 1)];
        }
        todo := todo - {c};
      }
      assert old(subs) - {} == old(subs);
    }

    method Open(afterID: nat) returns (r: Result<Subscription>)
      modifies this
      ensures (State(), r) == Subscribe(old(State()), afterID)
    {
      if closed || |subs| >= maxSubs {
        return Err(Unavailable);
      }
      var after := if afterID > nextID then 0 else afterID;
      var missed := [];
      for i := 0 to |backlog|
        invariant missed + After(backlog[i..], after) == After(backlog, after)
      {
        assert backlog[i..][0] == backlog[i] && backlog[i..][1..] == backlog[i + 1..];
        if backlog[i].id > after {
          missed := missed + [backlog[i]];
        }
      }
      assert missed == After(backlog, after);
      subs := subs + {made};
      channels := channels[made := Channel([], 0)];
      made := made + 1;
      return Ok(Subscription(missed, made - 1));
    }

    method Cancel(c: nat)
      modifies this
      ensures State() == Unsubscribe(old(State()), c)
    {
      if c in subs && c in channels {
        subs := subs - {c};
        channels := channels[c := channels[c].(closes := channels[c].closes + 1)];
      }
    }

    method Close()
      requires State().Valid()
      modifies this
      ensures State() == Shut(old(State()))
    {
      closed := true;
      while subs != {}
        invariant subs <= old(subs) && closed && unchanged(this`nextID, this`backlog, this`made)
        invariant channels == CloseAll(old(channels), old(subs) - subs)
        decreases |subs|
      {
        var c :| c in subs;
        subs := subs - {c};
        channels := channels[c := channels[c].(closes := channels[c].closes + 1)];
      }
      assert old(subs) - {} == old(subs);
    }
  }

  // ------------------------------------------------------------- whole runs

  datatype Action =
    | DoPublish(e: Event, encodes: bool, now: int)
    | DoSubscribe(afterID: nat)
    | DoCancel(c: nat)
    | DoClose
    | DoReceive(c: nat)

  /** What one subscriber has got: the log position it started at, and the events it was given or has read. */
  datatype Reader = Reader(from: nat, got: seq<Event>)

  /** `log` is everything ever published. */
  datatype World = World(bus: BusState, log: seq<Event>, readers: map<nat, Reader>)

  function Init(size: nat, maxSubs: int): World { World(New(size, maxSubs), [], map[]) }

  function Start(log: seq<Event>, backlog: seq<Event>): nat { if |backlog| <= |log| then |log| - |backlog| else 0 }

  function Step(w: World, a: Action): World
    requires w.bus.Valid()
  {
    match a
    case DoPublish(e, encodes, now) =>
      var (bus, r) := Publish(w.bus, e, encodes, now);
      w.(bus := bus, log := if r.Some? && !w.bus.closed then w.log + [r.value] else w.log)
    case DoSubscribe(afterID) =>
      var (bus, r) := Subscribe(w.bus, afterID);
      w.(bus := bus, readers := if r.Ok? then w.readers[r.value.channel := Reader(Start(w.log, r.value.backlog), r.value.backlog)]
                                else w.readers)
    case DoCancel(c) => w.(bus := Unsubscribe(w.bus, c))
    case DoClose => w.(bus := Shut(w.bus))
    case DoReceive(c) =>
      var (bus, r) := Receive(w.bus, c);
      w.(bus := bus, readers := if r.Some? && c in w.readers then w.readers[c := w.readers[c].(got := w.readers[c].got + [r.value])]
                                else w.readers)
  }

  function Run(w: World, acts: seq<Action>): World
    requires w.bus.Valid()
    decreases |acts|
  {
    if acts == [] then w else StepValid(w, acts[0]); Run(Step(w, acts[0]), acts[1..])
  }

  lemma StepValid(w: World, a: Action)
    requires w.bus.Valid()
    ensures Step(w, a).bus.Valid()
  {
    match a {
      case DoPublish(e, encodes, now) => PublishValid(w.bus, e, encodes, now);
      case DoSubscribe(afterID) => SubscribeValid(w.bus, afterID);
      case DoCancel(c) => CancelValid(w.bus, c);
      case DoClose => CloseValid(w.bus);
      case DoReceive(c) => ReceiveValid(w.bus, c);
    }
  }

  lemma PublishValid(b: BusState, e: Event, encodes: bool, now: int)
    requires b.Valid()
    ensures Publish(b, e, encodes, now).0.Valid()
  {
  }

  lemma SubscribeValid(b: BusState, afterID: nat)
    requires b.Valid()
    ensures Subscribe(b, afterID).0.Valid()
  {
  }

  lemma CancelValid(b: BusState, c: nat)
    requires b.Valid()
    ensures Unsubscribe(b, c).Valid()
  {
  }

  lemma CloseValid(b: BusState)
    requires b.Valid()
    ensures Shut(b).Valid()
  {
  }

  lemma ReceiveValid(b: BusState, c: nat)
    requires b.Valid()
    ensures Receive(b, c).0.Valid()
  {
  }

  /** What the reader got, then what waits in its channel, is one stretch of the log; an open channel's stretch reaches
      the end of the log, and a channel that is no longer subscribed was closed exactly once. */
  ghost predicate Contiguous(log: seq<Event>, r: Reader, c: Channel, open: bool) {
    && r.from + |r.got| + |c.buffer| <= |log|
    && r.got + c.buffer == log[r.from..r.from + |r.got| + |c.buffer|]
    && c.closes == (if open then 0 else 1) && (open ==> r.from + |r.got| + |c.buffer| == |log|)
  }

  ghost predicate LogOK(b: BusState, log: seq<Event>) {
    b.nextID == |log| && (forall i :: 0 <= i < |log| ==> log[i].id == i + 1) && b.backlog == LastOf(log, b.size)
  }

  ghost predicate Inv(w: World) {
    && w.bus.Valid() && LogOK(w.bus, w.log) && w.readers.Keys == w.bus.channels.Keys && (w.bus.closed ==> w.bus.subs == {})
    && forall c :: c in w.bus.channels ==> Contiguous(w.log, w.readers[c], w.bus.channels[c], c in w.bus.subs)
  }

  // ----------------------------------------------------------- each action

  lemma LastOfAppend<T>(s: seq<T>, x: T, n: nat)
    ensures LastOf(LastOf(s, n) + [x], n) == LastOf(s + [x], n)
  {
  }

  lemma Delivered(log: seq<Event>, e: Event, r: Reader, c: Channel, open: bool)
    requires Contiguous(log, r, c, open)
    ensures Contiguous(log + [e], r, if open then Deliver(c, e) else c, open && HasRoom(c))
  {
    var n := r.from + |r.got| + |c.buffer|;
    assert (log + [e])[r.from..n] == log[r.from..n];
    if open && HasRoom(c) {
      assert r.got + (c.buffer + [e]) == (r.got + c.buffer) + [e];
      assert (log + [e])[r.from..n + 1] == log[r.from..n] + [e];
    }
  }

  lemma PublishKeeps(w: World, e: Event, encodes: bool, now: int)
    requires Inv(w)
    ensures Inv(Step(w, DoPublish(e, encodes, now)))
  {
    var next := Step(w, DoPublish(e, encodes, now));
    if !w.bus.closed && encodes {
      var sent := next.log[|w.log|];
      LastOfAppend(w.log, sent, w.bus.size);
      assert next.log == w.log + [sent];
      forall c | c in w.bus.channels
        ensures Contiguous(next.log, next.readers[c], next.bus.channels[c], c in next.bus.subs)
      {
        Delivered(w.log, sent, w.readers[c], w.bus.channels[c], c in w.bus.subs);
      }
    }
  }

  /** With ids in order, what comes after an id is the tail from there. */
  lemma {:induction false} AfterIsTail(log: seq<Event>, k: nat, id: nat)
    requires k <= |log| && (forall i :: 0 <= i < |log| ==> log[i].id == i + 1)
    ensures After(log[k..], id) == log[if id <= k then k else if id <= |log| then id else |log|..]
    decreases |log| - k
  {
    if k < |log| {
      assert log[k..][0] == log[k] && log[k..][1..] == log[k + 1..];
      AfterIsTail(log, k + 1, id);
      if id <= k {
        assert log[k..] == [log[k]] + log[k + 1..];
      }
    }
  }

  /** Where in the log a subscriber starts. */
  function StartsAt(n: nat, size: nat, afterID: nat): nat {
    var after := if afterID > n then 0 else afterID;
    if n - after > size then n - size else after
  }

  lemma Replayed(b: BusState, log: seq<Event>, afterID: nat)
    requires LogOK(b, log)
    ensures var after := if afterID > b.nextID then 0 else afterID;
            After(b.backlog, after) == log[StartsAt(|log|, b.size, afterID)..]
  {
    var after := if afterID > b.nextID then 0 else afterID;
    var k := if |log| > b.size then |log| - b.size else 0;
    assert b.backlog == log[k..];
    AfterIsTail(log, k, after);
  }

  lemma SubscribeKeeps(w: World, afterID: nat)
    requires Inv(w)
    ensures Inv(Step(w, DoSubscribe(afterID)))
  {
    var s := StartsAt(|w.log|, w.bus.size, afterID);
    if Subscribe(w.bus, afterID).1.Ok? {
      SubscribeIs(w, afterID);
      ReaderAdded(w, s);
    }
  }

  lemma SubscribeIs(w: World, afterID: nat)
    requires w.bus.Valid() && LogOK(w.bus, w.log) && Subscribe(w.bus, afterID).1.Ok?
    ensures var s := StartsAt(|w.log|, w.bus.size, afterID);
            Step(w, DoSubscribe(afterID)) ==
              World(w.bus.(subs := w.bus.subs + {w.bus.made}, channels := w.bus.channels[w.bus.made := Channel([], 0)],
                           made := w.bus.made + 1),
                    w.log, w.readers[w.bus.made := Reader(s, w.log[s..])])
  {
    Replayed(w.bus, w.log, afterID);
  }

  lemma ReaderAdded(w: World, s: nat)
    requires Inv(w) && !w.bus.closed && s <= |w.log|
    ensures Inv(World(w.bus.(subs := w.bus.subs + {w.bus.made}, channels := w.bus.channels[w.bus.made := Channel([], 0)],
                             made := w.bus.made + 1),
                      w.log, w.readers[w.bus.made := Reader(s, w.log[s..])]))
  {
    assert Contiguous(w.log, Reader(s, w.log[s..]), Channel([], 0), true);
  }

  lemma CancelKeeps(w: World, c: nat)
    requires Inv(w)
    ensures Inv(Step(w, DoCancel(c)))
  {
  }

  lemma CloseKeeps(w: World)
    requires Inv(w)
    ensures Inv(Step(w, DoClose))
  {
  }

  lemma Received(log: seq<Event>, r: Reader, c: Channel, open: bool)
    requires Contiguous(log, r, c, open) && c.buffer != []
    ensures Contiguous(log, r.(got := r.got + [c.buffer[0]]), c.(buffer := c.buffer[1..]), open)
  {
    assert r.got + [c.buffer[0]] + c.buffer[1..] == r.got + c.buffer;
  }

  lemma ReceiveKeeps(w: World, c: nat)
    requires Inv(w)
    ensures Inv(Step(w, DoReceive(c)))
  {
    if c in w.bus.channels && w.bus.channels[c].buffer != [] {
      Received(w.log, w.readers[c], w.bus.channels[c], c in w.bus.subs);
    }
  }

  lemma {:induction false} RunKeeps(w: World, acts: seq<Action>)
    requires Inv(w)
    ensures Inv(Run(w, acts))
    decreases |acts|
  {
    if acts != [] {
      match acts[0] {
        case DoPublish(e, encodes, now) => PublishKeeps(w, e, encodes, now);
        case DoSubscribe(afterID) => SubscribeKeeps(w, afterID);
        case DoCancel(c) => CancelKeeps(w, c);
        case DoClose => CloseKeeps(w);
        case DoReceive(c) => ReceiveKeeps(w, c);
      }
      RunKeeps(Step(w, acts[0]), acts[1..]);
    }
  }

  // ------------------------------------------------------------- guarantees

  /** In every run, what a subscriber got and what waits for it are consecutive events of the log, each with the next
      id; and its channel is closed at most once, and exactly when it is no longer subscribed. */
  lemma SubscribersReadTheLog(size: nat, maxSubs: int, acts: seq<Action>, c: nat)
    requires c in Run(Init(size, maxSubs), acts).bus.channels
    ensures var w := Run(Init(size, maxSubs), acts);
            && c in w.readers
            && var es := w.readers[c].got + w.bus.channels[c].buffer;
               && w.readers[c].from + |es| <= |w.log| && es == w.log[w.readers[c].from..w.readers[c].from + |es|]
               && (forall i :: 0 <= i < |es| ==> es[i].id == w.readers[c].from + 1 + i)
               && (c in w.bus.subs ==> w.readers[c].from + |es| == |w.log|)
               && w.bus.channels[c].closes <= 1 && (w.bus.channels[c].closes == 0 <==> c in w.bus.subs)
  {
    RunKeeps(Init(size, maxSubs), acts);
    var w := Run(Init(size, maxSubs), acts);
    assert Contiguous(w.log, w.readers[c], w.bus.channels[c], c in w.bus.subs);
  }

  /** A subscriber that gives the id of the last event it saw is replayed everything since, exactly when at most
      `size` events are newer. */
  lemma ResumeMissesNothing(size: nat, maxSubs: int, acts: seq<Action>, lastID: nat)
    requires var w := Run(Init(size, maxSubs), acts);
             lastID <= |w.log| && Subscribe(w.bus, lastID).1.Ok?
    ensures var w := Run(Init(size, maxSubs), acts);
            Subscribe(w.bus, lastID).1.value.backlog == w.log[lastID..] <==> |w.log| - lastID <= size
  {
    RunKeeps(Init(size, maxSubs), acts);
    var w := Run(Init(size, maxSubs), acts);
    SizeStays(Init(size, maxSubs), acts);
    Replayed(w.bus, w.log, lastID);
  }

  lemma {:induction false} SizeStays(w: World, acts: seq<Action>)
    requires w.bus.Valid()
    ensures Run(w, acts).bus.size == w.bus.size
    decreases |acts|
  {
    if acts != [] {
      StepValid(w, acts[0]);
      SizeStays(Step(w, acts[0]), acts[1..]);
    }
  }

  // ------------------------------------------------------- what each call does

  /** A published event gets the next id, its own time or now if it has none, and its own body. Every subscriber gets it,
      except one with 64 events waiting, which is closed and dropped. A closed bus and an event that does not encode
      change nothing. */
  lemma PublishExactly(b: BusState, e: Event, encodes: bool, now: int)
    requires b.Valid()
    ensures var (next, r) := Publish(b, e, encodes, now);
            && (r.None? <==> !b.closed && !encodes) && (b.closed || !encodes ==> next == b)
            && (b.closed ==> r == Some(e))
            && (!b.closed && encodes ==>
                  && r.Some? && r.value.id == b.nextID + 1 == next.nextID && r.value.body == e.body
                  && r.value.ts == (if e.ts == 0 then now else e.ts)
                  && (forall c :: c in next.subs <==> c in b.subs && |b.channels[c].buffer| < 64)
                  && (forall c :: c in b.subs ==>
                        if |b.channels[c].buffer| < 64 then next.channels[c] == b.channels[c].(buffer := b.channels[c].buffer + [r.value])
                        else next.channels[c] == b.channels[c].(closes := b.channels[c].closes + 1))
                  && (forall c :: c in b.channels && c !in b.subs ==> next.channels[c] == b.channels[c]))
  {
  }

  /** A subscription is refused exactly when the bus is closed or full; otherwise it opens an empty channel of its own. */
  lemma SubscribeExactly(b: BusState, afterID: nat)
    requires b.Valid()
    ensures var (next, r) := Subscribe(b, afterID);
            && (r.Ok? <==> !b.closed && |b.subs| < b.maxSubs) && (r.Err? ==> r.code == Unavailable && next == b)
            && (r.Ok? ==>
                  && r.value.channel !in b.channels && r.value.channel in next.subs
                  && next.channels == b.channels[r.value.channel := Channel([], 0)]
                  && next.subs == b.subs + {r.value.channel} && next.backlog == b.backlog && next.nextID == b.nextID)
  {
  }

  /** Closing ends everything: whatever is tried afterwards, nobody is subscribed and nothing is published. */
  lemma {:induction false} ClosedForGood(w: World, acts: seq<Action>)
    requires w.bus.Valid() && w.bus.closed && w.bus.subs == {}
    ensures var end := Run(w, acts); end.bus.closed && end.bus.subs == {} && end.log == w.log
    decreases |acts|
  {
    if acts != [] {
      StepValid(w, acts[0]);
      ClosedForGood(Step(w, acts[0]), acts[1..]);
    }
  }

  lemma CloseEndsAll(w: World, acts: seq<Action>)
    requires w.bus.Valid()
    ensures Step(w, DoClose).bus.Valid()
    ensures var closed := Step(w, DoClose);
            var end := Run(closed, acts);
            && end.bus.subs == {} && end.log == w.log
            && (forall c :: c in w.bus.subs ==> closed.bus.channels[c] == w.bus.channels[c].(closes := w.bus.channels[c].closes + 1))
            && (forall c :: c in w.bus.channels && c !in w.bus.subs ==> closed.bus.channels[c] == w.bus.channels[c])
  {
    StepValid(w, DoClose);
    ClosedForGood(Step(w, DoClose), acts);
  }

  /** Cancelling closes that channel once and drops that subscriber alone; a second time it does nothing. */
  lemma CancelExactly(b: BusState, c: nat)
    requires b.Valid()
    ensures var next := Unsubscribe(b, c);
            && next.subs == b.subs - {c} && next.channels.Keys == b.channels.Keys && next.(subs := b.subs, channels := b.channels) == b
            && (forall d :: d in b.channels ==>
                  next.channels[d] == if d == c && c in b.subs then b.channels[d].(closes := b.channels[d].closes + 1) else b.channels[d])
            && Unsubscribe(next, c) == next
  {
  }
}
