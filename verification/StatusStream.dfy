/**
  The lossy status stream of src/cia402/subscribe.rs: a bounded queue whose
  sender counts what it has to drop and reports it in the stream, while the
  receiver takes items, or goes away, at any moment.
 */
module StatusStream {
  import opened Wrappers

  const U64_MAX: nat := 0xFFFF_FFFF_FFFF_FFFF

  datatype Item<T> = Sample(state: T) | Lagged(dropped: nat)

  /** The channel as both sides see it; `received` is what the receiver has taken so far. */
  datatype Channel<T> = Channel(received: seq<Item<T>>, queue: seq<Item<T>>, pending: nat, closed: bool)

  datatype Sent = Done | Full | Closed

  /** What the receiver does between two steps of the sender. */
  datatype Meanwhile = Meanwhile(takes: nat, drops: bool)

  /** How many of n queued items the receiver leaves. */
  function Left(n: nat, m: Meanwhile): nat {
    if m.takes < n then n - m.takes else 0
  }

  function SaturatingIncrement(n: nat): nat {
    if n >= U64_MAX then U64_MAX else n + 1
  }

  function Interleave<T>(c: Channel<T>, m: Meanwhile): Channel<T> {
    if c.closed then c
    else
      var k := if m.takes < |c.queue| then m.takes else |c.queue|;
      c.(received := c.received + c.queue[..k], queue := c.queue[k..], closed := m.drops)
  }

  function TrySend<T>(c: Channel<T>, item: Item<T>, capacity: nat): (Channel<T>, Sent) {
    if c.closed then (c, Closed)
    else if |c.queue| >= capacity then (c, Full)
    else (c.(queue := c.queue + [item]), Done)
  }

  /** The second half of a push: the sample itself. */
  function SendSample<T>(c: Channel<T>, s: T, capacity: nat): (Channel<T>, bool) {
    var (d, sent) := TrySend(c, Sample(s), capacity);
    match sent
    case Done => (d, true)
    case Full => (d.(pending := SaturatingIncrement(d.pending)), true)
    case Closed => (d, false)
  }

  /** One push, with the receiver active after the liveness check and after the loss report. */
  function Push<T>(c: Channel<T>, s: T, capacity: nat, first: Meanwhile, second: Meanwhile): (Channel<T>, bool) {
    if c.closed then (c, false)
    else
      var c1 := Interleave(c, first);
      if c1.pending == 0 then SendSample(c1, s, capacity)
      else
        var (c2, sent) := TrySend(c1, Lagged(c1.pending), capacity);
        match sent
        case Done => SendSample(Interleave(c2.(pending := 0), second), s, capacity)
        case Full => (c2.(pending := SaturatingIncrement(c2.pending)), true)
        case Closed => (c2, false)
  }

  class Subscriber<T> {
    const capacity: nat
    var received: seq<Item<T>>
    var queue: seq<Item<T>>
    var pendingLagged: nat
    var closed: bool

    function State(): Channel<T>
      reads this
    {
      Channel(received, queue, pendingLagged, closed)
    }

    constructor (requested: nat)
      ensures State() == Channel([], [], 0, false)
      ensures capacity == if requested == 0 then 1 else requested
    {
      capacity := if requested == 0 then 1 else requested;
      received, queue, pendingLagged, closed := [], [], 0, false;
    }

    /** The receiver takes up to `takes` items in order, and may drop its end. */
    method Receive(m: Meanwhile)
      modifies this
      ensures State() == Interleave(old(State()), m)
      ensures old(closed) ==> unchanged(this)
      ensures !old(closed) ==>
                && received + queue == old(received) + old(queue) && closed == m.drops
                && pendingLagged == old(pendingLagged) && |queue| == Left(|old(queue)|, m)
    {
      if !closed {
        var k := if m.takes < |queue| then m.takes else |queue|;
        received := received + queue[..k];
        queue := queue[k..];
        closed := m.drops;
      }
    }

    method Offer(item: Item<T>) returns (sent: Sent)
      modifies this
      ensures (State(), sent) == TrySend(old(State()), item, capacity)
    {
      if closed {
        return Closed;
      }
      if |queue| >= capacity {
        return Full;
      }
      queue := queue + [item];
      return Done;
    }

    method PushState(s: T, first: Meanwhile, second: Meanwhile) returns (keep: bool)
      modifies this
      ensures (State(), keep) == Push(old(State()), s, capacity, first, second)
    {
      if closed {
        return false;
      }
      Receive(first);
      if pendingLagged > 0 {
        var sent := Offer(Lagged(pendingLagged));
        match sent {
          case Done => pendingLagged := 0;
          case Full =>
            pendingLagged := SaturatingIncrement(pendingLagged);
            return true;
          case Closed => return false;
        }
        Receive(second);
      }
      var sent := Offer(Sample(s));
      match sent {
        case Done => return true;
        case Full =>
          pendingLagged := SaturatingIncrement(pendingLagged);
          return true;
        case Closed => return false;
      }
    }
  }

  // ---------------------------------------------------------------------
  // One push
  // ---------------------------------------------------------------------

  /** What a push adds to the stream, when the queue holds `left` items after the receiver's first chance. */
  function Added<T>(s: T, lost: nat, left: nat, capacity: nat, second: Meanwhile): seq<Item<T>> {
    if left >= capacity then []
    else if lost == 0 then [Sample(s)]
    else if Left(left + 1, second) < capacity then [Lagged(lost), Sample(s)]
    else [Lagged(lost)]
  }

  /**
    With no room in the queue the sample is counted as lost. Otherwise earlier losses
    are reported first, and the sample follows if there still is room, or is the first
    of the next losses. The subscriber is given up exactly if the receiver is found gone.
   */
  lemma {:induction false} PushExactly<T>(c: Channel<T>, s: T, capacity: nat, first: Meanwhile, second: Meanwhile)
    ensures var (d, keep) := Push(c, s, capacity, first, second);
            var left := Left(|c.queue|, first);
            && (keep <==> !c.closed && !first.drops && !(left < capacity && c.pending > 0 && second.drops))
            && (keep ==> d.received + d.queue == c.received + c.queue + Added(s, c.pending, left, capacity, second))
            && (keep ==> d.pending == if left < capacity then (if c.pending == 0 || Left(left + 1, second) < capacity
                                                                then 0 else 1)
                                      else if c.pending < 0xFFFF_FFFF_FFFF_FFFF then c.pending + 1
                                      else 0xFFFF_FFFF_FFFF_FFFF)
            && (!keep && c.closed ==> d == c)
  {
    if !c.closed && !first.drops {
      var c1 := Interleave(c, first);
      TakenIsPrefix(c, first);
      if |c1.queue| < capacity {
        if c1.pending == 0 {
          AppendKeeps(c1, Sample(s));
        } else {
          var c2 := c1.(queue := c1.queue + [Lagged(c1.pending)], pending := 0);
          AppendKeeps(c1, Lagged(c1.pending));
          TakenIsPrefix(c2, second);
          AppendKeeps(Interleave(c2, second), Sample(s));
        }
      }
    }
  }

  lemma {:induction false} TakenIsPrefix<T>(c: Channel<T>, m: Meanwhile)
    requires !c.closed
    ensures var d := Interleave(c, m);
            && d.received + d.queue == c.received + c.queue && |d.queue| == Left(|c.queue|, m)
            && d.closed == m.drops && d.pending == c.pending
  {
  }

  lemma {:induction false} AppendKeeps<T>(c: Channel<T>, item: Item<T>)
    ensures c.received + (c.queue + [item]) == c.received + c.queue + [item]
  {
  }

  // ---------------------------------------------------------------------
  // Loss accounting
  // ---------------------------------------------------------------------

  function Gaps<T>(n: nat): (r: seq<Option<T>>)
    ensures |r| == n && forall i :: 0 <= i < n ==> r[i] == None
  {
    seq(n, _ => None)
  }

  /** Every sample in its place and every loss as a gap. */
  function Expand<T>(items: seq<Item<T>>): seq<Option<T>> {
    if items == [] then []
    else
      var last := items[|items| - 1];
      Expand(items[..|items| - 1]) + match last case Sample(s) => [Some(s)] case Lagged(d) => Gaps(d)
  }

  /** What the receiver has been told or will be told, followed by losses not yet reported. */
  function Story<T>(c: Channel<T>): seq<Option<T>> {
    Expand(c.received + c.queue) + Gaps(c.pending)
  }

  /** The story is the pushed sequence with some entries replaced by gaps. */
  predicate Matches<T(==)>(story: seq<Option<T>>, pushed: seq<T>) {
    |story| == |pushed| && forall i :: 0 <= i < |story| && story[i].Some? ==> story[i].value == pushed[i]
  }

  predicate NoEmptyReport<T>(items: seq<Item<T>>) {
    forall i :: 0 <= i < |items| && items[i].Lagged? ==> items[i].dropped > 0
  }

  predicate Accounts<T(==)>(c: Channel<T>, pushed: seq<T>, capacity: nat) {
    && Matches(Story(c), pushed)
    && NoEmptyReport(c.received + c.queue)
    && |c.queue| <= capacity
  }

  lemma {:induction false} InterleaveKeepsStory<T>(c: Channel<T>, m: Meanwhile)
    ensures var d := Interleave(c, m);
            d.received + d.queue == c.received + c.queue && d.pending == c.pending && |d.queue| <= |c.queue|
  {
  }

  lemma {:induction false} ExpandAppend<T>(items: seq<Item<T>>, last: Item<T>)
    ensures Expand(items + [last]) == Expand(items) + match last case Sample(s) => [Some(s)] case Lagged(d) => Gaps(d)
  {
    assert (items + [last])[..|items|] == items;
  }

  lemma {:induction false} MatchesDropped<T>(told: seq<Option<T>>, pending: nat, pushed: seq<T>, s: T)
    requires Matches(told + Gaps(pending), pushed)
    ensures Matches(told + Gaps(pending + 1), pushed + [s])
  {
    assert Gaps<T>(pending + 1) == Gaps(pending) + [None];
    assert told + Gaps(pending + 1) == told + Gaps(pending) + [None];
  }

  lemma {:induction false} MatchesDelivered<T>(told: seq<Option<T>>, pushed: seq<T>, s: T)
    requires Matches(told + Gaps(0), pushed)
    ensures Matches(told + [Some(s)] + Gaps(0), pushed + [s])
  {
    assert told + Gaps(0) == told;
    assert told + [Some(s)] + Gaps(0) == told + [Some(s)];
  }

  /** The sample either joins the queue, or is counted; a closed channel takes nothing. */
  lemma {:induction false} SendSampleAccounts<T>(c: Channel<T>, s: T, capacity: nat, pushed: seq<T>)
    requires Accounts(c, pushed, capacity) && |pushed| < U64_MAX
    requires c.pending == 0
    ensures var (d, keep) := SendSample(c, s, capacity);
            && Accounts(d, if keep then pushed + [s] else pushed, capacity)
            && (keep ==> |c.queue| < capacity ==> d.pending == 0 && Delivered(d, s))
            && (!keep ==> d.closed)
  {
    var items := c.received + c.queue;
    if !c.closed {
      if |c.queue| < capacity {
        QueuedAccounts(c, s, capacity, pushed);
      } else {
        MatchesDropped(Expand(items), 0, pushed, s);
      }
    }
  }

  lemma {:induction false} QueuedAccounts<T>(c: Channel<T>, s: T, capacity: nat, pushed: seq<T>)
    requires Accounts(c, pushed, capacity) && c.pending == 0 && |c.queue| < capacity
    ensures var d := c.(queue := c.queue + [Sample(s)]);
            Accounts(d, pushed + [s], capacity) && Delivered(d, s)
  {
    var items := c.received + c.queue;
    assert c.received + (c.queue + [Sample(s)]) == items + [Sample(s)];
    ExpandAppend(items, Sample(s));
    MatchesDelivered(Expand(items), pushed, s);
  }

  /** The newest entry of the stream is this very sample. */
  predicate Delivered<T(==)>(c: Channel<T>, s: T) {
    var items := c.received + c.queue;
    items != [] && items[|items| - 1] == Sample(s)
  }

  lemma {:induction false} ReportAccounts<T>(c: Channel<T>, capacity: nat, pushed: seq<T>)
    requires Accounts(c, pushed, capacity) && c.pending > 0 && !c.closed && |c.queue| < capacity
    ensures Accounts(c.(queue := c.queue + [Lagged(c.pending)], pending := 0), pushed, capacity)
  {
    var items := c.received + c.queue;
    assert c.received + (c.queue + [Lagged(c.pending)]) == items + [Lagged(c.pending)];
    ExpandAppend(items, Lagged(c.pending));
    assert Expand(items) + Gaps(c.pending) + Gaps(0) == Expand(items) + Gaps(c.pending);
  }

  lemma {:induction false} InterleaveAccounts<T>(c: Channel<T>, m: Meanwhile, capacity: nat, pushed: seq<T>)
    requires Accounts(c, pushed, capacity)
    ensures Accounts(Interleave(c, m), pushed, capacity)
  {
    InterleaveKeepsStory(c, m);
  }

  /**
    One push, whatever the receiver does meanwhile: the account stays exact; and
    with two free slots, or one when nothing was lost before, every loss is
    reported and the sample itself is in the stream.
   */
  lemma {:induction false} PushAccounts<T>(c: Channel<T>, s: T, capacity: nat, first: Meanwhile, second: Meanwhile,
                                          pushed: seq<T>)
    requires Accounts(c, pushed, capacity) && |pushed| < U64_MAX
    ensures var (d, keep) := Push(c, s, capacity, first, second);
            && Accounts(d, if keep then pushed + [s] else pushed, capacity)
            && (!keep ==> d.closed)
            && (keep && |c.queue| + (if c.pending == 0 then 1 else 2) <= capacity ==> d.pending == 0 && Delivered(d, s))
  {
    if !c.closed {
      var c1 := Interleave(c, first);
      InterleaveKeepsStory(c, first);
      InterleaveAccounts(c, first, capacity, pushed);
      if c1.pending == 0 {
        SendSampleAccounts(c1, s, capacity, pushed);
      } else if !c1.closed && |c1.queue| < capacity {
        ReportAccounts(c1, capacity, pushed);
        var c2 := c1.(queue := c1.queue + [Lagged(c1.pending)], pending := 0);
        InterleaveKeepsStory(c2, second);
        InterleaveAccounts(c2, second, capacity, pushed);
        SendSampleAccounts(Interleave(c2, second), s, capacity, pushed);
      } else if !c1.closed {
        MatchesDropped(Expand(c1.received + c1.queue), c1.pending, pushed, s);
      }
    }
  }

  // ---------------------------------------------------------------------
  // Whole runs
  // ---------------------------------------------------------------------

  datatype Event<T> = Pushes(state: T, first: Meanwhile, second: Meanwhile) | Receives(m: Meanwhile)

  /** The channel, and the states whose push was accepted. */
  datatype History<T> = History(channel: Channel<T>, pushed: seq<T>)

  function Next<T>(h: History<T>, e: Event<T>, capacity: nat): History<T> {
    match e
    case Pushes(s, first, second) =>
      var (d, keep) := Push(h.channel, s, capacity, first, second);
      History(d, if keep then h.pushed + [s] else h.pushed)
    case Receives(m) => h.(channel := Interleave(h.channel, m))
  }

  function Run<T>(capacity: nat, events: seq<Event<T>>): History<T> {
    if events == [] then History(Channel([], [], 0, false), [])
    else Next(Run(capacity, events[..|events| - 1]), events[|events| - 1], capacity)
  }

  lemma {:induction false} NextAccounts<T>(h: History<T>, e: Event<T>, capacity: nat)
    requires Accounts(h.channel, h.pushed, capacity) && |h.pushed| < U64_MAX
    ensures Accounts(Next(h, e, capacity).channel, Next(h, e, capacity).pushed, capacity)
    ensures |Next(h, e, capacity).pushed| <= |h.pushed| + 1
  {
    match e
    case Pushes(s, first, second) => PushAccounts(h.channel, s, capacity, first, second, h.pushed);
    case Receives(m) => InterleaveAccounts(h.channel, m, capacity, h.pushed);
  }

  /**
    At all times, and up to 2^64 - 1 events: the stream tells the pushed sequence
    exactly, in order, with every loss counted, never reports an empty loss, and
    never holds more than its capacity.
   */
  lemma {:induction false} RunAccounts<T>(capacity: nat, events: seq<Event<T>>)
    requires |events| <= U64_MAX
    ensures Accounts(Run(capacity, events).channel, Run(capacity, events).pushed, capacity)
    ensures |Run(capacity, events).pushed| <= |events|
  {
    if events == [] {
      assert Expand<T>([] + []) + Gaps(0) == [];
    } else {
      RunAccounts(capacity, events[..|events| - 1]);
      NextAccounts(Run(capacity, events[..|events| - 1]), events[|events| - 1], capacity);
    }
  }
}
