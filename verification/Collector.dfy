/** debug-collector.js: three bounded buffers, reports that take everything, and failures that put it back. Entries
    of a buffer are named by the order in which they were pushed into it. */
module Collector {
  const CONSOLE_SIZE: nat := 500
  const NETWORK_SIZE: nat := 200
  const UI_SIZE: nat := 500

  /** One buffer with the accounts of everything that went through it. Report number i took inFlight[i], which
      is empty again once the report has settled. */
  datatype Channel = Channel(
    cap: nat,
    pushed: nat,
    buffered: seq<nat>,
    inFlight: seq<seq<nat>>,
    delivered: seq<nat>,
    dropped: seq<nat>)

  /** The page's store, and the reports that have not settled. */
  datatype Store = Store(console: Channel, network: Channel, ui: Channel, open: set<nat>)

  datatype Kind = Console | Network | Ui

  datatype Event = Logged(kind: Kind) | Reported | Settled(id: nat, ok: bool)

  // ---------------------------------------------------------------- one buffer

  function Excess(buffer: seq<nat>, cap: nat): nat {
    if |buffer| > cap then |buffer| - cap else 0
  }

  function Push(c: Channel): Channel {
    var all: seq<nat> := c.buffered + [c.pushed];
    var n := Excess(all, c.cap);
    c.(pushed := c.pushed + 1, buffered := all[n..], dropped := c.dropped + all[..n])
  }

  function Take(c: Channel): Channel {
    c.(buffered := [], inFlight := c.inFlight + [c.buffered])
  }

  function Deliver(c: Channel, id: nat): Channel
    requires id < |c.inFlight|
  {
    c.(delivered := c.delivered + c.inFlight[id], inFlight := c.inFlight[id := []])
  }

  function PutBack(c: Channel, id: nat): Channel
    requires id < |c.inFlight|
  {
    var all: seq<nat> := c.inFlight[id] + c.buffered;
    var n := Excess(all, c.cap);
    c.(buffered := all[n..], inFlight := c.inFlight[id := []], dropped := c.dropped + all[..n])
  }

  function Settle(c: Channel, id: nat, ok: bool): Channel
    requires id < |c.inFlight|
  {
    if ok then Deliver(c, id) else PutBack(c, id)
  }

  // ---------------------------------------------------------------- the store

  function Empty(cap: nat): Channel {
    Channel(cap, 0, [], [], [], [])
  }

  function Start(): Store {
    Store(Empty(CONSOLE_SIZE), Empty(NETWORK_SIZE), Empty(UI_SIZE), {})
  }

  /** All three buffers know the same reports. */
  predicate Aligned(s: Store) {
    && |s.console.inFlight| == |s.network.inFlight| == |s.ui.inFlight|
    && forall id :: id in s.open ==> id < |s.ui.inFlight|
  }

  function Apply(s: Store, e: Event): Store
    requires Aligned(s)
  {
    match e
    case Logged(Console) => s.(console := Push(s.console))
    case Logged(Network) => s.(network := Push(s.network))
    case Logged(Ui) => s.(ui := Push(s.ui))
    case Reported =>
      if s.console.buffered == [] && s.network.buffered == [] && s.ui.buffered == [] then s
      else Store(Take(s.console), Take(s.network), Take(s.ui), s.open + {|s.ui.inFlight|})
    case Settled(id, ok) =>
      if id !in s.open then s
      else Store(Settle(s.console, id, ok), Settle(s.network, id, ok), Settle(s.ui, id, ok), s.open - {id})
  }

  function Run(events: seq<Event>): (s: Store)
    ensures Aligned(s)
  {
    if events == [] then Start() else Apply(Run(events[..|events| - 1]), events[|events| - 1])
  }

  /** Holds of all three buffers. */
  ghost predicate Each(s: Store, p: Channel -> bool) {
    p(s.console) && p(s.network) && p(s.ui)
  }

  // ---------------------------------------------------------------- conservation

  function Flat(parts: seq<seq<nat>>): seq<nat> {
    if parts == [] then [] else Flat(parts[..|parts| - 1]) + parts[|parts| - 1]
  }

  /** Every place an entry can be in. */
  function Everywhere(c: Channel): multiset<nat> {
    multiset(c.delivered) + multiset(Flat(c.inFlight)) + multiset(c.buffered) + multiset(c.dropped)
  }

  /** Each entry pushed so far is in exactly one place once, no other entry is anywhere, and the cap is kept. */
  ghost predicate Accounted(c: Channel) {
    && |c.buffered| <= c.cap
    && forall e: nat :: Everywhere(c)[e] == if e < c.pushed then 1 else 0
  }

  lemma SplitsAt(all: seq<nat>, n: nat)
    requires n <= |all|
    ensures multiset(all) == multiset(all[..n]) + multiset(all[n..])
  {
    assert all == all[..n] + all[n..];
  }

  lemma {:induction false} FlatUpdate(parts: seq<seq<nat>>, id: nat)
    requires id < |parts|
    ensures multiset(Flat(parts)) == multiset(Flat(parts[id := []])) + multiset(parts[id])
  {
    var last := |parts| - 1;
    var front := parts[..last];
    var updated := parts[id := []];
    if id == last {
      assert updated[..last] == front;
    } else {
      FlatUpdate(front, id);
      assert updated[..last] == front[id := []] && updated[last] == parts[last];
      assert Flat(updated) == Flat(front[id := []]) + parts[last];
    }
  }

  /** The buffer and the dropped entries exchange some, and the buffer may gain new ones. */
  lemma Regroup(delivered: multiset<nat>, flying: multiset<nat>, buffer: multiset<nat>, dropped: multiset<nat>,
                buffer': multiset<nat>, dropped': multiset<nat>, added: multiset<nat>)
    requires buffer' + dropped' == buffer + added + dropped
    ensures delivered + flying + buffer' + dropped' == delivered + flying + buffer + dropped + added
  {
    assert delivered + flying + buffer' + dropped' == delivered + flying + (buffer' + dropped');
  }

  /** Pruning moves entries from the buffer to the dropped ones. */
  lemma PruningMoves(all: seq<nat>, n: nat, dropped: seq<nat>)
    requires n <= |all|
    ensures multiset(all[n..]) + multiset(dropped + all[..n]) == multiset(all) + multiset(dropped)
  {
    SplitsAt(all, n);
    assert multiset(dropped + all[..n]) == multiset(dropped) + multiset(all[..n]);
  }

  lemma PushAccounts(c: Channel)
    requires Accounted(c)
    ensures Accounted(Push(c))
  {
    var all: seq<nat> := c.buffered + [c.pushed];
    var d := Push(c);
    PruningMoves(all, Excess(all, c.cap), c.dropped);
    assert multiset(all) == multiset(c.buffered) + multiset{c.pushed};
    Regroup(multiset(c.delivered), multiset(Flat(c.inFlight)), multiset(c.buffered), multiset(c.dropped),
            multiset(d.buffered), multiset(d.dropped), multiset{c.pushed});
    assert Everywhere(d) == Everywhere(c) + multiset{c.pushed};
  }

  lemma TakeAccounts(c: Channel)
    requires Accounted(c)
    ensures Accounted(Take(c))
  {
    assert (c.inFlight + [c.buffered])[..|c.inFlight|] == c.inFlight;
    assert Everywhere(Take(c)) == Everywhere(c);
  }

  lemma SettleAccounts(c: Channel, id: nat, ok: bool)
    requires Accounted(c) && id < |c.inFlight|
    ensures Accounted(Settle(c, id, ok))
  {
    var d := Settle(c, id, ok);
    FlatUpdate(c.inFlight, id);
    if ok {
      assert Everywhere(d) == Everywhere(c);
    } else {
      var all: seq<nat> := c.inFlight[id] + c.buffered;
      PruningMoves(all, Excess(all, c.cap), c.dropped);
      Regroup(multiset(c.delivered), multiset(Flat(d.inFlight)), multiset(c.buffered), multiset(c.dropped),
              multiset(d.buffered), multiset(d.dropped), multiset(c.inFlight[id]));
      assert Everywhere(d) == Everywhere(c);
    }
  }

  /** After any run, however many reports overlap and however they end. */
  lemma {:induction false} NothingIsLostOrDoubled(events: seq<Event>)
    ensures Each(Run(events), Accounted)
  {
    if events != [] {
      var s := Run(events[..|events| - 1]);
      NothingIsLostOrDoubled(events[..|events| - 1]);
      match events[|events| - 1]
      case Logged(kind) =>
        PushAccounts(s.console);
        PushAccounts(s.network);
        PushAccounts(s.ui);
      case Reported =>
        TakeAccounts(s.console);
        TakeAccounts(s.network);
        TakeAccounts(s.ui);
      case Settled(id, ok) =>
        if id in s.open {
          SettleAccounts(s.console, id, ok);
          SettleAccounts(s.network, id, ok);
          SettleAccounts(s.ui, id, ok);
        }
    }
  }

  function Pushes(events: seq<Event>, kind: Kind): nat {
    if events == [] then 0
    else Pushes(events[..|events| - 1], kind) + if events[|events| - 1] == Logged(kind) then 1 else 0
  }

  lemma CountStep(s: Store, e: Event)
    requires Aligned(s)
    ensures var t := Apply(s, e);
            && t.console.cap == s.console.cap && t.network.cap == s.network.cap && t.ui.cap == s.ui.cap
            && t.console.pushed == s.console.pushed + (if e == Logged(Console) then 1 else 0)
            && t.network.pushed == s.network.pushed + (if e == Logged(Network) then 1 else 0)
            && t.ui.pushed == s.ui.pushed + (if e == Logged(Ui) then 1 else 0)
  {
  }

  lemma {:induction false} CountsFrom(events: seq<Event>)
    ensures var s := Run(events);
            && s.console.cap == 500 && s.network.cap == 200 && s.ui.cap == 500
            && s.console.pushed == Pushes(events, Console)
            && s.network.pushed == Pushes(events, Network) && s.ui.pushed == Pushes(events, Ui)
  {
    if events != [] {
      CountsFrom(events[..|events| - 1]);
      CountStep(Run(events[..|events| - 1]), events[|events| - 1]);
    }
  }

  /** After any run every buffer has counted the entries logged to it, and holds at most 500 console entries, 200
      network requests and 500 events of the user interface. */
  lemma CapsAndCounts(events: seq<Event>)
    ensures var s := Run(events);
            && |s.console.buffered| <= 500 == s.console.cap && s.console.pushed == Pushes(events, Console)
            && |s.network.buffered| <= 200 == s.network.cap && s.network.pushed == Pushes(events, Network)
            && |s.ui.buffered| <= 500 == s.ui.cap && s.ui.pushed == Pushes(events, Ui)
  {
    NothingIsLostOrDoubled(events);
    CountsFrom(events);
  }

  lemma PushDrops(c: Channel)
    requires |c.buffered| <= c.cap
    ensures Push(c).dropped == c.dropped <==> |c.buffered| < c.cap
    ensures Push(c).dropped == [] ==> c.dropped == []
    ensures Push(c).dropped != c.dropped ==> |Push(c).buffered| == c.cap
  {
    assert |Push(c).dropped| == |c.dropped| + Excess(c.buffered + [c.pushed], c.cap);
  }

  lemma PutBackDrops(c: Channel, id: nat)
    requires id < |c.inFlight|
    ensures PutBack(c, id).dropped == c.dropped <==> |c.inFlight[id]| + |c.buffered| <= c.cap
    ensures PutBack(c, id).dropped == [] ==> c.dropped == []
    ensures PutBack(c, id).dropped != c.dropped ==> |PutBack(c, id).buffered| == c.cap
  {
    assert |PutBack(c, id).dropped| == |c.dropped| + Excess(c.inFlight[id] + c.buffered, c.cap);
  }

  /** The step has room for what it adds to each buffer. */
  predicate RoomStep(s: Store, e: Event)
    requires Aligned(s)
  {
    match e
    case Logged(Console) => |s.console.buffered| < s.console.cap
    case Logged(Network) => |s.network.buffered| < s.network.cap
    case Logged(Ui) => |s.ui.buffered| < s.ui.cap
    case Reported => true
    case Settled(id, ok) =>
      id in s.open && !ok ==>
        && |s.console.inFlight[id]| + |s.console.buffered| <= s.console.cap
        && |s.network.inFlight[id]| + |s.network.buffered| <= s.network.cap
        && |s.ui.inFlight[id]| + |s.ui.buffered| <= s.ui.cap
  }

  predicate RoomThroughout(events: seq<Event>) {
    events != [] ==>
      RoomThroughout(events[..|events| - 1]) && RoomStep(Run(events[..|events| - 1]), events[|events| - 1])
  }

  predicate NothingDropped(c: Channel) {
    c.dropped == []
  }

  /** A run has dropped something exactly when one of its steps overflowed a buffer. */
  lemma {:induction false} DroppedIffOverflowed(events: seq<Event>)
    ensures Each(Run(events), NothingDropped) <==> RoomThroughout(events)
  {
    if events != [] {
      var before := events[..|events| - 1];
      var s := Run(before);
      DroppedIffOverflowed(before);
      NothingIsLostOrDoubled(before);
      match events[|events| - 1]
      case Logged(_) =>
        PushDrops(s.console);
        PushDrops(s.network);
        PushDrops(s.ui);
      case Reported =>
      case Settled(id, ok) =>
        if id in s.open && !ok {
          PutBackDrops(s.console, id);
          PutBackDrops(s.network, id);
          PutBackDrops(s.ui, id);
        }
    }
  }

  /** Entries in flight or in the buffer. */
  function Outstanding(c: Channel): nat {
    |Flat(c.inFlight)| + |c.buffered|
  }

  predicate WithinCap(c: Channel) {
    Outstanding(c) <= c.cap
  }

  lemma {:induction false} PartFits(parts: seq<seq<nat>>, id: nat)
    requires id < |parts|
    ensures |parts[id]| <= |Flat(parts)|
  {
    var last := |parts| - 1;
    if id < last {
      PartFits(parts[..last], id);
    }
  }

  /** Within the caps there is room for every put-back; a push needs one place more. */
  lemma CapsGiveRoom(s: Store, e: Event)
    requires Aligned(s) && Each(s, WithinCap) && Each(s, Accounted)
    requires e.Logged? ==> |ChannelOf(s, e.kind).buffered| < ChannelOf(s, e.kind).cap
    ensures RoomStep(s, e)
  {
    if e.Settled? && e.id in s.open {
      PartFits(s.console.inFlight, e.id);
      PartFits(s.network.inFlight, e.id);
      PartFits(s.ui.inFlight, e.id);
    }
  }

  function ChannelOf(s: Store, kind: Kind): Channel {
    match kind
    case Console => s.console
    case Network => s.network
    case Ui => s.ui
  }

  /** Taking and delivering leave no more outstanding, a put-back neither, and a push one more at most. */
  lemma OutstandingMoves(c: Channel, id: nat, ok: bool)
    ensures Outstanding(Push(c)) <= Outstanding(c) + 1
    ensures Outstanding(Take(c)) == Outstanding(c)
    ensures id < |c.inFlight| ==> Outstanding(Settle(c, id, ok)) <= Outstanding(c)
  {
    assert (c.inFlight + [c.buffered])[..|c.inFlight|] == c.inFlight;
    if id < |c.inFlight| {
      FlatLength(c.inFlight, id);
    }
  }

  lemma FlatLength(parts: seq<seq<nat>>, id: nat)
    requires id < |parts|
    ensures |Flat(parts)| == |Flat(parts[id := []])| + |parts[id]|
  {
    FlatUpdate(parts, id);
    assert |multiset(Flat(parts))| == |multiset(Flat(parts[id := []])) + multiset(parts[id])|;
  }

  lemma CapsKept(s: Store, e: Event)
    requires Aligned(s) && Each(s, WithinCap)
    requires e.Logged? ==> Outstanding(ChannelOf(s, e.kind)) < ChannelOf(s, e.kind).cap
    ensures Each(Apply(s, e), WithinCap)
  {
    var id, ok := if e.Settled? then e.id else 0, e.Settled? && e.ok;
    OutstandingMoves(s.console, id, ok);
    OutstandingMoves(s.network, id, ok);
    OutstandingMoves(s.ui, id, ok);
  }

  /** As long as every push finds less than the cap in its buffer and in flight, nothing is dropped, however reports
      overlap and end. */
  lemma {:induction false} RoomForEveryPush(events: seq<Event>)
    requires forall i :: 0 <= i < |events| && events[i].Logged? ==>
               var c := ChannelOf(Run(events[..i]), events[i].kind); Outstanding(c) < c.cap
    ensures RoomThroughout(events) && Each(Run(events), NothingDropped) && Each(Run(events), WithinCap)
  {
    if events != [] {
      var before := events[..|events| - 1];
      var last := events[|events| - 1];
      assert forall i :: 0 <= i <= |before| ==> before[..i] == events[..i];
      RoomForEveryPush(before);
      NothingIsLostOrDoubled(before);
      CapsGiveRoom(Run(before), last);
      CapsKept(Run(before), last);
    }
    DroppedIffOverflowed(events);
  }

  // ---------------------------------------------------------------- order, with one report at a time

  /** first, first + 1, ..., end - 1. */
  function Interval(first: nat, end: nat): seq<nat>
    requires first <= end
  {
    seq(end - first, i requires 0 <= i < end - first => first + i)
  }

  function Later(a: nat, b: int): nat {
    if a < b then b else a
  }

  /** The newest entries in [from, end), at most cap of them. */
  function Newest(from: nat, end: nat, cap: nat): seq<nat>
    requires from <= end
  {
    Interval(Later(from, end - cap), end)
  }

  /** The entry after the last one delivered. */
  function NextAfterDelivered(c: Channel): nat {
    if c.delivered == [] then 0 else c.delivered[|c.delivered| - 1] + 1
  }

  predicate NoReportOpen(s: Store) {
    s.open == {}
  }

  /** No report starts while another is on its way. */
  predicate OneAtATime(events: seq<Event>) {
    forall i :: 0 <= i < |events| && events[i] == Reported ==> NoReportOpen(Run(events[..i]))
  }

  /** With no report open the buffer holds the newest entries after the last one delivered. */
  predicate Resting(c: Channel) {
    && NextAfterDelivered(c) <= c.pushed
    && c.buffered == Newest(NextAfterDelivered(c), c.pushed, c.cap)
  }

  /** With report id open: it took the newest entries before some point, the buffer holds the newest since. */
  ghost predicate Reporting(c: Channel, id: nat) {
    && id < |c.inFlight|
    && exists m: nat {:trigger Newest(m, c.pushed, c.cap)} ::
      && NextAfterDelivered(c) <= m <= c.pushed
      && c.inFlight[id] == Newest(NextAfterDelivered(c), m, c.cap)
      && c.buffered == Newest(m, c.pushed, c.cap)
  }

  lemma PushNewest(from: nat, c: Channel)
    requires from <= c.pushed && c.buffered == Newest(from, c.pushed, c.cap)
    ensures Push(c).buffered == Newest(from, c.pushed + 1, c.cap)
  {
  }

  /** Putting a report back in front of what came since gives the newest of both. */
  lemma PutBackNewest(from: nat, m: nat, c: Channel, id: nat)
    requires from <= m <= c.pushed && id < |c.inFlight|
    requires c.inFlight[id] == Newest(from, m, c.cap) && c.buffered == Newest(m, c.pushed, c.cap)
    ensures PutBack(c, id).buffered == Newest(from, c.pushed, c.cap)
  {
  }

  lemma PushKeepsOrder(c: Channel, id: nat)
    ensures Resting(c) ==> Resting(Push(c))
    ensures Reporting(c, id) ==> Reporting(Push(c), id)
  {
    if Resting(c) {
      PushNewest(NextAfterDelivered(c), c);
    }
    if Reporting(c, id) {
      var m: nat :| NextAfterDelivered(c) <= m <= c.pushed
        && c.inFlight[id] == Newest(NextAfterDelivered(c), m, c.cap) && c.buffered == Newest(m, c.pushed, c.cap);
      PushNewest(m, c);
    }
  }

  lemma TakeKeepsOrder(c: Channel)
    requires Resting(c)
    ensures Reporting(Take(c), |c.inFlight|)
  {
    assert Newest(c.pushed, c.pushed, c.cap) == [];
  }

  lemma NewestEnds(from: nat, end: nat, cap: nat)
    requires from <= end
    ensures Newest(from, end, cap) == [] <==> from == end || cap == 0
    ensures from < end && cap > 0 ==> Newest(from, end, cap)[|Newest(from, end, cap)| - 1] == end - 1
  {
  }

  lemma DeliveryMovesTheMark(c: Channel, id: nat, m: nat)
    requires id < |c.inFlight| && NextAfterDelivered(c) <= m
    requires c.inFlight[id] == Newest(NextAfterDelivered(c), m, c.cap)
    ensures NextAfterDelivered(Deliver(c, id)) == if c.cap == 0 then NextAfterDelivered(c) else m
  {
    NewestEnds(NextAfterDelivered(c), m, c.cap);
  }

  lemma SettleKeepsOrder(c: Channel, id: nat, ok: bool)
    requires Reporting(c, id)
    ensures Resting(Settle(c, id, ok))
  {
    var from := NextAfterDelivered(c);
    var m: nat :| from <= m <= c.pushed
      && c.inFlight[id] == Newest(from, m, c.cap) && c.buffered == Newest(m, c.pushed, c.cap);
    if ok {
      DeliveryMovesTheMark(c, id, m);
      NewestEnds(from, c.pushed, c.cap);
      NewestEnds(m, c.pushed, c.cap);
    } else {
      PutBackNewest(from, m, c, id);
    }
  }

  ghost predicate AllReporting(s: Store, id: nat) {
    s.open == {id} && Reporting(s.console, id) && Reporting(s.network, id) && Reporting(s.ui, id)
  }

  ghost predicate InOrder(s: Store) {
    || (NoReportOpen(s) && Each(s, Resting))
    || exists id :: AllReporting(s, id)
  }

  lemma PushKeepsAll(s: Store, kind: Kind)
    requires InOrder(s) && Aligned(s)
    ensures InOrder(Apply(s, Logged(kind)))
  {
    var c := if kind == Console then s.console else if kind == Network then s.network else s.ui;
    if NoReportOpen(s) && Each(s, Resting) {
      PushKeepsOrder(c, 0);
    } else {
      var id :| AllReporting(s, id);
      PushKeepsOrder(c, id);
      assert AllReporting(Apply(s, Logged(kind)), id);
    }
  }

  lemma ReportKeepsAll(s: Store)
    requires NoReportOpen(s) && Each(s, Resting) && Aligned(s)
    ensures InOrder(Apply(s, Reported))
  {
    TakeKeepsOrder(s.console);
    TakeKeepsOrder(s.network);
    TakeKeepsOrder(s.ui);
    assert Apply(s, Reported) == s || AllReporting(Apply(s, Reported), |s.ui.inFlight|);
  }

  lemma SettleKeepsAll(s: Store, id: nat, ok: bool)
    requires InOrder(s) && Aligned(s)
    ensures InOrder(Apply(s, Settled(id, ok)))
  {
    if id in s.open {
      assert AllReporting(s, id);
      SettleKeepsOrder(s.console, id, ok);
      SettleKeepsOrder(s.network, id, ok);
      SettleKeepsOrder(s.ui, id, ok);
      assert s.open - {id} == {};
    }
  }

  /** When reports never overlap, every buffer is at rest, and so right after a put-back, exactly the newest
      cap-many of the entries younger than everything delivered, in order. */
  lemma {:induction false} PutBackKeepsTheNewest(events: seq<Event>)
    requires OneAtATime(events)
    ensures InOrder(Run(events))
    ensures NoReportOpen(Run(events)) ==> Each(Run(events), Resting)
  {
    if events != [] {
      var before := events[..|events| - 1];
      var s := Run(before);
      assert forall i :: 0 <= i < |before| ==> events[..i] == before[..i];
      PutBackKeepsTheNewest(before);
      match events[|events| - 1]
      case Logged(kind) => PushKeepsAll(s, kind);
      case Reported => ReportKeepsAll(s);
      case Settled(id, ok) => SettleKeepsAll(s, id, ok);
    } else {
      assert forall c: Channel :: c.buffered == Newest(0, 0, c.cap) <==> c.buffered == [];
    }
  }

  // ---------------------------------------------------------------- order, with overlapping reports

  predicate Ascending(s: seq<nat>) {
    forall i, j :: 0 <= i < j < |s| ==> s[i] < s[j]
  }

  /** A put-back keeps the buffer in order exactly when the buffer has no room for it, or holds nothing older. */
  lemma PutBackInOrderIff(c: Channel, id: nat)
    requires id < |c.inFlight| && Ascending(c.inFlight[id]) && Ascending(c.buffered) && |c.buffered| <= c.cap
    ensures Ascending(PutBack(c, id).buffered) <==> FullOrNothingOlder(c, id)
  {
    var f := c.inFlight[id];
    var all: seq<nat> := f + c.buffered;
    var n := Excess(all, c.cap);
    if f != [] && c.buffered != [] && |c.buffered| < c.cap {
      assert n < |f|;
      var b := PutBack(c, id).buffered;
      assert b[|f| - 1 - n] == f[|f| - 1] && b[|f| - n] == c.buffered[0];
    } else if |c.buffered| == c.cap {
      assert all[|f|..] == c.buffered;
    }
  }

  predicate Sorted(s: Store) {
    Ascending(s.console.buffered) && Ascending(s.network.buffered) && Ascending(s.ui.buffered)
  }

  predicate FullOrNothingOlder(c: Channel, id: nat)
    requires id < |c.inFlight|
  {
    var f := c.inFlight[id];
    f == [] || c.buffered == [] || |c.buffered| == c.cap || f[|f| - 1] < c.buffered[0]
  }

  /** If a report fails in this step, each buffer is full or holds nothing older than what is put back. */
  predicate TidyStep(s: Store, e: Event)
    requires Aligned(s)
  {
    e.Settled? && !e.ok && e.id in s.open ==>
      FullOrNothingOlder(s.console, e.id) && FullOrNothingOlder(s.network, e.id) && FullOrNothingOlder(s.ui, e.id)
  }

  predicate SortedThroughout(events: seq<Event>) {
    Sorted(Run(events)) && (events != [] ==> SortedThroughout(events[..|events| - 1]))
  }

  predicate TidyThroughout(events: seq<Event>) {
    events != [] ==>
      TidyThroughout(events[..|events| - 1]) && TidyStep(Run(events[..|events| - 1]), events[|events| - 1])
  }

  ghost predicate TakenInOrder(c: Channel) {
    forall i :: 0 <= i < |c.inFlight| ==> Ascending(c.inFlight[i])
  }

  /** What a report took was in order, since the buffer was. */
  lemma {:induction false} ReportsAreSorted(events: seq<Event>)
    requires SortedThroughout(events)
    ensures Each(Run(events), TakenInOrder)
  {
    if events != [] {
      ReportsAreSorted(events[..|events| - 1]);
    }
  }

  lemma PushStaysSorted(c: Channel)
    requires Accounted(c) && Ascending(c.buffered)
    ensures Ascending(Push(c).buffered)
  {
    forall i | 0 <= i < |c.buffered| ensures c.buffered[i] < c.pushed {
      assert c.buffered[i] in multiset(c.buffered);
      assert Everywhere(c)[c.buffered[i]] >= 1;
    }
    var all: seq<nat> := c.buffered + [c.pushed];
    assert Ascending(all);
  }

  /** However reports overlap: the buffers are in order all through a run exactly when every failure was tidy. */
  lemma {:induction false} SortedIffTidy(events: seq<Event>)
    ensures SortedThroughout(events) <==> TidyThroughout(events)
  {
    if events != [] {
      var before := events[..|events| - 1];
      var s := Run(before);
      SortedIffTidy(before);
      if SortedThroughout(before) {
        NothingIsLostOrDoubled(before);
        ReportsAreSorted(before);
        match events[|events| - 1]
        case Logged(kind) =>
          PushStaysSorted(s.console);
          PushStaysSorted(s.network);
          PushStaysSorted(s.ui);
        case Reported =>
        case Settled(id, ok) =>
          if id in s.open && !ok {
            PutBackInOrderIff(s.console, id);
            PutBackInOrderIff(s.network, id);
            PutBackInOrderIff(s.ui, id);
          }
      }
    }
  }

  /** Two reports that overlap and fail oldest first leave the buffer out of order. */
  lemma OverlappingFailuresReorder()
    ensures var events := [Logged(Ui), Reported, Logged(Ui), Reported, Settled(0, false), Settled(1, false)];
            Run(events).ui.buffered == [1, 0]
  {
    var events := [Logged(Ui), Reported, Logged(Ui), Reported, Settled(0, false), Settled(1, false)];
    var u := Empty(UI_SIZE);
    assert Run(events[..0]) == Start();
    var u1 := u.(pushed := 1, buffered := [0]);
    assert events[..1][..0] == events[..0];
    assert Run(events[..1]).ui == u1;
    var u2 := u1.(buffered := [], inFlight := [[0]]);
    assert events[..2][..1] == events[..1];
    assert Run(events[..2]).ui == u2 && Run(events[..2]).open == {0};
    var u3 := u2.(pushed := 2, buffered := [1]);
    assert events[..3][..2] == events[..2];
    assert Run(events[..3]).ui == u3 && Run(events[..3]).open == {0};
    var u4 := u3.(buffered := [], inFlight := [[0], [1]]);
    assert events[..4][..3] == events[..3];
    assert Run(events[..4]).ui == u4 && Run(events[..4]).open == {0, 1};
    var u5 := u4.(buffered := [0], inFlight := [[], [1]]);
    assert events[..5][..4] == events[..4];
    assert Run(events[..5]).ui == u5 && Run(events[..5]).open == {1};
    assert events[..6][..5] == events[..5];
    assert events == events[..6];
  }
}
