/**
 The resumable live tail of `cli/cmd/run.go`. The server holds one log of events and replays
 what follows the `Last-Event-ID` of a request (WHATWG HTML, section 9.2.4); every connection
 may fail, drop anywhere, or be cancelled.
 */
module EventStream {
  import opened Wrappers
  import opened Text

  datatype Event = Event(id: string, data: string)

  /** How the tail ended. `Failed` is a refused connection or an event that could not be rendered. */
  datatype End = Failed | Cancelled | Ended | Exhausted(drops: nat, resume: string)

  datatype Probe = Live | Terminal | Unreadable

  /**
   What the tail does with the outside world: a connection with the stretch it received, a look whether it was
   cancelled, a probe, a pause that was slept in full or cut short by cancellation.
   */
  datatype Contact =
    | Connected(from: nat, to: nat, ok: bool)
    | Looked(cancelled: bool)
    | Asked(probe: Probe)
    | Slept(seconds: nat, full: bool)

  const MAX_EVENTLESS := 5

  ghost predicate DistinctIDs(log: seq<Event>) {
    && (forall i | 0 <= i < |log| :: log[i].id != "")
    && (forall i, j | 0 <= i < j < |log| :: log[i].id != log[j].id)
  }

  predicate Known(log: seq<Event>, id: string) {
    exists i | 0 <= i < |log| :: log[i].id == id
  }

  /** The index after the event with this ID. */
  function Position(log: seq<Event>, id: string): (p: nat)
    requires Known(log, id)
    ensures 0 < p <= |log| && log[p - 1].id == id
  {
    if log[0].id == id then 1
    else
      assert Known(log[1..], id) by {
        var i :| 0 <= i < |log| && log[i].id == id;
        assert log[1..][i - 1].id == id;
      }
      1 + Position(log[1..], id)
  }

  function Matching(matches: Event -> bool, events: seq<Event>): seq<Event> {
    if events == [] then []
    else
      var last := events[|events| - 1];
      Matching(matches, events[..|events| - 1]) + if matches(last) then [last] else []
  }

  lemma PositionIsUnique(log: seq<Event>, i: nat)
    requires DistinctIDs(log) && i < |log|
    ensures Known(log, log[i].id) && Position(log, log[i].id) == i + 1
  {
    assert log[i].id == log[Position(log, log[i].id) - 1].id;
  }

  lemma {:induction false} MatchingJoins(matches: Event -> bool, s: seq<Event>, t: seq<Event>)
    ensures Matching(matches, s + t) == Matching(matches, s) + Matching(matches, t)
  {
    if t == [] {
      assert s + t == s;
    } else {
      assert (s + t)[..|s + t| - 1] == s + t[..|t| - 1];
      MatchingJoins(matches, s, t[..|t| - 1]);
    }
  }

  /** Exactly the matching events are kept, each as often as it came. */
  lemma {:induction false} MatchingKeeps(matches: Event -> bool, events: seq<Event>, e: Event)
    ensures multiset(Matching(matches, events))[e] == if matches(e) then multiset(events)[e] else 0
  {
    if events != [] {
      MatchingKeeps(matches, events[..|events| - 1], e);
      assert events == events[..|events| - 1] + [events[|events| - 1]];
    }
  }

  function Pow2(n: nat): (r: nat)
    ensures r > 0
  {
    if n == 0 then 1 else 2 * Pow2(n - 1)
  }

  /** The last ID after receiving `log[from..to]`. */
  function LastID(log: seq<Event>, from: nat, to: nat, id: string): string
    requires from <= to <= |log|
  {
    if from < to then log[to - 1].id else id
  }

  // ---- Measures of a trace ----

  predicate Eventful(c: Contact) {
    c.Connected? && c.from < c.to
  }

  /** How many connections were made. */
  function Connections(trace: seq<Contact>): nat {
    if trace == [] then 0
    else Connections(trace[..|trace| - 1]) + if trace[|trace| - 1].Connected? then 1 else 0
  }

  /** How many events they brought. */
  function Received(trace: seq<Contact>): nat {
    if trace == [] then 0
    else
      var last := trace[|trace| - 1];
      Received(trace[..|trace| - 1]) + if Eventful(last) then last.to - last.from else 0
  }

  /** The last connection dropped without an event, and the tail was not cancelled. */
  predicate QuietDrop(trace: seq<Contact>) {
    && |trace| >= 2 && trace[|trace| - 1] == Looked(false)
    && trace[|trace| - 2].Connected? && !Eventful(trace[|trace| - 2])
  }

  /** The consecutive connections at the end that brought no event and that the probe then reported as still live. */
  function Eventless(trace: seq<Contact>): nat {
    if trace == [] then 0
    else
      var last, before := trace[|trace| - 1], trace[..|trace| - 1];
      if Eventful(last) then 0
      else if last == Asked(Live) && QuietDrop(before) then Eventless(before) + 1
      else Eventless(before)
  }

  /** The seconds of the pauses since the last event. */
  function Rested(trace: seq<Contact>): nat {
    if trace == [] then 0
    else
      var last, before := trace[|trace| - 1], trace[..|trace| - 1];
      if Eventful(last) then 0 else Rested(before) + if last.Slept? then last.seconds else 0
  }

  /** Where the events received so far end in the log. */
  function Reached(trace: seq<Contact>): Option<nat> {
    if trace == [] then None
    else if Eventful(trace[|trace| - 1]) then Some(trace[|trace| - 1].to)
    else Reached(trace[..|trace| - 1])
  }

  /** All events received, in order. */
  function Delivered(log: seq<Event>, trace: seq<Contact>): seq<Event> {
    if trace == [] then []
    else
      var last := trace[|trace| - 1];
      Delivered(log, trace[..|trace| - 1]) + if Eventful(last) && last.to <= |log| then log[last.from..last.to] else []
  }

  /** The ID to resume from. */
  function ResumeID(log: seq<Event>, trace: seq<Contact>, since: string): string {
    var r := Reached(trace);
    if r.Some? && 0 < r.value <= |log| then log[r.value - 1].id else since
  }

  // ---- The order of contacts ----

  predicate MayConnect(trace: seq<Contact>) {
    trace == [] || (trace[|trace| - 1].Slept? && trace[|trace| - 1].full) || (trace[|trace| - 1] == Asked(Live) && Eventless(trace) == 0)
  }

  predicate MayLook(trace: seq<Contact>) {
    trace != [] && trace[|trace| - 1].Connected? && trace[|trace| - 1].ok
  }

  predicate MayAsk(trace: seq<Contact>) {
    trace != [] && trace[|trace| - 1] == Looked(false)
  }

  /** 1, 2, 4 and 8 seconds before the second to fifth attempt of an eventless stretch. */
  predicate MaySleep(trace: seq<Contact>, seconds: nat) {
    && trace != [] && trace[|trace| - 1] == Asked(Live)
    && 0 < Eventless(trace) < MAX_EVENTLESS && seconds == Pow2(Eventless(trace) - 1)
  }

  predicate Allowed(trace: seq<Contact>, c: Contact) {
    match c
    case Connected(_, _, _) => MayConnect(trace)
    case Looked(_) => MayLook(trace)
    case Asked(_) => MayAsk(trace)
    case Slept(seconds, _) => MaySleep(trace, seconds)
  }

  /** Every contact is allowed by those before it. */
  ghost predicate Orderly(trace: seq<Contact>) {
    trace == [] || (Orderly(trace[..|trace| - 1]) && Allowed(trace[..|trace| - 1], trace[|trace| - 1]))
  }

  /** Every connection starts where the events received so far end, or else after `since` if the log holds it. */
  ghost predicate Contiguous(log: seq<Event>, since: string, trace: seq<Contact>) {
    trace == []
    || var last, before := trace[|trace| - 1], trace[..|trace| - 1];
       && Contiguous(log, since, before)
       && (last.Connected? ==>
             && last.from <= last.to <= |log|
             && (Reached(before).Some? ==> last.from == Reached(before).value)
             && (Reached(before).None? && Known(log, since) ==> last.from == Position(log, since)))
  }

  // ---- What every orderly trace keeps ----

  /** A connection without events whose probe has not reported the run as live. */
  predicate Undecided(trace: seq<Contact>) {
    trace != []
    && var last, before := trace[|trace| - 1], trace[..|trace| - 1];
       || (last.Connected? && !Eventful(last))
       || (last.Looked? && before != [] && !Eventful(before[|before| - 1]))
       || (last.Asked? && last != Asked(Live) && QuietDrop(before))
  }

  lemma {:induction false} BudgetHolds(trace: seq<Contact>)
    requires Orderly(trace)
    ensures Eventless(trace) <= MAX_EVENTLESS
    ensures Eventless(trace) == MAX_EVENTLESS ==> trace[|trace| - 1] == Asked(Live)
    ensures Undecided(trace) ==> Eventless(trace) < MAX_EVENTLESS
    ensures Connections(trace) <= MAX_EVENTLESS * Received(trace) + Eventless(trace) + if Undecided(trace) then 1 else 0
  {
    if trace != [] { BudgetHolds(trace[..|trace| - 1]); }
  }

  /** At most five connections for each event and five more. */
  lemma ReconnectBound(trace: seq<Contact>)
    requires Orderly(trace)
    ensures Connections(trace) <= MAX_EVENTLESS * (Received(trace) + 1)
  {
    BudgetHolds(trace);
  }

  /** The fifth eventless live connection in a row ends the tail: nothing is allowed after it. */
  lemma NothingAfterExhaustion(trace: seq<Contact>, c: Contact)
    requires Orderly(trace) && Eventless(trace) == MAX_EVENTLESS
    ensures !Allowed(trace, c)
  {
    BudgetHolds(trace);
  }

  /** The pause that an eventless live connection still has to take. */
  function Owed(trace: seq<Contact>): nat {
    if trace != [] && trace[|trace| - 1] == Asked(Live) && Eventless(trace) > 0 then Pow2(Eventless(trace) - 1) else 0
  }

  lemma {:induction false} RestedExactly(trace: seq<Contact>)
    requires Orderly(trace)
    ensures Rested(trace) + Owed(trace) == Pow2(Eventless(trace)) - 1
  {
    if trace != [] { RestedExactly(trace[..|trace| - 1]); }
  }

  /** Every stretch without events sleeps at most 1 + 2 + 4 + 8 seconds in total. */
  lemma RestBound(trace: seq<Contact>)
    requires Orderly(trace)
    ensures Rested(trace) <= 15
  {
    BudgetHolds(trace);
    RestedExactly(trace);
    assert Pow2(0) == 1 && Pow2(1) == 2 && Pow2(2) == 4 && Pow2(3) == 8 && Pow2(4) == 16 && Pow2(5) == 32;
  }

  lemma Slices(log: seq<Event>, a: nat, b: nat, c: nat)
    requires a <= b <= c <= |log|
    ensures log[a..b] + log[b..c] == log[a..c]
  {
  }

  /** What was received over all connections is one contiguous segment of the log, without gap or repeat. */
  lemma {:induction false} DeliveredIsSegment(log: seq<Event>, since: string, trace: seq<Contact>)
    requires Contiguous(log, since, trace)
    ensures Reached(trace).None? <==> Received(trace) == 0
    ensures Reached(trace).None? ==> Delivered(log, trace) == []
    ensures Reached(trace).Some? ==>
      && Received(trace) <= Reached(trace).value <= |log|
      && Delivered(log, trace) == log[Reached(trace).value - Received(trace)..Reached(trace).value]
    ensures Reached(trace).Some? && Known(log, since) ==> Reached(trace).value - Received(trace) == Position(log, since)
  {
    if trace != [] {
      var last, before := trace[|trace| - 1], trace[..|trace| - 1];
      DeliveredIsSegment(log, since, before);
      if Eventful(last) && Reached(before).Some? {
        Slices(log, Reached(before).value - Received(before), Reached(before).value, last.to);
      } else if !Eventful(last) {
        assert Delivered(log, before) + [] == Delivered(log, before);
      }
    }
  }

  // ---- The tail ----

  /** The events of one connection that starts at `start` and drops at `drop` or at the end of the log. */
  method Receive(log: seq<Event>, start: nat, drop: nat, lastEventID: string, matches: Event -> bool)
    returns (ok: bool, to: nat, last: string, printed: seq<Event>)
    requires start <= |log|
    ensures start <= to <= |log|
    ensures DistinctIDs(log) ==> last == LastID(log, start, to, lastEventID)
    ensures printed <= Matching(matches, log[start..to]) && (ok ==> printed == Matching(matches, log[start..to]))
  {
    ok, to, last, printed := true, start, lastEventID, [];
    while to < |log| && to < drop
      invariant start <= to <= |log| && ok
      invariant printed == Matching(matches, log[start..to])
      invariant DistinctIDs(log) ==> last == LastID(log, start, to, lastEventID)
    {
      var event := log[to];
      assert log[start..to + 1][..to - start] == log[start..to];
      to := to + 1;
      if event.id != "" { last := event.id; }
      if matches(event) {
        ok := *;  // rendering can fail
        if !ok { return; }
        printed := printed + [event];
      }
    }
  }

  /** The server and the clock, with everything the tail did to them. */
  class Wire {
    const log: seq<Event>
    ghost var trace: seq<Contact>

    constructor (log: seq<Event>)
      ensures this.log == log && trace == []
    {
      this.log, trace := log, [];
    }

    /**
     `streamRunEventsOnce`. Without a known last ID the server may start anywhere: this repository's own
     server starts from the beginning, while the client's comment expects the live tail.
     */
    method Connect(lastEventID: string, matches: Event -> bool)
      returns (ok: bool, received: bool, last: string, printed: seq<Event>)
      requires MayConnect(trace)
      modifies this
      ensures |trace| == |old(trace)| + 1 && trace[..|old(trace)|] == old(trace)
      ensures var c := trace[|old(trace)|];
        && c.Connected? && c.ok == ok && c.from <= c.to <= |log| && received == (c.from < c.to)
        && (Known(log, lastEventID) ==> c.from == Position(log, lastEventID))
        && (DistinctIDs(log) ==> last == LastID(log, c.from, c.to, lastEventID))
        && printed <= Matching(matches, log[c.from..c.to]) && (ok ==> printed == Matching(matches, log[c.from..c.to]))
    {
      var from: nat := *;
      if from > |log| { from := |log|; }
      if Known(log, lastEventID) { from := Position(log, lastEventID); }
      var to := from;
      last, printed := lastEventID, [];
      ok := *;
      if ok {
        var drop: nat := *;
        ok, to, last, printed := Receive(log, from, drop, lastEventID, matches);
      }
      received := from < to;
      trace := trace + [Connected(from, to, ok)];
    }

    /** Whether the context was cancelled meanwhile. */
    method Look() returns (cancelled: bool)
      requires MayLook(trace)
      modifies this
      ensures trace == old(trace) + [Looked(cancelled)]
    {
      cancelled := *;
      trace := trace + [Looked(cancelled)];
    }

    /** `runReachedTerminalStatus`. */
    method Ask() returns (probe: Probe)
      requires MayAsk(trace)
      modifies this
      ensures trace == old(trace) + [Asked(probe)]
    {
      probe := *;
      trace := trace + [Asked(probe)];
    }

    /** The context-aware pause, which a cancellation cuts short. */
    method Sleep(seconds: nat) returns (full: bool)
      requires MaySleep(trace, seconds)
      modifies this
      ensures trace == old(trace) + [Slept(seconds, full)]
    {
      full := *;
      trace := trace + [Slept(seconds, full)];
    }
  }

  /** The tail between two connections: what it remembers agrees with what happened. */
  ghost predicate Following(w: Wire, since: string, matches: Event -> bool, lastEventID: string, printed: seq<Event>)
    reads w
  {
    && Orderly(w.trace) && Contiguous(w.log, since, w.trace)
    && lastEventID == ResumeID(w.log, w.trace, since)
    && printed == Matching(matches, Delivered(w.log, w.trace))
  }

  /** The remembered ID leads to where the received events end. */
  lemma ResumePosition(log: seq<Event>, since: string, trace: seq<Contact>)
    requires DistinctIDs(log) && Contiguous(log, since, trace) && Reached(trace).Some?
    ensures 0 < Reached(trace).value <= |log|
    ensures Known(log, ResumeID(log, trace, since)) && Position(log, ResumeID(log, trace, since)) == Reached(trace).value
  {
    DeliveredIsSegment(log, since, trace);
    PositionIsUnique(log, Reached(trace).value - 1);
  }

  /** After one more connection the trace is still contiguous. */
  lemma ConnectFollows(log: seq<Event>, since: string, before: seq<Contact>, c: Contact)
    requires DistinctIDs(log) && Contiguous(log, since, before)
    requires c.Connected? && c.from <= c.to <= |log|
    requires var id := ResumeID(log, before, since); Known(log, id) ==> c.from == Position(log, id)
    ensures Contiguous(log, since, before + [c])
  {
    assert (before + [c])[..|before|] == before;
    if Reached(before).Some? { ResumePosition(log, since, before); }
  }

  /** And the tail remembers the ID to resume from. */
  lemma ConnectRemembers(log: seq<Event>, since: string, before: seq<Contact>, c: Contact)
    requires c.Connected? && c.from <= c.to <= |log|
    ensures LastID(log, c.from, c.to, ResumeID(log, before, since)) == ResumeID(log, before + [c], since)
    ensures Received(before + [c]) == Received(before) + (c.to - c.from)
  {
    assert (before + [c])[..|before|] == before;
  }

  lemma ConnectDelivers(log: seq<Event>, matches: Event -> bool, before: seq<Contact>, c: Contact)
    requires c.Connected? && c.from <= c.to <= |log|
    ensures Matching(matches, Delivered(log, before + [c]))
         == Matching(matches, Delivered(log, before)) + Matching(matches, log[c.from..c.to])
  {
    assert (before + [c])[..|before|] == before;
    var more := if Eventful(c) then log[c.from..c.to] else [];
    assert more == log[c.from..c.to];
    MatchingJoins(matches, Delivered(log, before), more);
  }

  /** One more connection extends what was received, wherever the last ones dropped. */
  method Follow(w: Wire, since: string, matches: Event -> bool, lastEventID: string, printed: seq<Event>)
    returns (ok: bool, received: bool, last: string, shown: seq<Event>)
    requires DistinctIDs(w.log) && MayConnect(w.trace) && Following(w, since, matches, lastEventID, printed)
    modifies w
    ensures |w.trace| == |old(w.trace)| + 1 && w.trace[..|old(w.trace)|] == old(w.trace)
    ensures w.trace[|old(w.trace)|].Connected? && w.trace[|old(w.trace)|].ok == ok
    ensures received == Eventful(w.trace[|old(w.trace)|])
    ensures Orderly(w.trace) && Contiguous(w.log, since, w.trace)
    ensures shown <= Matching(matches, Delivered(w.log, w.trace))
    ensures ok ==> Following(w, since, matches, last, shown)
    ensures if received then Received(w.trace) > Received(old(w.trace)) else Received(w.trace) == Received(old(w.trace))
  {
    var more;
    ok, received, last, more := w.Connect(lastEventID, matches);
    ghost var c := w.trace[|old(w.trace)|];
    assert w.trace == old(w.trace) + [c];
    ConnectFollows(w.log, since, old(w.trace), c);
    ConnectRemembers(w.log, since, old(w.trace), c);
    ConnectDelivers(w.log, matches, old(w.trace), c);
    shown := printed + more;
  }

  /** A look, a probe or a pause changes nothing of what was received. */
  lemma QuietFollows(log: seq<Event>, since: string, before: seq<Contact>, c: Contact)
    requires !c.Connected? && Orderly(before) && Allowed(before, c) && Contiguous(log, since, before)
    ensures Orderly(before + [c]) && Contiguous(log, since, before + [c])
    ensures Reached(before + [c]) == Reached(before) && Delivered(log, before + [c]) == Delivered(log, before)
    ensures Received(before + [c]) == Received(before)
  {
    assert (before + [c])[..|before|] == before;
    assert Delivered(log, before) + [] == Delivered(log, before);
  }

  lemma AskedEventless(before: seq<Contact>, probe: Probe)
    ensures Eventless(before + [Asked(probe)]) == Eventless(before) + if probe.Live? && QuietDrop(before) then 1 else 0
  {
    assert (before + [Asked(probe)])[..|before|] == before;
  }

  /** How the tail ended shows in the last contact. */
  ghost predicate EndsAs(end: End, trace: seq<Contact>)
    requires trace != []
  {
    var last := trace[|trace| - 1];
    && (end.Failed? <==> last.Connected? && !last.ok)
    && (end.Cancelled? <==> last == Looked(true) || (last.Slept? && !last.full))
    && (end.Ended? <==> last.Asked? && last != Asked(Live))
    && (end.Exhausted? <==> Eventless(trace) == MAX_EVENTLESS)
  }

  lemma IdleEventless(before: seq<Contact>, c: Contact)
    requires c.Looked? || c.Slept?
    ensures Eventless(before + [c]) == Eventless(before)
  {
    assert (before + [c])[..|before|] == before;
  }

  /** The pause after an eventless connection, or the end of the budget. */
  method BackOff(w: Wire, since: string, matches: Event -> bool, lastEventID: string, printed: seq<Event>, eventless: nat)
    returns (end: Option<End>)
    requires Following(w, since, matches, lastEventID, printed)
    requires w.trace != [] && w.trace[|w.trace| - 1] == Asked(Live) && 0 < eventless == Eventless(w.trace)
    modifies w
    ensures Following(w, since, matches, lastEventID, printed) && w.trace != []
    ensures Eventless(w.trace) == eventless && Received(w.trace) == Received(old(w.trace))
    ensures end.None? ==> MayConnect(w.trace) && eventless < MAX_EVENTLESS
    ensures end.Some? ==> EndsAs(end.value, w.trace) && !end.value.Failed?
    ensures end.Some? && end.value.Exhausted? ==> end.value == Exhausted(MAX_EVENTLESS, lastEventID)
  {
    BudgetHolds(w.trace);
    if eventless >= MAX_EVENTLESS { return Some(Exhausted(eventless, lastEventID)); }
    var backoff := Pow2(eventless - 1);
    ghost var t := w.trace;
    var full := w.Sleep(backoff);
    QuietFollows(w.log, since, t, Slept(backoff, full));
    IdleEventless(t, Slept(backoff, full));
    end := if full then None else Some(Cancelled);
  }

  /** What follows a connection that was not refused: the probe, the budget and the pause. */
  method Decide(w: Wire, since: string, matches: Event -> bool, lastEventID: string, printed: seq<Event>, received: bool, before: nat)
    returns (end: Option<End>, eventless: nat)
    requires Following(w, since, matches, lastEventID, printed) && MayLook(w.trace)
    requires received == Eventful(w.trace[|w.trace| - 1]) && Eventless(w.trace) == if received then 0 else before
    requires before < MAX_EVENTLESS
    modifies w
    ensures Following(w, since, matches, lastEventID, printed) && w.trace != []
    ensures Received(w.trace) == Received(old(w.trace))
    ensures end.None? ==>
      && MayConnect(w.trace) && eventless == Eventless(w.trace) < MAX_EVENTLESS
      && (!received ==> eventless == before + 1)
    ensures end.Some? ==> EndsAs(end.value, w.trace) && !end.value.Failed?
    ensures end.Some? && end.value.Exhausted? ==> end.value == Exhausted(MAX_EVENTLESS, lastEventID)
  {
    eventless := before;
    ghost var t := w.trace;
    var cancelled := w.Look();
    QuietFollows(w.log, since, t, Looked(cancelled));
    IdleEventless(t, Looked(cancelled));
    if cancelled { return Some(Cancelled), eventless; }
    t := w.trace;
    var probe := w.Ask();
    QuietFollows(w.log, since, t, Asked(probe));
    AskedEventless(t, probe);
    if !probe.Live? { return Some(Ended), eventless; }
    if received { return None, 0; }
    eventless := before + 1;
    end := BackOff(w, since, matches, lastEventID, printed, eventless);
  }

  /** `streamRunEvents`. */
  method StreamRunEvents(w: Wire, since: string, matches: Event -> bool) returns (end: End, printed: seq<Event>)
    requires DistinctIDs(w.log) && w.trace == []
    modifies w
    ensures Orderly(w.trace) && Contiguous(w.log, Trim(since), w.trace)
    ensures w.trace != [] && EndsAs(end, w.trace)
    ensures printed <= Matching(matches, Delivered(w.log, w.trace))
    ensures !end.Failed? ==> printed == Matching(matches, Delivered(w.log, w.trace))
    ensures end.Exhausted? ==> end.drops == MAX_EVENTLESS && end.resume == ResumeID(w.log, w.trace, Trim(since))
  {
    var first := Trim(since);
    var lastEventID := first;
    printed := [];
    var eventless := 0;
    while true
      invariant Following(w, first, matches, lastEventID, printed) && MayConnect(w.trace)
      invariant eventless == Eventless(w.trace) < MAX_EVENTLESS
      invariant Received(w.trace) <= |w.log|
      decreases |w.log| - Received(w.trace), MAX_EVENTLESS - eventless
    {
      var ok, received, finished;
      ok, received, lastEventID, printed := Follow(w, first, matches, lastEventID, printed);
      DeliveredIsSegment(w.log, first, w.trace);
      if !ok { return Failed, printed; }
      finished, eventless := Decide(w, first, matches, lastEventID, printed, received, eventless);
      if finished.Some? { return finished.value, printed; }
    }
  }
}
