/**
 The fan-in of `cli/cmd/evalset_logs.go`: one goroutine for each run follows its event stream
 and sends lines into one channel of 64, and one consumer prints them. The scheduler and the
 server are adversarial.
 */
module EvalsetLogs {
  import opened Wrappers
  import opened EventStream

  const CAPACITY := 64

  datatype Target = Target(run: string, key: string, log: seq<Event>)

  /** A channel message of goroutine `who`: an event, its error, or its end. */
  datatype Line = Shown(who: nat, event: Event) | Broken(who: nat) | Finished(who: nat)

  datatype Stage =
    | Connecting
    | Receiving(next: nat, got: bool)
    | Probing(got: bool)
    | Waiting                // one second, after a connection without events
    | Ending(line: Line)     // the last message, not yet in the channel
    | Closed

  /** A goroutine: the segment of its log it has sent, the ID it resumes from, and everything it has sent. */
  datatype Stream = Stream(stage: Stage, from: nat, to: nat, lastID: string, sent: seq<Line>)

  datatype Config = Config(targets: seq<Target>, follow: bool)

  datatype System = System(streams: seq<Stream>, channel: seq<Line>, consumed: seq<Line>, cancelled: bool)

  datatype Action =
    | Connect(who: nat, ok: bool, start: nat)
    | Deliver(who: nat)
    | Drop(who: nat)
    | Ask(who: nat, probe: Probe)
    | Wake(who: nat)
    | Push(who: nat)
    | Quit(who: nat)
    | Cancel
    | Pop

  function Start(c: Config): (s: System)
    ensures |s.streams| == |c.targets|
  {
    System(seq(|c.targets|, i => Stream(Connecting, 0, 0, "", [])), [], [], false)
  }

  /** The goroutine's own step; None when it cannot take it. The message, if any, goes into the channel. */
  function Advance(c: Config, t: Target, s: Stream, a: Action, cancelled: bool, space: bool): Option<(Stream, seq<Line>)> {
    match a
    case Connect(who, ok, start) =>
      if !s.stage.Connecting? then None
      else if !ok then Some((s.(stage := Ending(Broken(who))), []))
      else
        var next := if Known(t.log, s.lastID) then Position(t.log, s.lastID) else if start <= |t.log| then start else |t.log|;
        Some((s.(stage := Receiving(next, false)), []))
    case Deliver(who) =>
      if !s.stage.Receiving? || !space || s.stage.next >= |t.log| then None
      else
        var event, line := t.log[s.stage.next], Shown(who, t.log[s.stage.next]);
        var from := if s.from < s.to then s.from else s.stage.next;
        var lastID := if event.id != "" then event.id else s.lastID;
        Some((Stream(Receiving(s.stage.next + 1, true), from, s.stage.next + 1, lastID, s.sent + [line]), [line]))
    case Drop(who) =>
      if !s.stage.Receiving? then None
      else if !c.follow then Some((s.(stage := Ending(Finished(who))), []))
      else Some((s.(stage := Probing(s.stage.got)), []))
    case Ask(who, probe) =>
      if !s.stage.Probing? then None
      else if probe.Unreadable? then Some((s.(stage := Ending(Broken(who))), []))
      else if probe.Terminal? then Some((s.(stage := Ending(Finished(who))), []))
      else Some((s.(stage := if s.stage.got then Connecting else Waiting), []))
    case Wake(who) =>
      if s.stage.Waiting? then Some((s.(stage := Connecting), [])) else None
    case Push(who) =>
      if !s.stage.Ending? || !space then None
      else Some((s.(stage := Closed, sent := s.sent + [s.stage.line]), [s.stage.line]))
    case Quit(who) =>
      if cancelled && (s.stage.Connecting? || s.stage.Waiting?) then Some((s.(stage := Closed), [])) else None
    case _ => None
  }

  function Step(c: Config, s: System, a: Action): (t: System)
    ensures |t.streams| == |s.streams|
  {
    match a
    case Cancel => s.(cancelled := true)
    case Pop => if s.channel == [] then s else s.(channel := s.channel[1..], consumed := s.consumed + [s.channel[0]])
    case _ =>
      if a.who >= |s.streams| || a.who >= |c.targets| then s
      else
        Apply(s, a.who, Advance(c, c.targets[a.who], s.streams[a.who], a, s.cancelled, |s.channel| < CAPACITY))
  }

  /** The goroutine's new state, and its message in the channel. */
  function Apply(s: System, who: nat, r: Option<(Stream, seq<Line>)>): (t: System)
    requires who < |s.streams|
    ensures |t.streams| == |s.streams|
  {
    if r.None? then s else s.(streams := s.streams[who := r.value.0], channel := s.channel + r.value.1)
  }

  /** Any schedule. */
  function Run(c: Config, actions: seq<Action>): (s: System)
    ensures |s.streams| == |c.targets|
  {
    if actions == [] then Start(c) else Step(c, Run(c, actions[..|actions| - 1]), actions[|actions| - 1])
  }

  /** The lines of goroutine `who`, in order. */
  function Of(who: nat, lines: seq<Line>): seq<Line> {
    if lines == [] then []
    else
      var last := lines[|lines| - 1];
      Of(who, lines[..|lines| - 1]) + if last.who == who then [last] else []
  }

  function Lines(who: nat, events: seq<Event>): (r: seq<Line>)
    ensures |r| == |events| && forall i | 0 <= i < |r| :: r[i] == Shown(who, events[i])
  {
    seq(|events|, i requires 0 <= i < |events| => Shown(who, events[i]))
  }

  /** One contiguous segment of the log, then at most one closing line. */
  ghost predicate Ordered(log: seq<Event>, from: nat, to: nat, lastID: string, sent: seq<Line>, who: nat) {
    && from <= to <= |log|
    && lastID == LastID(log, from, to, "")
    && Lines(who, log[from..to]) <= sent
    && var end := sent[to - from..]; end == [] || end == [Broken(who)] || end == [Finished(who)]
  }

  ghost predicate StreamInv(log: seq<Event>, s: Stream, who: nat) {
    && Ordered(log, s.from, s.to, s.lastID, s.sent, who)
    && (!s.stage.Closed? ==> |s.sent| == s.to - s.from)  // only a closed goroutine has sent its closing line
    && (s.stage.Receiving? ==> s.stage.next <= |log| && (s.from < s.to ==> s.stage.next == s.to))
    && (s.stage.Ending? ==> s.stage.line == Broken(who) || s.stage.line == Finished(who))
  }

  /** The goroutine's state and the lines of it that are in the channel or beyond. */
  ghost predicate Accounted(c: Config, s: System, i: nat)
    requires i < |s.streams| == |c.targets|
  {
    StreamInv(c.targets[i].log, s.streams[i], i) && Of(i, s.consumed + s.channel) == s.streams[i].sent
  }

  ghost predicate WellFormed(c: Config) {
    forall t <- c.targets :: DistinctIDs(t.log)
  }

  ghost predicate Inv(c: Config, s: System) {
    && |s.streams| == |c.targets| && |s.channel| <= CAPACITY
    && (forall i: nat | i < |s.streams| :: Accounted(c, s, i))
    && (forall l <- s.consumed + s.channel :: l.who < |s.streams|)
  }

  /** A step that sends nothing keeps the segment. */
  lemma QuietKeeps(log: seq<Event>, s: Stream, n: Stream, who: nat)
    requires StreamInv(log, s, who) && !s.stage.Closed? && n == s.(stage := n.stage)
    requires n.stage.Receiving? ==> n.stage.next <= |log| && (s.from < s.to ==> n.stage.next == s.to)
    requires n.stage.Ending? ==> n.stage.line == Broken(who) || n.stage.line == Finished(who)
    ensures StreamInv(log, n, who)
  {
  }

  lemma PushKeeps(log: seq<Event>, s: Stream, who: nat)
    requires StreamInv(log, s, who) && s.stage.Ending?
    ensures StreamInv(log, s.(stage := Closed, sent := s.sent + [s.stage.line]), who)
  {
    assert (s.sent + [s.stage.line])[s.to - s.from..] == [s.stage.line];
  }

  /** Steps other than sending change only the stage. */
  lemma AdvanceQuiet(c: Config, t: Target, s: Stream, a: Action, cancelled: bool, space: bool, who: nat)
    requires !a.Cancel? && !a.Pop? && !a.Deliver? && !a.Push? && a.who == who
    requires Advance(c, t, s, a, cancelled, space).Some?
    ensures var (n, sent) := Advance(c, t, s, a, cancelled, space).value;
      && sent == [] && n == s.(stage := n.stage) && !s.stage.Closed?
      && (n.stage.Ending? ==> n.stage.line == Broken(who) || n.stage.line == Finished(who))
      && (n.stage.Receiving? ==> n.stage.next <= |t.log| && (Known(t.log, s.lastID) ==> n.stage.next == Position(t.log, s.lastID)))
  {
  }

  /** The goroutine's order is kept, and at most one line of its own went into a channel with space. */
  ghost predicate Kept(log: seq<Event>, s: Stream, n: Stream, sent: seq<Line>, who: nat, space: bool) {
    && StreamInv(log, n, who) && n.sent == s.sent + sent && |sent| <= 1
    && (sent != [] ==> sent[0].who == who && space)
  }

  lemma SegmentGrows(log: seq<Event>, from: nat, to: nat, next: nat, sent: seq<Line>, who: nat)
    requires from <= to <= |log| && next < |log| && sent == Lines(who, log[from..to]) && (from < to ==> next == to)
    ensures var f := if from < to then from else next;
      f <= next && Lines(who, log[f..next + 1]) == sent + [Shown(who, log[next])]
  {
    var f := if from < to then from else next;
    assert log[f..next + 1] == log[f..next] + [log[next]];
    assert log[f..next] == log[from..to];
  }

  lemma DeliverKeeps(c: Config, t: Target, s: Stream, a: Action, cancelled: bool, space: bool, who: nat)
    requires DistinctIDs(t.log) && StreamInv(t.log, s, who) && a == Deliver(who)
    requires Advance(c, t, s, a, cancelled, space).Some?
    ensures var (n, sent) := Advance(c, t, s, a, cancelled, space).value; Kept(t.log, s, n, sent, who, space)
  {
    assert s.sent == Lines(who, t.log[s.from..s.to]);
    SegmentGrows(t.log, s.from, s.to, s.stage.next, s.sent, who);
  }

  lemma QuietStepKeeps(c: Config, t: Target, s: Stream, a: Action, cancelled: bool, space: bool, who: nat)
    requires DistinctIDs(t.log) && StreamInv(t.log, s, who)
    requires !a.Cancel? && !a.Pop? && !a.Deliver? && !a.Push? && a.who == who
    requires Advance(c, t, s, a, cancelled, space).Some?
    ensures var (n, sent) := Advance(c, t, s, a, cancelled, space).value; Kept(t.log, s, n, sent, who, space)
  {
    AdvanceQuiet(c, t, s, a, cancelled, space, who);
    if s.from < s.to { PositionIsUnique(t.log, s.to - 1); }
    QuietKeeps(t.log, s, Advance(c, t, s, a, cancelled, space).value.0, who);
    assert s.sent + [] == s.sent;
  }

  /** Each own step keeps the goroutine's order, and sends only its own lines. */
  lemma AdvanceKeeps(c: Config, t: Target, s: Stream, a: Action, cancelled: bool, space: bool, who: nat)
    requires DistinctIDs(t.log) && StreamInv(t.log, s, who)
    requires !a.Cancel? && !a.Pop? && a.who == who
    requires Advance(c, t, s, a, cancelled, space).Some?
    ensures var (n, sent) := Advance(c, t, s, a, cancelled, space).value; Kept(t.log, s, n, sent, who, space)
  {
    if a.Deliver? {
      DeliverKeeps(c, t, s, a, cancelled, space, who);
    } else if a.Push? {
      PushKeeps(t.log, s, who);
    } else {
      QuietStepKeeps(c, t, s, a, cancelled, space, who);
    }
  }

  lemma OfNext(who: nat, lines: seq<Line>, more: seq<Line>)
    requires |more| <= 1
    ensures Of(who, lines + more) == Of(who, lines) + if more != [] && more[0].who == who then more else []
  {
    if more == [] {
      assert lines + more == lines;
    } else {
      assert (lines + more)[..|lines + more| - 1] == lines;
    }
  }

  lemma AccountedNext(c: Config, s: System, t: System, who: nat, sent: seq<Line>, i: nat)
    requires i < |s.streams| == |c.targets| == |t.streams| && who < |s.streams|
    requires Accounted(c, s, i) && StreamInv(c.targets[i].log, t.streams[i], i)
    requires t.consumed + t.channel == s.consumed + s.channel + sent && |sent| <= 1 && (sent != [] ==> sent[0].who == who)
    requires t.streams[i].sent == if i == who then s.streams[i].sent + sent else s.streams[i].sent
    ensures Accounted(c, t, i)
  {
    OfNext(i, s.consumed + s.channel, sent);
  }

  lemma ApplyInv(c: Config, s: System, who: nat, r: Option<(Stream, seq<Line>)>)
    requires Inv(c, s) && who < |s.streams|
    requires r.Some? ==> Kept(c.targets[who].log, s.streams[who], r.value.0, r.value.1, who, |s.channel| < CAPACITY)
    ensures Inv(c, Apply(s, who, r))
  {
    var t := Apply(s, who, r);
    if r.Some? {
      assert t.consumed + t.channel == s.consumed + s.channel + r.value.1;
      forall i: nat | i < |t.streams| ensures Accounted(c, t, i) {
        assert Accounted(c, s, i);
        AccountedNext(c, s, t, who, r.value.1, i);
      }
    }
  }

  lemma SameStreams(c: Config, s: System, t: System)
    requires Inv(c, s) && t.streams == s.streams && t.consumed + t.channel == s.consumed + s.channel && |t.channel| <= |s.channel|
    ensures Inv(c, t)
  {
    forall i: nat | i < |t.streams| ensures Accounted(c, t, i) {
      assert Accounted(c, s, i);
    }
  }

  lemma OwnActionInv(c: Config, s: System, a: Action)
    requires WellFormed(c) && Inv(c, s) && !a.Pop? && !a.Cancel? && a.who < |s.streams|
    ensures Inv(c, Step(c, s, a))
  {
    var t, stream, space := c.targets[a.who], s.streams[a.who], |s.channel| < CAPACITY;
    var r := Advance(c, t, stream, a, s.cancelled, space);
    if r.Some? {
      assert Accounted(c, s, a.who);
      AdvanceKeeps(c, t, stream, a, s.cancelled, space, a.who);
    }
    ApplyInv(c, s, a.who, r);
    assert Step(c, s, a) == Apply(s, a.who, r);
  }

  lemma StepInv(c: Config, s: System, a: Action)
    requires WellFormed(c) && Inv(c, s)
    ensures Inv(c, Step(c, s, a))
  {
    if a.Pop? || a.Cancel? {
      assert Step(c, s, a).consumed + Step(c, s, a).channel == s.consumed + s.channel;
      SameStreams(c, s, Step(c, s, a));
    } else if a.who < |s.streams| {
      OwnActionInv(c, s, a);
    }
  }

  lemma StartInv(c: Config)
    ensures Inv(c, Start(c))
  {
    var s := Start(c);
    forall i: nat | i < |s.streams| ensures Accounted(c, s, i) {
      assert c.targets[i].log[0..0] == [] && s.consumed + s.channel == [];
    }
  }

  lemma {:induction false} RunInv(c: Config, actions: seq<Action>)
    requires WellFormed(c)
    ensures Inv(c, Run(c, actions))
  {
    if actions == [] {
      StartInv(c);
    } else {
      RunInv(c, actions[..|actions| - 1]);
      StepInv(c, Run(c, actions[..|actions| - 1]), actions[|actions| - 1]);
    }
  }

  // ---- Why a goroutine ended ----

  /** The action changed this goroutine. */
  predicate Moved(s: System, t: System, who: nat)
    requires |s.streams| == |t.streams|
  {
    who < |s.streams| && t.streams[who] != s.streams[who]
  }

  /** A goroutine's last move, and whether an event came since its last connection. */
  datatype Past = Past(last: Option<Action>, got: bool)

  /** The past after one more action; sending the closing line and giving up are no moves. */
  function NextPast(c: Config, s: System, a: Action, who: nat, m: Past): Past {
    if !Moved(s, Step(c, s, a), who) || a.Push? || a.Quit? then m
    else Past(Some(a), a.Deliver? || (m.got && !a.Connect?))
  }

  function PastOf(c: Config, actions: seq<Action>, who: nat): Past {
    if actions == [] then Past(None, false)
    else
      var init := actions[..|actions| - 1];
      NextPast(c, Run(c, init), actions[|actions| - 1], who, PastOf(c, init, who))
  }

  /** The server refused the connection, or the probe after a drop could not be read. */
  predicate FailedMove(m: Past) {
    m.last.Some? && ((m.last.value.Connect? && !m.last.value.ok) || (m.last.value.Ask? && m.last.value.probe == Unreadable))
  }

  /** The stream dropped and is not followed, or the probe after a drop found the run at its end. */
  predicate AtEnd(c: Config, m: Past) {
    m.last.Some? && ((m.last.value.Drop? && !c.follow) || (m.last.value.Ask? && m.last.value.probe == Terminal))
  }

  /** The probe after a drop found the run live. */
  predicate StillLive(m: Past) {
    m.last.Some? && m.last.value.Ask? && m.last.value.probe == Live
  }

  /** The closing line that this past calls for. */
  function ClosingLine(c: Config, who: nat, m: Past): seq<Line> {
    if FailedMove(m) then [Broken(who)] else if AtEnd(c, m) then [Finished(who)] else []
  }

  /**
   The goroutine is where its past leads: it connects at the start, after its pause, or at once when the dropped connection
   brought an event; it pauses when that brought none; and its closing line is what its last move calls for. Without one it
   was cancelled.
   */
  ghost predicate Explained(c: Config, s: Stream, m: Past, who: nat, cancelled: bool) {
    && s.from <= s.to && s.to - s.from <= |s.sent| && (!s.stage.Closed? ==> |s.sent| == s.to - s.from)
    && match s.stage
       case Connecting => m.last.None? || m.last.value.Wake? || (StillLive(m) && m.got)
       case Waiting => StillLive(m) && !m.got
       case Receiving(_, got) => got == m.got && m.last.Some? && (m.last.value.Deliver? || (m.last.value.Connect? && m.last.value.ok))
       case Probing(got) => got == m.got && c.follow && m.last.Some? && m.last.value.Drop?
       case Ending(line) => ClosingLine(c, who, m) == [line]
       case Closed => s.sent[s.to - s.from..] == ClosingLine(c, who, m) && (ClosingLine(c, who, m) == [] ==> cancelled)
  }

  lemma AdvanceExplained(c: Config, t: Target, s: Stream, a: Action, cancelled: bool, space: bool, who: nat, m: Past)
    requires StreamInv(t.log, s, who) && Explained(c, s, m, who, cancelled)
    requires !a.Cancel? && !a.Pop? && a.who == who && Advance(c, t, s, a, cancelled, space).Some?
    ensures var n := Advance(c, t, s, a, cancelled, space).value.0;
      n != s && Explained(c, n, if a.Push? || a.Quit? then m else Past(Some(a), a.Deliver? || (m.got && !a.Connect?)), who, cancelled)
  {
  }

  lemma OwnStepExplained(c: Config, s: System, a: Action, who: nat, m: Past)
    requires who < |s.streams| == |c.targets| && StreamInv(c.targets[who].log, s.streams[who], who)
    requires Explained(c, s.streams[who], m, who, s.cancelled) && !a.Cancel? && !a.Pop? && a.who == who
    ensures Explained(c, Step(c, s, a).streams[who], NextPast(c, s, a, who, m), who, s.cancelled)
  {
    var r := Advance(c, c.targets[who], s.streams[who], a, s.cancelled, |s.channel| < CAPACITY);
    assert Step(c, s, a) == Apply(s, who, r);
    if r.Some? {
      AdvanceExplained(c, c.targets[who], s.streams[who], a, s.cancelled, |s.channel| < CAPACITY, who, m);
    }
  }

  lemma StepExplained(c: Config, s: System, a: Action, who: nat, m: Past)
    requires Inv(c, s) && who < |s.streams| && Explained(c, s.streams[who], m, who, s.cancelled)
    ensures Explained(c, Step(c, s, a).streams[who], NextPast(c, s, a, who, m), who, Step(c, s, a).cancelled)
  {
    if a.Cancel? || a.Pop? || a.who != who {
      assert Step(c, s, a).streams[who] == s.streams[who];
    } else {
      assert Accounted(c, s, who);
      OwnStepExplained(c, s, a, who, m);
    }
  }

  /** In every schedule every goroutine is where its past leads. */
  lemma {:induction false} RunExplained(c: Config, actions: seq<Action>, who: nat)
    requires WellFormed(c) && who < |c.targets|
    ensures Explained(c, Run(c, actions).streams[who], PastOf(c, actions, who), who, Run(c, actions).cancelled)
  {
    if actions == [] {
      RunInv(c, actions);
    } else {
      var init, a := actions[..|actions| - 1], actions[|actions| - 1];
      RunExplained(c, init, who);
      RunInv(c, init);
      StepExplained(c, Run(c, init), a, who, PastOf(c, init, who));
    }
  }

  /** The context is cancelled exactly when that is asked for. */
  lemma {:induction false} CancelledIffAsked(c: Config, actions: seq<Action>)
    ensures Run(c, actions).cancelled <==> Cancel in actions
  {
    if actions != [] {
      var init, a := actions[..|actions| - 1], actions[|actions| - 1];
      CancelledIffAsked(c, init);
      assert actions == init + [a];
    }
  }

  /** A goroutine connects first, after its pause, or at once after a connection with events; it pauses only after one without. */
  lemma ConnectionsArePaced(c: Config, actions: seq<Action>, a: Action, who: nat)
    requires WellFormed(c) && who < |c.targets| && Moved(Run(c, actions), Step(c, Run(c, actions), a), who)
    ensures var m := PastOf(c, actions, who);
      && (a.Connect? ==> m.last.None? || m.last.value.Wake? || (StillLive(m) && m.got))
      && (a.Wake? ==> StillLive(m) && !m.got)
  {
    RunExplained(c, actions, who);
  }

  /** A cancelled goroutine that is about to connect or pauses can give up, without a closing line. */
  lemma CancelledCanQuit(c: Config, actions: seq<Action>, who: nat)
    requires WellFormed(c) && who < |c.targets| && Cancel in actions
    requires Run(c, actions).streams[who].stage.Connecting? || Run(c, actions).streams[who].stage.Waiting?
    ensures var s := Run(c, actions); var t := Step(c, s, Quit(who));
      t.streams[who].stage.Closed? && t.streams[who].sent == s.streams[who].sent && t.channel == s.channel
  {
    CancelledIffAsked(c, actions);
    var s := Run(c, actions);
    assert s.channel + [] == s.channel;
    assert Step(c, s, Quit(who)) == Apply(s, who, Advance(c, c.targets[who], s.streams[who], Quit(who), true, |s.channel| < CAPACITY));
  }

  /** The channel is closed and drained. */
  predicate Over(s: System) {
    s.channel == [] && forall t <- s.streams :: t.stage.Closed?
  }

  /** Whatever the schedule, what was printed of one run is its log's segment in order, and its one closing line comes last. */
  lemma MergeKeepsOrder(c: Config, actions: seq<Action>, who: nat)
    requires WellFormed(c) && who < |c.targets|
    ensures var s := Run(c, actions); var t := s.streams[who]; var log := c.targets[who].log;
      && t.from <= t.to <= |log|
      && var lines := Lines(who, log[t.from..t.to]);
         && (Of(who, s.consumed) <= lines || Of(who, s.consumed) == lines + [Broken(who)] || Of(who, s.consumed) == lines + [Finished(who)])
         && (Over(s) ==> lines <= Of(who, s.consumed))
  {
    RunInv(c, actions);
    var s := Run(c, actions);
    var t, log := s.streams[who], c.targets[who].log;
    assert Accounted(c, s, who);
    var lines := Lines(who, log[t.from..t.to]);
    assert t.sent == lines + t.sent[t.to - t.from..];
    OfPrefix(who, s.consumed, s.channel);
    if Over(s) { assert s.consumed + s.channel == s.consumed; }
  }

  lemma {:induction false} OfPrefix(who: nat, a: seq<Line>, b: seq<Line>)
    ensures Of(who, a) <= Of(who, a + b)
  {
    if b == [] {
      assert a + b == a;
    } else {
      OfPrefix(who, a, b[..|b| - 1]);
      assert (a + b)[..|a + b| - 1] == a + b[..|b| - 1];
    }
  }

  lemma NextAdvances(c: Config, t: Target, s: Stream, i: nat, cancelled: bool)
    requires !s.stage.Closed?
    ensures var r := Advance(c, t, s, NextOf(s.stage, i), cancelled, true); r.Some? && r.value.0.stage != s.stage
  {
  }

  lemma CanAdvance(c: Config, s: System, i: nat)
    requires i < |s.streams| == |c.targets| && !s.streams[i].stage.Closed? && s.channel == []
    ensures Step(c, s, NextOf(s.streams[i].stage, i)).streams[i].stage != s.streams[i].stage
  {
    var a := NextOf(s.streams[i].stage, i);
    assert a.who == i && !a.Pop? && !a.Cancel?;
    NextAdvances(c, c.targets[i], s.streams[i], i, s.cancelled);
  }

  /** Until the end, some step other than cancelling is possible: the bounded channel cannot deadlock. */
  lemma NoDeadlock(c: Config, actions: seq<Action>)
    requires WellFormed(c) && !Over(Run(c, actions))
    ensures exists a :: a != Cancel && Step(c, Run(c, actions), a) != Run(c, actions)
  {
    RunInv(c, actions);
    var s := Run(c, actions);
    if s.channel != [] {
      assert |Step(c, s, Pop).channel| < |s.channel|;
    } else {
      var i: nat :| i < |s.streams| && !s.streams[i].stage.Closed?;
      CanAdvance(c, s, i);
    }
  }

  function NextOf(stage: Stage, i: nat): Action {
    match stage
    case Connecting => Connect(i, true, 0)
    case Receiving(_, _) => Drop(i)
    case Probing(_) => Ask(i, Terminal)
    case Waiting => Wake(i)
    case _ => Push(i)
  }

  // ---- The consumer ----

  function Failures(lines: seq<Line>): (n: nat)
    ensures n <= |lines|
  {
    if lines == [] then 0 else Failures(lines[..|lines| - 1]) + if lines[|lines| - 1].Broken? then 1 else 0
  }

  /** The errors goroutine `who` sent. */
  function FailuresOf(lines: seq<Line>, who: nat): nat {
    Failures(Of(who, lines))
  }

  function Sum(f: nat -> nat, n: nat): nat {
    if n == 0 then 0 else Sum(f, n - 1) + f(n - 1)
  }

  lemma {:induction false} SumNext(f: nat -> nat, g: nat -> nat, who: nat, n: nat, more: nat)
    requires forall i: nat | i < n :: g(i) == f(i) + if i == who then more else 0
    ensures Sum(g, n) == Sum(f, n) + if who < n then more else 0
  {
    if n != 0 { SumNext(f, g, who, n - 1, more); }
  }

  /** The errors of the goroutines below `n`. */
  function Failed(lines: seq<Line>, n: nat): nat {
    Sum(i => FailuresOf(lines, i), n)
  }

  lemma FailuresOfNext(lines: seq<Line>, l: Line, who: nat)
    ensures FailuresOf(lines + [l], who) == FailuresOf(lines, who) + if l.who == who && l.Broken? then 1 else 0
  {
    OfNext(who, lines, [l]);
    var own := Of(who, lines);
    assert (own + [l])[..|own|] == own && own + [] == own;
  }

  lemma FailedNext(lines: seq<Line>, l: Line, n: nat)
    ensures Failed(lines + [l], n) == Failed(lines, n) + if l.who < n && l.Broken? then 1 else 0
  {
    forall i: nat | i < n ensures FailuresOf(lines + [l], i) == FailuresOf(lines, i) + if i == l.who then (if l.Broken? then 1 else 0) else 0 {
      FailuresOfNext(lines, l, i);
    }
    SumNext(i => FailuresOf(lines, i), i => FailuresOf(lines + [l], i), l.who, n, if l.Broken? then 1 else 0);
  }

  /** Counting by line and counting by goroutine agree. */
  lemma {:induction false} FailuresAreFailed(lines: seq<Line>, n: nat)
    requires forall l <- lines :: l.who < n
    ensures Failures(lines) == Failed(lines, n)
  {
    if lines == [] {
      NoneFailed(n);
    } else {
      FailuresAreFailed(lines[..|lines| - 1], n);
      FailedNext(lines[..|lines| - 1], lines[|lines| - 1], n);
      assert lines == lines[..|lines| - 1] + [lines[|lines| - 1]];
    }
  }

  lemma {:induction false} NoneFailed(n: nat)
    ensures Failed([], n) == 0
  {
    if n != 0 { NoneFailed(n - 1); }
  }

  lemma {:induction false} NoFailures(who: nat, events: seq<Event>)
    ensures Failures(Lines(who, events)) == 0
  {
    if events != [] {
      assert Lines(who, events)[..|events| - 1] == Lines(who, events[..|events| - 1]);
      NoFailures(who, events[..|events| - 1]);
    }
  }

  /** The goroutine's last line is its error. */
  predicate EndedInError(lines: seq<Line>, who: nat) {
    var own := Of(who, lines);
    own != [] && own[|own| - 1] == Broken(who)
  }

  /** Each goroutine fails at most once. */
  lemma FailsOnce(c: Config, actions: seq<Action>, who: nat)
    requires WellFormed(c) && who < |c.targets|
    ensures FailuresOf(Run(c, actions).consumed, who) == if EndedInError(Run(c, actions).consumed, who) then 1 else 0
  {
    MergeKeepsOrder(c, actions, who);
    var t := Run(c, actions).streams[who];
    var events := c.targets[who].log[t.from..t.to];
    var own := Of(who, Run(c, actions).consumed);
    if own <= Lines(who, events) {
      assert own == Lines(who, events[..|own|]);
      NoFailures(who, events[..|own|]);
    } else {
      assert own[..|own| - 1] == Lines(who, events);
      NoFailures(who, events);
    }
  }

  lemma {:induction false} AllFailed(lines: seq<Line>, n: nat)
    requires forall i: nat | i < n :: FailuresOf(lines, i) == if EndedInError(lines, i) then 1 else 0
    ensures Failed(lines, n) <= n
    ensures Failed(lines, n) == n <==> forall i: nat | i < n :: EndedInError(lines, i)
  {
    if n != 0 { AllFailed(lines, n - 1); }
  }

  datatype Print = Print(prefix: string, run: string, event: Event)

  function Printed(c: Config, lines: seq<Line>): seq<Print>
    requires forall l <- lines :: l.who < |c.targets|
  {
    if lines == [] then []
    else
      var last := lines[|lines| - 1];
      var t := c.targets[last.who];
      Printed(c, lines[..|lines| - 1])
        + if last.Shown? then [Print(if t.key == "" then t.run else t.key, t.run, last.event)] else []
  }

  lemma PrintedNext(c: Config, lines: seq<Line>, i: nat)
    requires i < |lines| && forall l <- lines :: l.who < |c.targets|
    ensures forall l <- lines[..i + 1] :: l.who < |c.targets|
    ensures var l := lines[i]; var t := c.targets[l.who];
      Printed(c, lines[..i + 1])
      == if l.Shown? then Printed(c, lines[..i]) + [Print(if t.key == "" then t.run else t.key, t.run, l.event)] else Printed(c, lines[..i])
    ensures Failures(lines[..i + 1]) == Failures(lines[..i]) + if lines[i].Broken? then 1 else 0
  {
    assert lines[..i + 1][..i] == lines[..i] && lines[..i + 1][i] == lines[i];
  }

  function ShownCount(lines: seq<Line>): nat {
    if lines == [] then 0 else ShownCount(lines[..|lines| - 1]) + if lines[|lines| - 1].Shown? then 1 else 0
  }

  /** Every event line is printed once, in its order, under its target's key, or under the run ID where that is empty. */
  lemma {:induction false} PrintedAt(c: Config, lines: seq<Line>, i: nat)
    requires (forall l <- lines :: l.who < |c.targets|) && i < |lines|
    ensures ShownCount(lines[..i]) <= ShownCount(lines) == |Printed(c, lines)|
    ensures lines[i].Shown? ==>
      && ShownCount(lines[..i]) < |Printed(c, lines)|
      && var p := Printed(c, lines)[ShownCount(lines[..i])];
         && p.run == c.targets[lines[i].who].run && p.event == lines[i].event
         && (c.targets[lines[i].who].key != "" ==> p.prefix == c.targets[lines[i].who].key)
         && (c.targets[lines[i].who].key == "" ==> p.prefix == p.run)
  {
    var n := |lines| - 1;
    if i < n {
      assert lines[..n][..i] == lines[..i];
      PrintedAt(c, lines[..n], i);
    } else if n > 0 {
      PrintedAt(c, lines[..n], n - 1);
    }
  }

  /** The loop over the channel, which counts errors and prints events. */
  method Drain(c: Config, lines: seq<Line>) returns (failedStreams: nat, printed: seq<Print>)
    requires forall l <- lines :: l.who < |c.targets|
    ensures failedStreams == Failures(lines) && printed == Printed(c, lines)
  {
    failedStreams, printed := 0, [];
    for i := 0 to |lines|
      invariant failedStreams == Failures(lines[..i]) && printed == Printed(c, lines[..i])
    {
      var line := lines[i];
      PrintedNext(c, lines, i);
      if line.Broken? {
        failedStreams := failedStreams + 1;
        continue;
      }
      if line.Finished? { continue; }
      var t := c.targets[line.who];
      var prefix := t.key;
      if prefix == "" { prefix := t.run; }
      printed := printed + [Print(prefix, t.run, line.event)];
    }
    assert lines[..|lines|] == lines;
  }

  /** A drained goroutine's last line is its error exactly if its last move failed, and its end exactly if that was at the end. */
  lemma EndedByLastMove(c: Config, actions: seq<Action>, who: nat)
    requires WellFormed(c) && who < |c.targets| && Over(Run(c, actions))
    ensures var lines, m := Run(c, actions).consumed, PastOf(c, actions, who);
      && (EndedInError(lines, who) <==> FailedMove(m))
      && (Finished(who) in Of(who, lines) <==> AtEnd(c, m))
      && (!FailedMove(m) && !AtEnd(c, m) ==> Cancel in actions)
  {
    RunInv(c, actions);
    RunExplained(c, actions, who);
    CancelledIffAsked(c, actions);
    var s := Run(c, actions);
    var t := s.streams[who];
    assert Accounted(c, s, who) && s.consumed + s.channel == s.consumed && t.stage.Closed?;
    var shown := Lines(who, c.targets[who].log[t.from..t.to]);
    assert t.sent == shown + t.sent[t.to - t.from..];
  }

  /** Every goroutine's last move was a refused connection or an unreadable probe. */
  ghost predicate AllMovesFailed(c: Config, actions: seq<Action>) {
    forall i: nat | i < |c.targets| :: LastMoveFailed(c, actions, i)
  }

  predicate LastMoveFailed(c: Config, actions: seq<Action>, who: nat) {
    FailedMove(PastOf(c, actions, who))
  }

  lemma ErrorsAreFailedMoves(c: Config, actions: seq<Action>, lines: seq<Line>)
    requires WellFormed(c) && Over(Run(c, actions)) && lines == Run(c, actions).consumed
    ensures AllMovesFailed(c, actions) <==> forall i: nat | i < |c.targets| :: EndedInError(lines, i)
  {
    forall i: nat | i < |c.targets| ensures EndedInError(lines, i) <==> LastMoveFailed(c, actions, i) {
      EndedByLastMove(c, actions, i);
    }
  }

  /** The consumer of `runEvalsetLogs`, over the lines that one complete schedule brings it. */
  method Consume(c: Config, ghost actions: seq<Action>, lines: seq<Line>) returns (failed: bool, printed: seq<Print>)
    requires WellFormed(c) && c.targets != []
    requires Over(Run(c, actions)) && lines == Run(c, actions).consumed
    ensures failed <==> forall i: nat | i < |c.targets| :: EndedInError(lines, i)
    ensures failed <==> AllMovesFailed(c, actions)
    ensures (forall l <- lines :: l.who < |c.targets|) && printed == Printed(c, lines)
  {
    RunInv(c, actions);
    assert forall l <- lines :: l in Run(c, actions).consumed + Run(c, actions).channel;
    var failedStreams;
    failedStreams, printed := Drain(c, lines);
    failed := failedStreams > 0 && failedStreams >= |c.targets|;
    FailuresAreFailed(lines, |c.targets|);
    forall i: nat | i < |c.targets| ensures FailuresOf(lines, i) == if EndedInError(lines, i) then 1 else 0 { FailsOnce(c, actions, i); }
    AllFailed(lines, |c.targets|);
    ErrorsAreFailedMoves(c, actions, lines);
  }
}
