/** The poll loop with a deadline of `cli/cmd/ci_run.go`. Times are nanoseconds of a clock that never goes back. */
module Polling {
  import opened Wrappers
  import opened Text

  /** What one probe of the run answers. */
  datatype Answer = Unreadable | Status(text: string)

  datatype Wait = ReadFailed | Interrupted | Succeeded | RunFailed(text: string) | TimedOut | StillWaiting

  /** What the loop does with the outside world: a probe, a reading of the clock, a sleep that was full or interrupted. */
  datatype Tick = Probed(answer: Answer) | Read(at: int) | Slept(length: int, full: bool)

  const SUCCESS: seq<string> := ["completed", "succeeded", "success"]
  const FAILURE: seq<string> :=
    ["failed", "error", "errored", "canceled", "cancelled", "aborted", "timed_out", "timeout", "expired"]

  // ---- Statuses ----

  /** `ciRunTerminalStatus`: whether the status is terminal, and whether it is a success. */
  function TerminalStatus(status: string): (bool, bool) {
    var word := Lower(Trim(status));
    if word in SUCCESS then (true, true) else if word in FAILURE then (true, false) else (false, false)
  }

  /** Case and surrounding white space do not matter. */
  lemma StatusIgnoresCaseAndSpace(before: string, status: string, after: string)
    requires (forall c <- before :: IsSpace(c)) && (forall c <- after :: IsSpace(c))
    ensures TerminalStatus(before + status + after) == TerminalStatus(status)
    ensures TerminalStatus(Lower(status)) == TerminalStatus(status)
  {
    TrimIgnoresPadding(before, status, after);
    TrimLowers(status);
    LowerTwice(Trim(status));
  }

  /** A status with one of these words, whatever its case and padding. */
  predicate Says(a: Answer, words: set<string>) {
    a.Status? && Lower(Trim(a.text)) in words
  }

  /** The words of success and of failure. */
  lemma TerminalWords(text: string)
    ensures Says(Status(text), {"completed", "succeeded", "success"}) <==> TerminalStatus(text) == (true, true)
    ensures Says(Status(text), {"failed", "error", "errored", "canceled", "cancelled", "aborted", "timed_out", "timeout", "expired"})
       <==> TerminalStatus(text) == (true, false)
  {
    ListsAreDisjoint(Lower(Trim(text)));
  }

  /** Neither list holds a word of the other, so the order of the cases does not matter. */
  lemma ListsAreDisjoint(word: string)
    ensures !(word in SUCCESS && word in FAILURE)
  {
    if word in SUCCESS {
      assert word[0] == 'c' || word[0] == 's';
      assert word[0] == 'c' ==> word[1] == 'o';
    }
  }

  /** The run goes on. */
  predicate Live(a: Answer) {
    a.Status? && !TerminalStatus(a.text).0
  }

  // ---- Measures of a trace ----

  function Probes(trace: seq<Tick>): nat {
    if trace == [] then 0 else Probes(trace[..|trace| - 1]) + if trace[|trace| - 1].Probed? then 1 else 0
  }

  /** The answers received, in order. */
  function Answers(trace: seq<Tick>): seq<Answer> {
    if trace == [] then []
    else Answers(trace[..|trace| - 1]) + if trace[|trace| - 1].Probed? then [trace[|trace| - 1].answer] else []
  }

  // ---- The deadline ----

  datatype Deadline = Never | Until(time: int)

  function Min(a: int, b: int): int {
    if a < b then a else b
  }

  /**
   A sleep at place `i`: the whole interval, or what the reading just before it leaves until the deadline.
   Only the last one can have been interrupted.
   */
  predicate SleptRight(trace: seq<Tick>, i: nat, interval: int, deadline: Deadline)
    requires i < |trace|
  {
    trace[i].Slept? ==>
      && trace[i].length > 0 && (i < |trace| - 1 ==> trace[i].full)
      && if deadline.Never? then trace[i].length == interval
         else i > 0 && trace[i - 1].Read? && trace[i].length == Min(interval, deadline.time - trace[i - 1].at)
  }

  ghost predicate Bounded(trace: seq<Tick>, interval: int, deadline: Deadline) {
    forall i: nat {:trigger SleptRight(trace, i, interval, deadline)} | i < |trace| :: SleptRight(trace, i, interval, deadline)
  }

  /** The last tick is an interrupted sleep. */
  predicate Broken(trace: seq<Tick>) {
    trace != [] && trace[|trace| - 1].Slept? && !trace[|trace| - 1].full
  }

  /** The last two ticks: a live answer, then a reading at or past the deadline. */
  predicate Expired(trace: seq<Tick>, deadline: Deadline) {
    && deadline.Until? && |trace| >= 2
    && trace[|trace| - 1].Read? && trace[|trace| - 1].at >= deadline.time
    && trace[|trace| - 2].Probed? && Live(trace[|trace| - 2].answer)
  }

  /** No sleep, counted from the reading that set its length, passes the deadline. */
  lemma SleepsEndInTime(trace: seq<Tick>, interval: int, time: int, i: nat)
    requires Bounded(trace, interval, Until(time)) && i < |trace| && trace[i].Slept?
    ensures i > 0 && trace[i - 1].Read? && trace[i - 1].at + trace[i].length <= time
    ensures 0 < trace[i].length <= interval
  {
    assert SleptRight(trace, i, interval, Until(time));
  }

  lemma BoundedNext(trace: seq<Tick>, tick: Tick, interval: int, deadline: Deadline)
    requires Bounded(trace, interval, deadline) && !Broken(trace) && SleptRight(trace + [tick], |trace|, interval, deadline)
    ensures Bounded(trace + [tick], interval, deadline)
  {
    forall i: nat | i < |trace + [tick]| ensures SleptRight(trace + [tick], i, interval, deadline) {
      if i < |trace| { assert SleptRight(trace, i, interval, deadline); }
    }
  }

  lemma CountNext(trace: seq<Tick>, tick: Tick)
    ensures Probes(trace + [tick]) == Probes(trace) + if tick.Probed? then 1 else 0
    ensures Answers(trace + [tick]) == if tick.Probed? then Answers(trace) + [tick.answer] else Answers(trace)
  {
    assert (trace + [tick])[..|trace|] == trace;
  }

  function CeilDiv(a: int, b: int): int
    requires b > 0
  {
    (a + b - 1) / b
  }

  lemma BelowCeil(k: int, a: int, b: int)
    requires b > 0 && k * b < a
    ensures k + 1 <= CeilDiv(a, b)
  {
    assert (k + 1) * b <= a + b - 1;
  }

  lemma MulNext(k: int, b: int)
    ensures (k + 1) * b == k * b + b
  {
  }

  // ---- The world ----

  /** The run's answers, the clock, and everything the loop did with them. */
  class World {
    const answers: seq<Answer>
    var next: nat
    var now: int
    ghost var trace: seq<Tick>

    ghost predicate Valid()
      reads this
    {
      next <= |answers| && Answers(trace) == answers[..next] && Probes(trace) == next
    }

    constructor (answers: seq<Answer>, now: int)
      ensures Valid() && this.answers == answers && this.now == now && trace == []
    {
      this.answers, next, this.now, trace := answers, 0, now, [];
    }

    /** Some time passes. */
    method Pass(least: int)
      requires least >= 0
      modifies this`now
      ensures now >= old(now) + least
    {
      var later: int := *;
      now := if later < now + least then now + least else later;
    }

    /** `getCIRun`. */
    method Probe() returns (answer: Answer)
      requires Valid() && next < |answers|
      modifies this
      ensures Valid() && next == old(next) + 1 && answer == answers[old(next)]
      ensures now >= old(now) && trace == old(trace) + [Probed(answer)]
    {
      answer := answers[next];
      next := next + 1;
      CountNext(trace, Probed(answer));
      trace := trace + [Probed(answer)];
      Pass(0);
    }

    method Now() returns (at: int)
      requires Valid()
      modifies this`now, this`trace
      ensures Valid() && at == now >= old(now) && trace == old(trace) + [Read(at)]
    {
      Pass(0);
      at := now;
      CountNext(trace, Read(at));
      trace := trace + [Read(at)];
    }

    /** `sleepCIRunPoll`: a sleep that is not interrupted lasts at least as long as asked. */
    method Sleep(length: int) returns (ok: bool)
      requires Valid() && length > 0
      modifies this`now, this`trace
      ensures Valid() && trace == old(trace) + [Slept(length, ok)]
      ensures now >= old(now) && (ok ==> now >= old(now) + length)
    {
      ok := *;
      CountNext(trace, Slept(length, ok));
      trace := trace + [Slept(length, ok)];
      Pass(if ok then length else 0);
    }
  }

  /** The pause before the next probe. */
  method Pause(w: World, interval: int, deadline: Deadline) returns (ok: bool)
    requires w.Valid() && Bounded(w.trace, interval, deadline) && w.trace != [] && !w.trace[|w.trace| - 1].Slept?
    requires deadline.Until? ==> w.trace[|w.trace| - 1].Read?
    modifies w`now, w`trace
    ensures w.Valid() && Bounded(w.trace, interval, deadline) && old(w.trace) <= w.trace && w.now >= old(w.now)
    ensures ok && interval > 0 ==> w.now >= old(w.now) + interval || (deadline.Until? && w.now >= deadline.time)
    ensures ok <==> !Broken(w.trace)
    ensures !Expired(w.trace, deadline)
  {
    var sleepFor := interval;
    if deadline.Until? {
      var now := w.Now();
      BoundedNext(old(w.trace), Read(now), interval, deadline);
      var remaining := deadline.time - now;
      if remaining < sleepFor { sleepFor := remaining; }
    }
    ok := true;
    if sleepFor > 0 {
      ghost var t := w.trace;
      ok := w.Sleep(sleepFor);
      BoundedNext(t, Slept(sleepFor, ok), interval, deadline);
    }
  }

  /** How one answer ends the wait, if it does. */
  function EndOf(a: Answer): Option<Wait> {
    if a.Unreadable? then Some(ReadFailed)
    else if !TerminalStatus(a.text).0 then None
    else if TerminalStatus(a.text).1 then Some(Succeeded) else Some(RunFailed(a.text))
  }

  lemma LiveGoesOn(a: Answer)
    ensures Live(a) <==> EndOf(a).None?
  {
  }

  /** How the wait ended shows in the last answer and the last ticks. */
  ghost predicate EndsAs(end: Wait, answers: seq<Answer>, trace: seq<Tick>, deadline: Deadline) {
    && (forall i | 0 <= i < |answers| - 1 :: Live(answers[i]))
    && (end.ReadFailed? || end.Succeeded? || end.RunFailed? <==> answers != [] && !Live(answers[|answers| - 1]))
    && (answers != [] && !Live(answers[|answers| - 1]) ==> EndOf(answers[|answers| - 1]) == Some(end))
    && (end.TimedOut? <==> Expired(trace, deadline))
    && (end.Interrupted? <==> Broken(trace))
  }

  /** The comparison with the deadline. */
  method Overdue(w: World, interval: int, deadline: Deadline) returns (late: bool)
    requires w.Valid() && Bounded(w.trace, interval, deadline)
    requires w.trace != [] && w.trace[|w.trace| - 1].Probed? && Live(w.trace[|w.trace| - 1].answer)
    modifies w`now, w`trace
    ensures w.Valid() && Bounded(w.trace, interval, deadline) && old(w.trace) <= w.trace && w.now >= old(w.now)
    ensures w.trace != [] && !w.trace[|w.trace| - 1].Slept?
    ensures deadline.Until? ==> w.trace[|w.trace| - 1].Read?
    ensures late <==> Expired(w.trace, deadline)
    ensures !late && deadline.Until? ==> old(w.now) < deadline.time
  {
    late := false;
    if deadline.Until? {
      var now := w.Now();
      BoundedNext(old(w.trace), Read(now), interval, deadline);
      late := now >= deadline.time;
    }
  }

  /** One turn of the loop. */
  method Turn(w: World, interval: int, deadline: Deadline) returns (end: Option<Wait>)
    requires w.Valid() && Bounded(w.trace, interval, deadline) && !Expired(w.trace, deadline) && w.next < |w.answers|
    requires !Broken(w.trace)
    modifies w
    ensures w.Valid() && Bounded(w.trace, interval, deadline) && old(w.trace) <= w.trace
    ensures w.next == old(w.next) + 1
    ensures end.None? ==> Live(w.answers[old(w.next)]) && !Expired(w.trace, deadline) && !Broken(w.trace)
    ensures end.None? && deadline.Until? ==> old(w.now) < deadline.time
    ensures end.None? && interval > 0 ==> w.now >= old(w.now) + interval || (deadline.Until? && w.now >= deadline.time)
    ensures end.Some? ==>
      && !end.value.StillWaiting?
      && (EndOf(w.answers[old(w.next)]) == end || (Live(w.answers[old(w.next)]) && (end.value.TimedOut? || end.value.Interrupted?)))
      && (end.value.TimedOut? <==> Expired(w.trace, deadline))
      && (end.value.Interrupted? <==> Broken(w.trace))
  {
    ghost var t := w.trace;
    var answer := w.Probe();
    BoundedNext(t, Probed(answer), interval, deadline);
    if answer.Unreadable? { return Some(ReadFailed); }
    var (terminal, ok) := TerminalStatus(answer.text);
    if terminal { return Some(if ok then Succeeded else RunFailed(answer.text)); }
    var late := Overdue(w, interval, deadline);
    if late { return Some(TimedOut); }
    var rested := Pause(w, interval, deadline);
    end := if rested then None else Some(Interrupted);
  }

  /** The end of the wait in the words of the last answer. */
  lemma EndInWords(end: Wait, answers: seq<Answer>, trace: seq<Tick>, deadline: Deadline)
    requires EndsAs(end, answers, trace, deadline)
    ensures var n := |answers|;
      && (end.Succeeded? <==> n > 0 && Says(answers[n - 1], {"completed", "succeeded", "success"}))
      && (end.RunFailed? <==> n > 0 && Says(answers[n - 1],
            {"failed", "error", "errored", "canceled", "cancelled", "aborted", "timed_out", "timeout", "expired"}))
      && (end.RunFailed? ==> end.text == answers[n - 1].text)
      && (end.ReadFailed? <==> n > 0 && answers[n - 1].Unreadable?)
  {
    if answers != [] && answers[|answers| - 1].Status? { TerminalWords(answers[|answers| - 1].text); }
  }

  /** `waitForCIRunCompletion`, until an answer ends it or the given answers run out. */
  method WaitForCompletion(w: World, timeout: int, interval: int) returns (end: Wait, deadline: Deadline)
    requires w.Valid() && w.next == 0 && w.trace == []
    modifies w
    ensures w.Valid() && EndsAs(end, w.answers[..w.next], w.trace, deadline)
    ensures end.Succeeded? <==> w.next > 0 && Says(w.answers[w.next - 1], {"completed", "succeeded", "success"})
    ensures end.RunFailed? <==> w.next > 0 && Says(w.answers[w.next - 1],
      {"failed", "error", "errored", "canceled", "cancelled", "aborted", "timed_out", "timeout", "expired"})
    ensures end.RunFailed? ==> end.text == w.answers[w.next - 1].text
    ensures end.ReadFailed? <==> w.next > 0 && w.answers[w.next - 1].Unreadable?
    ensures timeout > 0 ==> w.trace != [] && w.trace[0].Read? && deadline == Until(w.trace[0].at + timeout)
    ensures timeout <= 0 ==> deadline == Never
    ensures Bounded(w.trace, interval, deadline)
    ensures end.StillWaiting? ==> w.next == |w.answers|
    ensures timeout > 0 && interval > 0 ==> Probes(w.trace) <= CeilDiv(timeout, interval) + 1
    ensures timeout > 0 && interval > 0 && end.StillWaiting? ==> |w.answers| <= CeilDiv(timeout, interval)
  {
    end, deadline := Poll(w, timeout, interval);
    EndInWords(end, w.answers[..w.next], w.trace, deadline);
  }

  /** The loop itself. */
  method Poll(w: World, timeout: int, interval: int) returns (end: Wait, deadline: Deadline)
    requires w.Valid() && w.next == 0 && w.trace == []
    modifies w
    ensures w.Valid() && EndsAs(end, w.answers[..w.next], w.trace, deadline)
    ensures timeout > 0 ==> w.trace != [] && w.trace[0].Read? && deadline == Until(w.trace[0].at + timeout)
    ensures timeout <= 0 ==> deadline == Never
    ensures Bounded(w.trace, interval, deadline)
    ensures end.StillWaiting? ==> w.next == |w.answers|
    ensures timeout > 0 && interval > 0 ==> Probes(w.trace) <= CeilDiv(timeout, interval) + 1
    ensures timeout > 0 && interval > 0 && end.StillWaiting? ==> |w.answers| <= CeilDiv(timeout, interval)
  {
    deadline := Never;
    if timeout > 0 {
      var start := w.Now();
      deadline := Until(start + timeout);
    }
    ghost var began, elapsed := w.now, 0;
    while w.next < |w.answers|
      invariant w.Valid() && Bounded(w.trace, interval, deadline) && !Expired(w.trace, deadline) && !Broken(w.trace)
      invariant timeout > 0 ==> w.trace != [] && w.trace[0] == Read(began) && deadline == Until(began + timeout)
      invariant timeout <= 0 ==> deadline == Never
      invariant forall i | 0 <= i < w.next :: Live(w.answers[i])
      invariant elapsed == w.next * interval
      invariant timeout > 0 && interval > 0 ==> w.now >= began + timeout || w.now >= began + elapsed
      invariant timeout > 0 && interval > 0 ==> w.next <= CeilDiv(timeout, interval)
      decreases |w.answers| - w.next
    {
      var finished := Turn(w, interval, deadline);
      if finished.Some? {
        LiveGoesOn(w.answers[w.next - 1]);
        return finished.value, deadline;
      }
      if timeout > 0 && interval > 0 { BelowCeil(w.next - 1, timeout, interval); }
      MulNext(w.next - 1, interval);
      elapsed := elapsed + interval;
    }
    end := StillWaiting;
  }
}
