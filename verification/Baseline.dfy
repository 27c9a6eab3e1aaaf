/**
 Baseline resolution of `cli/cmd/ci.go`: list every run, sort newest first, and stop at the
 first run that passes all checks or that proves the rest too old.
 */
module Baseline {
  import opened Wrappers
  import opened Text
  import StableSort

  datatype Run = Run(
    id: string, workspace: string, status: string, packVersion: string, inputSet: string, createdAt: string, finishedAt: string)

  datatype Agent = Agent(id: string, status: string, deployment: string)

  /** The manifest fields that matter here, the clock, and what the server and the RFC 3339 parser answer. */
  datatype Query = Query(
    workspace: string, packVersion: string, inputSet: string, maxAgeDays: int, deployment: string, now: int,
    parse: string -> Option<int>, agentsOf: string -> Option<seq<Agent>>)

  const INT64_MIN: int := -0x8000_0000_0000_0000
  const INT64_MAX: int := 0x7FFF_FFFF_FFFF_FFFF
  const DAY := 86_400_000_000_000

  /** `Time.Sub` saturates. */
  function Sub(now: int, since: int): int {
    var d := now - since;
    if d < INT64_MIN then INT64_MIN else if d > INT64_MAX then INT64_MAX else d
  }

  /** `time.Duration(days) * 24 * time.Hour` wraps. */
  function Window(days: int): int {
    var d := (days * DAY) % (INT64_MAX - INT64_MIN + 1);
    if d > INT64_MAX then d - (INT64_MAX - INT64_MIN + 1) else d
  }

  function Parsed(q: Query, raw: string): Option<int> {
    if Trim(raw) == "" then None else q.parse(raw)
  }

  /** When the run finished, or else when it was created. */
  function Timestamp(q: Query, r: Run): Option<int> {
    if Parsed(q, r.finishedAt).Some? then Parsed(q, r.finishedAt) else Parsed(q, r.createdAt)
  }

  /** What two runs are compared by. */
  datatype Stamp = Stamp(at: Option<int>, created: string, id: string)

  function StampOf(q: Query, r: Run): Stamp {
    Stamp(Timestamp(q, r), r.createdAt, r.id)
  }

  /** The four levels of `ciBaselineRunNewer`. */
  predicate After(a: Stamp, b: Stamp) {
    if a.at.Some? && b.at.Some? && a.at != b.at then a.at.value > b.at.value
    else if a.at.Some? != b.at.Some? then a.at.Some?
    else if a.created != b.created then Less(b.created, a.created)
    else Less(b.id, a.id)
  }

  predicate Newer(q: Query, a: Run, b: Run) {
    After(StampOf(q, a), StampOf(q, b))
  }

  lemma AfterIsStrictAndTotal(a: Stamp, b: Stamp)
    ensures !(After(a, b) && After(b, a))
    ensures a == b || After(a, b) || After(b, a)
  {
    LessIsTotal(a.created, b.created);
    LessIsTotal(a.id, b.id);
  }

  lemma AfterIsTransitive(a: Stamp, b: Stamp, c: Stamp)
    requires After(a, b) && After(b, c)
    ensures After(a, c)
  {
    if a.at == b.at == c.at {
      LessIsTotal(a.created, b.created);
      if a.created == b.created == c.created {
        LessIsTransitive(c.id, b.id, a.id);
      } else if a.created != b.created && b.created != c.created {
        LessIsTransitive(c.created, b.created, a.created);
      }
    }
  }

  /** A strict order, total on runs with distinct IDs. */
  lemma NewerIsStrictAndTotal(q: Query, a: Run, b: Run)
    ensures !(Newer(q, a, b) && Newer(q, b, a))
    ensures a.id != b.id ==> Newer(q, a, b) || Newer(q, b, a)
  {
    AfterIsStrictAndTotal(StampOf(q, a), StampOf(q, b));
  }

  lemma NewerIsTransitive(q: Query, a: Run, b: Run, c: Run)
    requires Newer(q, a, b) && Newer(q, b, c)
    ensures Newer(q, a, c)
  {
    AfterIsTransitive(StampOf(q, a), StampOf(q, b), StampOf(q, c));
  }

  /** Not being newer is transitive too, because only equal stamps are not ordered. */
  lemma NotNewerIsTransitive(q: Query, a: Run, b: Run, c: Run)
    requires !Newer(q, b, a) && !Newer(q, c, b)
    ensures !Newer(q, c, a)
  {
    var x, y, z := StampOf(q, a), StampOf(q, b), StampOf(q, c);
    AfterIsStrictAndTotal(x, y);
    AfterIsStrictAndTotal(y, z);
    AfterIsStrictAndTotal(x, z);
    if x != y && y != z { AfterIsTransitive(x, y, z); }
  }

  /** A parsed finishing time counts, or else a parsed creation time; blank fields are not parsed. */
  lemma TimestampIsFinishedFirst(q: Query, r: Run)
    ensures Trim(r.finishedAt) != "" && q.parse(r.finishedAt).Some? ==> Timestamp(q, r) == q.parse(r.finishedAt)
    ensures (Trim(r.finishedAt) == "" || q.parse(r.finishedAt).None?) && Trim(r.createdAt) != "" ==>
      Timestamp(q, r) == q.parse(r.createdAt)
    ensures Trim(r.finishedAt) == "" && Trim(r.createdAt) == "" ==> Timestamp(q, r).None?
  {
  }

  /** Later times come first, known times before unknown ones; then the larger creation text, then the larger ID. */
  lemma NewerIsLater(q: Query, a: Run, b: Run)
    ensures var s, t := Timestamp(q, a), Timestamp(q, b);
      && (s.Some? && t.Some? && s.value > t.value ==> Newer(q, a, b))
      && (s.Some? && t.None? ==> Newer(q, a, b))
      && (s == t && Less(b.createdAt, a.createdAt) ==> Newer(q, a, b))
      && (s == t && a.createdAt == b.createdAt && Less(b.id, a.id) ==> Newer(q, a, b))
  {
    LessIsTotal(a.createdAt, b.createdAt);
  }

  function Order(q: Query): (before: (Run, Run) -> bool)
    ensures forall a: Run, b: Run :: before(a, b) == Newer(q, a, b)
  {
    (a, b) => Newer(q, a, b)
  }

  lemma NewerIsWeakOrder(q: Query)
    ensures StableSort.WeakOrder(Order(q))
  {
    forall a: Run, b: Run ensures !(Newer(q, a, b) && Newer(q, b, a)) { NewerIsStrictAndTotal(q, a, b); }
    forall a: Run, b: Run, c: Run ensures !Newer(q, b, a) && !Newer(q, c, b) ==> !Newer(q, c, a) {
      if !Newer(q, b, a) && !Newer(q, c, b) { NotNewerIsTransitive(q, a, b, c); }
    }
  }

  // ---- The checks on one run ----

  datatype Reason =
    | OtherWorkspace | NotCompleted | OtherPackVersion | OtherInputSet | NoTimestamp | TooOld
    | AgentNotCompleted(agent: string) | NoAgent
  datatype Rejection = Rejection(run: string, reason: Reason)

  /** `validateCIBaselineAge`. */
  function AgeError(q: Query, r: Run): Option<Reason> {
    if q.maxAgeDays <= 0 then None
    else
      var t := Timestamp(q, r);
      if t.None? then Some(NoTimestamp)
      else if Sub(q.now, t.value) > Window(q.maxAgeDays) then Some(TooOld) else None
  }

  /** `validateCIBaselineRun`. */
  function RunError(q: Query, r: Run): Option<Reason> {
    if r.workspace != "" && q.workspace != "" && r.workspace != q.workspace then Some(OtherWorkspace)
    else if r.status != "completed" then Some(NotCompleted)
    else if r.packVersion != "" && q.packVersion != "" && r.packVersion != q.packVersion then Some(OtherPackVersion)
    else if q.inputSet != "" && r.inputSet != q.inputSet then Some(OtherInputSet)
    else AgeError(q, r)
  }

  /** A time is within the age limit, in the arithmetic of the clock library. */
  predicate Fresh(q: Query, at: int) {
    Sub(q.now, at) <= Window(q.maxAgeDays)
  }

  /** Up to 106751 days, and not beyond, the limit means that many days for every time. */
  lemma FreshIsYoung(q: Query)
    requires q.maxAgeDays > 0
    ensures (forall at :: Fresh(q, at) <==> q.now - at <= q.maxAgeDays * DAY) <==> q.maxAgeDays <= 106751
  {
    var span := q.maxAgeDays * DAY;
    if q.maxAgeDays <= 106751 {
      assert span <= 106751 * DAY < INT64_MAX;
    } else {
      assert span >= 106752 * DAY > INT64_MAX;
      var at := q.now - span;
      assert Sub(q.now, at) == INT64_MAX;
      WindowIsEven(q.maxAgeDays);
      assert !Fresh(q, at) && q.now - at <= span;
    }
  }

  lemma WindowIsEven(days: int)
    ensures Window(days) < INT64_MAX
  {
    var modulus := INT64_MAX - INT64_MIN + 1;
    var d := (days * DAY) % modulus;
    assert d == days * DAY - (days * DAY) / modulus * modulus;
    assert d % 2 == 0 by {
      assert DAY == 2 * (DAY / 2) && modulus == 2 * (modulus / 2);
      EvenParts(days, DAY / 2, (days * DAY) / modulus, modulus / 2, d);
    }
  }

  lemma EvenParts(a: int, b: int, c: int, e: int, d: int)
    requires d == a * (2 * b) - c * (2 * e)
    ensures d % 2 == 0
  {
    assert d == 2 * (a * b - c * e);
  }

  /**
   The run may be the baseline: completed, of this workspace, pack version and input set as far as both sides name them,
   and with a known time within the limit, if there is a limit.
   */
  predicate Compatible(q: Query, r: Run) {
    && r.status == "completed"
    && (r.workspace == q.workspace || r.workspace == "" || q.workspace == "")
    && (r.packVersion == q.packVersion || r.packVersion == "" || q.packVersion == "")
    && (r.inputSet == q.inputSet || q.inputSet == "")
    && (q.maxAgeDays > 0 ==> Timestamp(q, r).Some? && Fresh(q, Timestamp(q, r).value))
  }

  lemma CompatibleIffNoError(q: Query, r: Run)
    ensures Compatible(q, r) <==> RunError(q, r).None?
  {
  }

  /** `ciBaselineRunExhaustsFreshWindow`: nothing that sorts behind this run can be young enough. */
  predicate Exhausts(q: Query, r: Run) {
    q.maxAgeDays > 0 && var t := Timestamp(q, r); t.None? || Sub(q.now, t.value) > Window(q.maxAgeDays)
  }

  lemma BehindIsOlder(a: Stamp, b: Stamp)
    requires !After(b, a)
    ensures a.at.None? ==> b.at.None?
    ensures a.at.Some? && b.at.Some? ==> b.at.value <= a.at.value
  {
  }

  /** Whatever sorts behind a run that exhausts the window is rejected too. */
  lemma ExhaustedStaysExhausted(q: Query, a: Run, b: Run)
    requires Exhausts(q, a) && !Newer(q, b, a)
    ensures Exhausts(q, b) && AgeError(q, b).Some?
  {
    BehindIsOlder(StampOf(q, a), StampOf(q, b));
    if Timestamp(q, b).Some? {
      assert Sub(q.now, Timestamp(q, b).value) >= Sub(q.now, Timestamp(q, a).value);
    }
  }

  datatype Resolution = Found(run: Run, agent: string) | AgentsUnavailable(run: Run) | NotFound(rejections: seq<Rejection>)

  /** What one run contributes when it is looked at: the end of the search, or reasons to go on. */
  datatype Verdict = Stop(resolution: Resolution) | Reject(rejections: seq<Rejection>)

  predicate Wanted(q: Query, a: Agent) {
    a.deployment == q.deployment && a.status == "completed"
  }

  /** The run's agents are readable, and one of the deployment completed with this ID. */
  predicate HasAgent(q: Query, r: Run, id: string) {
    q.agentsOf(r.id).Some? && exists a <- q.agentsOf(r.id).value :: a.id == id && a.deployment == q.deployment && a.status == "completed"
  }

  /** The first completed agent of the deployment. */
  function CompletedAgent(q: Query, agents: seq<Agent>): (r: Option<Agent>)
    ensures r.Some? <==> exists a <- agents :: Wanted(q, a)
    ensures r.Some? ==> exists i | 0 <= i < |agents| ::
      agents[i] == r.value && Wanted(q, r.value) && forall k | 0 <= k < i :: !Wanted(q, agents[k])
  {
    if agents == [] then None else if Wanted(q, agents[0]) then Some(agents[0]) else CompletedAgent(q, agents[1..])
  }

  /** One rejection for each agent of the deployment that did not complete. */
  function AgentRejections(q: Query, r: Run, agents: seq<Agent>): seq<Rejection> {
    if agents == [] then []
    else
      var last := agents[|agents| - 1];
      AgentRejections(q, r, agents[..|agents| - 1])
        + if last.deployment == q.deployment then [Rejection(r.id, AgentNotCompleted(last.id))] else []
  }

  function Judge(q: Query, r: Run): Verdict {
    if RunError(q, r).Some? then Reject([Rejection(r.id, RunError(q, r).value)])
    else if q.agentsOf(r.id).None? then Stop(AgentsUnavailable(r))
    else
      var agents := q.agentsOf(r.id).value;
      if CompletedAgent(q, agents).Some? then Stop(Found(r, CompletedAgent(q, agents).value.id))
      else if AgentRejections(q, r, agents) == [] then Reject([Rejection(r.id, NoAgent)])
      else Reject(AgentRejections(q, r, agents))
  }

  /** All rejections of a list, in order. */
  function Rejections(q: Query, runs: seq<Run>): seq<Rejection> {
    if runs == [] then []
    else
      var v := Judge(q, runs[|runs| - 1]);
      Rejections(q, runs[..|runs| - 1]) + if v.Reject? then v.rejections else []
  }

  /** The simple form: look at every run. */
  function FullScan(q: Query, runs: seq<Run>): Resolution {
    if runs == [] then NotFound([])
    else
      var before := FullScan(q, runs[..|runs| - 1]);
      if !before.NotFound? then before
      else
        var v := Judge(q, runs[|runs| - 1]);
        if v.Stop? then v.resolution else NotFound(before.rejections + v.rejections)
  }

  lemma {:induction false} FullScanStops(q: Query, runs: seq<Run>, i: nat)
    requires i < |runs| && Judge(q, runs[i]).Stop? && forall k | 0 <= k < i :: Judge(q, runs[k]).Reject?
    ensures FullScan(q, runs) == Judge(q, runs[i]).resolution && !FullScan(q, runs).NotFound?
    decreases |runs|
  {
    if i < |runs| - 1 {
      FullScanStops(q, runs[..|runs| - 1], i);
    } else {
      FullScanRejects(q, runs[..i]);
    }
  }

  lemma {:induction false} FullScanRejects(q: Query, runs: seq<Run>)
    requires forall k | 0 <= k < |runs| :: Judge(q, runs[k]).Reject?
    ensures FullScan(q, runs) == NotFound(Rejections(q, runs))
  {
    if runs != [] { FullScanRejects(q, runs[..|runs| - 1]); }
  }

  lemma {:induction false} RejectionsPrefix(q: Query, runs: seq<Run>, i: nat)
    requires i <= |runs|
    ensures Rejections(q, runs[..i]) <= Rejections(q, runs)
    decreases |runs|
  {
    if i < |runs| {
      RejectionsPrefix(q, runs[..|runs| - 1], i);
      assert runs[..|runs| - 1][..i] == runs[..i];
    } else {
      assert runs[..i] == runs;
    }
  }

  // ---- The search ----

  const REJECTION_LIMIT := 3

  function Kept(rejections: seq<Rejection>): (r: seq<Rejection>)
    ensures r <= rejections && |r| <= REJECTION_LIMIT
    ensures r == [] <==> rejections == []
  {
    if |rejections| <= REJECTION_LIMIT then rejections else rejections[..REJECTION_LIMIT]
  }

  /** `recordRejection`. */
  method Record(rejected: seq<Rejection>, r: Rejection, ghost all: seq<Rejection>) returns (longer: seq<Rejection>)
    requires rejected == Kept(all)
    ensures longer == Kept(all + [r])
  {
    if |rejected| >= REJECTION_LIMIT { return rejected; }
    longer := rejected + [r];
  }

  /** What looking at one more agent adds. */
  lemma AgentNext(q: Query, run: Run, agents: seq<Agent>, i: nat, all: seq<Rejection>)
    requires i < |agents|
    ensures CompletedAgent(q, agents[i..]) == if Wanted(q, agents[i]) then Some(agents[i]) else CompletedAgent(q, agents[i + 1..])
    ensures agents[i].deployment == q.deployment ==>
      && AgentRejections(q, run, agents[..i + 1]) != []
      && all + AgentRejections(q, run, agents[..i + 1])
         == (all + AgentRejections(q, run, agents[..i])) + [Rejection(run.id, AgentNotCompleted(agents[i].id))]
    ensures agents[i].deployment != q.deployment ==>
      AgentRejections(q, run, agents[..i + 1]) == AgentRejections(q, run, agents[..i])
  {
    assert agents[..i + 1][..i] == agents[..i] && agents[i..][1..] == agents[i + 1..];
  }

  /** The inner loop over the agents of one valid run. */
  method SearchAgents(q: Query, run: Run, agents: seq<Agent>, rejected: seq<Rejection>, ghost all: seq<Rejection>)
    returns (found: Option<Agent>, longer: seq<Rejection>, matched: bool)
    requires rejected == Kept(all)
    ensures found == CompletedAgent(q, agents)
    ensures found.None? ==> matched == (AgentRejections(q, run, agents) != [])
    ensures found.None? ==> longer == Kept(all + AgentRejections(q, run, agents))
  {
    longer, matched := rejected, false;
    assert agents[..0] == [] && all + [] == all;
    for i := 0 to |agents|
      invariant CompletedAgent(q, agents) == CompletedAgent(q, agents[i..])
      invariant matched == (AgentRejections(q, run, agents[..i]) != [])
      invariant longer == Kept(all + AgentRejections(q, run, agents[..i]))
    {
      var agent := agents[i];
      AgentNext(q, run, agents, i, all);
      if agent.deployment == q.deployment {
        matched := true;
        if agent.status == "completed" { return Some(agent), longer, matched; }
        longer := Record(longer, Rejection(run.id, AgentNotCompleted(agent.id)), all + AgentRejections(q, run, agents[..i]));
      }
    }
    assert agents[..|agents|] == agents;
    found := None;
  }

  /** The fast form agrees with the full scan: same run, same agent, same failure, and the first rejections. */
  ghost predicate Agrees(r: Resolution, full: Resolution) {
    if full.NotFound? then
      && r.NotFound? && r.rejections <= full.rejections && |r.rejections| <= REJECTION_LIMIT
      && (r.rejections == [] <==> full.rejections == [])
    else r == full
  }

  lemma AgeRejects(q: Query, r: Run)
    requires AgeError(q, r).Some?
    ensures Judge(q, r).Reject?
  {
    assert RunError(q, r).Some?;
  }

  lemma RestIsRejected(q: Query, sorted: seq<Run>, i: nat, k: nat)
    requires StableSort.Sorted(Order(q), sorted) && i <= k < |sorted| && Exhausts(q, sorted[i])
    ensures Judge(q, sorted[k]).Reject?
  {
    assert !Newer(q, sorted[k], sorted[i]) by {
      if i < k { assert !Order(q)(sorted[k], sorted[i]); } else { NewerIsStrictAndTotal(q, sorted[k], sorted[k]); }
    }
    ExhaustedStaysExhausted(q, sorted[i], sorted[k]);
    AgeRejects(q, sorted[k]);
  }

  lemma PrefixAgrees(q: Query, runs: seq<Run>, i: nat)
    requires i < |runs| && forall k | 0 <= k < |runs| :: Judge(q, runs[k]).Reject?
    ensures Agrees(NotFound(Kept(Rejections(q, runs[..i + 1]))), FullScan(q, runs))
  {
    FullScanRejects(q, runs);
    RejectionsPrefix(q, runs, i + 1);
    RejectionsExplain(q, runs[..i + 1]);
  }

  /** Every rejected run leaves a reason, so the message is empty only for an empty listing. */
  lemma RejectionsExplain(q: Query, runs: seq<Run>)
    requires runs != [] && Judge(q, runs[|runs| - 1]).Reject?
    ensures Rejections(q, runs) != []
  {
    assert Judge(q, runs[|runs| - 1]).rejections != [];
  }

  /** Stopping at a run that exhausts the window changes nothing but the list of reasons. */
  lemma BreakIsLossless(q: Query, sorted: seq<Run>, i: nat)
    requires StableSort.Sorted(Order(q), sorted) && i < |sorted|
    requires forall k | 0 <= k < i :: Judge(q, sorted[k]).Reject?
    requires Exhausts(q, sorted[i])
    ensures Agrees(NotFound(Kept(Rejections(q, sorted[..i + 1]))), FullScan(q, sorted))
  {
    forall k | i <= k < |sorted| ensures Judge(q, sorted[k]).Reject? { RestIsRejected(q, sorted, i, k); }
    PrefixAgrees(q, sorted, i);
  }

  /** The body of the search loop for one run. */
  method Examine(q: Query, run: Run, rejected: seq<Rejection>, ghost all: seq<Rejection>)
    returns (end: Option<Resolution>, longer: seq<Rejection>, exhausted: bool)
    requires rejected == Kept(all)
    ensures end.Some? <==> Judge(q, run).Stop?
    ensures end.Some? ==> end.value == Judge(q, run).resolution
    ensures end.None? ==> longer == Kept(all + Judge(q, run).rejections) && exhausted == (RunError(q, run).Some? && Exhausts(q, run))
  {
    end, longer, exhausted := None, rejected, false;
    var error := RunError(q, run);
    if error.Some? {
      longer := Record(rejected, Rejection(run.id, error.value), all);
      exhausted := Exhausts(q, run);
      return;
    }
    var agents := q.agentsOf(run.id);
    if agents.None? { return Some(AgentsUnavailable(run)), rejected, false; }
    var found, matched;
    found, longer, matched := SearchAgents(q, run, agents.value, rejected, all);
    if found.Some? { return Some(Found(run, found.value.id)), longer, false; }
    if !matched {
      assert all + [] == all;
      longer := Record(longer, Rejection(run.id, NoAgent), all);
    }
  }

  lemma RejectionsNext(q: Query, runs: seq<Run>, i: nat)
    requires i < |runs| && Judge(q, runs[i]).Reject?
    ensures Rejections(q, runs[..i + 1]) == Rejections(q, runs[..i]) + Judge(q, runs[i]).rejections
  {
    assert runs[..i + 1][..i] == runs[..i];
  }

  // ---- What the answer means ----

  lemma FirstStop(q: Query, runs: seq<Run>) returns (i: nat)
    ensures i <= |runs| && forall k | 0 <= k < i :: Judge(q, runs[k]).Reject?
    ensures i < |runs| ==> Judge(q, runs[i]).Stop?
  {
    i := 0;
    while i < |runs| && Judge(q, runs[i]).Reject?
      invariant i <= |runs| && forall k | 0 <= k < i :: Judge(q, runs[k]).Reject?
    {
      i := i + 1;
    }
  }

  /** The run ends the search: its agents are unreadable, or one of the deployment completed. */
  predicate Ends(q: Query, r: Run) {
    Judge(q, r).Stop?
  }

  /** `d` ends the search, and no newer run of the listing does. */
  ghost predicate NewestEnd(q: Query, runs: seq<Run>, d: Run) {
    d in runs && Ends(q, d) && forall x <- runs | Ends(q, x) :: !Newer(q, x, d)
  }

  lemma FirstEndIsNewest(q: Query, sorted: seq<Run>, i: nat)
    requires StableSort.Sorted(Order(q), sorted) && i < |sorted| && Ends(q, sorted[i])
    requires forall k | 0 <= k < i :: !Ends(q, sorted[k])
    ensures NewestEnd(q, sorted, sorted[i])
  {
    forall x <- sorted | Ends(q, x) ensures !Newer(q, x, sorted[i]) {
      var k :| 0 <= k < |sorted| && sorted[k] == x;
      if i < k { assert !Order(q)(sorted[k], sorted[i]); } else { NewerIsStrictAndTotal(q, x, x); }
    }
  }

  /** The answer on a sorted list. */
  lemma FullScanDecides(q: Query, sorted: seq<Run>)
    requires StableSort.Sorted(Order(q), sorted)
    ensures var r := FullScan(q, sorted);
      if r.NotFound? then forall x <- sorted :: !Ends(q, x) else exists d :: NewestEnd(q, sorted, d) && Judge(q, d) == Stop(r)
  {
    var i := FirstStop(q, sorted);
    if i < |sorted| {
      FullScanStops(q, sorted, i);
      FirstEndIsNewest(q, sorted, i);
    } else {
      FullScanRejects(q, sorted);
    }
  }

  /** Whatever the listing order, the answer is that of the newest run that ends the search, if there is one. */
  lemma NewestDecides(q: Query, runs: seq<Run>)
    ensures var r := FullScan(q, StableSort.Sort(Order(q), runs));
      if r.NotFound? then forall x <- runs :: !Ends(q, x) else exists d :: NewestEnd(q, runs, d) && Judge(q, d) == Stop(r)
  {
    var sorted := StableSort.Sort(Order(q), runs);
    NewerIsWeakOrder(q);
    StableSort.SortSorts(Order(q), runs);
    StableSort.SortPermutes(Order(q), runs);
    assert forall x :: x in runs <==> x in multiset(sorted);
    FullScanDecides(q, sorted);
    var r := FullScan(q, sorted);
    if !r.NotFound? {
      var d :| NewestEnd(q, sorted, d) && Judge(q, d) == Stop(r);
      assert NewestEnd(q, runs, d);
    }
  }

  /** The run passes every check, and its agents are unreadable or hold a completed one of the deployment. */
  predicate Answers(q: Query, r: Run) {
    && Compatible(q, r)
    && (q.agentsOf(r.id).None? || exists a <- q.agentsOf(r.id).value :: a.deployment == q.deployment && a.status == "completed")
  }

  lemma EndsIffAnswers(q: Query, r: Run)
    ensures Ends(q, r) <==> Answers(q, r)
    ensures Judge(q, r).Stop? ==>
      if q.agentsOf(r.id).None? then Judge(q, r).resolution == AgentsUnavailable(r)
      else Judge(q, r).resolution.Found? && Judge(q, r).resolution.run == r && HasAgent(q, r, Judge(q, r).resolution.agent)
  {
    CompatibleIffNoError(q, r);
    if q.agentsOf(r.id).Some? {
      assert forall a <- q.agentsOf(r.id).value :: Wanted(q, a) <==> a.deployment == q.deployment && a.status == "completed";
    }
  }

  /** The run answers, and no newer run of the listing does. */
  ghost predicate NewestAnswer(q: Query, runs: seq<Run>, d: Run) {
    d in runs && Answers(q, d) && forall x <- runs | Answers(q, x) :: !Newer(q, x, d)
  }

  /** The reason is true of the run. */
  predicate Blames(q: Query, r: Run, reason: Reason) {
    match reason
    case OtherWorkspace => r.workspace != q.workspace && r.workspace != "" && q.workspace != ""
    case NotCompleted => r.status != "completed"
    case OtherPackVersion => r.packVersion != q.packVersion && r.packVersion != "" && q.packVersion != ""
    case OtherInputSet => r.inputSet != q.inputSet && q.inputSet != ""
    case NoTimestamp => q.maxAgeDays > 0 && Timestamp(q, r).None?
    case TooOld => q.maxAgeDays > 0 && Timestamp(q, r).Some? && !Fresh(q, Timestamp(q, r).value)
    case AgentNotCompleted(id) =>
      q.agentsOf(r.id).Some? && exists a <- q.agentsOf(r.id).value :: a.id == id && a.deployment == q.deployment && a.status != "completed"
    case NoAgent => q.agentsOf(r.id).Some? && forall a <- q.agentsOf(r.id).value :: a.deployment != q.deployment
  }

  /** The rejection names a listed run and a true reason. */
  predicate Blamed(q: Query, runs: seq<Run>, x: Rejection) {
    exists r <- runs :: r.id == x.run && Blames(q, r, x.reason)
  }

  lemma {:induction false} AgentsBlamed(q: Query, r: Run, agents: seq<Agent>)
    ensures forall x <- AgentRejections(q, r, agents) ::
      x.run == r.id && x.reason.AgentNotCompleted? && exists a <- agents :: a.id == x.reason.agent && a.deployment == q.deployment
    ensures AgentRejections(q, r, agents) == [] <==> forall a <- agents :: a.deployment != q.deployment
  {
    if agents != [] {
      var init, last := agents[..|agents| - 1], agents[|agents| - 1];
      AgentsBlamed(q, r, init);
      assert agents == init + [last];
      assert last in agents && forall a <- init :: a in agents;
    }
  }

  lemma JudgedBlames(q: Query, r: Run, x: Rejection)
    requires Judge(q, r).Reject? && x in Judge(q, r).rejections
    ensures x.run == r.id && Blames(q, r, x.reason)
  {
    if RunError(q, r).None? {
      var agents := q.agentsOf(r.id).value;
      AgentsBlamed(q, r, agents);
      assert forall a <- agents :: !Wanted(q, a);
    }
  }

  lemma {:induction false} RejectionsBlame(q: Query, runs: seq<Run>, x: Rejection)
    requires x in Rejections(q, runs)
    ensures Blamed(q, runs, x)
  {
    var init, last := runs[..|runs| - 1], runs[|runs| - 1];
    if x in Rejections(q, init) {
      RejectionsBlame(q, init, x);
      var r :| r in init && r.id == x.run && Blames(q, r, x.reason);
      assert r in runs;
    } else {
      JudgedBlames(q, last, x);
      assert last in runs;
    }
  }

  lemma FullScanBlames(q: Query, runs: seq<Run>, all: seq<Run>, x: Rejection)
    requires FullScan(q, runs).NotFound? && x in FullScan(q, runs).rejections && forall r <- runs :: r in all
    ensures Blamed(q, all, x)
  {
    var i := FirstStop(q, runs);
    if i < |runs| { FullScanStops(q, runs, i); }
    FullScanRejects(q, runs);
    RejectionsBlame(q, runs, x);
    var r :| r in runs && r.id == x.run && Blames(q, r, x.reason);
    assert r in all;
  }

  /** The answer in terms of the runs: the newest one that passes every check, with a completed agent of the deployment. */
  ghost predicate Answered(q: Query, runs: seq<Run>, r: Resolution) {
    match r
    case Found(run, agent) => NewestAnswer(q, runs, run) && HasAgent(q, run, agent)
    case AgentsUnavailable(run) => NewestAnswer(q, runs, run) && q.agentsOf(run.id).None?
    case NotFound(rejections) =>
      (forall x <- runs :: !Answers(q, x)) && (forall x <- rejections :: Blamed(q, runs, x)) && (rejections == [] <==> runs == [])
  }

  lemma RejectedAreBlamed(q: Query, runs: seq<Run>, r: Resolution)
    requires r.NotFound? && Agrees(r, FullScan(q, StableSort.Sort(Order(q), runs)))
    ensures (forall x <- r.rejections :: Blamed(q, runs, x)) && (r.rejections == [] <==> runs == [])
  {
    var sorted := StableSort.Sort(Order(q), runs);
    StableSort.SortPermutes(Order(q), runs);
    forall x <- sorted ensures x in runs { assert x in multiset(sorted); }
    forall x <- r.rejections ensures Blamed(q, runs, x) { FullScanBlames(q, sorted, runs, x); }
    var i := FirstStop(q, sorted);
    if i < |sorted| { FullScanStops(q, sorted, i); }
    FullScanRejects(q, sorted);
    if sorted != [] { RejectionsExplain(q, sorted); }
  }

  lemma DecidedIsAnswered(q: Query, runs: seq<Run>, r: Resolution)
    requires Agrees(r, FullScan(q, StableSort.Sort(Order(q), runs)))
    ensures Answered(q, runs, r)
  {
    NewestDecides(q, runs);
    forall x <- runs ensures Ends(q, x) <==> Answers(q, x) { EndsIffAnswers(q, x); }
    if r.NotFound? { RejectedAreBlamed(q, runs, r); }
    if !r.NotFound? {
      var d :| NewestEnd(q, runs, d) && Judge(q, d) == Stop(r);
      EndsIffAnswers(q, d);
    }
  }

  /** `resolveCIBaselineDeployment` on the listed runs. */
  method Resolve(q: Query, runs: seq<Run>) returns (r: Resolution)
    ensures Agrees(r, FullScan(q, StableSort.Sort(Order(q), runs)))
    ensures Answered(q, runs, r)
  {
    r := Search(q, runs);
    DecidedIsAnswered(q, runs, r);
  }

  /** The search itself. */
  method Search(q: Query, runs: seq<Run>) returns (r: Resolution)
    ensures Agrees(r, FullScan(q, StableSort.Sort(Order(q), runs)))
  {
    var sorted := StableSort.Sort(Order(q), runs);
    NewerIsWeakOrder(q);
    StableSort.SortSorts(Order(q), runs);
    var rejected: seq<Rejection> := [];
    for i := 0 to |sorted|
      invariant forall k | 0 <= k < i :: Judge(q, sorted[k]).Reject?
      invariant rejected == Kept(Rejections(q, sorted[..i]))
    {
      var end, exhausted;
      end, rejected, exhausted := Examine(q, sorted[i], rejected, Rejections(q, sorted[..i]));
      if end.Some? {
        FullScanStops(q, sorted, i);
        return end.value;
      }
      RejectionsNext(q, sorted, i);
      if exhausted {
        BreakIsLossless(q, sorted, i);
        return NotFound(rejected);
      }
    }
    assert sorted[..|sorted|] == sorted;
    FullScanRejects(q, sorted);
    r := NotFound(rejected);
  }

  /** Runs with equal times and equal IDs are tried in the order of the listing. */
  lemma EqualStampsKeepListingOrder(q: Query, runs: seq<Run>, stamp: Stamp)
    ensures StableSort.Only(StableSort.Sort(Order(q), runs), r => StampOf(q, r) == stamp)
         == StableSort.Only(runs, r => StampOf(q, r) == stamp)
  {
    var same: Run -> bool := r => StampOf(q, r) == stamp;
    forall a: Run, b: Run | same(a) && same(b) ensures !Order(q)(a, b) {
      AfterIsStrictAndTotal(stamp, stamp);
    }
    StableSort.SortIsStable(Order(q), runs, same);
  }

  /** No run is listed twice, and no two runs share an ID. */
  ghost predicate DistinctIDs(runs: seq<Run>) {
    && (forall x <- runs :: multiset(runs)[x] == 1)
    && (forall x <- runs, y <- runs :: x.id == y.id ==> x == y)
  }

  lemma DistinctPlaces(runs: seq<Run>, s: seq<Run>, i: nat, j: nat)
    requires DistinctIDs(runs) && multiset(s) == multiset(runs) && i < j < |s|
    ensures s[i].id != s[j].id
  {
    assert s[i] in multiset(s) && s[j] in multiset(s);
    assert s == s[..j] + [s[j]] + s[j + 1..];
    assert s[i] in s[..j];
  }

  /** With distinct IDs the sorted list, and so the baseline, does not depend on the listing order. */
  lemma ListingOrderIsIrrelevant(q: Query, a: seq<Run>, b: seq<Run>)
    requires multiset(a) == multiset(b) && DistinctIDs(a)
    ensures StableSort.Sort(Order(q), a) == StableSort.Sort(Order(q), b)
  {
    var s, t := StableSort.Sort(Order(q), a), StableSort.Sort(Order(q), b);
    NewerIsWeakOrder(q);
    StableSort.SortSorts(Order(q), a);
    StableSort.SortSorts(Order(q), b);
    StableSort.SortPermutes(Order(q), a);
    StableSort.SortPermutes(Order(q), b);
    forall i, j | 0 <= i < j < |s| ensures Order(q)(s[i], s[j]) {
      DistinctPlaces(a, s, i, j);
      NewerIsStrictAndTotal(q, s[i], s[j]);
      assert !Order(q)(s[j], s[i]);
    }
    StableSort.SortedIsUnique(Order(q), s, t);
  }
}
