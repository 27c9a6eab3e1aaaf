/**
 What any sequence of deploy, promote and platform-update calls keeps on one host,
 however each of their steps ends.
 */
module Delivery {
  import opened Wrappers
  import opened InstalledTree
  import opened Bootstrap
  import opened HostModel
  import Release
  import PlatformUpdate

  datatype Call =
    | ReleaseCall(release: Digest, operation: Operation, approval: Option<Approval>, now: int)
    | UpdateCall(release: Digest, acceptance: Approval, images: string, archive: seq<Member>, listed: set<string>,
                 genuine: bool, now: int)

  /** A transaction of either program has put its marker on disk and has not removed it. */
  predicate Unfinished(h: Host)
    reads h`unresolved, h`update, h`recovery
  {
    h.unresolved.Some? || h.update.Some? || h.OwnedByUpdate()
  }

  /** An open fence shows the deployed release and nothing else. */
  predicate PublicIsDeployed(h: Host)
    reads h`open, h`candidate, h`deployed, h`env
  {
    h.open ==>
      && h.candidate.None? && h.deployed.Some? && h.env.Some?
      && var images := h.manifestOf(h.deployed.value.release).images;
         forall s <- images :: Image(s) in h.env.value && h.env.value[Image(s)] == images[s]
  }

  method Serve(h: Host, call: Call) returns (o: Outcome)
    requires h.Inv()
    modifies h
    ensures h.Inv()
    ensures old(Unfinished(h)) ==> !o.Done? && unchanged(h)
  {
    if call.ReleaseCall? {
      o := Release.Execute(h, call.release, call.operation, call.approval, call.now);
    } else {
      o := PlatformUpdate.Execute(h, call.release, call.acceptance, call.images, call.archive, call.listed, call.genuine, call.now);
    }
  }

  /**
   Any number of calls, each of which may end, raise or die at any step, on a host that
   such calls left.
   */
  method Operate(h: Host, calls: seq<Call>)
    requires h.Inv()
    modifies h
    ensures h.Inv()
    ensures old(Unfinished(h)) ==> unchanged(h)
    ensures h.unresolved.None? ==> PublicIsDeployed(h)
    ensures h.update.Some? ==> h.recovery.Some?
    ensures h.OwnedByUpdate() ==> h.unresolved.None? && h.candidate.None? && h.CanRecover()
    ensures h.candidate.Some? ==> Pending(h.candidate.value, h.deployed)
    ensures h.candidate.Some? && h.unresolved.None? ==> h.candidate.value.previous == ReleaseOf(h.deployed)
    ensures ReleaseOf(h.deployed) == LastPromoted(h.promotions, h.first)
    ensures WellLogged(h.delta, h.log) && Linked(h.promotions, h.first)
  {
    for i := 0 to |calls|
      invariant h.Inv()
      invariant old(Unfinished(h)) ==> unchanged(h)
    {
      var o := Serve(h, calls[i]);
    }
  }

  /** Every history that starts on a closed host. */
  method FromClosedHost(manifestOf: Digest -> Manifest, enabled: bool, faultless: bool, deployed: Option<Transaction>,
                        env: Option<Environment>, root: Tree, settings: Settings, calls: seq<Call>)
    returns (h: Host)
    ensures h.Inv() && h.first == ReleaseOf(deployed)
    ensures h.unresolved.None? ==> PublicIsDeployed(h)
    ensures h.update.Some? ==> h.recovery.Some?
    ensures h.OwnedByUpdate() ==> h.unresolved.None? && h.candidate.None? && h.CanRecover()
    ensures WellLogged(h.delta, h.log) && Linked(h.promotions, h.first)
  {
    h := new Host(manifestOf, enabled, faultless, deployed, env, root, settings);
    Operate(h, calls);
  }

  /** Repeating a deploy or promote that is already done changes nothing, however often and with whatever approvals. */
  method Repeat(h: Host, release: Digest, operation: Operation, approvals: seq<Option<Approval>>, now: int)
    requires h.Inv() && Release.Requested(h, release, operation)
    modifies h
    ensures unchanged(h)
  {
    for i := 0 to |approvals|
      invariant unchanged(h)
    {
      var o := Release.Execute(h, release, operation, approvals[i], now);
    }
  }

  /** A deploy or promote call that succeeds leaves the host in a state that its repetition does not change. */
  method Retry(h: Host, release: Digest, operation: Operation, approvals: seq<Option<Approval>>, now: int) returns (o: Outcome)
    requires h.Inv() && approvals != []
    modifies h
    ensures h.Inv()
    ensures o.Done? ==> Release.Requested(h, release, operation)
    ensures o.Done? && h.log == old(h.log) ==>
      old((h.candidate.Some? && h.candidate.value.release == release) || (h.deployed.Some? && h.deployed.value.release == release))
    ensures o.Done? ==> |h.log| <= |old(h.log)| + 1 && |h.promotions| <= |old(h.promotions)| + 1
  {
    o := Release.Execute(h, release, operation, approvals[0], now);
    if !o.Done? { return; }
    Repeat(h, release, operation, approvals[1..], now);
  }

  // ---- The pending candidate ----

  /**
   The candidate's predecessor is the deployed release, unless a promotion was cut off between its
   deployed record and the removal of the candidate. Then it is, exactly if that release replaces itself.
   */
  lemma PredecessorIsDeployed(h: Host)
    requires h.Inv() && h.candidate.Some?
    ensures var c := h.candidate.value; var cut := h.deployed.Some? && PromotedFrom(h.deployed.value, c);
      && (c.previous == ReleaseOf(h.deployed) <==> !cut || c.previous == Some(c.release))
      && (cut && c.previous != Some(c.release) ==> h.unresolved.Some?)
  {
  }

  /** The first `n` steps of a plan, all ended well. */
  function Attempts(op: Operation, release: Digest, n: nat): (r: seq<Attempt>)
    ensures |r| == n && forall i | 0 <= i < n :: r[i] == Attempt(PlanStep(REVIEWED, op, release, i), Done)
  {
    seq(n, i requires 0 <= i < n => Attempt(PlanStep(REVIEWED, op, release, i), Done))
  }

  /** A complete deploy of "new" over "old", and its promotion up to the attempted removal of the candidate. */
  function CutLog(): seq<Entry> {
    [ Entry(Deploy, "new", Some("old"), Approval("approval", Deploy, "new", Some("old"), 0, 60), 1, Attempts(Deploy, "new", DEPLOY_LENGTH)),
      Entry(Promote, "new", Some("old"), Approval("acceptance", Promote, "new", Some("old"), 0, 60), 2, Attempts(Promote, "new", 12)) ]
  }

  lemma CutLogIsWellLogged()
    ensures WellLogged(REVIEWED, CutLog()) && PromotedIn(CutLog()) == ["new"]
  {
    var log := CutLog();
    forall i: nat | i < |log| ensures WellLoggedAt(REVIEWED, log, i) {
      forall k: nat | k < |log[i].steps| ensures FollowsAt(REVIEWED, log[i].steps, log[i].operation, log[i].release, k) {}
    }
    assert log == [] + [log[0]] + [log[1]];
    PromotedInNext([], log[0]);
    PromotedInNext([] + [log[0]], log[1]);
  }

  /** A host on which that promotion was cut off there: its candidate is not preceded by the deployed release. */
  method CutPromotionExample(manifestOf: Digest -> Manifest) returns (h: Host)
    ensures h.Inv() && h.unresolved.Some? && h.candidate.Some?
    ensures h.candidate.value.previous == Some("old") && ReleaseOf(h.deployed) == Some("new")
    ensures h.candidate.value.previous != ReleaseOf(h.deployed)
  {
    var first := Transaction("old", Deploy, None, "first", ReadyStage, Some("backup"), Some(0), None);
    var c := Transaction("new", Deploy, Some("old"), "approval", ReadyStage, Some("backup"), Some(1), None);
    var d := c.(promotion := Some(Promotion("acceptance", 2, Some("history"))));
    h := new Host(manifestOf, true, false, Some(first), None, map[], map[]);
    h.candidate, h.deployed, h.promotions, h.log := Some(c), Some(d), [d], CutLog();
    h.unresolved := Some(Transaction("new", Promote, Some("old"), "acceptance", RecordPromotion, None, None, None));
    CutLogIsWellLogged();
    assert LinkedAt(h.promotions, h.first, 0) && ReleasesOf(h.promotions) == ["new"];
    assert "new"[0] != "old"[0];
  }

  // ---- The order of effects in every logged run ----

  /** The wanted steps all ended well before step `k`, in this order. */
  ghost predicate InOrder(steps: seq<Attempt>, k: nat, wanted: seq<Step>)
    requires k <= |steps|
    decreases |wanted|
  {
    wanted == []
    || exists j | 0 <= j < k ::
         steps[j] == Attempt(wanted[|wanted| - 1], Done) && InOrder(steps, j, wanted[..|wanted| - 1])
  }

  /** The step was not even attempted. */
  predicate Never(steps: seq<Attempt>, s: Step) {
    forall a <- steps :: a.step != s
  }

  lemma OneMore(steps: seq<Attempt>, j: nat, k: nat, wanted: seq<Step>, s: Step)
    requires j < k <= |steps| && steps[j] == Attempt(s, Done) && InOrder(steps, j, wanted)
    ensures InOrder(steps, k, wanted + [s])
  {
    var longer := wanted + [s];
    assert longer[..|longer| - 1] == wanted;
  }

  /** Every step before an attempted one is the planned one and ended well. */
  lemma StepAt(d: Delta, log: seq<Entry>, i: nat, k: nat)
    requires WellLogged(d, log) && i < |log| && k < |log[i].steps|
    ensures WellLoggedAt(d, log, i)
    ensures k < PlanLength(d, log[i].operation)
    ensures log[i].steps[k].step == PlanStep(d, log[i].operation, log[i].release, k)
    ensures forall j | 0 <= j < k :: log[i].steps[j] == Attempt(PlanStep(d, log[i].operation, log[i].release, j), Done)
  {
    assert WellLoggedAt(d, log, i);
    var e := log[i];
    assert FollowsAt(d, e.steps, e.operation, e.release, k);
    forall j | 0 <= j < k ensures e.steps[j] == Attempt(PlanStep(d, e.operation, e.release, j), Done) {
      assert FollowsAt(d, e.steps, e.operation, e.release, j);
    }
  }

  /** A logged transaction ran under an approval of that operation, release and predecessor, inside its window of at most an hour. */
  lemma ApprovalsFit(d: Delta, log: seq<Entry>, i: nat)
    requires WellLogged(d, log) && i < |log|
    ensures var e := log[i]; var a := e.approval;
      && a.operation == e.operation && a.release == e.release && a.previous == e.previous
      && a.issuedAt - 60 <= e.at < a.expiresAt && e.at - a.issuedAt <= 3600
      && a.expiresAt - a.issuedAt <= 3600
  {
    assert WellLoggedAt(d, log, i);
  }

  /** The edges of the window: issued up to a minute ahead of the clock, valid for up to an hour from then, and not at its end. */
  lemma WindowEdges(a: Approval, now: int)
    requires a.issuedAt <= now + 60 && now < a.expiresAt <= a.issuedAt + 3600
    ensures Approves(a, a.operation, a.release, a.previous, now)
    ensures !Approves(a, a.operation, a.release, a.previous, a.expiresAt)
  {
  }

  /** Two transactions under one approval are of the same operation, release and predecessor, and less than 61 minutes apart. */
  lemma OneApprovalOnePurpose(d: Delta, log: seq<Entry>, i: nat, j: nat)
    requires WellLogged(d, log) && i < |log| && j < |log| && log[i].approval == log[j].approval
    ensures log[i].operation == log[j].operation && log[i].release == log[j].release && log[i].previous == log[j].previous
    ensures log[i].at - log[j].at < 3660
  {
    ApprovalsFit(d, log, i);
    ApprovalsFit(d, log, j);
  }

  /** What a deploy has done before its migration. */
  function ClosedAndBackedUp(release: Digest): seq<Step> {
    [] + [Close] + [DoDrain] + [DoStop] + [DoBackup] + [DoSelect(release)]
  }

  lemma ClosedInOrder(steps: seq<Attempt>, release: Digest, k: nat)
    requires 10 <= k <= |steps|
    requires steps[1] == Attempt(Close, Done) && steps[3] == Attempt(DoDrain, Done) && steps[5] == Attempt(DoStop, Done)
    requires steps[7] == Attempt(DoBackup, Done) && steps[9] == Attempt(DoSelect(release), Done)
    ensures InOrder(steps, k, ClosedAndBackedUp(release))
  {
    OneMore(steps, 1, 3, [], Close);
    OneMore(steps, 3, 5, [] + [Close], DoDrain);
    OneMore(steps, 5, 7, [] + [Close] + [DoDrain], DoStop);
    OneMore(steps, 7, 9, [] + [Close] + [DoDrain] + [DoStop], DoBackup);
    OneMore(steps, 9, k, [] + [Close] + [DoDrain] + [DoStop] + [DoBackup], DoSelect(release));
  }

  lemma DeployPrefix(steps: seq<Attempt>, release: Digest, k: nat)
    requires 10 <= k <= |steps| && forall j | 0 <= j < k :: steps[j] == Attempt(DeployStep(release, j), Done)
    ensures InOrder(steps, k, ClosedAndBackedUp(release))
  {
    assert steps[1].step == DeployStep(release, 1) && steps[3].step == DeployStep(release, 3)
        && steps[5].step == DeployStep(release, 5) && steps[7].step == DeployStep(release, 7)
        && steps[9].step == DeployStep(release, 9);
    ClosedInOrder(steps, release, k);
  }

  /** Only a promotion opens, at one place of its plan. */
  lemma OpenPlace(d: Delta, op: Operation, r: Digest, k: nat)
    requires k < PlanLength(d, op) && PlanStep(d, op, r, k) == Open
    ensures op == Promote && k == 5
  {
  }

  lemma NeverOpens(d: Delta, log: seq<Entry>, i: nat)
    requires WellLogged(d, log) && i < |log| && !log[i].operation.Promote?
    ensures Never(log[i].steps, Open)
  {
    forall a <- log[i].steps ensures a.step != Open {
      var j :| 0 <= j < |log[i].steps| && log[i].steps[j] == a;
      StepAt(d, log, i, j);
      if a.step == Open { OpenPlace(d, log[i].operation, log[i].release, j); }
    }
  }

  /** Only a deploy migrates, at one place of its plan. */
  lemma MigrationPlace(d: Delta, op: Operation, r: Digest, k: nat)
    requires k < PlanLength(d, op) && PlanStep(d, op, r, k) == DoMigrate
    ensures op == Deploy && k == 11
  {
  }

  /** Every migration follows fence, drain, stop, backup and select of its own transaction, all ended well, and no start. */
  lemma MigrationIsGuarded(d: Delta, log: seq<Entry>, i: nat, k: nat)
    requires WellLogged(d, log) && i < |log| && k < |log[i].steps| && log[i].steps[k].step == DoMigrate
    ensures log[i].operation == Deploy && InOrder(log[i].steps, k, ClosedAndBackedUp(log[i].release))
    ensures Never(log[i].steps[..k], DoStart) && Never(log[i].steps, Open)
  {
    StepAt(d, log, i, k);
    MigrationPlace(d, log[i].operation, log[i].release, k);
    DeployPrefix(log[i].steps, log[i].release, k);
    NeverOpens(d, log, i);
  }

  /** What a deploy has done before its candidate record. */
  function StartedAndReady(release: Digest): seq<Step> {
    ClosedAndBackedUp(release) + [DoMigrate] + [DoStart] + [DoReady(release)]
  }

  lemma ReadyInOrder(steps: seq<Attempt>, release: Digest, k: nat)
    requires 16 <= k <= |steps| && InOrder(steps, 11, ClosedAndBackedUp(release))
    requires steps[11] == Attempt(DoMigrate, Done) && steps[13] == Attempt(DoStart, Done)
    requires steps[15] == Attempt(DoReady(release), Done)
    ensures InOrder(steps, k, StartedAndReady(release))
  {
    var closed := ClosedAndBackedUp(release);
    OneMore(steps, 11, 13, closed, DoMigrate);
    OneMore(steps, 13, 15, closed + [DoMigrate], DoStart);
    OneMore(steps, 15, k, closed + [DoMigrate] + [DoStart], DoReady(release));
  }

  lemma StartedPrefix(steps: seq<Attempt>, release: Digest, k: nat)
    requires 16 <= k <= |steps| && forall j | 0 <= j < k :: steps[j] == Attempt(DeployStep(release, j), Done)
    ensures InOrder(steps, k, StartedAndReady(release))
  {
    DeployPrefix(steps, release, 11);
    assert steps[11].step == DeployStep(release, 11) && steps[13].step == DeployStep(release, 13)
        && steps[15].step == DeployStep(release, 15);
    ReadyInOrder(steps, release, k);
  }

  lemma CandidatePlace(d: Delta, op: Operation, r: Digest, k: nat)
    requires k < PlanLength(d, op) && PlanStep(d, op, r, k) == Wrote(Candidate)
    ensures op == Deploy && k == 17
  {
  }

  /** The candidate record is attempted only after migration, start and readiness of that candidate, all ended well. */
  lemma CandidateIsStartedAndReady(d: Delta, log: seq<Entry>, i: nat, k: nat)
    requires WellLogged(d, log) && i < |log| && k < |log[i].steps| && log[i].steps[k].step == Wrote(Candidate)
    ensures log[i].operation == Deploy && InOrder(log[i].steps, k, StartedAndReady(log[i].release))
  {
    StepAt(d, log, i, k);
    CandidatePlace(d, log[i].operation, log[i].release, k);
    StartedPrefix(log[i].steps, log[i].release, k);
  }

  /** What a promotion has done before it opens the fence. */
  function ClosedAndReady(release: Digest): seq<Step> {
    [] + [Close] + [DoReady(release)]
  }

  lemma PromotePrefix(steps: seq<Attempt>, release: Digest, k: nat)
    requires 4 <= k <= |steps| && forall j | 0 <= j < k :: steps[j] == Attempt(PromoteStep(release, j), Done)
    ensures InOrder(steps, k, ClosedAndReady(release))
  {
    assert steps[1].step == PromoteStep(release, 1) && steps[3].step == PromoteStep(release, 3);
    OneMore(steps, 1, 3, [], Close);
    OneMore(steps, 3, k, [] + [Close], DoReady(release));
  }

  /** A complete deploy has recorded its candidate. */
  lemma DeployRecorded(d: Delta, log: seq<Entry>, i: nat)
    requires WellLogged(d, log) && i < |log| && log[i].operation == Deploy && Complete(d, log[i])
    ensures InOrder(log[i].steps, |log[i].steps|, StartedAndReady(log[i].release) + [Wrote(Candidate)])
  {
    StepAt(d, log, i, DEPLOY_LENGTH - 1);
    assert log[i].steps[17].step == DeployStep(log[i].release, 17);
    CandidateIsStartedAndReady(d, log, i, 17);
    OneMore(log[i].steps, 17, DEPLOY_LENGTH, StartedAndReady(log[i].release), Wrote(Candidate));
  }

  /** A promotion directly follows the complete deploy of the same release. */
  lemma DeployBefore(d: Delta, log: seq<Entry>, i: nat)
    requires WellLogged(d, log) && i < |log| && log[i].operation == Promote
    ensures i > 0 && log[i - 1].operation == Deploy && log[i - 1].release == log[i].release && Complete(d, log[i - 1])
  {
    assert WellLoggedAt(d, log, i);
    assert WellLoggedAt(d, log, i - 1);
  }

  /** The fence is opened only inside a promotion, after the closed fence and the successful readiness of the same release. */
  lemma OpeningIsGuarded(d: Delta, log: seq<Entry>, i: nat, k: nat)
    requires WellLogged(d, log) && i < |log| && k < |log[i].steps| && log[i].steps[k].step == Open
    ensures log[i].operation == Promote && InOrder(log[i].steps, k, ClosedAndReady(log[i].release))
  {
    StepAt(d, log, i, k);
    OpenPlace(d, log[i].operation, log[i].release, k);
    PromotePrefix(log[i].steps, log[i].release, k);
  }

  /**
   The transaction directly before an opening is the deploy of the opened release: closed, backed up,
   migrated, started, ready and recorded as the candidate, every step ended well.
   */
  lemma OpeningFollowsDeploy(d: Delta, log: seq<Entry>, i: nat, k: nat)
    requires WellLogged(d, log) && i < |log| && k < |log[i].steps| && log[i].steps[k].step == Open
    ensures i > 0 && log[i - 1].operation == Deploy && log[i - 1].release == log[i].release
    ensures var e := log[i - 1]; InOrder(e.steps, |e.steps|, StartedAndReady(e.release) + [Wrote(Candidate)])
  {
    StepAt(d, log, i, k);
    OpenPlace(d, log[i].operation, log[i].release, k);
    DeployBefore(d, log, i);
    DeployRecorded(d, log, i - 1);
  }

  /** A promotion with more than five steps has opened after its readiness, which succeeded. */
  lemma OpenerWasReady(d: Delta, log: seq<Entry>, i: nat)
    requires WellLogged(d, log) && i < |log| && Opens(log[i])
    ensures log[i].steps[5].step == Open && log[i].steps[3] == Attempt(DoReady(log[i].release), Done)
    ensures InOrder(log[i].steps, 5, ClosedAndReady(log[i].release))
  {
    StepAt(d, log, i, 5);
    OpeningIsGuarded(d, log, i, 5);
    assert log[i].steps[3].step == PromoteStep(log[i].release, 3);
  }

  /** The promotion at `i` is ready, and the transaction before it is the whole deploy of its release. */
  ghost predicate Guarded(log: seq<Entry>, i: int) {
    && 0 < i < |log| && log[i].operation == Promote && |log[i].steps| > 5
    && InOrder(log[i].steps, 5, ClosedAndReady(log[i].release))
    && log[i - 1].operation == Deploy && log[i - 1].release == log[i].release
    && InOrder(log[i - 1].steps, |log[i - 1].steps|, StartedAndReady(log[i].release) + [Wrote(Candidate)])
  }

  lemma OpenerIsGuarded(d: Delta, log: seq<Entry>, i: nat)
    requires WellLogged(d, log) && i < |log| && Opens(log[i])
    ensures Guarded(log, i)
  {
    OpenerWasReady(d, log, i);
    OpeningFollowsDeploy(d, log, i, 5);
  }

  /**
   Open routes themselves, in every reachable state: the newest transaction, or the one before it, is a promotion
   that confirmed the readiness of its release behind the closed fence, directly after the whole deploy of that release.
   Without a deployment marker that release is the deployed one.
   */
  lemma RoutesAreGuarded(h: Host)
    requires h.Inv() && h.open
    ensures exists i: int {:trigger Guarded(h.log, i)} | |h.log| - 2 <= i < |h.log| ::
      Guarded(h.log, i) && (h.unresolved.None? ==> ReleaseOf(h.deployed) == Some(h.log[i].release))
  {
    var n := |h.log|;
    var i := if h.OwnedByUpdate() || !Opens(h.log[n - 1]) then n - 2 else n - 1;
    OpenerIsGuarded(h.delta, h.log, i);
  }

  // ---- What follows the opening ----

  /** What a promotion has done before it records anything. */
  function PublicAndReady(release: Digest): seq<Step> {
    ClosedAndReady(release) + [Open] + [DoPublicReady]
  }

  /** What a promotion has done before the deployed record. */
  function Recorded(release: Digest): seq<Step> {
    PublicAndReady(release) + [Wrote(PromotionRecord)] + [DoHistory]
  }

  lemma PublicPrefix(steps: seq<Attempt>, release: Digest, k: nat)
    requires 7 <= k <= |steps| && forall j | 0 <= j < k :: steps[j] == Attempt(PromoteStep(release, j), Done)
    ensures InOrder(steps, k, PublicAndReady(release))
  {
    PromotePrefix(steps, release, 5);
    assert steps[5].step == PromoteStep(release, 5) && steps[6].step == PromoteStep(release, 6);
    OneMore(steps, 5, 6, ClosedAndReady(release), Open);
    OneMore(steps, 6, k, ClosedAndReady(release) + [Open], DoPublicReady);
  }

  lemma RecordedPrefix(steps: seq<Attempt>, release: Digest, k: nat)
    requires 10 <= k <= |steps| && forall j | 0 <= j < k :: steps[j] == Attempt(PromoteStep(release, j), Done)
    ensures InOrder(steps, k, Recorded(release))
  {
    PublicPrefix(steps, release, 8);
    assert steps[8].step == PromoteStep(release, 8) && steps[9].step == PromoteStep(release, 9);
    OneMore(steps, 8, 9, PublicAndReady(release), Wrote(PromotionRecord));
    OneMore(steps, 9, k, PublicAndReady(release) + [Wrote(PromotionRecord)], DoHistory);
  }

  lemma RecordingPlace(d: Delta, op: Operation, r: Digest, k: nat)
    requires k < PlanLength(d, op)
    ensures PlanStep(d, op, r, k) in {Wrote(PromotionRecord), DoHistory} ==> op == Promote && k >= 8
    ensures PlanStep(d, op, r, k) in {Wrote(Deployed), Removed(Candidate)} ==> op == Promote && k >= 10
  {
  }

  /**
   The private record, its upload, the deployed record and the removal of the candidate are attempted only after the
   closed fence, the readiness, the opening and the public readiness of that release; the last two also after the first two.
   */
  lemma RecordingIsGuarded(d: Delta, log: seq<Entry>, i: nat, k: nat)
    requires WellLogged(d, log) && i < |log| && k < |log[i].steps|
    requires log[i].steps[k].step in {Wrote(PromotionRecord), DoHistory, Wrote(Deployed), Removed(Candidate)}
    ensures log[i].operation == Promote && InOrder(log[i].steps, k, PublicAndReady(log[i].release))
    ensures log[i].steps[k].step in {Wrote(Deployed), Removed(Candidate)} ==> InOrder(log[i].steps, k, Recorded(log[i].release))
  {
    StepAt(d, log, i, k);
    RecordingPlace(d, log[i].operation, log[i].release, k);
    PublicPrefix(log[i].steps, log[i].release, k);
    if k >= 10 { RecordedPrefix(log[i].steps, log[i].release, k); }
  }

  lemma MarkerPlace(d: Delta, op: Operation, r: Digest, k: nat)
    requires k < PlanLength(d, op) && PlanStep(d, op, r, k) == Removed(Unresolved)
    ensures (op == Deploy && k == DEPLOY_LENGTH - 1) || (op == Promote && k == PROMOTE_LENGTH - 1)
  {
  }

  lemma DeployedPrefix(steps: seq<Attempt>, release: Digest, k: nat)
    requires 18 <= k <= |steps| && forall j | 0 <= j < k :: steps[j] == Attempt(DeployStep(release, j), Done)
    ensures InOrder(steps, k, StartedAndReady(release) + [Wrote(Current)] + [Wrote(Candidate)])
  {
    StartedPrefix(steps, release, 16);
    assert steps[16].step == DeployStep(release, 16) && steps[17].step == DeployStep(release, 17);
    OneMore(steps, 16, 17, StartedAndReady(release), Wrote(Current));
    OneMore(steps, 17, k, StartedAndReady(release) + [Wrote(Current)], Wrote(Candidate));
  }

  lemma PromotedPrefix(steps: seq<Attempt>, release: Digest, k: nat)
    requires 12 <= k <= |steps| && forall j | 0 <= j < k :: steps[j] == Attempt(PromoteStep(release, j), Done)
    ensures InOrder(steps, k, Recorded(release) + [Wrote(Deployed)] + [Removed(Candidate)])
  {
    RecordedPrefix(steps, release, 10);
    assert steps[10].step == PromoteStep(release, 10) && steps[11].step == PromoteStep(release, 11);
    OneMore(steps, 10, 11, Recorded(release), Wrote(Deployed));
    OneMore(steps, 11, k, Recorded(release) + [Wrote(Deployed)], Removed(Candidate));
  }

  /** A deployment marker is removed last: after both records of a deploy, or after the deployed record and the candidate's removal. */
  lemma MarkerGoesLast(d: Delta, log: seq<Entry>, i: nat, k: nat)
    requires WellLogged(d, log) && i < |log| && k < |log[i].steps| && log[i].steps[k].step == Removed(Unresolved)
    ensures log[i].operation == Deploy || log[i].operation == Promote
    ensures log[i].operation == Deploy ==>
      InOrder(log[i].steps, k, StartedAndReady(log[i].release) + [Wrote(Current)] + [Wrote(Candidate)])
    ensures log[i].operation == Promote ==>
      InOrder(log[i].steps, k, Recorded(log[i].release) + [Wrote(Deployed)] + [Removed(Candidate)])
  {
    StepAt(d, log, i, k);
    MarkerPlace(d, log[i].operation, log[i].release, k);
    if log[i].operation == Deploy {
      DeployedPrefix(log[i].steps, log[i].release, k);
    } else {
      PromotedPrefix(log[i].steps, log[i].release, k);
    }
  }

  lemma {:induction false} PromotedAt(log: seq<Entry>, i: nat) returns (j: nat)
    requires i < |PromotedIn(log)|
    ensures j < |log| && log[j].operation.Promote? && |log[j].steps| > 10 && log[j].release == PromotedIn(log)[i]
  {
    var n := |log| - 1;
    if i < |PromotedIn(log[..n])| { j := PromotedAt(log[..n], i); } else { j := n; }
  }

  /**
   Every release that was ever recorded as deployed was promoted by a logged transaction: ready behind the closed fence,
   opened, publicly ready and recorded, directly after its whole deploy.
   */
  lemma PromotedIsGuarded(h: Host, i: nat) returns (j: nat)
    requires h.Inv() && i < |h.promotions|
    ensures Guarded(h.log, j) && h.log[j].release == h.promotions[i].release
    ensures |h.log[j].steps| > 10 && InOrder(h.log[j].steps, 10, Recorded(h.log[j].release))
  {
    assert ReleasesOf(h.promotions)[i] == h.promotions[i].release;
    j := PromotedAt(h.log, i);
    OpenerIsGuarded(h.delta, h.log, j);
    StepAt(h.delta, h.log, j, 10);
    RecordedPrefix(h.log[j].steps, h.log[j].release, 10);
  }

  // ---- A rollout on a host where nothing fails ----

  /** Nothing stands in the way of a rollout: no marker, no candidate, no interrupted write, and a line for every image. */
  predicate Ready(h: Host, release: Digest)
    reads h`cleanup, h`restore, h`recovery, h`unresolved, h`candidate, h`shadows, h`composeDelivery, h`env
  {
    && h.enabled && !h.cleanup && !h.restore && h.recovery.None? && h.unresolved.None? && h.candidate.None?
    && h.shadows == {} && !h.composeDelivery && h.env.Some?
    && h.manifestOf(release).images.Keys == {Api, Worker, Terminal, AppSchema}
    && forall s <- h.manifestOf(release).images :: Image(s) in h.env.value
  }

  lemma ReadyIsAdmitted(h: Host, release: Digest, approval: Approval, now: int)
    requires Ready(h, release) && Approves(approval, Deploy, release, ReleaseOf(h.deployed), now)
    ensures Release.Admitted(h, release, Deploy, Some(approval), now)
  {
  }

  /** Deploy and promote, each with a fitting approval, on a faultless host that is ready: the release is public. */
  method Rollout(h: Host, release: Digest, deploy: Approval, promote: Approval, deployAt: int, promoteAt: int) returns (o: Outcome)
    requires h.Inv() && h.faultless && Ready(h, release)
    requires Approves(deploy, Deploy, release, ReleaseOf(h.deployed), deployAt)
    requires Approves(promote, Promote, release, ReleaseOf(h.deployed), promoteAt)
    modifies h
    ensures h.Inv() && o.Done? && h.open && h.unresolved.None? && h.candidate.None?
    ensures ReleaseOf(h.deployed) == Some(release) && h.deployed.value.previous == ReleaseOf(old(h.deployed))
    ensures SelectedIn(h.env, h.manifestOf(release))
    ensures |h.log| == |old(h.log)| + 2 && |h.promotions| == |old(h.promotions)| + 1
    ensures Complete(h.delta, h.log[|h.log| - 2]) && Complete(h.delta, h.log[|h.log| - 1])
  {
    ReadyIsAdmitted(h, release, deploy, deployAt);
    o := Release.Execute(h, release, Deploy, Some(deploy), deployAt);
    o := Release.Execute(h, release, Promote, Some(promote), promoteAt);
  }

  /** An update with a fitting, unused approval and an acceptable bundle, on a faultless host that can be maintained: it is installed. */
  method Maintain(h: Host, release: Digest, approval: Approval, images: string, archive: seq<Member>, listed: set<string>, now: int)
    returns (o: Outcome)
    requires h.Inv() && h.faultless && h.enabled && PlatformUpdate.Maintainable(h)
    requires Approves(approval, HostModel.PlatformUpdate, release, ReleaseOf(h.deployed), now)
    requires Accepts(h.delta, archive, h.root, Inventory(h.delta, listed))
    requires approval.sha !in h.snapshots && forall n <- h.delta.changed + [h.delta.metadata] :: At(n) in h.root
    modifies h
    ensures h.Inv() && o.Done? && !h.open && h.recovery.None? && h.update.None?
    ensures h.root == Overlay(old(h.root), Staged(archive)) && h.current == Some(release)
    ensures h.settings == old(h.settings)["platform_images_sha256" := images] && SelectedIn(h.env, h.manifestOf(release))
    ensures |h.log| == |old(h.log)| + 1 && Complete(h.delta, h.log[|h.log| - 1])
  {
    PlatformUpdate.MaintainableIsAcceptable(h, release, approval, archive, listed, now);
    o := PlatformUpdate.Execute(h, release, approval, images, archive, listed, true, now);
  }

  /** What an update has done before it replaces the first installed file. */
  function MarkedAndDown(): seq<Step> {
    [] + [DoMark] + [Close] + [DoDrain] + [DoStop] + [DoBackup] + [DoStopAll] + [DoRecheck]
  }

  lemma DownInOrder(steps: seq<Attempt>, k: nat)
    requires 13 <= k <= |steps|
    requires steps[0] == Attempt(DoMark, Done) && steps[2] == Attempt(Close, Done) && steps[4] == Attempt(DoDrain, Done)
    requires steps[6] == Attempt(DoStop, Done) && steps[8] == Attempt(DoBackup, Done)
    requires steps[11] == Attempt(DoStopAll, Done) && steps[12] == Attempt(DoRecheck, Done)
    ensures InOrder(steps, k, MarkedAndDown())
  {
    OneMore(steps, 0, 2, [], DoMark);
    OneMore(steps, 2, 4, [] + [DoMark], Close);
    OneMore(steps, 4, 6, [] + [DoMark] + [Close], DoDrain);
    OneMore(steps, 6, 8, [] + [DoMark] + [Close] + [DoDrain], DoStop);
    OneMore(steps, 8, 11, [] + [DoMark] + [Close] + [DoDrain] + [DoStop], DoBackup);
    OneMore(steps, 11, 12, [] + [DoMark] + [Close] + [DoDrain] + [DoStop] + [DoBackup], DoStopAll);
    OneMore(steps, 12, k, [] + [DoMark] + [Close] + [DoDrain] + [DoStop] + [DoBackup] + [DoStopAll], DoRecheck);
  }

  lemma UpdatePrefix(d: Delta, steps: seq<Attempt>, release: Digest, k: nat)
    requires QUIESCE_LENGTH <= k <= |steps| && forall j | 0 <= j < k :: steps[j] == Attempt(UpdateStep(d, release, j), Done)
    ensures InOrder(steps, k, MarkedAndDown())
  {
    assert steps[0].step == QuiesceStep(0) && steps[2].step == QuiesceStep(2) && steps[4].step == QuiesceStep(4)
        && steps[6].step == QuiesceStep(6) && steps[8].step == QuiesceStep(8) && steps[11].step == QuiesceStep(11)
        && steps[12].step == QuiesceStep(12);
    DownInOrder(steps, k);
  }

  lemma InstallPlace(d: Delta, op: Operation, r: Digest, k: nat, name: string)
    requires k < PlanLength(d, op) && PlanStep(d, op, r, k) == DoInstall(name)
    ensures op == HostModel.PlatformUpdate && name in d.Installed()
    ensures QUIESCE_LENGTH <= k < QUIESCE_LENGTH + |d.Installed()|
  {
  }

  /** An installed file is touched only on a marked, fenced, drained, stopped, backed-up and rechecked host with every service down. */
  lemma InstallIsGuarded(d: Delta, log: seq<Entry>, i: nat, k: nat, name: string)
    requires WellLogged(d, log) && i < |log| && k < |log[i].steps| && log[i].steps[k].step == DoInstall(name)
    ensures log[i].operation == HostModel.PlatformUpdate && name in d.Installed()
    ensures InOrder(log[i].steps, k, MarkedAndDown())
    ensures Never(log[i].steps[..k], DoStartPlatform) && Never(log[i].steps, Open)
  {
    StepAt(d, log, i, k);
    InstallPlace(d, log[i].operation, log[i].release, k, name);
    UpdatePrefix(d, log[i].steps, log[i].release, k);
    NeverOpens(d, log, i);
  }

  /** What an update has done after its files before it records its completion. */
  function PreparedAndStarted(d: Delta, release: Digest): seq<Step> {
    MarkedAndDown() + [DoInstall(d.metadata)] + [DoSettings] + [DoPrepare(release)] + [DoVerify(release)]
      + [DoStartPlatform] + [DoVerify(release)] + [DoKeepReceipt] + [DoKeepOperation]
  }

  lemma PreparedInOrder(d: Delta, steps: seq<Attempt>, release: Digest, k: nat)
    requires var n := QUIESCE_LENGTH + |d.Installed()|;
      n + 9 <= k <= |steps| && forall j | 0 <= j < k :: steps[j] == Attempt(UpdateStep(d, release, j), Done)
    ensures InOrder(steps, k, PreparedAndStarted(d, release))
  {
    var n := QUIESCE_LENGTH + |d.Installed()|;
    assert d.Installed()[|d.Installed()| - 1] == d.metadata;
    UpdatePrefix(d, steps, release, n - 1);
    assert steps[n - 1].step == DoInstall(d.metadata);
    assert steps[n].step == FinishStep(release, 0) && steps[n + 2].step == FinishStep(release, 2);
    assert steps[n + 3].step == FinishStep(release, 3) && steps[n + 5].step == FinishStep(release, 5);
    assert steps[n + 6].step == FinishStep(release, 6) && steps[n + 7].step == FinishStep(release, 7);
    assert steps[n + 8].step == FinishStep(release, 8);
    var done := MarkedAndDown() + [DoInstall(d.metadata)];
    OneMore(steps, n - 1, n, MarkedAndDown(), DoInstall(d.metadata));
    OneMore(steps, n, n + 2, done, DoSettings);
    OneMore(steps, n + 2, n + 3, done + [DoSettings], DoPrepare(release));
    OneMore(steps, n + 3, n + 5, done + [DoSettings] + [DoPrepare(release)], DoVerify(release));
    var prepared := done + [DoSettings] + [DoPrepare(release)] + [DoVerify(release)];
    OneMore(steps, n + 5, n + 6, prepared, DoStartPlatform);
    OneMore(steps, n + 6, n + 7, prepared + [DoStartPlatform], DoVerify(release));
    OneMore(steps, n + 7, n + 8, prepared + [DoStartPlatform] + [DoVerify(release)], DoKeepReceipt);
    OneMore(steps, n + 8, k, prepared + [DoStartPlatform] + [DoVerify(release)] + [DoKeepReceipt], DoKeepOperation);
  }

  lemma CompletionPlace(d: Delta, op: Operation, r: Digest, k: nat)
    requires k < PlanLength(d, op)
    ensures PlanStep(d, op, r, k) in {Wrote(UpdateCompleted), Removed(UpdateUnresolved), DoUnmark} ==>
      op == HostModel.PlatformUpdate && k >= QUIESCE_LENGTH + |d.Installed()| + 9
    ensures PlanStep(d, op, r, k) == DoUnmark ==> k == UpdateLength(d) - 1
  {
  }

  /**
   The completion record and the removal of journal and marker are attempted only after every file was installed, the runtime
   prepared and checked, the platform started and checked again, and both records kept; the marker goes last.
   */
  lemma CompletionIsGuarded(d: Delta, log: seq<Entry>, i: nat, k: nat)
    requires WellLogged(d, log) && i < |log| && k < |log[i].steps|
    requires log[i].steps[k].step in {Wrote(UpdateCompleted), Removed(UpdateUnresolved), DoUnmark}
    ensures log[i].operation == HostModel.PlatformUpdate && InOrder(log[i].steps, k, PreparedAndStarted(d, log[i].release))
    ensures forall n <- d.Installed() :: exists j | 0 <= j < k :: log[i].steps[j] == Attempt(DoInstall(n), Done)
    ensures log[i].steps[k].step == DoUnmark ==>
      InOrder(log[i].steps, k, PreparedAndStarted(d, log[i].release) + [Wrote(UpdateCompleted)] + [Removed(UpdateUnresolved)])
  {
    StepAt(d, log, i, k);
    var steps, release := log[i].steps, log[i].release;
    CompletionPlace(d, log[i].operation, release, k);
    PreparedInOrder(d, steps, release, k);
    forall n <- d.Installed() ensures exists j | 0 <= j < k :: steps[j] == Attempt(DoInstall(n), Done) {
      var m :| 0 <= m < |d.Installed()| && d.Installed()[m] == n;
      assert steps[QUIESCE_LENGTH + m] == Attempt(DoInstall(n), Done);
    }
    if steps[k].step == DoUnmark {
      PreparedInOrder(d, steps, release, k - 2);
      assert steps[k - 2].step == FinishStep(release, 9) && steps[k - 1].step == FinishStep(release, 10);
      OneMore(steps, k - 2, k - 1, PreparedAndStarted(d, release), Wrote(UpdateCompleted));
      OneMore(steps, k - 1, k, PreparedAndStarted(d, release) + [Wrote(UpdateCompleted)], Removed(UpdateUnresolved));
    }
  }

  /** The effects that must not happen twice. */
  predicate Unrepeatable(s: Step) {
    s == DoMigrate || s == DoBackup || s == DoStart || s == Open || s == Wrote(Candidate) || s == Wrote(Deployed)
  }

  lemma OnceInDeploy(r: Digest, j: nat, k: nat)
    requires j < k < DEPLOY_LENGTH && Unrepeatable(DeployStep(r, j))
    ensures DeployStep(r, j) != DeployStep(r, k)
  {
  }

  lemma OnceInPromote(r: Digest, j: nat, k: nat)
    requires j < k < PROMOTE_LENGTH && Unrepeatable(PromoteStep(r, j))
    ensures PromoteStep(r, j) != PromoteStep(r, k)
  {
  }

  lemma OnceInUpdate(d: Delta, r: Digest, j: nat, k: nat)
    requires j < k < UpdateLength(d) && Unrepeatable(UpdateStep(d, r, j))
    ensures UpdateStep(d, r, j) != UpdateStep(d, r, k)
  {
  }

  /** No transaction migrates, backs up, starts, opens or records twice. */
  lemma EffectsOnce(d: Delta, log: seq<Entry>, i: nat, j: nat, k: nat)
    requires WellLogged(d, log) && i < |log| && j < k < |log[i].steps| && Unrepeatable(log[i].steps[j].step)
    ensures log[i].steps[j].step != log[i].steps[k].step
  {
    StepAt(d, log, i, k);
    if log[i].operation.Deploy? {
      OnceInDeploy(log[i].release, j, k);
    } else if log[i].operation.Promote? {
      OnceInPromote(log[i].release, j, k);
    } else {
      OnceInUpdate(d, log[i].release, j, k);
    }
  }

  /** Promoted records form one chain from the release that was deployed at the start. */
  lemma {:induction false} PromotionChain(promotions: seq<Transaction>, first: Option<Digest>, i: nat)
    requires Linked(promotions, first) && i < |promotions|
    ensures promotions[i].promotion.Some?
    ensures promotions[i].previous == if i == 0 then first else Some(promotions[i - 1].release)
  {
    assert LinkedAt(promotions, first, i);
  }
}
