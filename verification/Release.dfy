/**
 The protected host transaction of `delivery/release.py`: deploy a candidate behind
 the closed fence, then promote exactly that candidate.
 */
module Release {
  import opened Wrappers
  import opened InstalledTree
  import opened HostModel

  const STAGES: seq<Stage> := [DrainStage, StopStage, BackupStage, SelectStage, MigrateStage, StartStage, ReadyStage]

  function StageStep(stage: Stage, release: Digest): Step {
    match stage
    case DrainStage => DoDrain
    case StopStage => DoStop
    case BackupStage => DoBackup
    case SelectStage => DoSelect(release)
    case MigrateStage => DoMigrate
    case StartStage => DoStart
    case _ => DoReady(release)
  }

  /** The host is running `operation` for `release`, has done `n` steps of it without failure, and its marker stands. */
  ghost predicate InProgress(h: Host, operation: Operation, release: Digest, n: nat)
    reads h`steps, h`operation, h`target, h`emergency, h`unresolved
  {
    h.Proceeding() && h.operation == operation && h.target == release && |h.steps| == n && h.unresolved.Some?
  }

  /** As InProgress, with any number of steps of which the last may have failed, and any marker. */
  ghost predicate Attempted(h: Host, operation: Operation, release: Digest)
    reads h`steps, h`operation, h`target
  {
    h.OnPlan() && h.operation == operation && h.target == release
  }

  /** The journal entry is about this transaction. */
  predicate Names(txn: Transaction, operation: Operation, release: Digest) {
    txn.operation == operation && txn.release == release
  }

  /** What the journal and the host look like once the first `i` stages are done. */
  ghost predicate Progress(h: Host, wasEnv: Option<Environment>, i: nat, release: Digest, start: Transaction, txn: Transaction)
    reads h`open, h`cleanup, h`env, h`backup
  {
    && !h.open && !h.cleanup
    && (if i <= 3 then h.env == wasEnv else Selects(wasEnv, h.manifestOf(release).images, h.env))
    && (i > 2 ==> txn.backup.Some? && h.backup == txn.backup)
    && (i > 5 ==> txn.startedAt.Some?)
    && txn == start.(stage := if 0 < i <= |STAGES| then STAGES[i - 1] else start.stage, backup := txn.backup, startedAt := txn.startedAt)
  }

  /** The stage whose journal entry is on disk, and the progress before it. */
  ghost predicate Entered(h: Host, i: nat, release: Digest, wasEnv: Option<Environment>, start: Transaction, current: Transaction)
    reads h`steps, h`operation, h`target, h`emergency, h`unresolved, h`open, h`cleanup, h`env, h`backup
  {
    && i < |STAGES| && InProgress(h, Deploy, release, 3 + 2 * i)
    && Names(start, Deploy, release) && h.unresolved == Some(current)
    && current.stage == STAGES[i]
    && Progress(h, wasEnv, i, release, start, current.(stage := if i == 0 then start.stage else STAGES[i - 1]))
  }

  /** Only the select stage can find something in its way. */
  predicate StageClear(h: Host, i: nat, release: Digest)
    requires i < |STAGES|
    reads h`env, h`composeDelivery
  {
    STAGES[i] == SelectStage ==> h.CanSelect(h.manifestOf(release).images)
  }

  /** The offline backup, whose digest goes into the journal. */
  method RunBackup(h: Host, release: Digest, ghost wasEnv: Option<Environment>, ghost start: Transaction, current: Transaction)
    returns (o: Outcome, txn: Transaction)
    requires Entered(h, 2, release, wasEnv, start, current)
    modifies h`backup, h`steps
    ensures Attempted(h, Deploy, release) && |h.steps| == |old(h.steps)| + 1
    ensures o.Done? ==> h.Proceeding() && Progress(h, wasEnv, 3, release, start, txn)
    ensures h.faultless ==> o.Done?
  {
    var sha;
    o, sha := h.TakeBackup();
    txn := current.(backup := Some(sha));
  }

  /** The stages that leave the journal entry as it is, or note the start time. */
  method RunOther(h: Host, i: nat, release: Digest, ghost wasEnv: Option<Environment>, ghost start: Transaction, current: Transaction)
    returns (o: Outcome, txn: Transaction)
    requires Entered(h, i, release, wasEnv, start, current) && i != 2
    modifies h`cleanup, h`env, h`composeDelivery, h`open, h`steps
    ensures Attempted(h, Deploy, release) && !h.open && |h.steps| == |old(h.steps)| + 1
    ensures o.Done? ==> h.Proceeding() && Progress(h, wasEnv, i + 1, release, start, txn)
    ensures o.Done? ==> h.composeDelivery == old(h.composeDelivery)
    ensures o.Done? ==> old(StageClear(h, i, release))
    ensures h.faultless && old(StageClear(h, i, release)) ==> o.Done?
  {
    var stage := STAGES[i];
    txn := current;
    if stage == SelectStage {
      o := h.Select(release);
    } else if stage == StopStage {
      o := h.Stop();
    } else {
      if stage == StartStage {
        var now: int := *;
        txn := txn.(startedAt := Some(now));
      }
      o := h.Perform(StageStep(stage, release));
    }
  }

  /** The effect of one stage whose journal entry is on disk. */
  method RunEffect(h: Host, i: nat, release: Digest, ghost wasEnv: Option<Environment>, ghost start: Transaction, current: Transaction)
    returns (o: Outcome, txn: Transaction)
    requires Entered(h, i, release, wasEnv, start, current)
    modifies h`cleanup, h`backup, h`env, h`composeDelivery, h`open, h`steps
    ensures Attempted(h, Deploy, release) && !h.open && |h.steps| == |old(h.steps)| + 1
    ensures o.Done? ==> h.Proceeding() && Progress(h, wasEnv, i + 1, release, start, txn)
    ensures o.Done? ==> h.composeDelivery == old(h.composeDelivery)
    ensures o.Done? ==> old(StageClear(h, i, release))
    ensures h.faultless && old(StageClear(h, i, release)) ==> o.Done?
  {
    if STAGES[i] == BackupStage {
      o, txn := RunBackup(h, release, wasEnv, start, current);
    } else {
      o, txn := RunOther(h, i, release, wasEnv, start, current);
    }
  }

  /** One stage: journal it, then run it. */
  method RunStage(h: Host, i: nat, release: Digest, ghost wasEnv: Option<Environment>, ghost start: Transaction, current: Transaction)
    returns (o: Outcome, txn: Transaction)
    requires i < |STAGES| && InProgress(h, Deploy, release, 2 + 2 * i) && Names(start, Deploy, release)
    requires Progress(h, wasEnv, i, release, start, current)
    modifies h`unresolved, h`shadows, h`cleanup, h`backup, h`env, h`composeDelivery, h`open, h`steps
    ensures Attempted(h, Deploy, release) && h.unresolved.Some? && !h.open && |h.steps| > |old(h.steps)|
    ensures o.Done? ==> InProgress(h, Deploy, release, 4 + 2 * i) && Progress(h, wasEnv, i + 1, release, start, txn)
    ensures o.Done? ==> h.shadows == old(h.shadows) && h.composeDelivery == old(h.composeDelivery)
    ensures o.Done? ==> old(Unresolved !in h.shadows && StageClear(h, i, release))
    ensures h.faultless && old(Unresolved !in h.shadows && StageClear(h, i, release)) ==> o.Done?
  {
    txn := current.(stage := STAGES[i]);
    o := h.WriteJournal(txn);
    if !o.Done? { return; }
    assert txn.(stage := current.stage) == current;
    o, txn := RunEffect(h, i, release, wasEnv, start, txn);
  }

  /** The drain, stop, backup, select, migrate, start and ready stages in order. */
  method RunStages(h: Host, release: Digest, start: Transaction) returns (o: Outcome, txn: Transaction)
    requires InProgress(h, Deploy, release, 2) && Names(start, Deploy, release) && !h.cleanup && !h.open
    modifies h`unresolved, h`shadows, h`cleanup, h`backup, h`env, h`composeDelivery, h`open, h`steps
    ensures Attempted(h, Deploy, release) && h.unresolved.Some? && !h.open && |h.steps| > 1
    ensures o.Done? ==> InProgress(h, Deploy, release, 16) && Progress(h, old(h.env), |STAGES|, release, start, txn)
    ensures o.Done? ==> h.shadows == old(h.shadows) && h.composeDelivery == old(h.composeDelivery)
    ensures o.Done? ==> old(Unresolved !in h.shadows && h.CanSelect(h.manifestOf(release).images))
    ensures h.faultless && old(Unresolved !in h.shadows && h.CanSelect(h.manifestOf(release).images)) ==> o.Done?
  {
    txn := start;
    o := Done;
    for i := 0 to |STAGES|
      invariant o.Done? && InProgress(h, Deploy, release, 2 + 2 * i)
      invariant Progress(h, old(h.env), i, release, start, txn)
      invariant h.shadows == old(h.shadows) && h.composeDelivery == old(h.composeDelivery)
      invariant i > 0 ==> Unresolved !in h.shadows
      invariant i > 3 ==> old(h.CanSelect(h.manifestOf(release).images))
    {
      o, txn := RunStage(h, i, release, old(h.env), start, txn);
      if !o.Done? { return; }
    }
  }

  /** The last three file changes of a deploy. */
  method RecordCandidate(h: Host, release: Digest, journal: Transaction) returns (o: Outcome)
    requires InProgress(h, Deploy, release, 16)
    modifies h`unresolved, h`current, h`candidate, h`shadows, h`steps
    ensures Attempted(h, Deploy, release) && |h.steps| > 1
    ensures o.Done? ==> h.unresolved.None?
    ensures h.candidate == old(h.candidate) || h.candidate == Some(journal)
    ensures h.unresolved.None? ==>
      && |h.steps| == DEPLOY_LENGTH && h.shadows == old(h.shadows)
      && h.current == Some(release) && h.candidate == Some(journal)
    ensures o.Done? ==> old(h.shadows) !! {Current, Candidate}
    ensures h.faultless && old(h.shadows) !! {Current, Candidate} ==> o.Done?
  {
    o := h.WriteCurrent(release);
    if !o.Done? { return; }
    o := h.WriteCandidate(journal);
    if !o.Done? { return; }
    o := h.RemoveMarker();
  }

  /** No earlier attempt left a shadow of a file the operation writes, and a deploy can select its images. */
  predicate Unhindered(h: Host, operation: Operation, release: Digest)
    reads h`shadows, h`env, h`composeDelivery
  {
    if operation.Deploy? then h.shadows !! {Unresolved, Current, Candidate} && h.CanSelect(h.manifestOf(release).images)
    else h.shadows !! {Unresolved, PromotionRecord, Deployed}
  }

  /** The candidate record that a completed deploy leaves. */
  ghost predicate DeployedAll(h: Host, wasEnv: Option<Environment>, release: Digest, start: Transaction)
    reads h`steps, h`open, h`cleanup, h`env, h`current, h`candidate, h`backup
  {
    && |h.steps| == DEPLOY_LENGTH && !h.open && !h.cleanup
    && Selects(wasEnv, h.manifestOf(release).images, h.env)
    && h.current == Some(release)
    && h.candidate.Some?
    && var txn := h.candidate.value;
       && txn.backup.Some? && h.backup == txn.backup && txn.startedAt.Some?
       && txn == start.(stage := ReadyStage, backup := txn.backup, startedAt := txn.startedAt)
  }

  /** The deploy branch, entered with the marker on disk. */
  method DeployCandidate(h: Host, release: Digest, start: Transaction) returns (o: Outcome)
    requires InProgress(h, Deploy, release, 1) && !h.cleanup
    requires Names(start, Deploy, release) && start.stage == FenceStage && h.unresolved == Some(start)
    modifies h`unresolved, h`current, h`candidate, h`shadows, h`cleanup, h`backup, h`env, h`composeDelivery, h`open, h`steps
    ensures Attempted(h, Deploy, release) && |h.steps| > 1
    ensures o.Done? ==> h.unresolved.None?
    ensures h.candidate == old(h.candidate) || (h.candidate.Some? && h.candidate.value.previous == start.previous)
    ensures h.unresolved.None? ==>
      && DeployedAll(h, old(h.env), release, start)
      && h.shadows == old(h.shadows) && h.composeDelivery == old(h.composeDelivery)
    ensures h.open ==> old(h.open)
    ensures o.Done? ==> old(Unhindered(h, Deploy, release))
    ensures h.faultless && old(Unhindered(h, Deploy, release)) ==> o.Done?
  {
    o := h.Fence(true);
    if !o.Done? { return; }
    var txn;
    o, txn := RunStages(h, release, start);
    if !o.Done? { return; }
    o := RecordCandidate(h, release, txn);
  }

  /** The promote branch up to the readiness of the closed candidate. */
  method ConfirmReadiness(h: Host, release: Digest, start: Transaction) returns (o: Outcome)
    requires InProgress(h, Promote, release, 1)
    requires Names(start, Promote, release) && start.stage == FenceStage && h.unresolved == Some(start)
    modifies h`unresolved, h`shadows, h`open, h`steps
    ensures Attempted(h, Promote, release) && h.unresolved.Some? && |h.steps| > 1
    ensures h.open ==> old(h.open)
    ensures o.Done? ==> h.Proceeding() && !h.open && |h.steps| == 4 && h.shadows == old(h.shadows)
    ensures o.Done? ==> Unresolved !in old(h.shadows)
    ensures h.faultless && Unresolved !in old(h.shadows) ==> o.Done?
  {
    o := h.Fence(true);
    if !o.Done? { return; }
    o := h.WriteJournal(start.(stage := PromotionReadiness));
    if !o.Done? { return; }
    o := h.Perform(DoReady(release));
  }

  /** The one place where the fence opens. */
  method OpenForCandidate(h: Host, release: Digest, start: Transaction) returns (o: Outcome)
    requires InProgress(h, Promote, release, 4) && Names(start, Promote, release)
    modifies h`unresolved, h`shadows, h`open, h`steps
    ensures Attempted(h, Promote, release) && h.unresolved.Some? && |h.steps| > 1
    ensures h.open ==> old(h.open) || |h.steps| > 5
    ensures o.Done? ==> h.Proceeding() && h.open && |h.steps| == 7 && h.shadows == old(h.shadows)
    ensures h.faultless && Unresolved !in old(h.shadows) ==> o.Done?
  {
    o := h.WriteJournal(start.(stage := PublicSmoke));
    if !o.Done? { return; }
    o := h.Fence(false);
    if !o.Done? { return; }
    o := h.Perform(DoPublicReady);
  }

  /** `record`: the private history entry, local then uploaded. */
  method RecordHistory(h: Host, release: Digest, start: Transaction, record: Transaction) returns (o: Outcome)
    requires InProgress(h, Promote, release, 7) && Names(start, Promote, release)
    modifies h`unresolved, h`history, h`shadows, h`steps
    ensures Attempted(h, Promote, release) && h.unresolved.Some? && |h.steps| > 7
    ensures o.Done? ==> h.Proceeding() && |h.steps| == 10 && h.shadows == old(h.shadows) && h.history == Some(record)
    ensures o.Done? ==> h.Announced(Wrote(Deployed)) && PromotionRecord !in old(h.shadows)
    ensures h.faultless && old(h.shadows) !! {Unresolved, PromotionRecord} ==> o.Done?
  {
    o := h.WriteJournal(start.(stage := RecordPromotion));
    if !o.Done? { return; }
    o := h.WriteHistory(record);
    if !o.Done? { return; }
    o := h.Perform(DoHistory);
  }

  /** Nothing is promoted yet, or exactly this record; the candidate is still the old one or removed. */
  twostate predicate Promoting(h: Host, record: Transaction)
    reads h`deployed, h`promotions, h`candidate
  {
    && ((h.deployed == old(h.deployed) && h.promotions == old(h.promotions))
        || (h.deployed == Some(record) && h.promotions == old(h.promotions) + [record]))
    && (h.candidate == old(h.candidate) || h.candidate.None?)
  }

  /** The last three file changes of a promotion. */
  method FinishPromotion(h: Host, release: Digest, record: Transaction) returns (o: Outcome)
    requires InProgress(h, Promote, release, 10) && h.Announced(Wrote(Deployed))
    modifies h`unresolved, h`deployed, h`candidate, h`promotions, h`shadows, h`steps
    ensures Attempted(h, Promote, release) && |h.steps| > 10
    ensures o.Done? ==> h.unresolved.None?
    ensures Promoting(h, record) && (h.promotions != old(h.promotions) ==> |h.steps| > 10)
    ensures h.unresolved.None? ==>
      && |h.steps| == PROMOTE_LENGTH && h.shadows == old(h.shadows)
      && h.deployed == Some(record) && h.candidate.None?
      && h.promotions == old(h.promotions) + [record]
    ensures o.Done? ==> Deployed !in old(h.shadows)
    ensures h.faultless && Deployed !in old(h.shadows) ==> o.Done?
  {
    o := h.WriteDeployed(record);
    if !o.Done? { return; }
    o := h.RemoveCandidate();
    if !o.Done? { return; }
    o := h.RemoveMarker();
  }

  /** The record that promotes `candidate`. */
  predicate Promotes(record: Transaction, candidate: Transaction, approval: Digest) {
    PromotedFrom(record, candidate) && record.promotion.value.approval == approval
  }

  /** The promote branch, entered with the marker on disk. */
  method PromoteCandidate(h: Host, release: Digest, start: Transaction, candidate: Transaction, approval: Digest)
    returns (o: Outcome, ghost record: Transaction)
    requires InProgress(h, Promote, release, 1)
    requires Names(start, Promote, release) && start.stage == FenceStage && h.unresolved == Some(start)
    modifies h`unresolved, h`deployed, h`candidate, h`history, h`promotions, h`shadows, h`open, h`steps
    ensures Attempted(h, Promote, release) && |h.steps| > 1
    ensures o.Done? ==> h.unresolved.None? && h.open
    ensures Promotes(record, candidate, approval)
    ensures Promoting(h, record) && (h.promotions != old(h.promotions) ==> |h.steps| > 10)
    ensures h.unresolved.None? ==>
      && |h.steps| == PROMOTE_LENGTH && h.shadows == old(h.shadows)
      && h.deployed == Some(record) && h.candidate.None?
      && h.promotions == old(h.promotions) + [record]
    ensures h.open ==> old(h.open) || |h.steps| > 5
    ensures o.Done? ==> old(Unhindered(h, Promote, release))
    ensures h.faultless && old(Unhindered(h, Promote, release)) ==> o.Done?
  {
    var now: int := *;
    var next := candidate.(promotion := Some(Promotion(approval, now, None)));
    record := next;
    o := ConfirmReadiness(h, release, start);
    if !o.Done? { return; }
    o := OpenForCandidate(h, release, start);
    if !o.Done? { return; }
    o := RecordHistory(h, release, start, next);
    if !o.Done? { return; }
    var sha: Digest := *;
    next := next.(promotion := Some(Promotion(approval, now, Some(sha))));
    record := next;
    o := FinishPromotion(h, release, next);
  }

  lemma ExtendLog(d: Delta, log: seq<Entry>, e: Entry)
    requires WellLogged(d, log) && (log != [] ==> Complete(d, log[|log| - 1]))
    requires Approves(e.approval, e.operation, e.release, e.previous, e.at)
    requires Follows(d, e.steps, e.operation, e.release)
    requires e.operation.Promote? ==> log != [] && log[|log| - 1].operation.Deploy? && log[|log| - 1].release == e.release
    ensures WellLogged(d, log + [e])
  {
    var longer := log + [e];
    forall i: nat | i < |longer| ensures WellLoggedAt(d, longer, i) {
      if i < |log| {
        assert WellLoggedAt(d, log, i);
        assert longer[i] == log[i] && (i > 0 ==> longer[i - 1] == log[i - 1]);
      }
    }
  }

  lemma ExtendPromotions(promotions: seq<Transaction>, first: Option<Digest>, record: Transaction)
    requires Linked(promotions, first)
    requires record.promotion.Some? && record.previous == LastPromoted(promotions, first)
    ensures Linked(promotions + [record], first)
  {
    var longer := promotions + [record];
    forall i: nat | i < |longer| ensures LinkedAt(longer, first, i) {
      if i < |promotions| {
        assert LinkedAt(promotions, first, i);
        assert longer[..i] == promotions[..i];
      } else {
        assert longer[..i] == promotions;
      }
    }
  }

  /** The call asks for what is already done. */
  predicate AlreadyDone(h: Host, release: Digest, operation: Operation)
    reads h`candidate, h`deployed
  {
    || (operation.Deploy? && ReleaseOf(h.candidate) == Some(release))
    || (operation.Promote? && ReleaseOf(h.deployed) == Some(release) && h.candidate.None?)
  }

  /** What the caller asked for: the release is the pending candidate, or it is deployed and nothing is pending. */
  predicate Requested(h: Host, release: Digest, operation: Operation)
    reads h`candidate, h`deployed
  {
    match operation
    case Deploy => h.candidate.Some? && h.candidate.value.release == release
    case Promote => h.candidate.None? && h.deployed.Some? && h.deployed.value.release == release
    case _ => false
  }

  /** What the program demands before it starts a transaction. */
  predicate Permitted(h: Host, release: Digest, operation: Operation, approval: Option<Approval>, now: int)
    reads h`candidate, h`deployed
  {
    && (operation.Deploy? || operation.Promote?)
    && (operation.Deploy? ==> h.candidate.None?)
    && (operation.Promote? ==> ReleaseOf(h.candidate) == Some(release) && h.candidate.value.previous == ReleaseOf(h.deployed))
    && approval.Some? && Approves(approval.value, operation, release, ReleaseOf(h.deployed), now)
  }

  /** The call is finished already or may start, and nothing an earlier one left behind is in its way. */
  predicate Admitted(h: Host, release: Digest, operation: Operation, approval: Option<Approval>, now: int)
    reads h`cleanup, h`restore, h`recovery, h`unresolved, h`candidate, h`deployed, h`shadows, h`env, h`composeDelivery
  {
    && h.enabled && !h.Blocked() && h.manifestOf(release).images.Keys == APPLICATIONS
    && (AlreadyDone(h, release, operation)
        || (Permitted(h, release, operation, approval, now) && Unhindered(h, operation, release)))
  }

  /**
   A raise after the first journal write, and nothing else, runs the handler: then the emergency fence
   is the last thing attempted, and if it worked the routes are closed.
   */
  ghost predicate Handled(h: Host, o: Outcome)
    reads h`emergency, h`steps, h`open
  {
    && (h.emergency.Some? <==> o.Raised? && |h.steps| > 1)
    && (h.emergency == Some(Done) ==> !h.open)
  }

  /** What the attempted steps of a transaction have done to the host, whichever step ended it. */
  twostate predicate Effects(h: Host, o: Outcome, operation: Operation, release: Digest, approval: Digest)
    reads h`steps, h`open, h`cleanup, h`env, h`current, h`candidate, h`backup, h`unresolved, h`emergency, h`promotions, h`deployed,
          h`shadows, h`composeDelivery
  {
    && (o.Done? ==> h.unresolved.None?)  // success removes the marker
    && Handled(h, o)
    && (h.open ==> old(h.open) || (operation.Promote? && |h.steps| > 5))
    && (operation.Deploy? ==>
          && h.promotions == old(h.promotions) && h.deployed == old(h.deployed)
          && (h.candidate == old(h.candidate) || (h.candidate.Some? && h.candidate.value.previous == ReleaseOf(h.deployed))))
    && (operation.Deploy? && h.unresolved.None? ==>
          && DeployedAll(h, old(h.env), release,
                         Transaction(release, Deploy, ReleaseOf(h.deployed), approval, FenceStage, None, None, None))
          && h.shadows == old(h.shadows) && h.composeDelivery == old(h.composeDelivery))
    && (operation.Promote? && o.Done? ==> h.open)
    && (h.promotions != old(h.promotions) ==> operation.Promote? && |h.steps| > 10)
    && (operation.Promote? && h.unresolved.None? ==>
          && |h.steps| == PROMOTE_LENGTH && h.shadows == old(h.shadows)
          && h.candidate.None? && h.deployed.Some? && old(h.candidate).Some?
          && h.deployed.value.release == release
          && Promotes(h.deployed.value, old(h.candidate).value, approval)
          && h.promotions == old(h.promotions) + [h.deployed.value])
  }

  /** The marker never reached the disk: at most the shadow that blocks the next attempt is new. */
  twostate predicate NotBegun(h: Host)
    reads h
  {
    && h.unresolved.None? && h.open == old(h.open) && h.log == old(h.log) && h.promotions == old(h.promotions)
    && h.candidate == old(h.candidate) && h.deployed == old(h.deployed) && h.current == old(h.current)
    && h.history == old(h.history) && h.env == old(h.env) && h.backup == old(h.backup) && h.cleanup == old(h.cleanup)
    && h.composeDelivery == old(h.composeDelivery)
  }

  /** The deploy branch with its exception handler. */
  method DeployGuarded(h: Host, release: Digest, start: Transaction) returns (o: Outcome)
    requires InProgress(h, Deploy, release, 1) && !h.cleanup
    requires Names(start, Deploy, release) && start.stage == FenceStage && h.unresolved == Some(start)
    modifies h`unresolved, h`current, h`candidate, h`shadows, h`cleanup, h`backup, h`env, h`composeDelivery, h`open,
             h`steps, h`emergency
    ensures Attempted(h, Deploy, release) && Handled(h, o)
    ensures o.Done? ==> h.unresolved.None?
    ensures h.candidate == old(h.candidate) || (h.candidate.Some? && h.candidate.value.previous == start.previous)
    ensures h.unresolved.None? ==>
      && DeployedAll(h, old(h.env), release, start)
      && h.shadows == old(h.shadows) && h.composeDelivery == old(h.composeDelivery)
    ensures h.open ==> old(h.open)
    ensures o.Done? ==> old(Unhindered(h, Deploy, release))
    ensures h.faultless && old(Unhindered(h, Deploy, release)) ==> o.Done?
  {
    o := DeployCandidate(h, release, start);
    if o.Raised? { h.EmergencyFence(); }
  }

  /** Marker, deploy branch and exception handler. */
  method RunDeploy(h: Host, release: Digest, approval: Digest) returns (began: bool, o: Outcome)
    requires h.unresolved.None? && !h.cleanup
    modifies h`unresolved, h`current, h`candidate, h`shadows, h`cleanup, h`backup, h`env, h`composeDelivery, h`open,
             h`operation, h`target, h`steps, h`emergency
    ensures unchanged(h`log, h`promotions, h`deployed, h`recovery, h`update)
    ensures !began ==> !o.Done? && NotBegun(h)
    ensures began ==> Attempted(h, Deploy, release) && Effects(h, o, Deploy, release, approval)
    ensures o.Done? ==> old(Unhindered(h, Deploy, release))
    ensures h.faultless && old(Unhindered(h, Deploy, release)) ==> o.Done?
  {
    began := true;
    var txn := Transaction(release, Deploy, ReleaseOf(h.deployed), approval, FenceStage, None, None, None);
    h.StartPlan(Deploy, release);
    o := h.WriteJournal(txn);
    if !o.Done? {
      // The first journal write is outside the handler: no fence is attempted, and a written marker stands.
      began := h.unresolved.Some?;
      return;
    }
    o := DeployGuarded(h, release, txn);
  }

  /** The promote branch with its exception handler. */
  method PromoteGuarded(h: Host, release: Digest, start: Transaction, candidate: Transaction, approval: Digest)
    returns (o: Outcome, ghost record: Transaction)
    requires InProgress(h, Promote, release, 1)
    requires Names(start, Promote, release) && start.stage == FenceStage && h.unresolved == Some(start)
    modifies h`unresolved, h`deployed, h`candidate, h`history, h`promotions, h`shadows, h`open, h`steps, h`emergency
    ensures Attempted(h, Promote, release) && Handled(h, o)
    ensures o.Done? ==> h.unresolved.None? && h.open
    ensures Promotes(record, candidate, approval)
    ensures Promoting(h, record) && (h.promotions != old(h.promotions) ==> |h.steps| > 10)
    ensures h.unresolved.None? ==>
      && |h.steps| == PROMOTE_LENGTH && h.shadows == old(h.shadows)
      && h.deployed == Some(record) && h.candidate.None?
      && h.promotions == old(h.promotions) + [record]
    ensures h.open ==> old(h.open) || |h.steps| > 5
    ensures o.Done? ==> old(Unhindered(h, Promote, release))
    ensures h.faultless && old(Unhindered(h, Promote, release)) ==> o.Done?
  {
    o, record := PromoteCandidate(h, release, start, candidate, approval);
    if o.Raised? { h.EmergencyFence(); }
  }

  /** Marker, promote branch and exception handler. */
  method RunPromote(h: Host, release: Digest, candidate: Transaction, approval: Digest)
    returns (began: bool, o: Outcome, ghost record: Transaction)
    requires h.unresolved.None? && h.candidate == Some(candidate) && candidate.release == release
    modifies h`unresolved, h`deployed, h`candidate, h`history, h`promotions, h`shadows, h`open,
             h`operation, h`target, h`steps, h`emergency
    ensures unchanged(h`log, h`env, h`recovery, h`update)
    ensures !began ==> !o.Done? && NotBegun(h)
    ensures began ==> Attempted(h, Promote, release) && Effects(h, o, Promote, release, approval)
    ensures o.Done? ==> old(Unhindered(h, Promote, release))
    ensures h.faultless && old(Unhindered(h, Promote, release)) ==> o.Done?
    ensures Promoting(h, record) && Promotes(record, candidate, approval)
  {
    began := true;
    record := candidate.(promotion := Some(Promotion(approval, 0, None)));
    var txn := Transaction(release, Promote, ReleaseOf(h.deployed), approval, FenceStage, None, None, None);
    h.StartPlan(Promote, release);
    o := h.WriteJournal(txn);
    if !o.Done? {
      began := h.unresolved.Some?;
      return;
    }
    o, record := PromoteGuarded(h, release, txn, candidate, approval);
  }

  /** The part of the invariant that speaks of the records, with the log before the transaction. */
  ghost predicate Records(h: Host, log: seq<Entry>)
    reads h`promotions, h`deployed
  {
    && Linked(h.promotions, h.first) && h.Recorded() && ReleasesOf(h.promotions) == PromotedIn(log)
    && WellLogged(h.delta, log) && (log != [] ==> Complete(h.delta, log[|log| - 1]))
  }

  /** Appends the entry of the transaction that just ran. */
  ghost method Log(h: Host, e: Entry)
    requires WellLogged(h.delta, h.log) && (h.log != [] ==> Complete(h.delta, h.log[|h.log| - 1]))
    requires Approves(e.approval, e.operation, e.release, e.previous, e.at)
    requires Follows(h.delta, e.steps, e.operation, e.release)
    requires e.operation.Promote? ==>
      h.log != [] && h.log[|h.log| - 1].operation.Deploy? && h.log[|h.log| - 1].release == e.release
    modifies h`log
    ensures h.log == old(h.log) + [e] && h.log[|h.log| - 1] == e && WellLogged(h.delta, h.log)
    ensures PromotedIn(h.log) == PromotedIn(old(h.log)) + if e.operation.Promote? && |e.steps| > 10 then [e.release] else []
  {
    ExtendLog(h.delta, h.log, e);
    PromotedInNext(h.log, e);
    h.log := h.log + [e];
  }

  /** Logs the deploy that just ran and proves the invariant from what it left. */
  ghost method ConcludeDeploy(h: Host, e: Entry)
    requires Records(h, h.log) && h.recovery.None? && h.update.None?
    requires e.operation.Deploy? && Approves(e.approval, e.operation, e.release, e.previous, e.at)
    requires Follows(h.delta, e.steps, e.operation, e.release)
    requires h.open ==> h.log != [] && Opens(h.log[|h.log| - 1])
    requires h.candidate.Some? ==> h.candidate.value.previous == ReleaseOf(h.deployed)
    requires h.unresolved.None? ==>
      && |e.steps| == DEPLOY_LENGTH && !h.open && ReleaseOf(h.candidate) == Some(e.release)
      && SelectedIn(h.env, h.manifestOf(e.release))
    modifies h`log
    ensures h.Inv() && h.log == old(h.log) + [e]
  {
    Log(h, e);
  }

  /** Logs the promotion that just ran, with or without its record, and proves the invariant from what it left. */
  ghost method ConcludePromote(h: Host, e: Entry, was: seq<Transaction>, record: Transaction)
    requires h.recovery.None? && h.update.None?
    requires WellLogged(h.delta, h.log) && h.log != [] && Complete(h.delta, h.log[|h.log| - 1])
    requires h.log[|h.log| - 1].operation.Deploy? && h.log[|h.log| - 1].release == e.release
    requires e.operation.Promote? && Approves(e.approval, e.operation, e.release, e.previous, e.at)
    requires Follows(h.delta, e.steps, e.operation, e.release)
    requires Linked(was, h.first) && ReleasesOf(was) == PromotedIn(h.log) && h.Recorded()
    requires record.promotion.Some? && record.previous == LastPromoted(was, h.first) && record.release == e.release
    requires h.promotions == was || (h.promotions == was + [record] && |e.steps| > 10)
    requires h.open ==> |e.steps| > 5
    requires h.candidate.Some? ==> Pending(h.candidate.value, h.deployed)
    requires h.unresolved.None? ==>
      && |e.steps| == PROMOTE_LENGTH && h.candidate.None? && ReleaseOf(h.deployed) == Some(e.release)
      && h.promotions != was && SelectedIn(h.env, h.manifestOf(e.release))
    modifies h`log
    ensures h.Inv() && h.log == old(h.log) + [e]
  {
    ExtendPromotions(was, h.first, record);
    ReleasesNext(was, record);
    Log(h, e);
  }

  /** A recorded promotion adds its release to the promoted ones. */
  lemma ReleasesNext(promotions: seq<Transaction>, record: Transaction)
    ensures ReleasesOf(promotions + [record]) == ReleasesOf(promotions) + [record.release]
  {
  }

  /** The deploy transaction, once every check has passed. */
  method TransactDeploy(h: Host, release: Digest, approval: Approval, now: int) returns (o: Outcome)
    requires h.Inv() && !h.Blocked() && h.candidate.None?
    requires Approves(approval, Deploy, release, ReleaseOf(h.deployed), now)
    modifies h`unresolved, h`current, h`candidate, h`shadows, h`cleanup, h`backup, h`env, h`composeDelivery, h`open,
             h`operation, h`target, h`steps, h`emergency, h`log
    ensures h.Inv()
    ensures h.log == old(h.log) ==> !o.Done? && NotBegun(h)
    ensures h.log != old(h.log) ==>
      && h.log == old(h.log) + [Entry(Deploy, release, ReleaseOf(old(h.deployed)), approval, now, h.steps)]
      && Effects(h, o, Deploy, release, approval.sha)
    ensures o.Done? ==> old(Unhindered(h, Deploy, release))
    ensures h.faultless && old(Unhindered(h, Deploy, release)) ==> o.Done?
  {
    var began;
    began, o := RunDeploy(h, release, approval.sha);
    if began {
      ConcludeDeploy(h, Entry(Deploy, release, ReleaseOf(h.deployed), approval, now, h.steps));
    }
  }

  /** The promote transaction, once every check has passed. */
  method TransactPromote(h: Host, release: Digest, candidate: Transaction, approval: Approval, now: int) returns (o: Outcome)
    requires h.Inv() && !h.Blocked() && h.candidate == Some(candidate)
    requires candidate.release == release && candidate.previous == ReleaseOf(h.deployed)
    requires Approves(approval, Promote, release, ReleaseOf(h.deployed), now)
    modifies h`unresolved, h`deployed, h`candidate, h`history, h`promotions, h`shadows, h`open,
             h`operation, h`target, h`steps, h`emergency, h`log
    ensures h.Inv()
    ensures h.log == old(h.log) ==> !o.Done? && NotBegun(h)
    ensures h.log != old(h.log) ==>
      && h.log == old(h.log) + [Entry(Promote, release, ReleaseOf(old(h.deployed)), approval, now, h.steps)]
      && Effects(h, o, Promote, release, approval.sha)
    ensures o.Done? ==> old(Unhindered(h, Promote, release))
    ensures h.faultless && old(Unhindered(h, Promote, release)) ==> o.Done?
  {
    ghost var previous, was := ReleaseOf(h.deployed), h.promotions;
    ghost var record;
    var began;
    began, o, record := RunPromote(h, release, candidate, approval.sha);
    if began {
      ConcludePromote(h, Entry(Promote, release, previous, approval, now, h.steps), was, record);
    }
  }

  /**
   One deploy or promote call, with every outside answer and every step outcome adversarial.
   On a faultless host it succeeds exactly if it is admitted.
   */
  method Execute(h: Host, release: Digest, operation: Operation, approval: Option<Approval>, now: int) returns (o: Outcome)
    requires h.Inv()
    modifies h`unresolved, h`deployed, h`current, h`candidate, h`history, h`promotions, h`shadows, h`cleanup, h`backup, h`env,
             h`composeDelivery, h`open, h`operation, h`target, h`steps, h`emergency, h`log
    ensures h.Inv()
    ensures old(h.cleanup || h.restore || h.recovery.Some? || h.unresolved.Some?) ==> !o.Done? && unchanged(h)
    ensures old(AlreadyDone(h, release, operation)) ==> unchanged(h)
    ensures h.log == old(h.log) ==> unchanged(h) || (!o.Done? && NotBegun(h))
    ensures h.log == old(h.log) && o.Done? ==> old(AlreadyDone(h, release, operation))
    ensures o.Done? ==> Requested(h, release, operation)
    ensures o.Done? || h.log != old(h.log) ==> h.enabled && h.manifestOf(release).images.Keys == {Api, Worker, Terminal, AppSchema}
    ensures h.log == old(h.log) && o.Done? ==>
      old((h.candidate.Some? && h.candidate.value.release == release) || (h.deployed.Some? && h.deployed.value.release == release))
    ensures h.log != old(h.log) && operation.Deploy? ==> old(h.candidate).None?
    ensures h.log != old(h.log) && operation.Promote? ==>
      old(h.candidate.Some? && h.candidate.value.release == release && h.candidate.value.previous == ReleaseOf(h.deployed))
    ensures h.log != old(h.log) ==>
      && h.enabled && approval.Some? && (operation.Deploy? || operation.Promote?)
      && h.log == old(h.log) + [Entry(operation, release, ReleaseOf(old(h.deployed)), approval.value, now, h.steps)]
      && Effects(h, o, operation, release, approval.value.sha)
    ensures h.log != old(h.log) && o.Done? ==> |h.steps| == PlanLength(h.delta, operation)
    ensures o.Done? ==> old(Admitted(h, release, operation, approval, now))
    ensures h.faultless && old(Admitted(h, release, operation, approval, now)) ==> o.Done?
  {
    if !h.enabled || h.Blocked() { return Raised; }
    o :| h.faultless ==> o.Done?;  // the manifest and the build evidence are read, verified and compared
    if !o.Done? { return; }
    if h.manifestOf(release).images.Keys != APPLICATIONS { return Raised; }
    var previous := ReleaseOf(h.deployed);
    if AlreadyDone(h, release, operation) {
      o :| h.faultless ==> o.Done?;  // only the health of what already runs is rechecked
      return;
    }
    if !operation.Deploy? && !operation.Promote? { return Raised; }
    if operation.Deploy? {
      if h.candidate.Some? { return Raised; }
    } else if ReleaseOf(h.candidate) != Some(release) || h.candidate.value.previous != previous {
      return Raised;
    }
    if approval.None? || !Approves(approval.value, operation, release, previous, now) { return Raised; }
    o :| h.faultless ==> o.Done?;  // operator evidence
    if !o.Done? { return; }
    if operation.Deploy? {
      o := TransactDeploy(h, release, approval.value, now);
    } else {
      o := TransactPromote(h, release, h.candidate.value, approval.value, now);
    }
  }
}
