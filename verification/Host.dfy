/**
 The live host that `delivery/release.py` and `delivery/platform_update.py` change:
 a directory of durable state files, the public fence, the installed source tree
 and the private settings file.

 Every primitive is adversarial. It may finish, raise, or be cut off by the death
 of the process, and when it does not finish it may leave any of the intermediate
 states its source statements go through. On a faultless host a primitive
 that finds nothing in its way finishes.
 */
module HostModel {
  import opened Wrappers
  import opened InstalledTree

  type Digest = string

  /** How one step ended. `Raised` runs exception handlers, `Crashed` runs nothing. */
  datatype Outcome = Done | Raised | Crashed

  datatype Operation = Deploy | Promote | PlatformUpdate | Unknown(name: string)

  datatype Service = Api | Worker | Terminal | AppSchema

  /** Keys of `compose.env`: the four application image references, and everything else. */
  datatype EnvKey = Image(service: Service) | Setting(name: string)
  type Environment = map<EnvKey, string>

  datatype Manifest = Manifest(images: map<Service, string>, platformImages: map<string, string>)

  /** The state files a program replaces through a shadow. */
  datatype StateFile =
    | Unresolved          // deployment-unresolved.json
    | Candidate           // candidate-release.json
    | Deployed            // deployed-release.json
    | Current             // current-release.json
    | PromotionRecord     // promotion-record.json
    | UpdateUnresolved    // platform-update-unresolved.json
    | UpdateCompleted     // platform-update-completed.json

  datatype Stage =
    | FenceStage | DrainStage | StopStage | BackupStage | SelectStage | MigrateStage | StartStage | ReadyStage
    | PromotionReadiness | PublicSmoke | RecordPromotion
    | StopAllStage | InstallStage | PrepareStage | StartPlatformStage | CompleteStage

  datatype Promotion = Promotion(approval: Digest, at: int, history: Option<Digest>)

  /** The journal entry that becomes the candidate record and then the deployed record. */
  datatype Transaction = Transaction(
    release: Digest,
    operation: Operation,
    previous: Option<Digest>,
    approval: Digest,
    stage: Stage,
    backup: Option<Digest>,
    startedAt: Option<int>,
    promotion: Option<Promotion>)

  /** The journal of a platform update. */
  datatype UpdateJournal = UpdateJournal(
    release: Digest, previous: Digest, approval: Digest, stage: Stage, previousBackup: Digest, backup: Option<Digest>)

  /** Who left `recovery-unverified`; an unwritten update marker is the just created empty file. */
  datatype Marker = ByOperator | ByUpdate(approval: Digest, written: bool)

  type Settings = map<string, string>

  /** The state files `CONTROLS` names. */
  datatype Controls = Controls(
    env: Option<Environment>, current: Option<Digest>, generation: Option<string>, runtime: Option<string>,
    deployed: Option<Transaction>, backup: Option<Digest>)

  /** `platform-update-<approval>`: what recovery needs from before the update. */
  datatype Snapshot = Snapshot(installed: map<string, Bytes>, controls: Controls, settings: Settings)

  /** The effects of a transaction. */
  datatype Step =
    | Wrote(file: StateFile)
    | Removed(file: StateFile)
    | Close | Open
    | DoDrain | DoStop | DoBackup | DoSelect(release: Digest) | DoMigrate | DoStart
    | DoReady(release: Digest) | DoPublicReady | DoHistory
    | DoMark | DoUnmark | DoStopAll | DoInstall(name: string) | DoSettings | DoPrepare(release: Digest) | DoStartPlatform
    | DoRecheck | DoVerify(release: Digest) | DoKeepReceipt | DoKeepOperation

  /** One attempted step and how it ended. */
  datatype Attempt = Attempt(step: Step, end: Outcome)

  /** The reviewed acceptance one transaction runs under (`validate_approval`). */
  datatype Approval = Approval(
    sha: Digest, operation: Operation, release: Digest, previous: Option<Digest>, issuedAt: int, expiresAt: int)

  predicate Approves(a: Approval, operation: Operation, release: Digest, previous: Option<Digest>, now: int) {
    && a.operation == operation
    && a.release == release
    && a.previous == previous
    && now - 3600 <= a.issuedAt <= now + 60
    && now < a.expiresAt <= a.issuedAt + 3600
  }

  /** One transaction that put its marker on disk. */
  datatype Entry = Entry(
    operation: Operation, release: Digest, previous: Option<Digest>, approval: Approval, at: int, steps: seq<Attempt>)

  const APPLICATIONS: set<Service> := {Api, Worker, Terminal, AppSchema}

  function ReleaseOf(record: Option<Transaction>): (r: Option<Digest>) {
    if record.Some? then Some(record.value.release) else None
  }

  /** `compose.env` names exactly the manifest's application images. */
  predicate SelectedIn(env: Option<Environment>, m: Manifest) {
    && env.Some?
    && forall s <- m.images :: Image(s) in env.value && env.value[Image(s)] == m.images[s]
  }

  /** The rewrite of `compose.env` done by `select`: only existing image lines change. */
  function WithImages(env: Environment, images: map<Service, string>): (r: Environment)
    ensures r.Keys == env.Keys
    ensures forall k <- env | !(k.Image? && k.service in images) :: r[k] == env[k]
    ensures forall s <- images | Image(s) in env :: r[Image(s)] == images[s]
  {
    map k <- env :: if k.Image? && k.service in images then images[k.service] else env[k]
  }

  // ---- The order of effects each transaction is meant to follow ----

  const DEPLOY_LENGTH := 19

  function DeployStep(r: Digest, i: nat): Step {
    if i == 0 then Wrote(Unresolved) else if i == 1 then Close
    else if i == 2 then Wrote(Unresolved) else if i == 3 then DoDrain
    else if i == 4 then Wrote(Unresolved) else if i == 5 then DoStop
    else if i == 6 then Wrote(Unresolved) else if i == 7 then DoBackup
    else if i == 8 then Wrote(Unresolved) else if i == 9 then DoSelect(r)
    else if i == 10 then Wrote(Unresolved) else if i == 11 then DoMigrate
    else if i == 12 then Wrote(Unresolved) else if i == 13 then DoStart
    else if i == 14 then Wrote(Unresolved) else if i == 15 then DoReady(r)
    else if i == 16 then Wrote(Current) else if i == 17 then Wrote(Candidate)
    else Removed(Unresolved)
  }

  const PROMOTE_LENGTH := 13

  function PromoteStep(r: Digest, i: nat): Step {
    if i == 0 then Wrote(Unresolved) else if i == 1 then Close
    else if i == 2 then Wrote(Unresolved) else if i == 3 then DoReady(r)
    else if i == 4 then Wrote(Unresolved) else if i == 5 then Open else if i == 6 then DoPublicReady
    else if i == 7 then Wrote(Unresolved) else if i == 8 then Wrote(PromotionRecord) else if i == 9 then DoHistory
    else if i == 10 then Wrote(Deployed) else if i == 11 then Removed(Candidate)
    else Removed(Unresolved)
  }

  const QUIESCE_LENGTH := 14
  const FINISH_LENGTH := 12
  function UpdateLength(d: Delta): nat {
    QUIESCE_LENGTH + |d.Installed()| + FINISH_LENGTH
  }

  function QuiesceStep(i: nat): Step {
    if i == 0 then DoMark else if i == 2 then Close
    else if i == 4 then DoDrain
    else if i == 6 then DoStop
    else if i == 8 then DoBackup
    else if i == 11 then DoStopAll
    else if i == 12 then DoRecheck
    else Wrote(UpdateUnresolved)
  }

  function FinishStep(r: Digest, i: nat): Step {
    if i == 0 then DoSettings
    else if i == 1 then Wrote(UpdateUnresolved) else if i == 2 then DoPrepare(r) else if i == 3 then DoVerify(r)
    else if i == 4 then Wrote(UpdateUnresolved) else if i == 5 then DoStartPlatform else if i == 6 then DoVerify(r)
    else if i == 7 then DoKeepReceipt else if i == 8 then DoKeepOperation else if i == 9 then Wrote(UpdateCompleted)
    else if i == 10 then Removed(UpdateUnresolved)
    else DoUnmark
  }

  function UpdateStep(d: Delta, r: Digest, i: nat): Step {
    if i < QUIESCE_LENGTH then QuiesceStep(i)
    else if i < QUIESCE_LENGTH + |d.Installed()| then DoInstall(d.Installed()[i - QUIESCE_LENGTH])
    else FinishStep(r, i - QUIESCE_LENGTH - |d.Installed()|)
  }

  function PlanLength(d: Delta, op: Operation): nat {
    match op
    case Deploy => DEPLOY_LENGTH
    case Promote => PROMOTE_LENGTH
    case PlatformUpdate => UpdateLength(d)
    case Unknown(_) => 0
  }

  function PlanStep(d: Delta, op: Operation, r: Digest, i: nat): Step {
    match op
    case Deploy => DeployStep(r, i)
    case Promote => PromoteStep(r, i)
    case _ => UpdateStep(d, r, i)
  }

  /** The stage that the journal must name before this step. */
  function Announcing(op: Operation, s: Step): Option<Stage> {
    match s
    case Close => Some(FenceStage)
    case DoDrain => Some(DrainStage)
    case DoStop => Some(StopStage)
    case DoBackup => Some(BackupStage)
    case DoSelect(_) => Some(SelectStage)
    case DoMigrate => Some(MigrateStage)
    case DoStart => Some(StartStage)
    case DoReady(_) => Some(if op.Promote? then PromotionReadiness else ReadyStage)
    case Open => Some(PublicSmoke)
    case DoPublicReady => Some(PublicSmoke)
    case DoHistory => Some(RecordPromotion)
    case Wrote(file) => if file.PromotionRecord? || file.Deployed? then Some(RecordPromotion) else None
    case Removed(file) => if file.Candidate? then Some(RecordPromotion) else None
    case DoStopAll => Some(StopAllStage)
    case DoInstall(_) => Some(InstallStage)
    case DoSettings => Some(InstallStage)
    case DoPrepare(_) => Some(PrepareStage)
    case DoStartPlatform => Some(StartPlatformStage)
    case _ => None
  }

  ghost predicate FollowsAt(d: Delta, steps: seq<Attempt>, op: Operation, r: Digest, i: nat)
    requires i < |steps| <= PlanLength(d, op)
  {
    steps[i].step == PlanStep(d, op, r, i) && (i < |steps| - 1 ==> steps[i].end.Done?)
  }

  /** A prefix of the plan: nothing is skipped, repeated or reordered, and only the last step may have failed. */
  ghost predicate Follows(d: Delta, steps: seq<Attempt>, op: Operation, r: Digest) {
    && |steps| <= PlanLength(d, op)
    && forall i: nat {:trigger FollowsAt(d, steps, op, r, i)} | i < |steps| :: FollowsAt(d, steps, op, r, i)
  }

  lemma FollowsNext(d: Delta, steps: seq<Attempt>, op: Operation, r: Digest, a: Attempt)
    requires Follows(d, steps, op, r) && (steps != [] ==> steps[|steps| - 1].end.Done?)
    requires |steps| < PlanLength(d, op) && a.step == PlanStep(d, op, r, |steps|)
    ensures Follows(d, steps + [a], op, r)
  {
    var longer := steps + [a];
    forall i: nat | i < |longer| ensures FollowsAt(d, longer, op, r, i) {
      if i < |steps| { assert FollowsAt(d, steps, op, r, i); }
    }
  }

  /** Every step of the plan was attempted, so all but the last removal ended well. */
  predicate Complete(d: Delta, e: Entry) {
    |e.steps| == PlanLength(d, e.operation)
  }

  /** A promotion that got as far as opening the fence. */
  predicate Opens(e: Entry) {
    e.operation.Promote? && |e.steps| > 5
  }

  /** The newest transaction opened the fence, or the one before it did. */
  predicate Opened(log: seq<Entry>) {
    log != [] && (Opens(log[|log| - 1]) || (|log| > 1 && Opens(log[|log| - 2])))
  }

  /** The releases whose promotion got as far as the deployed record, oldest first. */
  ghost function PromotedIn(log: seq<Entry>): seq<Digest> {
    if log == [] then []
    else
      var last := log[|log| - 1];
      PromotedIn(log[..|log| - 1]) + if last.operation.Promote? && |last.steps| > 10 then [last.release] else []
  }

  ghost function ReleasesOf(promotions: seq<Transaction>): (r: seq<Digest>)
    ensures |r| == |promotions|
  {
    seq(|promotions|, i requires 0 <= i < |promotions| => promotions[i].release)
  }

  lemma PromotedInNext(log: seq<Entry>, e: Entry)
    ensures PromotedIn(log + [e]) == if e.operation.Promote? && |e.steps| > 10 then PromotedIn(log) + [e.release] else PromotedIn(log)
  {
    assert (log + [e])[..|log|] == log;
  }

  // ---- What every reachable host satisfies ----

  ghost predicate WellLoggedAt(d: Delta, log: seq<Entry>, i: nat)
    requires i < |log|
  {
    && Approves(log[i].approval, log[i].operation, log[i].release, log[i].previous, log[i].at)
    && Follows(d, log[i].steps, log[i].operation, log[i].release)
    && (i < |log| - 1 ==> Complete(d, log[i]))
    && (log[i].operation.Promote? ==> i > 0 && log[i-1].operation.Deploy? && log[i-1].release == log[i].release)
  }

  /** Only the newest transaction can be unfinished, and a promotion directly follows the complete deploy of its release. */
  ghost predicate WellLogged(d: Delta, log: seq<Entry>) {
    forall i: nat {:trigger WellLoggedAt(d, log, i)} | i < |log| :: WellLoggedAt(d, log, i)
  }

  ghost predicate LinkedAt(promotions: seq<Transaction>, first: Option<Digest>, i: nat)
    requires i < |promotions|
  {
    promotions[i].promotion.Some? && promotions[i].previous == LastPromoted(promotions[..i], first)
  }

  /** Each promoted record names the one before it as its predecessor. */
  ghost predicate Linked(promotions: seq<Transaction>, first: Option<Digest>) {
    forall i: nat {:trigger LinkedAt(promotions, first, i)} | i < |promotions| :: LinkedAt(promotions, first, i)
  }

  ghost function LastPromoted(promotions: seq<Transaction>, first: Option<Digest>): Option<Digest> {
    if promotions == [] then first else Some(promotions[|promotions| - 1].release)
  }

  /** The record is this candidate with its promotion: what a promotion leaves while the candidate is not yet removed. */
  predicate PromotedFrom(record: Transaction, candidate: Transaction) {
    record.promotion.Some? && record == candidate.(promotion := record.promotion)
  }

  /** The candidate waits for its promotion, or that was just recorded. */
  predicate Pending(candidate: Transaction, deployed: Option<Transaction>) {
    candidate.previous == ReleaseOf(deployed) || (deployed.Some? && PromotedFrom(deployed.value, candidate))
  }

  class Host {
    const manifestOf: Digest -> Manifest  // the one content that passes verify_blob for a digest
    const enabled: bool
    const faultless: bool                 // no service, file operation or process fails from outside
    const delta: Delta                    // the source delta a platform update may install

    // The state directory; None and false mean that the file is absent.
    var unresolved: Option<Transaction>      // deployment-unresolved.json
    var candidate: Option<Transaction>       // candidate-release.json
    var deployed: Option<Transaction>        // deployed-release.json
    var current: Option<Digest>              // hash of the manifest in current-release.json
    var history: Option<Transaction>         // promotion-record.json
    var cleanup: bool                        // cleanup-unresolved
    var restore: bool                        // restore-unverified
    var recovery: Option<Marker>             // recovery-unverified
    var update: Option<UpdateJournal>        // platform-update-unresolved.json
    var completed: Option<UpdateJournal>     // platform-update-completed.json
    var backup: Option<Digest>               // last-offline-backup.json
    var env: Option<Environment>             // compose.env
    var generation: Option<string>           // current-generation
    var runtime: Option<string>              // runtime-config-sha256
    var composePending: bool                 // compose.pending.env
    var composeDelivery: bool                // compose.delivery.env
    var shadows: set<StateFile>              // NAME.pending
    var updateShadows: set<StateFile>        // NAME.platform-update-pending

    var open: bool                           // the public routes answer
    var root: Tree
    var settings: Settings
    var settingsShadow: bool
    var snapshots: map<Digest, Snapshot>

    ghost const first: Option<Digest>        // release deployed when the history starts
    ghost var operation: Operation           // what the transaction in progress does,
    ghost var target: Digest                 // with which release,
    ghost var steps: seq<Attempt>            // and the steps it has attempted
    ghost var emergency: Option<Outcome>     // how its emergency fence ended, if one was attempted
    ghost var log: seq<Entry>                // transactions whose marker reached the disk
    ghost var promotions: seq<Transaction>   // deployed records, oldest first
    ghost var before: Tree                   // installed tree and settings when the last update marked the host
    ghost var beforeSettings: Settings

    /** Any of the markers that stop every delivery operation. */
    predicate Blocked()
      reads this`cleanup, this`restore, this`recovery, this`unresolved
    {
      cleanup || restore || recovery.Some? || unresolved.Some?
    }

    predicate OwnedByUpdate()
      reads this`recovery
    {
      recovery.Some? && recovery.value.ByUpdate?
    }

    /** The journal on disk names this transaction and the stage of the step. */
    ghost predicate Announced(s: Step)
      reads this`unresolved, this`update, this`operation, this`target
    {
      var stage := Announcing(operation, s);
      stage.Some? ==>
        if operation.PlatformUpdate? then update.Some? && update.value.stage == stage.value && update.value.release == target
        else
          && unresolved.Some? && unresolved.value.stage == stage.value
          && unresolved.value.release == target && unresolved.value.operation == operation
    }

    ghost predicate OnPlan()
      reads this`steps, this`operation, this`target
    {
      Follows(delta, steps, operation, target)
    }

    /** The transaction may go on: no step of it failed, and its emergency fence was not attempted. */
    ghost predicate Proceeding()
      reads this`steps, this`operation, this`target, this`emergency
    {
      OnPlan() && (steps != [] ==> steps[|steps| - 1].end.Done?) && emergency.None?
    }

    /** The plan of the transaction puts `s` next, and the journal announces it. Every primitive below demands this of its caller. */
    ghost predicate Due(s: Step)
      reads this`steps, this`operation, this`target, this`emergency, this`unresolved, this`update
    {
      Proceeding() && |steps| < PlanLength(delta, operation) && PlanStep(delta, operation, target, |steps|) == s && Announced(s)
    }

    /** The deployed release was promoted by the newest transaction, or by the one before an unfinished update. */
    ghost predicate OpenedForDeployed()
      reads this`log, this`deployed, this`recovery
    {
      var i := |log| - (if OwnedByUpdate() then 2 else 1);
      0 <= i && Opens(log[i]) && ReleaseOf(deployed) == Some(log[i].release)
    }

    /** The public claims, which hold whenever no deployment marker stands. */
    ghost predicate Settled()
      reads this
    {
      && (open ==> candidate.None? && deployed.Some? && SelectedIn(env, manifestOf(deployed.value.release)))
      && (candidate.Some? ==>
            && SelectedIn(env, manifestOf(candidate.value.release))
            && candidate.value.previous == ReleaseOf(deployed)
            && log != []
            && log[|log| - 1].operation.Deploy? && log[|log| - 1].release == candidate.value.release)
      && (open ==> OpenedForDeployed())
      && (!OwnedByUpdate() && log != [] ==> Complete(delta, log[|log| - 1]))
      && ReleasesOf(promotions) == PromotedIn(log)
    }

    /** The deployed record is the last promoted one, whatever marker stands. */
    ghost predicate Recorded()
      reads this`deployed, this`promotions
    {
      && (promotions != [] ==> deployed == Some(promotions[|promotions| - 1]))
      && ReleaseOf(deployed) == LastPromoted(promotions, first)
    }

    ghost predicate Inv()
      reads this
    {
      && Linked(promotions, first)
      && WellLogged(delta, log)
      && Recorded()
      && (candidate.Some? ==> Pending(candidate.value, deployed))
      && (open ==> Opened(log))
      && ReleasesOf(promotions) <= PromotedIn(log)  // the last of them may not have taken effect
      && (unresolved.None? ==> Settled())
      && (update.Some? ==> recovery.Some?)
      && (OwnedByUpdate() ==> unresolved.None? && candidate.None? && CanRecover())
    }

    /** The update's snapshot holds the overwritten files and the settings of the moment the host was marked. */
    ghost predicate SavedBefore()
      reads this`recovery, this`snapshots, this`before, this`beforeSettings
      requires OwnedByUpdate()
    {
      var a := recovery.value.approval;
      && a in snapshots
      && SavedFrom(delta, snapshots[a].installed, before)
      && snapshots[a].settings == beforeSettings
    }

    /** The update's snapshot restores the installed tree and the settings of the moment the host was marked. */
    ghost predicate CanRecover()
      reads this`recovery, this`snapshots, this`root, this`before, this`beforeSettings
      requires OwnedByUpdate()
    {
      SavedBefore() && Recoverable(delta, root, snapshots[recovery.value.approval].installed, before)
    }

    /** A closed host without candidate or unfinished transaction. */
    constructor (manifestOf: Digest -> Manifest, enabled: bool, faultless: bool, deployed: Option<Transaction>,
                 env: Option<Environment>, root: Tree, settings: Settings)
      ensures Inv()
      ensures this.manifestOf == manifestOf && this.enabled == enabled && this.faultless == faultless && delta == REVIEWED
      ensures this.deployed == deployed && this.env == env && this.root == root && this.settings == settings
      ensures !open && !Blocked() && candidate.None? && first == ReleaseOf(deployed) && log == [] && promotions == []
    {
      this.manifestOf, this.enabled, this.faultless, delta := manifestOf, enabled, faultless, REVIEWED;
      this.deployed, this.env, this.root, this.settings := deployed, env, root, settings;
      unresolved, candidate, history, update, completed, recovery := None, None, None, None, None, None;
      current, generation, runtime, backup := *, *, *, *;
      cleanup, restore, composePending, composeDelivery, open, settingsShadow := false, false, false, false, false, false;
      shadows, updateShadows, snapshots := {}, {}, map[];
      first, log, promotions, steps, emergency := ReleaseOf(deployed), [], [], [], None;
      before, beforeSettings := root, settings;
      operation, target := Unknown(""), "";
    }

    /** Starts the plan of a transaction. */
    ghost method StartPlan(op: Operation, release: Digest)
      modifies this`operation, this`target, this`steps, this`emergency
      ensures operation == op && target == release && steps == [] && emergency.None? && Proceeding()
    {
      operation, target, steps, emergency := op, release, [], None;
    }

    /** Every primitive ends with this: the attempted step and the outcome it returns. */
    ghost method Record(step: Step, o: Outcome)
      requires Due(step)
      modifies this`steps
      ensures OnPlan() && steps == old(steps) + [Attempt(step, o)]
    {
      FollowsNext(delta, steps, operation, target, Attempt(step, o));
      steps := steps + [Attempt(step, o)];
    }

    // ---- Host.write, one instance for each file ----

    /** The exclusive creation of `NAME.pending`: the first half of `Host.write`. */
    method OpenShadow(name: StateFile) returns (o: Outcome)
      modifies this`shadows
      ensures o.Done? ==> name !in old(shadows) && shadows == old(shadows) + {name}
      ensures !o.Done? ==> shadows == old(shadows)
      ensures name in old(shadows) ==> o.Raised?
      ensures faultless && name !in old(shadows) ==> o.Done?
    {
      if name in shadows { return Raised; }
      o :| faultless ==> o.Done?;
      if o.Done? { shadows := shadows + {name}; }
    }

    method WriteJournal(txn: Transaction) returns (o: Outcome)
      requires Due(Wrote(Unresolved))
      modifies this`unresolved, this`shadows, this`steps
      ensures OnPlan() && steps == old(steps) + [Attempt(Wrote(Unresolved), o)]
      ensures o.Done? ==> Unresolved !in old(shadows)
      ensures faultless && Unresolved !in old(shadows) ==> o.Done?
      ensures o.Done? ==> unresolved == Some(txn) && shadows == old(shadows)
      ensures unresolved == old(unresolved) || unresolved == Some(txn)
      ensures Unresolved in old(shadows) ==> o.Raised? && unresolved == old(unresolved)
    {
      o := OpenShadow(Unresolved);
      if o.Done? {
        o :| faultless ==> o.Done?;  // content, flush, fsync
        if o.Done? {
          unresolved, shadows := Some(txn), shadows - {Unresolved};
          o :| faultless ==> o.Done?;  // directory fsync
        }
      }
      Record(Wrote(Unresolved), o);
    }

    method WriteCurrent(release: Digest) returns (o: Outcome)
      requires Due(Wrote(Current))
      modifies this`current, this`shadows, this`steps
      ensures OnPlan() && steps == old(steps) + [Attempt(Wrote(Current), o)]
      ensures o.Done? ==> Current !in old(shadows)
      ensures faultless && Current !in old(shadows) ==> o.Done?
      ensures o.Done? ==> current == Some(release) && shadows == old(shadows)
    {
      o := OpenShadow(Current);
      if o.Done? {
        o :| faultless ==> o.Done?;
        if o.Done? {
          current, shadows := Some(release), shadows - {Current};
          o :| faultless ==> o.Done?;
        }
      }
      Record(Wrote(Current), o);
    }

    method WriteCandidate(txn: Transaction) returns (o: Outcome)
      requires Due(Wrote(Candidate))
      modifies this`candidate, this`shadows, this`steps
      ensures OnPlan() && steps == old(steps) + [Attempt(Wrote(Candidate), o)]
      ensures o.Done? ==> Candidate !in old(shadows)
      ensures faultless && Candidate !in old(shadows) ==> o.Done?
      ensures o.Done? ==> candidate == Some(txn) && shadows == old(shadows)
      ensures candidate == old(candidate) || candidate == Some(txn)
    {
      o := OpenShadow(Candidate);
      if o.Done? {
        o :| faultless ==> o.Done?;
        if o.Done? {
          candidate, shadows := Some(txn), shadows - {Candidate};
          o :| faultless ==> o.Done?;
        }
      }
      Record(Wrote(Candidate), o);
    }

    method WriteHistory(record: Transaction) returns (o: Outcome)
      requires Due(Wrote(PromotionRecord))
      modifies this`history, this`shadows, this`steps
      ensures OnPlan() && steps == old(steps) + [Attempt(Wrote(PromotionRecord), o)]
      ensures o.Done? ==> PromotionRecord !in old(shadows)
      ensures faultless && PromotionRecord !in old(shadows) ==> o.Done?
      ensures o.Done? ==> history == Some(record) && shadows == old(shadows)
    {
      o := OpenShadow(PromotionRecord);
      if o.Done? {
        o :| faultless ==> o.Done?;
        if o.Done? {
          history, shadows := Some(record), shadows - {PromotionRecord};
          o :| faultless ==> o.Done?;
        }
      }
      Record(Wrote(PromotionRecord), o);
    }

    /** The deployed record and the list of promotions change together. */
    method WriteDeployed(record: Transaction) returns (o: Outcome)
      requires Due(Wrote(Deployed))
      modifies this`deployed, this`promotions, this`shadows, this`steps
      ensures OnPlan() && steps == old(steps) + [Attempt(Wrote(Deployed), o)]
      ensures o.Done? ==> Deployed !in old(shadows)
      ensures faultless && Deployed !in old(shadows) ==> o.Done?
      ensures o.Done? ==> deployed == Some(record) && shadows == old(shadows)
      ensures if deployed == old(deployed) && promotions == old(promotions) then !o.Done?
              else deployed == Some(record) && promotions == old(promotions) + [record]
    {
      o := OpenShadow(Deployed);
      if o.Done? {
        o :| faultless ==> o.Done?;
        if o.Done? {
          deployed, shadows := Some(record), shadows - {Deployed};
          promotions := promotions + [record];
          o :| faultless ==> o.Done?;
        }
      }
      Record(Wrote(Deployed), o);
    }

    // ---- Host.remove ----

    method RemoveCandidate() returns (o: Outcome)
      requires Due(Removed(Candidate))
      modifies this`candidate, this`steps
      ensures OnPlan() && steps == old(steps) + [Attempt(Removed(Candidate), o)]
      ensures faultless ==> o.Done?
      ensures o.Done? ==> candidate.None?
      ensures candidate == old(candidate) || candidate.None?
    {
      o :| faultless ==> o.Done?;
      if o.Done? {
        candidate := None;
        o :| faultless ==> o.Done?;
      }
      Record(Removed(Candidate), o);
    }

    method RemoveMarker() returns (o: Outcome)
      requires Due(Removed(Unresolved))
      modifies this`unresolved, this`steps
      ensures OnPlan() && steps == old(steps) + [Attempt(Removed(Unresolved), o)]
      ensures faultless ==> o.Done?
      ensures o.Done? ==> unresolved.None?
    {
      o :| faultless ==> o.Done?;
      if o.Done? {
        unresolved := None;
        o :| faultless ==> o.Done?;
      }
      Record(Removed(Unresolved), o);
    }

    // ---- The fence ----

    /** host.fence: the file is replaced, then a running listener is reloaded; a failed reload keeps the old routes. */
    method CloseFence() returns (o: Outcome)
      modifies this`open
      ensures faultless ==> o.Done?
      ensures o.Done? ==> !open
      ensures open ==> old(open)
    {
      o :| faultless ==> o.Done?;
      if o.Done? {
        open := false;
        o :| faultless ==> o.Done?;
      }
    }

    /** The fence as a step of a transaction. The opening half is in no other member. */
    method Fence(closed: bool) returns (o: Outcome)
      requires Due(if closed then Close else Open)
      modifies this`open, this`steps
      ensures OnPlan() && steps == old(steps) + [Attempt(if closed then Close else Open, o)]
      ensures faultless ==> o.Done?
      ensures o.Done? ==> open == !closed
      ensures open == old(open) || open == !closed
    {
      if closed {
        o := CloseFence();
      } else {
        o :| faultless ==> o.Done?;
        if o.Done? {
          open := true;
          o :| faultless ==> o.Done?;
        }
      }
      Record(if closed then Close else Open, o);
    }

    /** `emergency_fence`: close the routes, or stop the listener when that raises. Nothing is attempted after it. */
    method EmergencyFence()
      requires emergency.None?
      modifies this`open, this`emergency
      ensures emergency.Some?
      ensures faultless ==> emergency == Some(Done)
      ensures emergency == Some(Done) ==> !open
      ensures open ==> old(open)
    {
      var o := CloseFence();
      if o.Raised? {
        o :| faultless ==> o.Done?;  // compose stop caddy
        if o.Done? {
          open := false;
          o :| faultless ==> o.Done?;  // the listener must be seen stopped
        }
      }
      emergency := Some(o);
    }

    // ---- The stages ----

    /** A step whose effects this model does not track: drain, migrate, start, the checks, the history upload. */
    method Perform(step: Step) returns (o: Outcome)
      requires Due(step)
      modifies this`steps
      ensures OnPlan() && steps == old(steps) + [Attempt(step, o)]
      ensures faultless ==> o.Done?
    {
      o :| faultless ==> o.Done?;
      Record(step, o);
    }

    /** `stop_applications`: fences again and guards the application stop with `cleanup-unresolved`. */
    method StopApplications() returns (o: Outcome)
      modifies this`cleanup, this`open
      ensures faultless ==> o.Done?
      ensures open ==> old(open)
      ensures o.Done? ==> !open && (cleanup ==> old(cleanup))
    {
      o := CloseFence();
      if !o.Done? { return; }
      var running: bool := *;
      if running {
        cleanup := true;
        o :| faultless ==> o.Done?;
        if !o.Done? { return; }
        cleanup := false;
      }
      o :| faultless ==> o.Done?;
    }

    method Stop() returns (o: Outcome)
      requires Due(DoStop)
      modifies this`cleanup, this`open, this`steps
      ensures OnPlan() && steps == old(steps) + [Attempt(DoStop, o)]
      ensures faultless ==> o.Done?
      ensures open ==> old(open)
      ensures o.Done? ==> !open && (cleanup ==> old(cleanup))
    {
      o := StopApplications();
      Record(DoStop, o);
    }

    /** `backup`: the receipt is rewritten in place, so a cut leaves any receipt or none. */
    method TakeBackup() returns (o: Outcome, sha: Digest)
      requires Due(DoBackup)
      modifies this`backup, this`steps
      ensures OnPlan() && steps == old(steps) + [Attempt(DoBackup, o)]
      ensures faultless ==> o.Done?
      ensures o.Done? ==> backup == Some(sha)
    {
      sha := *;
      o :| faultless ==> o.Done?;
      if o.Done? {
        backup := None;
        o :| faultless ==> o.Done?;
        if o.Done? {
          backup := Some(sha);
          o :| faultless ==> o.Done?;
        }
      }
      Record(DoBackup, o);
    }

    /** Nothing is in the way of `select`: every image has its line, and no earlier rewrite was interrupted. */
    predicate CanSelect(images: map<Service, string>)
      reads this`env, this`composeDelivery
    {
      env.Some? && (forall s <- images :: Image(s) in env.value) && !composeDelivery
    }

    /** `select`: rewrites the application image lines of compose.env and nothing else. */
    method SelectImages(images: map<Service, string>) returns (o: Outcome)
      modifies this`env, this`composeDelivery
      ensures o.Done? ==> old(CanSelect(images))
      ensures faultless && old(CanSelect(images)) ==> o.Done?
      ensures o.Done? ==> Selects(old(env), images, env) && composeDelivery == old(composeDelivery)
    {
      if !CanSelect(images) { return Raised; }
      var lines := env.value;
      o :| faultless ==> o.Done?;
      if !o.Done? { return; }
      composeDelivery := true;
      o :| faultless ==> o.Done?;
      if !o.Done? { return; }
      composeDelivery, env := false, Some(WithImages(lines, images));
      o :| faultless ==> o.Done?;  // compose config, registry login and pull
    }

    method Select(release: Digest) returns (o: Outcome)
      requires Due(DoSelect(release))
      modifies this`env, this`composeDelivery, this`steps
      ensures OnPlan() && steps == old(steps) + [Attempt(DoSelect(release), o)]
      ensures o.Done? ==> old(CanSelect(manifestOf(release).images))
      ensures faultless && old(CanSelect(manifestOf(release).images)) ==> o.Done?
      ensures o.Done? ==> Selects(old(env), manifestOf(release).images, env) && composeDelivery == old(composeDelivery)
    {
      o := SelectImages(manifestOf(release).images);
      Record(DoSelect(release), o);
    }

    // ---- Primitives of the platform update ----

    /** Creates the update's own `recovery-unverified`, then writes its owner into it. */
    method Mark(approval: Digest) returns (o: Outcome)
      requires Due(DoMark)
      modifies this`recovery, this`before, this`beforeSettings, this`steps
      ensures OnPlan() && steps == old(steps) + [Attempt(DoMark, o)]
      ensures faultless && old(recovery).None? ==> o.Done?
      ensures o.Done? ==> recovery == Some(ByUpdate(approval, true))
      ensures recovery == old(recovery) || (old(recovery).None? && exists w :: recovery == Some(ByUpdate(approval, w)))
      ensures recovery != old(recovery) ==> before == root && beforeSettings == settings
    {
      o := Raised;
      if recovery.None? {
        o :| faultless ==> o.Done?;
        if o.Done? {
          recovery := Some(ByUpdate(approval, false));
          before, beforeSettings := root, settings;
          o :| faultless ==> o.Done?;
          if o.Done? {
            recovery := Some(ByUpdate(approval, true));
            o :| faultless ==> o.Done?;
          }
        }
      }
      Record(DoMark, o);
    }

    /** `replace` on the update's journal: a shadow is evidence of interruption, never retried. */
    method ReplaceUpdate(journal: UpdateJournal) returns (o: Outcome)
      requires Due(Wrote(UpdateUnresolved))
      modifies this`update, this`updateShadows, this`steps
      ensures OnPlan() && steps == old(steps) + [Attempt(Wrote(UpdateUnresolved), o)]
      ensures faultless && UpdateUnresolved !in old(updateShadows) ==> o.Done?
      ensures o.Done? ==> update == Some(journal) && updateShadows == old(updateShadows)
      ensures update == old(update) || update == Some(journal)
      ensures UpdateUnresolved in old(updateShadows) ==> o.Raised? && update == old(update)
    {
      o := Raised;
      if UpdateUnresolved !in updateShadows {
        o :| faultless ==> o.Done?;
        if o.Done? {
          updateShadows := updateShadows + {UpdateUnresolved};
          o :| faultless ==> o.Done?;
          if o.Done? {
            update, updateShadows := Some(journal), updateShadows - {UpdateUnresolved};
            o :| faultless ==> o.Done?;
          }
        }
      }
      Record(Wrote(UpdateUnresolved), o);
    }

    method ReplaceCompleted(journal: UpdateJournal) returns (o: Outcome)
      requires Due(Wrote(UpdateCompleted))
      modifies this`completed, this`updateShadows, this`steps
      ensures OnPlan() && steps == old(steps) + [Attempt(Wrote(UpdateCompleted), o)]
      ensures faultless && UpdateCompleted !in old(updateShadows) ==> o.Done?
      ensures o.Done? ==> completed == Some(journal) && updateShadows == old(updateShadows)
    {
      o := Raised;
      if UpdateCompleted !in updateShadows {
        o :| faultless ==> o.Done?;
        if o.Done? {
          updateShadows := updateShadows + {UpdateCompleted};
          o :| faultless ==> o.Done?;
          if o.Done? {
            completed, updateShadows := Some(journal), updateShadows - {UpdateCompleted};
            o :| faultless ==> o.Done?;
          }
        }
      }
      Record(Wrote(UpdateCompleted), o);
    }

    /** `replace` on an installed file. */
    method InstallFile(name: string, data: Bytes) returns (o: Outcome)
      requires Due(DoInstall(name))
      modifies this`root, this`steps
      ensures OnPlan() && steps == old(steps) + [Attempt(DoInstall(name), o)]
      ensures faultless && Shadow(name) !in old(root) ==> o.Done?
      ensures o.Done? ==> root == old(root)[At(name) := data] && Shadow(name) !in old(root)
      ensures || root == old(root)
              || (Shadow(name) !in old(root) && root == old(root)[Shadow(name) := data])
              || root == old(root)[At(name) := data]
    {
      o := Raised;
      if Shadow(name) !in root {
        o :| faultless ==> o.Done?;
        if o.Done? {
          root := root[Shadow(name) := data];
          o :| faultless ==> o.Done?;
          if o.Done? {
            root := (root - {Shadow(name)})[At(name) := data];
            assert root == old(root)[At(name) := data];
            o :| faultless ==> o.Done?;
          }
        }
      }
      Record(DoInstall(name), o);
    }

    method ReplaceSettings(updated: Settings) returns (o: Outcome)
      requires Due(DoSettings)
      modifies this`settings, this`settingsShadow, this`steps
      ensures OnPlan() && steps == old(steps) + [Attempt(DoSettings, o)]
      ensures faultless && !old(settingsShadow) ==> o.Done?
      ensures o.Done? ==> settings == updated && settingsShadow == old(settingsShadow)
    {
      o := Raised;
      if !settingsShadow {
        o :| faultless ==> o.Done?;
        if o.Done? {
          settingsShadow := true;
          o :| faultless ==> o.Done?;
          if o.Done? {
            settings, settingsShadow := updated, false;
            o :| faultless ==> o.Done?;
          }
        }
      }
      Record(DoSettings, o);
    }

    /** The files host.prepare replaces: compose.env through a shadow, the other three in place. */
    method RenderRuntime(release: Digest) returns (o: Outcome)
      modifies this`env, this`current, this`generation, this`runtime, this`composePending
      ensures faultless && !old(composePending) ==> o.Done?
      ensures o.Done? ==>
        SelectedIn(env, manifestOf(release)) && current == Some(release) && composePending == old(composePending)
    {
      if composePending { return Raised; }
      var others: map<string, string> := *;
      var lines := PreparedEnv(manifestOf(release), others);
      composePending := true;
      o :| faultless ==> o.Done?;
      if !o.Done? { return; }
      composePending, env := false, Some(lines);
      o :| faultless ==> o.Done?;
      current, generation, runtime := *, *, *;
      if !o.Done? { return; }
      current := Some(release);
    }

    /** host.prepare: new environment, manifest, generation and fingerprint, behind the closed fence. */
    method Prepare(release: Digest) returns (o: Outcome)
      requires Due(DoPrepare(release))
      modifies this`env, this`current, this`generation, this`runtime, this`composePending, this`open, this`steps
      ensures OnPlan() && steps == old(steps) + [Attempt(DoPrepare(release), o)]
      ensures faultless && !old(composePending) ==> o.Done?
      ensures open ==> old(open)
      ensures o.Done? ==>
        && !open && SelectedIn(env, manifestOf(release)) && current == Some(release)
        && composePending == old(composePending)
    {
      o :| faultless ==> o.Done?;  // stopped services, manifest checks, pulls, secrets
      if o.Done? {
        o := RenderRuntime(release);
        if o.Done? {
          o := CloseFence();
          if o.Done? { o :| faultless ==> o.Done?; }  // compose config
        }
      }
      Record(DoPrepare(release), o);
    }

    /** Starts only the dependencies and proves the closed listener. */
    method StartPlatform() returns (o: Outcome)
      requires Due(DoStartPlatform)
      modifies this`open, this`steps
      ensures OnPlan() && steps == old(steps) + [Attempt(DoStartPlatform, o)]
      ensures faultless ==> o.Done?
      ensures open ==> old(open)
      ensures o.Done? ==> !open
    {
      o := CloseFence();
      if o.Done? { o :| faultless ==> o.Done?; }
      Record(DoStartPlatform, o);
    }

    method RemoveUpdate() returns (o: Outcome)
      requires Due(Removed(UpdateUnresolved))
      modifies this`update, this`steps
      ensures OnPlan() && steps == old(steps) + [Attempt(Removed(UpdateUnresolved), o)]
      ensures faultless ==> o.Done?
      ensures o.Done? ==> update.None?
      ensures update == old(update) || update.None?
    {
      o :| faultless ==> o.Done?;
      if o.Done? {
        update := None;
        o :| faultless ==> o.Done?;
      }
      Record(Removed(UpdateUnresolved), o);
    }

    method Unmark() returns (o: Outcome)
      requires Due(DoUnmark)
      modifies this`recovery, this`steps
      ensures OnPlan() && steps == old(steps) + [Attempt(DoUnmark, o)]
      ensures faultless ==> o.Done?
      ensures o.Done? ==> recovery.None?
      ensures recovery == old(recovery) || recovery.None?
    {
      o :| faultless ==> o.Done?;
      if o.Done? {
        recovery := None;
        o :| faultless ==> o.Done?;
      }
      Record(DoUnmark, o);
    }
  }

  /** The environment `prepare` renders: the manifest's image lines, and the secret root and platform images in `others`. */
  function PreparedEnv(m: Manifest, others: map<string, string>): (r: Environment)
    ensures SelectedIn(Some(r), m)
  {
    map k | k in (set s <- m.images :: Image(s)) + (set n <- others :: Setting(n)) ::
      if k.Image? then m.images[k.service] else others[k.name]
  }

  /** The environment `select` writes: every image line existed, and only those lines have new values. */
  predicate Selects(was: Option<Environment>, images: map<Service, string>, env: Option<Environment>) {
    && was.Some?
    && (forall s <- images :: Image(s) in was.value)
    && env == Some(WithImages(was.value, images))
  }
}
