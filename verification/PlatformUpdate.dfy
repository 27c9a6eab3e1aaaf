/**
 The platform maintenance of `delivery/platform_update.py`: snapshot, mark, quiesce,
 install the reviewed delta, prepare, and unmark, on the same host and state files
 as the release transaction.
 */
module PlatformUpdate {
  import opened Wrappers
  import opened InstalledTree
  import opened Bootstrap
  import opened HostModel
  import Release

  /** What must be absent before an update starts: `BLOCKERS`, every shadow, and the two pending environments. */
  predicate Refused(h: Host)
    reads h`candidate, h`cleanup, h`restore, h`recovery, h`unresolved, h`update, h`shadows, h`updateShadows, h`composePending,
          h`composeDelivery, h`settingsShadow, h`root
  {
    || h.candidate.Some? || h.Blocked() || h.update.Some?
    || h.shadows != {} || h.updateShadows != {} || h.composePending || h.composeDelivery
    || h.settingsShadow || Shadowed(h.delta, h.root)
  }

  function ControlsOf(h: Host): Controls
    reads h`env, h`current, h`generation, h`runtime, h`deployed, h`backup
  {
    Controls(h.env, h.current, h.generation, h.runtime, h.deployed, h.backup)
  }

  predicate Present(c: Controls) {
    c.env.Some? && c.current.Some? && c.generation.Some? && c.runtime.Some? && c.deployed.Some? && c.backup.Some?
  }

  /** An update of `release` is running, has done `n` steps without failure, and its marker stands. */
  ghost predicate Updating(h: Host, release: Digest, n: nat)
    reads h`steps, h`operation, h`target, h`emergency, h`recovery
  {
    h.Proceeding() && h.operation == HostModel.PlatformUpdate && h.target == release && |h.steps| == n && h.OwnedByUpdate()
  }

  ghost predicate Attempting(h: Host, release: Digest)
    reads h`steps, h`operation, h`target
  {
    h.OnPlan() && h.operation == HostModel.PlatformUpdate && h.target == release
  }

  /** No earlier update used this approval, and the files to be saved are there. */
  predicate CanSnapshot(h: Host, approval: Digest)
    reads h`snapshots, h`root
  {
    approval !in h.snapshots && forall n <- h.delta.Saved() :: At(n) in h.root
  }

  /** Copies the files the update overwrites, the control files and the settings into a new private directory. */
  method TakeSnapshot(h: Host, approval: Digest) returns (o: Outcome)
    modifies h`snapshots
    ensures o.Done? ==>
      && approval !in old(h.snapshots) && approval in h.snapshots
      && h.snapshots[approval].controls == Controls(h.env, h.current, h.generation, h.runtime, h.deployed, h.backup)
      && h.snapshots[approval].settings == h.settings
      && SavedFrom(h.delta, h.snapshots[approval].installed, h.root)
    ensures o.Done? ==> old(CanSnapshot(h, approval))
    ensures h.faultless && old(CanSnapshot(h, approval)) ==> o.Done?
    ensures h.snapshots.Keys - {approval} == old(h.snapshots).Keys - {approval}
    ensures forall a <- old(h.snapshots) :: a in h.snapshots && h.snapshots[a] == old(h.snapshots)[a]
  {
    if approval in h.snapshots { return Raised; }  // mkdir: one approval is used once
    o :| h.faultless ==> o.Done?;
    if !o.Done? { return; }
    var taken := Snapshot(map[], ControlsOf(h), h.settings);
    h.snapshots := h.snapshots[approval := taken];
    var saved: map<string, Bytes> := map[];
    var names := h.delta.Saved();
    for i := 0 to |names|
      invariant o.Done?
      invariant approval in h.snapshots && h.snapshots == old(h.snapshots)[approval := taken.(installed := saved)]
      invariant forall n :: n in saved <==> n in names[..i]
      invariant forall n <- saved :: At(n) in h.root && saved[n] == h.root[At(n)]
    {
      if At(names[i]) !in h.root { return Raised; }
      o :| h.faultless ==> o.Done?;
      if !o.Done? { return; }
      assert names[..i + 1] == names[..i] + [names[i]];
      saved := saved[names[i] := h.root[At(names[i])]];
      h.snapshots := h.snapshots[approval := taken.(installed := saved)];
    }
    assert names[..|names|] == names;
    o :| h.faultless ==> o.Done?;  // the directory syncs
  }

  /** The journal on disk names this release and this stage. */
  ghost predicate Announces(h: Host, release: Digest, stage: Stage)
    reads h`update
  {
    h.update.Some? && h.update.value.stage == stage && h.update.value.release == release
  }

  /** The journal, the full fence and the drain. */
  method FenceAndDrain(h: Host, release: Digest, start: UpdateJournal) returns (o: Outcome)
    requires Updating(h, release, 1)
    requires start.release == release && start.stage == FenceStage
    modifies h`update, h`updateShadows, h`open, h`steps
    ensures Attempting(h, release) && (h.open ==> old(h.open))
    ensures o.Done? ==> h.Proceeding() && |h.steps| == 5 && !h.open && h.updateShadows == old(h.updateShadows)
    ensures h.faultless && UpdateUnresolved !in old(h.updateShadows) ==> o.Done?
  {
    o := h.ReplaceUpdate(start);
    if !o.Done? { return; }
    o := h.Fence(true);
    if !o.Done? { return; }
    o := h.ReplaceUpdate(start.(stage := DrainStage));
    if !o.Done? { return; }
    o := h.Perform(DoDrain);
  }

  /** The fence, the drain and the stop of the applications. */
  method FenceAndStop(h: Host, release: Digest, start: UpdateJournal) returns (o: Outcome)
    requires Updating(h, release, 1)
    requires start.release == release && start.stage == FenceStage
    modifies h`update, h`updateShadows, h`cleanup, h`open, h`steps
    ensures Attempting(h, release) && (h.open ==> old(h.open))
    ensures o.Done? ==>
      && h.Proceeding() && |h.steps| == 7 && !h.open && h.updateShadows == old(h.updateShadows)
      && (h.cleanup ==> old(h.cleanup))
    ensures h.faultless && UpdateUnresolved !in old(h.updateShadows) ==> o.Done?
  {
    o := FenceAndDrain(h, release, start);
    if !o.Done? { return; }
    o := h.ReplaceUpdate(start.(stage := StopStage));
    if !o.Done? { return; }
    o := h.Stop();
  }

  /** The offline backup, whose digest goes into the journal. */
  method BackUp(h: Host, release: Digest, start: UpdateJournal) returns (o: Outcome, journal: UpdateJournal)
    requires Updating(h, release, 7) && start.release == release
    modifies h`update, h`updateShadows, h`backup, h`steps
    ensures Attempting(h, release)
    ensures o.Done? ==>
      && Updating(h, release, 10) && h.updateShadows == old(h.updateShadows)
      && journal.backup.Some? && h.backup == journal.backup && journal == start.(stage := BackupStage, backup := journal.backup)
    ensures h.faultless && UpdateUnresolved !in old(h.updateShadows) ==> o.Done?
  {
    journal := start.(stage := BackupStage);
    o := h.ReplaceUpdate(journal);
    if !o.Done? { return; }
    var sha;
    o, sha := h.TakeBackup();
    if !o.Done? { return; }
    journal := journal.(backup := Some(sha));
    o := h.ReplaceUpdate(journal);
  }

  /** The offline backup and the stop of every remaining service. */
  method BackupAndStopAll(h: Host, release: Digest, start: UpdateJournal) returns (o: Outcome, journal: UpdateJournal)
    requires Updating(h, release, 7) && start.release == release && !h.open
    modifies h`update, h`updateShadows, h`backup, h`steps
    ensures Attempting(h, release)
    ensures o.Done? ==> h.Proceeding() && |h.steps| == 12 && h.updateShadows == old(h.updateShadows)
    ensures o.Done? ==> journal.backup.Some? && h.backup == journal.backup
    ensures o.Done? ==> journal == start.(stage := StopAllStage, backup := journal.backup)
    ensures h.faultless && UpdateUnresolved !in old(h.updateShadows) ==> o.Done?
  {
    o, journal := BackUp(h, release, start);
    if !o.Done? { return; }
    journal := journal.(stage := StopAllStage);
    o := h.ReplaceUpdate(journal);
    if !o.Done? { return; }
    o := h.Perform(DoStopAll);
  }

  /** The approval, the settings and the predecessor are checked again, and the journal announces the installation. */
  method AnnounceInstall(h: Host, release: Digest, current: UpdateJournal) returns (o: Outcome, journal: UpdateJournal)
    requires Updating(h, release, 12) && current.release == release
    modifies h`update, h`updateShadows, h`steps
    ensures Attempting(h, release) && journal == current.(stage := InstallStage)
    ensures o.Done? ==>
      && h.Proceeding() && |h.steps| == QUIESCE_LENGTH && h.updateShadows == old(h.updateShadows)
      && h.update == Some(journal)
    ensures h.faultless && UpdateUnresolved !in old(h.updateShadows) ==> o.Done?
  {
    journal := current.(stage := InstallStage);
    o := h.Perform(DoRecheck);
    if !o.Done? { return; }
    o := h.ReplaceUpdate(journal);
  }

  /** What one replacement, finished or interrupted, makes of a tree in which the first `i` files are installed. */
  lemma ReplaceNext(d: Delta, start: Tree, staged: map<string, Bytes>, saved: map<string, Bytes>, i: nat, was: Tree, tree: Tree)
    requires i < |d.Installed()| && CanInstall(d, start, staged) && SavedFrom(d, saved, start)
    requires was == InstallAll(start, staged, d.Installed()[..i])
    requires var n := d.Installed()[i];
      tree == was || tree == was[Shadow(n) := staged[n]] || tree == was[At(n) := staged[n]]
    ensures was[At(d.Installed()[i]) := staged[d.Installed()[i]]] == InstallAll(start, staged, d.Installed()[..i + 1])
    ensures Recoverable(d, tree, saved, start)
  {
    var names := d.Installed();
    assert names[..i + 1] == names[..i] + [names[i]];
    ReplaceOneMore(d, start, staged, saved, names[..i], names[i], was, tree);
  }

  /** The replacements so far have left no shadow in the way of the next one. */
  lemma NextIsFree(d: Delta, start: Tree, staged: map<string, Bytes>, i: nat)
    requires i < |d.Installed()| && CanInstall(d, start, staged)
    ensures Shadow(d.Installed()[i]) !in InstallAll(start, staged, d.Installed()[..i])
  {
    InstallAllAt(start, staged, d.Installed()[..i], Shadow(d.Installed()[i]));
  }

  /** One replacement of the install loop. */
  method InstallNext(h: Host, release: Digest, staged: map<string, Bytes>, i: nat, ghost start: Tree) returns (o: Outcome)
    requires i < |h.delta.Installed()| && Updating(h, release, QUIESCE_LENGTH + i) && Announces(h, release, InstallStage)
    requires CanInstall(h.delta, start, staged)
    requires h.root == InstallAll(start, staged, h.delta.Installed()[..i])
    requires h.SavedBefore() && h.before == start
    modifies h`root, h`steps
    ensures Attempting(h, release) && h.CanRecover()
    ensures o.Done? ==>
      && h.Proceeding() && |h.steps| == QUIESCE_LENGTH + i + 1
      && h.root == InstallAll(start, staged, h.delta.Installed()[..i + 1])
    ensures h.faultless ==> o.Done?
  {
    ghost var was, saved := h.root, h.snapshots[h.recovery.value.approval].installed;
    var name := h.delta.Installed()[i];
    NextIsFree(h.delta, start, staged, i);
    assert PlanStep(h.delta, h.operation, h.target, |h.steps|) == DoInstall(name);
    o := h.InstallFile(name, staged[name]);
    ReplaceNext(h.delta, start, staged, saved, i, was, h.root);
  }

  /** The install loop. Whatever interrupts it, the snapshot still restores the old tree. */
  method InstallFiles(h: Host, release: Digest, staged: map<string, Bytes>) returns (o: Outcome)
    requires Updating(h, release, QUIESCE_LENGTH) && Announces(h, release, InstallStage)
    requires Installable(h, staged)
    requires h.CanRecover() && h.before == h.root
    modifies h`root, h`steps
    ensures Attempting(h, release) && h.CanRecover()
    ensures o.Done? ==> h.Proceeding() && |h.steps| == PrepareAt(h.delta) && h.root == Overlay(old(h.root), staged)
    ensures h.faultless ==> o.Done?
  {
    o := Done;
    assert h.delta.Installed()[..0] == [];
    for i := 0 to |h.delta.Installed()|
      invariant o.Done? && Updating(h, release, QUIESCE_LENGTH + i)
      invariant h.root == InstallAll(old(h.root), staged, h.delta.Installed()[..i])
      invariant h.CanRecover()
    {
      o := InstallNext(h, release, staged, i, old(h.root));
      if !o.Done? { return; }
    }
    assert h.delta.Installed()[..|h.delta.Installed()|] == h.delta.Installed();
    DeltaInstallIsFullInstall(h.delta, old(h.root), staged);
  }

  function PrepareAt(d: Delta): nat {
    QUIESCE_LENGTH + |d.Installed()|
  }

  /** The new settings, and the journal entry that announces the preparation. */
  method InstallSettings(h: Host, release: Digest, updated: Settings, journal: UpdateJournal) returns (o: Outcome)
    requires Updating(h, release, PrepareAt(h.delta)) && Announces(h, release, InstallStage) && journal.release == release
    modifies h`settings, h`settingsShadow, h`update, h`updateShadows, h`steps
    ensures Attempting(h, release)
    ensures o.Done? ==>
      && h.Proceeding() && |h.steps| == PrepareAt(h.delta) + 2 && h.settings == updated && Announces(h, release, PrepareStage)
      && h.updateShadows == old(h.updateShadows) && h.settingsShadow == old(h.settingsShadow)
    ensures h.faultless && UpdateUnresolved !in old(h.updateShadows) && !old(h.settingsShadow) ==> o.Done?
  {
    o := h.ReplaceSettings(updated);
    if !o.Done? { return; }
    o := h.ReplaceUpdate(journal.(stage := PrepareStage));
  }

  /** The prepared runtime, checked, behind the fence. */
  method PrepareRuntime(h: Host, release: Digest) returns (o: Outcome)
    requires Updating(h, release, PrepareAt(h.delta) + 2) && Announces(h, release, PrepareStage) && !h.open
    modifies h`env, h`current, h`generation, h`runtime, h`composePending, h`open, h`steps
    ensures Attempting(h, release) && !h.open
    ensures o.Done? ==>
      && h.Proceeding() && |h.steps| == PrepareAt(h.delta) + 4
      && SelectedIn(h.env, h.manifestOf(release)) && h.current == Some(release)
      && h.composePending == old(h.composePending)
    ensures h.faultless && !old(h.composePending) ==> o.Done?
  {
    o := h.Prepare(release);
    if !o.Done? { return; }
    o := h.Perform(DoVerify(release));
  }

  /** The started dependencies, and the prepared files checked again. */
  method StartDependencies(h: Host, release: Digest, journal: UpdateJournal) returns (o: Outcome)
    requires Updating(h, release, PrepareAt(h.delta) + 4) && journal.release == release && !h.open
    modifies h`update, h`updateShadows, h`open, h`steps
    ensures Attempting(h, release) && !h.open
    ensures o.Done? ==> h.Proceeding() && |h.steps| == PrepareAt(h.delta) + 7 && h.updateShadows == old(h.updateShadows)
    ensures h.faultless && UpdateUnresolved !in old(h.updateShadows) ==> o.Done?
  {
    o := h.ReplaceUpdate(journal.(stage := StartPlatformStage));
    if !o.Done? { return; }
    o := h.StartPlatform();
    if !o.Done? { return; }
    o := h.Perform(DoVerify(release));
  }

  /** The update still owns the marker, the receipt is the one in the journal, and the completion record can be written. */
  predicate Completable(recovery: Option<Marker>, shadows: set<StateFile>, backup: Option<Digest>, approval: Digest,
                        journal: UpdateJournal)
  {
    recovery == Some(ByUpdate(approval, true)) && backup == journal.backup && UpdateCompleted !in shadows
  }

  /** The backup receipt and the marker are checked again, and the completion record is written. */
  method KeepRecords(h: Host, release: Digest, approval: Digest, journal: UpdateJournal) returns (o: Outcome)
    requires Updating(h, release, PrepareAt(h.delta) + 7)
    modifies h`completed, h`updateShadows, h`steps
    ensures Attempting(h, release)
    ensures o.Done? ==>
      && h.Proceeding() && |h.steps| == PrepareAt(h.delta) + 10 && h.updateShadows == old(h.updateShadows)
      && h.backup == journal.backup && h.completed == Some(journal)
    ensures h.faultless && Completable(h.recovery, old(h.updateShadows), h.backup, approval, journal) ==> o.Done?
  {
    if h.backup != journal.backup { return Raised; }
    o := h.Perform(DoKeepReceipt);
    if !o.Done? { return; }
    if h.recovery != Some(ByUpdate(approval, true)) { return Raised; }
    o := h.Perform(DoKeepOperation);
    if !o.Done? { return; }
    o := h.ReplaceCompleted(journal);
  }

  /** The journal goes first, the marker last. */
  method Unblock(h: Host, release: Digest) returns (o: Outcome)
    requires Updating(h, release, PrepareAt(h.delta) + 10)
    modifies h`update, h`recovery, h`steps
    ensures Attempting(h, release)
    ensures h.recovery == old(h.recovery) || h.recovery.None?
    ensures h.update.Some? ==> h.recovery.Some?
    ensures o.Done? ==> h.recovery.None?
    ensures h.recovery.None? ==> |h.steps| == UpdateLength(h.delta) && h.update.None?
    ensures h.faultless ==> o.Done?
  {
    o := h.RemoveUpdate();
    if !o.Done? { return; }
    o := h.Unmark();
  }

  /** The completion record, then the journal, then the marker: in this order. */
  method RecordCompletion(h: Host, release: Digest, approval: Digest, journal: UpdateJournal) returns (o: Outcome)
    requires Updating(h, release, PrepareAt(h.delta) + 7) && h.CanRecover()
    modifies h`completed, h`update, h`updateShadows, h`recovery, h`steps
    ensures Attempting(h, release)
    ensures h.recovery == old(h.recovery) || h.recovery.None?
    ensures h.recovery.Some? ==> h.CanRecover()
    ensures h.update.Some? ==> h.recovery.Some?
    ensures o.Done? ==> h.recovery.None?
    ensures h.recovery.None? ==>
      && |h.steps| == UpdateLength(h.delta) && h.update.None? && h.updateShadows == old(h.updateShadows)
      && h.backup == journal.backup
      && h.completed == Some(journal.(stage := CompleteStage))
    ensures h.faultless && Completable(old(h.recovery), old(h.updateShadows), h.backup, approval, journal) ==> o.Done?
  {
    o := KeepRecords(h, release, approval, journal.(stage := CompleteStage));
    if !o.Done? { return; }
    o := Unblock(h, release);
  }

  /** From the marker to the journal entry that announces the installation. */
  method Quiesce(h: Host, release: Digest, start: UpdateJournal) returns (o: Outcome, journal: UpdateJournal)
    requires Updating(h, release, 1)
    requires start.release == release && start.stage == FenceStage
    modifies h`update, h`updateShadows, h`cleanup, h`backup, h`open, h`steps
    ensures Attempting(h, release) && (h.open ==> old(h.open))
    ensures o.Done? ==>
      && h.Proceeding() && |h.steps| == QUIESCE_LENGTH && !h.open && h.backup == journal.backup
      && Announces(h, release, InstallStage) && journal.release == release
      && h.updateShadows == old(h.updateShadows) && (h.cleanup ==> old(h.cleanup))
    ensures h.faultless && UpdateUnresolved !in old(h.updateShadows) ==> o.Done?
  {
    journal := start;
    o := FenceAndStop(h, release, start);
    if !o.Done? { return; }
    o, journal := BackupAndStopAll(h, release, start);
    if !o.Done? { return; }
    o, journal := AnnounceInstall(h, release, journal);
  }

  /** The new settings, the prepared runtime and the started dependencies. */
  method PrepareAndStart(h: Host, release: Digest, updated: Settings, journal: UpdateJournal) returns (o: Outcome)
    requires Updating(h, release, PrepareAt(h.delta)) && !h.open
    requires Announces(h, release, InstallStage) && journal.release == release
    modifies h`update, h`updateShadows, h`settings, h`settingsShadow,
             h`env, h`current, h`generation, h`runtime, h`composePending, h`open, h`steps
    ensures Attempting(h, release) && !h.open
    ensures o.Done? ==>
      && h.Proceeding() && |h.steps| == PrepareAt(h.delta) + 7
      && h.settings == updated && SelectedIn(h.env, h.manifestOf(release)) && h.current == Some(release)
      && h.updateShadows == old(h.updateShadows) && h.settingsShadow == old(h.settingsShadow)
      && h.composePending == old(h.composePending)
    ensures h.faultless && old(UpdateUnresolved !in h.updateShadows && !h.settingsShadow && !h.composePending) ==> o.Done?
  {
    o := InstallSettings(h, release, updated, journal);
    if !o.Done? { return; }
    o := PrepareRuntime(h, release);
    if !o.Done? { return; }
    o := StartDependencies(h, release, journal);
  }

  /** No interrupted write is in the way of an update. */
  predicate Unhindered(h: Host)
    reads h`updateShadows, h`settingsShadow, h`composePending
  {
    h.updateShadows == {} && !h.settingsShadow && !h.composePending
  }

  /** The prepared runtime of the new platform, and the end of the transaction. */
  method PrepareAndComplete(h: Host, release: Digest, approval: Digest, updated: Settings, journal: UpdateJournal)
    returns (o: Outcome)
    requires Updating(h, release, PrepareAt(h.delta)) && !h.open && h.CanRecover()
    requires Announces(h, release, InstallStage) && journal.release == release
    modifies h`recovery, h`completed, h`update, h`updateShadows, h`settings, h`settingsShadow,
             h`env, h`current, h`generation, h`runtime, h`composePending, h`open, h`steps
    ensures unchanged(h`root, h`before, h`beforeSettings, h`cleanup, h`backup)
    ensures Attempting(h, release) && !h.open
    ensures h.recovery == old(h.recovery) || h.recovery.None?
    ensures h.recovery.Some? ==> h.CanRecover()
    ensures h.update.Some? ==> h.recovery.Some?
    ensures o.Done? ==> h.recovery.None?
    ensures h.recovery.None? ==>
      && |h.steps| == UpdateLength(h.delta)
      && h.completed == Some(journal.(stage := CompleteStage)) && h.backup == journal.backup
      && h.settings == updated && SelectedIn(h.env, h.manifestOf(release)) && h.current == Some(release)
      && h.updateShadows == old(h.updateShadows) && h.settingsShadow == old(h.settingsShadow)
      && h.composePending == old(h.composePending)
    ensures h.faultless && old(Unhindered(h) && h.recovery == Some(ByUpdate(approval, true)) && h.backup == journal.backup) ==> o.Done?
  {
    o := PrepareAndStart(h, release, updated, journal);
    if !o.Done? { return; }
    o := RecordCompletion(h, release, approval, journal);
  }

  /** What a completed update has made of the tree and the settings it found, and of the runtime. */
  ghost predicate UpdatedAll(h: Host, release: Digest, staged: map<string, Bytes>, images: string)
    reads h`steps, h`open, h`update, h`root, h`settings, h`env, h`current, h`updateShadows, h`settingsShadow,
          h`composePending, h`cleanup, h`before, h`beforeSettings, h`completed, h`backup
  {
    && |h.steps| == UpdateLength(h.delta) && !h.open && h.update.None? && Unhindered(h) && !h.cleanup
    && h.root == Overlay(h.before, staged)
    && h.settings == h.beforeSettings["platform_images_sha256" := images]
    && SelectedIn(h.env, h.manifestOf(release)) && h.current == Some(release)
    && h.completed.Some? && h.completed.value.release == release && h.completed.value.stage == CompleteStage
    && h.completed.value.backup == h.backup
  }

  /** Every file of the delta is staged, and neither an addition nor a shadow is in its way. */
  ghost predicate CanInstall(d: Delta, tree: Tree, staged: map<string, Bytes>) {
    AdditionsAbsent(d, tree) && forall n <- d.Installed() :: n in staged && Shadow(n) !in tree
  }

  /** The verified stage can be installed on this host. */
  ghost predicate Installable(h: Host, staged: map<string, Bytes>)
    reads h`root
  {
    ReviewedDelta(h.delta, h.root, staged) && CanInstall(h.delta, h.root, staged)
  }

  /** The snapshot of this approval holds the host as it is now. */
  ghost predicate SnapshotTaken(h: Host, approval: Digest)
    reads h`root, h`settings, h`snapshots
  {
    && approval in h.snapshots && SavedFrom(h.delta, h.snapshots[approval].installed, h.root)
    && h.snapshots[approval].settings == h.settings
  }

  /** From the marker to the installed tree. */
  method QuiesceAndInstall(h: Host, release: Digest, staged: map<string, Bytes>, start: UpdateJournal)
    returns (o: Outcome, journal: UpdateJournal)
    requires Updating(h, release, 1) && Installable(h, staged) && h.CanRecover() && h.before == h.root
    requires start.release == release && start.stage == FenceStage
    modifies h`update, h`updateShadows, h`cleanup, h`backup, h`root, h`open, h`steps
    ensures unchanged(h`before, h`beforeSettings, h`settings, h`settingsShadow, h`composePending, h`recovery, h`env)
    ensures Attempting(h, release) && h.CanRecover() && (h.open ==> old(h.open))
    ensures o.Done? ==>
      && h.Proceeding() && |h.steps| == PrepareAt(h.delta) && !h.open && h.root == Overlay(old(h.root), staged)
      && h.backup == journal.backup && Announces(h, release, InstallStage) && journal.release == release
      && h.updateShadows == old(h.updateShadows) && (h.cleanup ==> old(h.cleanup))
    ensures h.faultless && UpdateUnresolved !in old(h.updateShadows) ==> o.Done?
  {
    o, journal := Quiesce(h, release, start);
    if !o.Done? { return; }
    o := InstallFiles(h, release, staged);
  }

  /** What an update that put its marker on disk leaves: everything updated, or a blocked host that can be recovered. */
  ghost predicate Left(h: Host, o: Outcome, release: Digest, staged: map<string, Bytes>, images: string)
    reads h`steps, h`open, h`update, h`root, h`settings, h`env, h`current, h`updateShadows, h`settingsShadow,
          h`composePending, h`cleanup, h`recovery, h`snapshots, h`before, h`beforeSettings, h`completed, h`backup
  {
    match h.recovery
    case None => UpdatedAll(h, release, staged, images)
    case Some(_) => !o.Done? && h.OwnedByUpdate() && h.CanRecover()
  }

  /** Everything after the marker: quiesce, install, prepare, complete. */
  method RunMarked(h: Host, release: Digest, approval: Digest, staged: map<string, Bytes>, images: string, start: UpdateJournal)
    returns (o: Outcome)
    requires Updating(h, release, 1) && h.recovery == Some(ByUpdate(approval, true)) && h.update.None?
    requires Installable(h, staged) && h.CanRecover() && h.before == h.root && h.beforeSettings == h.settings
    requires Unhindered(h) && !h.cleanup && start.release == release && start.stage == FenceStage
    modifies h`recovery, h`completed, h`update, h`updateShadows, h`cleanup, h`backup, h`root, h`settings, h`settingsShadow,
             h`env, h`current, h`generation, h`runtime, h`composePending, h`open, h`steps
    ensures Attempting(h, release)
    ensures h.update.Some? ==> h.recovery.Some?
    ensures Left(h, o, release, staged, images)
    ensures Marked(h)
    ensures h.faultless ==> o.Done?
  {
    var journal;
    o, journal := QuiesceAndInstall(h, release, staged, start);
    if !o.Done? { return; }
    o := PrepareAndComplete(h, release, approval, h.settings["platform_images_sha256" := images], journal);
  }

  /** A raise, and nothing else, runs the handler: its emergency fence is then the last thing attempted. */
  ghost predicate Handled(h: Host, o: Outcome)
    reads h`emergency, h`open
  {
    && (h.emergency.Some? <==> o.Raised?)
    && (h.emergency == Some(Done) ==> !h.open)
  }

  /** The marker never reached the disk: at most the fence is closed. */
  twostate predicate NotBegun(h: Host)
    reads h`recovery, h`update, h`env, h`root, h`settings, h`open
  {
    && h.recovery == old(h.recovery) && h.update == old(h.update) && h.env == old(h.env)
    && h.root == old(h.root) && h.settings == old(h.settings) && (h.open ==> old(h.open))
  }

  /** The tree and the settings the marked update found are on record, and it opened nothing. */
  twostate predicate Marked(h: Host)
    reads h`before, h`beforeSettings, h`open, h`env
  {
    && h.before == old(h.root) && h.beforeSettings == old(h.settings)
    && (h.open ==> old(h.open) && h.env == old(h.env))
  }

  /** Starts the plan with the marker. From here on the host can be recovered. */
  method Begin(h: Host, release: Digest, approval: Digest, ghost staged: map<string, Bytes>)
    returns (o: Outcome)
    requires h.recovery.None? && Installable(h, staged) && SnapshotTaken(h, approval)
    modifies h`recovery, h`before, h`beforeSettings, h`operation, h`target, h`steps, h`emergency
    ensures Attempting(h, release) && h.emergency.None? && |h.steps| == 1 && (o.Done? ==> h.Proceeding())
    ensures h.recovery.Some? ==> h.OwnedByUpdate() && h.CanRecover() && h.before == h.root && h.beforeSettings == h.settings
    ensures if h.recovery.Some? then Marked(h) else NotBegun(h)
    ensures o.Done? ==> h.recovery == Some(ByUpdate(approval, true))
    ensures h.faultless ==> o.Done?
  {
    h.StartPlan(HostModel.PlatformUpdate, release);
    o := h.Mark(approval);
    RestoreUndoesInstall(h.delta, h.root, map[], h.snapshots[approval].installed, []);
  }

  /** The marker and everything after it. */
  method MarkAndRun(h: Host, release: Digest, approval: Digest, staged: map<string, Bytes>, images: string, start: UpdateJournal)
    returns (began: bool, o: Outcome)
    requires h.recovery.None? && h.update.None? && Installable(h, staged) && SnapshotTaken(h, approval)
    requires Unhindered(h) && !h.cleanup && start.release == release && start.stage == FenceStage
    modifies h`recovery, h`before, h`beforeSettings, h`completed, h`update, h`updateShadows, h`cleanup, h`backup, h`root,
             h`settings, h`settingsShadow, h`env, h`current, h`generation, h`runtime, h`composePending, h`open,
             h`operation, h`target, h`steps, h`emergency
    ensures h.emergency.None?
    ensures !began ==> !o.Done? && NotBegun(h)
    ensures began ==> Attempting(h, release) && (h.update.Some? ==> h.recovery.Some?) && Left(h, o, release, staged, images)
    ensures began ==> Marked(h)
    ensures h.faultless ==> o.Done?
  {
    o := Begin(h, release, approval, staged);
    began := h.recovery.Some?;
    if !o.Done? { return; }
    o := RunMarked(h, release, approval, staged, images, start);
  }

  /** The marked part with its exception handler. */
  method RunGuarded(h: Host, release: Digest, approval: Digest, staged: map<string, Bytes>, images: string, start: UpdateJournal)
    returns (began: bool, o: Outcome)
    requires h.recovery.None? && h.update.None? && Installable(h, staged) && SnapshotTaken(h, approval)
    requires Unhindered(h) && !h.cleanup && start.release == release && start.stage == FenceStage
    modifies h`recovery, h`before, h`beforeSettings, h`completed, h`update, h`updateShadows, h`cleanup, h`backup, h`root,
             h`settings, h`settingsShadow, h`env, h`current, h`generation, h`runtime, h`composePending, h`open,
             h`operation, h`target, h`steps, h`emergency
    ensures Handled(h, o)
    ensures !began ==> !o.Done? && NotBegun(h)
    ensures began ==> Attempting(h, release) && (h.update.Some? ==> h.recovery.Some?) && Left(h, o, release, staged, images)
    ensures began ==> Marked(h)
    ensures h.faultless ==> o.Done?
  {
    began, o := MarkAndRun(h, release, approval, staged, images, start);
    if o.Raised? { h.EmergencyFence(); }
  }

  /** The same, with what an update leaves alone: the release records and the log. */
  method RunUpdate(h: Host, release: Digest, approval: Digest, staged: map<string, Bytes>, images: string, start: UpdateJournal)
    returns (began: bool, o: Outcome)
    requires h.recovery.None? && h.update.None? && Installable(h, staged) && SnapshotTaken(h, approval)
    requires Unhindered(h) && !h.cleanup && start.release == release && start.stage == FenceStage
    modifies h`recovery, h`before, h`beforeSettings, h`completed, h`update, h`updateShadows, h`cleanup, h`backup, h`root,
             h`settings, h`settingsShadow, h`env, h`current, h`generation, h`runtime, h`composePending, h`open,
             h`operation, h`target, h`steps, h`emergency
    ensures unchanged(h`log, h`promotions, h`deployed, h`candidate, h`unresolved)
    ensures Handled(h, o)
    ensures !began ==> !o.Done? && NotBegun(h)
    ensures began ==> Attempting(h, release) && (h.update.Some? ==> h.recovery.Some?) && Left(h, o, release, staged, images)
    ensures began ==> Marked(h)
    ensures h.faultless ==> o.Done?
  {
    began, o := RunGuarded(h, release, approval, staged, images, start);
  }

  /** The part of the invariant that an update does not touch, with the log before it. */
  ghost predicate Settled(h: Host, log: seq<Entry>)
    reads h`promotions, h`deployed, h`candidate, h`unresolved
  {
    Release.Records(h, log) && h.candidate.None? && h.unresolved.None?
  }

  /** With these routes open, `env` shows the deployed release, which the newest transaction promoted. */
  ghost predicate Shows(h: Host, env: Option<Environment>, log: seq<Entry>)
    reads h`deployed
  {
    && h.deployed.Some? && SelectedIn(env, h.manifestOf(h.deployed.value.release))
    && log != [] && Opens(log[|log| - 1]) && log[|log| - 1].release == h.deployed.value.release
  }

  /** Logs the update that just ran and proves the invariant from what it left. */
  ghost method Conclude(h: Host, o: Outcome, release: Digest, approval: Approval, staged: map<string, Bytes>, images: string,
                        now: int)
    requires Attempting(h, release) && (h.update.Some? ==> h.recovery.Some?) && Left(h, o, release, staged, images)
    requires Settled(h, h.log) && (h.open ==> Shows(h, h.env, h.log)) && Handled(h, o)
    requires Approves(approval, HostModel.PlatformUpdate, release, ReleaseOf(h.deployed), now)
    modifies h`log
    ensures h.Inv() && Left(h, o, release, staged, images) && Handled(h, o)
    ensures h.log == old(h.log) + [Entry(HostModel.PlatformUpdate, release, ReleaseOf(h.deployed), approval, now, h.steps)]
  {
    Release.Log(h, Entry(HostModel.PlatformUpdate, release, ReleaseOf(h.deployed), approval, now, h.steps));
  }

  /** The marked transaction and its log entry. */
  method RunAndLog(h: Host, release: Digest, approval: Approval, staged: map<string, Bytes>, images: string,
                   start: UpdateJournal, now: int)
    returns (began: bool, o: Outcome)
    requires Settled(h, h.log) && (h.open ==> Shows(h, h.env, h.log))
    requires h.recovery.None? && h.update.None? && Unhindered(h) && !h.cleanup
    requires start.release == release && start.stage == FenceStage
    requires Installable(h, staged) && SnapshotTaken(h, approval.sha)
    requires Approves(approval, HostModel.PlatformUpdate, release, ReleaseOf(h.deployed), now)
    modifies h`recovery, h`before, h`beforeSettings, h`completed, h`update, h`updateShadows, h`cleanup, h`backup, h`root,
             h`settings, h`settingsShadow, h`env, h`current, h`generation, h`runtime, h`composePending, h`open,
             h`operation, h`target, h`steps, h`emergency, h`log
    ensures !began ==> !o.Done? && NotBegun(h) && h.log == old(h.log)
    ensures began ==>
      && h.Inv()
      && h.log == old(h.log) + [Entry(HostModel.PlatformUpdate, release, ReleaseOf(h.deployed), approval, now, h.steps)]
      && Left(h, o, release, staged, images) && Marked(h) && Handled(h, o)
    ensures h.faultless ==> o.Done?
  {
    began, o := RunUpdate(h, release, approval.sha, staged, images, start);
    if began {
      Conclude(h, o, release, approval, staged, images, now);
    }
  }

  /** The marked transaction on a host that satisfies the invariant. */
  method Transact(h: Host, release: Digest, approval: Approval, staged: map<string, Bytes>, images: string,
                  start: UpdateJournal, now: int)
    returns (o: Outcome)
    requires h.Inv() && !Refused(h) && h.deployed.Some? && start.release == release && start.stage == FenceStage
    requires Installable(h, staged) && SnapshotTaken(h, approval.sha)
    requires Approves(approval, HostModel.PlatformUpdate, release, ReleaseOf(h.deployed), now)
    modifies h`recovery, h`before, h`beforeSettings, h`completed, h`update, h`updateShadows, h`cleanup, h`backup, h`root,
             h`settings, h`settingsShadow, h`env, h`current, h`generation, h`runtime, h`composePending, h`open,
             h`operation, h`target, h`steps, h`emergency, h`log
    ensures h.Inv()
    ensures h.log == old(h.log) ==> !o.Done? && NotBegun(h)
    ensures h.log != old(h.log) ==>
      && h.log == old(h.log) + [Entry(HostModel.PlatformUpdate, release, ReleaseOf(h.deployed), approval, now, h.steps)]
      && Left(h, o, release, staged, images) && Marked(h) && Handled(h, o)
    ensures h.faultless ==> o.Done?
  {
    var began;
    began, o := RunAndLog(h, release, approval, staged, images, start, now);
  }

  /** What the program checks before the first write. */
  ghost predicate Acceptable(h: Host, release: Digest, approval: Approval, archive: seq<Member>, listed: set<string>,
                             genuine: bool, now: int)
    reads h`candidate, h`cleanup, h`restore, h`recovery, h`unresolved, h`update, h`shadows, h`updateShadows, h`composePending,
          h`composeDelivery, h`settingsShadow, h`root, h`env, h`current, h`generation, h`runtime, h`deployed, h`backup
  {
    && h.enabled && !Refused(h) && Present(ControlsOf(h)) && h.current == ReleaseOf(h.deployed)
    && Approves(approval, HostModel.PlatformUpdate, release, ReleaseOf(h.deployed), now)
    && genuine && Accepts(h.delta, archive, h.root, Inventory(h.delta, listed))
  }

  /** No marker, candidate, journal or interrupted write, all control files, and the deployed manifest prepared. */
  predicate Maintainable(h: Host)
    reads h`candidate, h`cleanup, h`restore, h`recovery, h`unresolved, h`update, h`shadows, h`updateShadows, h`composePending,
          h`composeDelivery, h`settingsShadow, h`root, h`env, h`current, h`generation, h`runtime, h`deployed, h`backup
  {
    && h.candidate.None? && h.unresolved.None? && h.update.None? && h.recovery.None? && !h.cleanup && !h.restore
    && h.shadows == {} && h.updateShadows == {} && !h.composePending && !h.composeDelivery && !h.settingsShadow
    && (forall n <- h.delta.changed + h.delta.added + [h.delta.metadata] :: Shadow(n) !in h.root)
    && h.env.Some? && h.generation.Some? && h.runtime.Some? && h.backup.Some? && h.deployed.Some?
    && h.current == Some(h.deployed.value.release)
  }

  /** These are all the checks: what can be maintained is accepted with a fitting approval and bundle. */
  lemma MaintainableIsAcceptable(h: Host, release: Digest, approval: Approval, archive: seq<Member>, listed: set<string>, now: int)
    requires h.enabled && Maintainable(h) && Approves(approval, HostModel.PlatformUpdate, release, ReleaseOf(h.deployed), now)
    requires Accepts(h.delta, archive, h.root, Inventory(h.delta, listed))
    ensures Acceptable(h, release, approval, archive, listed, true, now)
  {
  }

  /** Every check before the first write; only a bundle with the reviewed delta passes. */
  method Preflight(h: Host, release: Digest, approval: Approval, archive: seq<Member>, listed: set<string>, genuine: bool, now: int)
    returns (ok: bool, staged: map<string, Bytes>, start: UpdateJournal)
    ensures ok ==> Acceptable(h, release, approval, archive, listed, genuine, now)
    ensures h.faultless && Acceptable(h, release, approval, archive, listed, genuine, now) ==> ok
    ensures ok ==> h.enabled && genuine && Maintainable(h)
    ensures ok ==>
      && staged == Staged(archive) && Installable(h, staged)
      && start == UpdateJournal(release, h.deployed.value.release, approval.sha, FenceStage, h.backup.value, None)
  {
    ok, staged, start := false, map[], UpdateJournal(release, release, approval.sha, FenceStage, "", None);
    if !h.enabled || Refused(h) || !Present(ControlsOf(h)) { return; }
    var previous := h.deployed.value.release;
    if h.current != Some(previous) { return; }
    if !Approves(approval, HostModel.PlatformUpdate, release, Some(previous), now) { return; }
    var reviewed: bool :| h.faultless ==> reviewed;  // the manifests, the installed hashes, the evidence
    if !reviewed { return; }
    start := UpdateJournal(release, previous, approval.sha, FenceStage, h.backup.value, None);
    ghost var done;
    ok, staged, done := Unpack(h.delta, archive, h.root, listed, genuine);
    if ok { AcceptedIsReviewed(h.delta, archive, h.root, Inventory(h.delta, listed)); }
  }

  /** The snapshot, which nothing reads before the marker stands. */
  method SnapshotFirst(h: Host, approval: Digest) returns (o: Outcome)
    requires h.Inv() && !Refused(h)
    modifies h`snapshots
    ensures h.Inv() && !Refused(h)
    ensures o.Done? ==> SnapshotTaken(h, approval)
    ensures o.Done? ==> old(CanSnapshot(h, approval))
    ensures h.faultless && old(CanSnapshot(h, approval)) ==> o.Done?
  {
    o := TakeSnapshot(h, approval);
  }

  /** The snapshot and the transaction of a call that has passed every check. */
  method SnapshotAndTransact(h: Host, release: Digest, approval: Approval, staged: map<string, Bytes>, images: string,
                             start: UpdateJournal, now: int)
    returns (o: Outcome)
    requires h.Inv() && !Refused(h) && h.deployed.Some? && Installable(h, staged)
    requires start.release == release && start.stage == FenceStage
    requires Approves(approval, HostModel.PlatformUpdate, release, ReleaseOf(h.deployed), now)
    modifies h`recovery, h`before, h`beforeSettings, h`completed, h`update, h`updateShadows, h`cleanup, h`backup, h`root,
             h`settings, h`settingsShadow, h`env, h`current, h`generation, h`runtime, h`composePending, h`open, h`snapshots,
             h`operation, h`target, h`steps, h`emergency, h`log
    ensures h.Inv()
    ensures h.log == old(h.log) ==> !o.Done? && NotBegun(h)
    ensures h.log != old(h.log) ==>
      && h.log == old(h.log) + [Entry(HostModel.PlatformUpdate, release, ReleaseOf(h.deployed), approval, now, h.steps)]
      && Left(h, o, release, staged, images) && Marked(h) && Handled(h, o)
    ensures o.Done? ==> old(CanSnapshot(h, approval.sha))
    ensures h.faultless && old(CanSnapshot(h, approval.sha)) ==> o.Done?
  {
    o := SnapshotFirst(h, approval.sha);
    if o.Done? {
      o := Transact(h, release, approval, staged, images, start, now);
    }
  }

  /**
   One platform update call. `listed` is the installed inventory, `archive` the bundle read
   from the store, and `genuine` the outcome of the digest, release and metadata checks.
   */
  method Execute(h: Host, release: Digest, approval: Approval, images: string, archive: seq<Member>, listed: set<string>,
                 genuine: bool, now: int)
    returns (o: Outcome)
    requires h.Inv()
    modifies h`recovery, h`before, h`beforeSettings, h`completed, h`update, h`updateShadows, h`cleanup, h`backup, h`root,
             h`settings, h`settingsShadow, h`env, h`current, h`generation, h`runtime, h`composePending, h`open, h`snapshots,
             h`operation, h`target, h`steps, h`emergency, h`log
    ensures h.Inv()
    ensures !old(Acceptable(h, release, approval, archive, listed, genuine, now)) ==> !o.Done? && unchanged(h)
    ensures !(h.enabled && genuine && old(Maintainable(h))) ==> !o.Done? && unchanged(h)
    ensures h.log == old(h.log) ==> !o.Done? && NotBegun(h)
    ensures h.log != old(h.log) ==>
      && h.log == old(h.log) + [Entry(HostModel.PlatformUpdate, release, ReleaseOf(h.deployed), approval, now, h.steps)]
      && Left(h, o, release, Staged(archive), images) && Marked(h) && Handled(h, o)
    ensures o.Done? ==> old(CanSnapshot(h, approval.sha))
    ensures h.faultless && old(Acceptable(h, release, approval, archive, listed, genuine, now) && CanSnapshot(h, approval.sha))
            ==> o.Done?
  {
    var ok, staged, start := Preflight(h, release, approval, archive, listed, genuine, now);
    if !ok { return Raised; }
    o := SnapshotAndTransact(h, release, approval, staged, images, start, now);
  }
}
