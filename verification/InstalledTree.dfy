/**
 The installed source tree of the host, the fixed delta that `delivery/platform_update.py`
 may install, and the recovery overlay its snapshot allows.
 */
module InstalledTree {

  type Bytes = seq<bv8>

  /** Installed files, and the shadows an interrupted `replace` leaves beside them. */
  datatype TreePath = At(name: string) | Shadow(name: string)
  type Tree = map<TreePath, Bytes>

  /** A fixed source delta: files it overwrites, files it adds, and the derived metadata file. */
  datatype Delta = Delta(changed: seq<string>, added: seq<string>, metadata: string) {
    /** Existing files the update overwrites; the snapshot keeps their old bytes. */
    function Saved(): seq<string> {
      changed + [metadata]
    }

    /** The install loop's order. */
    function Installed(): seq<string> {
      changed + added + [metadata]
    }
  }

  /** The one delta the program permits. Everything below holds for any delta. */
  const REVIEWED := Delta(
    [
      "delivery/maintained.py",
      "deploy/aws/platform/inputs.lock.json",
      "deploy/aws/platform/caddy/go.mod",
      "deploy/aws/platform/caddy/go.sum",
      "deploy/aws/platform/temporal/go.mod",
      "deploy/aws/platform/temporal/go.sum",
      "deploy/aws/platform/temporal/cli/go.mod",
      "deploy/aws/platform/temporal/cli/go.sum"
    ],
    [
      "deploy/aws/platform/Dockerfile.caddy",
      "deploy/aws/platform/caddy/apply-jose-patch.sh",
      "deploy/aws/platform/caddy/JOSE-MIGRATION.md",
      "deploy/aws/platform/caddy/jose_migration_test.go"
    ],
    "tools/platform-source.sha256")

  /** The tree after replacing `names` in order. */
  ghost function InstallAll(tree: Tree, staged: map<string, Bytes>, names: seq<string>): (r: Tree)
    requires forall n <- names :: n in staged
  {
    if names == [] then tree
    else
      var last := names[|names| - 1];
      InstallAll(tree, staged, names[..|names| - 1])[At(last) := staged[last]]
  }

  /** Unpacking every staged member over the tree. */
  ghost function Overlay(tree: Tree, staged: map<string, Bytes>): (r: Tree)
  {
    map p | p in tree.Keys + set n <- staged :: At(n) :: if p.At? && p.name in staged then staged[p.name] else tree[p]
  }

  /** The documented recovery: put the saved bytes back and delete the recorded additions. */
  ghost function Restore(tree: Tree, saved: map<string, Bytes>, added: seq<string>): (r: Tree)
  {
    Overlay(tree - set n <- added :: At(n), saved)
  }

  /** The bytes a snapshot saves. */
  ghost predicate SavedFrom(d: Delta, saved: map<string, Bytes>, tree: Tree) {
    && (forall n :: n in saved <==> n in d.Saved())
    && (forall n <- saved :: At(n) in tree && saved[n] == tree[At(n)])
  }

  predicate AdditionsAbsent(d: Delta, tree: Tree) {
    forall n <- d.added :: At(n) !in tree
  }

  /** An interrupted replacement has left its shadow. */
  predicate Shadowed(d: Delta, tree: Tree) {
    exists n <- d.Installed() :: Shadow(n) in tree
  }

  /** Restoring gives back `before`, except that the shadow of at most one interrupted replacement is left over. */
  ghost predicate Recoverable(d: Delta, tree: Tree, saved: map<string, Bytes>, before: Tree) {
    var r := Restore(tree, saved, d.added);
    r == before || exists n <- d.Installed() :: Shadow(n) !in before && Shadow(n) in tree && r - {Shadow(n)} == before
  }

  lemma {:induction false} InstallAllAt(tree: Tree, staged: map<string, Bytes>, names: seq<string>, p: TreePath)
    requires forall n <- names :: n in staged
    ensures p in InstallAll(tree, staged, names) <==> p in tree || (p.At? && p.name in names)
    ensures p.At? && p.name in names ==> InstallAll(tree, staged, names)[p] == staged[p.name]
    ensures p in tree && !(p.At? && p.name in names) ==> InstallAll(tree, staged, names)[p] == tree[p]
  {
    if names != [] {
      var init := names[..|names| - 1];
      assert names == init + [names[|names| - 1]];
      InstallAllAt(tree, staged, init, p);
    }
  }

  /** Recovery is exact after any part of the install loop. */
  lemma RestoreUndoesInstall(d: Delta, before: Tree, staged: map<string, Bytes>, saved: map<string, Bytes>, names: seq<string>)
    requires forall n <- names :: n in staged && n in d.Installed()
    requires SavedFrom(d, saved, before) && AdditionsAbsent(d, before)
    ensures Restore(InstallAll(before, staged, names), saved, d.added) == before
  {
    var tree := InstallAll(before, staged, names);
    var r := Restore(tree, saved, d.added);
    forall p
      ensures p in r <==> p in before
      ensures p in r ==> r[p] == before[p]
    {
      InstallAllAt(before, staged, names, p);
    }
  }

  lemma RestoreIgnoresShadow(tree: Tree, saved: map<string, Bytes>, added: seq<string>, n: string, data: Bytes)
    ensures Restore(tree[Shadow(n) := data], saved, added) == Restore(tree, saved, added)[Shadow(n) := data]
  {
    var l, r := Restore(tree[Shadow(n) := data], saved, added), Restore(tree, saved, added)[Shadow(n) := data];
    assert forall p :: p in l <==> p in r;
    assert forall p <- l :: l[p] == r[p];
  }

  /** A shadow left by the interrupted replacement stays visible, and nothing else does. */
  lemma RestoreKeepsShadow(d: Delta, before: Tree, staged: map<string, Bytes>, saved: map<string, Bytes>, names: seq<string>, n: string, data: Bytes)
    requires forall m <- names :: m in staged && m in d.Installed()
    requires SavedFrom(d, saved, before) && AdditionsAbsent(d, before)
    requires n in d.Installed() && Shadow(n) !in before
    ensures Recoverable(d, InstallAll(before, staged, names)[Shadow(n) := data], saved, before)
  {
    var clean := InstallAll(before, staged, names);
    RestoreUndoesInstall(d, before, staged, saved, names);
    RestoreIgnoresShadow(clean, saved, d.added, n, data);
    assert before[Shadow(n) := data] - {Shadow(n)} == before;
  }

  /** One more replacement, finished or interrupted, keeps the old tree recoverable. */
  lemma ReplaceOneMore(d: Delta, before: Tree, staged: map<string, Bytes>, saved: map<string, Bytes>, names: seq<string>, name: string,
                       was: Tree, tree: Tree)
    requires forall n <- names :: n in staged && n in d.Installed()
    requires name in staged && name in d.Installed() && Shadow(name) !in before
    requires SavedFrom(d, saved, before) && AdditionsAbsent(d, before)
    requires was == InstallAll(before, staged, names)
    requires tree == was || tree == was[Shadow(name) := staged[name]] || tree == was[At(name) := staged[name]]
    ensures was[At(name) := staged[name]] == InstallAll(before, staged, names + [name])
    ensures Recoverable(d, tree, saved, before)
  {
    var longer := names + [name];
    assert longer[..|longer| - 1] == names && longer[|longer| - 1] == name;
    if tree == was {
      RestoreUndoesInstall(d, before, staged, saved, names);
    } else if tree == was[Shadow(name) := staged[name]] {
      RestoreKeepsShadow(d, before, staged, saved, names, name, staged[name]);
    } else {
      RestoreUndoesInstall(d, before, staged, saved, longer);
    }
  }

  /** Recovery gives back exactly the old tree if and only if no shadow was left by an interrupted replacement. */
  lemma RecoveryIsExactWithoutShadow(d: Delta, tree: Tree, saved: map<string, Bytes>, before: Tree)
    requires Recoverable(d, tree, saved, before)
    requires forall n <- d.Installed() :: Shadow(n) !in before
    ensures Restore(tree, saved, d.added) == before <==> forall n <- d.Installed() :: Shadow(n) !in tree
  {
    var r := Restore(tree, saved, d.added);
    assert forall n :: Shadow(n) in r <==> Shadow(n) in tree;
  }

  /** A replacement of the file "a" that was cut off before its rename: recovery leaves its shadow, so it is not exact. */
  lemma LeftoverShadowExample()
    ensures var d := Delta(["a"], [], "m");
      var before: Tree := map[At("a") := [0 as bv8], At("m") := [0 as bv8]];
      var saved := map["a" := [0 as bv8], "m" := [0 as bv8]];
      var tree := before[Shadow("a") := [1 as bv8]];
      SavedFrom(d, saved, before) && Recoverable(d, tree, saved, before) && Restore(tree, saved, d.added) != before
  {
    var d := Delta(["a"], [], "m");
    var before: Tree := map[At("a") := [0 as bv8], At("m") := [0 as bv8]];
    var saved := map["a" := [0 as bv8], "m" := [0 as bv8]];
    assert d.Saved() == ["a", "m"] && d.Installed() == ["a", "m"] && InstallAll(before, saved, []) == before;
    RestoreKeepsShadow(d, before, saved, saved, [], "a", [1 as bv8]);
    assert Shadow("a") in Restore(before[Shadow("a") := [1 as bv8]], saved, d.added);
  }

  /** What `unpack` accepts: a complete inventory that differs from the tree in exactly the reviewed delta. */
  ghost predicate ReviewedDelta(d: Delta, tree: Tree, staged: map<string, Bytes>) {
    && (forall n <- d.Installed() :: n in staged)
    && (forall n <- staged | n !in d.Installed() :: At(n) in tree && tree[At(n)] == staged[n])
  }

  /** Installing only the delta gives the tree a full unpack would give. */
  lemma DeltaInstallIsFullInstall(d: Delta, tree: Tree, staged: map<string, Bytes>)
    requires ReviewedDelta(d, tree, staged)
    ensures InstallAll(tree, staged, d.Installed()) == Overlay(tree, staged)
  {
    var delta, full := InstallAll(tree, staged, d.Installed()), Overlay(tree, staged);
    forall p
      ensures p in delta <==> p in full
      ensures p in delta ==> delta[p] == full[p]
    {
      InstallAllAt(tree, staged, d.Installed(), p);
    }
  }
}
