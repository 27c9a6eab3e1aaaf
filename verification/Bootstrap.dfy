/** `unpack` of `delivery/platform_update.py`: which archives an installed host accepts, and what it stages. */
module Bootstrap {
  import opened InstalledTree

  /** A tar member; its size is the length of its data. */
  datatype Member = Member(name: string, isFile: bool, data: Bytes)

  const MEMBER_LIMIT := 256 * 1024 * 1024
  const TOTAL_LIMIT := 512 * 1024 * 1024

  /** The components of a path between its slashes. */
  function Components(name: string): (r: seq<string>)
    ensures r != []
  {
    if name == "" then [""]
    else
      var rest := Components(name[1..]);
      if name[0] == '/' then [""] + rest else [[name[0]] + rest[0]] + rest[1..]
  }

  /** The path with these components. */
  function Joined(parts: seq<string>): string {
    if parts == [] then "" else if |parts| == 1 then parts[0] else parts[0] + "/" + Joined(parts[1..])
  }

  /** The components put together again are the path, and none holds a slash. */
  lemma {:induction false} ComponentsJoin(name: string)
    ensures Joined(Components(name)) == name && forall c <- Components(name) :: '/' !in c
  {
    if name != "" {
      ComponentsJoin(name[1..]);
      var rest := Components(name[1..]);
      assert name == [name[0]] + name[1..];
      if name[0] == '/' {
        assert ([""] + rest)[1..] == rest;
      } else {
        assert ([[name[0]] + rest[0]] + rest[1..])[1..] == rest[1..];
        assert forall c <- rest[1..] :: c in rest;
      }
    }
  }

  /** Relative, without `..`, and already in the normal form of PurePosixPath. */
  predicate SafeName(name: string) {
    forall c <- Components(name) :: c != "" && c != "." && c != ".."
  }

  predicate AcceptableMember(m: Member, names: set<string>, seen: set<string>) {
    m.isFile && m.name in names && m.name !in seen && SafeName(m.name) && |m.data| <= MEMBER_LIMIT
  }

  /** The inventory a bootstrap must have: what is installed, plus the reviewed additions. */
  function Inventory(d: Delta, listed: set<string>): set<string> {
    listed + (set n <- d.added) + {"tools/docker-compose", "tools/SHA256SUMS", d.metadata}
  }

  ghost function Names(archive: seq<Member>): set<string> {
    set i | 0 <= i < |archive| :: archive[i].name
  }

  ghost function TotalSize(archive: seq<Member>): nat {
    if archive == [] then 0 else TotalSize(archive[..|archive| - 1]) + |archive[|archive| - 1].data|
  }

  /** What is on disk once these members are written. */
  ghost function Staged(archive: seq<Member>): (r: map<string, Bytes>)
    ensures r.Keys == Names(archive)
  {
    if archive == [] then map[]
    else
      var last := archive[|archive| - 1];
      var r := Staged(archive[..|archive| - 1])[last.name := last.data];
      assert Names(archive) == Names(archive[..|archive| - 1]) + {last.name};
      r
  }

  /** Every member may be written, no name comes twice, and the sizes stay within the bound. */
  ghost predicate Writable(archive: seq<Member>, names: set<string>) {
    && (forall i | 0 <= i < |archive| :: AcceptableMember(archive[i], names, Names(archive[..i])))
    && TotalSize(archive) <= TOTAL_LIMIT
  }

  lemma {:induction false} TotalSizeGrows(archive: seq<Member>, k: nat)
    requires k <= |archive|
    ensures TotalSize(archive[..k]) <= TotalSize(archive)
    decreases |archive|
  {
    if k < |archive| {
      TotalSizeGrows(archive[..|archive| - 1], k);
      assert archive[..|archive| - 1][..k] == archive[..k];
    } else {
      assert archive[..k] == archive;
    }
  }

  /** Each accepted member is written once, with its own bytes. */
  lemma {:induction false} StagedOnce(archive: seq<Member>, names: set<string>, i: nat)
    requires Writable(archive, names) && i < |archive|
    ensures Staged(archive)[archive[i].name] == archive[i].data
    ensures forall j | 0 <= j < |archive| && j != i :: archive[j].name != archive[i].name
    decreases |archive|
  {
    var init := archive[..|archive| - 1];
    forall j | 0 <= j < |archive| && j != i ensures archive[j].name != archive[i].name {
      var lo, hi := if i < j then i else j, if i < j then j else i;
      assert AcceptableMember(archive[hi], names, Names(archive[..hi]));
      assert archive[..hi][lo] == archive[lo];
    }
    if i < |archive| - 1 {
      TotalSizeGrows(archive, |archive| - 1);
      forall k | 0 <= k < |init| ensures AcceptableMember(init[k], names, Names(init[..k])) {
        assert init[..k] == archive[..k];
      }
      StagedOnce(init, names, i);
    }
  }

  /** The differences between the tree and the bundle are exactly the reviewed ones. */
  ghost predicate ExactDelta(d: Delta, tree: Tree, staged: map<string, Bytes>, names: set<string>) {
    && (forall n <- names :: n in d.added || At(n) in tree)
    && (forall n <- d.Installed() :: n in names)
    && (forall n <- names :: n in staged && (n in d.Installed() <==> n in d.added || tree[At(n)] != staged[n]))
  }

  /** Everything `unpack` demands of a bundle whose digest was verified. */
  ghost predicate Accepts(d: Delta, archive: seq<Member>, tree: Tree, names: set<string>) {
    && AdditionsAbsent(d, tree)
    && Writable(archive, names)
    && Names(archive) == names
    && ExactDelta(d, tree, Staged(archive), names)
  }

  /**
   Member by member: a regular file of at most 256 MiB with a name of the inventory, which is relative and free of empty
   and dot components, no name twice, and 512 MiB together.
   */
  ghost predicate Regular(archive: seq<Member>, names: set<string>) {
    && (forall m <- archive :: m.isFile && m.name in names && |m.data| <= 0x1000_0000)
    && (forall m <- archive :: "" !in Components(m.name) && "." !in Components(m.name) && ".." !in Components(m.name))
    && (forall i, j | 0 <= i < j < |archive| :: archive[i].name != archive[j].name)
    && TotalSize(archive) <= 0x2000_0000
  }

  lemma WritableIsRegular(archive: seq<Member>, names: set<string>)
    requires Writable(archive, names)
    ensures Regular(archive, names)
  {
    forall m <- archive ensures AcceptableMember(m, names, {}) {
      var i :| 0 <= i < |archive| && archive[i] == m;
      assert AcceptableMember(archive[i], names, Names(archive[..i]));
    }
    forall i, j | 0 <= i < j < |archive| ensures archive[i].name != archive[j].name { StagedOnce(archive, names, i); }
  }

  /** The member checks accept exactly the regular archives. */
  lemma WritableMeans(archive: seq<Member>, names: set<string>)
    ensures Writable(archive, names) <==> Regular(archive, names)
  {
    if Writable(archive, names) { WritableIsRegular(archive, names); }
    if Regular(archive, names) {
      forall i | 0 <= i < |archive| ensures AcceptableMember(archive[i], names, Names(archive[..i])) {
        assert archive[i] in archive;
      }
    }
  }

  /** What an accepted bundle holds: the inventory, and bytes that differ from the installed ones exactly in the delta. */
  lemma AcceptedMembers(d: Delta, archive: seq<Member>, tree: Tree, listed: set<string>)
    requires Accepts(d, archive, tree, Inventory(d, listed))
    ensures forall n <- listed :: exists m <- archive :: m.name == n
    ensures forall n <- d.Installed() :: exists m <- archive :: m.name == n
    ensures forall m <- archive :: m.name in listed || m.name in d.Installed() || m.name in {"tools/docker-compose", "tools/SHA256SUMS"}
    ensures forall m <- archive :: m.name in d.added ==> At(m.name) !in tree
    ensures forall m <- archive :: m.name !in d.added ==>
      At(m.name) in tree && (m.name in d.Installed() <==> m.data != tree[At(m.name)])
  {
    var names := Inventory(d, listed);
    forall n <- names ensures exists m <- archive :: m.name == n {
      assert n in Names(archive);
      var i :| 0 <= i < |archive| && archive[i].name == n;
      assert archive[i] in archive;
    }
    forall m <- archive ensures m.name in names && Staged(archive)[m.name] == m.data {
      var i :| 0 <= i < |archive| && archive[i] == m;
      StagedOnce(archive, names, i);
      assert m.name in Names(archive);
    }
  }

  /** The member loop of `unpack`; `done` members are on disk when it stops. */
  method Stage(archive: seq<Member>, names: set<string>) returns (ok: bool, staged: map<string, Bytes>, ghost done: nat)
    ensures done <= |archive| && staged == Staged(archive[..done]) && TotalSize(archive[..done]) <= TOTAL_LIMIT
    ensures ok ==> done == |archive|
    ensures ok <==> Writable(archive, names)
  {
    staged, done := map[], 0;
    var seen, total := {}, 0;
    for i := 0 to |archive|
      invariant done == i && seen == staged.Keys && total == TotalSize(archive[..i]) <= TOTAL_LIMIT
      invariant staged == Staged(archive[..i])
      invariant Writable(archive[..i], names)
    {
      var m := archive[i];
      assert archive[..i + 1][..i] == archive[..i] && archive[..i + 1][i] == m;
      if !AcceptableMember(m, names, seen) { return false, staged, done; }
      total := total + |m.data|;
      if total > TOTAL_LIMIT {
        TotalSizeGrows(archive, i + 1);
        return false, staged, done;
      }
      seen := seen + {m.name};
      assert m.name !in staged;  // the exclusive open cannot fail
      staged, done := staged[m.name := m.data], i + 1;
      WritableNext(archive, i, names);
    }
    assert archive[..|archive|] == archive;
    ok := true;
  }

  /** The comparison of the complete stage with the installed tree. */
  method CompareDelta(d: Delta, tree: Tree, staged: map<string, Bytes>, names: set<string>) returns (ok: bool)
    requires staged.Keys == names
    ensures ok <==> ExactDelta(d, tree, staged, names)
  {
    if !(forall n <- names :: n in d.added || At(n) in tree) { return false; }
    var changed := set n | n in names && (n in d.added || tree[At(n)] != staged[n]);
    var reviewed := set n <- d.Installed();
    DeltaMeansSets(d, tree, staged, names, changed, reviewed);
    ok := changed == reviewed;
  }

  /**
   Stages the bundle member by member. `genuine` stands for the digest, release and
   metadata checks, which this model does not look into.
   */
  method Unpack(d: Delta, archive: seq<Member>, tree: Tree, listed: set<string>, genuine: bool)
    returns (ok: bool, staged: map<string, Bytes>, ghost done: nat)
    ensures ok <==> genuine && Accepts(d, archive, tree, Inventory(d, listed))
    ensures ok ==> staged == Staged(archive)
    ensures done <= |archive| && staged == Staged(archive[..done]) && TotalSize(archive[..done]) <= TOTAL_LIMIT
  {
    if !AdditionsAbsent(d, tree) {
      return false, map[], 0;
    }
    var names := Inventory(d, listed);
    ok, staged, done := Stage(archive, names);
    if !ok { return; }
    assert archive[..done] == archive;
    if staged.Keys != names { return false, staged, done; }
    ok := CompareDelta(d, tree, staged, names);
    ok := ok && genuine;
  }

  lemma WritableNext(archive: seq<Member>, i: nat, names: set<string>)
    requires i < |archive| && Writable(archive[..i], names)
    requires AcceptableMember(archive[i], names, Names(archive[..i])) && TotalSize(archive[..i + 1]) <= TOTAL_LIMIT
    ensures Writable(archive[..i + 1], names)
  {
    var longer := archive[..i + 1];
    forall k | 0 <= k < |longer| ensures AcceptableMember(longer[k], names, Names(longer[..k])) {
      assert longer[..k] == archive[..k];
      if k < i { assert archive[..i][..k] == archive[..k]; }
    }
  }

  lemma DeltaMeansSets(d: Delta, tree: Tree, staged: map<string, Bytes>, names: set<string>, changed: set<string>, reviewed: set<string>)
    requires forall n <- names :: n in staged && (n in d.added || At(n) in tree)
    requires changed == set n | n in names && (n in d.added || tree[At(n)] != staged[n])
    requires reviewed == set n <- d.Installed()
    ensures changed == reviewed <==> ExactDelta(d, tree, staged, names)
  {
    assert forall n :: n in reviewed <==> n in d.Installed();
    if changed == reviewed {
      forall n <- names ensures n in d.Installed() <==> n in d.added || tree[At(n)] != staged[n] {
        assert n in changed <==> n in reviewed;
      }
      forall n <- d.Installed() ensures n in names { assert n in changed; }
    }
    if ExactDelta(d, tree, staged, names) {
      forall n ensures n in changed <==> n in reviewed {}
    }
  }

  /** An accepted bundle is one whose delta install equals a full install. */
  lemma AcceptedIsReviewed(d: Delta, archive: seq<Member>, tree: Tree, names: set<string>)
    requires Accepts(d, archive, tree, names)
    ensures ReviewedDelta(d, tree, Staged(archive)) && AdditionsAbsent(d, tree)
    ensures InstallAll(tree, Staged(archive), d.Installed()) == Overlay(tree, Staged(archive))
  {
    DeltaInstallIsFullInstall(d, tree, Staged(archive));
  }
}
