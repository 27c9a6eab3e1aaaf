/**
 The append-only artifact store of `delivery/cloud.py` and the chain of objects that
 `publish` in `delivery/build.py` writes into it: reports, evidence, bundle, manifest, index.

 Any number of publishers interleave, lose answers, die and start again. A request whose
 answer was lost may still reach the store later.
 */
module Publication {
  import opened Wrappers

  type Digest = string
  type Bytes = seq<bv8>

  datatype Key =
    | ReportKey(sha: Digest)       // build-evidence/objects/SHA.json
    | EvidenceKey(sha: Digest)     // build-evidence/SHA.json
    | BundleKey(sha: Digest)       // bundles/SHA.tar.gz
    | ReleaseKey(sha: Digest)      // releases/SHA.json
    | IndexKey(revision: string)   // releases/by-source/REVISION.json

  type Store = map<Key, Bytes>

  /** The JSON documents of the chain; `details` stands for the fields this model does not look into. */
  datatype Document =
    | Evidence(evidenceRevision: string, reports: map<string, Digest>, provenance: string)
    | Manifest(revision: string, account: string, region: string, bootstrap: Digest, evidence: Digest, details: string)
    | Index(indexRevision: string, release: Digest)

  /** The canonical JSON form, its reader, and the hash; nothing is known of them but Lawful. */
  datatype Coding = Coding(canonical: Document -> Bytes, parse: Bytes -> Option<Document>, sha256: Bytes -> Digest) {
    ghost predicate Lawful() {
      && (forall d :: parse(canonical(d)) == Some(d))
      && (forall a, b | sha256(a) == sha256(b) :: a == b)
    }
  }

  /**
   What a finished build hands to `publish`: the bundle file, and beside it the digest that `publish`
   takes over without hashing the file again.
   */
  datatype Prepared = Prepared(
    revision: string, account: string, region: string, reports: seq<(string, Bytes)>,
    bundle: Bytes, bundleSha: Digest, provenance: string, details: string)

  /** The digest beside the bundle is the digest of the bundle. */
  predicate Truthful(c: Coding, p: Prepared) {
    c.sha256(p.bundle) == p.bundleSha
  }

  datatype Put = Put(key: Key, body: Bytes)

  /** The report names of the evidence; a later report of the same name replaces the earlier one. */
  function ReportDigests(c: Coding, reports: seq<(string, Bytes)>): (r: map<string, Digest>)
    ensures forall i | 0 <= i < |reports| :: reports[i].0 in r
    ensures forall n <- r :: exists i | 0 <= i < |reports| :: reports[i].0 == n && r[n] == c.sha256(reports[i].1)
  {
    if reports == [] then map[]
    else
      var last := reports[|reports| - 1];
      ReportDigests(c, reports[..|reports| - 1])[last.0 := c.sha256(last.1)]
  }

  lemma ReportDigestsNext(c: Coding, reports: seq<(string, Bytes)>, i: nat)
    requires i < |reports|
    ensures ReportDigests(c, reports[..i + 1]) == ReportDigests(c, reports[..i])[reports[i].0 := c.sha256(reports[i].1)]
  {
    assert reports[..i + 1][..i] == reports[..i];
  }

  /** Of several reports with one name, the evidence has the hash of the last. */
  lemma {:induction false} LastReportWins(c: Coding, reports: seq<(string, Bytes)>, i: nat)
    requires i < |reports| && forall j | i < j < |reports| :: reports[j].0 != reports[i].0
    ensures reports[i].0 in ReportDigests(c, reports) && ReportDigests(c, reports)[reports[i].0] == c.sha256(reports[i].1)
    decreases |reports|
  {
    if i < |reports| - 1 { LastReportWins(c, reports[..|reports| - 1], i); }
  }

  function EvidenceOf(c: Coding, p: Prepared): Document {
    Evidence(p.revision, ReportDigests(c, p.reports), p.provenance)
  }

  function EvidenceSha(c: Coding, p: Prepared): Digest {
    c.sha256(c.canonical(EvidenceOf(c, p)))
  }

  function ManifestOf(c: Coding, p: Prepared): Document {
    Manifest(p.revision, p.account, p.region, p.bundleSha, EvidenceSha(c, p), p.details)
  }

  function ReleaseSha(c: Coding, p: Prepared): Digest {
    c.sha256(c.canonical(ManifestOf(c, p)))
  }

  function Length(p: Prepared): nat {
    |p.reports| + 4
  }

  /** The objects `publish` writes, in its order. */
  function PutAt(c: Coding, p: Prepared, i: nat): Put
    requires i < Length(p)
  {
    var n := |p.reports|;
    if i < n then Put(ReportKey(c.sha256(p.reports[i].1)), p.reports[i].1)
    else if i == n then Put(EvidenceKey(EvidenceSha(c, p)), c.canonical(EvidenceOf(c, p)))
    else if i == n + 1 then Put(BundleKey(p.bundleSha), p.bundle)
    else if i == n + 2 then Put(ReleaseKey(ReleaseSha(c, p)), c.canonical(ManifestOf(c, p)))
    else Put(IndexKey(p.revision), c.canonical(Index(p.revision, ReleaseSha(c, p))))
  }

  // ---- Key names ----

  function Folder(k: Key): string {
    match k
    case ReportKey(_) => "build-evidence/objects/"
    case EvidenceKey(_) => "build-evidence/"
    case BundleKey(_) => "bundles/"
    case ReleaseKey(_) => "releases/"
    case IndexKey(_) => "releases/by-source/"
  }

  function Name(k: Key): string {
    match k
    case IndexKey(revision) => revision
    case _ => k.sha
  }

  function Extension(k: Key): string {
    if k.BundleKey? then ".tar.gz" else ".json"
  }

  function Path(k: Key): string {
    Folder(k) + Name(k) + Extension(k)
  }

  /** The object names in the bucket. */
  lemma PathsAreNamed(sha: Digest, revision: string)
    ensures Path(ReportKey(sha)) == "build-evidence/objects/" + sha + ".json"
    ensures Path(EvidenceKey(sha)) == "build-evidence/" + sha + ".json"
    ensures Path(BundleKey(sha)) == "bundles/" + sha + ".tar.gz"
    ensures Path(ReleaseKey(sha)) == "releases/" + sha + ".json"
    ensures Path(IndexKey(revision)) == "releases/by-source/" + revision + ".json"
  {
  }

  /** Two folders lie inside two others, so key names are distinct only because digests and revisions hold no slash. */
  lemma PathsAreDistinct(a: Key, b: Key)
    requires '/' !in Name(a) && '/' !in Name(b) && Path(a) == Path(b)
    ensures a == b
  {
    if |Folder(a)| == |Folder(b)| {
      SameFolder(a, b);
    } else if |Folder(a)| < |Folder(b)| {
      NestedFolder(a, b);
    } else {
      NestedFolder(b, a);
    }
  }

  lemma SameFolder(a: Key, b: Key)
    requires |Folder(a)| == |Folder(b)| && Path(a) == Path(b)
    ensures a == b
  {
    var n := |Folder(a)|;
    assert Path(a)[0] == Folder(a)[0] && Path(b)[0] == Folder(b)[0];
    assert Folder(a) == Folder(b);
    assert Name(a) == Path(a)[n..n + |Name(a)|] && Name(b) == Path(b)[n..n + |Name(b)|];
  }

  /** The slash that ends the longer folder faces a name or an extension in the other path. */
  lemma NestedFolder(a: Key, b: Key)
    requires '/' !in Name(a) && |Folder(a)| < |Folder(b)|
    ensures Path(a) != Path(b)
  {
    SlashDiffers(Folder(a), Name(a), Extension(a), Folder(b), Name(b) + Extension(b));
    assert Path(b) == Folder(b) + (Name(b) + Extension(b));
  }

  lemma SlashDiffers(folder: string, name: string, extension: string, longer: string, rest: string)
    requires |folder| < |longer| && longer[|longer| - 1] == '/' && '/' !in name && '/' !in extension
    ensures folder + name + extension != longer + rest
  {
    var n, s := |longer| - 1, folder + name + extension;
    assert (longer + rest)[n] == '/';
    if n < |folder| + |name| {
      assert s[n] == name[n - |folder|];
    } else if n < |s| {
      assert s[n] == extension[n - |folder| - |name|];
    }
  }

  // ---- The system of publishers ----

  /** Putting sends the next object, Comparing reads back after a failed answer, Failed has raised or died. */
  datatype Phase = Putting | Comparing | Failed
  datatype Publisher = Publisher(prepared: Prepared, next: nat, phase: Phase) {
    predicate Active() { next < Length(prepared) }
    predicate Succeeded() { phase == Putting && next == Length(prepared) }
    /** How many requests were sent. */
    function Sent(): nat { if phase == Putting || !Active() then next else next + 1 }
  }

  datatype System = System(store: Store, publishers: seq<Publisher>)

  datatype Action =
    | Join(prepared: Prepared)                              // a new publication, or a retry
    | Attempt(who: nat, lands: bool, acknowledged: bool)    // the conditional write
    | Compare(who: nat, answered: bool)                     // the read after an exception
    | Arrive(who: nat, i: nat)                              // a request sent earlier reaches the store only now
    | Die(who: nat)

  /** If-None-Match: only an absent key is created. */
  function Created(store: Store, put: Put): (r: Store)
    ensures forall k <- store :: k in r && r[k] == store[k]
    ensures put.key in r
  {
    if put.key in store then store else store[put.key := put.body]
  }

  function Advance(p: Publisher): Publisher {
    Publisher(p.prepared, p.next + 1, Putting)
  }

  function Step(c: Coding, s: System, a: Action): System {
    match a
    case Join(prepared) => s.(publishers := s.publishers + [Publisher(prepared, 0, Putting)])
    case Attempt(who, lands, acknowledged) =>
      if who >= |s.publishers| || !s.publishers[who].Active() || s.publishers[who].phase != Putting then s
      else
        var p := s.publishers[who];
        var put := PutAt(c, p.prepared, p.next);
        var won := put.key !in s.store && lands;
        System(if lands then Created(s.store, put) else s.store,
               s.publishers[who := if won && acknowledged then Advance(p) else p.(phase := Comparing)])
    case Compare(who, answered) =>
      if who >= |s.publishers| || !s.publishers[who].Active() || s.publishers[who].phase != Comparing then s
      else
        var p := s.publishers[who];
        var put := PutAt(c, p.prepared, p.next);
        var same := answered && put.key in s.store && s.store[put.key] == put.body;
        s.(publishers := s.publishers[who := if same then Advance(p) else p.(phase := Failed)])
    case Arrive(who, i) =>
      if who >= |s.publishers| || i >= s.publishers[who].Sent() || i >= Length(s.publishers[who].prepared) then s
      else s.(store := Created(s.store, PutAt(c, s.publishers[who].prepared, i)))
    case Die(who) =>
      if who >= |s.publishers| || !s.publishers[who].Active() then s
      else s.(publishers := s.publishers[who := s.publishers[who].(phase := Failed)])
  }

  /** Any interleaving of any number of publishers. */
  function Run(c: Coding, s: System, actions: seq<Action>): System {
    if actions == [] then s else Step(c, Run(c, s, actions[..|actions| - 1]), actions[|actions| - 1])
  }

  // ---- What every reachable store satisfies ----

  ghost predicate EvidenceIn(c: Coding, store: Store, sha: Digest, revision: string) {
    && EvidenceKey(sha) in store
    && var d := c.parse(store[EvidenceKey(sha)]);
       d.Some? && d.value.Evidence? && d.value.evidenceRevision == revision
  }

  ghost predicate ReleaseIn(c: Coding, store: Store, sha: Digest, revision: string) {
    && ReleaseKey(sha) in store
    && var d := c.parse(store[ReleaseKey(sha)]);
       d.Some? && d.value.Manifest? && d.value.revision == revision
  }

  /**
   The object at `k` has the content its key promises, and everything it refers to is already there.
   Of a bundle only its presence follows; its content is the matter of BundlesMatch.
   */
  ghost predicate Sound(c: Coding, store: Store, k: Key)
    requires k in store
  {
    match k
    case ReportKey(sha) => c.sha256(store[k]) == sha
    case BundleKey(_) => true
    case EvidenceKey(sha) =>
      && c.sha256(store[k]) == sha
      && var d := c.parse(store[k]);
         d.Some? && d.value.Evidence? && forall n <- d.value.reports :: ReportKey(d.value.reports[n]) in store
    case ReleaseKey(sha) =>
      && c.sha256(store[k]) == sha
      && var d := c.parse(store[k]);
         d.Some? && d.value.Manifest? && EvidenceIn(c, store, d.value.evidence, d.value.revision) && BundleKey(d.value.bootstrap) in store
    case IndexKey(revision) =>
      var d := c.parse(store[k]);
      d.Some? && d.value.Index? && d.value.indexRevision == revision && ReleaseIn(c, store, d.value.release, revision)
  }

  ghost predicate Closed(c: Coding, store: Store) {
    forall k <- store :: Sound(c, store, k)
  }

  /** Every bundle is the one its name says. */
  ghost predicate BundlesMatch(c: Coding, store: Store) {
    forall sha | BundleKey(sha) in store :: c.sha256(store[BundleKey(sha)]) == sha
  }

  ghost predicate Holds(store: Store, put: Put) {
    put.key in store && store[put.key] == put.body
  }

  /** The publisher has only advanced over objects that are in the store with its own bytes. */
  ghost predicate Honest(c: Coding, store: Store, p: Publisher) {
    && p.next <= Length(p.prepared)
    && forall i: nat | i < p.next :: Holds(store, PutAt(c, p.prepared, i))
  }

  /** Publisher `w` put, or would put, exactly the bundle that is stored under `sha`. */
  predicate Owns(s: System, sha: Digest, w: nat) {
    && w < |s.publishers| && s.publishers[w].prepared.bundleSha == sha
    && BundleKey(sha) in s.store && s.store[BundleKey(sha)] == s.publishers[w].prepared.bundle
  }

  /** Every stored bundle is one of some publisher, under the digest that publisher was given. */
  ghost predicate BundlesOwned(s: System) {
    forall sha | BundleKey(sha) in s.store :: exists w :: Owns(s, sha, w)
  }

  ghost predicate Inv(c: Coding, s: System) {
    && Closed(c, s.store)
    && BundlesOwned(s)
    && forall w | 0 <= w < |s.publishers| :: Honest(c, s.store, s.publishers[w])
  }

  ghost predicate Grows(store: Store, later: Store) {
    forall k <- store :: k in later && later[k] == store[k]
  }

  lemma SoundGrows(c: Coding, store: Store, later: Store, k: Key)
    requires Grows(store, later) && k in store && Sound(c, store, k)
    ensures Sound(c, later, k)
  {
  }

  /** Once everything before it is in the store, the next object of a plan is sound. */
  lemma NextIsSound(c: Coding, store: Store, p: Prepared, i: nat)
    requires c.Lawful() && i < Length(p)
    requires forall j: nat | j < i :: Holds(store, PutAt(c, p, j))
    ensures var put := PutAt(c, p, i); Sound(c, store[put.key := put.body], put.key)
  {
    var n, put := |p.reports|, PutAt(c, p, i);
    var later := store[put.key := put.body];
    if i == n {
      var digests := ReportDigests(c, p.reports);
      forall name <- digests ensures ReportKey(digests[name]) in later {
        var j :| 0 <= j < n && p.reports[j].0 == name && digests[name] == c.sha256(p.reports[j].1);
        assert Holds(store, PutAt(c, p, j));
      }
    } else if i == n + 2 {
      assert Holds(store, PutAt(c, p, n)) && Holds(store, PutAt(c, p, n + 1));
    } else if i == n + 3 {
      assert Holds(store, PutAt(c, p, n + 2));
    }
  }

  /** A request of an honest publisher keeps the store closed, whenever it arrives. */
  lemma CreatedIsClosed(c: Coding, store: Store, p: Publisher, i: nat)
    requires c.Lawful() && Closed(c, store) && Honest(c, store, p)
    requires i <= p.next && i < Length(p.prepared)
    ensures Closed(c, Created(store, PutAt(c, p.prepared, i)))
  {
    var put := PutAt(c, p.prepared, i);
    var later := Created(store, put);
    if put.key !in store {
      NextIsSound(c, store, p.prepared, i);
      forall k <- later ensures Sound(c, later, k) {
        if k in store { SoundGrows(c, store, later, k); }
      }
    }
  }

  lemma HonestGrows(c: Coding, store: Store, later: Store, p: Publisher)
    requires Honest(c, store, p) && Grows(store, later)
    ensures Honest(c, later, p)
  {
    forall i: nat | i < p.next ensures Holds(later, PutAt(c, p.prepared, i)) {
      assert Holds(store, PutAt(c, p.prepared, i));
    }
  }

  lemma StepGrows(c: Coding, s: System, a: Action)
    ensures Grows(s.store, Step(c, s, a).store)
  {
  }

  /** Whoever an action belongs to, the store it leaves is closed. */
  lemma StepClosed(c: Coding, s: System, a: Action)
    requires c.Lawful() && Inv(c, s)
    ensures Closed(c, Step(c, s, a).store)
  {
    if a.Attempt? && a.who < |s.publishers| && s.publishers[a.who].Active() {
      CreatedIsClosed(c, s.store, s.publishers[a.who], s.publishers[a.who].next);
    } else if a.Arrive? && a.who < |s.publishers| && a.i < s.publishers[a.who].Sent() && a.i < Length(s.publishers[a.who].prepared) {
      CreatedIsClosed(c, s.store, s.publishers[a.who], a.i);
    }
  }

  /** Steps keep the prepared publication of every publisher. */
  lemma StepKeepsPrepared(c: Coding, s: System, a: Action, w: nat)
    requires w < |s.publishers|
    ensures |s.publishers| <= |Step(c, s, a).publishers| && Step(c, s, a).publishers[w].prepared == s.publishers[w].prepared
  {
  }

  /** A bundle that a step creates is the bundle of the publisher that acts. */
  lemma StepOwned(c: Coding, s: System, a: Action)
    requires BundlesOwned(s)
    ensures BundlesOwned(Step(c, s, a))
  {
    var t := Step(c, s, a);
    forall sha | BundleKey(sha) in t.store ensures exists w :: Owns(t, sha, w) {
      if BundleKey(sha) in s.store {
        var w :| Owns(s, sha, w);
        StepKeepsPrepared(c, s, a, w);
        assert Owns(t, sha, w);
      } else {
        StepKeepsPrepared(c, s, a, a.who);
        assert Owns(t, sha, a.who);
      }
    }
  }

  lemma StepInv(c: Coding, s: System, a: Action)
    requires c.Lawful() && Inv(c, s)
    ensures Inv(c, Step(c, s, a))
  {
    StepClosed(c, s, a);
    StepOwned(c, s, a);
    StepGrows(c, s, a);
    var t := Step(c, s, a);
    forall w | 0 <= w < |t.publishers| ensures Honest(c, t.store, t.publishers[w]) {
      if w < |s.publishers| { HonestGrows(c, s.store, t.store, s.publishers[w]); }
    }
  }

  /** From an empty store, every interleaving leaves a closed store and honest publishers. */
  lemma {:induction false} RunInv(c: Coding, s: System, actions: seq<Action>)
    requires c.Lawful() && Inv(c, s)
    ensures Inv(c, Run(c, s, actions))
  {
    if actions != [] {
      RunInv(c, s, actions[..|actions| - 1]);
      StepInv(c, Run(c, s, actions[..|actions| - 1]), actions[|actions| - 1]);
    }
  }

  /** No object ever changes or disappears. */
  lemma {:induction false} ObjectsNeverChange(c: Coding, s: System, actions: seq<Action>)
    ensures Grows(s.store, Run(c, s, actions).store)
  {
    if actions != [] {
      ObjectsNeverChange(c, s, actions[..|actions| - 1]);
      StepGrows(c, Run(c, s, actions[..|actions| - 1]), actions[|actions| - 1]);
    }
  }

  /** What an honest publisher has just passed is in the store with its bytes. */
  lemma Passed(c: Coding, store: Store, p: Publisher)
    requires p.Active() && Honest(c, store, Advance(p))
    ensures Holds(store, PutAt(c, p.prepared, p.next))
  {
    var i: nat := p.next;
    assert i < Advance(p).next;
  }

  // ---- The bundles ----

  /** In every reachable store all bundles match their names if and only if every publisher whose bundle is stored was truthful. */
  lemma BundlesMatchIffTruthful(c: Coding, s: System)
    requires BundlesOwned(s)
    ensures BundlesMatch(c, s.store) <==>
      forall w: nat, sha: Digest | Owns(s, sha, w) :: Truthful(c, s.publishers[w].prepared)
  {
    if forall w: nat, sha: Digest | Owns(s, sha, w) :: Truthful(c, s.publishers[w].prepared) {
      forall sha | BundleKey(sha) in s.store ensures c.sha256(s.store[BundleKey(sha)]) == sha {
        var w :| Owns(s, sha, w);
      }
    }
  }

  /** A publisher that passed its bundle left a matching one if and only if it was truthful. */
  lemma PassedBundleMatches(c: Coding, store: Store, p: Publisher)
    requires Honest(c, store, p) && p.next > |p.prepared.reports| + 1
    ensures BundleKey(p.prepared.bundleSha) in store
    ensures c.sha256(store[BundleKey(p.prepared.bundleSha)]) == p.prepared.bundleSha <==> Truthful(c, p.prepared)
  {
    assert Holds(store, PutAt(c, p.prepared, |p.prepared.reports| + 1));
  }

  // ---- Lookup by source revision ----

  datatype LookupError = InvalidRevision | Unavailable | IndexMismatch | DigestMismatch | DestinationMismatch

  predicate PublicRevision(revision: string) {
    |revision| == 40 && forall ch <- revision :: '0' <= ch <= '9' || 'a' <= ch <= 'f'
  }

  /** The index entry's release, when the entry is there and names this revision. */
  function Indexed(c: Coding, store: Store, revision: string): Result<Digest, LookupError> {
    if IndexKey(revision) !in store then Err(Unavailable)
    else
      var d := c.parse(store[IndexKey(revision)]);
      if d.Some? && d.value.Index? && d.value.indexRevision == revision then Ok(d.value.release) else Err(IndexMismatch)
  }

  /** The manifest stored under `sha`, when its bytes, revision and destination match. */
  function Released(c: Coding, store: Store, sha: Digest, revision: string, account: string, region: string)
    : Result<(Digest, Document), LookupError>
  {
    if ReleaseKey(sha) !in store then Err(Unavailable)
    else if c.sha256(store[ReleaseKey(sha)]) != sha then Err(DigestMismatch)
    else
      var d := c.parse(store[ReleaseKey(sha)]);
      if d.Some? && d.value.Manifest? && d.value.revision == revision && d.value.account == account && d.value.region == region
      then Ok((sha, d.value)) else Err(DestinationMismatch)
  }

  function Lookup(c: Coding, store: Store, revision: string, account: string, region: string): Result<(Digest, Document), LookupError> {
    if !PublicRevision(revision) then Err(InvalidRevision)
    else
      var sha := Indexed(c, store, revision);
      if sha.Err? then Err(sha.error) else Released(c, store, sha.value, revision, account, region)
  }

  /** Everything a release needs is in the store, and all but the bundle is known to be what its name says. */
  ghost predicate LinkedRelease(c: Coding, store: Store, sha: Digest, manifest: Document) {
    && manifest.Manifest?
    && ReleaseKey(sha) in store && c.sha256(store[ReleaseKey(sha)]) == sha && c.parse(store[ReleaseKey(sha)]) == Some(manifest)
    && BundleKey(manifest.bootstrap) in store
    && EvidenceKey(manifest.evidence) in store && c.sha256(store[EvidenceKey(manifest.evidence)]) == manifest.evidence
    && var e := c.parse(store[EvidenceKey(manifest.evidence)]);
       && e.Some? && e.value.Evidence? && e.value.evidenceRevision == manifest.revision
       && forall n <- e.value.reports ::
            ReportKey(e.value.reports[n]) in store && c.sha256(store[ReportKey(e.value.reports[n])]) == e.value.reports[n]
  }

  /** Everything a release needs is in the store and is what its name says. */
  ghost predicate CompleteRelease(c: Coding, store: Store, sha: Digest, manifest: Document) {
    LinkedRelease(c, store, sha, manifest) && c.sha256(store[BundleKey(manifest.bootstrap)]) == manifest.bootstrap
  }

  /**
   A visible index never leads to a missing, torn or foreign object; the release is complete exactly if
   its bundle is the one its name says.
   */
  lemma IndexImpliesComplete(c: Coding, store: Store, revision: string, account: string, region: string)
    requires Closed(c, store)
    ensures var r := Lookup(c, store, revision, account, region);
      && (r.Ok? ==> LinkedRelease(c, store, r.value.0, r.value.1))
      && (r.Ok? && BundlesMatch(c, store) ==> CompleteRelease(c, store, r.value.0, r.value.1))
      && (r.Err? && PublicRevision(revision) ==> r.error == if IndexKey(revision) in store then DestinationMismatch else Unavailable)
  {
    if IndexKey(revision) in store {
      assert Sound(c, store, IndexKey(revision));
      var sha := Indexed(c, store, revision).value;
      assert Sound(c, store, ReleaseKey(sha));
      var manifest := c.parse(store[ReleaseKey(sha)]).value;
      assert Sound(c, store, EvidenceKey(manifest.evidence));
      var reports := c.parse(store[EvidenceKey(manifest.evidence)]).value.reports;
      forall n <- reports ensures c.sha256(store[ReportKey(reports[n])]) == reports[n] {
        assert Sound(c, store, ReportKey(reports[n]));
      }
    }
  }

  /**
   With an index entry in a closed store, the lookup succeeds exactly if the manifest it leads to names this account and
   region, and then it returns that manifest.
   */
  lemma LookupIffDestination(c: Coding, store: Store, revision: string, account: string, region: string)
    returns (sha: Digest, manifest: Document)
    requires Closed(c, store) && PublicRevision(revision) && IndexKey(revision) in store
    ensures c.parse(store[IndexKey(revision)]) == Some(Index(revision, sha))
    ensures ReleaseKey(sha) in store && c.sha256(store[ReleaseKey(sha)]) == sha && c.parse(store[ReleaseKey(sha)]) == Some(manifest)
    ensures manifest.Manifest? && manifest.revision == revision
    ensures Lookup(c, store, revision, account, region)
         == if manifest.account == account && manifest.region == region then Ok((sha, manifest)) else Err(DestinationMismatch)
  {
    assert Sound(c, store, IndexKey(revision));
    sha := c.parse(store[IndexKey(revision)]).value.release;
    assert Sound(c, store, ReleaseKey(sha));
    manifest := c.parse(store[ReleaseKey(sha)]).value;
  }

  /** One release for each revision, forever. */
  lemma {:induction false} LookupIsForever(c: Coding, s: System, actions: seq<Action>, revision: string, account: string, region: string)
    requires Lookup(c, s.store, revision, account, region).Ok?
    ensures Lookup(c, Run(c, s, actions).store, revision, account, region) == Lookup(c, s.store, revision, account, region)
  {
    ObjectsNeverChange(c, s, actions);
  }

  /** A publisher that succeeded has published its own release, and the whole chain under it. */
  lemma SuccessIsVisible(c: Coding, store: Store, p: Publisher)
    requires c.Lawful() && Honest(c, store, p) && p.Succeeded() && PublicRevision(p.prepared.revision)
    ensures Lookup(c, store, p.prepared.revision, p.prepared.account, p.prepared.region)
         == Ok((ReleaseSha(c, p.prepared), ManifestOf(c, p.prepared)))
    ensures forall i | 0 <= i < |p.prepared.reports| :: Holds(store, Put(ReportKey(c.sha256(p.prepared.reports[i].1)), p.prepared.reports[i].1))
  {
    var n, release, manifest := |p.prepared.reports|, ReleaseSha(c, p.prepared), ManifestOf(c, p.prepared);
    assert Holds(store, PutAt(c, p.prepared, n + 2)) && Holds(store, PutAt(c, p.prepared, n + 3));
    assert c.parse(c.canonical(manifest)) == Some(manifest);
    assert Indexed(c, store, p.prepared.revision) == Ok(release);
    forall i | 0 <= i < n ensures Holds(store, Put(ReportKey(c.sha256(p.prepared.reports[i].1)), p.prepared.reports[i].1)) {
      assert Holds(store, PutAt(c, p.prepared, i));
    }
  }

  /** Successful publishers of one revision published the same release, evidence and bundle. */
  lemma SuccessesAgree(c: Coding, store: Store, p: Publisher, q: Publisher)
    requires c.Lawful() && Honest(c, store, p) && Honest(c, store, q) && p.Succeeded() && q.Succeeded()
    requires p.prepared.revision == q.prepared.revision
    ensures ReleaseSha(c, p.prepared) == ReleaseSha(c, q.prepared)
    ensures ManifestOf(c, p.prepared) == ManifestOf(c, q.prepared)
    ensures EvidenceOf(c, p.prepared) == EvidenceOf(c, q.prepared) && p.prepared.bundle == q.prepared.bundle
  {
    var a, b := p.prepared, q.prepared;
    assert Holds(store, PutAt(c, a, |a.reports| + 3)) && Holds(store, PutAt(c, b, |b.reports| + 3));
    assert Holds(store, PutAt(c, a, |a.reports| + 1)) && Holds(store, PutAt(c, b, |b.reports| + 1));
    assert c.parse(c.canonical(Index(a.revision, ReleaseSha(c, a)))) == c.parse(c.canonical(Index(b.revision, ReleaseSha(c, b))));
    assert c.parse(c.canonical(ManifestOf(c, a))) == c.parse(c.canonical(ManifestOf(c, b)));
    assert c.parse(c.canonical(EvidenceOf(c, a))) == c.parse(c.canonical(EvidenceOf(c, b)));
  }

  /** The release a successful publisher made visible is complete if and only if the digest beside its bundle was right. */
  lemma SuccessIsCompleteIffTruthful(c: Coding, store: Store, p: Publisher)
    requires c.Lawful() && Closed(c, store) && Honest(c, store, p) && p.Succeeded() && PublicRevision(p.prepared.revision)
    ensures LinkedRelease(c, store, ReleaseSha(c, p.prepared), ManifestOf(c, p.prepared))
    ensures CompleteRelease(c, store, ReleaseSha(c, p.prepared), ManifestOf(c, p.prepared)) <==> Truthful(c, p.prepared)
  {
    var manifest := ManifestOf(c, p.prepared);
    SuccessIsVisible(c, store, p);
    IndexImpliesComplete(c, store, p.prepared.revision, p.prepared.account, p.prepared.region);
    assert LinkedRelease(c, store, ReleaseSha(c, p.prepared), manifest);
    PassedBundleMatches(c, store, p);
    assert manifest.bootstrap == p.prepared.bundleSha;
  }

  // ---- A publisher left alone ----

  /** The publisher runs to its end without faults and without others. */
  function Alone(c: Coding, s: System, who: nat): (t: System)
    requires who < |s.publishers| && s.publishers[who].next <= Length(s.publishers[who].prepared)
    ensures |t.publishers| == |s.publishers|
    decreases Length(s.publishers[who].prepared) - s.publishers[who].next, s.publishers[who].phase == Putting
  {
    if !s.publishers[who].Active() || s.publishers[who].phase != Putting then s
    else Alone(c, Step(c, Step(c, s, Attempt(who, true, true)), Compare(who, true)), who)
  }

  /** The place of one object is free, or already holds it. */
  predicate Free(store: Store, put: Put) {
    put.key in store ==> store[put.key] == put.body
  }

  /**
   What decides a publication: the index entry of the revision and the bundle's name. Every other name
   is the digest of the very bytes that are put, so nothing else can be stored under it.
   */
  predicate Admits(c: Coding, store: Store, p: Prepared) {
    Free(store, PutAt(c, p, |p.reports| + 1)) && Free(store, PutAt(c, p, Length(p) - 1))
  }

  /** The revision of this build resolves to its own release, whose chain is complete if and only if its bundle digest is right. */
  ghost predicate Visible(c: Coding, store: Store, p: Prepared) {
    && Lookup(c, store, p.revision, p.account, p.region) == Ok((ReleaseSha(c, p), ManifestOf(c, p)))
    && LinkedRelease(c, store, ReleaseSha(c, p), ManifestOf(c, p))
    && (CompleteRelease(c, store, ReleaseSha(c, p), ManifestOf(c, p)) <==> Truthful(c, p))
    && Describes(c, store, ManifestOf(c, p), p)
  }

  /** The manifest and the evidence it leads to say about the build what the build said: every report with its hash, and no other. */
  ghost predicate Describes(c: Coding, store: Store, manifest: Document, p: Prepared) {
    && manifest.Manifest? && manifest.revision == p.revision && manifest.account == p.account && manifest.region == p.region
    && manifest.bootstrap == p.bundleSha && manifest.details == p.details
    && EvidenceKey(manifest.evidence) in store
    && var e := c.parse(store[EvidenceKey(manifest.evidence)]);
       && e.Some? && e.value.Evidence? && e.value.evidenceRevision == p.revision && e.value.provenance == p.provenance
       && (forall i | 0 <= i < |p.reports| :: p.reports[i].0 in e.value.reports)
       && forall n <- e.value.reports :: exists i | 0 <= i < |p.reports| ::
            p.reports[i].0 == n && e.value.reports[n] == c.sha256(p.reports[i].1)
  }

  lemma SuccessDescribes(c: Coding, store: Store, p: Publisher)
    requires c.Lawful() && Honest(c, store, p) && p.Succeeded()
    ensures Describes(c, store, ManifestOf(c, p.prepared), p.prepared)
  {
    assert Holds(store, PutAt(c, p.prepared, |p.prepared.reports|));
    assert c.parse(c.canonical(EvidenceOf(c, p.prepared))) == Some(EvidenceOf(c, p.prepared));
  }

  /** A publisher that succeeded was admitted from the start. */
  lemma SuccessWasAdmitted(c: Coding, earlier: Store, store: Store, p: Publisher)
    requires Honest(c, store, p) && p.Succeeded() && Grows(earlier, store)
    ensures Admits(c, earlier, p.prepared)
  {
    assert Holds(store, PutAt(c, p.prepared, |p.prepared.reports| + 1));
    assert Holds(store, PutAt(c, p.prepared, Length(p.prepared) - 1));
  }

  /** What `publish` promises when it returns without an error. */
  lemma SuccessMeans(c: Coding, earlier: Store, store: Store, p: Publisher)
    requires c.Lawful() && Closed(c, store) && Honest(c, store, p) && p.Succeeded() && Grows(earlier, store)
    ensures Admits(c, earlier, p.prepared)
    ensures PublicRevision(p.prepared.revision) ==> Visible(c, store, p.prepared)
  {
    SuccessWasAdmitted(c, earlier, store, p);
    if PublicRevision(p.prepared.revision) {
      SuccessIsVisible(c, store, p);
      SuccessIsCompleteIffTruthful(c, store, p);
      SuccessDescribes(c, store, p);
    }
  }

  lemma OthersAreFree(c: Coding, store: Store, p: Prepared, i: nat)
    requires c.Lawful() && Closed(c, store) && i < Length(p) && i != |p.reports| + 1 && i != Length(p) - 1
    ensures Free(store, PutAt(c, p, i))
  {
    var put := PutAt(c, p, i);
    if put.key in store { assert Sound(c, store, put.key); }
  }

  /** With truthful publishers only, the bundle's name decides nothing either. */
  lemma TruthfulBundleIsFree(c: Coding, store: Store, p: Prepared)
    requires c.Lawful() && BundlesMatch(c, store) && Truthful(c, p)
    ensures Admits(c, store, p) <==> Free(store, PutAt(c, p, Length(p) - 1))
  {
  }

  /** One fault-free round passes exactly the objects whose place is free. */
  lemma OneRound(c: Coding, s: System, who: nat)
    requires who < |s.publishers| && s.publishers[who].Active() && s.publishers[who].phase == Putting
    ensures var t := Step(c, Step(c, s, Attempt(who, true, true)), Compare(who, true));
      var p := s.publishers[who]; var put := PutAt(c, p.prepared, p.next);
      && |t.publishers| == |s.publishers|
      && t.publishers[who] == (if Free(s.store, put) then Advance(p) else p.(phase := Failed))
      && t.store == if put.key in s.store then s.store else s.store[put.key := put.body]
  {
  }

  /** Passing one object does not change what decides the rest. */
  lemma RoundKeepsAdmits(c: Coding, store: Store, p: Prepared, i: nat)
    requires i < Length(p) && Free(store, PutAt(c, p, i))
    ensures var put := PutAt(c, p, i); Admits(c, Created(store, put), p) <==> Admits(c, store, p)
  {
  }

  /** From any reachable store, a publication without faults succeeds if and only if the store admits it. */
  lemma {:induction false} RetryOutcome(c: Coding, s: System, who: nat)
    requires c.Lawful() && Inv(c, s) && who < |s.publishers| && s.publishers[who].phase == Putting
    ensures Alone(c, s, who).publishers[who].prepared == s.publishers[who].prepared
    ensures Alone(c, s, who).publishers[who].Succeeded() <==> Admits(c, s.store, s.publishers[who].prepared)
    ensures Inv(c, Alone(c, s, who))
    decreases Length(s.publishers[who].prepared) - s.publishers[who].next
  {
    var p := s.publishers[who];
    assert Honest(c, s.store, p);
    if !p.Active() {
      assert Holds(s.store, PutAt(c, p.prepared, |p.prepared.reports| + 1));
      assert Holds(s.store, PutAt(c, p.prepared, Length(p.prepared) - 1));
    } else {
      OneRound(c, s, who);
      StepInv(c, s, Attempt(who, true, true));
      StepInv(c, Step(c, s, Attempt(who, true, true)), Compare(who, true));
      if p.next != |p.prepared.reports| + 1 && p.next != Length(p.prepared) - 1 { OthersAreFree(c, s.store, p.prepared, p.next); }
      var t := Step(c, Step(c, s, Attempt(who, true, true)), Compare(who, true));
      if Free(s.store, PutAt(c, p.prepared, p.next)) {
        RoundKeepsAdmits(c, s.store, p.prepared, p.next);
        RetryOutcome(c, t, who);
      }
    }
  }

  /** A finished build whose bundle has one byte, with the digest of the empty file beside it. */
  function WrongDigest(c: Coding): Prepared {
    Prepared(seq(40, _ => 'a'), "", "", [], [1 as bv8], c.sha256([]), "", "")
  }

  /** Publishing it succeeds, and its revision resolves to a linked release that is not complete. */
  lemma UntruthfulExample(c: Coding)
    requires c.Lawful()
    ensures var p := WrongDigest(c);
      var s := Alone(c, System(map[], [Publisher(p, 0, Putting)]), 0);
      var found := Lookup(c, s.store, p.revision, p.account, p.region);
      && !Truthful(c, p) && s.publishers[0].Succeeded() && found.Ok?
      && LinkedRelease(c, s.store, found.value.0, found.value.1) && !CompleteRelease(c, s.store, found.value.0, found.value.1)
  {
    var p := WrongDigest(c);
    var s0 := System(map[], [Publisher(p, 0, Putting)]);
    var empty: Bytes := [];
    assert |p.bundle| != |empty|;
    RetryOutcome(c, s0, 0);
    var s := Alone(c, s0, 0);
    SuccessIsVisible(c, s.store, s.publishers[0]);
    SuccessIsCompleteIffTruthful(c, s.store, s.publishers[0]);
  }
}
