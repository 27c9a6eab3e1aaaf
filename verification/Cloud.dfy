/** `Cloud.put`, `Cloud.release` and the writing tail of `publish`, as methods on the shared bucket. */
module CloudStore {
  import opened Wrappers
  import opened Publication

  /** The bucket with every publisher at work on it. Between any two requests the others may do anything. */
  class Cloud {
    const c: Coding
    const account: string
    const region: string
    var system: System
    ghost var trace: seq<Action>
    ghost const start: System

    /** The bucket is what some interleaving made of the first one. */
    ghost predicate Valid()
      reads this
    {
      c.Lawful() && Inv(c, start) && Inv(c, system) && system == Run(c, start, trace)
    }

    constructor (c: Coding, account: string, region: string)
      requires c.Lawful()
      ensures Valid() && this.c == c && this.account == account && this.region == region
      ensures system == System(map[], []) && trace == []
    {
      this.c, this.account, this.region := c, account, region;
      system, trace, start := System(map[], []), [], System(map[], []);
    }

    /** One action of some publisher. */
    method Do(a: Action)
      requires Valid()
      modifies this
      ensures Valid() && trace == old(trace) + [a] && system == Step(c, old(system), a)
      ensures Grows(old(system.store), system.store)
    {
      StepInv(c, system, a);
      StepGrows(c, system, a);
      system := Step(c, system, a);
      trace := trace + [a];
    }

    /** `who` is the publisher this process runs, or None; late requests of it may still arrive. */
    method Others(who: Option<nat>)
      requires Valid() && (who.Some? ==> who.value < |system.publishers|)
      modifies this
      ensures Valid() && old(trace) <= trace && Grows(old(system.store), system.store)
      ensures who.Some? ==> |system.publishers| >= |old(system.publishers)| && system.publishers[who.value] == old(system.publishers[who.value])
    {
      var actions: seq<Action> := *;
      for i := 0 to |actions|
        invariant Valid() && old(trace) <= trace && Grows(old(system.store), system.store)
        invariant who.Some? ==>
          |system.publishers| >= |old(system.publishers)| && system.publishers[who.value] == old(system.publishers[who.value])
      {
        var a := actions[i];
        var own := who.Some? && (a.Attempt? || a.Compare? || a.Die?) && a.who == who.value;
        if !own { Do(a); }
      }
    }

    /** The read that follows a failed write: the stored bytes must be the same. */
    method ReadBack(who: nat)
      requires Valid() && who < |system.publishers|
      requires system.publishers[who].Active() && system.publishers[who].phase == Comparing
      modifies this
      ensures Valid() && old(trace) <= trace && Grows(old(system.store), system.store)
      ensures who < |system.publishers|
      ensures var p := old(system.publishers[who]);
        system.publishers[who] == Advance(p) || system.publishers[who] == p.(phase := Failed)
    {
      Others(Some(who));
      var answered: bool := *;
      Do(Compare(who, answered));
    }

    /** The conditional write; it counts only when it created the object and its answer arrived. */
    method Write(who: nat, key: Key, body: Bytes) returns (written: bool)
      requires Valid() && who < |system.publishers|
      requires system.publishers[who].Active() && system.publishers[who].phase == Putting
      requires PutAt(c, system.publishers[who].prepared, system.publishers[who].next) == Put(key, body)
      modifies this
      ensures Valid() && old(trace) <= trace && Grows(old(system.store), system.store)
      ensures who < |system.publishers|
      ensures var p := old(system.publishers[who]);
        system.publishers[who] == if written then Advance(p) else p.(phase := Comparing)
    {
      Others(Some(who));
      var lands: bool, acknowledged: bool := *, *;
      written := key !in system.store && lands && acknowledged;
      Do(Attempt(who, lands, acknowledged));
    }

    /** `put`: the conditional write and, after any failure, the comparison. */
    method Send(who: nat, key: Key, body: Bytes) returns (ok: bool)
      requires Valid() && who < |system.publishers|
      requires system.publishers[who].Active() && system.publishers[who].phase == Putting
      requires PutAt(c, system.publishers[who].prepared, system.publishers[who].next) == Put(key, body)
      modifies this
      ensures Valid() && old(trace) <= trace && Grows(old(system.store), system.store)
      ensures who < |system.publishers|
      ensures ok ==> system.publishers[who] == Advance(old(system.publishers[who])) && Holds(system.store, Put(key, body))
    {
      ghost var p := system.publishers[who];
      var written := Write(who, key, body);
      if !written { ReadBack(who); }
      ok := system.publishers[who].phase == Putting;
      if ok { Passed(c, system.store, p); }
    }

    /** The first read of `release`. */
    method ReadIndex(revision: string) returns (sha: Result<Digest, LookupError>)
      requires Valid()
      modifies this
      ensures Valid() && old(trace) <= trace && Grows(old(system.store), system.store)
      ensures sha.Ok? ==> sha == Indexed(c, system.store, revision)
      ensures sha.Err? ==> sha.error == Unavailable
    {
      Others(None);
      var reached: bool := *;
      if !reached { return Err(Unavailable); }
      sha := Indexed(c, system.store, revision);
      if IndexKey(revision) in system.store { assert Sound(c, system.store, IndexKey(revision)); }
    }

    /** The second read. */
    method ReadRelease(sha: Digest, revision: string) returns (r: Result<(Digest, Document), LookupError>)
      requires Valid() && Indexed(c, system.store, revision) == Ok(sha)
      modifies this
      ensures Valid() && old(trace) <= trace && Grows(old(system.store), system.store)
      ensures Indexed(c, system.store, revision) == Ok(sha)
      ensures r.Ok? ==> r == Released(c, system.store, sha, revision, account, region)
      ensures r.Err? ==> r.error == Unavailable || r.error == DestinationMismatch
    {
      Others(None);
      var reached: bool := *;
      if !reached { return Err(Unavailable); }
      r := Released(c, system.store, sha, revision, account, region);
      assert Sound(c, system.store, IndexKey(revision));
      assert Sound(c, system.store, ReleaseKey(sha));
    }

    /** The two reads, with anything in between. */
    method ReadBoth(revision: string) returns (r: Result<(Digest, Document), LookupError>)
      requires Valid() && PublicRevision(revision)
      modifies this
      ensures Valid() && old(trace) <= trace && Grows(old(system.store), system.store)
      ensures r.Ok? ==> r == Lookup(c, system.store, revision, account, region)
      ensures r.Err? ==> r.error == Unavailable || r.error == DestinationMismatch
    {
      var sha := ReadIndex(revision);
      if sha.Err? { return Err(sha.error); }
      r := ReadRelease(sha.value, revision);
    }

    /** The manifest names this revision and this destination. */
    static predicate Addressed(manifest: Document, revision: string, account: string, region: string) {
      manifest.Manifest? && manifest.revision == revision && manifest.account == account && manifest.region == region
    }

    /** `release`: a malformed revision is refused before the reads. */
    method Release(revision: string) returns (r: Result<(Digest, Document), LookupError>)
      requires Valid()
      modifies this
      ensures Valid() && old(trace) <= trace && Grows(old(system.store), system.store)
      ensures r.Ok? ==> r == Lookup(c, system.store, revision, account, region) && LinkedRelease(c, system.store, r.value.0, r.value.1)
      ensures r.Ok? ==> Addressed(r.value.1, revision, account, region)
      ensures r == Err(InvalidRevision) <==> !(|revision| == 40 && forall ch <- revision :: '0' <= ch <= '9' || 'a' <= ch <= 'f')
      ensures r.Ok? && BundlesMatch(c, system.store) ==> CompleteRelease(c, system.store, r.value.0, r.value.1)
      ensures r.Ok? && Lookup(c, old(system.store), revision, account, region).Ok? ==>
        r == Lookup(c, old(system.store), revision, account, region)
      ensures r.Err? ==> r.error == InvalidRevision || r.error == Unavailable || r.error == DestinationMismatch
    {
      if !PublicRevision(revision) { return Err(InvalidRevision); }
      r := ReadBoth(revision);
      IndexImpliesComplete(c, system.store, revision, account, region);
    }

    /** The evidence's report digests, while each report is put. */
    method SendReports(who: nat, p: Prepared) returns (ok: bool, digests: map<string, Digest>)
      requires Valid() && who < |system.publishers| && system.publishers[who] == Publisher(p, 0, Putting)
      modifies this
      ensures Valid() && old(trace) <= trace && Grows(old(system.store), system.store)
      ensures ok ==> who < |system.publishers| && system.publishers[who] == Publisher(p, |p.reports|, Putting)
      ensures ok ==> digests == ReportDigests(c, p.reports)
    {
      ok, digests := true, map[];
      assert p.reports[..0] == [];
      for i := 0 to |p.reports|
        invariant Valid() && old(trace) <= trace && Grows(old(system.store), system.store)
        invariant ok && who < |system.publishers| && system.publishers[who] == Publisher(p, i, Putting)
        invariant digests == ReportDigests(c, p.reports[..i])
      {
        var (name, body) := p.reports[i];
        var sha := c.sha256(body);
        ok := Send(who, ReportKey(sha), body);
        if !ok { return; }
        ReportDigestsNext(c, p.reports, i);
        digests := digests[name := sha];
      }
      assert p.reports[..|p.reports|] == p.reports;
    }

    /** The evidence that names the reports, then the bundle. */
    method SendEvidence(who: nat, p: Prepared, digests: map<string, Digest>) returns (ok: bool, sha: Digest)
      requires Valid() && who < |system.publishers| && system.publishers[who] == Publisher(p, |p.reports|, Putting)
      requires digests == ReportDigests(c, p.reports)
      modifies this
      ensures Valid() && old(trace) <= trace && Grows(old(system.store), system.store)
      ensures ok ==> who < |system.publishers| && system.publishers[who] == Publisher(p, |p.reports| + 2, Putting)
      ensures sha == EvidenceSha(c, p)
    {
      var evidence := c.canonical(Evidence(p.revision, digests, p.provenance));
      sha := c.sha256(evidence);
      ok := Send(who, EvidenceKey(sha), evidence);
      if !ok { return; }
      ok := Send(who, BundleKey(p.bundleSha), p.bundle);
    }

    /** The manifest that names the evidence and the bundle, then the index that names the manifest. */
    method SendManifest(who: nat, p: Prepared, evidence: Digest) returns (ok: bool)
      requires Valid() && who < |system.publishers| && system.publishers[who] == Publisher(p, |p.reports| + 2, Putting)
      requires evidence == EvidenceSha(c, p)
      modifies this
      ensures Valid() && old(trace) <= trace && Grows(old(system.store), system.store)
      ensures ok ==>
        && who < |system.publishers| && system.publishers[who] == Publisher(p, Length(p), Putting)
        && Honest(c, system.store, system.publishers[who])
    {
      var manifest := c.canonical(Manifest(p.revision, p.account, p.region, p.bundleSha, evidence, p.details));
      var release := c.sha256(manifest);
      ok := Send(who, ReleaseKey(release), manifest);
      if !ok { return; }
      ok := Send(who, IndexKey(p.revision), c.canonical(Index(p.revision, release)));
    }

    /** All objects in their order. */
    method SendAll(who: nat, p: Prepared) returns (ok: bool)
      requires Valid() && who < |system.publishers| && system.publishers[who] == Publisher(p, 0, Putting)
      modifies this
      ensures Valid() && old(trace) <= trace && Grows(old(system.store), system.store)
      ensures ok ==>
        && who < |system.publishers| && system.publishers[who] == Publisher(p, Length(p), Putting)
        && Honest(c, system.store, system.publishers[who])
    {
      var digests, evidence;
      ok, digests := SendReports(who, p);
      if !ok { return; }
      ok, evidence := SendEvidence(who, p, digests);
      if !ok { return; }
      ok := SendManifest(who, p, evidence);
    }

    /** The writing tail of `publish`: reports, evidence, bundle, manifest, and the index last. */
    method Publish(p: Prepared) returns (ok: bool)
      requires Valid()
      modifies this
      ensures Valid() && old(trace) <= trace && Grows(old(system.store), system.store)
      ensures ok && PublicRevision(p.revision) ==> Visible(c, system.store, p)
      ensures !Admits(c, old(system.store), p) ==> !ok
    {
      var who := |system.publishers|;
      Do(Join(p));
      ok := SendAll(who, p);
      if ok { SuccessMeans(c, old(system.store), system.store, system.publishers[who]); }
    }
  }
}
