/** Regression promotion after a failed gate: `cli/cmd/ci_regressions.go`. */
module Regressions {
  import opened Wrappers
  import opened Text

  datatype Failure = Failure(agent: string, challenge: string, key: string, cluster: string, promotable: bool, modes: seq<string>)

  /** A regression case; `cluster` is its source_failure_cluster_key metadata. */
  datatype Case = Case(id: string, status: string, challenge: string, cluster: string)

  datatype Reason = NotPromotable | MissingChallenge | NoMode

  /** What becomes of one failure in one suite. `sent` says that a promotion request found the case. */
  datatype Outcome =
    | Created(suite: string, failure: Failure, id: string, status: string)
    | Existing(suite: string, failure: Failure, id: string, status: string, sent: bool)
    | Skipped(suite: string, failure: Failure, reason: Reason)
    | PostFailed(suite: string, failure: Failure)
    | Unlisted(suite: string)

  datatype Post = Post(suite: string, failure: Failure, mode: string, status: string)

  // ---- The case indexes ----

  predicate IsLive(c: Case) {
    Trim(c.status) != "archived" && Trim(c.status) != "rejected"
  }

  /** The last live case with this key. */
  function LastLive(cases: seq<Case>, keyOf: Case -> string, key: string): (r: Option<Case>)
    ensures r.Some? <==> exists c <- cases :: IsLive(c) && Trim(keyOf(c)) == key
    ensures r.Some? ==> r.value in cases && IsLive(r.value) && Trim(keyOf(r.value)) == key
  {
    if cases == [] then None
    else
      var last := cases[|cases| - 1];
      if IsLive(last) && Trim(keyOf(last)) == key then Some(last) else LastLive(cases[..|cases| - 1], keyOf, key)
  }

  function ChallengeOf(c: Case): string { c.challenge }
  function ClusterOf(c: Case): string { c.cluster }

  /** The index holds exactly the non-blank keys of live cases, each with its last live case. */
  ghost predicate Indexes(index: map<string, Case>, cases: seq<Case>, keyOf: Case -> string) {
    forall key: string ::
      if key != "" && LastLive(cases, keyOf, key).Some? then key in index && index[key] == LastLive(cases, keyOf, key).value
      else key !in index
  }

  /** `ciRunExistingCaseIndexes`. */
  method ExistingCaseIndexes(cases: seq<Case>) returns (byChallenge: map<string, Case>, byCluster: map<string, Case>)
    ensures Indexes(byChallenge, cases, ChallengeOf) && Indexes(byCluster, cases, ClusterOf)
  {
    byChallenge, byCluster := map[], map[];
    for i := 0 to |cases|
      invariant Indexes(byChallenge, cases[..i], ChallengeOf) && Indexes(byCluster, cases[..i], ClusterOf)
    {
      var item := cases[i];
      assert cases[..i + 1][..i] == cases[..i];
      if !IsLive(item) { continue; }
      var id := Trim(item.challenge);
      if id != "" { byChallenge := byChallenge[id := item]; }
      var cluster := Trim(item.cluster);
      if cluster != "" { byCluster := byCluster[cluster := item]; }
    }
    assert cases[..|cases|] == cases;
  }

  /** Neither archived nor rejected, and its trimmed key is this one. */
  predicate LiveWith(c: Case, keyOf: Case -> string, key: string) {
    Trim(c.status) !in {"archived", "rejected"} && Trim(keyOf(c)) == key
  }

  lemma LiveWithMeans(c: Case, keyOf: Case -> string, key: string)
    ensures LiveWith(c, keyOf, key) <==> IsLive(c) && Trim(keyOf(c)) == key
  {
  }

  /** The case found is the last live one with the key. */
  lemma {:induction false} LastLiveIsLast(cases: seq<Case>, keyOf: Case -> string, key: string) returns (i: nat)
    requires LastLive(cases, keyOf, key).Some?
    ensures i < |cases| && LastLive(cases, keyOf, key).value == cases[i] && LiveWith(cases[i], keyOf, key)
    ensures forall j | i < j < |cases| :: !LiveWith(cases[j], keyOf, key)
  {
    var last := |cases| - 1;
    LiveWithMeans(cases[last], keyOf, key);
    i := last;
    if !LiveWith(cases[last], keyOf, key) {
      i := LastLiveIsLast(cases[..last], keyOf, key);
      assert forall j | i < j < last :: cases[j] == cases[..last][j];
    }
  }

  /** `ciRunFindExistingCase`: the cluster key is tried first. */
  function FindExistingCase(f: Failure, byChallenge: map<string, Case>, byCluster: map<string, Case>): Option<Case> {
    var cluster, challenge := Trim(f.cluster), Trim(f.challenge);
    if cluster != "" && cluster in byCluster then Some(byCluster[cluster])
    else if challenge != "" && challenge in byChallenge then Some(byChallenge[challenge])
    else None
  }

  predicate SameCluster(f: Failure, c: Case) {
    Trim(f.cluster) != "" && Trim(c.cluster) == Trim(f.cluster)
  }

  predicate SameChallenge(f: Failure, c: Case) {
    Trim(f.challenge) != "" && Trim(c.challenge) == Trim(f.challenge)
  }

  /** A live case shares the failure's cluster key or its challenge identity; blank keys match nothing. */
  predicate SharesCase(f: Failure, cases: seq<Case>) {
    exists c <- cases :: IsLive(c) && (SameCluster(f, c) || SameChallenge(f, c))
  }

  /** The case a promotion is refused for: the last live one of the cluster, or else of the challenge. */
  function Match(f: Failure, cases: seq<Case>): Option<Case> {
    if Trim(f.cluster) != "" && LastLive(cases, ClusterOf, Trim(f.cluster)).Some? then LastLive(cases, ClusterOf, Trim(f.cluster))
    else if Trim(f.challenge) != "" then LastLive(cases, ChallengeOf, Trim(f.challenge))
    else None
  }

  /** The lookup through the indexes is the search through the cases. */
  lemma FoundIsMatch(f: Failure, cases: seq<Case>, byChallenge: map<string, Case>, byCluster: map<string, Case>)
    requires Indexes(byChallenge, cases, ChallengeOf) && Indexes(byCluster, cases, ClusterOf)
    ensures FindExistingCase(f, byChallenge, byCluster) == Match(f, cases)
  {
    var cluster, challenge := Trim(f.cluster), Trim(f.challenge);
    assert cluster != "" ==> (cluster in byCluster <==> LastLive(cases, ClusterOf, cluster).Some?);
    assert challenge != "" ==> (challenge in byChallenge <==> LastLive(cases, ChallengeOf, challenge).Some?);
  }

  /** A case is found exactly when a live one shares a key. */
  lemma MatchIffShared(f: Failure, cases: seq<Case>)
    ensures Match(f, cases).Some? <==> SharesCase(f, cases)
    ensures Match(f, cases).Some? ==> Match(f, cases).value in cases && IsLive(Match(f, cases).value)
  {
    if c :| c in cases && IsLive(c) && (SameCluster(f, c) || SameChallenge(f, c)) {
      assert Trim(ClusterOf(c)) == Trim(f.cluster) || Trim(ChallengeOf(c)) == Trim(f.challenge);
    }
  }

  /** A shared cluster key wins over a shared challenge. */
  lemma ClusterWins(f: Failure, cases: seq<Case>, c: Case)
    requires c in cases && IsLive(c) && SameCluster(f, c)
    ensures Match(f, cases).Some? && SameCluster(f, Match(f, cases).value)
  {
    assert Trim(ClusterOf(c)) == Trim(f.cluster);
  }

  // ---- One call ----

  /** Full executables are preferred. */
  function PreferredMode(modes: seq<string>): (r: string)
    ensures r in {"full_executable", "output_only", ""}
  {
    if exists m <- modes :: Trim(m) == "full_executable" then "full_executable"
    else if exists m <- modes :: Trim(m) == "output_only" then "output_only"
    else ""
  }

  /** The mode is one of the failure's, and a full executable if it has that. */
  predicate BestMode(mode: string, modes: seq<string>) {
    && (exists m <- modes :: Trim(m) == mode)
    && (mode == "full_executable" || (mode == "output_only" && forall m <- modes :: Trim(m) != "full_executable"))
  }

  lemma PreferredIsBest(modes: seq<string>)
    ensures PreferredMode(modes) != "" ==> BestMode(PreferredMode(modes), modes)
    ensures PreferredMode(modes) == "" <==> forall m <- modes :: Trim(m) !in {"full_executable", "output_only"}
  {
  }

  /** The case is neither archived nor rejected and has the failure's cluster key or challenge, which must not be blank. */
  predicate Covers(c: Case, f: Failure) {
    && Trim(c.status) !in {"archived", "rejected"}
    && ((Trim(f.cluster) != "" && Trim(c.cluster) == Trim(f.cluster)) || (Trim(f.challenge) != "" && Trim(c.challenge) == Trim(f.challenge)))
  }

  lemma SharedIsCovered(f: Failure, cases: seq<Case>)
    ensures SharesCase(f, cases) <==> exists c <- cases :: Covers(c, f)
  {
    forall c <- cases ensures IsLive(c) && (SameCluster(f, c) || SameChallenge(f, c)) <==> Covers(c, f) {}
  }

  /** Which entry a failure gets, by its own fields and the cases of the suite. */
  lemma FitsMeans(o: Outcome, suite: string, f: Failure, cases: seq<Case>)
    requires Fits(o, suite, f, cases)
    ensures var covered := exists c <- cases :: Covers(c, f);
      var usable := exists m <- f.modes :: Trim(m) == "full_executable" || Trim(m) == "output_only";
      && o.suite == suite && !o.Unlisted? && o.failure == f
      && (o.Skipped? && o.reason == NotPromotable <==> !f.promotable)
      && (o.Existing? && !o.sent <==> f.promotable && covered)
      && (o.Skipped? && o.reason == MissingChallenge <==> f.promotable && !covered && Trim(f.challenge) == "")
      && (o.Skipped? && o.reason == NoMode <==> f.promotable && !covered && Trim(f.challenge) != "" && !usable)
      && (o.Created? || o.PostFailed? || (o.Existing? && o.sent) <==> f.promotable && !covered && Trim(f.challenge) != "" && usable)
  {
    MatchIffShared(f, cases);
    SharedIsCovered(f, cases);
    PreferredIsBest(f.modes);
  }

  /** An existing entry names the last live case of the failure's cluster, or else the last one of its challenge. */
  lemma MatchIsLast(f: Failure, cases: seq<Case>) returns (i: nat)
    requires Match(f, cases).Some?
    ensures i < |cases| && Match(f, cases).value == cases[i] && Covers(cases[i], f)
    ensures (exists c <- cases :: Covers(c, f) && SameCluster(f, c)) ==>
      SameCluster(f, cases[i]) && forall j | i < j < |cases| :: !(Covers(cases[j], f) && SameCluster(f, cases[j]))
    ensures (forall c <- cases :: Covers(c, f) ==> !SameCluster(f, c)) ==> forall j | i < j < |cases| :: !Covers(cases[j], f)
  {
    var cluster, challenge := Trim(f.cluster), Trim(f.challenge);
    if cluster != "" && LastLive(cases, ClusterOf, cluster).Some? {
      i := LastLiveIsLast(cases, ClusterOf, cluster);
      assert Covers(cases[i], f) && SameCluster(f, cases[i]);
    } else {
      i := LastLiveIsLast(cases, ChallengeOf, challenge);
      forall c <- cases | Covers(c, f) ensures !SameCluster(f, c) {
        assert IsLive(c) && Trim(ClusterOf(c)) == cluster ==> LastLive(cases, ClusterOf, cluster).Some?;
      }
    }
  }

  /** The promotion request is sent for this failure. */
  predicate NeedsPost(f: Failure, cases: seq<Case>) {
    f.promotable && Match(f, cases).None? && Trim(f.challenge) != "" && PreferredMode(f.modes) != ""
  }

  /** The one entry a failure may get in a suite with these cases. */
  predicate Fits(o: Outcome, suite: string, f: Failure, cases: seq<Case>) {
    if !f.promotable then o == Skipped(suite, f, NotPromotable)
    else if Match(f, cases).Some? then o == Existing(suite, f, Match(f, cases).value.id, Match(f, cases).value.status, false)
    else if Trim(f.challenge) == "" then o == Skipped(suite, f, MissingChallenge)
    else if PreferredMode(f.modes) == "" then o == Skipped(suite, f, NoMode)
    else Answers(o, suite, f)
  }

  /** The entry comes from a promotion request for this failure. */
  predicate Answers(o: Outcome, suite: string, f: Failure) {
    Sent(o) && o.suite == suite && o.failure == f
  }

  predicate Sent(o: Outcome) {
    o.Created? || o.PostFailed? || (o.Existing? && o.sent)
  }

  /** The requests behind these outcomes. */
  function Posts(log: seq<Outcome>, status: string): seq<Post> {
    if log == [] then []
    else
      var last := log[|log| - 1];
      Posts(log[..|log| - 1], status) + if Sent(last) then [Post(last.suite, last.failure, PreferredMode(last.failure.modes), status)] else []
  }

  lemma PostsNext(log: seq<Outcome>, o: Outcome, status: string)
    ensures Posts(log + [o], status)
         == if Sent(o) then Posts(log, status) + [Post(o.suite, o.failure, PreferredMode(o.failure.modes), status)] else Posts(log, status)
  {
    assert (log + [o])[..|log|] == log;
  }

  function Select(keep: Outcome -> bool, log: seq<Outcome>): seq<Outcome> {
    if log == [] then []
    else
      var last := log[|log| - 1];
      Select(keep, log[..|log| - 1]) + if keep(last) then [last] else []
  }

  lemma SelectNext(keep: Outcome -> bool, log: seq<Outcome>, o: Outcome)
    ensures Select(keep, log + [o]) == if keep(o) then Select(keep, log) + [o] else Select(keep, log)
  {
    assert (log + [o])[..|log|] == log;
  }

  function IsCreated(o: Outcome): bool { o.Created? }
  function IsExisting(o: Outcome): bool { o.Existing? }
  function IsSkipped(o: Outcome): bool { o.Skipped? }
  function IsError(o: Outcome): bool { o.PostFailed? || o.Unlisted? }

  /** The entries of one kind are exactly this list, in order. */
  ghost predicate Lists(entries: seq<Outcome>, keep: Outcome -> bool, log: seq<Outcome>) {
    entries == Select(keep, log)
  }

  lemma ListsNext(entries: seq<Outcome>, keep: Outcome -> bool, log: seq<Outcome>, o: Outcome)
    requires Lists(entries, keep, log)
    ensures Lists(if keep(o) then entries + [o] else entries, keep, log + [o])
  {
    SelectNext(keep, log, o);
  }

  /** The four lists hold the entries of the log, each in the one list of its kind, in order. */
  ghost predicate Filed(created: seq<Outcome>, existing: seq<Outcome>, skipped: seq<Outcome>, errors: seq<Outcome>, log: seq<Outcome>) {
    && Lists(created, IsCreated, log) && Lists(existing, IsExisting, log)
    && Lists(skipped, IsSkipped, log) && Lists(errors, IsError, log)
  }

  lemma FiledNext(created: seq<Outcome>, existing: seq<Outcome>, skipped: seq<Outcome>, errors: seq<Outcome>, log: seq<Outcome>, o: Outcome)
    requires Filed(created, existing, skipped, errors, log)
    ensures Filed(if o.Created? then created + [o] else created, if o.Existing? then existing + [o] else existing,
                  if o.Skipped? then skipped + [o] else skipped,
                  if o.PostFailed? || o.Unlisted? then errors + [o] else errors, log + [o])
  {
    ListsNext(created, IsCreated, log, o);
    ListsNext(existing, IsExisting, log, o);
    ListsNext(skipped, IsSkipped, log, o);
    ListsNext(errors, IsError, log, o);
  }

  /** The result document: four lists, filled as the loops go. */
  class Summary {
    const status: string
    var created: seq<Outcome>
    var existing: seq<Outcome>
    var skipped: seq<Outcome>
    var errors: seq<Outcome>
    var posts: seq<Post>          // what the server was asked
    ghost var log: seq<Outcome>   // every entry, in order

    ghost predicate Valid()
      reads this
    {
      Filed(created, existing, skipped, errors, log) && posts == Posts(log, status)
    }

    constructor (status: string)
      ensures Valid() && log == [] && this.status == status
    {
      this.status := status;
      created, existing, skipped, errors, posts, log := [], [], [], [], [], [];
    }

    /** Appends an entry to the one list of its kind. */
    method Append(o: Outcome)
      modifies this
      ensures log == old(log) + [o] && posts == old(posts)
      ensures created == if o.Created? then old(created) + [o] else old(created)
      ensures existing == if o.Existing? then old(existing) + [o] else old(existing)
      ensures skipped == if o.Skipped? then old(skipped) + [o] else old(skipped)
      ensures errors == if o.PostFailed? || o.Unlisted? then old(errors) + [o] else old(errors)
    {
      if o.Created? {
        created := created + [o];
      } else if o.Existing? {
        existing := existing + [o];
      } else if o.Skipped? {
        skipped := skipped + [o];
      } else {
        errors := errors + [o];
      }
      log := log + [o];
    }

    /** An entry that no request was sent for. */
    method Add(o: Outcome)
      requires Valid() && !Sent(o)
      modifies this
      ensures Valid() && log == old(log) + [o]
    {
      FiledNext(created, existing, skipped, errors, log, o);
      PostsNext(log, o, status);
      Append(o);
    }

    /** The answer to a promotion request: refused, a new case, or a known one. */
    method Ask(suite: string, f: Failure) returns (o: Outcome)
      ensures Answers(o, suite, f)
    {
      var answered: bool, isNew: bool, id: string, answer: string := *, *, *, *;
      if !answered { return PostFailed(suite, f); }
      var caseStatus := if answer != "" then answer else status;
      o := if isNew then Created(suite, f, id, caseStatus) else Existing(suite, f, id, caseStatus, true);
    }

    /** `promoteCIRunFailure`. */
    method Promote(suite: string, f: Failure, mode: string) returns (o: Outcome)
      requires Valid() && mode == PreferredMode(f.modes)
      modifies this
      ensures Valid() && log == old(log) + [o] && Answers(o, suite, f)
    {
      o := Ask(suite, f);
      FiledNext(created, existing, skipped, errors, log, o);
      PostsNext(log, o, status);
      posts := posts + [Post(suite, f, mode, status)];
      Append(o);
    }

    /** One failure against the cases of one suite. */
    method Handle(suite: string, f: Failure, ghost cases: seq<Case>, byChallenge: map<string, Case>, byCluster: map<string, Case>)
      returns (o: Outcome)
      requires Valid() && Indexes(byChallenge, cases, ChallengeOf) && Indexes(byCluster, cases, ClusterOf)
      modifies this
      ensures Valid() && log == old(log) + [o] && Fits(o, suite, f, cases)
    {
      if !f.promotable {
        o := Skipped(suite, f, NotPromotable);
        Add(o);
        return;
      }
      FoundIsMatch(f, cases, byChallenge, byCluster);
      var found := FindExistingCase(f, byChallenge, byCluster);
      if found.Some? {
        o := Existing(suite, f, found.value.id, found.value.status, false);
        Add(o);
        return;
      }
      if Trim(f.challenge) == "" {
        o := Skipped(suite, f, MissingChallenge);
        Add(o);
        return;
      }
      var mode := PreferredMode(f.modes);
      if mode == "" {
        o := Skipped(suite, f, NoMode);
        Add(o);
        return;
      }
      o := Promote(suite, f, mode);
    }

    /** All failures of one suite. */
    method PromoteSuite(suite: string, failures: seq<Failure>, cases: Option<seq<Case>>)
      requires Valid()
      modifies this
      ensures Valid() && old(log) <= log && Block(log[|old(log)|..], suite, failures, cases)
    {
      if cases.None? {
        Add(Unlisted(suite));
        return;
      }
      var byChallenge, byCluster := ExistingCaseIndexes(cases.value);
      ghost var block: seq<Outcome> := [];
      for i := 0 to |failures|
        invariant Valid() && log == old(log) + block && |block| == i && FitAll(block, suite, failures, cases.value)
      {
        var o := Handle(suite, failures[i], cases.value, byChallenge, byCluster);
        FitNext(block, o, suite, failures, cases.value);
        block := block + [o];
      }
      assert log[|old(log)|..] == block;
    }

    /** The suite loop; `listing` answers the request for the cases of the suite at each position. */
    method PromoteAll(suites: seq<string>, failures: seq<Failure>, listing: nat -> Option<seq<Case>>)
      requires Valid() && log == []
      modifies this
      ensures Valid() && Accounted(log, suites, failures, listing)
    {
      for i := 0 to |suites|
        invariant Valid() && Accounted(log, suites[..i], failures, listing)
      {
        label Before:
        PromoteSuite(suites[i], failures, listing(i));
        AccountedNext(old@Before(log), log, suites, i, failures, listing);
      }
      assert suites[..|suites|] == suites;
    }
  }

  /** One fitting entry for each of the first failures, in order. */
  ghost predicate FitAll(block: seq<Outcome>, suite: string, failures: seq<Failure>, cases: seq<Case>) {
    |block| <= |failures| && forall i | 0 <= i < |block| :: Fits(block[i], suite, failures[i], cases)
  }

  lemma FitNext(block: seq<Outcome>, o: Outcome, suite: string, failures: seq<Failure>, cases: seq<Case>)
    requires FitAll(block, suite, failures, cases) && |block| < |failures| && Fits(o, suite, failures[|block|], cases)
    ensures FitAll(block + [o], suite, failures, cases)
  {
    var longer := block + [o];
    forall i | 0 <= i < |longer| ensures Fits(longer[i], suite, failures[i], cases) {
      if i < |block| { assert Fits(block[i], suite, failures[i], cases); }
    }
  }

  /** What one suite adds: one error if its cases cannot be listed, and otherwise one fitting entry for each failure. */
  ghost predicate Block(block: seq<Outcome>, suite: string, failures: seq<Failure>, cases: Option<seq<Case>>) {
    if cases.None? then block == [Unlisted(suite)]
    else |block| == |failures| && FitAll(block, suite, failures, cases.value)
  }

  function BlockSize(failures: seq<Failure>, cases: Option<seq<Case>>): nat {
    if cases.None? then 1 else |failures|
  }

  /** The entries are the suites' blocks, in order. */
  ghost predicate Accounted(log: seq<Outcome>, suites: seq<string>, failures: seq<Failure>, listing: nat -> Option<seq<Case>>)
    decreases |suites|
  {
    if suites == [] then log == []
    else
      var last := suites[|suites| - 1];
      var n := BlockSize(failures, listing(|suites| - 1));
      && |log| >= n
      && Accounted(log[..|log| - n], suites[..|suites| - 1], failures, listing)
      && Block(log[|log| - n..], last, failures, listing(|suites| - 1))
  }

  lemma AccountedNext(before: seq<Outcome>, log: seq<Outcome>, suites: seq<string>, i: nat, failures: seq<Failure>,
                      listing: nat -> Option<seq<Case>>)
    requires i < |suites| && Accounted(before, suites[..i], failures, listing)
    requires before <= log && Block(log[|before|..], suites[i], failures, listing(i))
    ensures Accounted(log, suites[..i + 1], failures, listing)
  {
    assert suites[..i + 1][..i] == suites[..i] && suites[..i + 1][i] == suites[i];
    var n := BlockSize(failures, listing(i));
    assert |log| - n == |before| && log[..|log| - n] == before && log[|log| - n..] == log[|before|..];
  }

  /** How many entries the suites must add. */
  function Total(suites: seq<string>, failures: seq<Failure>, listing: nat -> Option<seq<Case>>): nat {
    if suites == [] then 0
    else Total(suites[..|suites| - 1], failures, listing) + BlockSize(failures, listing(|suites| - 1))
  }

  lemma {:induction false} SelectPartitions(log: seq<Outcome>)
    ensures |Select(IsCreated, log)| + |Select(IsExisting, log)| + |Select(IsSkipped, log)| + |Select(IsError, log)| == |log|
  {
    if log != [] { SelectPartitions(log[..|log| - 1]); }
  }

  lemma {:induction false} EntriesAreTotal(log: seq<Outcome>, suites: seq<string>, failures: seq<Failure>, listing: nat -> Option<seq<Case>>)
    requires Accounted(log, suites, failures, listing)
    ensures |log| == Total(suites, failures, listing)
    decreases |suites|
  {
    if suites != [] {
      var n := BlockSize(failures, listing(|suites| - 1));
      EntriesAreTotal(log[..|log| - n], suites[..|suites| - 1], failures, listing);
    }
  }

  /** Conservation: the four lists together hold exactly one entry for each pair, and one error for each unlistable suite. */
  lemma Conservation(s: Summary, suites: seq<string>, failures: seq<Failure>, listing: nat -> Option<seq<Case>>)
    requires s.Valid() && Accounted(s.log, suites, failures, listing)
    ensures |s.created| + |s.existing| + |s.skipped| + |s.errors| == Total(suites, failures, listing)
  {
    SelectPartitions(s.log);
    EntriesAreTotal(s.log, suites, failures, listing);
  }

  /** Every request was sent for a failure of this call that no live case in the listing of its suite covers. */
  lemma PostsAreNeeded(log: seq<Outcome>, suites: seq<string>, failures: seq<Failure>, listing: nat -> Option<seq<Case>>,
                       status: string, p: Post)
    returns (i: nat)
    requires Accounted(log, suites, failures, listing) && p in Posts(log, status)
    ensures i < |suites| && p.suite == suites[i] && p.failure in failures && p.status == status
    ensures listing(i).Some? && NeedsPost(p.failure, listing(i).value) && !SharesCase(p.failure, listing(i).value)
    ensures p.failure.promotable && Trim(p.failure.challenge) != "" && BestMode(p.mode, p.failure.modes)
    ensures forall c <- listing(i).value :: !Covers(c, p.failure)
  {
    var k := PostAt(log, status, p);
    i := OutcomeAt(log, suites, failures, listing, k);
    MatchIffShared(p.failure, listing(i).value);
    SharedIsCovered(p.failure, listing(i).value);
    PreferredIsBest(p.failure.modes);
  }

  lemma {:induction false} PostAt(log: seq<Outcome>, status: string, p: Post) returns (k: nat)
    requires p in Posts(log, status)
    ensures k < |log| && Sent(log[k])
    ensures p == Post(log[k].suite, log[k].failure, PreferredMode(log[k].failure.modes), status)
  {
    k := |log| - 1;
    if p in Posts(log[..|log| - 1], status) { k := PostAt(log[..|log| - 1], status, p); }
  }

  lemma BlockAt(block: seq<Outcome>, suite: string, failures: seq<Failure>, cases: Option<seq<Case>>, k: nat)
    requires Block(block, suite, failures, cases) && k < |block| && Sent(block[k])
    ensures cases.Some? && block[k].suite == suite && block[k].failure in failures
    ensures Fits(block[k], suite, block[k].failure, cases.value)
  {
    assert cases.Some? && Fits(block[k], suite, failures[k], cases.value);
    SentNamesFailure(block[k], suite, failures[k], cases.value);
  }

  lemma SentNamesFailure(o: Outcome, suite: string, f: Failure, cases: seq<Case>)
    requires Fits(o, suite, f, cases) && Sent(o)
    ensures o.suite == suite && o.failure == f
  {
  }

  /** The entry belongs to the suite at position `i` and one of the failures. */
  ghost predicate BelongsTo(o: Outcome, suites: seq<string>, failures: seq<Failure>, listing: nat -> Option<seq<Case>>, i: nat) {
    && !o.Unlisted? && i < |suites| && o.suite == suites[i] && o.failure in failures
    && listing(i).Some? && Fits(o, suites[i], o.failure, listing(i).value)
  }

  lemma BelongsLonger(o: Outcome, suites: seq<string>, n: nat, failures: seq<Failure>, listing: nat -> Option<seq<Case>>, i: nat)
    requires n <= |suites| && BelongsTo(o, suites[..n], failures, listing, i)
    ensures BelongsTo(o, suites, failures, listing, i)
  {
    assert suites[..n][i] == suites[i];
  }

  lemma InLastBlock(log: seq<Outcome>, n: nat, suites: seq<string>, failures: seq<Failure>, listing: nat -> Option<seq<Case>>, k: nat)
    requires suites != [] && n <= |log| && |log| - n <= k < |log| && Sent(log[k])
    requires Block(log[|log| - n..], suites[|suites| - 1], failures, listing(|suites| - 1))
    ensures BelongsTo(log[k], suites, failures, listing, |suites| - 1)
  {
    var block, m := log[|log| - n..], k - (|log| - n);
    assert block[m] == log[k];
    BlockAt(block, suites[|suites| - 1], failures, listing(|suites| - 1), m);
  }

  lemma {:induction false} OutcomeAt(log: seq<Outcome>, suites: seq<string>, failures: seq<Failure>,
                                     listing: nat -> Option<seq<Case>>, k: nat)
    returns (i: nat)
    requires Accounted(log, suites, failures, listing) && k < |log| && Sent(log[k])
    ensures BelongsTo(log[k], suites, failures, listing, i)
    decreases |suites|
  {
    i := |suites| - 1;
    var n := BlockSize(failures, listing(i));
    if k < |log| - n {
      var before := log[..|log| - n];
      assert before[k] == log[k];
      i := OutcomeAt(before, suites[..|suites| - 1], failures, listing, k);
      BelongsLonger(log[k], suites, |suites| - 1, failures, listing, i);
    } else {
      InLastBlock(log, n, suites, failures, listing, k);
    }
  }

  // ---- When anything is promoted at all ----

  datatype Metadata = Metadata(eventName: string, ref: string, pullRequestNumber: bool, defaultBranch: string, branch: string)

  datatype BlockReason = PullRequestEvent | MissingDefaultBranch | NonDefaultBranch | NoSuites

  /** `ciRunAutoMainPromotionBlock`. */
  function AutoMainBlock(m: Metadata): Option<BlockReason> {
    var ref := Trim(m.ref);
    if m.pullRequestNumber || "pull_request" <= Lower(Trim(m.eventName)) || "refs/pull/" <= ref then Some(PullRequestEvent)
    else if Trim(m.defaultBranch) == "" then Some(MissingDefaultBranch)
    else
      var branch := Trim(m.branch);
      var effective := if branch == "" && "refs/heads/" <= ref then ref[|"refs/heads/"|..] else branch;
      if effective != Trim(m.defaultBranch) then Some(NonDefaultBranch) else None
  }

  /** The metadata shows a build of the default branch and no trace of a pull request. */
  predicate OnDefaultBranch(m: Metadata) {
    && !m.pullRequestNumber && !("refs/pull/" <= Trim(m.ref)) && !("pull_request" <= Lower(Trim(m.eventName)))
    && Trim(m.defaultBranch) != ""
    && (Trim(m.branch) == Trim(m.defaultBranch) || (Trim(m.branch) == "" && Trim(m.ref) == "refs/heads/" + Trim(m.defaultBranch)))
  }

  lemma UnblockedIffDefaultBranch(m: Metadata)
    ensures AutoMainBlock(m).None? <==> OnDefaultBranch(m)
  {
    var ref, prefix := Trim(m.ref), "refs/heads/";
    if prefix <= ref { assert ref == prefix + ref[|prefix|..]; }
    if ref == prefix + Trim(m.defaultBranch) { assert ref[|prefix|..] == Trim(m.defaultBranch); }
  }

  datatype Promotion = NotApplicable | Disabled | Blocked(reason: BlockReason) | ListingFailed | NoFailures | Promoted(summary: Summary)

  /** `promoteCIRunRegressionFailures`; the failure listing is None when it cannot be read. */
  method PromoteFailures(policy: string, verdict: string, metadata: Metadata, suites: seq<string>, failures: Option<seq<Failure>>,
                         listing: nat -> Option<seq<Case>>)
    returns (r: Promotion)
    ensures r.NotApplicable? <==> Trim(policy) == "" || verdict != "fail"
    ensures r.Disabled? <==> verdict == "fail" && Trim(policy) == "disabled"
    ensures r.Blocked? ==>
      if r.reason.NoSuites? then suites == [] else Trim(policy) == "auto_on_main" && !OnDefaultBranch(metadata)
    ensures r.ListingFailed? ==> failures.None?
    ensures r.NoFailures? ==> failures == Some([])
    ensures r.Promoted? <==>
      && verdict == "fail" && Trim(policy) != "" && Trim(policy) != "disabled" && suites != [] && failures.Some? && failures.value != []
      && (Trim(policy) == "auto_on_main" ==> OnDefaultBranch(metadata))
    ensures r.Promoted? ==>
      && fresh(r.summary) && r.summary.Valid() && Accounted(r.summary.log, suites, failures.value, listing)
      && r.summary.status == if Trim(policy) == "auto_on_main" then "active" else "proposed"
  {
    var rule := Trim(policy);
    if rule == "" || verdict != "fail" { return NotApplicable; }
    if rule == "disabled" { return Disabled; }
    var status := "proposed";
    if rule == "auto_on_main" {
      UnblockedIffDefaultBranch(metadata);
      var block := AutoMainBlock(metadata);
      if block.Some? { return Blocked(block.value); }
      status := "active";
    }
    if suites == [] { return Blocked(NoSuites); }
    if failures.None? { return ListingFailed; }
    if failures.value == [] { return NoFailures; }
    var summary := new Summary(status);
    summary.PromoteAll(suites, failures.value, listing);
    r := Promoted(summary);
  }
}
