/** The deployment lineup × seed matrix of `cli/cmd/run_create_helpers.go`. */
module Series {
  import opened Wrappers
  import opened Text

  const MAX_SEEDS := 100
  const MAX_REPETITIONS := 100
  const MAX_ITERATIONS := 1000

  datatype Lineup = Lineup(name: string, deployments: seq<string>)

  datatype Request = Request(
    packVersion: string, seeds: int, deployments: seq<string>, lineups: seq<Lineup>, cadence: int, maxIterations: int,
    suites: seq<string>, cases: seq<string>, officialMode: string, raceContext: bool, mode: string)

  datatype Participant = Participant(deployment: string, title: string)
  datatype Row = Row(key: string, lineup: string, seed: nat, participants: seq<Participant>)
  datatype Body = Body(executionMode: string, repetitions: nat, matrix: seq<Row>)

  datatype Refusal =
    | NoPackVersion | BadSeeds | WithDeployments | NoLineups | TooManyRuns | BadCadence | BadIterations
    | WithRegressions | WithRaceContext | WithMode | EmptyLineup(name: string) | MixedModes(name: string)

  // ---- Lineup names ----

  /** The distinct non-blank values, trimmed, each where it first appears. */
  function Compacted(values: seq<string>): (r: seq<string>) {
    if values == [] then []
    else
      var before, last := Compacted(values[..|values| - 1]), Trim(values[|values| - 1]);
      if last == "" || last in before then before else before + [last]
  }

  predicate Distinct(s: seq<string>) {
    forall i, j | 0 <= i < j < |s| :: s[i] != s[j]
  }

  lemma {:induction false} CompactedIsDistinct(values: seq<string>)
    ensures Distinct(Compacted(values))
    ensures forall x :: x in Compacted(values) <==> x != "" && exists v <- values :: Trim(v) == x
  {
    if values != [] {
      var init, last := values[..|values| - 1], values[|values| - 1];
      CompactedIsDistinct(init);
      assert values == init + [last];
      assert last in values;
      assert forall v <- values :: v in init || v == last;
    }
  }

  /** Values are appended only, so each stands where it first appears. */
  lemma {:induction false} CompactedGrows(values: seq<string>, k: nat)
    requires k <= |values|
    ensures Compacted(values[..k]) <= Compacted(values)
    decreases |values|
  {
    if k < |values| {
      CompactedGrows(values[..|values| - 1], k);
      assert values[..|values| - 1][..k] == values[..k];
    } else {
      assert values[..k] == values;
    }
  }

  /** `compactNonEmptyStrings`. */
  method CompactNonEmptyStrings(values: seq<string>) returns (out: seq<string>)
    ensures out == Compacted(values)
  {
    out := [];
    var seen: set<string> := {};
    for i := 0 to |values|
      invariant out == Compacted(values[..i]) && forall x :: x in seen <==> x in out
    {
      assert values[..i + 1][..i] == values[..i];
      var trimmed := Trim(values[i]);
      if trimmed == "" { continue; }
      if trimmed in seen { continue; }
      seen := seen + {trimmed};
      out := out + [trimmed];
    }
    assert values[..|values|] == values;
  }

  // ---- Rows ----

  function Key(lineup: string, seed: nat): string {
    lineup + ":seed-" + Decimal(seed)
  }

  /** Keys are distinct even when the names themselves contain `:seed-`. */
  lemma KeyIsInjective(a: string, m: nat, b: string, n: nat)
    requires Key(a, m) == Key(b, n)
    ensures a == b && m == n
  {
    var infix := ":seed-";
    NumberedIsInjective(a + infix, m, b + infix, n);
    assert (a + infix)[..|a|] == a && (b + infix)[..|b|] == b;
  }

  /** `seriesParticipantLabel`. */
  function Label(lineup: string, index: nat, total: nat): string {
    var name := if Trim(lineup) == "" then "lineup" else Trim(lineup);
    if total <= 1 then name
    else if index == 0 then name + " / Primary"
    else name + " / Participant " + Decimal(index + 1)
  }

  /** A single participant has the trimmed name, or the word lineup; of several, the first is the primary and the others are numbered from 2. */
  lemma LabelMeans(lineup: string, index: nat, total: nat)
    requires index < total
    ensures var name := if Trim(lineup) != "" then Trim(lineup) else "lineup";
      && (total == 1 ==> Label(lineup, index, total) == name)
      && (total > 1 && index == 0 ==> Label(lineup, index, total) == name + " / Primary")
      && (index > 0 ==> Label(lineup, index, total) == name + " / Participant " + Decimal(index + 1))
  {
  }

  lemma LabelsAreDistinct(lineup: string, i: nat, j: nat, total: nat)
    requires i < j < total
    ensures Label(lineup, i, total) != Label(lineup, j, total)
  {
    var name := if Trim(lineup) == "" then "lineup" else Trim(lineup);
    var prefix := name + " / Participant ";
    if i == 0 {
      assert Label(lineup, i, total)[|name| + 4] == 'r' && Label(lineup, j, total)[|name| + 4] == 'a';
    } else if Label(lineup, i, total) == Label(lineup, j, total) {
      NumberedIsInjective(prefix, i + 1, prefix, j + 1);
    }
  }

  function Participants(l: Lineup): seq<Participant> {
    seq(|l.deployments|, i requires 0 <= i < |l.deployments| => Participant(l.deployments[i], Label(l.name, i, |l.deployments|)))
  }

  function RowOf(l: Lineup, seed: nat): Row {
    Row(Key(l.name, seed), l.name, seed, Participants(l))
  }

  function RowsOf(l: Lineup, seeds: nat): (r: seq<Row>)
    ensures |r| == seeds
  {
    seq(seeds, i requires 0 <= i < seeds => RowOf(l, i + 1))
  }

  /** All seeds of the first lineup, then all of the next. */
  function Matrix(lineups: seq<Lineup>, seeds: nat): (r: seq<Row>)
    ensures |r| == |lineups| * seeds
  {
    if lineups == [] then [] else Matrix(lineups[..|lineups| - 1], seeds) + RowsOf(lineups[|lineups| - 1], seeds)
  }

  /** Row `i * seeds + s` is lineup `i` with seed `s + 1`: each pair once, in lineup-major order. */
  lemma {:induction false} MatrixAt(lineups: seq<Lineup>, seeds: nat, i: nat, s: nat)
    requires i < |lineups| && s < seeds
    ensures 0 <= i * seeds + s < |Matrix(lineups, seeds)|
    ensures Matrix(lineups, seeds)[i * seeds + s] == RowOf(lineups[i], s + 1)
  {
    var n := |lineups|;
    if i < n - 1 {
      MatrixAt(lineups[..n - 1], seeds, i, s);
      assert |Matrix(lineups[..n - 1], seeds)| == (n - 1) * seeds;
    } else {
      assert i * seeds == |Matrix(lineups[..n - 1], seeds)|;
    }
  }

  /** That row names the lineup and the seed, has the key of both, and one participant for each deployment in order. */
  lemma RowMeans(lineups: seq<Lineup>, seeds: nat, i: nat, s: nat)
    requires i < |lineups| && s < seeds
    ensures 0 <= i * seeds + s < |Matrix(lineups, seeds)|
    ensures var row := Matrix(lineups, seeds)[i * seeds + s];
      && row.lineup == lineups[i].name && row.seed == s + 1 && row.key == lineups[i].name + ":seed-" + Decimal(s + 1)
      && |row.participants| == |lineups[i].deployments|
      && forall p | 0 <= p < |row.participants| :: row.participants[p].deployment == lineups[i].deployments[p]
  {
    MatrixAt(lineups, seeds, i, s);
  }

  predicate DistinctNames(lineups: seq<Lineup>) {
    forall i, j | 0 <= i < j < |lineups| :: lineups[i].name != lineups[j].name
  }

  lemma MulGrows(i: nat, n: nat, c: nat)
    requires n <= i
    ensures n * c <= i * c
  {
  }

  /** Every place of the matrix is one lineup and one seed. */
  lemma PlaceOf(lineups: seq<Lineup>, seeds: nat, k: nat) returns (i: nat, s: nat)
    requires k < |Matrix(lineups, seeds)|
    ensures i < |lineups| && s < seeds && k == i * seeds + s
  {
    i, s := 0, k;
    while s >= seeds
      invariant k == i * seeds + s && k < |lineups| * seeds && i < |lineups|
      decreases s
    {
      i, s := i + 1, s - seeds;
      if i >= |lineups| { MulGrows(i, |lineups|, seeds); }
    }
  }

  /** Lineups resolved from a compacted flag value have distinct names. */
  lemma ResolvedNamesAreDistinct(values: seq<string>, lineups: seq<Lineup>)
    requires |lineups| == |Compacted(values)| && forall i | 0 <= i < |lineups| :: lineups[i].name == Compacted(values)[i]
    ensures DistinctNames(lineups)
  {
    CompactedIsDistinct(values);
  }

  /** All keys of a matrix are distinct. */
  lemma KeysAreDistinct(lineups: seq<Lineup>, seeds: nat, j: nat, k: nat)
    requires DistinctNames(lineups) && j < k < |Matrix(lineups, seeds)|
    ensures Matrix(lineups, seeds)[j].key != Matrix(lineups, seeds)[k].key
  {
    var a, s := PlaceOf(lineups, seeds, j);
    var b, t := PlaceOf(lineups, seeds, k);
    MatrixAt(lineups, seeds, a, s);
    MatrixAt(lineups, seeds, b, t);
    if Key(lineups[a].name, s + 1) == Key(lineups[b].name, t + 1) {
      KeyIsInjective(lineups[a].name, s + 1, lineups[b].name, t + 1);
    }
  }

  // ---- The request body ----

  function ModeOf(l: Lineup): string {
    if |l.deployments| > 1 then "comparison" else "single_agent"
  }

  /** The checks before any row is built, in their order. */
  function Preflight(r: Request): Option<Refusal> {
    if r.packVersion == "" then Some(NoPackVersion)
    else if r.seeds < 1 || r.seeds > MAX_SEEDS then Some(BadSeeds)
    else if r.deployments != [] then Some(WithDeployments)
    else if r.lineups == [] then Some(NoLineups)
    else if |r.lineups| * r.seeds > MAX_REPETITIONS then Some(TooManyRuns)
    else if r.cadence != 0 && !(1 <= r.cadence <= 10) then Some(BadCadence)
    else if r.maxIterations < 0 || r.maxIterations > MAX_ITERATIONS then Some(BadIterations)
    else if r.suites != [] || r.cases != [] || r.officialMode == "suite_only" then Some(WithRegressions)
    else if r.raceContext || r.cadence > 0 then Some(WithRaceContext)
    else if r.mode != "" then Some(WithMode)
    else None
  }

  /** No lineup is empty and all have the mode of the first. */
  predicate OneMode(lineups: seq<Lineup>) {
    forall l <- lineups :: l.deployments != [] && ModeOf(l) == ModeOf(lineups[0])
  }

  function Offence(l: Lineup, mode: string): Option<Refusal> {
    if l.deployments == [] then Some(EmptyLineup(l.name)) else if ModeOf(l) != mode then Some(MixedModes(l.name)) else None
  }

  /** Lineup `i` is the first that cannot be built. */
  predicate FirstOffence(lineups: seq<Lineup>, i: nat, refusal: Refusal) {
    && i < |lineups| && Offence(lineups[i], ModeOf(lineups[0])) == Some(refusal)
    && forall k | 0 <= k < i :: Offence(lineups[k], ModeOf(lineups[0])).None?
  }

  /** The inner loop over the seeds. */
  method AppendRows(matrix: seq<Row>, lineup: Lineup, seeds: nat) returns (longer: seq<Row>)
    ensures longer == matrix + RowsOf(lineup, seeds)
  {
    longer := matrix;
    for seed := 1 to seeds + 1
      invariant longer == matrix + RowsOf(lineup, seeds)[..seed - 1]
    {
      longer := longer + [Row(Key(lineup.name, seed), lineup.name, seed, Participants(lineup))];
      assert RowsOf(lineup, seeds)[..seed] == RowsOf(lineup, seeds)[..seed - 1] + [RowOf(lineup, seed)];
    }
  }

  /** The outer loop over the lineups, which refuses the first one that is empty or of another mode. */
  method BuildRows(lineups: seq<Lineup>, seeds: nat) returns (offence: Option<Refusal>, matrix: seq<Row>)
    requires lineups != []
    ensures offence.None? ==> matrix == Matrix(lineups, seeds) && OneMode(lineups)
    ensures offence.Some? ==> !OneMode(lineups) && exists i :: FirstOffence(lineups, i, offence.value)
  {
    offence, matrix := None, [];
    var executionMode := ModeOf(lineups[0]);
    for i := 0 to |lineups|
      invariant matrix == Matrix(lineups[..i], seeds) && offence.None?
      invariant forall k | 0 <= k < i :: Offence(lineups[k], executionMode).None?
    {
      var lineup := lineups[i];
      assert lineups[..i + 1][..i] == lineups[..i];
      if lineup.deployments == [] {
        offence := Some(EmptyLineup(lineup.name));
      } else if ModeOf(lineup) != executionMode {
        offence := Some(MixedModes(lineup.name));
      }
      if offence.Some? {
        assert FirstOffence(lineups, i, offence.value) && lineup in lineups;
        return;
      }
      matrix := AppendRows(matrix, lineup, seeds);
    }
    assert lineups[..|lineups|] == lineups;
  }

  /** The request can be built: every field is in its range, nothing is combined that excludes another, and all lineups are of one kind. */
  predicate Buildable(r: Request) {
    && r.packVersion != "" && 1 <= r.seeds <= 100 && r.lineups != [] && |r.lineups| * r.seeds <= 100
    && r.deployments == [] && r.suites == [] && r.cases == [] && r.officialMode != "suite_only"
    && !r.raceContext && r.cadence == 0 && r.mode == "" && 0 <= r.maxIterations <= 1000
    && ((forall l <- r.lineups :: |l.deployments| == 1) || (forall l <- r.lineups :: |l.deployments| > 1))
  }

  lemma BuildableMeans(r: Request)
    ensures Buildable(r) <==> Preflight(r).None? && OneMode(r.lineups)
    ensures Buildable(r) ==> ModeOf(r.lineups[0]) == if forall l <- r.lineups :: |l.deployments| > 1 then "comparison" else "single_agent"
  {
    assert "comparison"[0] != "single_agent"[0];
    if r.lineups != [] {
      assert r.lineups[0] in r.lineups;
      assert OneMode(r.lineups) ==> forall l <- r.lineups :: |l.deployments| >= 1 && (|l.deployments| > 1 <==> |r.lineups[0].deployments| > 1);
    }
  }

  /** The refusal is true of the request. */
  predicate Excuses(r: Request, e: Refusal) {
    match e
    case NoPackVersion => r.packVersion == ""
    case BadSeeds => !(1 <= r.seeds <= 100)
    case WithDeployments => r.deployments != []
    case NoLineups => r.lineups == []
    case TooManyRuns => |r.lineups| * r.seeds > 100
    case BadCadence => r.cadence < 0 || r.cadence > 10
    case BadIterations => !(0 <= r.maxIterations <= 1000)
    case WithRegressions => r.suites != [] || r.cases != [] || r.officialMode == "suite_only"
    case WithRaceContext => r.raceContext || r.cadence != 0
    case WithMode => r.mode != ""
    case EmptyLineup(name) => exists l <- r.lineups :: l.name == name && l.deployments == []
    case MixedModes(name) => exists l <- r.lineups, k <- r.lineups :: l.name == name && (|l.deployments| > 1) != (|k.deployments| > 1)
  }

  lemma RefusalExcuses(r: Request, e: Refusal)
    requires Preflight(r) == Some(e) || (r.lineups != [] && exists i :: FirstOffence(r.lineups, i, e))
    ensures Excuses(r, e)
  {
    if Preflight(r) != Some(e) {
      var i: nat :| FirstOffence(r.lineups, i, e);
      assert r.lineups[i] in r.lineups && r.lineups[0] in r.lineups;
    }
  }

  /** `buildSeriesEvalSessionBody`. */
  method BuildSeriesBody(r: Request) returns (body: Result<Body, Refusal>)
    ensures body.Ok? <==> Buildable(r)
    ensures body.Ok? ==>
      && body.value.matrix == Matrix(r.lineups, r.seeds) && body.value.repetitions == |r.lineups| * r.seeds == |body.value.matrix|
      && 1 <= |body.value.matrix| <= 100
      && body.value.executionMode == if forall l <- r.lineups :: |l.deployments| > 1 then "comparison" else "single_agent"
    ensures body.Err? ==> Excuses(r, body.error)
    ensures body.Err? && Preflight(r).Some? ==> body.error == Preflight(r).value
    ensures body.Err? && Preflight(r).None? ==> exists i :: FirstOffence(r.lineups, i, body.error)
  {
    BuildableMeans(r);
    var refusal := Preflight(r);
    if refusal.Some? { RefusalExcuses(r, refusal.value); }
    if refusal.Some? { return Err(refusal.value); }
    var offence, matrix := BuildRows(r.lineups, r.seeds);
    if offence.Some? {
      RefusalExcuses(r, offence.value);
      return Err(offence.value);
    }
    body := Ok(Body(ModeOf(r.lineups[0]), |r.lineups| * r.seeds, matrix));
  }
}
