/** Claims, computes and input changes of the report cache, interleaved freely. */
module ReportProtocol {
  import opened Options
  import opened Reports

  /** How often a compute reads its inputs: the shared root, the two sides and the root scheme. */
  const LOADS := 4

  /** A compute in flight; `superseded` records that its row was claimed under another digest since it started. */
  datatype Compute = Compute(key: nat, expected: nat, read: seq<nat>, superseded: bool)

  /** A claim that has taken the digest of its key and not yet locked the row. */
  datatype Claiming = Claiming(key: nat, digest: nat)

  /** Digest of the current inputs per key, the report rows, the computes in flight and the claims under way. */
  datatype World = World(
    inputs: map<nat, nat>, reports: map<nat, Report>, runs: map<nat, Compute>, claims: map<nat, Claiming>
  )

  function InputsOf(w: World, key: nat): nat {
    if key in w.inputs then w.inputs[key] else 0
  }

  datatype Event =
    | InputsChanged(key: nat, digest: nat)
    | TakeDigest(caller: nat, key: nat)
    | ClaimReport(caller: nat, beating: bool)
    | Start(run: nat, key: nat)
    | Progress(run: nat)
    | Load(run: nat)
    | Finish(run: nat)
    | Break(run: nat)
    | Vanish(run: nat)

  /** The computes a claim leaves behind. */
  function Supersede(runs: map<nat, Compute>, key: nat, digest: nat): map<nat, Compute> {
    map r | r in runs ::
      if runs[r].key == key && runs[r].expected != digest then runs[r].(superseded := true) else runs[r]
  }

  /** Lock the row and apply the digest taken before, which may be an older one by now. */
  function StepClaim(w: World, caller: nat, beating: bool): World {
    if caller !in w.claims then w
    else
      var Claiming(key, digest) := w.claims[caller];
      var row := if key in w.reports then Claimed(w.reports[key], digest, beating) else NewReport(digest);
      World(w.inputs, w.reports[key := row], Supersede(w.runs, key, row.fingerprint), w.claims - {caller})
  }

  function StepRun(w: World, e: Event): World
    requires e.Progress? || e.Load? || e.Finish? || e.Break? || e.Vanish?
  {
    if e.run !in w.runs then w
    else
      var run := w.runs[e.run];
      var gone := w.runs - {e.run};
      if run.key !in w.reports then w
      else
        var row := w.reports[run.key];
        match e
        case Progress(_) => w.(reports := w.reports[run.key := Progressed(row)])
        case Load(_) =>
          if |run.read| < LOADS then w.(runs := w.runs[e.run := run.(read := run.read + [InputsOf(w, run.key)])]) else w
        case Finish(_) =>
          if |run.read| < LOADS then w
          else if row.fingerprint == run.expected
          then w.(reports := w.reports[run.key := MadeReady(row, Payload(e.run, run.expected, run.read))], runs := gone)
          else w.(runs := gone)
        case Break(_) =>
          if row.fingerprint == run.expected then w.(reports := w.reports[run.key := MadeFailed(row)], runs := gone)
          else w.(runs := gone)
        case _ => w.(runs := gone)
  }

  function Step(w: World, e: Event): World {
    match e
    case InputsChanged(key, digest) => w.(inputs := w.inputs[key := digest])
    case TakeDigest(caller, key) => w.(claims := w.claims[caller := Claiming(key, InputsOf(w, key))])
    case ClaimReport(caller, beating) => StepClaim(w, caller, beating)
    case Start(run, key) =>
      if run in w.runs || key !in w.reports then w
      else w.(reports := w.reports[key := Progressed(w.reports[key])],
              runs := w.runs[run := Compute(key, w.reports[key].fingerprint, [], false)])
    case _ => StepRun(w, e)
  }

  function Run(w: World, es: seq<Event>): World {
    if es == [] then w else Step(Run(w, es[..|es| - 1]), es[|es| - 1])
  }

  function Fresh(): World {
    World(map[], map[], map[], map[])
  }

  // ----- a stored payload belongs to the digest its row carries -----

  predicate RowFits(row: Report) {
    (row.status == Ready ==> row.payload.Some?) && (row.payload.Some? ==> row.payload.value.expected == row.fingerprint)
  }

  ghost predicate RowsFit(w: World) {
    forall key :: key in w.reports ==> RowFits(w.reports[key])
  }

  lemma StepFits(w: World, e: Event)
    requires RowsFit(w)
    ensures RowsFit(Step(w, e))
  {
  }

  /**
   * Over all interleavings a ready report holds a payload, and that payload was made by a compute that
   * started under the very digest the row carries.
   */
  lemma {:induction false} ReadyMatchesItsRun(es: seq<Event>)
    ensures RowsFit(Run(Fresh(), es))
  {
    if es != [] {
      ReadyMatchesItsRun(es[..|es| - 1]);
      StepFits(Run(Fresh(), es[..|es| - 1]), es[|es| - 1]);
    }
  }

  // ----- superseded computes -----

  /** The step stores a payload or a failure for this compute. */
  predicate Writes(w: World, e: Event, run: nat) {
    && (e == Finish(run) || e == Break(run))
    && run in w.runs && w.runs[run].key in w.reports
    && (e == Finish(run) ==> |w.runs[run].read| >= LOADS)
    && w.reports[w.runs[run].key].fingerprint == w.runs[run].expected
  }

  /** Digests only grow, as modification times do. */
  ghost predicate Growing(es: seq<Event>) {
    es == [] || (
      && Growing(es[..|es| - 1])
      && var e := es[|es| - 1];
         e.InputsChanged? ==> e.digest > InputsOf(Run(Fresh(), es[..|es| - 1]), e.key))
  }

  /** The claim applies a digest older than the one its row already carries. */
  predicate Overtaken(w: World, e: Event) {
    && e.ClaimReport? && e.caller in w.claims
    && w.claims[e.caller].key in w.reports && w.claims[e.caller].digest < w.reports[w.claims[e.caller].key].fingerprint
  }

  /** Claims lock their rows in the order of their digests. */
  ghost predicate InTurn(es: seq<Event>) {
    es == [] || (InTurn(es[..|es| - 1]) && !Overtaken(Run(Fresh(), es[..|es| - 1]), es[|es| - 1]))
  }

  /** Everything a compute read is at least as new as the digest it started under. */
  predicate ComputeFits(w: World, run: Compute) {
    && run.key in w.reports && run.expected <= InputsOf(w, run.key)
    && forall v :: v in run.read ==> run.expected <= v <= InputsOf(w, run.key)
  }

  predicate ReadFits(w: World, key: nat, row: Report) {
    && row.fingerprint <= InputsOf(w, key)
    && (row.payload.Some? ==>
          |row.payload.value.read| >= LOADS
          && forall v :: v in row.payload.value.read ==> row.payload.value.expected <= v <= InputsOf(w, key))
  }

  /** No row, no compute and no claim is ahead of the inputs. */
  ghost predicate Behind(w: World) {
    && (forall key :: key in w.reports ==> ReadFits(w, key, w.reports[key]))
    && (forall r :: r in w.runs ==> ComputeFits(w, w.runs[r]))
    && (forall c :: c in w.claims ==> w.claims[c].digest <= InputsOf(w, w.claims[c].key))
  }

  lemma InputsBehind(w: World, key: nat, digest: nat)
    requires Behind(w) && digest > InputsOf(w, key)
    ensures Behind(Step(w, InputsChanged(key, digest)))
  {
    var w' := Step(w, InputsChanged(key, digest));
    assert forall k :: InputsOf(w', k) >= InputsOf(w, k);
    forall r | r in w'.runs ensures ComputeFits(w', w'.runs[r]) {
      assert ComputeFits(w, w.runs[r]);
    }
    forall k | k in w'.reports ensures ReadFits(w', k, w'.reports[k]) {
      assert ReadFits(w, k, w.reports[k]);
    }
  }

  lemma ClaimBehind(w: World, caller: nat, beating: bool)
    requires Behind(w)
    ensures Behind(StepClaim(w, caller, beating))
  {
    var w' := StepClaim(w, caller, beating);
    assert forall k :: InputsOf(w', k) == InputsOf(w, k);
    forall r | r in w'.runs ensures ComputeFits(w', w'.runs[r]) {
      assert ComputeFits(w, w.runs[r]);
    }
    forall k | k in w'.reports ensures ReadFits(w', k, w'.reports[k]) {
      assert k in w.reports ==> ReadFits(w, k, w.reports[k]);
    }
  }

  lemma StartBehind(w: World, run: nat, key: nat)
    requires Behind(w)
    ensures Behind(Step(w, Start(run, key)))
  {
    var w' := Step(w, Start(run, key));
    assert forall k :: InputsOf(w', k) == InputsOf(w, k);
    forall r | r in w'.runs ensures ComputeFits(w', w'.runs[r]) {
      assert r in w.runs ==> ComputeFits(w, w.runs[r]);
    }
    forall k | k in w'.reports ensures ReadFits(w', k, w'.reports[k]) {
      assert ReadFits(w, k, w.reports[k]);
    }
  }

  predicate IsRunStep(e: Event) {
    e.Progress? || e.Load? || e.Finish? || e.Break? || e.Vanish?
  }

  lemma RunKeepsRest(w: World, e: Event)
    requires IsRunStep(e)
    ensures StepRun(w, e).reports.Keys == w.reports.Keys
    ensures StepRun(w, e).claims == w.claims && StepRun(w, e).inputs == w.inputs
  {
  }

  /** A compute's own steps leave every digest alone. */
  lemma RunKeepsDigest(w: World, e: Event, key: nat)
    requires IsRunStep(e) && key in w.reports
    ensures key in StepRun(w, e).reports && StepRun(w, e).reports[key].fingerprint == w.reports[key].fingerprint
  {
  }

  lemma RunKeepsCompute(w: World, e: Event, r: nat)
    requires IsRunStep(e) && r in StepRun(w, e).runs
    ensures r in w.runs && StepRun(w, e).runs[r] == w.runs[r].(read := StepRun(w, e).runs[r].read)
  {
  }

  /** Of a compute's own steps only a guarded end stores a payload, its own. */
  lemma RunStores(w: World, e: Event, key: nat)
    requires IsRunStep(e) && key in w.reports
    ensures var row, row' := w.reports[key], StepRun(w, e).reports[key];
            row'.payload == row.payload
            || (e.run in w.runs && w.runs[e.run].key == key && |w.runs[e.run].read| >= LOADS
                && row'.payload == Some(Payload(e.run, w.runs[e.run].expected, w.runs[e.run].read)))
  {
  }

  lemma RunReadsFit(w: World, e: Event, key: nat)
    requires Behind(w) && IsRunStep(e) && key in StepRun(w, e).reports
    ensures ReadFits(StepRun(w, e), key, StepRun(w, e).reports[key])
  {
    RunKeepsRest(w, e);
    RunKeepsDigest(w, e, key);
    RunStores(w, e, key);
    assert ReadFits(w, key, w.reports[key]);
    if e.run in w.runs {
      assert ComputeFits(w, w.runs[e.run]);
    }
  }

  lemma RunComputeFits(w: World, e: Event, r: nat)
    requires Behind(w) && IsRunStep(e) && r in StepRun(w, e).runs
    ensures ComputeFits(StepRun(w, e), StepRun(w, e).runs[r])
  {
    RunKeepsCompute(w, e, r);
    assert ComputeFits(w, w.runs[r]);
    RunKeepsRest(w, e);
    RunReads(w, e, r);
  }

  lemma RunReads(w: World, e: Event, r: nat)
    requires IsRunStep(e) && r in StepRun(w, e).runs && r in w.runs
    ensures var read := StepRun(w, e).runs[r].read;
            read == w.runs[r].read || read == w.runs[r].read + [InputsOf(w, w.runs[r].key)]
  {
  }

  lemma RunBehind(w: World, e: Event)
    requires Behind(w) && IsRunStep(e)
    ensures Behind(StepRun(w, e))
  {
    var w' := StepRun(w, e);
    RunKeepsRest(w, e);
    forall key | key in w'.reports ensures ReadFits(w', key, w'.reports[key]) {
      RunReadsFit(w, e, key);
    }
    forall r | r in w'.runs ensures ComputeFits(w', w'.runs[r]) {
      RunComputeFits(w, e, r);
    }
  }

  lemma {:induction false} GrowingBehind(es: seq<Event>)
    requires Growing(es)
    ensures Behind(Run(Fresh(), es))
  {
    if es != [] {
      var init, e := es[..|es| - 1], es[|es| - 1];
      GrowingBehind(init);
      var w := Run(Fresh(), init);
      match e
      case InputsChanged(key, digest) => InputsBehind(w, key, digest);
      case TakeDigest(caller, key) => TakeBehind(w, caller, key);
      case ClaimReport(caller, beating) => ClaimBehind(w, caller, beating);
      case Start(run, key) => StartBehind(w, run, key);
      case _ => RunBehind(w, e);
    }
  }

  lemma TakeBehind(w: World, caller: nat, key: nat)
    requires Behind(w)
    ensures Behind(Step(w, TakeDigest(caller, key)))
  {
    var w' := Step(w, TakeDigest(caller, key));
    assert forall k :: InputsOf(w', k) == InputsOf(w, k);
    forall r | r in w'.runs ensures ComputeFits(w', w'.runs[r]) {
      assert ComputeFits(w, w.runs[r]);
    }
    forall k | k in w'.reports ensures ReadFits(w', k, w'.reports[k]) {
      assert ReadFits(w, k, w.reports[k]);
    }
  }

  /**
   * While digests only grow, a ready report whose digest is current was computed from the current inputs
   * alone, however late a claim applies the digest it took.
   */
  lemma CurrentReportIsCurrent(es: seq<Event>, key: nat)
    requires Growing(es)
    requires var w := Run(Fresh(), es);
             key in w.reports && w.reports[key].status == Ready && w.reports[key].fingerprint == InputsOf(w, key)
    ensures var w := Run(Fresh(), es);
            && w.reports[key].payload.Some? && |w.reports[key].payload.value.read| >= LOADS
            && forall v :: v in w.reports[key].payload.value.read ==> v == InputsOf(w, key)
  {
    GrowingBehind(es);
    ReadyMatchesItsRun(es);
    var w := Run(Fresh(), es);
    assert RowFits(w.reports[key]) && ReadFits(w, key, w.reports[key]);
  }

  /** No compute is ahead of its row, and a superseded one is behind it. */
  ghost predicate RunsOrdered(w: World) {
    forall r :: r in w.runs ==>
      && w.runs[r].key in w.reports && w.runs[r].expected <= w.reports[w.runs[r].key].fingerprint
      && (w.runs[r].superseded ==> w.runs[r].expected < w.reports[w.runs[r].key].fingerprint)
  }

  lemma ClaimOrdered(w: World, caller: nat, beating: bool)
    requires RunsOrdered(w) && !Overtaken(w, ClaimReport(caller, beating))
    ensures RunsOrdered(StepClaim(w, caller, beating))
  {
  }

  lemma RunOrdered(w: World, e: Event)
    requires RunsOrdered(w) && IsRunStep(e)
    ensures RunsOrdered(StepRun(w, e))
  {
    forall r | r in StepRun(w, e).runs
      ensures r in w.runs && StepRun(w, e).runs[r] == w.runs[r].(read := StepRun(w, e).runs[r].read)
    {
      RunKeepsCompute(w, e, r);
    }
    forall key | key in w.reports
      ensures key in StepRun(w, e).reports && StepRun(w, e).reports[key].fingerprint == w.reports[key].fingerprint
    {
      RunKeepsDigest(w, e, key);
    }
  }

  lemma StartOrdered(w: World, run: nat, key: nat)
    requires RunsOrdered(w)
    ensures RunsOrdered(Step(w, Start(run, key)))
  {
  }

  lemma StepOrdered(w: World, e: Event)
    requires RunsOrdered(w) && !Overtaken(w, e)
    ensures RunsOrdered(Step(w, e))
  {
    match e
    case InputsChanged(_, _) =>
    case TakeDigest(_, _) =>
    case ClaimReport(caller, beating) => ClaimOrdered(w, caller, beating);
    case Start(run, key) => StartOrdered(w, run, key);
    case _ => RunOrdered(w, e);
  }

  lemma {:induction false} InTurnOrdered(es: seq<Event>)
    requires InTurn(es)
    ensures RunsOrdered(Run(Fresh(), es))
  {
    if es != [] {
      InTurnOrdered(es[..|es| - 1]);
      StepOrdered(Run(Fresh(), es[..|es| - 1]), es[|es| - 1]);
    }
  }

  /** While claims lock their rows in the order of their digests, a compute whose row was claimed under another one never writes. */
  lemma SupersededNeverWrites(es: seq<Event>, e: Event, run: nat)
    requires InTurn(es) && run in Run(Fresh(), es).runs && Run(Fresh(), es).runs[run].superseded
    ensures !Writes(Run(Fresh(), es), e, run)
  {
    InTurnOrdered(es);
  }

  // ----- where superseded computes write -----

  /** A chain of single steps is a run. */
  lemma {:induction false} ChainRuns(ws: seq<World>, es: seq<Event>)
    requires |ws| == |es| + 1 && forall i, j :: 0 <= i < |es| && j == i + 1 ==> Step(ws[i], es[i]) == ws[j]
    ensures Run(ws[0], es) == ws[|es|]
  {
    if es != [] {
      var n := |es| - 1;
      ChainRuns(ws[..n + 1], es[..n]);
      assert Step(ws[n], es[n]) == ws[n + 1];
    }
  }

  lemma {:induction false} RunAppend(w: World, xs: seq<Event>, ys: seq<Event>)
    ensures Run(w, xs + ys) == Run(Run(w, xs), ys)
  {
    if ys == [] {
      assert xs + ys == xs;
    } else {
      RunAppend(w, xs, ys[..|ys| - 1]);
      assert (xs + ys)[..|xs + ys| - 1] == xs + ys[..|ys| - 1];
    }
  }

  lemma {:induction false} GrowingAppend(xs: seq<Event>, ys: seq<Event>)
    requires Growing(xs) && forall e :: e in ys ==> !e.InputsChanged?
    ensures Growing(xs + ys)
  {
    if ys == [] {
      assert xs + ys == xs;
    } else {
      GrowingAppend(xs, ys[..|ys| - 1]);
      assert (xs + ys)[..|xs + ys| - 1] == xs + ys[..|ys| - 1];
    }
  }

  lemma GrowingChange(es: seq<Event>, key: nat, digest: nat)
    requires Growing(es) && digest > InputsOf(Run(Fresh(), es), key)
    ensures Growing(es + [InputsChanged(key, digest)])
  {
    assert (es + [InputsChanged(key, digest)])[..|es|] == es;
  }

  function ByKey(digest: nat, row: Report, runs: map<nat, Compute>, claims: map<nat, Claiming>): World {
    World(map[0 := digest], map[0 := row], runs, claims)
  }

  function InFlight(read: seq<nat>, superseded: bool): map<nat, Compute> {
    map[7 := Compute(0, 1, read, superseded)]
  }

  function Holds(caller: nat, digest: nat): map<nat, Claiming> {
    map[caller := Claiming(0, digest)]
  }

  /** The first claim, and the compute it starts; caller 2 takes the digest too and stalls. */
  function Opening(): seq<Event> {
    [InputsChanged(0, 1), TakeDigest(1, 0), ClaimReport(1, false), Start(7, 0), TakeDigest(2, 0)]
  }

  function Opened(): World {
    ByKey(1, Progressed(NewReport(1)), InFlight([], false), Holds(2, 1))
  }

  /** The inputs change, and a claim under their new digest supersedes the compute. */
  function Superseding(): seq<Event> {
    [InputsChanged(0, 2), TakeDigest(1, 0), ClaimReport(1, false)]
  }

  function Superseded(read: seq<nat>): World {
    ByKey(2, NewReport(2), InFlight(read, true), Holds(2, 1))
  }

  lemma OpeningSteps()
    ensures Step(Fresh(), InputsChanged(0, 1)) == World(map[0 := 1], map[], map[], map[])
    ensures Step(World(map[0 := 1], map[], map[], map[]), TakeDigest(1, 0)) == World(map[0 := 1], map[], map[], Holds(1, 1))
    ensures Step(World(map[0 := 1], map[], map[], Holds(1, 1)), ClaimReport(1, false)) == ByKey(1, NewReport(1), map[], map[])
    ensures Step(ByKey(1, NewReport(1), map[], map[]), Start(7, 0)) == ByKey(1, Progressed(NewReport(1)), InFlight([], false), map[])
    ensures Step(ByKey(1, Progressed(NewReport(1)), InFlight([], false), map[]), TakeDigest(2, 0)) == Opened()
  {
  }

  lemma OpeningRuns()
    ensures Run(Fresh(), Opening()) == Opened()
  {
    OpeningSteps();
    ChainRuns([Fresh(), World(map[0 := 1], map[], map[], map[]), World(map[0 := 1], map[], map[], Holds(1, 1)),
               ByKey(1, NewReport(1), map[], map[]), ByKey(1, Progressed(NewReport(1)), InFlight([], false), map[]), Opened()],
              Opening());
  }

  lemma SupersedingSteps(changed: World, taken: World)
    requires changed == ByKey(2, Progressed(NewReport(1)), InFlight([], false), Holds(2, 1))
    requires taken == changed.(claims := map[2 := Claiming(0, 1), 1 := Claiming(0, 2)])
    ensures Step(Opened(), InputsChanged(0, 2)) == changed
    ensures Step(changed, TakeDigest(1, 0)) == taken
  {
  }

  lemma SupersedingClaim(taken: World)
    requires taken == ByKey(2, Progressed(NewReport(1)), InFlight([], false), map[2 := Claiming(0, 1), 1 := Claiming(0, 2)])
    ensures Step(taken, ClaimReport(1, false)) == Superseded([])
  {
    assert Supersede(InFlight([], false), 0, 2) == InFlight([], true);
    assert taken.claims - {1} == Holds(2, 1);
  }

  lemma SupersedingRuns()
    ensures Run(Opened(), Superseding()) == Superseded([])
  {
    var changed := ByKey(2, Progressed(NewReport(1)), InFlight([], false), Holds(2, 1));
    var taken := changed.(claims := map[2 := Claiming(0, 1), 1 := Claiming(0, 2)]);
    SupersedingSteps(changed, taken);
    SupersedingClaim(taken);
    ChainRuns([Opened(), changed, taken, Superseded([])], Superseding());
  }

  // ----- a claim that comes late -----

  /** The stalled caller locks the row at last and applies the digest it took before. */
  function LateClaim(): seq<Event> {
    Opening() + Superseding() + [ClaimReport(2, false)]
  }

  lemma LateSteps()
    ensures Step(Superseded([]), ClaimReport(2, false)) == ByKey(2, NewReport(1), InFlight([], true), map[])
  {
    assert Supersede(InFlight([], true), 0, 1) == InFlight([], true);
    assert Holds(2, 1) - {2} == map[];
  }

  lemma LateRuns()
    ensures Run(Fresh(), LateClaim()) == ByKey(2, NewReport(1), InFlight([], true), map[])
  {
    OpeningRuns();
    SupersedingRuns();
    LateSteps();
    RunAppend(Fresh(), Opening(), Superseding());
    RunAppend(Fresh(), Opening() + Superseding(), [ClaimReport(2, false)]);
    ChainRuns([Superseded([]), ByKey(2, NewReport(1), InFlight([], true), map[])], [ClaimReport(2, false)]);
  }

  lemma GrowingPart(es: seq<Event>, key: nat, digest: nat, tail: seq<Event>, whole: seq<Event>)
    requires Growing(es) && digest > InputsOf(Run(Fresh(), es), key)
    requires (forall e :: e in tail ==> !e.InputsChanged?) && whole == es + [InputsChanged(key, digest)] + tail
    ensures Growing(whole)
  {
    GrowingChange(es, key, digest);
    GrowingAppend(es + [InputsChanged(key, digest)], tail);
  }

  lemma OpeningGrows()
    ensures Growing(Opening())
  {
    GrowingPart([], 0, 1, [TakeDigest(1, 0), ClaimReport(1, false), Start(7, 0), TakeDigest(2, 0)], Opening());
  }

  lemma SupersedingGrows(es: seq<Event>)
    requires Growing(es) && Run(Fresh(), es) == Opened()
    ensures Growing(es + Superseding())
  {
    var tail := [TakeDigest(1, 0), ClaimReport(1, false)];
    assert es + Superseding() == es + [InputsChanged(0, 2)] + tail;
    GrowingPart(es, 0, 2, tail, es + Superseding());
  }

  /**
   * The digest is taken before the row is locked, so a claim can set a row back: though digests only
   * grow, a superseded compute then writes. What it writes carries a digest that is not current.
   */
  lemma LateClaimLetsSupersededWrite()
    ensures var w := Run(Fresh(), LateClaim());
            && 7 in w.runs && w.runs[7].superseded && Writes(w, Break(7), 7)
            && 0 in w.reports && w.reports[0].fingerprint < InputsOf(w, 0)
    ensures Growing(LateClaim()) && !InTurn(LateClaim())
  {
    LateRuns();
    OpeningGrows();
    OpeningRuns();
    SupersedingGrows(Opening());
    GrowingAppend(Opening() + Superseding(), [ClaimReport(2, false)]);
    if InTurn(LateClaim()) {
      SupersededNeverWrites(LateClaim(), Break(7), 7);
    }
  }

  // ----- a digest that comes back -----

  function Loading(): seq<Event> {
    [Load(7), Load(7), Load(7), Load(7)]
  }

  /** The inputs change back while the superseded compute is in flight, and a claim is made under the old digest. */
  function Returning(): seq<Event> {
    [InputsChanged(0, 1), TakeDigest(2, 0), ClaimReport(2, false)]
  }

  function ReturnTrip(): seq<Event> {
    Opening() + Superseding() + Loading() + Returning()
  }

  lemma LoadStep(read: seq<nat>)
    requires |read| < LOADS
    ensures Step(Superseded(read), Load(7)) == Superseded(read + [2])
  {
  }

  lemma LoadingRuns()
    ensures Run(Superseded([]), Loading()) == Superseded([2, 2, 2, 2])
  {
    LoadStep([]);
    LoadStep([2]);
    LoadStep([2, 2]);
    LoadStep([2, 2, 2]);
    assert [] + [2] == [2] && [2] + [2] == [2, 2] && [2, 2] + [2] == [2, 2, 2] && [2, 2, 2] + [2] == [2, 2, 2, 2];
    ChainRuns([Superseded([]), Superseded([2]), Superseded([2, 2]), Superseded([2, 2, 2]), Superseded([2, 2, 2, 2])], Loading());
  }

  lemma ReturningSteps(read: seq<nat>)
    ensures Step(Superseded(read), InputsChanged(0, 1)) == ByKey(1, NewReport(2), InFlight(read, true), Holds(2, 1))
    ensures Step(ByKey(1, NewReport(2), InFlight(read, true), Holds(2, 1)), TakeDigest(2, 0))
            == ByKey(1, NewReport(2), InFlight(read, true), Holds(2, 1))
    ensures Step(ByKey(1, NewReport(2), InFlight(read, true), Holds(2, 1)), ClaimReport(2, false))
            == ByKey(1, NewReport(1), InFlight(read, true), map[])
  {
    assert Supersede(InFlight(read, true), 0, 1) == InFlight(read, true);
    assert Holds(2, 1) - {2} == map[];
  }

  lemma ReturningRuns(read: seq<nat>)
    ensures Run(Superseded(read), Returning()) == ByKey(1, NewReport(1), InFlight(read, true), map[])
  {
    ReturningSteps(read);
    var back := ByKey(1, NewReport(2), InFlight(read, true), Holds(2, 1));
    ChainRuns([Superseded(read), back, back, ByKey(1, NewReport(1), InFlight(read, true), map[])], Returning());
  }

  lemma TripRuns()
    ensures Run(Fresh(), ReturnTrip()) == ByKey(1, NewReport(1), InFlight([2, 2, 2, 2], true), map[])
  {
    OpeningRuns();
    SupersedingRuns();
    LoadingRuns();
    ReturningRuns([2, 2, 2, 2]);
    RunAppend(Fresh(), Opening(), Superseding());
    RunAppend(Fresh(), Opening() + Superseding(), Loading());
    RunAppend(Fresh(), Opening() + Superseding() + Loading(), Returning());
  }

  /** A current report computed from other inputs takes a digest that came back. */
  lemma OtherReadsMeanReturn(es: seq<Event>, key: nat, read: nat)
    requires var w := Run(Fresh(), es);
             && key in w.reports && w.reports[key].status == Ready && w.reports[key].fingerprint == InputsOf(w, key)
             && w.reports[key].payload.Some? && read in w.reports[key].payload.value.read && read != InputsOf(w, key)
    ensures !Growing(es)
  {
    if Growing(es) {
      CurrentReportIsCurrent(es, key);
    }
  }

  /**
   * When a digest recurs the guard no longer tells an old compute from a new one: a superseded compute
   * makes the report ready under the current digest, with inputs read while the other one held.
   */
  lemma ReturningDigestLetsSupersededWrite()
    ensures var w := Run(Fresh(), ReturnTrip());
            && 7 in w.runs && w.runs[7].superseded && Writes(w, Finish(7), 7)
            && var row := Step(w, Finish(7)).reports[0];
               && row.status == Ready && row.fingerprint == InputsOf(w, 0) == 1
               && row.payload == Some(Payload(7, 1, [2, 2, 2, 2]))
    ensures !InTurn(ReturnTrip()) && !Growing(ReturnTrip())
  {
    TripRuns();
    var es := ReturnTrip();
    if InTurn(es) {
      SupersededNeverWrites(es, Finish(7), 7);
    }
    var all := es + [Finish(7)];
    assert all[..|es|] == es && Run(Fresh(), all) == Step(Run(Fresh(), es), Finish(7));
    OtherReadsMeanReturn(all, 0, 2);
  }
}
