/**
 * The development supervisor: watch, debounce, rebuild, validate and swap generations of the
 * application. A generation's task runs beside the loop, and files may change at any moment, so
 * what the loop reads is chosen by the environment.
 */
module DevLoop {
  import opened Wrappers

  datatype Generation = Running | Exited | Stopped | Aborted

  datatype Phase =
    | Head           // top of the loop: a rebuild if one is requested
    | Building
    | Validating
    | Swapping       // built and validated: stop the old generation, then start the new one
    | Sleeping
    | Draining       // out of the loop
    | Ended(ok: bool)

  /** `attempted` is history: the fingerprint that the last load attempt acted on. */
  datatype State = State(
    phase: Phase,
    previous: nat,
    pendingSince: Option<int>,
    rebuild: bool,
    generations: seq<Generation>,
    current: Option<nat>,
    cancelled: bool,
    attempted: nat)

  datatype Event =
    | Cancel
    | Exit(g: nat)                                     // a generation's task ends by itself
    | Load(ok: bool, fingerprint: Option<nat>)         // the manifest, then the fingerprint before the build
    | Skip                                             // no rebuild requested
    | Build(ok: bool)
    | Validate(ok: bool)
    | Swap
    | Break                                            // cancellation wins the wait
    | Wake(now: int, fingerprint: Option<nat>)         // the sleep wins the wait; None: the watch failed
    | Drain

  const DEBOUNCE_MS := 200

  /** After the manifest was first loaded and fingerprinted. */
  function Start(fingerprint: nat): State {
    State(Head, fingerprint, None, true, [], None, false, fingerprint)
  }

  predicate Enabled(s: State, e: Event) {
    match e
    case Cancel => true
    case Exit(g) => g < |s.generations| && s.generations[g].Running?
    case Load(_, _) => s.phase.Head? && s.rebuild
    case Skip => s.phase.Head? && !s.rebuild
    case Build(_) => s.phase.Building?
    case Validate(_) => s.phase.Validating?
    case Swap => s.phase.Swapping?
    case Break => s.phase.Sleeping? && s.cancelled
    case Wake(_, _) => s.phase.Sleeping?
    case Drain => s.phase.Draining?
  }

  /** The current generation, if any, ends as `how` unless its task has ended already. */
  function EndCurrent(s: State, how: Generation): State {
    if s.current.None? || s.current.value >= |s.generations| then s.(current := None)
    else
      var g := s.current.value;
      s.(current := None, generations := if s.generations[g].Running? then s.generations[g := how] else s.generations)
  }

  function Watched(s: State, now: int, fingerprint: Option<nat>): State {
    if fingerprint.None? then s
    else if fingerprint.value != s.previous then s.(previous := fingerprint.value, pendingSince := Some(now))
    else if s.pendingSince.Some? && now - s.pendingSince.value >= DEBOUNCE_MS then s.(pendingSince := None, rebuild := true)
    else s
  }

  function Next(s: State, e: Event): State
    requires Enabled(s, e)
  {
    match e
    case Cancel => s.(cancelled := true)
    case Exit(g) => s.(generations := s.generations[g := Exited])
    case Skip => s.(phase := Sleeping)
    case Load(ok, fingerprint) =>
      var tried := s.(rebuild := false);
      if !ok then tried.(phase := Sleeping, attempted := s.previous)
      else if fingerprint.None? then EndCurrent(tried, Aborted).(phase := Ended(false))
      else tried.(phase := Building, previous := fingerprint.value, attempted := fingerprint.value)
    case Build(ok) => s.(phase := if ok && !s.cancelled then Validating else Sleeping)
    case Validate(ok) => s.(phase := if !ok then Head else if s.cancelled then Draining else Swapping)
    case Swap =>
      if s.current.Some? then EndCurrent(s, Stopped)
      else s.(phase := Sleeping, current := Some(|s.generations|), generations := s.generations + [Running])
    case Break => s.(phase := Draining)
    case Wake(now, fingerprint) =>
      var finished := s.current.Some? && s.current.value < |s.generations| && !s.generations[s.current.value].Running?;
      Watched(if finished then s.(current := None) else s, now, fingerprint).(phase := Head)
    case Drain => EndCurrent(s, Stopped).(phase := Ended(true))
  }

  function Step(s: State, e: Event): State {
    if Enabled(s, e) then Next(s, e) else s
  }

  function Run(s: State, es: seq<Event>): State
    decreases |es|
  {
    if es == [] then s else Run(Step(s, es[0]), es[1..])
  }

  // ---------------------------------------------------------------- generations

  predicate GenerationsInv(s: State) {
    && (s.current.Some? ==> s.current.value < |s.generations|)
    && (forall g :: 0 <= g < |s.generations| && s.generations[g].Running? ==> s.current == Some(g))
    && (s.phase.Ended? ==> s.current.None?)
    && (s.phase.Draining? ==> s.cancelled)
  }

  /** Between attempts the stored fingerprint is the one the last attempt acted on. */
  predicate WatchInv(s: State) {
    && (s.rebuild ==> s.phase.Head? && s.pendingSince.None?)
    && (s.pendingSince.Some? ==> s.phase.Head? || s.phase.Sleeping? || s.phase.Draining? || s.phase.Ended?)
    && (!s.rebuild && s.pendingSince.None? && !s.phase.Ended? ==> s.previous == s.attempted)
  }

  lemma EndsTheOnlyOne(s: State, how: Generation)
    requires GenerationsInv(s) && !how.Running?
    ensures var t := EndCurrent(s, how);
      t.current.None? && forall g :: 0 <= g < |t.generations| ==> !t.generations[g].Running?
  {}

  lemma GenerationsStep(s: State, e: Event)
    requires GenerationsInv(s)
    ensures GenerationsInv(Step(s, e))
  {
    if Enabled(s, e) {
      match e
      case Swap => EndsTheOnlyOne(s, Stopped);
      case Drain => EndsTheOnlyOne(s, Stopped);
      case Load(_, _) => EndsTheOnlyOne(s.(rebuild := false), Aborted);
      case _ =>
    }
  }

  lemma WatchStep(s: State, e: Event)
    requires WatchInv(s)
    ensures WatchInv(Step(s, e))
  {}

  lemma {:induction false} RunInv(s: State, es: seq<Event>)
    requires GenerationsInv(s) && WatchInv(s)
    ensures GenerationsInv(Run(s, es)) && WatchInv(Run(s, es))
    decreases |es|
  {
    if es != [] {
      GenerationsStep(s, es[0]);
      WatchStep(s, es[0]);
      RunInv(Step(s, es[0]), es[1..]);
    }
  }

  /** Two generations are never alive together, and none is alive after the end. */
  lemma OneGeneration(fingerprint: nat, es: seq<Event>, g: nat, h: nat)
    ensures var s := Run(Start(fingerprint), es);
      && (g < |s.generations| && h < |s.generations| && s.generations[g].Running? && s.generations[h].Running? ==> g == h)
      && (s.phase.Ended? && g < |s.generations| ==> !s.generations[g].Running?)
  {
    RunInv(Start(fingerprint), es);
  }

  /**
   * A generation is ended from outside only by the swap to a validated build, by the end of the
   * loop after a cancellation, or by an error that ends the supervisor: never by a bad manifest,
   * build or validation, whatever else those do.
   */
  lemma OnlyASwapReplaces(s: State, e: Event, g: nat)
    requires GenerationsInv(s) && g < |s.generations| && s.generations[g].Running?
    ensures g < |Step(s, e).generations|
    ensures !Step(s, e).generations[g].Running? ==>
      || e == Exit(g)
      || (e == Swap && s.phase.Swapping?)
      || (e == Drain && s.phase.Draining?)
      || (e == Load(true, None) && Step(s, e).phase == Ended(false))
  {}

  /** How a run reached its swap: through a load, a build and a validation that all succeeded. */
  predicate Earned(s: State, last: seq<Event>) {
    match s.phase
    case Building => |last| >= 1 && last[|last| - 1].Load? && last[|last| - 1].ok
    case Validating => |last| >= 2 && last[|last| - 2].Load? && last[|last| - 2].ok && last[|last| - 1] == Build(true)
    case Swapping =>
      |last| >= 3 && last[|last| - 3].Load? && last[|last| - 3].ok && last[|last| - 2] == Build(true) && last[|last| - 1] == Validate(true)
    case _ => true
  }

  /** The events of a run that were taken, without exits, cancellations and stopping the old generation. */
  function Taken(s: State, es: seq<Event>): seq<Event>
    decreases |es|
  {
    if es == [] then []
    else
      var counts := Enabled(s, es[0]) && !es[0].Exit? && !es[0].Cancel? && !(es[0].Swap? && s.current.Some?);
      (if counts then [es[0]] else []) + Taken(Step(s, es[0]), es[1..])
  }

  lemma {:induction false} SwapIsEarned(s: State, before: seq<Event>, es: seq<Event>)
    requires Earned(s, before)
    ensures Earned(Run(s, es), before + Taken(s, es))
    decreases |es|
  {
    if es == [] {
      assert before + [] == before;
    } else {
      var counts := Enabled(s, es[0]) && !es[0].Exit? && !es[0].Cancel? && !(es[0].Swap? && s.current.Some?);
      var taken := if counts then [es[0]] else [];
      EarnedStep(s, before, es[0], taken);
      SwapIsEarned(Step(s, es[0]), before + taken, es[1..]);
      assert before + taken + Taken(Step(s, es[0]), es[1..]) == before + Taken(s, es);
    }
  }

  lemma EarnedStep(s: State, before: seq<Event>, e: Event, taken: seq<Event>)
    requires Earned(s, before)
    requires taken == if Enabled(s, e) && !e.Exit? && !e.Cancel? && !(e.Swap? && s.current.Some?) then [e] else []
    ensures Earned(Step(s, e), before + taken)
  {
    if taken == [] {
      assert before + taken == before;
    } else {
      var n := |before|;
      assert (before + taken)[n] == e;
      assert n >= 1 ==> (before + taken)[n - 1] == before[n - 1];
      assert n >= 2 ==> (before + taken)[n - 2] == before[n - 2];
    }
  }

  /** Whenever a generation is swapped, the last load, build and validation before all succeeded. */
  lemma SwapFollowsSuccess(fingerprint: nat, es: seq<Event>)
    requires Run(Start(fingerprint), es).phase.Swapping?
    ensures var taken := Taken(Start(fingerprint), es); var n := |taken|;
      && n >= 3 && taken[n - 3].Load? && taken[n - 3].ok && taken[n - 2] == Build(true) && taken[n - 1] == Validate(true)
  {
    EarnedFrom(Start(fingerprint), es);
  }

  lemma EarnedFrom(s: State, es: seq<Event>)
    requires s.phase.Head?
    ensures Earned(Run(s, es), Taken(s, es))
  {
    SwapIsEarned(s, [], es);
    assert [] + Taken(s, es) == Taken(s, es);
  }

  lemma {:induction false} RunSnoc(s: State, es: seq<Event>, e: Event)
    ensures Run(s, es + [e]) == Step(Run(s, es), e)
    decreases |es|
  {
    if es == [] {
      assert [e][1..] == [];
    } else {
      RunSnoc(Step(s, es[0]), es[1..], e);
      assert (es + [e])[1..] == es[1..] + [e];
    }
  }

  /** The run is about to swap, and the last load, build and validation before it all succeeded. */
  predicate SwapsValidated(first: nat, es: seq<Event>) {
    var taken := Taken(Start(first), es); var n := |taken|;
    && Run(Start(first), es).phase.Swapping?
    && n >= 3 && taken[n - 3].Load? && taken[n - 3].ok && taken[n - 2] == Build(true) && taken[n - 1] == Validate(true)
  }

  predicate Alive(s: State, g: nat) {
    g < |s.generations| && s.generations[g].Running?
  }

  /** After the events es the event e ends generation g; no bad manifest, build or validation is such an event. */
  predicate Ends(first: nat, es: seq<Event>, e: Event, g: nat) {
    var s := Run(Start(first), es);
    && Alive(s, g) && !Alive(Step(s, e), g)
    && (|| e == Exit(g)
        || (e == Swap && SwapsValidated(first, es))
        || (e == Drain && s.cancelled)
        || (e == Load(true, None) && Step(s, e).phase == Ended(false)))
  }

  /**
   * A generation that runs after some events and no longer after some more was ended, at one point in
   * between, by its own exit, by the swap to a build whose load, build and validation all succeeded, by
   * the end after a cancellation, or by a failing fingerprint, which ends the supervisor. So whatever
   * manifests, builds and validations fail in between, it keeps running.
   */
  lemma {:induction false} KeptUntilReplaced(first: nat, es: seq<Event>, more: seq<Event>, g: nat) returns (k: nat)
    requires Alive(Run(Start(first), es), g) && !Alive(Run(Start(first), es + more), g)
    ensures k < |more| && Ends(first, es + more[..k], more[k], g)
    decreases |more|
  {
    assert es + [] == es;
    assert more != [];
    var n := |more| - 1;
    var s := Run(Start(first), es + more[..n]);
    assert es + more == es + more[..n] + [more[n]];
    RunSnoc(Start(first), es + more[..n], more[n]);
    RunInv(Start(first), es + more[..n]);
    if Alive(s, g) {
      k := n;
      OnlyASwapReplaces(s, more[n], g);
      if more[n] == Swap {
        SwapFollowsSuccess(first, es + more[..n]);
      }
    } else {
      k := KeptUntilReplaced(first, es, more[..n], g);
      assert more[..n][..k] == more[..k];
    }
  }

  // ---------------------------------------------------------------- edits

  /**
   * Whenever no change is pending and no rebuild is requested, the stored fingerprint is the one taken
   * before the last build, or the one that led to the last failed load.
   */
  lemma NoEditIsAbsorbed(fingerprint: nat, es: seq<Event>)
    ensures var s := Run(Start(fingerprint), es);
      !s.phase.Ended? && s.pendingSince.None? && !s.rebuild ==> s.previous == s.attempted
  {
    RunInv(Start(fingerprint), es);
  }

  predicate Waiting(s: State) {
    (s.phase.Sleeping? || s.phase.Head?) && !s.rebuild
  }

  /** A wake, with the empty top of the loop before it, or something beside the loop. */
  function Round(s: State, e: Event): State {
    if e.Wake? then Step(Step(s, Skip), e) else Step(s, e)
  }

  /** Rounds of the loop until a rebuild is requested. */
  function Rounds(s: State, es: seq<Event>): State
    decreases |es|
  {
    if es == [] || s.rebuild then s else Rounds(Round(s, es[0]), es[1..])
  }

  /** Only wakes that see these files or fail to look, generations that exit, and requests to cancel. */
  predicate Sees(es: seq<Event>, fingerprint: nat) {
    forall i :: 0 <= i < |es| ==>
      es[i].Exit? || es[i].Cancel? || (es[i].Wake? && (es[i].fingerprint == Some(fingerprint) || es[i].fingerprint == None))
  }

  predicate LooksAt(e: Event, fingerprint: nat) {
    e.Wake? && e.fingerprint == Some(fingerprint)
  }

  /** One round of a waiting loop that sees what it saw before. */
  lemma RoundKeeps(s: State, e: Event)
    requires Waiting(s) && Sees([e], s.previous)
    ensures var t := Round(s, e);
      if s.pendingSince.Some? && LooksAt(e, s.previous) && e.now - s.pendingSince.value >= DEBOUNCE_MS then t.rebuild
      else Waiting(t) && t.previous == s.previous && t.pendingSince == s.pendingSince
  {
    assert [e][0] == e;
  }

  lemma {:induction false} PendingFires(s: State, es: seq<Event>)
    requires Waiting(s) && s.pendingSince.Some? && Sees(es, s.previous)
    requires es != [] && LooksAt(es[|es| - 1], s.previous) && es[|es| - 1].now >= s.pendingSince.value + DEBOUNCE_MS
    ensures Rounds(s, es).rebuild
    decreases |es|
  {
    var n := Round(s, es[0]);
    RoundKeeps(s, es[0]);
    if !n.rebuild {
      PendingFires(n, es[1..]);
    } else {
      assert Rounds(n, es[1..]) == n;
    }
  }

  lemma {:induction false} QuietWatch(s: State, es: seq<Event>)
    requires Waiting(s) && s.pendingSince.None? && Sees(es, s.previous)
    ensures !Rounds(s, es).rebuild
    decreases |es|
  {
    if es != [] {
      RoundKeeps(s, es[0]);
      QuietWatch(Round(s, es[0]), es[1..]);
    }
  }

  /**
   * After any run: when the files then look the same for the debounce time, between a first and a last
   * successful look, with failed looks and exits anywhere in between, a rebuild is requested exactly if a
   * change was pending or the files differ from what the last attempt acted on. So an edit made during a
   * build that still differs is always followed by another attempt.
   */
  lemma EditIsRebuilt(first: nat, es: seq<Event>, later: seq<Event>, fingerprint: nat)
    requires Waiting(Run(Start(first), es)) && later != [] && Sees(later, fingerprint)
    requires LooksAt(later[0], fingerprint) && LooksAt(later[|later| - 1], fingerprint)
    requires var since := Run(Start(first), es).pendingSince; since.Some? ==> since.value <= later[0].now
    requires later[|later| - 1].now >= later[0].now + 200
    ensures var s := Run(Start(first), es);
      Rounds(s, later).rebuild <==> s.pendingSince.Some? || fingerprint != s.attempted
  {
    RunInv(Start(first), es);
    var s := Run(Start(first), es);
    if s.previous == fingerprint && s.pendingSince.None? {
      QuietWatch(s, later);
    } else {
      FirstLook(s, later[0], fingerprint);
      var n := Round(s, later[0]);
      if n.rebuild {
        assert Rounds(n, later[1..]) == n;
      } else {
        PendingFires(n, later[1..]);
      }
    }
  }

  lemma FirstLook(s: State, e: Event, fingerprint: nat)
    requires Waiting(s) && LooksAt(e, fingerprint) && (s.previous != fingerprint || s.pendingSince.Some?)
    requires s.pendingSince.Some? ==> s.pendingSince.value <= e.now
    ensures var n := Round(s, e);
      n.rebuild || (Waiting(n) && n.previous == fingerprint && n.pendingSince.Some? && n.pendingSince.value <= e.now)
  {}

  /** What the watch sees at successive wakes: the time, and the fingerprint unless it failed. */
  function Watching(s: State, wakes: seq<(int, Option<nat>)>): State {
    if wakes == [] then s
    else
      var before, last := Watching(s, wakes[..|wakes| - 1]), wakes[|wakes| - 1];
      if before.rebuild then before else Step(Step(before, Skip), Wake(last.0, last.1))
  }

  /** From the k-th wake on nothing else than this fingerprint was seen. */
  predicate Steady(wakes: seq<(int, Option<nat>)>, k: nat, fingerprint: nat) {
    k < |wakes| && wakes[k].1 == Some(fingerprint)
    && forall i :: k <= i < |wakes| ==> wakes[i].1 == Some(fingerprint) || wakes[i].1 == None
  }

  lemma WatchRound(s: State, now: int, fingerprint: Option<nat>)
    requires Waiting(s)
    ensures var t := Step(Step(s, Skip), Wake(now, fingerprint));
      if fingerprint.Some? && fingerprint.value != s.previous then
        Waiting(t) && t.previous == fingerprint.value && t.pendingSince == Some(now)
      else if t.rebuild then
        fingerprint.Some? && s.pendingSince.Some? && now - s.pendingSince.value >= DEBOUNCE_MS
      else Waiting(t) && t.previous == s.previous && t.pendingSince == s.pendingSince
  {}

  lemma {:induction false} PendingIsSteady(s: State, wakes: seq<(int, Option<nat>)>)
    requires Waiting(s) && s.pendingSince.None? && !Watching(s, wakes).rebuild
    ensures Waiting(Watching(s, wakes)) && PendingSteady(Watching(s, wakes), wakes)
  {
    if wakes != [] {
      var init, last := wakes[..|wakes| - 1], wakes[|wakes| - 1];
      PendingIsSteady(s, init);
      SteadyRound(Watching(s, init), init, last);
      assert wakes == init + [last];
    }
  }

  ghost predicate PendingSteady(t: State, wakes: seq<(int, Option<nat>)>) {
    t.pendingSince.Some? ==> exists k: nat :: Steady(wakes, k, t.previous) && wakes[k].0 == t.pendingSince.value
  }

  lemma SteadyRound(before: State, init: seq<(int, Option<nat>)>, last: (int, Option<nat>))
    requires Waiting(before) && PendingSteady(before, init)
    ensures var t := Step(Step(before, Skip), Wake(last.0, last.1)); t.rebuild || (Waiting(t) && PendingSteady(t, init + [last]))
  {
    var t, wakes := Step(Step(before, Skip), Wake(last.0, last.1)), init + [last];
    WatchRound(before, last.0, last.1);
    if last.1.Some? && last.1.value != before.previous {
      assert Steady(wakes, |init|, t.previous) && wakes[|init|].0 == last.0;
    } else if before.pendingSince.Some? {
      var k: nat :| Steady(init, k, before.previous) && init[k].0 == before.pendingSince.value;
      assert Steady(wakes, k, before.previous) && wakes[k].0 == init[k].0;
    }
  }

  /** No rebuild is requested before the files, having changed, looked the same for the debounce time. */
  lemma RebuildIsDebounced(s: State, wakes: seq<(int, Option<nat>)>, last: (int, Option<nat>))
    requires Waiting(s) && s.pendingSince.None? && !Watching(s, wakes).rebuild
    requires Watching(s, wakes + [last]).rebuild
    ensures last.1.Some? && exists k: nat :: Steady(wakes, k, last.1.value) && last.0 - wakes[k].0 >= 200
  {
    assert (wakes + [last])[..|wakes|] == wakes;
    PendingIsSteady(s, wakes);
    WatchRound(Watching(s, wakes), last.0, last.1);
  }

  // ---------------------------------------------------------------- what a rebuild and a cancellation do

  /** The generations after the current one was stopped, unless it had ended before. */
  function WithStopped(s: State): (gs: seq<Generation>)
    requires GenerationsInv(s)
    ensures |gs| == |s.generations|
  {
    seq(|s.generations|, i requires 0 <= i < |s.generations| => if s.generations[i].Running? then Stopped else s.generations[i])
  }

  /**
   * A rebuild whose load, build and validation succeed replaces the generation: the old one, if it still
   * ran, is stopped, a new one runs, and the files it was built from are those watched from then on.
   */
  lemma RebuildReplaces(first: nat, es: seq<Event>, fingerprint: nat)
    requires var s := Run(Start(first), es); s.phase.Head? && s.rebuild && !s.cancelled
    ensures var s := Run(Start(first), es);
            var t := Run(s, [Load(true, Some(fingerprint)), Build(true), Validate(true), Swap, Swap]);
      && GenerationsInv(s)
      && t.generations == WithStopped(s) + [Running] && t.current == Some(|s.generations|)
      && t.previous == t.attempted == fingerprint && t.phase.Sleeping? && !t.rebuild && t.pendingSince.None?
  {
    RunInv(Start(first), es);
    var s := Run(Start(first), es);
    var s3 := s.(phase := Swapping, rebuild := false, previous := fingerprint, attempted := fingerprint);
    RunFive(s, Load(true, Some(fingerprint)), Build(true), Validate(true), Swap, Swap);
    assert Step(Step(Step(s, Load(true, Some(fingerprint))), Build(true)), Validate(true)) == s3;
    StopsAndStarts(s3);
  }

  lemma RunFive(s: State, a: Event, b: Event, c: Event, d: Event, e: Event)
    ensures Run(s, [a, b, c, d, e]) == Step(Step(Step(Step(Step(s, a), b), c), d), e)
  {
    RunSnoc(s, [], a);
    RunSnoc(s, [a], b);
    RunSnoc(s, [a, b], c);
    RunSnoc(s, [a, b, c], d);
    RunSnoc(s, [a, b, c, d], e);
    assert [] + [a] == [a] && [a] + [b] == [a, b] && [a, b] + [c] == [a, b, c] && [a, b, c] + [d] == [a, b, c, d];
    assert [a, b, c, d] + [e] == [a, b, c, d, e];
  }

  /** The second of the two swaps finds nothing to do when there was no generation to stop. */
  lemma StopsAndStarts(s: State)
    requires GenerationsInv(s) && s.phase.Swapping?
    ensures var t := Step(Step(s, Swap), Swap);
      && t == s.(phase := Sleeping, current := Some(|s.generations|), generations := t.generations)
      && t.generations == WithStopped(s) + [Running]
  {
    var t := Step(Step(s, Swap), Swap);
    assert forall i :: 0 <= i < |s.generations| ==> t.generations[i] == WithStopped(s)[i];
  }

  /** A load, build or validation that fails leaves every generation alone, and the loop waits for the next change. */
  lemma FailureWaits(first: nat, es: seq<Event>, fingerprint: nat)
    requires var s := Run(Start(first), es); s.phase.Head? && s.rebuild
    ensures var s := Run(Start(first), es);
            var loaded := Step(s, Load(true, Some(fingerprint)));
            var built := Step(loaded, Build(true));
      forall t :: t in {Step(s, Load(false, Some(fingerprint))), Step(loaded, Build(false)), Step(built, Validate(false))} ==>
        Waiting(t) && t.generations == s.generations && t.current == s.current && t.pendingSince.None?
  {
    RunInv(Start(first), es);
  }

  /** A fingerprint that cannot be taken ends the supervisor with an error and no generation running. */
  lemma FingerprintFailureEnds(first: nat, es: seq<Event>)
    requires var s := Run(Start(first), es); s.phase.Head? && s.rebuild
    ensures var t := Step(Run(Start(first), es), Load(true, None));
      t.phase == Ended(false) && forall g :: 0 <= g < |t.generations| ==> !t.generations[g].Running?
  {
    RunInv(Start(first), es);
    EndsTheOnlyOne(Run(Start(first), es).(rebuild := false), Aborted);
  }

  /** What the loop itself does next, apart from waking up instead of noticing a cancellation. */
  predicate Winding(e: Event) {
    !e.Cancel? && !e.Exit? && !e.Wake?
  }

  /** How many such steps a cancelled supervisor still takes at most. */
  function Left(s: State): nat {
    match s.phase
    case Head => if s.rebuild then 4 else 3
    case Building => 3
    case Validating => 4
    case Swapping => if s.current.Some? then 4 else 3
    case Sleeping => 2
    case Draining => 1
    case Ended(_) => 0
  }

  /** A cancelled supervisor always has a step to take towards its end, whatever outcome each step has. */
  lemma CancelWindsDown(s: State, e: Event)
    requires s.cancelled && WatchInv(s)
    ensures !s.phase.Ended? ==> exists next :: Winding(next) && Enabled(s, next)
    ensures Winding(e) && Enabled(s, e) ==> Step(s, e).cancelled && Left(Step(s, e)) < Left(s)
  {
    var next := match s.phase
      case Head => if s.rebuild then Load(false, None) else Skip
      case Building => Build(false)
      case Validating => Validate(false)
      case Swapping => Swap
      case Sleeping => Break
      case _ => Drain;
    assert !s.phase.Ended? ==> Winding(next) && Enabled(s, next);
  }

  predicate AllWinding(s: State, es: seq<Event>)
    decreases |es|
  {
    es == [] || (Winding(es[0]) && Enabled(s, es[0]) && AllWinding(Step(s, es[0]), es[1..]))
  }

  /**
   * After a cancellation the supervisor ends within four steps of its own, with no generation left
   * running, and without an error unless the fingerprint of a load that was under way fails.
   */
  lemma CancelEnds(first: nat, so: seq<Event>, es: seq<Event>)
    requires Run(Start(first), so).cancelled && AllWinding(Run(Start(first), so), es)
    ensures var t := Run(Run(Start(first), so), es);
      && |es| <= 4
      && (t.phase.Ended? || exists next :: Winding(next) && Enabled(t, next))
      && (t.phase.Ended? ==> forall g :: 0 <= g < |t.generations| ==> !t.generations[g].Running?)
      && (t.phase == Ended(false) && Run(Start(first), so).phase != Ended(false) ==> Load(true, None) in es)
  {
    RunInv(Start(first), so);
    Winds(Run(Start(first), so), es);
  }

  lemma {:induction false} Winds(s: State, es: seq<Event>)
    requires s.cancelled && GenerationsInv(s) && WatchInv(s) && AllWinding(s, es)
    ensures var t := Run(s, es);
      && |es| + Left(t) <= Left(s)
      && (t.phase.Ended? || exists next :: Winding(next) && Enabled(t, next))
      && (t.phase.Ended? ==> forall g :: 0 <= g < |t.generations| ==> !t.generations[g].Running?)
      && (t.phase == Ended(false) && s.phase != Ended(false) ==> Load(true, None) in es)
    decreases |es|
  {
    if es == [] {
      CancelWindsDown(s, Skip);
    } else {
      CancelWindsDown(s, es[0]);
      GenerationsStep(s, es[0]);
      WatchStep(s, es[0]);
      Winds(Step(s, es[0]), es[1..]);
    }
  }
}
