/**
 * The admission limiter: concurrent callers take a permit with a load and a loop of weak
 * compare-and-swap operations, which may fail spuriously, and give it back by a decrement.
 */
module Admission {

  /** `at` numbers the read that produced `current`. */
  datatype Caller =
    | Loaded(arrived: nat, current: int, at: nat)
    | Holding
    | Refused(arrived: nat, at: nat)
    | Released

  /** `seen` is history: the value of `active` before each step. */
  datatype State = State(max: nat, active: int, callers: seq<Caller>, seen: seq<int>)

  datatype Event =
    | Arrive                          // try_acquire: the first load
    | Try(c: nat, spurious: bool)     // one round of the loop
    | Drop(c: nat)                    // the permit is dropped: fetch_sub

  function New(max: nat): State { State(if max > 1 then max else 1, 0, [], []) }

  predicate Enabled(s: State, e: Event) {
    match e
    case Arrive => true
    case Try(c, _) => c < |s.callers| && s.callers[c].Loaded?
    case Drop(c) => c < |s.callers| && s.callers[c].Holding?
  }

  function Next(s: State, e: Event): State
    requires Enabled(s, e)
  {
    var now, n := s.(seen := s.seen + [s.active]), |s.seen|;
    match e
    case Arrive => now.(callers := s.callers + [Loaded(n, s.active, n)])
    case Try(c, spurious) =>
      var caller := s.callers[c];
      if caller.current >= s.max then now.(callers := s.callers[c := Refused(caller.arrived, caller.at)])
      else if s.active == caller.current && !spurious then now.(active := s.active + 1, callers := s.callers[c := Holding])
      else now.(callers := s.callers[c := Loaded(caller.arrived, s.active, n)])
    case Drop(c) => now.(active := s.active - 1, callers := s.callers[c := Released])
  }

  function Step(s: State, e: Event): State {
    if Enabled(s, e) then Next(s, e) else s
  }

  function Run(s: State, es: seq<Event>): State
    decreases |es|
  {
    if es == [] then s else Run(Step(s, es[0]), es[1..])
  }

  /** The number of live permits. */
  function Permits(callers: seq<Caller>): nat {
    if callers == [] then 0
    else Permits(callers[..|callers| - 1]) + if callers[|callers| - 1].Holding? then 1 else 0
  }

  lemma {:induction false} PermitsUpdate(callers: seq<Caller>, c: nat, x: Caller)
    requires c < |callers|
    ensures Permits(callers[c := x]) ==
      Permits(callers) - (if callers[c].Holding? then 1 else 0) + (if x.Holding? then 1 else 0)
    decreases |callers|
  {
    var n := |callers| - 1;
    if c < n {
      PermitsUpdate(callers[..n], c, x);
      assert callers[c := x][..n] == callers[..n][c := x];
    } else {
      assert callers[c := x][..n] == callers[..n];
    }
  }

  /** A caller decides on a value that `active` had at a read it made since it arrived. */
  predicate SawReal(s: State, x: Caller) {
    match x
    case Loaded(arrived, current, at) => arrived <= at < |s.seen| && s.seen[at] == current
    case Refused(arrived, at) => arrived <= at < |s.seen| && s.seen[at] >= s.max
    case _ => true
  }

  predicate CountInv(s: State) {
    && 1 <= s.max
    && 0 <= s.active <= s.max
    && s.active == Permits(s.callers)
    && (forall i :: 0 <= i < |s.seen| ==> 0 <= s.seen[i] <= s.max)
  }

  predicate Inv(s: State) {
    CountInv(s) && forall c :: 0 <= c < |s.callers| ==> SawReal(s, s.callers[c])
  }

  lemma CountStep(s: State, e: Event)
    requires Inv(s) && Enabled(s, e)
    ensures CountInv(Next(s, e))
  {
    var n := Next(s, e);
    match e
    case Arrive => assert n.callers[..|s.callers|] == s.callers;
    case Try(c, _) =>
      assert SawReal(s, s.callers[c]);
      PermitsUpdate(s.callers, c, n.callers[c]);
    case Drop(c) => PermitsUpdate(s.callers, c, Released);
  }

  lemma SawStep(s: State, e: Event)
    requires Inv(s) && Enabled(s, e)
    ensures var n := Next(s, e); forall c :: 0 <= c < |n.callers| ==> SawReal(n, n.callers[c])
  {
    var n := Next(s, e);
    assert n.seen[..|s.seen|] == s.seen && n.seen[|s.seen|] == s.active;
    forall c | 0 <= c < |n.callers| ensures SawReal(n, n.callers[c]) {
      if c < |s.callers| {
        assert SawReal(s, s.callers[c]);
      }
    }
  }

  lemma InvStep(s: State, e: Event)
    requires Inv(s)
    ensures Inv(Step(s, e)) && Step(s, e).max == s.max
  {
    if Enabled(s, e) {
      CountStep(s, e);
      SawStep(s, e);
    }
  }

  lemma {:induction false} RunInv(s: State, es: seq<Event>)
    requires Inv(s)
    ensures Inv(Run(s, es)) && Run(s, es).max == s.max
    decreases |es|
  {
    if es != [] {
      InvStep(s, es[0]);
      RunInv(Step(s, es[0]), es[1..]);
    }
  }

  /**
   * In every interleaving, spurious failures included: `active` is the number of live permits, is
   * never negative and never above the limit, which is at least one; and whoever was refused had
   * read, since it arrived, that the limit was reached.
   */
  lemma NeverOverAdmits(max: nat, es: seq<Event>)
    ensures var s := Run(New(max), es);
      && s.max == (if max > 1 then max else 1)
      && 0 <= s.active == Permits(s.callers) <= s.max
      && forall c :: 0 <= c < |s.callers| && s.callers[c].Refused? ==>
           s.callers[c].arrived <= s.callers[c].at < |s.seen| && s.seen[s.callers[c].at] == s.max
  {
    RunInv(New(max), es);
    var s := Run(New(max), es);
    forall c | 0 <= c < |s.callers| && s.callers[c].Refused?
      ensures s.callers[c].arrived <= s.callers[c].at < |s.seen| && s.seen[s.callers[c].at] == s.max
    {
      assert SawReal(s, s.callers[c]);
    }
  }

  /** While a permit is free and nobody interferes, an arrival gets one, whatever fails spuriously first. */
  lemma {:induction false} FreePermitIsTaken(s: State, c: nat, failures: nat)
    requires Inv(s) && s.active < s.max && c < |s.callers| && s.callers[c].Loaded? && s.callers[c].current == s.active
    ensures var after := Run(s, seq(failures, _ => Try(c, true)) + [Try(c, false)]);
      c < |after.callers| && after.callers[c] == Holding
    decreases failures
  {
    var es := seq(failures, _ => Try(c, true)) + [Try(c, false)];
    if failures == 0 {
      assert es == [Try(c, false)] && es[1..] == [];
    } else {
      assert es[0] == Try(c, true);
      assert es[1..] == seq(failures - 1, _ => Try(c, true)) + [Try(c, false)];
      InvStep(s, es[0]);
      FreePermitIsTaken(Step(s, es[0]), c, failures - 1);
    }
  }

  lemma {:induction false} AnsweredStays(s: State, c: nat, es: seq<Event>)
    requires c < |s.callers| && s.callers[c].Refused? && forall e :: e in es ==> e.Try?
    requires forall e :: e in es ==> e.c == c
    ensures Run(s, es) == s
    decreases |es|
  {
    if es != [] {
      assert es[0] in es && forall e :: e in es[1..] ==> e in es;
      AnsweredStays(s, c, es[1..]);
    }
  }

  /**
   * After any run an arrival that is not disturbed is given a permit exactly if one is free, whatever
   * fails spuriously first, and otherwise is refused and changes nothing.
   */
  lemma ArrivalIsAnswered(max: nat, so: seq<Event>, failures: nat)
    ensures var s := Run(New(max), so);
            var c := |s.callers|;
            var t := Run(Step(s, Arrive), seq(failures, _ => Try(c, true)) + [Try(c, false)]);
      && c < |t.callers|
      && (if Permits(s.callers) < s.max then t.callers[c] == Holding else t.callers[c].Refused? && t.active == s.active)
  {
    var s := Run(New(max), so);
    RunInv(New(max), so);
    var c, arrived := |s.callers|, Step(s, Arrive);
    InvStep(s, Arrive);
    var es := seq(failures, _ => Try(c, true)) + [Try(c, false)];
    if s.active < s.max {
      FreePermitIsTaken(arrived, c, failures);
    } else {
      assert es[0].Try? && es[0].c == c;
      AnsweredStays(Step(arrived, es[0]), c, es[1..]);
    }
  }

  /** A caller that lost a race for a permit goes on with the value it then read. */
  lemma LoserReloads(s: State, c: nat, spurious: bool)
    requires Inv(s) && c < |s.callers| && s.callers[c].Loaded? && s.callers[c].current < s.max
    requires s.callers[c].current != s.active
    ensures var t := Step(s, Try(c, spurious));
      t.callers[c].Loaded? && t.callers[c].current == s.active == t.active
  {}

  /** Dropping a permit frees it. */
  lemma DropFrees(s: State, c: nat)
    requires Inv(s) && c < |s.callers| && s.callers[c].Holding?
    ensures var t := Step(s, Drop(c));
      t.callers == s.callers[c := Released] && Permits(t.callers) == Permits(s.callers) - 1 && t.active < t.max
  {
    PermitsUpdate(s.callers, c, Released);
  }
}
