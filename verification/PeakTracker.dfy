/** The lock-free peak tracker: any number of threads run `track_allocation` (a fetch-add, a load and
    a compare-exchange loop) and `track_deallocation` (a fetch-sub) against two shared 64-bit words. */
module PeakTracker {
  import opened Bits

  /** Where a thread is inside `track_allocation`. */
  datatype Tracker =
    | Outside
    | Added(current: size_t)                  // fetch_add done
    | Comparing(current: size_t, seen: size_t) // holds a loaded, possibly old, peak

  /** Where `resetPeakTracker` is: it loads the usage and stores it as the peak later. `since` is history:
      every value the usage has taken from the load on. */
  datatype Resetter = NoReset | Loaded(value: size_t, since: seq<size_t>)

  /** `history` lists every value the usage counter has taken since the last finished reset loaded it. */
  datatype State = State(usage: size_t, peak: size_t, threads: seq<Tracker>, resetter: Resetter, history: seq<size_t>)

  datatype Action =
    | FetchAdd(i: nat, size: size_t)
    | LoadPeak(i: nat)
    | ExchangeOk(i: nat)
    | ExchangeFail(i: nat)   // lost race, or a spurious failure of the weak exchange
    | LeaveLoop(i: nat)
    | FetchSub(size: size_t)
    | ResetLoad
    | ResetStore

  predicate Quiescent(s: State) {
    forall i :: 0 <= i < |s.threads| ==> s.threads[i].Outside?
  }

  predicate Enabled(s: State, a: Action) {
    match a
    case FetchAdd(i, _) => i < |s.threads| && s.threads[i].Outside?
    case LoadPeak(i) => i < |s.threads| && s.threads[i].Added?
    case ExchangeOk(i) =>
      && i < |s.threads| && s.threads[i].Comparing?
      && s.threads[i].current > s.threads[i].seen == s.peak
    case ExchangeFail(i) =>
      && i < |s.threads| && s.threads[i].Comparing?
      && s.threads[i].current > s.threads[i].seen
    case LeaveLoop(i) =>
      && i < |s.threads| && s.threads[i].Comparing?
      && s.threads[i].current <= s.threads[i].seen
    case FetchSub(size) => size <= s.usage  // callers free only what they had tracked
    case ResetLoad => s.resetter.NoReset?
    case ResetStore => s.resetter.Loaded?
  }

  /** The usage takes a new value. */
  function Take(s: State, now: size_t): State {
    s.(usage := now, history := s.history + [now],
       resetter := if s.resetter.Loaded? then s.resetter.(since := s.resetter.since + [now]) else NoReset)
  }

  function Next(s: State, a: Action): State
    requires Enabled(s, a)
  {
    match a
    case FetchAdd(i, size) =>
      var now := (s.usage + size) % TWO_64;
      Take(s, now).(threads := s.threads[i := Added(now)])
    case LoadPeak(i) =>
      s.(threads := s.threads[i := Comparing(s.threads[i].current, s.peak)])
    case ExchangeOk(i) =>
      s.(peak := s.threads[i].current, threads := s.threads[i := Outside])
    case ExchangeFail(i) =>
      s.(threads := s.threads[i := Comparing(s.threads[i].current, s.peak)])
    case LeaveLoop(i) => s.(threads := s.threads[i := Outside])
    case FetchSub(size) =>
      Take(s, (s.usage - size) % TWO_64)
    case ResetLoad => s.(resetter := Loaded(s.usage, [s.usage]))
    case ResetStore => s.(peak := s.resetter.value, history := s.resetter.since, resetter := NoReset)
  }

  predicate Init(s: State) {
    s.usage == s.peak == 0 && s.history == [0] && Quiescent(s) && s.resetter.NoReset?
  }

  /** No `track_allocation` overlaps a reset: none is under way when it loads, none begins before it stores. */
  predicate Undisturbed(s: State, a: Action) {
    (a.ResetLoad? ==> Quiescent(s)) && (a.FetchAdd? ==> s.resetter.NoReset?)
  }

  /** A value the counter took is already covered by the peak, or a thread still has to report one
      at least as large. */
  predicate Covered(s: State, h: size_t) {
    h <= s.peak || exists i :: 0 <= i < |s.threads| && Owes(s.threads[i], h)
  }

  predicate Owes(t: Tracker, h: size_t) {
    !t.Outside? && h <= t.current
  }

  predicate Inv(s: State) {
    && s.usage in s.history
    && s.peak in s.history
    && (forall i :: 0 <= i < |s.threads| && !s.threads[i].Outside? ==> s.threads[i].current in s.history)
    && (forall i :: 0 <= i < |s.threads| && s.threads[i].Comparing? ==> s.threads[i].seen <= s.peak)
    && (forall h :: h in s.history ==> Covered(s, h))
    && (s.resetter.Loaded? ==> Quiescent(s) && ResetterOk(s.usage, s.resetter))
  }

  /** While only deallocations happen, the loaded usage stays the largest. */
  predicate ResetterOk(usage: size_t, r: Resetter)
    requires r.Loaded?
  {
    && usage in r.since && usage <= r.value && r.value in r.since
    && forall h :: h in r.since ==> h <= r.value
  }

  function Max(xs: seq<size_t>): (m: size_t)
    requires xs != []
    ensures m in xs && forall x :: x in xs ==> x <= m
  {
    if |xs| == 1 then xs[0]
    else
      var rest := Max(xs[1..]);
      assert forall x :: x in xs ==> x == xs[0] || x in xs[1..];
      if xs[0] > rest then xs[0] else rest
  }

  /** A thread other than the one that moved keeps owing what it owed. */
  lemma OthersKeepOwing(s: State, s': State, i: nat, h: size_t)
    requires i < |s.threads| && |s'.threads| == |s.threads| && s.peak <= s'.peak
    requires forall j :: 0 <= j < |s.threads| && j != i ==> s'.threads[j] == s.threads[j]
    requires Covered(s, h) && (Owes(s.threads[i], h) ==> Covered(s', h))
    ensures Covered(s', h)
  {
    if h > s.peak {
      var j :| 0 <= j < |s.threads| && Owes(s.threads[j], h);
      assert j != i ==> Owes(s'.threads[j], h);
    }
  }

  lemma AddCovers(s: State, i: nat, size: size_t, h: size_t)
    requires Inv(s) && Enabled(s, FetchAdd(i, size))
    requires h in Next(s, FetchAdd(i, size)).history
    ensures Covered(Next(s, FetchAdd(i, size)), h)
  {
    var s' := Next(s, FetchAdd(i, size));
    assert Owes(s'.threads[i], s'.usage);
    if h in s.history {
      OthersKeepOwing(s, s', i, h);
    } else {
      assert h == s'.usage;
    }
  }

  lemma SubCovers(s: State, size: size_t, h: size_t)
    requires Inv(s) && Enabled(s, FetchSub(size))
    requires h in Next(s, FetchSub(size)).history
    ensures Covered(Next(s, FetchSub(size)), h)
  {
    var s' := Next(s, FetchSub(size));
    var top := if h in s.history then h else s.usage;
    assert Covered(s, top) && h <= top;
    if top > s.peak {
      var j :| 0 <= j < |s.threads| && Owes(s.threads[j], top);
      assert Owes(s'.threads[j], h);
    }
  }

  lemma LoopStepCovers(s: State, a: Action, h: size_t)
    requires Inv(s) && Enabled(s, a)
    requires a.LoadPeak? || a.ExchangeOk? || a.ExchangeFail? || a.LeaveLoop?
    requires h in s.history
    ensures Covered(Next(s, a), h)
  {
    var s' := Next(s, a);
    if a.LoadPeak? || a.ExchangeFail? {
      assert Owes(s.threads[a.i], h) ==> Owes(s'.threads[a.i], h);
    }
    OthersKeepOwing(s, s', a.i, h);
  }

  lemma StepCovers(s: State, a: Action, h: size_t)
    requires Inv(s) && Enabled(s, a) && Undisturbed(s, a)
    requires h in Next(s, a).history
    ensures Covered(Next(s, a), h)
  {
    match a
    case FetchAdd(i, size) => AddCovers(s, i, size, h);
    case FetchSub(size) => SubCovers(s, size, h);
    case ResetLoad => assert Covered(s, h);
    case ResetStore =>
    case _ => LoopStepCovers(s, a, h);
  }

  lemma StepKeepsInv(s: State, a: Action)
    requires Inv(s) && Enabled(s, a) && Undisturbed(s, a)
    ensures Inv(Next(s, a))
  {
    hide Covered;
    var s' := Next(s, a);
    forall h | h in s'.history
      ensures Covered(s', h)
    {
      StepCovers(s, a, h);
    }
    InFlightValuesTaken(s, a);
    ResetterStaysOk(s, a);
  }

  lemma ResetterStaysOk(s: State, a: Action)
    requires Inv(s) && Enabled(s, a) && Undisturbed(s, a)
    ensures var s' := Next(s, a); s'.resetter.Loaded? ==> Quiescent(s') && ResetterOk(s'.usage, s'.resetter)
  {
    match a
    case FetchSub(size) =>
      if s.resetter.Loaded? {
        var since' := Next(s, a).resetter.since;
        assert since'[|since'| - 1] == Next(s, a).usage <= s.usage;
        assert s.resetter.value in since';
      }
    case _ =>
  }

  lemma InFlightValuesTaken(s: State, a: Action)
    requires Inv(s) && Enabled(s, a) && Undisturbed(s, a)
    ensures var s' := Next(s, a);
            && s'.usage in s'.history && s'.peak in s'.history
            && (forall i :: 0 <= i < |s'.threads| && !s'.threads[i].Outside? ==> s'.threads[i].current in s'.history)
            && (forall i :: 0 <= i < |s'.threads| && s'.threads[i].Comparing? ==> s'.threads[i].seen <= s'.peak)
  {
    hide Covered;
    var s' := Next(s, a);
    match a
    case FetchAdd(_, _) =>
      assert s'.history[|s.history|] == s'.usage;
    case FetchSub(_) =>
      assert s'.history[|s.history|] == s'.usage;
    case _ =>
  }

  // ----- runs -----

  predicate Legal(s: State, actions: seq<Action>)
    decreases |actions|
  {
    actions == [] || (Enabled(s, actions[0]) && Legal(Next(s, actions[0]), actions[1..]))
  }

  function Run(s: State, actions: seq<Action>): State
    requires Legal(s, actions)
    decreases |actions|
  {
    if actions == [] then s else Run(Next(s, actions[0]), actions[1..])
  }

  ghost predicate UndisturbedRun(s: State, actions: seq<Action>)
    requires Legal(s, actions)
    decreases |actions|
  {
    actions != [] ==> Undisturbed(s, actions[0]) && UndisturbedRun(Next(s, actions[0]), actions[1..])
  }

  lemma {:induction false} RunKeepsInv(s: State, actions: seq<Action>)
    requires Inv(s) && Legal(s, actions) && UndisturbedRun(s, actions)
    ensures Inv(Run(s, actions))
    decreases |actions|
  {
    hide Inv, Enabled, Next, Undisturbed;
    if actions != [] {
      StepKeepsInv(s, actions[0]);
      RunKeepsInv(Next(s, actions[0]), actions[1..]);
    }
  }

  lemma StepRaisesPeak(s: State, a: Action)
    requires Inv(s) && Enabled(s, a) && !a.ResetStore?
    ensures s.peak <= Next(s, a).peak
  {
    hide Covered, ResetterOk;
  }

  /** Between resets the published peak never goes down. */
  lemma {:induction false} PeakIsMonotone(s: State, actions: seq<Action>)
    requires Inv(s) && Legal(s, actions) && UndisturbedRun(s, actions) && ResetStore !in actions
    ensures s.peak <= Run(s, actions).peak
    decreases |actions|
  {
    hide Inv, Enabled, Next, Undisturbed;
    if actions != [] {
      assert actions[0] in actions;
      StepKeepsInv(s, actions[0]);
      StepRaisesPeak(s, actions[0]);
      PeakIsMonotone(Next(s, actions[0]), actions[1..]);
    }
  }

  /** If no allocation overlaps a reset, then in every interleaving, deallocations during resets included, the
      peak is a value the usage counter really took since the last reset; once no allocation is in progress it
      is exactly the largest usage since that reset. */
  lemma PeakIsExact(s: State, actions: seq<Action>)
    requires Init(s) && Legal(s, actions) && UndisturbedRun(s, actions)
    ensures var s' := Run(s, actions);
            && s'.peak in s'.history
            && (Quiescent(s') ==> s'.history != [] && s'.peak == Max(s'.history))
  {
    assert Inv(s);
    RunKeepsInv(s, actions);
    var s' := Run(s, actions);
    if Quiescent(s') {
      assert Covered(s', Max(s'.history));
    }
  }

  /** Seen from outside, one call of the loop is a single atomic `peak := max(peak, current)`, taken
      at its last step: leaving the loop and a successful exchange both have exactly that effect. */
  lemma LoopIsAtomicMaximum(s: State, a: Action)
    requires Inv(s) && Enabled(s, a)
    requires !a.ResetStore?
    ensures match a
            case ExchangeOk(i) =>
              Next(s, a).peak == (if s.threads[i].current > s.peak then s.threads[i].current else s.peak)
            case LeaveLoop(i) =>
              Next(s, a).peak == (if s.threads[i].current > s.peak then s.threads[i].current else s.peak)
            case _ => Next(s, a).peak == s.peak
  {
    hide Covered, ResetterOk;
  }

  // ----- resets that an allocation overlaps -----

  lemma RunFive(s: State, a: Action, b: Action, c: Action, d: Action, e: Action)
    requires Enabled(s, a) && Enabled(Next(s, a), b) && Enabled(Next(Next(s, a), b), c)
    requires Enabled(Next(Next(Next(s, a), b), c), d) && Enabled(Next(Next(Next(Next(s, a), b), c), d), e)
    ensures Legal(s, [a, b, c, d, e])
    ensures Run(s, [a, b, c, d, e]) == Next(Next(Next(Next(Next(s, a), b), c), d), e)
  {
    hide Enabled, Next;
    RunFour(Next(s, a), b, c, d, e);
    assert [a, b, c, d, e][1..] == [b, c, d, e];
  }

  lemma RunFour(s: State, a: Action, b: Action, c: Action, d: Action)
    requires Enabled(s, a) && Enabled(Next(s, a), b) && Enabled(Next(Next(s, a), b), c)
    requires Enabled(Next(Next(Next(s, a), b), c), d)
    ensures Legal(s, [a, b, c, d]) && Run(s, [a, b, c, d]) == Next(Next(Next(Next(s, a), b), c), d)
  {
    hide Enabled, Next;
    var s3 := Next(Next(Next(s, a), b), c);
    assert [d][1..] == [] && [c, d][1..] == [d] && [b, c, d][1..] == [c, d] && [a, b, c, d][1..] == [b, c, d];
    assert Legal(Next(s3, d), []) && Run(Next(s3, d), []) == Next(s3, d);
    assert Legal(s3, [d]) && Run(s3, [d]) == Next(s3, d);
    assert Legal(Next(Next(s, a), b), [c, d]) && Run(Next(Next(s, a), b), [c, d]) == Next(s3, d);
    assert Legal(Next(s, a), [b, c, d]) && Run(Next(s, a), [b, c, d]) == Next(s3, d);
  }

  /** From every quiescent state, an allocation of any size that begins and ends between the reset's load and
      its store is lost: everyone is idle again and the recorded peak is below the present usage. */
  lemma RacingResetForgetsPeak(s: State, i: nat, size: size_t) returns (actions: seq<Action>)
    requires Quiescent(s) && s.resetter.NoReset? && i < |s.threads| && 0 < size && s.usage + size < TWO_64
    ensures Legal(s, actions)
    ensures var s' := Run(s, actions);
            && Quiescent(s') && s'.resetter.NoReset? && s'.history != []
            && s'.usage == s.usage + size && s'.peak == s.usage < Max(s'.history)
  {
    var s1 := Next(s, ResetLoad);
    var s2 := Next(s1, FetchAdd(i, size));
    var s3 := Next(s2, LoadPeak(i));
    var last := if s2.usage > s3.peak then ExchangeOk(i) else LeaveLoop(i);
    var s5 := Next(Next(s3, last), ResetStore);
    actions := [ResetLoad, FetchAdd(i, size), LoadPeak(i), last, ResetStore];
    RunFive(s, ResetLoad, FetchAdd(i, size), LoadPeak(i), last, ResetStore);
    assert s5.history == [s.usage, s.usage + size] && s5.history[1] in s5.history;
  }

  /** An allocation that is under way when the reset loads may report a usage from before the reset: the peak
      is then a value the usage has not taken since. */
  lemma StaleAllocationOverstates(s: State, i: nat) returns (actions: seq<Action>)
    requires s.resetter.NoReset? && i < |s.threads| && s.threads[i].Added? && s.threads[i].current > s.usage
    ensures Legal(s, actions)
    ensures var s' := Run(s, actions);
            s'.resetter.NoReset? && s'.peak == s.threads[i].current && s'.history == [s.usage] && s'.peak !in s'.history
  {
    actions := [ResetLoad, ResetStore, LoadPeak(i), ExchangeOk(i)];
    RunFour(s, ResetLoad, ResetStore, LoadPeak(i), ExchangeOk(i));
  }

  // ----- exactly when a reset is harmless -----

  /** The thread is still going to write its value, unless the peak gets there first. One that compares with an
      older, larger peak leaves without writing. */
  predicate WillReport(t: Tracker) {
    t.Added? || (t.Comparing? && t.current > t.seen)
  }

  predicate Reported(s: State, h: size_t) {
    h <= s.peak || exists i :: 0 <= i < |s.threads| && WillReport(s.threads[i]) && h <= s.threads[i].current
  }

  /** What is going to be written is no more than has been taken. */
  predicate NoneOverstates(s: State)
    requires s.history != []
  {
    && s.peak <= Max(s.history)
    && forall i :: 0 <= i < |s.threads| && WillReport(s.threads[i]) ==> s.threads[i].current <= Max(s.history)
  }

  ghost predicate OnCourse(s: State) {
    && s.usage in s.history && (forall h :: h in s.history ==> Reported(s, h)) && NoneOverstates(s)
  }

  predicate NoResets(actions: seq<Action>) {
    forall k :: 0 <= k < |actions| ==> !actions[k].ResetLoad? && !actions[k].ResetStore?
  }

  /** From here on, until the next reset, the peak is the largest usage taken whenever all are idle. */
  ghost predicate ExactFrom(s: State) {
    forall actions :: Legal(s, actions) && NoResets(actions) && Quiescent(Run(s, actions)) ==>
      var s' := Run(s, actions); s'.history != [] && s'.peak == Max(s'.history)
  }

  lemma MaxGrows(xs: seq<size_t>, x: size_t)
    requires xs != []
    ensures Max(xs) <= Max(xs + [x]) && x <= Max(xs + [x])
  {
    assert (xs + [x])[|xs|] == x && x in xs + [x];
    assert Max(xs) in xs + [x];
  }

  /** The other threads report what they did before. */
  lemma OthersReport(s: State, s': State, i: nat, h: size_t)
    requires i < |s.threads| && |s'.threads| == |s.threads| && s.peak <= s'.peak
    requires forall j :: 0 <= j < |s.threads| && j != i ==> s'.threads[j] == s.threads[j]
    requires Reported(s, h) && (WillReport(s.threads[i]) && h <= s.threads[i].current ==> Reported(s', h))
    ensures Reported(s', h)
  {
    if h > s.peak {
      var j :| 0 <= j < |s.threads| && WillReport(s.threads[j]) && h <= s.threads[j].current;
      assert j != i ==> WillReport(s'.threads[j]);
    }
  }

  lemma LoopStepOnCourse(s: State, a: Action)
    requires OnCourse(s) && Enabled(s, a) && (a.LoadPeak? || a.ExchangeOk? || a.ExchangeFail? || a.LeaveLoop?)
    ensures OnCourse(Next(s, a))
  {
    var s' := Next(s, a);
    forall h | h in s'.history
      ensures Reported(s', h)
    {
      assert WillReport(s.threads[a.i]) && h <= s.threads[a.i].current && h > s'.peak ==> WillReport(s'.threads[a.i]);
      OthersReport(s, s', a.i, h);
    }
  }

  lemma AddOnCourse(s: State, i: nat, size: size_t)
    requires OnCourse(s) && Enabled(s, FetchAdd(i, size))
    ensures OnCourse(Next(s, FetchAdd(i, size)))
  {
    var s' := Next(s, FetchAdd(i, size));
    MaxGrows(s.history, s'.usage);
    assert s'.history[|s.history|] == s'.usage && WillReport(s'.threads[i]);
    forall h | h in s'.history
      ensures Reported(s', h)
    {
      if h in s.history { OthersReport(s, s', i, h); }
    }
  }

  lemma SubOnCourse(s: State, size: size_t)
    requires OnCourse(s) && Enabled(s, FetchSub(size))
    ensures OnCourse(Next(s, FetchSub(size)))
  {
    var s' := Next(s, FetchSub(size));
    MaxGrows(s.history, s'.usage);
    assert s'.history[|s.history|] == s'.usage;
    forall h | h in s'.history
      ensures Reported(s', h)
    {
      var top := if h in s.history then h else s.usage;
      assert Reported(s, top) && h <= top;
      if top > s.peak {
        var j :| 0 <= j < |s.threads| && WillReport(s.threads[j]) && top <= s.threads[j].current;
        assert WillReport(s'.threads[j]);
      }
    }
  }

  lemma StepOnCourse(s: State, a: Action)
    requires OnCourse(s) && Enabled(s, a) && !a.ResetLoad? && !a.ResetStore?
    ensures OnCourse(Next(s, a))
  {
    hide OnCourse, Next, Enabled;
    match a
    case FetchAdd(i, size) => AddOnCourse(s, i, size);
    case FetchSub(size) => SubOnCourse(s, size);
    case _ => LoopStepOnCourse(s, a);
  }

  lemma {:induction false} RunOnCourse(s: State, actions: seq<Action>)
    requires OnCourse(s) && Legal(s, actions) && NoResets(actions)
    ensures OnCourse(Run(s, actions))
    decreases |actions|
  {
    hide OnCourse, Next, Enabled;
    if actions != [] {
      StepOnCourse(s, actions[0]);
      RunOnCourse(Next(s, actions[0]), actions[1..]);
    }
  }

  lemma OnCourseIsExact(s: State)
    requires OnCourse(s)
    ensures ExactFrom(s)
  {
    hide OnCourse, Legal, Run, NoResets;
    forall actions | Legal(s, actions) && NoResets(actions) && Quiescent(Run(s, actions))
      ensures var s' := Run(s, actions); s'.history != [] && s'.peak == Max(s'.history)
    {
      RunOnCourse(s, actions);
      QuietOnCourse(Run(s, actions));
    }
  }

  lemma QuietOnCourse(s: State)
    requires OnCourse(s) && Quiescent(s)
    ensures s.history != [] && s.peak == Max(s.history)
  {
    assert Reported(s, Max(s.history));
  }

  // ----- and otherwise some run shows it -----

  /** What a thread in the loop ends up writing. */
  function Written(peak: size_t, t: Tracker): size_t {
    if WillReport(t) && t.current > peak then t.current else peak
  }

  lemma RunAppends(s: State, first: seq<Action>, rest: seq<Action>)
    requires Legal(s, first) && Legal(Run(s, first), rest)
    ensures Legal(s, first + rest) && Run(s, first + rest) == Run(Run(s, first), rest)
    decreases |first|
  {
    hide Enabled, Next;
    if first == [] {
      assert first + rest == rest;
    } else {
      assert (first + rest)[1..] == first[1..] + rest;
      RunAppends(Next(s, first[0]), first[1..], rest);
    }
  }

  lemma OneStep(s: State, a: Action)
    requires Enabled(s, a)
    ensures Legal(s, [a]) && Run(s, [a]) == Next(s, a)
  {
    hide Enabled, Next;
    assert [a][1..] == [] && Legal(Next(s, a), []) && Run(Next(s, a), []) == Next(s, a);
  }

  /** Thread `i` runs its loop to the end. */
  lemma FinishThread(s: State, i: nat) returns (actions: seq<Action>)
    requires i < |s.threads|
    ensures Legal(s, actions) && NoResets(actions)
    ensures Run(s, actions) == s.(threads := s.threads[i := Outside], peak := Written(s.peak, s.threads[i]))
    decreases if s.threads[i].Outside? then 0 else if s.threads[i].Added? then 3
              else if s.threads[i].seen != s.peak then 2 else 1
  {
    var t := s.threads[i];
    if t.Outside? {
      actions := [];
      assert s.threads[i := Outside] == s.threads;
    } else {
      var a := if t.Added? then LoadPeak(i) else if t.current <= t.seen then LeaveLoop(i)
               else if t.seen == s.peak then ExchangeOk(i) else ExchangeFail(i);
      OneStep(s, a);
      var s' := Next(s, a);
      assert s'.threads[i := Outside] == s.threads[i := Outside];
      assert Written(s'.peak, s'.threads[i]) == Written(s.peak, t);
      var rest := FinishThread(s', i);
      RunAppends(s, [a], rest);
      actions := [a] + rest;
    }
  }

  /** All threads below `n` are done, the highest value they were going to write is the peak. */
  ghost predicate DoneBelow(s: State, s': State, n: nat) {
    && |s'.threads| == |s.threads| && s'.history == s.history && s'.resetter == s.resetter && s.peak <= s'.peak
    && (forall i :: 0 <= i < |s.threads| ==> s'.threads[i] == if i < n then Outside else s.threads[i])
    && (forall i :: 0 <= i < |s.threads| && i < n && WillReport(s.threads[i]) ==> s.threads[i].current <= s'.peak)
    && (s'.peak == s.peak || exists i :: 0 <= i < |s.threads| && WillReport(s.threads[i]) && s'.peak == s.threads[i].current)
  }

  lemma {:induction false} FinishAll(s: State, n: nat) returns (actions: seq<Action>)
    requires n <= |s.threads|
    ensures Legal(s, actions) && NoResets(actions) && DoneBelow(s, Run(s, actions), n)
    decreases n
  {
    if n == 0 {
      actions := [];
    } else {
      var first := FinishAll(s, n - 1);
      var s' := Run(s, first);
      var last := FinishThread(s', n - 1);
      RunAppends(s, first, last);
      actions := first + last;
    }
  }

  lemma OffCourseIsNotExact(s: State)
    requires s.history != [] && s.usage in s.history && !OnCourse(s)
    ensures !ExactFrom(s)
  {
    var actions := FinishAll(s, |s.threads|);
    var s' := Run(s, actions);
    assert Quiescent(s');
    if ExactFrom(s) {
      assert s'.peak == Max(s.history);
      forall h | h in s.history
        ensures Reported(s, h)
      {
        assert h <= s'.peak;
      }
    }
  }

  /** What a resetter holds between its load and its store, in every run. */
  predicate ResetterTracks(s: State) {
    s.resetter.Loaded? ==> s.resetter.since != [] && s.usage in s.resetter.since && s.resetter.value in s.resetter.since
  }

  lemma {:induction false} RunTracks(s: State, actions: seq<Action>)
    requires ResetterTracks(s) && Legal(s, actions)
    ensures ResetterTracks(Run(s, actions))
    decreases |actions|
  {
    if actions != [] {
      StepTracks(s, actions[0]);
      RunTracks(Next(s, actions[0]), actions[1..]);
    }
  }

  lemma StepTracks(s: State, a: Action)
    requires ResetterTracks(s) && Enabled(s, a)
    ensures ResetterTracks(Next(s, a))
  {
    var s' := Next(s, a);
    if s'.resetter.Loaded? && s.resetter.Loaded? && (a.FetchAdd? || a.FetchSub?) {
      assert s'.resetter.since[|s.resetter.since|] == s'.usage;
    }
  }

  /** The exact condition: a reset leaves the tracker exact if and only if, when it stores, every usage taken since
      its load is at most the loaded value or still going to be written, and nothing higher than those is. An
      allocation under way with a value no larger than the loaded usage does no harm. */
  lemma ResetIsExactIff(s: State)
    requires s.resetter.Loaded? && ResetterTracks(s)
    ensures var r := s.resetter;
            ExactFrom(Next(s, ResetStore)) <==>
              && (forall h :: h in r.since ==>
                    h <= r.value || exists i :: 0 <= i < |s.threads| && WillReport(s.threads[i]) && h <= s.threads[i].current)
              && (forall i :: 0 <= i < |s.threads| && WillReport(s.threads[i]) ==> s.threads[i].current <= Max(r.since))
  {
    hide ExactFrom;
    var s' := Next(s, ResetStore);
    if OnCourse(s') { OnCourseIsExact(s'); } else { OffCourseIsNotExact(s'); }
  }
}
