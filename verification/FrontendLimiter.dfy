/** The in-memory frontend rate limiter of proxyd under concurrent `Take` calls.

    A call holds the limiter's lock while it picks the generation of the current window, and then the
    generation's lock while it counts; other calls interleave between the two. */
module FrontendLimiter {
  import opened Common

  function Bump(counts: map<string, nat>, key: string): map<string, nat> { counts[key := Get(counts, key) + 1] }

  predicate Admits(counts: map<string, nat>, key: string, max: int) { Get(counts, key) < max }

  /** `limitedKeys`: the counts of one window. */
  class LimitedKeys {
    const truncTS: int
    var keys: map<string, nat>

    constructor (t: int)
      ensures truncTS == t && keys == map[]
    {
      truncTS, keys := t, map[];
    }

    method Take(key: string, max: int) returns (ok: bool)
      modifies this
      ensures keys == Bump(old(keys), key)
      ensures ok <==> Admits(old(keys), key, max)
    {
      if key !in keys {
        keys := keys[key := 0];
      }
      var val := keys[key];
      keys := keys[key := val + 1];
      ok := val < max;
    }
  }

  class MemoryFrontendRateLimiter {
    var currGeneration: LimitedKeys?
    const max: int

    constructor (m: int)
      ensures currGeneration == null && max == m
    {
      currGeneration, max := null, m;
    }

    /** The part under the limiter's lock. */
    method Acquire(truncTS: int) returns (limiter: LimitedKeys)
      modifies this`currGeneration
      ensures currGeneration == limiter && limiter.truncTS == truncTS
      ensures old(currGeneration) != null && old(currGeneration).truncTS == truncTS ==> limiter == old(currGeneration)
      ensures old(currGeneration) == null || old(currGeneration).truncTS != truncTS ==>
        fresh(limiter) && limiter.keys == map[]
    {
      if currGeneration == null || currGeneration.truncTS != truncTS {
        currGeneration := new LimitedKeys(truncTS);
      }
      limiter := currGeneration;
    }

    /** One undisturbed call: the counts of the current window, or none when the window has changed. */
    method Take(truncTS: int, key: string) returns (ok: bool)
      modifies this, currGeneration
      ensures currGeneration != null && currGeneration.truncTS == truncTS
      ensures var counts := if old(currGeneration) != null && old(currGeneration).truncTS == truncTS
                            then old(currGeneration.keys) else map[];
              currGeneration.keys == Bump(counts, key) && (ok <==> Admits(counts, key, max))
    {
      var limiter := Acquire(truncTS);
      ok := limiter.Take(key, max);
    }
  }

  // ----- interleavings -----

  datatype Generation = Generation(window: int, counts: map<string, nat>)
  datatype Waiting = Waiting(key: string, generation: nat)
  datatype Taken = Taken(key: string, window: int, admitted: bool)

  /** All generations ever made (the last is current), calls between their two locks, and finished calls. */
  datatype State = State(generations: seq<Generation>, waiting: map<nat, Waiting>, taken: seq<Taken>)

  datatype Action = Acquire(call: nat, key: string, window: int) | Count(call: nat)

  const INITIAL := State([], map[], [])

  predicate Enabled(s: State, a: Action) {
    match a
    case Acquire(call, _, _) => call !in s.waiting
    case Count(call) => call in s.waiting && s.waiting[call].generation < |s.generations|
  }

  predicate IsCurrent(s: State, window: int) {
    |s.generations| > 0 && s.generations[|s.generations| - 1].window == window
  }

  function Next(max: int, s: State, a: Action): State
    requires Enabled(s, a)
  {
    match a
    case Acquire(call, key, window) =>
      var generations := if IsCurrent(s, window) then s.generations else s.generations + [Generation(window, map[])];
      s.(generations := generations, waiting := s.waiting[call := Waiting(key, |generations| - 1)])
    case Count(call) =>
      var Waiting(key, g) := s.waiting[call];
      var counts := s.generations[g].counts;
      State(s.generations[g := s.generations[g].(counts := Bump(counts, key))],
            s.waiting - {call},
            s.taken + [Taken(key, s.generations[g].window, Admits(counts, key, max))])
  }

  predicate IsRun(max: int, states: seq<State>, actions: seq<Action>) {
    && |states| == |actions| + 1
    && states[0] == INITIAL
    && forall i | 0 <= i < |actions| ::
         Enabled(states[i], actions[i]) && states[i + 1] == Next(max, states[i], actions[i])
  }

  function Completed(taken: seq<Taken>, key: string, window: int): nat {
    if taken == [] then 0
    else
      var t := taken[|taken| - 1];
      Completed(taken[..|taken| - 1], key, window) + if t.key == key && t.window == window then 1 else 0
  }

  function Admitted(taken: seq<Taken>, key: string, window: int): nat {
    if taken == [] then 0
    else
      var t := taken[|taken| - 1];
      Admitted(taken[..|taken| - 1], key, window) +
      if t.key == key && t.window == window && t.admitted then 1 else 0
  }

  /** The clock history: the windows of the generations, in the order they were made. */
  function Windows(s: State): seq<int> { seq(|s.generations|, i requires 0 <= i < |s.generations| => s.generations[i].window) }

  /** No window is read again after another one. */
  predicate Unrepeated(ws: seq<int>) { forall i, j | 0 <= i < j < |ws| :: ws[i] != ws[j] }

  predicate HasWindow(generations: seq<Generation>, window: int) {
    exists g :: 0 <= g < |generations| && generations[g].window == window
  }

  predicate References(s: State) {
    && (forall c | c in s.waiting :: s.waiting[c].generation < |s.generations|)
    && forall i | 0 <= i < |s.taken| :: HasWindow(s.generations, s.taken[i].window)
  }

  /** A generation's counts are the finished calls of its window. */
  ghost predicate CountsRight(s: State) {
    forall g, key: string | 0 <= g < |s.generations| ::
      Get(s.generations[g].counts, key) == Completed(s.taken, key, s.generations[g].window)
  }

  ghost predicate LimitHolds(max: int, taken: seq<Taken>) {
    forall key: string, window: int :: Admitted(taken, key, window) == Min(Completed(taken, key, window), Max(0, max))
  }

  ghost predicate Inv(max: int, s: State) {
    Unrepeated(Windows(s)) && References(s) && CountsRight(s) && LimitHolds(max, s.taken)
  }

  lemma {:induction false} NoneCompleted(taken: seq<Taken>, key: string, window: int)
    requires forall i | 0 <= i < |taken| :: taken[i].window != window
    ensures Completed(taken, key, window) == 0
  {
    if taken != [] { NoneCompleted(taken[..|taken| - 1], key, window); }
  }

  lemma OneMore(taken: seq<Taken>, t: Taken, key: string, window: int)
    ensures Completed(taken + [t], key, window) ==
            Completed(taken, key, window) + if t.key == key && t.window == window then 1 else 0
    ensures Admitted(taken + [t], key, window) ==
            Admitted(taken, key, window) + if t.key == key && t.window == window && t.admitted then 1 else 0
  {
  }

  lemma AcquireStep(max: int, s: State, a: Action)
    requires Inv(max, s) && a.Acquire? && Enabled(s, a) && Unrepeated(Windows(Next(max, s, a)))
    ensures Inv(max, Next(max, s, a))
  {
    var s' := Next(max, s, a);
    assert forall g | 0 <= g < |s.generations| :: s'.generations[g] == s.generations[g] && Windows(s')[g] == Windows(s)[g];
    AcquireReferences(max, s, a);
    forall g, key: string | 0 <= g < |s'.generations|
      ensures Get(s'.generations[g].counts, key) == Completed(s'.taken, key, s'.generations[g].window)
    {
      if g == |s.generations| {
        forall i | 0 <= i < |s.taken| ensures s.taken[i].window != a.window {
          var h :| 0 <= h < |s.generations| && s.generations[h].window == s.taken[i].window;
          assert Windows(s')[h] != Windows(s')[g];
        }
        NoneCompleted(s.taken, key, a.window);
      }
    }
  }

  lemma AcquireReferences(max: int, s: State, a: Action)
    requires References(s) && a.Acquire? && Enabled(s, a)
    ensures References(Next(max, s, a))
  {
  }

  /** The counts of window `w` before a call is the number of its finished calls, so `admitted` decides the minimum. */
  lemma LimitStep(max: int, taken: seq<Taken>, key: string, w: int)
    requires LimitHolds(max, taken)
    ensures LimitHolds(max, taken + [Taken(key, w, Completed(taken, key, w) < max)])
  {
    var t := Taken(key, w, Completed(taken, key, w) < max);
    forall k: string, v: int
      ensures Admitted(taken + [t], k, v) == Min(Completed(taken + [t], k, v), Max(0, max))
    {
      OneMore(taken, t, k, v);
      assert Admitted(taken, k, v) == Min(Completed(taken, k, v), Max(0, max));
    }
  }

  lemma CountsStep(s: State, s': State, g: nat, key: string, t: Taken)
    requires Unrepeated(Windows(s)) && CountsRight(s) && g < |s.generations|
    requires t.key == key && t.window == s.generations[g].window
    requires s'.taken == s.taken + [t]
    requires s'.generations ==
             s.generations[g := Generation(t.window, Bump(s.generations[g].counts, key))]
    ensures CountsRight(s')
  {
    forall h, k: string | 0 <= h < |s'.generations|
      ensures Get(s'.generations[h].counts, k) == Completed(s'.taken, k, s'.generations[h].window)
    {
      OneMore(s.taken, t, k, s.generations[h].window);
      assert Windows(s)[h] == s.generations[h].window && Windows(s)[g] == t.window;
    }
  }

  lemma ReferencesStep(s: State, a: Action, max: int)
    requires References(s) && a.Count? && Enabled(s, a)
    ensures References(Next(max, s, a))
  {
    var s' := Next(max, s, a);
    var g := s.waiting[a.call].generation;
    forall i | 0 <= i < |s'.taken|
      ensures HasWindow(s'.generations, s'.taken[i].window)
    {
      if i < |s.taken| {
        var h :| 0 <= h < |s.generations| && s.generations[h].window == s.taken[i].window;
        assert s'.generations[h].window == s'.taken[i].window;
      } else {
        assert s'.generations[g].window == s'.taken[i].window;
      }
    }
  }

  lemma CountStep(max: int, s: State, a: Action)
    requires Inv(max, s) && a.Count? && Enabled(s, a)
    ensures Inv(max, Next(max, s, a))
  {
    var s' := Next(max, s, a);
    var Waiting(key, g) := s.waiting[a.call];
    var w := s.generations[g].window;
    var t := Taken(key, w, Get(s.generations[g].counts, key) < max);
    assert Get(s.generations[g].counts, key) == Completed(s.taken, key, w);
    LimitStep(max, s.taken, key, w);
    CountsStep(s, s', g, key, t);
    ReferencesStep(s, a, max);
    assert Windows(s') == Windows(s);
  }

  /** The clock history grows by every window other than the current one. */
  lemma WindowsStep(max: int, s: State, a: Action)
    requires Enabled(s, a)
    ensures Windows(Next(max, s, a)) ==
            if a.Acquire? && !IsCurrent(s, a.window) then Windows(s) + [a.window] else Windows(s)
  {
  }

  /** As long as no window was read again, of n finished calls for a key in a window exactly min(n, max) were admitted. */
  lemma {:induction false} LimitUnrepeated(max: int, states: seq<State>, actions: seq<Action>, i: nat)
    requires IsRun(max, states, actions) && i < |states| && Unrepeated(Windows(states[i]))
    ensures Inv(max, states[i])
  {
    if i > 0 {
      var s, a := states[i - 1], actions[i - 1];
      assert Enabled(s, a) && states[i - 1 + 1] == Next(max, s, a);
      WindowsStep(max, s, a);
      assert forall g | 0 <= g < |Windows(s)| :: Windows(states[i])[g] == Windows(s)[g];
      LimitUnrepeated(max, states, actions, i - 1);
      if a.Acquire? { AcquireStep(max, s, a); } else { CountStep(max, s, a); }
    }
  }

  /** The clock does not run backwards: no window before the current one is read. */
  predicate ClockForward(s: State, a: Action) {
    a.Acquire? && |s.generations| > 0 ==> s.generations[|s.generations| - 1].window <= a.window
  }

  predicate Ascending(ws: seq<int>) { forall i, j | 0 <= i < j < |ws| :: ws[i] < ws[j] }

  lemma AscendStep(max: int, s: State, a: Action)
    requires Enabled(s, a) && ClockForward(s, a) && Ascending(Windows(s))
    ensures Ascending(Windows(Next(max, s, a)))
  {
    WindowsStep(max, s, a);
    assert s.generations != [] ==> Windows(s)[|s.generations| - 1] == s.generations[|s.generations| - 1].window;
  }

  lemma {:induction false} WindowsAscend(max: int, states: seq<State>, actions: seq<Action>, i: nat)
    requires IsRun(max, states, actions) && i < |states|
    requires forall j | 0 <= j < i :: ClockForward(states[j], actions[j])
    ensures Ascending(Windows(states[i]))
  {
    if i > 0 {
      WindowsAscend(max, states, actions, i - 1);
      assert Enabled(states[i - 1], actions[i - 1]) && ClockForward(states[i - 1], actions[i - 1]);
      AscendStep(max, states[i - 1], actions[i - 1]);
    }
  }

  /** In particular the limit holds throughout every run whose clock does not run backwards. */
  lemma LimitAlways(max: int, states: seq<State>, actions: seq<Action>, i: nat)
    requires IsRun(max, states, actions) && i < |states|
    requires forall j | 0 <= j < i :: ClockForward(states[j], actions[j])
    ensures Inv(max, states[i])
  {
    WindowsAscend(max, states, actions, i);
    LimitUnrepeated(max, states, actions, i);
  }

  // ----- exactly which clock histories keep the limit -----

  ghost predicate Reachable(max: int, s: State) {
    exists states: seq<State>, actions: seq<Action> :: IsRun(max, states, actions) && states[|actions|] == s
  }

  lemma ExtendRun(max: int, states: seq<State>, actions: seq<Action>, a: Action)
    requires IsRun(max, states, actions) && Enabled(states[|actions|], a)
    ensures IsRun(max, states + [Next(max, states[|actions|], a)], actions + [a])
  {
    var states', actions' := states + [Next(max, states[|actions|], a)], actions + [a];
    forall i | 0 <= i < |actions'|
      ensures Enabled(states'[i], actions'[i]) && states'[i + 1] == Next(max, states'[i], actions'[i])
    {
      if i < |actions| {
        assert states'[i] == states[i] && states'[i + 1] == states[i + 1] && actions'[i] == actions[i];
      }
    }
  }

  lemma ReachStep(max: int, s: State, a: Action)
    requires Reachable(max, s) && Enabled(s, a)
    ensures Reachable(max, Next(max, s, a))
  {
    var states: seq<State>, actions: seq<Action> :| IsRun(max, states, actions) && states[|actions|] == s;
    ExtendRun(max, states, actions, a);
    assert (states + [Next(max, s, a)])[|actions + [a]|] == Next(max, s, a);
  }

  /** The counts a call in this window finds. */
  function Found(s: State, window: int): map<string, nat> {
    if IsCurrent(s, window) then s.generations[|s.generations| - 1].counts else map[]
  }

  /** One undisturbed call. */
  lemma WholeTake(max: int, s: State, key: string, window: int) returns (s': State)
    requires Reachable(max, s) && s.waiting == map[]
    ensures Reachable(max, s') && s'.waiting == map[] && IsCurrent(s', window)
    ensures Found(s', window) == Bump(Found(s, window), key)
    ensures Windows(s') == if IsCurrent(s, window) then Windows(s) else Windows(s) + [window]
    ensures s'.taken == s.taken + [Taken(key, window, Admits(Found(s, window), key, max))]
  {
    var s1 := Next(max, s, Acquire(0, key, window));
    ReachStep(max, s, Acquire(0, key, window));
    ReachStep(max, s1, Count(0));
    s' := Next(max, s1, Count(0));
  }

  /** The first n calls after a change of window are admitted, up to the maximum. */
  lemma {:induction false} Fill(max: int, s: State, key: string, window: int, n: nat) returns (s': State)
    requires Reachable(max, s) && s.waiting == map[] && !IsCurrent(s, window) && 1 <= n <= max
    ensures Reachable(max, s') && s'.waiting == map[] && IsCurrent(s', window)
    ensures Get(Found(s', window), key) == n && Windows(s') == Windows(s) + [window]
    ensures forall w: int :: Admitted(s'.taken, key, w) == Admitted(s.taken, key, w) + if w == window then n else 0
  {
    var before := s;
    if n > 1 { before := Fill(max, s, key, window, n - 1); }
    s' := WholeTake(max, before, key, window);
    forall w: int { OneMore(before.taken, Taken(key, window, true), key, w); }
  }

  predicate NeighboursDiffer(ws: seq<int>) { forall i | 0 < i < |ws| :: ws[i - 1] != ws[i] }

  /** What a key can get in window `w` over a clock history: the maximum for every generation. */
  function Share(max: nat, ws: seq<int>, w: int): nat {
    if ws == [] then 0 else Share(max, ws[..|ws| - 1], w) + if ws[|ws| - 1] == w then max else 0
  }

  /** Over every clock history a key can be admitted the maximum in every generation. */
  lemma {:induction false} FillAll(max: nat, ws: seq<int>, key: string) returns (s: State)
    requires max > 0 && NeighboursDiffer(ws)
    ensures Reachable(max, s) && s.waiting == map[] && Windows(s) == ws
    ensures forall w: int :: Admitted(s.taken, key, w) == Share(max, ws, w)
  {
    if ws == [] {
      s := INITIAL;
      assert IsRun(max, [INITIAL], []);
      assert [INITIAL][0] == INITIAL;
    } else {
      var n := |ws| - 1;
      var s0 := FillAll(max, ws[..n], key);
      assert n > 0 ==> Windows(s0)[n - 1] == ws[n - 1];
      assert !IsCurrent(s0, ws[n]);
      s := Fill(max, s0, key, ws[n], max);
      assert ws == ws[..n] + [ws[n]];
    }
  }

  lemma {:induction false} ShareOnce(max: nat, ws: seq<int>, i: nat)
    requires i < |ws|
    ensures Share(max, ws, ws[i]) >= max
  {
    if i < |ws| - 1 { ShareOnce(max, ws[..|ws| - 1], i); }
  }

  lemma {:induction false} ShareTwice(max: nat, ws: seq<int>, i: nat, j: nat)
    requires i < j < |ws| && ws[i] == ws[j]
    ensures Share(max, ws, ws[i]) >= max + max
  {
    if j < |ws| - 1 { ShareTwice(max, ws[..|ws| - 1], i, j); } else { ShareOnce(max, ws[..|ws| - 1], i); }
  }

  /** A history that returns to a window has a run in which some key is admitted twice the maximum there. */
  lemma RepeatOveradmits(max: nat, ws: seq<int>, key: string, i: nat, j: nat) returns (s: State)
    requires max > 0 && NeighboursDiffer(ws) && i < j < |ws| && ws[i] == ws[j]
    ensures Reachable(max, s) && Windows(s) == ws && Admitted(s.taken, key, ws[i]) >= max + max
    ensures !LimitHolds(max, s.taken)
  {
    s := FillAll(max, ws, key);
    ShareTwice(max, ws, i, j);
    assert Admitted(s.taken, key, ws[i]) > Min(Completed(s.taken, key, ws[i]), Max(0, max));
  }

  predicate NobodyAdmitted(taken: seq<Taken>) { forall i | 0 <= i < |taken| :: !taken[i].admitted }

  lemma {:induction false} NobodyCounts(taken: seq<Taken>, key: string, w: int)
    requires NobodyAdmitted(taken)
    ensures Admitted(taken, key, w) == 0
  {
    if taken != [] { NobodyCounts(taken[..|taken| - 1], key, w); }
  }

  lemma {:induction false} NoneAllowed(max: int, states: seq<State>, actions: seq<Action>, i: nat)
    requires max <= 0 && IsRun(max, states, actions) && i < |states|
    ensures NobodyAdmitted(states[i].taken)
  {
    if i > 0 {
      NoneAllowed(max, states, actions, i - 1);
      assert Enabled(states[i - 1], actions[i - 1]);
    }
  }

  ghost predicate HistoryKeepsLimit(max: int, ws: seq<int>) {
    forall s: State | Reachable(max, s) && Windows(s) == ws :: LimitHolds(max, s.taken)
  }

  lemma UnrepeatedKeeps(max: int, ws: seq<int>)
    requires max <= 0 || Unrepeated(ws)
    ensures HistoryKeepsLimit(max, ws)
  {
    forall s: State | Reachable(max, s) && Windows(s) == ws ensures LimitHolds(max, s.taken) {
      var states: seq<State>, actions: seq<Action> :| IsRun(max, states, actions) && states[|actions|] == s;
      if Unrepeated(ws) {
        LimitUnrepeated(max, states, actions, |actions|);
      } else {
        NoneAllowed(max, states, actions, |actions|);
        forall key: string, w: int { NobodyCounts(s.taken, key, w); }
      }
    }
  }

  /** The limit holds in all runs over a clock history exactly when no window is read again after another one, or
      nothing is admitted at all. */
  lemma LimitIffUnrepeated(max: int, ws: seq<int>)
    requires NeighboursDiffer(ws)
    ensures HistoryKeepsLimit(max, ws) <==> max <= 0 || Unrepeated(ws)
  {
    if max <= 0 || Unrepeated(ws) {
      UnrepeatedKeeps(max, ws);
    } else {
      var i, j :| 0 <= i < j < |ws| && ws[i] == ws[j];
      var s := RepeatOveradmits(max, ws, "", i, j);
    }
  }

  lemma {:induction false} HistoryNeighbours(max: int, states: seq<State>, actions: seq<Action>, i: nat)
    requires IsRun(max, states, actions) && i < |states|
    ensures NeighboursDiffer(Windows(states[i]))
  {
    if i > 0 {
      HistoryNeighbours(max, states, actions, i - 1);
      var s, a := states[i - 1], actions[i - 1];
      assert Enabled(s, a) && states[i - 1 + 1] == Next(max, s, a);
      WindowsStep(max, s, a);
    }
  }
}
