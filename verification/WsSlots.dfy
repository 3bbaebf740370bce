/** WebSocket connection slots of proxyd under the local limiter, over every interleaving of dials and closes. */
module WsSlots {
  import opened Common

  /** The counters of `LocalBackendRateLimiter`; each method body runs under its mutex. */
  class LocalBackendRateLimiter {
    var backendWSConns: map<string, nat>

    constructor ()
      ensures backendWSConns == map[]
    {
      backendWSConns := map[];
    }

    method IncBackendWSConns(name: string, max: int) returns (incremented: bool)
      modifies this
      ensures (backendWSConns, incremented) == Inc(old(backendWSConns), name, max)
    {
      if Get(backendWSConns, name) == max {
        return false;
      }
      backendWSConns := backendWSConns[name := Get(backendWSConns, name) + 1];
      return true;
    }

    method DecBackendWSConns(name: string)
      modifies this
      ensures backendWSConns == Dec(old(backendWSConns), name)
    {
      if Get(backendWSConns, name) == 0 {
        return;
      }
      backendWSConns := backendWSConns[name := Get(backendWSConns, name) - 1];
    }
  }

  function Inc(m: map<string, nat>, name: string, max: int): (map<string, nat>, bool) {
    if Get(m, name) == max then (m, false) else (m[name := Get(m, name) + 1], true)
  }

  predicate GuardFires(m: map<string, nat>, name: string) { Get(m, name) == 0 }

  function Dec(m: map<string, nat>, name: string): map<string, nat> {
    if GuardFires(m, name) then m else m[name := Get(m, name) - 1]
  }

  // ----- interleavings -----

  /** A connection from the saturation check until its slot is given back. */
  datatype Phase = Dialing | DialFailed | Open | Closing
  datatype Conn = Conn(backend: string, phase: Phase)

  datatype State = State(counts: map<string, nat>, conns: map<nat, Conn>)

  const INITIAL := State(map[], map[])

  datatype Action =
    | Request(c: nat, backend: string)
    | DialOk(c: nat)
    | DialError(c: nat)
    | PumpEnds(c: nat)
    | Release(c: nat)

  predicate Enabled(s: State, a: Action) {
    match a
    case Request(c, _) => c !in s.conns
    case DialOk(c) => c in s.conns && s.conns[c].phase == Dialing
    case DialError(c) => c in s.conns && s.conns[c].phase == Dialing
    case PumpEnds(c) => c in s.conns && s.conns[c].phase == Open
    case Release(c) => c in s.conns && (s.conns[c].phase == DialFailed || s.conns[c].phase == Closing)
  }

  /** `maxWSConns` per backend. Zero, also for a backend that is not listed, switches the counter off; a negative
      maximum counts and never saturates. */
  type Limits = map<string, int>

  function MaxOf(limits: Limits, b: string): int { if b in limits then limits[b] else 0 }

  function Next(limits: Limits, s: State, a: Action): State
    requires Enabled(s, a)
  {
    match a
    case Request(c, backend) =>
      var max := MaxOf(limits, backend);
      if max == 0 then s.(conns := s.conns[c := Conn(backend, Dialing)])
      else
        var (counts, ok) := Inc(s.counts, backend, max);
        if ok then State(counts, s.conns[c := Conn(backend, Dialing)]) else s
    case DialOk(c) => s.(conns := s.conns[c := s.conns[c].(phase := Open)])
    case DialError(c) => s.(conns := s.conns[c := s.conns[c].(phase := DialFailed)])
    case PumpEnds(c) => s.(conns := s.conns[c := s.conns[c].(phase := Closing)])
    case Release(c) => State(Dec(s.counts, s.conns[c].backend), s.conns - {c})
  }

  predicate IsRun(limits: Limits, states: seq<State>, actions: seq<Action>) {
    && |states| == |actions| + 1
    && states[0] == INITIAL
    && forall i | 0 <= i < |actions| ::
         Enabled(states[i], actions[i]) && states[i + 1] == Next(limits, states[i], actions[i])
  }

  /** Dials in flight and open proxiers of a backend. */
  function Holders(conns: map<nat, Conn>, backend: string): set<nat> {
    set c | c in conns && conns[c].backend == backend
  }

  predicate SlotsRight(limits: Limits, s: State, b: string) {
    && Get(s.counts, b) == (if MaxOf(limits, b) == 0 then 0 else |Holders(s.conns, b)|)
    && (MaxOf(limits, b) > 0 ==> Get(s.counts, b) <= MaxOf(limits, b))
  }

  ghost predicate Inv(limits: Limits, s: State) {
    forall b: string :: SlotsRight(limits, s, b)
  }

  lemma HoldersAdd(conns: map<nat, Conn>, c: nat, conn: Conn, b: string)
    requires c !in conns
    ensures |Holders(conns[c := conn], b)| == |Holders(conns, b)| + if conn.backend == b then 1 else 0
  {
    if conn.backend == b {
      assert Holders(conns[c := conn], b) == Holders(conns, b) + {c};
    } else {
      assert Holders(conns[c := conn], b) == Holders(conns, b);
    }
  }

  lemma HoldersMove(conns: map<nat, Conn>, c: nat, phase: Phase, b: string)
    requires c in conns
    ensures Holders(conns[c := conns[c].(phase := phase)], b) == Holders(conns, b)
  {
  }

  lemma HoldersDrop(conns: map<nat, Conn>, c: nat, b: string)
    requires c in conns
    ensures |Holders(conns - {c}, b)| == |Holders(conns, b)| - if conns[c].backend == b then 1 else 0
  {
    if conns[c].backend == b {
      assert Holders(conns - {c}, b) == Holders(conns, b) - {c};
    } else {
      assert Holders(conns - {c}, b) == Holders(conns, b);
    }
  }

  lemma SlotsStep(limits: Limits, s: State, a: Action, b: string)
    requires Enabled(s, a) && SlotsRight(limits, s, b)
    ensures SlotsRight(limits, Next(limits, s, a), b)
  {
    match a
    case Request(c, backend) => HoldersAdd(s.conns, c, Conn(backend, Dialing), b);
    case DialOk(c) => HoldersMove(s.conns, c, Open, b);
    case DialError(c) => HoldersMove(s.conns, c, DialFailed, b);
    case PumpEnds(c) => HoldersMove(s.conns, c, Closing, b);
    case Release(c) => HoldersDrop(s.conns, c, b);
  }

  lemma InvStep(limits: Limits, s: State, a: Action)
    requires Inv(limits, s) && Enabled(s, a)
    ensures Inv(limits, Next(limits, s, a))
  {
    forall b: string ensures SlotsRight(limits, Next(limits, s, a), b) {
      SlotsStep(limits, s, a, b);
    }
  }

  lemma {:induction false} SlotsAlways(limits: Limits, states: seq<State>, actions: seq<Action>, i: nat)
    requires IsRun(limits, states, actions) && i < |states|
    ensures Inv(limits, states[i])
  {
    if i > 0 {
      SlotsAlways(limits, states, actions, i - 1);
      assert Enabled(states[i - 1], actions[i - 1]);
      InvStep(limits, states[i - 1], actions[i - 1]);
    }
  }

  /** The counter of a backend is its dials in flight plus its open connections, and within a positive maximum. */
  lemma SlotAccounting(limits: Limits, states: seq<State>, actions: seq<Action>, i: nat, b: string)
    requires IsRun(limits, states, actions) && i < |states| && MaxOf(limits, b) != 0
    ensures Get(states[i].counts, b) == |Holders(states[i].conns, b)|
    ensures MaxOf(limits, b) > 0 ==> |Holders(states[i].conns, b)| <= MaxOf(limits, b)
  {
    SlotsAlways(limits, states, actions, i);
    assert SlotsRight(limits, states[i], b);
  }

  /** The decrement-at-zero guard fires exactly for backends whose counter is switched off. */
  lemma GuardFiresIffUnlimited(limits: Limits, states: seq<State>, actions: seq<Action>, i: nat)
    requires IsRun(limits, states, actions) && i < |actions| && actions[i].Release?
    ensures actions[i].c in states[i].conns
    ensures GuardFires(states[i].counts, states[i].conns[actions[i].c].backend) <==>
            MaxOf(limits, states[i].conns[actions[i].c].backend) == 0
  {
    SlotsAlways(limits, states, actions, i);
    assert Enabled(states[i], actions[i]);
    var c := actions[i].c;
    assert SlotsRight(limits, states[i], states[i].conns[c].backend);
    assert c in Holders(states[i].conns, states[i].conns[c].backend);
  }

  /** A dial goes ahead exactly when the backend has no positive maximum or fewer holders than that, and takes a slot. */
  lemma DialsIff(limits: Limits, states: seq<State>, actions: seq<Action>, i: nat)
    requires IsRun(limits, states, actions) && i < |actions| && actions[i].Request?
    ensures var b, c := actions[i].backend, actions[i].c;
            && (c in states[i + 1].conns <==> MaxOf(limits, b) <= 0 || |Holders(states[i].conns, b)| < MaxOf(limits, b))
            && (c in states[i + 1].conns ==> states[i + 1].conns == states[i].conns[c := Conn(b, Dialing)])
            && (c !in states[i + 1].conns ==> states[i + 1] == states[i])
  {
    SlotsAlways(limits, states, actions, i);
    assert Enabled(states[i], actions[i]) && SlotsRight(limits, states[i], actions[i].backend);
  }

  predicate IsPath(limits: Limits, states: seq<State>, actions: seq<Action>) {
    && |states| == |actions| + 1
    && forall i | 0 <= i < |actions| ::
         Enabled(states[i], actions[i]) && states[i + 1] == Next(limits, states[i], actions[i])
  }

  /** Every dial and every connection can end, and then its slot is free again and nobody else's is. */
  lemma SlotComesBack(limits: Limits, s: State, c: nat) returns (states: seq<State>, actions: seq<Action>)
    requires c in s.conns
    ensures IsPath(limits, states, actions) && states[0] == s
    ensures states[|actions|].conns == s.conns - {c} && states[|actions|].counts == Dec(s.counts, s.conns[c].backend)
  {
    var phase := s.conns[c].phase;
    if phase == DialFailed || phase == Closing {
      actions, states := [Release(c)], [s, Next(limits, s, Release(c))];
    } else {
      var a := if phase == Open then PumpEnds(c) else DialError(c);
      var s1 := Next(limits, s, a);
      actions, states := [a, Release(c)], [s, s1, Next(limits, s1, Release(c))];
      assert s1.conns - {c} == s.conns - {c};
    }
  }

  /** A dial that succeeds is open until its pump ends. */
  lemma DialOpens(limits: Limits, s: State, c: nat)
    requires c in s.conns && s.conns[c].phase == Dialing
    ensures Enabled(s, DialOk(c)) && c in Next(limits, s, DialOk(c)).conns
    ensures Enabled(Next(limits, s, DialOk(c)), PumpEnds(c)) && !Enabled(Next(limits, s, DialOk(c)), Release(c))
  {
  }
}
