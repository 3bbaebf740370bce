/** `SimpleTxManager.Send` of bss-core/txmgr as a step relation over its event loop and its workers.

    One action is one call into the environment or one critical section of `SendState`, so any two
    workers and the event loop interleave between any two of them. In particular checking for an abort
    and cancelling are two actions, and so are the tick's check and the spawn that follows it. */
module TxManager {
  import opened Common
  import opened SendStates

  datatype Config = Config(numConfirmations: nat, safeAbortCount: nat)

  datatype Receipt = Receipt(txHash: TxHash, height: nat, failed: bool)

  /** A receipt together with the tip at which `waitMined` found it confirmed. */
  datatype Sighting = Sighting(receipt: Receipt, tip: nat)

  /** Where a worker is in `sendTxAsync` and `waitMined`. */
  datatype Pc =
    | Pricing
    | Publishing(tx: TxHash)
    | Recording(tx: TxHash, err: Option<string>)
    | CheckingAbort
    | Cancelling
    | Querying(tx: TxHash)
    | MarkingMined(receipt: Receipt)
    | MarkingNotMined(tx: TxHash)
    | Confirming(receipt: Receipt)
    | Waiting(tx: TxHash)
    | Reporting(seen: Sighting)
    | Done(found: Option<Sighting>)

  /** What `Send` returns: a receipt and nil, a receipt and `ErrReverted`, or the context's error. */
  datatype Result = Confirmed(seen: Sighting) | Reverted(seen: Sighting) | Stopped

  /** The event loop; leaving it runs the deferred `cancel` and then the deferred `wg.Wait`. */
  datatype Main = Looping | Spawning | Leaving(result: Result) | Joining(result: Result) | Returned(result: Result)

  datatype State = State(
    workers: seq<Pc>,
    counters: Counters,
    channel: Option<Sighting>,
    cancelled: bool,
    main: Main,
    // what happened so far: hashes published without error, the caller's context ending, an abort being seen
    published: set<TxHash>,
    callerDone: bool,
    abortSeen: bool)

  datatype Answer = Found(receipt: Receipt) | Missing | Unknown

  datatype Action =
    | CallerCancels
    | Price(w: nat, tx: Option<TxHash>)
    | Publish(w: nat, err: Option<string>)
    | Record(w: nat)
    | CheckAbort(w: nat)
    | Cancel(w: nat)
    | Query(w: nat, answer: Answer)
    | MarkMined(w: nat)
    | MarkNotMined(w: nat)
    | Confirm(w: nat, tip: Option<nat>)
    | Tick(w: nat)
    | GiveUp(w: nat)
    | Report(w: nat)
    | CheckTick
    | Spawn
    | SeeCancelled
    | Receive
    | DeferCancel
    | Join

  const CANCELED := "context canceled"

  const INITIAL := State([Pricing], FRESH, None, false, Looping, {}, false, false)

  predicate Enabled(s: State, a: Action) {
    match a
    case CallerCancels => !s.callerDone
    case Price(w, _) => w < |s.workers| && s.workers[w].Pricing?
    case Publish(w, _) => w < |s.workers| && s.workers[w].Publishing?
    case Record(w) => w < |s.workers| && s.workers[w].Recording?
    case CheckAbort(w) => w < |s.workers| && s.workers[w].CheckingAbort?
    case Cancel(w) => w < |s.workers| && s.workers[w].Cancelling?
    case Query(w, ans) =>
      w < |s.workers| && s.workers[w].Querying? && (ans.Found? ==> ans.receipt.txHash == s.workers[w].tx)
    case MarkMined(w) => w < |s.workers| && s.workers[w].MarkingMined?
    case MarkNotMined(w) => w < |s.workers| && s.workers[w].MarkingNotMined?
    case Confirm(w, _) => w < |s.workers| && s.workers[w].Confirming?
    case Tick(w) => w < |s.workers| && s.workers[w].Waiting?
    case GiveUp(w) => w < |s.workers| && s.workers[w].Waiting? && s.cancelled
    case Report(w) => w < |s.workers| && s.workers[w].Reporting?
    case CheckTick => s.main.Looping?
    case Spawn => s.main.Spawning?
    case SeeCancelled => s.main.Looping? && s.cancelled
    case Receive => s.main.Looping? && s.channel.Some?
    case DeferCancel => s.main.Leaving?
    case Join => s.main.Joining? && forall w | 0 <= w < |s.workers| :: s.workers[w].Done?
  }

  predicate IsConfirmed(cfg: Config, seen: Sighting) {
    seen.receipt.height + cfg.numConfirmations <= seen.tip + 1
  }

  /** The worker an action belongs to. */
  function Mover(a: Action): Option<nat> {
    match a
    case CallerCancels | CheckTick | Spawn | SeeCancelled | Receive | DeferCancel | Join => None
    case _ => Some(a.w)
  }

  /** Where the acting worker goes. */
  function After(cfg: Config, s: State, a: Action): Pc
    requires Enabled(s, a) && Mover(a).Some?
  {
    match a
    case Price(_, tx) => if tx.Some? then Publishing(tx.value) else Done(None)
    case Publish(w, err) => Recording(s.workers[w].tx, err)
    case Record(w) =>
      var Recording(tx, err) := s.workers[w];
      if err.None? then Querying(tx) else if Contains(err.value, CANCELED) then Done(None) else CheckingAbort
    case CheckAbort(_) => if Aborts(s.counters, cfg.safeAbortCount) then Cancelling else Done(None)
    case Cancel(_) => Done(None)
    case Query(w, Found(r)) => MarkingMined(r)
    case Query(w, Missing) => MarkingNotMined(s.workers[w].tx)
    case Query(w, Unknown) => Waiting(s.workers[w].tx)
    case MarkMined(w) => Confirming(s.workers[w].receipt)
    case MarkNotMined(w) => Waiting(s.workers[w].tx)
    case Confirm(w, tip) =>
      var r := s.workers[w].receipt;
      if tip.Some? && IsConfirmed(cfg, Sighting(r, tip.value)) then Reporting(Sighting(r, tip.value)) else Waiting(r.txHash)
    case Tick(w) => Querying(s.workers[w].tx)
    case GiveUp(_) => Done(None)
    case Report(w) => Done(Some(s.workers[w].seen))
  }

  /** The call into `SendState`, if there is one. */
  function CountersAfter(s: State, a: Action): Counters
    requires Enabled(s, a)
  {
    match a
    case Record(w) => Apply(s.counters, Sent(s.workers[w].err))
    case MarkMined(w) => Apply(s.counters, Mined(s.workers[w].receipt.txHash))
    case MarkNotMined(w) => Apply(s.counters, NotMined(s.workers[w].tx))
    case _ => s.counters
  }

  /** An action of a worker: reporting to a full channel drops the sighting. */
  function WorkerNext(cfg: Config, s: State, a: Action): State
    requires Enabled(s, a) && Mover(a).Some?
  {
    s.(workers := s.workers[a.w := After(cfg, s, a)],
       counters := CountersAfter(s, a),
       channel := if a.Report? && s.channel.None? then Some(s.workers[a.w].seen) else s.channel,
       cancelled := s.cancelled || a.Cancel?,
       published := if a.Publish? && a.err.None? then s.published + {s.workers[a.w].tx} else s.published,
       abortSeen := s.abortSeen || (a.CheckAbort? && Aborts(s.counters, cfg.safeAbortCount)))
  }

  /** An action of the caller or the event loop. */
  function MainNext(s: State, a: Action): State
    requires Enabled(s, a) && Mover(a).None?
  {
    match a
    case CallerCancels => s.(callerDone := true, cancelled := true)
    case CheckTick => if s.counters.mined != {} then s else s.(main := Spawning)
    case Spawn => s.(workers := s.workers + [Pricing], main := Looping)
    case SeeCancelled => s.(main := Leaving(Stopped))
    case Receive =>
      var seen := s.channel.value;
      s.(channel := None, main := Leaving(if seen.receipt.failed then Reverted(seen) else Confirmed(seen)))
    case DeferCancel => s.(cancelled := true, main := Joining(s.main.result))
    case Join => s.(main := Returned(s.main.result))
  }

  function Next(cfg: Config, s: State, a: Action): State
    requires Enabled(s, a)
  {
    if Mover(a).Some? then WorkerNext(cfg, s, a) else MainNext(s, a)
  }

  /** States joined by actions. */
  predicate IsPath(cfg: Config, states: seq<State>, actions: seq<Action>) {
    && |states| == |actions| + 1
    && forall i | 0 <= i < |actions| ::
         Enabled(states[i], actions[i]) && states[i + 1] == Next(cfg, states[i], actions[i])
  }

  /** A run: a path from the call of `Send`. */
  predicate IsRun(cfg: Config, states: seq<State>, actions: seq<Action>) {
    IsPath(cfg, states, actions) && states[0] == INITIAL
  }

  // ----- safety -----

  /** The transaction a worker has published and not abandoned. */
  function Owns(pc: Pc): Option<TxHash> {
    match pc
    case Recording(tx, err) => if err.None? then Some(tx) else None
    case Querying(tx) => Some(tx)
    case MarkingMined(r) => Some(r.txHash)
    case MarkingNotMined(tx) => Some(tx)
    case Confirming(r) => Some(r.txHash)
    case Waiting(tx) => Some(tx)
    case Reporting(seen) => Some(seen.receipt.txHash)
    case Done(found) => if found.Some? then Some(found.value.receipt.txHash) else None
    case _ => None
  }

  /** A sighting `Send` may return: of a transaction it published, seen confirmed. */
  predicate Genuine(cfg: Config, s: State, seen: Sighting) {
    seen.receipt.txHash in s.published && IsConfirmed(cfg, seen)
  }

  predicate WorkerOk(cfg: Config, s: State, pc: Pc) {
    && (Owns(pc).Some? ==> Owns(pc).value in s.published)
    && (pc.Reporting? ==> Genuine(cfg, s, pc.seen))
    && (pc.Done? && pc.found.Some? ==> Genuine(cfg, s, pc.found.value))
    && (pc.Cancelling? ==> s.abortSeen)
  }

  predicate ResultOk(cfg: Config, s: State, r: Result) {
    match r
    case Confirmed(seen) => Genuine(cfg, s, seen) && !seen.receipt.failed
    case Reverted(seen) => Genuine(cfg, s, seen) && seen.receipt.failed
    case Stopped => s.callerDone || s.abortSeen
  }

  predicate HasLeft(m: Main) { m.Leaving? || m.Joining? || m.Returned? }

  predicate WorkersOk(cfg: Config, s: State) {
    forall w | 0 <= w < |s.workers| :: WorkerOk(cfg, s, s.workers[w])
  }

  predicate LoopOk(cfg: Config, s: State) {
    && (s.channel.Some? ==> Genuine(cfg, s, s.channel.value))
    && (HasLeft(s.main) ==> ResultOk(cfg, s, s.main.result))
    && (s.cancelled && !HasLeft(s.main) ==> s.callerDone || s.abortSeen)
    && (s.main.Joining? || s.main.Returned? ==> s.cancelled)
    && (s.main.Returned? ==> forall w | 0 <= w < |s.workers| :: s.workers[w].Done?)
  }

  predicate Inv(cfg: Config, s: State) { WorkersOk(cfg, s) && LoopOk(cfg, s) }

  /** An action changes at most its own worker, and what happened stays recorded. */
  lemma StepFrame(cfg: Config, s: State, a: Action)
    requires Enabled(s, a)
    ensures |s.workers| <= |Next(cfg, s, a).workers| && (|s.workers| < |Next(cfg, s, a).workers| <==> a == Spawn)
    ensures forall w: nat | w < |s.workers| && Mover(a) != Some(w) :: Next(cfg, s, a).workers[w] == s.workers[w]
    ensures s.published <= Next(cfg, s, a).published
    ensures s.abortSeen ==> Next(cfg, s, a).abortSeen
    ensures s.callerDone ==> Next(cfg, s, a).callerDone
    ensures Mover(a).Some? ==> Mover(a).value < |s.workers| && Next(cfg, s, a).main == s.main
  {
  }

  lemma MoverOk(cfg: Config, s: State, a: Action)
    requires Enabled(s, a) && Mover(a).Some? && WorkerOk(cfg, s, s.workers[a.w])
    ensures WorkerOk(cfg, Next(cfg, s, a), Next(cfg, s, a).workers[a.w])
    ensures !s.workers[a.w].Done?
  {
  }

  lemma WorkersOkStep(cfg: Config, s: State, a: Action)
    requires WorkersOk(cfg, s) && Enabled(s, a)
    ensures WorkersOk(cfg, Next(cfg, s, a))
  {
    StepFrame(cfg, s, a);
    if Mover(a).Some? { MoverOk(cfg, s, a); }
    var s' := Next(cfg, s, a);
    forall w: nat | w < |s'.workers| ensures WorkerOk(cfg, s', s'.workers[w]) {
      if w < |s.workers| { assert WorkerOk(cfg, s, s.workers[w]); }
    }
  }

  lemma InvStep(cfg: Config, s: State, a: Action)
    requires Inv(cfg, s) && Enabled(s, a)
    ensures Inv(cfg, Next(cfg, s, a))
  {
    StepFrame(cfg, s, a);
    WorkersOkStep(cfg, s, a);
    if Mover(a).Some? { MoverOk(cfg, s, a); }
  }

  lemma {:induction false} InvAlways(cfg: Config, states: seq<State>, actions: seq<Action>, i: nat)
    requires IsRun(cfg, states, actions) && i < |states|
    ensures Inv(cfg, states[i])
  {
    if i > 0 {
      InvAlways(cfg, states, actions, i - 1);
      InvStep(cfg, states[i - 1], actions[i - 1]);
      assert Enabled(states[i - 1], actions[i - 1]);
    }
  }

  /** What a return of `Send` means, over every interleaving. */
  lemma SendSafety(cfg: Config, states: seq<State>, actions: seq<Action>, i: nat)
    requires IsRun(cfg, states, actions) && i < |states| && states[i].main.Returned?
    ensures states[i].main.result.Confirmed? ==>
      var seen := states[i].main.result.seen;
      && seen.receipt.txHash in states[i].published
      && !seen.receipt.failed
      && seen.receipt.height + cfg.numConfirmations <= seen.tip + 1
    ensures states[i].main.result.Reverted? ==>
      var seen := states[i].main.result.seen;
      seen.receipt.txHash in states[i].published && seen.receipt.failed && IsConfirmed(cfg, seen)
    ensures states[i].main.result.Stopped? ==> states[i].callerDone || states[i].abortSeen
    ensures forall w | 0 <= w < |states[i].workers| :: states[i].workers[w].Done?
  {
    InvAlways(cfg, states, actions, i);
  }

  // ----- no abort after confirmation -----

  /** A successful publication of a hash that was not published before. */
  predicate FreshAction(s: State, a: Action)
    requires Enabled(s, a)
  {
    a.Publish? && a.err.None? ==> s.workers[a.w].tx !in s.published
  }

  predicate FreshPublications(cfg: Config, states: seq<State>, actions: seq<Action>)
    requires IsPath(cfg, states, actions)
  {
    forall i | 0 <= i < |actions| :: FreshAction(states[i], actions[i])
  }

  predicate Distinct(s: State) {
    forall w, v | 0 <= w < v < |s.workers| :: Owns(s.workers[w]).Some? ==> Owns(s.workers[w]) != Owns(s.workers[v])
  }

  /** From marking its hash mined to the end, a worker with a receipt keeps the hash marked. */
  predicate KeepsMark(pc: Pc) { pc.Confirming? || pc.Reporting? || (pc.Done? && pc.found.Some?) }

  predicate MarksKept(s: State) {
    forall w | 0 <= w < |s.workers| :: KeepsMark(s.workers[w]) ==> Owns(s.workers[w]).value in s.counters.mined
  }

  /** Some `waitMined` has returned a receipt. */
  predicate Settled(s: State) {
    exists w :: 0 <= w < |s.workers| && (s.workers[w].Reporting? || s.workers[w].Done?) && KeepsMark(s.workers[w])
  }

  lemma OwnershipStep(cfg: Config, s: State, a: Action)
    requires Enabled(s, a) && Mover(a).Some? && FreshAction(s, a)
    ensures var was, now := Owns(s.workers[a.w]), Owns(Next(cfg, s, a).workers[a.w]);
            now == None || now == was || now.value !in s.published
  {
  }

  lemma DistinctStep(cfg: Config, s: State, a: Action)
    requires WorkersOk(cfg, s) && Distinct(s) && Enabled(s, a) && FreshAction(s, a)
    ensures Distinct(Next(cfg, s, a))
  {
    var s' := Next(cfg, s, a);
    StepFrame(cfg, s, a);
    if Mover(a).Some? { OwnershipStep(cfg, s, a); }
    forall w, v | 0 <= w < v < |s'.workers| && Owns(s'.workers[w]).Some?
      ensures Owns(s'.workers[w]) != Owns(s'.workers[v])
    {
      assert WorkerOk(cfg, s, s.workers[w]);
      if v < |s.workers| { assert WorkerOk(cfg, s, s.workers[v]); }
    }
  }

  /** How one action changes the mined set. */
  lemma MinedStep(cfg: Config, s: State, a: Action, h: TxHash)
    requires Enabled(s, a) && h in s.counters.mined && h !in Next(cfg, s, a).counters.mined
    ensures a.MarkNotMined? && Owns(s.workers[a.w]) == Some(h)
  {
  }

  lemma MarksKeptStep(cfg: Config, s: State, a: Action)
    requires Distinct(s) && MarksKept(s) && Enabled(s, a)
    ensures MarksKept(Next(cfg, s, a))
  {
    var s' := Next(cfg, s, a);
    StepFrame(cfg, s, a);
    forall w: nat | w < |s'.workers| && KeepsMark(s'.workers[w])
      ensures Owns(s'.workers[w]).value in s'.counters.mined
    {
      var h := Owns(s'.workers[w]).value;
      if h in s.counters.mined && h !in s'.counters.mined { MinedStep(cfg, s, a, h); }
    }
  }

  lemma SettledStep(cfg: Config, s: State, a: Action)
    requires Settled(s) && Enabled(s, a)
    ensures Settled(Next(cfg, s, a))
  {
    StepFrame(cfg, s, a);
    var w :| 0 <= w < |s.workers| && (s.workers[w].Reporting? || s.workers[w].Done?) && KeepsMark(s.workers[w]);
    assert KeepsMark(Next(cfg, s, a).workers[w]);
  }

  predicate Coherent(cfg: Config, s: State) { WorkersOk(cfg, s) && Distinct(s) && MarksKept(s) }

  lemma CoherentStep(cfg: Config, s: State, a: Action)
    requires Coherent(cfg, s) && Enabled(s, a) && FreshAction(s, a)
    ensures Coherent(cfg, Next(cfg, s, a))
  {
    WorkersOkStep(cfg, s, a);
    DistinctStep(cfg, s, a);
    MarksKeptStep(cfg, s, a);
  }

  lemma {:induction false} CoherentAlways(cfg: Config, states: seq<State>, actions: seq<Action>, i: nat)
    requires IsRun(cfg, states, actions) && FreshPublications(cfg, states, actions) && i < |states|
    ensures Coherent(cfg, states[i])
  {
    if i > 0 {
      CoherentAlways(cfg, states, actions, i - 1);
      var s, a := states[i - 1], actions[i - 1];
      assert Enabled(s, a) && FreshAction(s, a);
      CoherentStep(cfg, s, a);
    }
  }

  lemma {:induction false} SettledForever(cfg: Config, states: seq<State>, actions: seq<Action>, i: nat, j: nat)
    requires IsRun(cfg, states, actions) && i <= j < |states| && Settled(states[i])
    ensures Settled(states[j])
  {
    if i < j {
      SettledForever(cfg, states, actions, i, j - 1);
      SettledStep(cfg, states[j - 1], actions[j - 1]);
      assert Enabled(states[j - 1], actions[j - 1]);
    }
  }

  lemma SettledIsMined(cfg: Config, s: State)
    requires Coherent(cfg, s) && Settled(s)
    ensures s.counters.mined != {}
  {
  }

  /** Once a receipt was confirmed, no abort check succeeds and no tick starts another worker. */
  lemma NoAbortAfterConfirmation(cfg: Config, states: seq<State>, actions: seq<Action>, i: nat, j: nat)
    requires IsRun(cfg, states, actions) && FreshPublications(cfg, states, actions)
    requires i <= j < |actions| && Settled(states[i])
    ensures states[j].counters.mined != {} && !Aborts(states[j].counters, cfg.safeAbortCount)
    ensures actions[j].CheckAbort? ==> states[j + 1].workers[actions[j].w] == Done(None)
    ensures actions[j].CheckTick? ==> states[j + 1] == states[j]
  {
    SettledForever(cfg, states, actions, i, j);
    CoherentAlways(cfg, states, actions, j);
    SettledIsMined(cfg, states[j]);
    assert Enabled(states[j], actions[j]);
  }

  // ----- exactly which transactions keep it -----

  /** The transactions `updateGasPrice` makes: worker `w` only ever publishes `tx(w)`. */
  type Crafted = nat -> TxHash

  predicate Prices(tx: Crafted, a: Action) { a.Price? && a.tx.Some? ==> a.tx.value == tx(a.w) }

  ghost predicate IsRunOf(cfg: Config, tx: Crafted, states: seq<State>, actions: seq<Action>) {
    IsRun(cfg, states, actions) && forall i | 0 <= i < |actions| :: Prices(tx, actions[i])
  }

  ghost predicate Injective(tx: Crafted) { forall v: nat, w: nat | tx(v) == tx(w) :: v == w }

  predicate HasPublished(pc: Pc) { !pc.Pricing? && !pc.Publishing? }

  ghost predicate PublishedBy(tx: Crafted, s: State, h: TxHash) {
    exists v: nat :: v < |s.workers| && tx(v) == h && HasPublished(s.workers[v])
  }

  /** A published hash is that of a worker past its publication. */
  ghost predicate OwnHashes(tx: Crafted, s: State) {
    && (forall w: nat | w < |s.workers| && s.workers[w].Publishing? :: s.workers[w].tx == tx(w))
    && (forall h | h in s.published :: PublishedBy(tx, s, h))
  }

  lemma PublishedStep(cfg: Config, tx: Crafted, s: State, a: Action, h: TxHash)
    requires Enabled(s, a) && PublishedBy(tx, s, h)
    ensures PublishedBy(tx, Next(cfg, s, a), h)
  {
  }

  lemma OwnHashesStep(cfg: Config, tx: Crafted, s: State, a: Action)
    requires OwnHashes(tx, s) && Enabled(s, a) && Prices(tx, a)
    ensures OwnHashes(tx, Next(cfg, s, a))
  {
    StepFrame(cfg, s, a);
    var s' := Next(cfg, s, a);
    forall h | h in s'.published ensures PublishedBy(tx, s', h) {
      if h in s.published { PublishedStep(cfg, tx, s, a, h); } else { assert HasPublished(s'.workers[a.w]); }
    }
  }

  lemma {:induction false} OwnHashesAlways(cfg: Config, tx: Crafted, states: seq<State>, actions: seq<Action>, i: nat)
    requires IsRunOf(cfg, tx, states, actions) && i < |states|
    ensures OwnHashes(tx, states[i])
  {
    if i > 0 {
      OwnHashesAlways(cfg, tx, states, actions, i - 1);
      assert Enabled(states[i - 1], actions[i - 1]) && Prices(tx, actions[i - 1]);
      OwnHashesStep(cfg, tx, states[i - 1], actions[i - 1]);
    }
  }

  /** Workers with different transactions never publish a hash twice. */
  lemma InjectiveIsFresh(cfg: Config, tx: Crafted, states: seq<State>, actions: seq<Action>)
    requires IsRunOf(cfg, tx, states, actions) && Injective(tx)
    ensures FreshPublications(cfg, states, actions)
  {
    forall i | 0 <= i < |actions| ensures FreshAction(states[i], actions[i]) {
      OwnHashesAlways(cfg, tx, states, actions, i);
      assert Enabled(states[i], actions[i]);
    }
  }

  ghost predicate ReachableBy(cfg: Config, tx: Crafted, s: State) {
    exists states: seq<State>, actions: seq<Action> :: IsRunOf(cfg, tx, states, actions) && states[|actions|] == s
  }

  lemma ExtendRun(cfg: Config, tx: Crafted, states: seq<State>, actions: seq<Action>, a: Action)
    requires IsRunOf(cfg, tx, states, actions) && Enabled(states[|actions|], a) && Prices(tx, a)
    ensures IsRunOf(cfg, tx, states + [Next(cfg, states[|actions|], a)], actions + [a])
  {
    var states', actions' := states + [Next(cfg, states[|actions|], a)], actions + [a];
    forall i | 0 <= i < |actions'|
      ensures Enabled(states'[i], actions'[i]) && states'[i + 1] == Next(cfg, states'[i], actions'[i])
      ensures Prices(tx, actions'[i])
    {
      if i < |actions| {
        assert states'[i] == states[i] && states'[i + 1] == states[i + 1] && actions'[i] == actions[i];
      }
    }
  }

  lemma Act(cfg: Config, tx: Crafted, s: State, a: Action) returns (s': State)
    requires ReachableBy(cfg, tx, s) && Enabled(s, a) && Prices(tx, a)
    ensures ReachableBy(cfg, tx, s') && s' == Next(cfg, s, a)
  {
    var states: seq<State>, actions: seq<Action> :| IsRunOf(cfg, tx, states, actions) && states[|actions|] == s;
    s' := Next(cfg, s, a);
    ExtendRun(cfg, tx, states, actions, a);
    assert (states + [s'])[|actions + [a]|] == s';
  }

  /** Enough ticks start any number of workers. */
  lemma {:induction false} ManyWorkers(cfg: Config, tx: Crafted, n: nat) returns (s: State)
    requires n > 0
    ensures ReachableBy(cfg, tx, s) && s == INITIAL.(workers := s.workers) && |s.workers| == n
    ensures forall w | 0 <= w < n :: s.workers[w] == Pricing
  {
    if n == 1 {
      s := INITIAL;
      assert IsRunOf(cfg, tx, [INITIAL], []);
      assert [INITIAL][0] == INITIAL;
    } else {
      var s0 := ManyWorkers(cfg, tx, n - 1);
      var s1 := Act(cfg, tx, s0, CheckTick);
      s := Act(cfg, tx, s1, Spawn);
    }
  }

  /** Two workers in view while the event loop runs and no error was counted. */
  predicate Shows(s: State, v: nat, p: Pc, w: nat, q: Pc, mined: set<TxHash>) {
    && v != w && v < |s.workers| && w < |s.workers| && s.workers[v] == p && s.workers[w] == q
    && s.counters == Counters(mined, 0) && s.main == Looping
  }

  /** Two workers get one transaction. */
  lemma SharedHashPriced(cfg: Config, tx: Crafted, v: nat, w: nat) returns (s: State)
    requires v < w && tx(v) == tx(w)
    ensures ReachableBy(cfg, tx, s) && Shows(s, v, Publishing(tx(v)), w, Publishing(tx(v)), {})
  {
    s := ManyWorkers(cfg, tx, w + 1);
    assert Shows(s, v, Pricing, w, Pricing, {});
    s := Act(cfg, tx, s, Price(v, Some(tx(v))));
    s := Act(cfg, tx, s, Price(w, Some(tx(v))));
  }

  /** Both publish it. */
  lemma SharedHashPublished(cfg: Config, tx: Crafted, v: nat, w: nat) returns (s: State)
    requires v < w && tx(v) == tx(w)
    ensures ReachableBy(cfg, tx, s) && Shows(s, v, Querying(tx(v)), w, Querying(tx(v)), {})
  {
    var h := tx(v);
    s := SharedHashPriced(cfg, tx, v, w);
    s := Act(cfg, tx, s, Publish(v, None));
    assert Shows(s, v, Recording(h, None), w, Publishing(h), {});
    s := Act(cfg, tx, s, Publish(w, None));
    assert Shows(s, v, Recording(h, None), w, Recording(h, None), {});
    s := Act(cfg, tx, s, Record(v));
    assert Shows(s, v, Querying(h), w, Recording(h, None), {});
    s := Act(cfg, tx, s, Record(w));
  }

  /** One of them finds its receipt, confirmed. */
  lemma SharedHashConfirmed(cfg: Config, tx: Crafted, v: nat, w: nat) returns (s: State, seen: Sighting)
    requires v < w && tx(v) == tx(w)
    ensures ReachableBy(cfg, tx, s) && Shows(s, v, Reporting(seen), w, Querying(tx(v)), {tx(v)})
  {
    var h := tx(v);
    var r := Receipt(h, 0, false);
    seen := Sighting(r, cfg.numConfirmations);
    s := SharedHashPublished(cfg, tx, v, w);
    s := Act(cfg, tx, s, Query(v, Found(r)));
    assert Shows(s, v, MarkingMined(r), w, Querying(h), {});
    s := Act(cfg, tx, s, MarkMined(v));
    assert Shows(s, v, Confirming(r), w, Querying(h), {h});
    s := Act(cfg, tx, s, Confirm(v, Some(cfg.numConfirmations)));
  }

  /** The other one asks a node that does not see the transaction, and removes the mark. */
  lemma SharedHashUnmarked(cfg: Config, tx: Crafted, v: nat, w: nat) returns (s: State)
    requires v < w && tx(v) == tx(w)
    ensures ReachableBy(cfg, tx, s) && Settled(s) && s.main == Looping && s.counters == FRESH
  {
    var seen;
    s, seen := SharedHashConfirmed(cfg, tx, v, w);
    s := Act(cfg, tx, s, Query(w, Missing));
    assert Shows(s, v, Reporting(seen), w, MarkingNotMined(tx(v)), {tx(v)});
    s := Act(cfg, tx, s, MarkNotMined(w));
    assert s.counters.mined == {};
    assert Shows(s, v, Reporting(seen), w, Waiting(tx(v)), {});
  }

  /** Neither an abort check nor a tick can do anything. */
  predicate Quiet(cfg: Config, s: State) {
    !Aborts(s.counters, cfg.safeAbortCount) && (s.main == Looping ==> Next(cfg, s, CheckTick) == s)
  }

  ghost predicate QuietOnceSettled(cfg: Config, tx: Crafted) {
    forall s: State | ReachableBy(cfg, tx, s) && Settled(s) :: Quiet(cfg, s)
  }

  lemma InjectiveIsQuiet(cfg: Config, tx: Crafted, s: State)
    requires Injective(tx) && ReachableBy(cfg, tx, s) && Settled(s)
    ensures Quiet(cfg, s)
  {
    var states: seq<State>, actions: seq<Action> :| IsRunOf(cfg, tx, states, actions) && states[|actions|] == s;
    InjectiveIsFresh(cfg, tx, states, actions);
    CoherentAlways(cfg, states, actions, |actions|);
    SettledIsMined(cfg, s);
  }

  /** After a confirmation no abort check succeeds and no tick starts a worker, in every run, exactly when different
      workers have different transactions. */
  lemma QuietIffInjective(cfg: Config, tx: Crafted)
    ensures QuietOnceSettled(cfg, tx) <==> Injective(tx)
  {
    if Injective(tx) {
      forall s: State | ReachableBy(cfg, tx, s) && Settled(s) ensures Quiet(cfg, s) { InjectiveIsQuiet(cfg, tx, s); }
    } else {
      var v: nat, w: nat :| tx(v) == tx(w) && v != w;
      var s := SharedHashUnmarked(cfg, tx, Min(v, w), Max(v, w));
      assert Next(cfg, s, CheckTick).main == Spawning;
    }
  }

  // ----- leaving -----

  /** An action that brings a worker closer to its end, whatever the environment does. */
  function Exit(w: nat, pc: Pc): Action
    requires !pc.Done?
  {
    match pc
    case Pricing => Price(w, None)
    case Publishing(_) => Publish(w, Some(CANCELED))
    case Recording(_, _) => Record(w)
    case CheckingAbort => CheckAbort(w)
    case Cancelling => Cancel(w)
    case Querying(_) => Query(w, Unknown)
    case MarkingMined(_) => MarkMined(w)
    case MarkingNotMined(_) => MarkNotMined(w)
    case Confirming(_) => Confirm(w, None)
    case Waiting(_) => GiveUp(w)
    case Reporting(_) => Report(w)
  }

  function Distance(pc: Pc): nat {
    match pc
    case Publishing(_) => 2
    case Recording(_, err) => if err.Some? && Contains(err.value, CANCELED) then 1 else 3
    case CheckingAbort => 2
    case Querying(_) | MarkingNotMined(_) | Confirming(_) => 2
    case MarkingMined(_) => 3
    case Pricing | Cancelling | Waiting(_) | Reporting(_) => 1
    case Done(_) => 0
  }

  /** No live worker ever blocks once the context is cancelled, reporting included. */
  lemma ExitStep(cfg: Config, s: State, w: nat)
    requires s.cancelled && w < |s.workers| && !s.workers[w].Done?
    ensures Enabled(s, Exit(w, s.workers[w]))
    ensures var s' := Next(cfg, s, Exit(w, s.workers[w]));
            && s'.cancelled && s'.main == s.main && |s'.workers| == |s.workers|
            && Distance(s'.workers[w]) < Distance(s.workers[w])
            && forall v | 0 <= v < |s.workers| && v != w :: s'.workers[v] == s.workers[v]
  {
    assert FoundAt(CANCELED, CANCELED, 0);
  }

  /** `wg.Wait` cannot deadlock: from the deferred wait, `Send` can always reach its return. */
  lemma {:induction false} CanReturn(cfg: Config, s: State, k: nat) returns (states: seq<State>, actions: seq<Action>)
    requires s.cancelled && s.main.Joining? && k <= |s.workers|
    requires forall w | 0 <= w < k :: s.workers[w].Done?
    ensures IsPath(cfg, states, actions) && states[0] == s
    ensures states[|actions|].main == Returned(s.main.result)
    decreases |s.workers| - k, if k < |s.workers| then Distance(s.workers[k]) else 0
  {
    if k == |s.workers| {
      states, actions := [s, Next(cfg, s, Join)], [Join];
    } else if s.workers[k].Done? {
      states, actions := CanReturn(cfg, s, k + 1);
    } else {
      ExitStep(cfg, s, k);
      var a := Exit(k, s.workers[k]);
      var rest, more := CanReturn(cfg, Next(cfg, s, a), k);
      states, actions := [s] + rest, [a] + more;
    }
  }

  // ----- every way of leaving -----

  /** How many actions a worker has left if it does not poll again. */
  function Left(pc: Pc): nat {
    match pc
    case Pricing => 7
    case Publishing(_) => 6
    case Recording(_, _) => 5
    case Querying(_) => 4
    case MarkingMined(_) => 3
    case CheckingAbort | MarkingNotMined(_) | Confirming(_) => 2
    case Cancelling | Waiting(_) | Reporting(_) => 1
    case Done(_) => 0
  }

  function AllLeft(workers: seq<Pc>): nat {
    if workers == [] then 0 else AllLeft(workers[..|workers| - 1]) + Left(workers[|workers| - 1])
  }

  /** What is left of the call: its workers, the caller's cancellation and the return. */
  function CallLeft(s: State): nat {
    AllLeft(s.workers) + (if s.callerDone then 0 else 1) + if s.main.Joining? then 1 else 0
  }

  lemma {:induction false} AllLeftUpdate(workers: seq<Pc>, w: nat, pc: Pc)
    requires w < |workers|
    ensures AllLeft(workers[w := pc]) == AllLeft(workers) - Left(workers[w]) + Left(pc)
  {
    var n := |workers| - 1;
    if w == n {
      assert workers[w := pc][..n] == workers[..n];
    } else {
      assert workers[w := pc][..n] == workers[..n][w := pc];
      AllLeftUpdate(workers[..n], w, pc);
    }
  }

  predicate HasJoined(s: State) { s.main.Joining? || s.main.Returned? }

  lemma MoverLeft(cfg: Config, s: State, a: Action)
    requires Enabled(s, a) && Mover(a).Some?
    ensures Left(Next(cfg, s, a).workers[a.w]) + 1 <= Left(s.workers[a.w]) + if a.Tick? then 4 else 0
  {
  }

  lemma MoverFrame(cfg: Config, s: State, a: Action)
    requires Enabled(s, a) && Mover(a).Some?
    ensures Next(cfg, s, a).workers == s.workers[a.w := Next(cfg, s, a).workers[a.w]]
    ensures Next(cfg, s, a).main == s.main && Next(cfg, s, a).callerDone == s.callerDone
  {
  }

  /** Once `Send` waits for its workers, every action but another poll uses up some of what is left. */
  lemma LeaveStep(cfg: Config, s: State, a: Action)
    requires HasJoined(s) && Enabled(s, a)
    ensures HasJoined(Next(cfg, s, a))
    ensures CallLeft(Next(cfg, s, a)) + 1 <= CallLeft(s) + if a.Tick? then 4 else 0
  {
    if Mover(a).Some? {
      MoverFrame(cfg, s, a);
      MoverLeft(cfg, s, a);
      AllLeftUpdate(s.workers, a.w, Next(cfg, s, a).workers[a.w]);
    }
  }

  function Polls(actions: seq<Action>): nat {
    if actions == [] then 0 else Polls(actions[..|actions| - 1]) + if actions[|actions| - 1].Tick? then 1 else 0
  }

  /** However the environment answers and the workers are scheduled, the deferred wait lasts at most as many actions as
      were left, plus four per poll. */
  lemma {:induction false} LeavingIsBounded(cfg: Config, states: seq<State>, actions: seq<Action>)
    requires IsPath(cfg, states, actions) && HasJoined(states[0])
    ensures HasJoined(states[|actions|])
    ensures |actions| + CallLeft(states[|actions|]) <= CallLeft(states[0]) + 4 * Polls(actions)
  {
    if actions != [] {
      var n := |actions| - 1;
      LeavingIsBounded(cfg, states[..n + 1], actions[..n]);
      assert Enabled(states[n], actions[n]) && states[n + 1] == Next(cfg, states[n], actions[n]);
      LeaveStep(cfg, states[n], actions[n]);
    }
  }

  /** And until the call has returned some action other than a poll is enabled. */
  lemma LeavingNeverBlocks(cfg: Config, s: State) returns (a: Action)
    requires Inv(cfg, s) && s.main.Joining?
    ensures Enabled(s, a) && !a.Tick? && !a.CallerCancels?
  {
    if w: nat :| w < |s.workers| && !s.workers[w].Done? {
      ExitStep(cfg, s, w);
      a := Exit(w, s.workers[w]);
    } else {
      a := Join;
    }
  }

  // ----- no receipt is lost -----

  predicate NoReport(actions: seq<Action>, n: nat)
    requires n <= |actions|
  {
    forall k | 0 <= k < n :: !actions[k].Report?
  }

  /** Before the first report the channel is empty and nobody has finished with a receipt. */
  predicate NothingReported(s: State) {
    && s.channel.None? && (HasLeft(s.main) ==> s.main.result == Stopped)
    && forall w | 0 <= w < |s.workers| :: s.workers[w].Done? ==> s.workers[w].found.None?
  }

  lemma QuietStep(cfg: Config, s: State, a: Action)
    requires Enabled(s, a) && !a.Report? && NothingReported(s)
    ensures NothingReported(Next(cfg, s, a))
  {
    StepFrame(cfg, s, a);
  }

  lemma {:induction false} BeforeFirstReport(cfg: Config, states: seq<State>, actions: seq<Action>, i: nat)
    requires IsRun(cfg, states, actions) && i <= |actions| && NoReport(actions, i)
    ensures NothingReported(states[i])
  {
    if i > 0 {
      BeforeFirstReport(cfg, states, actions, i - 1);
      assert Enabled(states[i - 1], actions[i - 1]);
      QuietStep(cfg, states[i - 1], actions[i - 1]);
    }
  }

  function Verdict(seen: Sighting): Result { if seen.receipt.failed then Reverted(seen) else Confirmed(seen) }

  /** From the first report on, the event loop has that sighting before it, or has left with it or stopped. */
  predicate Keeps(s: State, seen: Sighting) {
    if HasLeft(s.main) then s.main.result == Stopped || s.main.result == Verdict(seen) else s.channel == Some(seen)
  }

  lemma KeepsStep(cfg: Config, s: State, a: Action, seen: Sighting)
    requires Enabled(s, a) && Keeps(s, seen)
    ensures Keeps(Next(cfg, s, a), seen)
  {
  }

  /** `j` is the first report of the run. */
  predicate FirstReport(actions: seq<Action>, j: nat) { j < |actions| && actions[j].Report? && NoReport(actions, j) }

  /** The first sighting reported is the one that waits in the channel, and the only one that is ever returned. */
  lemma {:induction false} FirstReportKept(cfg: Config, states: seq<State>, actions: seq<Action>, j: nat, i: nat)
    requires IsRun(cfg, states, actions) && FirstReport(actions, j) && j < i < |states|
    ensures actions[j].w < |states[j].workers| && states[j].workers[actions[j].w].Reporting?
    ensures Keeps(states[i], states[j].workers[actions[j].w].seen)
  {
    assert Enabled(states[j], actions[j]);
    if i == j + 1 {
      BeforeFirstReport(cfg, states, actions, j);
    } else {
      FirstReportKept(cfg, states, actions, j, i - 1);
      assert Enabled(states[i - 1], actions[i - 1]);
      KeepsStep(cfg, states[i - 1], actions[i - 1], states[j].workers[actions[j].w].seen);
    }
  }

  lemma {:induction false} FirstReportExists(actions: seq<Action>, n: nat) returns (j: nat)
    requires n <= |actions| && !NoReport(actions, n)
    ensures j < n && FirstReport(actions, j)
  {
    if NoReport(actions, n - 1) { j := n - 1; } else { j := FirstReportExists(actions, n - 1); }
  }

  /** If a worker has finished with a receipt and the event loop still runs, the first sighting reported waits for it. */
  lemma NoReceiptLost(cfg: Config, states: seq<State>, actions: seq<Action>, i: nat, w: nat) returns (j: nat)
    requires IsRun(cfg, states, actions) && i < |states| && w < |states[i].workers|
    requires states[i].workers[w].Done? && states[i].workers[w].found.Some? && !HasLeft(states[i].main)
    ensures j < i && FirstReport(actions, j)
    ensures actions[j].w < |states[j].workers| && states[j].workers[actions[j].w].Reporting?
    ensures states[i].channel == Some(states[j].workers[actions[j].w].seen)
  {
    if NoReport(actions, i) { BeforeFirstReport(cfg, states, actions, i); }
    j := FirstReportExists(actions, i);
    FirstReportKept(cfg, states, actions, j, i);
  }

  // ----- runs that return -----

  lemma StepThen(cfg: Config, s: State, a: Action, states: seq<State>, actions: seq<Action>)
    requires Enabled(s, a) && IsPath(cfg, states, actions) && states[0] == Next(cfg, s, a)
    ensures IsPath(cfg, [s] + states, [a] + actions) && ([s] + states)[|actions| + 1] == states[|actions|]
  {
  }

  /** What can be reached by some further actions. */
  ghost predicate CanReach(cfg: Config, s: State, m: Main) {
    exists states: seq<State>, actions: seq<Action> ::
      IsPath(cfg, states, actions) && states[0] == s && states[|actions|].main == m
  }

  lemma ReachAfter(cfg: Config, s: State, a: Action, m: Main)
    requires Enabled(s, a) && CanReach(cfg, Next(cfg, s, a), m)
    ensures CanReach(cfg, s, m)
  {
    var states: seq<State>, actions: seq<Action> :|
      IsPath(cfg, states, actions) && states[0] == Next(cfg, s, a) && states[|actions|].main == m;
    StepThen(cfg, s, a, states, actions);
    assert ([s] + states)[|[a] + actions|].main == m;
  }

  /** A loop that has left can return. */
  lemma LeavingReturns(cfg: Config, s: State)
    requires s.main.Leaving?
    ensures CanReach(cfg, s, Returned(s.main.result))
  {
    var s' := Next(cfg, s, DeferCancel);
    var states, actions := CanReturn(cfg, s', 0);
    ReachAfter(cfg, s, DeferCancel, Returned(s.main.result));
  }

  /** A waiting sighting can be returned. */
  lemma ChannelReturns(cfg: Config, s: State)
    requires s.main == Looping && s.channel.Some?
    ensures CanReach(cfg, s, Returned(Verdict(s.channel.value)))
  {
    LeavingReturns(cfg, Next(cfg, s, Receive));
    ReachAfter(cfg, s, Receive, Returned(Verdict(s.channel.value)));
  }

  /** A worker about to report to an empty channel can have its receipt returned, with an error if it reverted. */
  lemma ReportReturns(cfg: Config, s: State, w: nat)
    requires s.main == Looping && s.channel.None? && w < |s.workers| && s.workers[w].Reporting?
    ensures var seen := s.workers[w].seen;
            CanReach(cfg, s, Returned(if seen.receipt.failed then Reverted(seen) else Confirmed(seen)))
  {
    ChannelReturns(cfg, Next(cfg, s, Report(w)));
    ReachAfter(cfg, s, Report(w), Returned(Verdict(s.workers[w].seen)));
  }

  /** A worker that finds its receipt deep enough below the tip can have it returned. */
  lemma FoundReturns(cfg: Config, s: State, w: nat, r: Receipt, tip: nat)
    requires s.main == Looping && s.channel.None? && w < |s.workers| && s.workers[w] == Querying(r.txHash)
    requires r.height + cfg.numConfirmations <= tip + 1
    ensures CanReach(cfg, s, Returned(Verdict(Sighting(r, tip))))
  {
    var s1 := Next(cfg, s, Query(w, Found(r)));
    var s2 := Next(cfg, s1, MarkMined(w));
    var s3 := Next(cfg, s2, Confirm(w, Some(tip)));
    ReportReturns(cfg, s3, w);
    ReachAfter(cfg, s2, Confirm(w, Some(tip)), Returned(Verdict(Sighting(r, tip))));
    ReachAfter(cfg, s1, MarkMined(w), Returned(Verdict(Sighting(r, tip))));
    ReachAfter(cfg, s, Query(w, Found(r)), Returned(Verdict(Sighting(r, tip))));
  }

  /** A worker waiting for more confirmations polls again. */
  lemma WaitingReturns(cfg: Config, s: State, w: nat, r: Receipt, tip: nat)
    requires s.main == Looping && s.channel.None? && w < |s.workers| && s.workers[w] == Waiting(r.txHash)
    requires r.height + cfg.numConfirmations <= tip + 1
    ensures CanReach(cfg, s, Returned(Verdict(Sighting(r, tip))))
  {
    FoundReturns(cfg, Next(cfg, s, Tick(w)), w, r, tip);
    ReachAfter(cfg, s, Tick(w), Returned(Verdict(Sighting(r, tip))));
  }

  /** The plain run of a call: every transaction that publishes and confirms can be returned. */
  lemma PlainRun(cfg: Config, r: Receipt, tip: nat)
    requires r.height + cfg.numConfirmations <= tip + 1
    ensures CanReach(cfg, INITIAL, Returned(Verdict(Sighting(r, tip))))
  {
    var h := r.txHash;
    var s1 := Next(cfg, INITIAL, Price(0, Some(h)));
    var s2 := Next(cfg, s1, Publish(0, None));
    var s3 := Next(cfg, s2, Record(0));
    FoundReturns(cfg, s3, 0, r, tip);
    ReachAfter(cfg, s2, Record(0), Returned(Verdict(Sighting(r, tip))));
    ReachAfter(cfg, s1, Publish(0, None), Returned(Verdict(Sighting(r, tip))));
    ReachAfter(cfg, INITIAL, Price(0, Some(h)), Returned(Verdict(Sighting(r, tip))));
  }

  /** A publication error that is not a cancellation stops the call when nothing is mined and the errors reach the
      threshold with it, and otherwise only ends its worker. */
  lemma ErrorStopsIff(cfg: Config, s: State, w: nat)
    requires w < |s.workers| && s.workers[w].Recording? && s.workers[w].err.Some?
    requires !Contains(s.workers[w].err.value, CANCELED)
    ensures var s2 := Next(cfg, Next(cfg, s, Record(w)), CheckAbort(w));
            var tooLow := s.counters.tooLow + if Contains(s.workers[w].err.value, NONCE_TOO_LOW) then 1 else 0;
            if s.counters.mined == {} && tooLow >= cfg.safeAbortCount
            then s2.workers[w] == Cancelling && Next(cfg, s2, Cancel(w)).cancelled
            else s2.workers[w] == Done(None) && s2.cancelled == s.cancelled
  {
  }

  /** A cancelled call that is still looping can return the context's error. */
  lemma CancelledReturns(cfg: Config, s: State)
    requires s.main == Looping && s.cancelled
    ensures CanReach(cfg, s, Returned(Stopped))
  {
    LeavingReturns(cfg, Next(cfg, s, SeeCancelled));
    ReachAfter(cfg, s, SeeCancelled, Returned(Stopped));
  }

  /** An answer that does not settle the wait leaves the worker polling, so that its receipt can still be returned. */
  lemma UnsettledReturns(cfg: Config, s: State, w: nat, a: Action, r: Receipt, tip: nat)
    requires s.main == Looping && s.channel.None? && w < |s.workers| && Owns(s.workers[w]) == Some(r.txHash)
    requires Enabled(s, a) && Mover(a) == Some(w)
    requires a == Query(w, Unknown) || a.MarkNotMined? ||
             (a.Confirm? && (a.tip.Some? ==> s.workers[w].receipt.height + cfg.numConfirmations > a.tip.value + 1))
    requires r.height + cfg.numConfirmations <= tip + 1
    ensures CanReach(cfg, Next(cfg, s, a), Returned(Verdict(Sighting(r, tip))))
  {
    WaitingReturns(cfg, Next(cfg, s, a), w, r, tip);
  }

  /** When the caller's context ends, a call that is still looping can return its error. */
  lemma CallerCancelReturns(cfg: Config, s: State)
    requires s.main == Looping && Enabled(s, CallerCancels)
    ensures CanReach(cfg, Next(cfg, s, CallerCancels), Returned(Stopped))
  {
    CancelledReturns(cfg, Next(cfg, s, CallerCancels));
  }

  // ----- what the record means -----

  predicate PublishedAt(states: seq<State>, actions: seq<Action>, j: nat, h: TxHash) {
    && j < |actions| && j < |states| && actions[j].Publish? && actions[j].err.None?
    && actions[j].w < |states[j].workers| && states[j].workers[actions[j].w] == Publishing(h)
  }

  predicate AbortedAt(cfg: Config, states: seq<State>, actions: seq<Action>, j: nat) {
    && j < |actions| && j < |states| && actions[j].CheckAbort?
    && states[j].counters.mined == {} && states[j].counters.tooLow >= cfg.safeAbortCount
  }

  lemma PublishedGrows(cfg: Config, s: State, a: Action, h: TxHash)
    requires Enabled(s, a)
    ensures h in Next(cfg, s, a).published <==>
            h in s.published || (a.Publish? && a.err.None? && s.workers[a.w] == Publishing(h))
  {
  }

  /** A hash is recorded as published exactly when a worker has published it without error. */
  lemma {:induction false} PublishedIs(cfg: Config, states: seq<State>, actions: seq<Action>, i: nat, h: TxHash)
    requires IsRun(cfg, states, actions) && i < |states|
    ensures h in states[i].published <==> exists j: nat :: j < i && PublishedAt(states, actions, j, h)
  {
    if i > 0 {
      PublishedIs(cfg, states, actions, i - 1, h);
      assert Enabled(states[i - 1], actions[i - 1]) && states[i - 1 + 1] == Next(cfg, states[i - 1], actions[i - 1]);
      PublishedGrows(cfg, states[i - 1], actions[i - 1], h);
      assert h in states[i].published <==> h in states[i - 1].published || PublishedAt(states, actions, i - 1, h);
    }
  }

  /** An abort is recorded as seen exactly when an abort check has found nothing mined and enough errors. */
  lemma {:induction false} AbortSeenIs(cfg: Config, states: seq<State>, actions: seq<Action>, i: nat)
    requires IsRun(cfg, states, actions) && i < |states|
    ensures states[i].abortSeen <==> exists j: nat :: j < i && AbortedAt(cfg, states, actions, j)
  {
    if i > 0 {
      AbortSeenIs(cfg, states, actions, i - 1);
      assert Enabled(states[i - 1], actions[i - 1]) && states[i - 1 + 1] == Next(cfg, states[i - 1], actions[i - 1]);
      assert states[i].abortSeen <==> states[i - 1].abortSeen || AbortedAt(cfg, states, actions, i - 1);
    }
  }

  /** The caller's end is recorded exactly when it has happened. */
  lemma {:induction false} CallerDoneIs(cfg: Config, states: seq<State>, actions: seq<Action>, i: nat)
    requires IsRun(cfg, states, actions) && i < |states|
    ensures states[i].callerDone <==> exists j: nat :: j < i && actions[j] == CallerCancels
  {
    if i > 0 {
      CallerDoneIs(cfg, states, actions, i - 1);
      assert Enabled(states[i - 1], actions[i - 1]) && states[i - 1 + 1] == Next(cfg, states[i - 1], actions[i - 1]);
    }
  }

  // ----- which answer a worker acts on -----

  predicate Still(actions: seq<Action>, w: nat, j: nat, i: nat)
    requires i <= |actions|
  {
    forall k | j < k < i :: Mover(actions[k]) != Some(w)
  }

  lemma OthersStay(cfg: Config, s: State, a: Action, w: nat)
    requires Enabled(s, a) && w < |Next(cfg, s, a).workers|
    ensures Mover(a) != Some(w) && !Next(cfg, s, a).workers[w].Pricing? ==>
            w < |s.workers| && s.workers[w] == Next(cfg, s, a).workers[w]
    ensures Mover(a) == Some(w) ==> Next(cfg, s, a).workers[w] == After(cfg, s, a)
  {
    StepFrame(cfg, s, a);
  }

  /** Where a worker is, its own last action has brought it. */
  lemma {:induction false} CameFrom(cfg: Config, states: seq<State>, actions: seq<Action>, i: nat, w: nat) returns (j: nat)
    requires IsRun(cfg, states, actions) && i < |states| && w < |states[i].workers| && !states[i].workers[w].Pricing?
    ensures j < i && Mover(actions[j]) == Some(w) && Still(actions, w, j, i)
    ensures Enabled(states[j], actions[j]) && After(cfg, states[j], actions[j]) == states[i].workers[w]
  {
    var s, a := states[i - 1], actions[i - 1];
    assert Enabled(s, a) && states[i - 1 + 1] == Next(cfg, s, a);
    OthersStay(cfg, s, a, w);
    if Mover(a) == Some(w) { j := i - 1; } else { j := CameFrom(cfg, states, actions, i - 1, w); }
  }

  /** A hash is marked mined only on a found receipt and not mined only on a missing one, an abort is looked for only
      after a failed publication that was no cancellation, and a report follows a sufficient tip. */
  lemma ActsOnAnswer(cfg: Config, states: seq<State>, actions: seq<Action>, i: nat, w: nat) returns (j: nat)
    requires IsRun(cfg, states, actions) && i < |actions| && Mover(actions[i]) == Some(w) && !actions[i].Price?
    ensures j < i && Still(actions, w, j, i) && w < |states[j].workers|
    ensures actions[i].MarkMined? ==> actions[j].Query? && actions[j].answer.Found?
    ensures actions[i].MarkNotMined? ==> actions[j] == Query(w, Missing)
    ensures actions[i].CheckAbort? ==>
      && actions[j].Record? && states[j].workers[w].Recording? && states[j].workers[w].err.Some?
      && !Contains(states[j].workers[w].err.value, CANCELED)
    ensures actions[i].Report? ==>
      && actions[j].Confirm? && actions[j].tip.Some? && states[j].workers[w].Confirming?
      && states[j].workers[w].receipt.height + cfg.numConfirmations <= actions[j].tip.value + 1
    ensures actions[i].Query? ==> actions[j].Tick? || (actions[j].Record? && states[j].workers[w].Recording?
                                                      && states[j].workers[w].err.None?)
    ensures actions[i].Confirm? ==> actions[j].MarkMined?
    ensures actions[i].GiveUp? ==> states[i].cancelled
  {
    assert Enabled(states[i], actions[i]);
    j := CameFrom(cfg, states, actions, i, w);
  }
}
