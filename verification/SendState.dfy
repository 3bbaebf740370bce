/** `SendState` of bss-core/txmgr: what it has recorded, as a function of everything it was told. */
module SendStates {
  import opened Common

  type TxHash = nat

  const NONCE_TOO_LOW := "nonce too low"

  predicate FoundAt(s: string, sub: string, i: nat) { i + |sub| <= |s| && s[i..i + |sub|] == sub }

  predicate Contains(s: string, sub: string) { exists i: nat | i <= |s| :: FoundAt(s, sub, i) }

  /** A text contains another exactly when it is that text with something before and after. */
  lemma ContainsIff(s: string, sub: string)
    ensures Contains(s, sub) <==> exists a: string, b: string :: s == a + sub + b
  {
    if Contains(s, sub) {
      var i: nat :| i <= |s| && FoundAt(s, sub, i);
      assert s == s[..i] + sub + s[i + |sub|..];
    }
    if a: string, b: string :| s == a + sub + b {
      assert FoundAt(s, sub, |a|);
    }
  }

  /** One call that reaches the state: the outcome of a publication, or a mark for a hash. */
  datatype Event = Sent(err: Option<string>) | Mined(hash: TxHash) | NotMined(hash: TxHash)

  predicate IsTooLow(e: Event) { e.Sent? && e.err.Some? && Contains(e.err.value, NONCE_TOO_LOW) }

  datatype Counters = Counters(mined: set<TxHash>, tooLow: nat)

  const FRESH := Counters({}, 0)

  /** One call on the fields. */
  function Apply(c: Counters, e: Event): Counters {
    match e
    case Sent(_) => if IsTooLow(e) then c.(tooLow := c.tooLow + 1) else c
    case Mined(h) => c.(mined := c.mined + {h})
    case NotMined(h) =>
      var left := c.mined - {h};
      Counters(left, if left == {} && h in c.mined then 0 else c.tooLow)
  }

  lemma SentApplies(c: Counters, err: Option<string>, counted: bool)
    requires counted == (err.Some? && Contains(err.value, NONCE_TOO_LOW))
    ensures Apply(c, Sent(err)) == Counters(c.mined, if counted then c.tooLow + 1 else c.tooLow)
  {
  }

  function Replay(events: seq<Event>): Counters {
    if events == [] then FRESH else Apply(Replay(events[..|events| - 1]), events[|events| - 1])
  }

  lemma ReplayOneMore(events: seq<Event>, e: Event)
    ensures Replay(events + [e]) == Apply(Replay(events), e)
  {
    assert (events + [e])[..|events|] == events;
  }

  predicate Aborts(c: Counters, threshold: nat) { c.mined == {} && c.tooLow >= threshold }

  // ----- the same facts read off the history -----

  ghost predicate LastMarkMined(events: seq<Event>, h: TxHash) {
    exists i :: 0 <= i < |events| && events[i] == Mined(h) &&
                forall j | i < j < |events| :: events[j] != NotMined(h)
  }

  ghost predicate NoneMined(events: seq<Event>) { forall h: TxHash :: !LastMarkMined(events, h) }

  /** The event before position `i` took the mined set from non-empty to empty. */
  ghost predicate EmptiedAt(events: seq<Event>, i: nat)
    requires i <= |events|
  {
    0 < i && NoneMined(events[..i]) && !NoneMined(events[..i - 1])
  }

  /** The last such position, or the start. */
  ghost predicate IsLastReset(events: seq<Event>, i: nat) {
    && i <= |events|
    && (i == 0 || EmptiedAt(events, i))
    && forall j | i < j <= |events| :: !EmptiedAt(events, j)
  }

  function CountTooLow(events: seq<Event>): nat {
    if events == [] then 0
    else CountTooLow(events[..|events| - 1]) + if IsTooLow(events[|events| - 1]) then 1 else 0
  }

  lemma LastMarkStep(events: seq<Event>, e: Event, h: TxHash)
    ensures LastMarkMined(events + [e], h) <==> e == Mined(h) || (e != NotMined(h) && LastMarkMined(events, h))
  {
    var all := events + [e];
    assert all[|events|] == e;
    assert forall j | 0 <= j < |events| :: all[j] == events[j];
    if LastMarkMined(all, h) && e != Mined(h) {
      var i :| 0 <= i < |all| && all[i] == Mined(h) && forall j | i < j < |all| :: all[j] != NotMined(h);
      assert events[i] == Mined(h);
    }
    if LastMarkMined(events, h) && e != NotMined(h) {
      var i :| 0 <= i < |events| && events[i] == Mined(h) && forall j | i < j < |events| :: events[j] != NotMined(h);
      assert all[i] == Mined(h);
    }
  }

  /** The mined set holds exactly the hashes whose latest mark says mined. */
  lemma {:induction false} MinedIsLatestMark(events: seq<Event>)
    ensures forall h: TxHash :: h in Replay(events).mined <==> LastMarkMined(events, h)
  {
    if events != [] {
      var init, e := events[..|events| - 1], events[|events| - 1];
      assert events == init + [e];
      MinedIsLatestMark(init);
      forall h: TxHash { LastMarkStep(init, e, h); }
    }
  }

  lemma EmptyMinedIsNoneMined(events: seq<Event>)
    ensures Replay(events).mined == {} <==> NoneMined(events)
  {
    MinedIsLatestMark(events);
    if Replay(events).mined != {} {
      var h :| h in Replay(events).mined;
      assert LastMarkMined(events, h);
    }
  }

  /** The counter is the number of nonce-too-low errors since the mined set was last emptied. */
  lemma {:induction false} CounterIsErrorsSinceReset(events: seq<Event>, i: nat)
    requires IsLastReset(events, i)
    ensures Replay(events).tooLow == CountTooLow(events[i..])
  {
    if events != [] {
      var n := |events|;
      var init, e := events[..n - 1], events[n - 1];
      assert events[..n] == events;
      EmptyMinedIsNoneMined(init);
      EmptyMinedIsNoneMined(events);
      if i == n {
        assert events[i..] == [];
      } else {
        assert forall k | 0 <= k <= n - 1 :: init[..k] == events[..k];
        assert EmptiedAt(init, i) <==> EmptiedAt(events, i);
        forall j | i < j <= n - 1 ensures !EmptiedAt(init, j) {
          assert !EmptiedAt(events, j);
        }
        CounterIsErrorsSinceReset(init, i);
        assert !EmptiedAt(events, n);
        var since := events[i..];
        assert |since| == n - i && since[n - i - 1] == e;
        assert since[..n - i - 1] == init[i..];
      }
    }
  }

  /** Abort holds exactly when nothing is mined and enough errors came in since the last reset. */
  lemma AbortsIff(events: seq<Event>, i: nat, threshold: nat)
    requires IsLastReset(events, i)
    ensures Aborts(Replay(events), threshold) <==> NoneMined(events) && CountTooLow(events[i..]) >= threshold
  {
    EmptyMinedIsNoneMined(events);
    CounterIsErrorsSinceReset(events, i);
  }

  /** Every history has a last reset, so the two lemmas above always apply. */
  lemma {:induction false} LastResetExists(events: seq<Event>)
    ensures exists i: nat :: IsLastReset(events, i)
  {
    if events == [] {
      assert IsLastReset(events, 0);
    } else if EmptiedAt(events, |events|) {
      assert IsLastReset(events, |events|);
    } else {
      var n := |events|;
      var init := events[..n - 1];
      LastResetExists(init);
      var i: nat :| IsLastReset(init, i);
      assert forall k | 0 <= k <= n - 1 :: init[..k] == events[..k];
      forall j: nat | i < j <= n ensures !EmptiedAt(events, j) {
        if j < n { assert !EmptiedAt(init, j); }
      }
      assert i == 0 || (EmptiedAt(init, i) && EmptiedAt(events, i));
      assert IsLastReset(events, i);
    }
  }

  /** The lock-protected object. Each method body runs under the mutex. */
  class SendState {
    var minedTxs: set<TxHash>
    var nonceTooLowCount: nat
    const safeAbortNonceTooLowCount: nat
    ghost var history: seq<Event>

    ghost predicate Valid()
      reads this
    {
      safeAbortNonceTooLowCount > 0 && Counters(minedTxs, nonceTooLowCount) == Replay(history)
    }

    constructor (threshold: nat)
      requires threshold != 0
      ensures Valid() && history == [] && safeAbortNonceTooLowCount == threshold
    {
      minedTxs, nonceTooLowCount, safeAbortNonceTooLowCount, history := {}, 0, threshold, [];
    }

    method ProcessSendError(err: Option<string>)
      requires Valid()
      modifies this
      ensures Valid() && history == old(history) + [Sent(err)]
    {
      ReplayOneMore(history, Sent(err));
      SentApplies(Replay(history), err, err.Some? && Contains(err.value, NONCE_TOO_LOW));
      history := history + [Sent(err)];
      if err.None? {
        return;
      }
      if !Contains(err.value, NONCE_TOO_LOW) {
        return;
      }
      nonceTooLowCount := nonceTooLowCount + 1;
    }

    method TxMined(txHash: TxHash)
      requires Valid()
      modifies this
      ensures Valid() && history == old(history) + [Mined(txHash)]
    {
      ReplayOneMore(history, Mined(txHash));
      history := history + [Mined(txHash)];
      minedTxs := minedTxs + {txHash};
    }

    method TxNotMined(txHash: TxHash)
      requires Valid()
      modifies this
      ensures Valid() && history == old(history) + [NotMined(txHash)]
    {
      ReplayOneMore(history, NotMined(txHash));
      history := history + [NotMined(txHash)];
      var wasMined := txHash in minedTxs;
      minedTxs := minedTxs - {txHash};
      if |minedTxs| == 0 && wasMined {
        nonceTooLowCount := 0;
      }
    }

    method ShouldAbortImmediately() returns (abort: bool)
      requires Valid()
      ensures forall i: nat :: IsLastReset(history, i) ==>
        (abort <==> NoneMined(history) && CountTooLow(history[i..]) >= safeAbortNonceTooLowCount)
    {
      ghost var h := history;
      forall i: nat | IsLastReset(h, i) { AbortsIff(h, i, safeAbortNonceTooLowCount); }
      if |minedTxs| > 0 {
        return false;
      }
      return nonceTooLowCount >= safeAbortNonceTooLowCount;
    }

    method IsWaitingForConfirmation() returns (waiting: bool)
      requires Valid()
      ensures waiting <==> exists h: TxHash :: LastMarkMined(history, h)
    {
      EmptyMinedIsNoneMined(history);
      return |minedTxs| > 0;
    }
  }
}
