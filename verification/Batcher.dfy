/** The polling loop of op-batcher: which blocks have been handed to L1, and in which channels. */
module Batcher {
  import opened Common

  datatype BlockID = BlockID(hash: nat, number: nat)
  datatype Block = Block(hash: nat, parent: nat, number: nat)

  function ID(b: Block): BlockID { BlockID(b.hash, b.number) }

  const ZERO := BlockID(0, 0)

  datatype SyncStatus = SyncStatus(l1HeadKnown: bool, safe: BlockID, unsafeNumber: nat)

  /** One round of the frame loop: what `OutputFrame` returned and which of the later steps worked. */
  datatype Output = More | Eof | OutputFailed
  datatype FrameTry = FrameTry(output: Output, nonceOk: bool, craftOk: bool, confirmed: bool)

  /** The environment during one tick. `frames` ends where observation ends: the loop need not have. */
  datatype Tick = Tick(
    status: Option<SyncStatus>,
    channelOk: bool,
    fetch: nat -> Option<Block>,
    addOk: nat -> bool,
    closeOk: bool,
    frames: seq<FrameTry>)

  /** A node answers a request for block `i` with a block numbered `i`. */
  ghost predicate NumbersRight(tick: Tick) {
    forall i: nat :: tick.fetch(i).Some? ==> tick.fetch(i).value.number == i
  }

  /** A channel whose frames all went out. */
  datatype Channel = Channel(blocks: seq<Block>, frames: seq<FrameTry>)

  /** `lastSubmittedBlock`, and since the last adoption of a safe head: that head and the finished channels. */
  datatype Log = Log(last: BlockID, adopted: Option<BlockID>, channels: seq<Channel>)

  const INITIAL := Log(ZERO, None, [])

  datatype Outcome = NoStatus | NoL1Head | NothingNew | NoChannel | FetchError | Reorg | AddError | CloseError
                   | FrameError | InProgress | Submitted

  // ----- one tick, without loops -----

  function Adopt(safe: BlockID): Log { Log(safe, Some(safe), []) }

  function CatchUp(log: Log, safe: BlockID): Log {
    var started := if log.last == ZERO then Adopt(safe) else log;
    if started.last.number < safe.number then Adopt(safe) else started
  }

  /** Reading blocks `i` to `upto` onto a channel whose last block is `prev`. */
  function Collect(tick: Tick, prev: BlockID, i: nat, upto: nat): (r: (Option<Outcome>, seq<Block>))
    ensures r.0 != Some(Submitted)
    decreases upto + 1 - i
  {
    if i > upto then (None, [])
    else match tick.fetch(i)
      case None => (Some(FetchError), [])
      case Some(b) =>
        if b.parent != prev.hash then (Some(Reorg), [])
        else if !tick.addOk(i) then (Some(AddError), [])
        else
          var (stop, rest) := Collect(tick, ID(b), i + 1, upto);
          (stop, [b] + rest)
  }

  predicate Confirmed(f: FrameTry) { !f.output.OutputFailed? && f.nonceOk && f.craftOk && f.confirmed }

  /** The frame loop from round `k` on. */
  function SendFrames(frames: seq<FrameTry>, k: nat): (r: (Outcome, nat))
    requires k <= |frames|
    ensures k <= r.1 <= |frames| && (r.0 == Submitted || r.0 == FrameError || r.0 == InProgress)
    decreases |frames| - k
  {
    if k == |frames| then (InProgress, k)
    else if !Confirmed(frames[k]) then (FrameError, k)
    else if frames[k].output.Eof? then (Submitted, k + 1)
    else SendFrames(frames, k + 1)
  }

  function End(from: BlockID, blocks: seq<Block>): BlockID {
    if blocks == [] then from else ID(blocks[|blocks| - 1])
  }

  function Poll(log: Log, tick: Tick): (Outcome, Log) {
    if tick.status.None? then (NoStatus, log)
    else
      var status := tick.status.value;
      if !status.l1HeadKnown then (NoL1Head, log)
      else if status.safe.number >= status.unsafeNumber then (NothingNew, log)
      else
        var log1 := CatchUp(log, status.safe);
        if !tick.channelOk then (NoChannel, log1)
        else
          var (stop, blocks) := Collect(tick, log1.last, log1.last.number + 1, status.unsafeNumber);
          if stop == Some(Reorg) then (Reorg, Adopt(status.safe))
          else if stop.Some? then (stop.value, log1)
          else if !tick.closeOk then (CloseError, log1)
          else
            var (outcome, n) := SendFrames(tick.frames, 0);
            if outcome != Submitted then (outcome, log1)
            else (Submitted, Log(End(log1.last, blocks), log1.adopted, log1.channels + [Channel(blocks, tick.frames[..n])]))
  }

  // ----- the program -----

  class BatchSubmitter {
    var lastSubmittedBlock: BlockID
    ghost var adopted: Option<BlockID>
    ghost var channels: seq<Channel>

    ghost function State(): Log
      reads this
    {
      Log(lastSubmittedBlock, adopted, channels)
    }

    constructor ()
      ensures State() == INITIAL
    {
      lastSubmittedBlock, adopted, channels := ZERO, None, [];
    }

    method AdoptSafe(safe: BlockID)
      modifies this
      ensures State() == Adopt(safe)
    {
      lastSubmittedBlock, adopted, channels := safe, Some(safe), [];
    }

    /** The block loop. */
    method ReadBlocks(tick: Tick, upto: nat) returns (stop: Option<Outcome>, blocks: seq<Block>, prevID: BlockID)
      ensures (stop, blocks) == Collect(tick, lastSubmittedBlock, lastSubmittedBlock.number + 1, upto)
      ensures stop.None? ==> prevID == End(lastSubmittedBlock, blocks)
    {
      prevID, blocks := lastSubmittedBlock, [];
      var i := lastSubmittedBlock.number + 1;
      ghost var whole := Collect(tick, prevID, i, upto);
      assert [] + whole.1 == whole.1;
      while i <= upto
        invariant var rest := Collect(tick, prevID, i, upto); whole == (rest.0, blocks + rest.1)
        invariant prevID == End(lastSubmittedBlock, blocks)
        decreases upto + 1 - i
      {
        var fetched := tick.fetch(i);
        if fetched.None? {
          assert blocks + [] == blocks;
          return Some(FetchError), blocks, prevID;
        }
        var block := fetched.value;
        if block.parent != prevID.hash {
          assert blocks + [] == blocks;
          return Some(Reorg), blocks, prevID;
        }
        if !tick.addOk(i) {
          assert blocks + [] == blocks;
          return Some(AddError), blocks, prevID;
        }
        ghost var rest := Collect(tick, ID(block), i + 1, upto).1;
        assert blocks + ([block] + rest) == blocks + [block] + rest;
        blocks := blocks + [block];
        prevID := ID(block);
        i := i + 1;
      }
      assert blocks + [] == blocks;
      stop := None;
    }

    /** The do-while loop that pulls all frames out of the channel. */
    method PublishFrames(tick: Tick) returns (outcome: Outcome, sent: nat)
      ensures (outcome, sent) == SendFrames(tick.frames, 0)
    {
      sent := 0;
      while sent < |tick.frames|
        invariant sent <= |tick.frames|
        invariant SendFrames(tick.frames, 0) == SendFrames(tick.frames, sent)
      {
        var f := tick.frames[sent];
        var done := f.output == Eof;
        if f.output == OutputFailed {
          return FrameError, sent;
        }
        if !f.nonceOk {
          return FrameError, sent;
        }
        if !f.craftOk {
          return FrameError, sent;
        }
        if !f.confirmed {
          return FrameError, sent;
        }
        sent := sent + 1;
        if done {
          return Submitted, sent;
        }
      }
      outcome := InProgress;
    }

    /** One iteration of the main loop. */
    method Iterate(tick: Tick) returns (outcome: Outcome)
      modifies this
      ensures (outcome, State()) == Poll(old(State()), tick)
    {
      if tick.status.None? {
        return NoStatus;
      }
      var status := tick.status.value;
      if !status.l1HeadKnown {
        return NoL1Head;
      }
      if status.safe.number >= status.unsafeNumber {
        return NothingNew;
      }
      if lastSubmittedBlock == ZERO {
        AdoptSafe(status.safe);
      }
      if lastSubmittedBlock.number < status.safe.number {
        AdoptSafe(status.safe);
      }
      if !tick.channelOk {
        return NoChannel;
      }
      var stop, blocks, prevID := ReadBlocks(tick, status.unsafeNumber);
      if stop.Some? {
        if stop.value == Reorg {
          AdoptSafe(status.safe);
        }
        return stop.value;
      }
      if !tick.closeOk {
        return CloseError;
      }
      var sent;
      outcome, sent := PublishFrames(tick);
      if outcome != Submitted {
        return;
      }
      channels := channels + [Channel(blocks, tick.frames[..sent])];
      lastSubmittedBlock := prevID;
    }
  }

  // ----- whole runs -----

  function Before(from: BlockID, blocks: seq<Block>, i: nat): BlockID
    requires i < |blocks|
  {
    if i == 0 then from else ID(blocks[i - 1])
  }

  /** Each block names its predecessor as parent and has the next number. */
  predicate Linked(from: BlockID, blocks: seq<Block>) {
    forall i: nat | i < |blocks| ::
      blocks[i].parent == Before(from, blocks, i).hash && blocks[i].number == Before(from, blocks, i).number + 1
  }

  /** All frames confirmed, the last of them and no other being the end of the channel. */
  predicate FullyConfirmed(ch: Channel) {
    && |ch.frames| > 0
    && forall k | 0 <= k < |ch.frames| ::
         && ch.frames[k].output != OutputFailed && ch.frames[k].nonceOk && ch.frames[k].craftOk && ch.frames[k].confirmed
         && (ch.frames[k].output.Eof? <==> k == |ch.frames| - 1)
  }

  function AllBlocks(channels: seq<Channel>): seq<Block> {
    if channels == [] then [] else AllBlocks(channels[..|channels| - 1]) + channels[|channels| - 1].blocks
  }

  /** The chain invariant. */
  predicate Inv(log: Log) {
    match log.adopted
    case None => log == INITIAL
    case Some(safe) =>
      && Linked(safe, AllBlocks(log.channels))
      && log.last == End(safe, AllBlocks(log.channels))
      && forall i | 0 <= i < |log.channels| :: FullyConfirmed(log.channels[i])
  }

  lemma {:induction false} CollectLinked(tick: Tick, prev: BlockID, i: nat, upto: nat)
    requires NumbersRight(tick) && i == prev.number + 1
    ensures Linked(prev, Collect(tick, prev, i, upto).1)
    decreases upto + 1 - i
  {
    var (stop, blocks) := Collect(tick, prev, i, upto);
    if blocks != [] {
      var rest := Collect(tick, ID(blocks[0]), i + 1, upto).1;
      CollectLinked(tick, ID(blocks[0]), i + 1, upto);
      forall k: nat | k < |blocks|
        ensures blocks[k].parent == Before(prev, blocks, k).hash && blocks[k].number == Before(prev, blocks, k).number + 1
      {
        if k > 0 {
          assert blocks[k] == rest[k - 1];
          assert Before(prev, blocks, k) == Before(ID(blocks[0]), rest, k - 1);
        }
      }
    }
  }

  lemma LinkedAppend(from: BlockID, a: seq<Block>, b: seq<Block>)
    requires Linked(from, a) && Linked(End(from, a), b)
    ensures Linked(from, a + b) && End(from, a + b) == End(End(from, a), b)
  {
    var c := a + b;
    forall i: nat | i < |c|
      ensures c[i].parent == Before(from, c, i).hash && c[i].number == Before(from, c, i).number + 1
    {
      if i < |a| {
        assert c[i] == a[i] && Before(from, c, i) == Before(from, a, i);
      } else {
        assert c[i] == b[i - |a|] && Before(from, c, i) == Before(End(from, a), b, i - |a|);
      }
    }
  }

  lemma {:induction false} SubmittedFrames(frames: seq<FrameTry>, k: nat)
    requires k <= |frames| && SendFrames(frames, k).0 == Submitted
    ensures var n := SendFrames(frames, k).1;
            && k < n <= |frames|
            && forall j | k <= j < n :: Confirmed(frames[j]) && (frames[j].output.Eof? <==> j == n - 1)
    decreases |frames| - k
  {
    if !frames[k].output.Eof? { SubmittedFrames(frames, k + 1); }
  }

  /** A tick that submits extends the chain by one fully confirmed channel. */
  lemma SubmitKeepsInv(log: Log, blocks: seq<Block>, frames: seq<FrameTry>)
    requires Inv(log) && log.adopted.Some? && Linked(log.last, blocks) && FullyConfirmed(Channel(blocks, frames))
    ensures Inv(Log(End(log.last, blocks), log.adopted, log.channels + [Channel(blocks, frames)]))
  {
    var channels' := log.channels + [Channel(blocks, frames)];
    assert channels'[..|log.channels|] == log.channels;
    LinkedAppend(log.adopted.value, AllBlocks(log.channels), blocks);
  }

  /** A tick that does not submit leaves the last submitted block where it was, or at the safe head. */
  lemma FailureNeverAdvances(log: Log, tick: Tick)
    requires Poll(log, tick).0 != Submitted
    ensures Poll(log, tick).1 == log || (tick.status.Some? && Poll(log, tick).1 == Adopt(tick.status.value.safe))
  {
  }

  lemma CatchUpKeepsInv(log: Log, safe: BlockID)
    requires Inv(log)
    ensures Inv(CatchUp(log, safe)) && CatchUp(log, safe).adopted.Some?
  {
  }

  /** A tick that submits, taken apart. */
  lemma SubmittedTick(log: Log, tick: Tick) returns (log1: Log, blocks: seq<Block>, n: nat)
    requires Poll(log, tick).0 == Submitted
    ensures tick.status.Some? && log1 == CatchUp(log, tick.status.value.safe)
    ensures blocks == Collect(tick, log1.last, log1.last.number + 1, tick.status.value.unsafeNumber).1
    ensures SendFrames(tick.frames, 0) == (Submitted, n)
    ensures n <= |tick.frames|
    ensures Poll(log, tick).1 ==
            Log(End(log1.last, blocks), log1.adopted, log1.channels + [Channel(blocks, tick.frames[..n])])
  {
    log1 := CatchUp(log, tick.status.value.safe);
    blocks := Collect(tick, log1.last, log1.last.number + 1, tick.status.value.unsafeNumber).1;
    n := SendFrames(tick.frames, 0).1;
  }

  lemma InvStep(log: Log, tick: Tick)
    requires Inv(log) && NumbersRight(tick)
    ensures Inv(Poll(log, tick).1)
  {
    if Poll(log, tick).0 != Submitted {
      FailureNeverAdvances(log, tick);
    } else {
      var log1, blocks, n := SubmittedTick(log, tick);
      CatchUpKeepsInv(log, tick.status.value.safe);
      CollectLinked(tick, log1.last, log1.last.number + 1, tick.status.value.unsafeNumber);
      SubmittedFrames(tick.frames, 0);
      SubmitKeepsInv(log1, blocks, tick.frames[..n]);
    }
  }

  predicate IsRun(logs: seq<Log>, ticks: seq<Tick>) {
    && |logs| == |ticks| + 1
    && logs[0] == INITIAL
    && forall i | 0 <= i < |ticks| :: logs[i + 1] == Poll(logs[i], ticks[i]).1
  }

  /** At every point of every run the last submitted block ends a linked chain from the adopted safe head. */
  lemma {:induction false} ChainAlways(logs: seq<Log>, ticks: seq<Tick>, i: nat)
    requires IsRun(logs, ticks) && i < |logs|
    requires forall k | 0 <= k < |ticks| :: NumbersRight(ticks[k])
    ensures Inv(logs[i])
  {
    if i > 0 {
      ChainAlways(logs, ticks, i - 1);
      InvStep(logs[i - 1], ticks[i - 1]);
    }
  }

  lemma {:induction false} NumberAt(from: BlockID, blocks: seq<Block>, i: nat)
    requires Linked(from, blocks) && i < |blocks|
    ensures blocks[i].number == from.number + 1 + i
  {
    if i > 0 { NumberAt(from, blocks, i - 1); }
    assert blocks[i].number == Before(from, blocks, i).number + 1;
  }

  /** No block is in two finished channels, or twice in one, since the adoption. */
  lemma EachBlockOnce(log: Log, i: nat, j: nat)
    requires Inv(log) && log.adopted.Some? && i < j < |AllBlocks(log.channels)|
    ensures AllBlocks(log.channels)[i] != AllBlocks(log.channels)[j]
  {
    NumberAt(log.adopted.value, AllBlocks(log.channels), i);
    NumberAt(log.adopted.value, AllBlocks(log.channels), j);
  }

  // ----- what a tick does -----

  function Fetched(tick: Tick, i: nat): Block { if tick.fetch(i).Some? then tick.fetch(i).value else Block(0, 0, 0) }

  /** The hash block `k` has to name as its parent when reading starts with block `i` after `prev`. */
  function ParentOf(tick: Tick, prev: BlockID, i: nat, k: nat): nat
    requires i <= k
  {
    if k == i then prev.hash else Fetched(tick, k - 1).hash
  }

  /** Block `k` is there, follows its predecessor and is accepted by the channel. */
  predicate Good(tick: Tick, prev: BlockID, i: nat, k: nat)
    requires i <= k
  {
    tick.fetch(k).Some? && Fetched(tick, k).parent == ParentOf(tick, prev, i, k) && tick.addOk(k)
  }

  predicate Readable(tick: Tick, prev: BlockID, i: nat, n: int) { forall k: nat | i <= k <= n :: Good(tick, prev, i, k) }

  /** What a block that is not good stops the reading with. */
  function Fault(tick: Tick, prev: BlockID, i: nat, k: nat): Outcome
    requires i <= k
  {
    if tick.fetch(k).None? then FetchError
    else if Fetched(tick, k).parent != ParentOf(tick, prev, i, k) then Reorg
    else AddError
  }

  lemma ReadableRest(tick: Tick, prev: BlockID, i: nat, n: int)
    requires Readable(tick, prev, i, n) && i <= n
    ensures Readable(tick, ID(Fetched(tick, i)), i + 1, n)
  {
    var next := i + 1;
    forall k: nat | next <= k <= n ensures Good(tick, ID(Fetched(tick, i)), next, k) {
      assert Good(tick, prev, i, k);
    }
  }

  /** Readable blocks are all read, the last one included, in order. */
  lemma {:induction false} CollectAll(tick: Tick, prev: BlockID, i: nat, upto: nat)
    requires Readable(tick, prev, i, upto)
    ensures Collect(tick, prev, i, upto).0 == None
    ensures |Collect(tick, prev, i, upto).1| == Max(0, upto + 1 - i)
    ensures forall k: nat | k < |Collect(tick, prev, i, upto).1| :: Collect(tick, prev, i, upto).1[k] == Fetched(tick, i + k)
    decreases upto + 1 - i
  {
    if i <= upto {
      assert Good(tick, prev, i, i);
      ReadableRest(tick, prev, i, upto);
      CollectAll(tick, ID(Fetched(tick, i)), i + 1, upto);
    }
  }

  /** The first block that is not good stops the reading, with its fault. */
  lemma {:induction false} CollectStops(tick: Tick, prev: BlockID, i: nat, upto: nat, j: nat)
    requires i <= j <= upto && Readable(tick, prev, i, j - 1) && !Good(tick, prev, i, j)
    ensures Collect(tick, prev, i, upto).0 == Some(Fault(tick, prev, i, j))
    decreases j - i
  {
    if i < j {
      assert Good(tick, prev, i, i);
      var b := ID(Fetched(tick, i));
      ReadableRest(tick, prev, i, j - 1);
      assert Good(tick, b, i + 1, j) <==> Good(tick, prev, i, j);
      CollectStops(tick, b, i + 1, upto, j);
    }
  }

  lemma {:induction false} FirstFault(tick: Tick, prev: BlockID, i: nat, n: int) returns (j: nat)
    requires !Readable(tick, prev, i, n) && i <= n
    ensures i <= j <= n && Readable(tick, prev, i, j - 1) && !Good(tick, prev, i, j)
    decreases n
  {
    if Readable(tick, prev, i, n - 1) {
      j := n;
    } else {
      var k: nat :| i <= k <= n - 1 && !Good(tick, prev, i, k);
      j := FirstFault(tick, prev, i, n - 1);
    }
  }

  /** The frames of a finished channel: all confirmed, the last and no other being the end. */
  predicate Finished(frames: seq<FrameTry>, n: nat) {
    && 0 < n <= |frames|
    && forall k | 0 <= k < n :: Confirmed(frames[k]) && (frames[k].output.Eof? <==> k == n - 1)
  }

  predicate UnderWay(frames: seq<FrameTry>, n: nat) {
    n <= |frames| && forall k | 0 <= k < n :: Confirmed(frames[k]) && !frames[k].output.Eof?
  }

  lemma {:induction false} SendOn(frames: seq<FrameTry>, n: nat)
    requires UnderWay(frames, n)
    ensures SendFrames(frames, 0) == SendFrames(frames, n)
  {
    if n > 0 { SendOn(frames, n - 1); }
  }

  /** The frame loop submits exactly a finished channel, fails at the first frame that is not confirmed, and is otherwise
      still at work. */
  lemma SendFramesIs(frames: seq<FrameTry>, n: nat)
    ensures Finished(frames, n) ==> SendFrames(frames, 0) == (Submitted, n)
    ensures UnderWay(frames, n) && n < |frames| && !Confirmed(frames[n]) ==> SendFrames(frames, 0) == (FrameError, n)
    ensures UnderWay(frames, n) && n == |frames| ==> SendFrames(frames, 0) == (InProgress, n)
    ensures SendFrames(frames, 0) == (Submitted, n) ==> Finished(frames, n)
  {
    if Finished(frames, n) { SendOn(frames, n - 1); }
    if UnderWay(frames, n) { SendOn(frames, n); }
    if SendFrames(frames, 0) == (Submitted, n) { SubmittedFrames(frames, 0); }
  }

  /** A tick that has something to do: the node answers, knows its L1 head, and is ahead of the safe head. */
  predicate Active(tick: Tick) {
    tick.status.Some? && tick.status.value.l1HeadKnown && tick.status.value.safe.number < tick.status.value.unsafeNumber
  }

  /** The block to go on from: the safe head at the start and when it has overtaken what was submitted. */
  function BaseOf(log: Log, tick: Tick): BlockID
    requires Active(tick)
  {
    if log.last == BlockID(0, 0) || log.last.number < tick.status.value.safe.number then tick.status.value.safe else log.last
  }

  /** Where a tick that neither submits nor sees a reorganisation leaves the record. */
  function Based(log: Log, tick: Tick): Log
    requires Active(tick)
  {
    if BaseOf(log, tick) == log.last && log.last != BlockID(0, 0) && log.last.number >= tick.status.value.safe.number
    then log else Log(BaseOf(log, tick), Some(BaseOf(log, tick)), [])
  }

  predicate ReadsAll(log: Log, tick: Tick)
    requires Active(tick)
  {
    Readable(tick, BaseOf(log, tick), BaseOf(log, tick).number + 1, tick.status.value.unsafeNumber)
  }

  lemma CatchUpIs(log: Log, tick: Tick)
    requires Active(tick)
    ensures CatchUp(log, tick.status.value.safe) == Based(log, tick) && Based(log, tick).last == BaseOf(log, tick)
  {
  }

  /** A tick without anything to do, and why. */
  lemma IdleTick(log: Log, tick: Tick)
    ensures !Active(tick) ==> Poll(log, tick).1 == log
    ensures Poll(log, tick).0 == NoStatus <==> tick.status.None?
    ensures Poll(log, tick).0 == NoL1Head <==> tick.status.Some? && !tick.status.value.l1HeadKnown
    ensures Poll(log, tick).0 == NothingNew <==>
            && tick.status.Some? && tick.status.value.l1HeadKnown
            && tick.status.value.safe.number >= tick.status.value.unsafeNumber
  {
    if Active(tick) { ActiveTick(log, tick); }
  }

  /** An active tick goes on from its base and stops at its first obstacle. */
  lemma ActiveTick(log: Log, tick: Tick)
    requires Active(tick)
    ensures Poll(log, tick).0 !in {NoStatus, NoL1Head, NothingNew}
    ensures Poll(log, tick).0 == NoChannel <==> !tick.channelOk
    ensures tick.channelOk && !ReadsAll(log, tick) ==> Poll(log, tick).0 in {FetchError, Reorg, AddError}
    ensures Poll(log, tick).0 in {FetchError, Reorg, AddError} ==> tick.channelOk && !ReadsAll(log, tick)
    ensures Poll(log, tick).0 == CloseError <==> tick.channelOk && ReadsAll(log, tick) && !tick.closeOk
    ensures tick.channelOk && ReadsAll(log, tick) && tick.closeOk ==> Poll(log, tick).0 == SendFrames(tick.frames, 0).0
    ensures Poll(log, tick).0 !in {Reorg, Submitted} ==> Poll(log, tick).1 == Based(log, tick)
    ensures Poll(log, tick).0 == Reorg ==>
            Poll(log, tick).1 == Log(tick.status.value.safe, Some(tick.status.value.safe), [])
  {
    CatchUpIs(log, tick);
    var base, upto := BaseOf(log, tick), tick.status.value.unsafeNumber;
    if ReadsAll(log, tick) {
      CollectAll(tick, base, base.number + 1, upto);
    } else {
      var j := FirstFault(tick, base, base.number + 1, upto);
      CollectStops(tick, base, base.number + 1, upto, j);
    }
  }

  /** The obstacle while reading is the fault of the first block that is not good. */
  lemma ReadingTick(log: Log, tick: Tick, j: nat)
    requires Active(tick) && tick.channelOk && BaseOf(log, tick).number < j <= tick.status.value.unsafeNumber
    requires Readable(tick, BaseOf(log, tick), BaseOf(log, tick).number + 1, j - 1)
    requires !Good(tick, BaseOf(log, tick), BaseOf(log, tick).number + 1, j)
    ensures Poll(log, tick).0 == Fault(tick, BaseOf(log, tick), BaseOf(log, tick).number + 1, j)
  {
    CatchUpIs(log, tick);
    CollectStops(tick, BaseOf(log, tick), BaseOf(log, tick).number + 1, tick.status.value.unsafeNumber, j);
  }

  /** A tick submits exactly when nothing is in its way and the frames of the channel go out to the last. */
  lemma SubmitsIff(log: Log, tick: Tick)
    ensures Poll(log, tick).0 == Submitted <==>
            && Active(tick) && tick.channelOk && ReadsAll(log, tick) && tick.closeOk
            && exists n: nat :: Finished(tick.frames, n)
  {
    if Active(tick) {
      ActiveTick(log, tick);
      SendFramesIs(tick.frames, SendFrames(tick.frames, 0).1);
      if n: nat :| Finished(tick.frames, n) { SendFramesIs(tick.frames, n); }
    } else {
      IdleTick(log, tick);
    }
  }

  /** And then it submits every block from its base to the unsafe head, which becomes the last one submitted. */
  lemma SubmitsAll(log: Log, tick: Tick)
    requires Poll(log, tick).0 == Submitted && NumbersRight(tick) && Active(tick)
    ensures var base, upto, log' := BaseOf(log, tick), tick.status.value.unsafeNumber, Poll(log, tick).1;
            && |log'.channels| == |Based(log, tick).channels| + 1
            && log'.channels[..|log'.channels| - 1] == Based(log, tick).channels
            && log'.adopted == Based(log, tick).adopted
            && var ch := log'.channels[|log'.channels| - 1];
               && Finished(ch.frames, |ch.frames|) && ch.frames <= tick.frames
               && |ch.blocks| == Max(0, upto - base.number)
               && (forall k: nat | k < |ch.blocks| :: ch.blocks[k] == Fetched(tick, base.number + 1 + k))
               && (base.number <= upto ==> log'.last.number == upto)
               && (base.number < upto ==> log'.last.hash == Fetched(tick, upto).hash)
               && (base.number >= upto ==> log'.last == base)
  {
    SubmitsIff(log, tick);
    CatchUpIs(log, tick);
    var log1, blocks, n := SubmittedTick(log, tick);
    CollectAll(tick, log1.last, log1.last.number + 1, tick.status.value.unsafeNumber);
    SendFramesIs(tick.frames, n);
    var base, upto := log1.last, tick.status.value.unsafeNumber;
    assert base.number < upto ==> Good(tick, base, base.number + 1, upto);
    assert (log1.channels + [Channel(blocks, tick.frames[..n])])[..|log1.channels|] == log1.channels;
  }
}
