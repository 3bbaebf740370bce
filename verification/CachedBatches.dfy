/** The batch server over the block cache: what a cached slot holds. */
module CachedBatches {
  import opened Common
  import opened Rpc
  import Batches = BatchServer
  import Cache = BlockCache

  /** The cache's answers to block requests are lookups in states of one run of the cache, request `i` in state `at(i)`. */
  ghost predicate CacheBacks(env: Batches.Env, routes: seq<Batches.Route>, states: seq<Cache.System>, at: nat -> nat) {
    forall i: nat | i < |routes| && routes[i].Forward? && Cache.QueryOf(routes[i].req).Some? ::
      at(i) < |states| && env.cached(i) == Cache.Lookup(states[at(i)].store, Cache.QueryOf(routes[i].req).value)
  }

  ghost predicate AllSettled(states: seq<Cache.System>, steps: seq<Cache.Step>)
    requires |states| == |steps| + 1
  {
    forall j | 0 <= j < |steps| :: Cache.Settled(states[j], steps[j])
  }

  /** A block request served from the cache gets its own identifier and the backend's answer at the time of the lookup. */
  lemma CachedSlotIsCurrent(conf: nat, env: Batches.Env, routes: seq<Batches.Route>, log: seq<Batches.Minibatch>,
                            states: seq<Cache.System>, steps: seq<Cache.Step>, at: nat -> nat, i: nat, r: Option<RPCRes>)
    requires Cache.IsRun(conf, states, steps) && AllSettled(states, steps) && CacheBacks(env, routes, states, at)
    requires i < |routes| && routes[i].Forward? && Batches.SlotOk(env, log, routes[i], i, r)
    requires Cache.QueryOf(routes[i].req).Some? && env.cached(i).Some?
    ensures var req, q := routes[i].req, Cache.QueryOf(routes[i].req).value;
            && Cache.ValidChain(conf, states[at(i)].chain)
            && Cache.Answer(states[at(i)].chain, q).Some?
            && r == Some(ResultRes(req.jsonrpc, req.id, Cache.Answer(states[at(i)].chain, q).value))
  {
    Cache.CacheCoherent(conf, states, steps, at(i), Cache.QueryOf(routes[i].req).value);
  }
}
