/** `handleBatchRPC` of proxyd: split a batch by duplicate identifier and backend group, serve what the cache has,
    forward the rest in minibatches and scatter the answers back to their slots. */
module BatchServer {
  import opened Common
  import opened Rpc
  import opened Backends

  datatype Server = Server(
    mappings: map<string, string>,
    overrideLims: set<string>,
    senderLim: bool,
    maxBatch: nat,
    groups: map<string, seq<Backend>>)

  /** What start-up guarantees: a positive minibatch size, and a group for every mapped method. */
  predicate ValidServer(srv: Server) {
    srv.maxBatch > 0 && forall m | m in srv.mappings :: srv.mappings[m] in srv.groups
  }

  /** Answers of the limiters and the cache per request, of the clock per check, and of the network. */
  datatype Env = Env(
    limited: nat -> bool,
    senderErr: nat -> Option<RPCErr>,
    cached: nat -> Option<string>,
    expired: nat -> bool,
    net: Net)

  datatype Elem = Elem(req: RPCReq, index: nat)
  datatype GroupKey = GroupKey(groupID: nat, backendGroup: string)
  datatype Route = Reply(res: RPCRes) | Forward(req: RPCReq, group: string)

  datatype Handled = Responses(responses: seq<Option<RPCRes>>, cached: bool) | Deadline | Panic(duplicate: bool)

  /** What happens to one request before any forwarding; `None` is a request that does not parse. */
  function RouteOf(srv: Server, env: Env, i: nat, raw: Option<RPCReq>): Route {
    if raw.None? then Reply(ErrorRes("", ErrParse))
    else
      var req := raw.value;
      var invalid := Validate(req);
      var group := if req.method_ in srv.mappings then srv.mappings[req.method_] else "";
      if invalid.Some? then Reply(ErrorRes("", invalid.value))
      else if req.method_ == "eth_accounts" then Reply(ResultRes(VERSION, req.id, "[]"))
      else if group == "" then Reply(ErrorRes(req.id, ErrNotWhitelisted))
      else if req.method_ in srv.overrideLims && env.limited(i) then Reply(ErrorRes(req.id, ErrOverRateLimit))
      else if req.method_ == "eth_sendRawTransaction" && srv.senderLim && env.senderErr(i).Some? then
        Reply(ErrorRes(req.id, env.senderErr(i).value))
      else Forward(req, group)
  }

  function Routes(srv: Server, env: Env, raws: seq<Option<RPCReq>>): seq<Route> {
    seq(|raws|, i requires 0 <= i < |raws| => RouteOf(srv, env, i, raws[i]))
  }

  /** A request that is to be forwarded: valid, mapped to a group, and under all limits. */
  predicate Passes(srv: Server, env: Env, i: nat, raw: Option<RPCReq>) {
    && raw.Some? && Validate(raw.value).None?
    && raw.value.method_ != "eth_accounts"
    && raw.value.method_ in srv.mappings && srv.mappings[raw.value.method_] != ""
    && !(raw.value.method_ in srv.overrideLims && env.limited(i))
    && !(raw.value.method_ == "eth_sendRawTransaction" && srv.senderLim && env.senderErr(i).Some?)
  }

  predicate IsError(r: RPCRes, id: string, code: int, message: string, httpCode: nat) {
    r == RPCRes("2.0", None, Some(RPCErr(code, message, httpCode)), id)
  }

  /** What a request that is not forwarded is told: the first objection, under its own identifier once it is valid. */
  predicate Refused(srv: Server, env: Env, i: nat, raw: Option<RPCReq>, r: RPCRes) {
    && (raw.None? ==> IsError(r, "", -32700, "parse error", 400))
    && (raw.Some? && Validate(raw.value).Some? ==>
          r == RPCRes("2.0", None, Validate(raw.value), ""))
    && (raw.Some? && Validate(raw.value).None? ==>
          var req := raw.value;
          var mapped := req.method_ in srv.mappings && srv.mappings[req.method_] != "";
          var limited := req.method_ in srv.overrideLims && env.limited(i);
          && (req.method_ == "eth_accounts" ==> r == RPCRes("2.0", Some("[]"), None, req.id))
          && (req.method_ != "eth_accounts" && !mapped ==>
                IsError(r, req.id, -32001, "rpc method is not whitelisted", 403))
          && (req.method_ != "eth_accounts" && mapped && limited ==> IsError(r, req.id, -32016, "over rate limit", 429))
          && (req.method_ == "eth_sendRawTransaction" && mapped && !limited && srv.senderLim && env.senderErr(i).Some? ==>
                r == RPCRes("2.0", None, env.senderErr(i), req.id)))
  }

  /** A request is forwarded to its method's group as it came exactly when it passes, and is otherwise refused. */
  lemma RouteIs(srv: Server, env: Env, i: nat, raw: Option<RPCReq>)
    ensures RouteOf(srv, env, i, raw).Forward? <==> Passes(srv, env, i, raw)
    ensures Passes(srv, env, i, raw) ==>
            RouteOf(srv, env, i, raw) == Forward(raw.value, srv.mappings[raw.value.method_])
    ensures !Passes(srv, env, i, raw) ==> Refused(srv, env, i, raw, RouteOf(srv, env, i, raw).res)
  {
  }

  // ----- splitting -----

  /** Different identifiers, in the order of the batch. */
  predicate DistinctElems(es: seq<Elem>) {
    forall i, j | 0 <= i < j < |es| :: es[i].req.id != es[j].req.id && es[i].index < es[j].index
  }

  predicate ElemsPlaced(routes: seq<Route>, n: nat, batches: map<GroupKey, seq<Elem>>, place: map<nat, (GroupKey, nat)>)
    requires n <= |routes|
  {
    forall key, p | key in batches && 0 <= p < |batches[key]| ::
      && batches[key][p].index in place && place[batches[key][p].index] == (key, p)
      && batches[key][p].index < n
      && routes[batches[key][p].index] == Forward(batches[key][p].req, key.backendGroup)
  }

  predicate PlacesFilled(batches: map<GroupKey, seq<Elem>>, place: map<nat, (GroupKey, nat)>) {
    forall i | i in place :: place[i].0 in batches && place[i].1 < |batches[place[i].0]|
                             && batches[place[i].0][place[i].1].index == i
  }

  /** Groups and requests: every forwarded request has exactly one place, and nothing else has any. */
  ghost predicate Placed(routes: seq<Route>, n: nat, batches: map<GroupKey, seq<Elem>>, place: map<nat, (GroupKey, nat)>)
    requires n <= |routes|
  {
    && ElemsPlaced(routes, n, batches, place)
    && PlacesFilled(batches, place)
    && (forall i | 0 <= i < n :: routes[i].Forward? <==> i in place)
    && (forall key | key in batches :: |batches[key]| > 0)
  }

  predicate AllDistinct(batches: map<GroupKey, seq<Elem>>) {
    forall key | key in batches :: DistinctElems(batches[key])
  }

  /** No group number is ahead of the count of any identifier in that group. */
  predicate Counted(batches: map<GroupKey, seq<Elem>>, ids: map<string, nat>) {
    forall key, p | key in batches && 0 <= p < |batches[key]| ::
      batches[key][p].req.id in ids && key.groupID <= ids[batches[key][p].req.id]
  }

  /** How many of the first n requests are forwarded with this identifier. */
  function Seen(routes: seq<Route>, n: nat, id: string): nat
    requires n <= |routes|
  {
    if n == 0 then 0
    else Seen(routes, n - 1, id) + if routes[n - 1].Forward? && routes[n - 1].req.id == id then 1 else 0
  }

  /** A request is in the group of its occurrence: the first with an identifier in group 1, the next in group 2, … */
  predicate Numbered(routes: seq<Route>, place: map<nat, (GroupKey, nat)>) {
    forall i | i in place :: i < |routes| && routes[i].Forward? &&
                             place[i].0.groupID == Seen(routes, i, routes[i].req.id) + 1
  }

  ghost predicate IdsCounted(routes: seq<Route>, n: nat, ids: map<string, nat>)
    requires n <= |routes|
  {
    forall id: string :: Get(ids, id) == Seen(routes, n, id)
  }

  function BatchOf(batches: map<GroupKey, seq<Elem>>, key: GroupKey): seq<Elem> {
    if key in batches then batches[key] else []
  }

  lemma AppendDistinct(es: seq<Elem>, e: Elem)
    requires DistinctElems(es)
    requires forall p | 0 <= p < |es| :: es[p].req.id != e.req.id && es[p].index < e.index
    ensures DistinctElems(es + [e])
  {
  }

  function Added(batches: map<GroupKey, seq<Elem>>, key: GroupKey, e: Elem): map<GroupKey, seq<Elem>> {
    batches[key := BatchOf(batches, key) + [e]]
  }

  /** The places after the old ones are the old ones. */
  lemma AddedAt(batches: map<GroupKey, seq<Elem>>, key: GroupKey, e: Elem, k: GroupKey, p: nat)
    requires k in Added(batches, key, e) && p < |Added(batches, key, e)[k]|
    ensures if k == key && p == |BatchOf(batches, key)| then Added(batches, key, e)[k][p] == e
            else k in batches && p < |batches[k]| && Added(batches, key, e)[k][p] == batches[k][p]
  {
  }

  lemma AddElemPlaced(routes: seq<Route>, i: nat, batches: map<GroupKey, seq<Elem>>, place: map<nat, (GroupKey, nat)>,
                      key: GroupKey, e: Elem)
    requires i < |routes| && ElemsPlaced(routes, i, batches, place)
    requires routes[i] == Forward(e.req, key.backendGroup) && e.index == i
    ensures ElemsPlaced(routes, i + 1, Added(batches, key, e), place[i := (key, |BatchOf(batches, key)|)])
  {
    forall k, p | k in Added(batches, key, e) && 0 <= p < |Added(batches, key, e)[k]| {
      AddedAt(batches, key, e, k, p);
    }
  }

  lemma AddPlaceFilled(batches: map<GroupKey, seq<Elem>>, place: map<nat, (GroupKey, nat)>, key: GroupKey, e: Elem)
    requires PlacesFilled(batches, place)
    ensures PlacesFilled(Added(batches, key, e), place[e.index := (key, |BatchOf(batches, key)|)])
  {
  }

  lemma AddPlace(routes: seq<Route>, i: nat, batches: map<GroupKey, seq<Elem>>, place: map<nat, (GroupKey, nat)>,
                 key: GroupKey, e: Elem)
    requires i < |routes| && Placed(routes, i, batches, place)
    requires routes[i] == Forward(e.req, key.backendGroup) && e.index == i
    ensures Placed(routes, i + 1, Added(batches, key, e), place[i := (key, |BatchOf(batches, key)|)])
  {
    AddElemPlaced(routes, i, batches, place, key, e);
    AddPlaceFilled(batches, place, key, e);
  }

  lemma AddCounted(batches: map<GroupKey, seq<Elem>>, ids: map<string, nat>, key: GroupKey, e: Elem)
    requires Counted(batches, ids) && AllDistinct(batches)
    requires key.groupID == Get(ids, e.req.id) + 1
    requires forall k, p | k in batches && 0 <= p < |batches[k]| :: batches[k][p].index < e.index
    ensures AllDistinct(Added(batches, key, e))
    ensures Counted(Added(batches, key, e), ids[e.req.id := key.groupID])
  {
  }

  lemma CountStep(routes: seq<Route>, i: nat, ids: map<string, nat>, ids': map<string, nat>)
    requires i < |routes| && IdsCounted(routes, i, ids)
    requires ids' == match routes[i]
                     case Reply(_) => ids
                     case Forward(req, _) => ids[req.id := Get(ids, req.id) + 1]
    ensures IdsCounted(routes, i + 1, ids')
  {
    var n := i + 1;
    forall id: string ensures Get(ids', id) == Seen(routes, n, id) {
      assert Get(ids, id) == Seen(routes, i, id);
    }
  }

  lemma NumberStep(routes: seq<Route>, i: nat, place: map<nat, (GroupKey, nat)>, key: GroupKey, p: nat)
    requires i < |routes| && routes[i].Forward? && Numbered(routes, place)
    requires key.groupID == Seen(routes, i, routes[i].req.id) + 1
    ensures Numbered(routes, place[i := (key, p)])
  {
  }

  /** The groups after n requests. */
  ghost predicate Grouped(routes: seq<Route>, n: nat, batches: map<GroupKey, seq<Elem>>,
                          place: map<nat, (GroupKey, nat)>, ids: map<string, nat>)
    requires n <= |routes|
  {
    Placed(routes, n, batches, place) && AllDistinct(batches) && Counted(batches, ids)
  }

  /** The counts after n requests. */
  ghost predicate Tallied(routes: seq<Route>, n: nat, place: map<nat, (GroupKey, nat)>, ids: map<string, nat>)
    requires n <= |routes|
  {
    IdsCounted(routes, n, ids) && Numbered(routes, place)
  }

  lemma GroupReply(routes: seq<Route>, i: nat, batches: map<GroupKey, seq<Elem>>, place: map<nat, (GroupKey, nat)>,
                   ids: map<string, nat>)
    requires i < |routes| && routes[i].Reply? && Grouped(routes, i, batches, place, ids)
    ensures Grouped(routes, i + 1, batches, place, ids)
  {
  }

  lemma GroupForward(routes: seq<Route>, i: nat, batches: map<GroupKey, seq<Elem>>, place: map<nat, (GroupKey, nat)>,
                     ids: map<string, nat>, key: GroupKey, e: Elem)
    requires i < |routes| && Grouped(routes, i, batches, place, ids)
    requires routes[i] == Forward(e.req, key.backendGroup) && e.index == i && key.groupID == Get(ids, e.req.id) + 1
    ensures Grouped(routes, i + 1, Added(batches, key, e), place[i := (key, |BatchOf(batches, key)|)],
                    ids[e.req.id := key.groupID])
  {
    AddPlace(routes, i, batches, place, key, e);
    AddCounted(batches, ids, key, e);
  }

  lemma TallyForward(routes: seq<Route>, i: nat, place: map<nat, (GroupKey, nat)>, ids: map<string, nat>,
                     key: GroupKey, p: nat)
    requires i < |routes| && routes[i].Forward? && Tallied(routes, i, place, ids)
    requires key.groupID == Get(ids, routes[i].req.id) + 1
    ensures Tallied(routes, i + 1, place[i := (key, p)], ids[routes[i].req.id := key.groupID])
  {
    CountStep(routes, i, ids, ids[routes[i].req.id := key.groupID]);
    NumberStep(routes, i, place, key, p);
  }

  /** The first loop, once each request is routed. */
  method Split(routes: seq<Route>)
    returns (responses: seq<Option<RPCRes>>, batches: map<GroupKey, seq<Elem>>, ghost place: map<nat, (GroupKey, nat)>)
    ensures |responses| == |routes|
    ensures forall i | 0 <= i < |routes| ::
      responses[i] == if routes[i].Reply? then Some(routes[i].res) else None
    ensures Placed(routes, |routes|, batches, place)
    ensures AllDistinct(batches) && Numbered(routes, place)
  {
    responses := seq(|routes|, _ => None);
    batches, place := map[], map[];
    var ids: map<string, nat> := map[];
    for i := 0 to |routes|
      invariant |responses| == |routes|
      invariant forall j | 0 <= j < |routes| ::
        responses[j] == if j < i && routes[j].Reply? then Some(routes[j].res) else None
      invariant Grouped(routes, i, batches, place, ids)
      invariant Tallied(routes, i, place, ids)
    {
      match routes[i]
      case Reply(res) =>
        GroupReply(routes, i, batches, place, ids);
        CountStep(routes, i, ids, ids);
        responses := responses[i := Some(res)];
      case Forward(req, group) =>
        var key := GroupKey(Get(ids, req.id) + 1, group);
        GroupForward(routes, i, batches, place, ids, key, Elem(req, i));
        TallyForward(routes, i, place, ids, key, |BatchOf(batches, key)|);
        place := place[i := (key, |BatchOf(batches, key)|)];
        ids := ids[req.id := key.groupID];
        batches := Added(batches, key, Elem(req, i));
    }
  }

  // ----- one minibatch -----

  /** A forwarded minibatch: its group and elements, the number its questions to the network start at, the responses it
      got and the next free number. */
  datatype Minibatch = Minibatch(key: GroupKey, elems: seq<Elem>, start: nat, res: seq<RPCRes>, next: nat)

  function Requests(es: seq<Elem>): seq<RPCReq> { seq(|es|, i requires 0 <= i < |es| => es[i].req) }

  /** The responses are the group's error at every place when no backend answers, and otherwise the answer of the
      winning exchange sorted into request order. */
  ghost predicate Replied(env: Env, backends: seq<Backend>, m: Minibatch) {
    var (winner, next) := TryGroup(env.net, backends, Requests(m.elems), m.start);
    && DistinctIds(Requests(m.elems)) && |m.res| == |m.elems| && m.next == next
    && match winner
       case None => forall k | 0 <= k < |m.elems| :: m.res[k] == ErrorRes(m.elems[k].req.id, ErrNoBackends)
       case Some(t) => IsAnswer(env.net, t, Requests(m.elems), m.res)
  }

  /** Its responses are in the slots of its elements. */
  predicate Written(m: Minibatch, responses: seq<Option<RPCRes>>) {
    && |m.res| == |m.elems|
    && forall k | 0 <= k < |m.elems| ::
         m.elems[k].index < |responses| && responses[m.elems[k].index] == Some(m.res[k])
  }

  predicate InRange(es: seq<Elem>, responses: seq<Option<RPCRes>>) {
    forall p | 0 <= p < |es| :: es[p].index < |responses|
  }

  predicate Elsewhere(es: seq<Elem>, i: nat) { forall p | 0 <= p < |es| :: es[p].index != i }

  predicate UnchangedElsewhere(es: seq<Elem>, before: seq<Option<RPCRes>>, after: seq<Option<RPCRes>>) {
    |before| == |after| && forall i: nat | i < |before| && Elsewhere(es, i) :: after[i] == before[i]
  }

  method Scatter(responses: seq<Option<RPCRes>>, es: seq<Elem>, res: seq<RPCRes>)
    returns (responses': seq<Option<RPCRes>>)
    requires DistinctElems(es) && InRange(es, responses) && |res| == |es|
    ensures UnchangedElsewhere(es, responses, responses')
    ensures forall k | 0 <= k < |es| :: responses'[es[k].index] == Some(res[k])
  {
    responses' := responses;
    for k := 0 to |es|
      invariant |responses'| == |responses|
      invariant forall i: nat | i < |responses| && Elsewhere(es, i) :: responses'[i] == responses[i]
      invariant forall j | 0 <= j < k :: responses'[es[j].index] == Some(res[j])
    {
      responses' := responses'[es[k].index := Some(res[k])];
    }
  }

  datatype Stop = Expired | Crashed(duplicate: bool)

  /** The answer before number `t` had a nil. */
  predicate LastNil(net: Net, t: nat, reqs: seq<RPCReq>) { t > 0 && Nil(net.post(t - 1, reqs), reqs) }

  /** Why a run stops when the next free number is `t`: the deadline has passed now, or the last answer had a nil. */
  ghost predicate StopOk(env: Env, stop: Stop, t: nat) {
    match stop
    case Expired => env.expired(t)
    case Crashed(duplicate) => !duplicate && exists reqs: seq<RPCReq> :: LastNil(env.net, t, reqs)
  }

  /** Forward one minibatch and write its responses. */
  method ServeMinibatch(env: Env, ghost key: GroupKey, backends: seq<Backend>, es: seq<Elem>,
                        responses: seq<Option<RPCRes>>, t: nat)
    returns (stop: Option<Stop>, responses': seq<Option<RPCRes>>, t': nat, ghost m: Minibatch)
    requires DistinctElems(es) && DistinctIds(Requests(es)) && InRange(es, responses) && |es| > 0
    ensures stop.Some? ==> StopOk(env, stop.value, t')
    ensures UnchangedElsewhere(es, responses, responses')
    ensures stop.None? ==> m == Minibatch(key, es, t, m.res, t') && Replied(env, backends, m) && Written(m, responses')
  {
    responses' := responses;
    var reqs := Requests(es);
    var r;
    r, t' := ForwardGroup(env.net, backends, t, reqs);
    if r.PanicDuplicate? || r.PanicNil? {
      m := Minibatch(key, es, t, [], t');
      assert LastNil(env.net, t', reqs);
      return Some(Crashed(r.PanicDuplicate?)), responses', t', m;
    }
    var res := if r.Ok? then r.res
               else seq(|es|, k requires 0 <= k < |es| => ErrorRes(es[k].req.id, ErrNoBackends));
    responses' := Scatter(responses, es, res);
    m := Minibatch(key, es, t, res, t');
    stop := None;
  }

  // ----- one group -----

  function Misses(env: Env, batch: seq<Elem>): seq<Elem> {
    if batch == [] then []
    else
      var last := batch[|batch| - 1];
      Misses(env, batch[..|batch| - 1]) + if env.cached(last.index).None? then [last] else []
  }

  function Flatten(ms: seq<Minibatch>): seq<Elem> {
    if ms == [] then [] else Flatten(ms[..|ms| - 1]) + ms[|ms| - 1].elems
  }

  /** The minibatches cut the misses into consecutive pieces, all but the last of the maximal size. */
  predicate Tiles(max: nat, misses: seq<Elem>, ms: seq<Minibatch>) {
    && Flatten(ms) == misses
    && forall x | 0 <= x < |ms| :: 1 <= |ms[x].elems| <= max && (x < |ms| - 1 ==> |ms[x].elems| == max)
  }

  predicate AllFull(max: nat, ms: seq<Minibatch>) { forall x | 0 <= x < |ms| :: |ms[x].elems| == max }

  /** The exchanges of a minibatch all come after those of the one before it. */
  predicate OneByOne(ms: seq<Minibatch>) {
    && (forall x | 0 <= x < |ms| :: ms[x].start <= ms[x].next)
    && (forall x, y | 0 <= x < y < |ms| :: ms[x].next < ms[y].start)
  }

  /** The clock is asked right before each minibatch. */
  predicate InTime(env: Env, ms: seq<Minibatch>) {
    forall x | 0 <= x < |ms| :: ms[x].start > 0 && !env.expired(ms[x].start - 1)
  }

  predicate Between(ms: seq<Minibatch>, from: nat, upto: nat) {
    from <= upto && forall x | 0 <= x < |ms| :: from < ms[x].start <= ms[x].next <= upto
  }

  predicate AllWritten(ms: seq<Minibatch>, responses: seq<Option<RPCRes>>) {
    forall x | 0 <= x < |ms| :: Written(ms[x], responses)
  }

  ghost predicate AllReplied(env: Env, key: GroupKey, backends: seq<Backend>, ms: seq<Minibatch>) {
    forall x | 0 <= x < |ms| :: ms[x].key == key && Replied(env, backends, ms[x])
  }

  /** The misses of one group, forwarded between two exchange numbers. */
  ghost predicate Batched(env: Env, max: nat, key: GroupKey, backends: seq<Backend>, misses: seq<Elem>,
                          ms: seq<Minibatch>, responses: seq<Option<RPCRes>>, from: nat, upto: nat) {
    && Tiles(max, misses, ms)
    && OneByOne(ms) && Between(ms, from, upto) && InTime(env, ms)
    && AllReplied(env, key, backends, ms)
    && AllWritten(ms, responses)
  }

  /** The cached elements have their cached results. */
  predicate HitsIn(env: Env, es: seq<Elem>, responses: seq<Option<RPCRes>>) {
    forall p | 0 <= p < |es| && env.cached(es[p].index).Some? ::
      && es[p].index < |responses|
      && responses[es[p].index] == Some(ResultRes(es[p].req.jsonrpc, es[p].req.id, env.cached(es[p].index).value))
  }

  predicate AnyHit(env: Env, es: seq<Elem>) { exists p :: 0 <= p < |es| && env.cached(es[p].index).Some? }

  lemma {:induction false} MissesAre(env: Env, batch: seq<Elem>)
    ensures forall e :: e in Misses(env, batch) <==> e in batch && env.cached(e.index).None?
  {
    if batch != [] {
      MissesAre(env, batch[..|batch| - 1]);
      assert batch == batch[..|batch| - 1] + [batch[|batch| - 1]];
    }
  }

  lemma {:induction false} MissesDistinct(env: Env, batch: seq<Elem>)
    requires DistinctElems(batch)
    ensures DistinctElems(Misses(env, batch))
  {
    if batch != [] {
      var init, last := batch[..|batch| - 1], batch[|batch| - 1];
      MissesDistinct(env, init);
      MissesAre(env, init);
      var m := Misses(env, init);
      forall p | 0 <= p < |m| ensures m[p].req.id != last.req.id && m[p].index < last.index {
        assert m[p] in init;
        var q :| 0 <= q < |init| && batch[q] == m[p];
      }
      AppendDistinct(m, last);
    }
  }

  lemma {:induction false} ElemInFlatten(ms: seq<Minibatch>, x: nat, k: nat)
    requires x < |ms| && k < |ms[x].elems|
    ensures ms[x].elems[k] in Flatten(ms)
  {
    if x < |ms| - 1 { ElemInFlatten(ms[..|ms| - 1], x, k); }
  }

  lemma {:induction false} FlattenHas(ms: seq<Minibatch>, e: Elem) returns (x: nat, k: nat)
    requires e in Flatten(ms)
    ensures x < |ms| && k < |ms[x].elems| && ms[x].elems[k] == e
  {
    var last := ms[|ms| - 1].elems;
    if e in last {
      x := |ms| - 1;
      k :| k < |last| && last[k] == e;
    } else {
      x, k := FlattenHas(ms[..|ms| - 1], e);
    }
  }

  lemma LookupHit(env: Env, batch: seq<Elem>, p: nat, before: seq<Option<RPCRes>>, after: seq<Option<RPCRes>>)
    requires DistinctElems(batch) && InRange(batch, before) && p < |batch| && HitsIn(env, batch[..p], before)
    requires env.cached(batch[p].index).Some?
    requires after == before[batch[p].index :=
                             Some(ResultRes(batch[p].req.jsonrpc, batch[p].req.id, env.cached(batch[p].index).value))]
    ensures HitsIn(env, batch[..p + 1], after)
  {
  }

  lemma LookupMiss(env: Env, batch: seq<Elem>, p: nat, responses: seq<Option<RPCRes>>)
    requires p < |batch| && HitsIn(env, batch[..p], responses) && env.cached(batch[p].index).None?
    ensures HitsIn(env, batch[..p + 1], responses)
  {
  }

  lemma LookupStep(env: Env, batch: seq<Elem>, p: nat)
    requires p < |batch|
    ensures Misses(env, batch[..p + 1]) ==
            Misses(env, batch[..p]) + if env.cached(batch[p].index).None? then [batch[p]] else []
    ensures AnyHit(env, batch[..p + 1]) <==> AnyHit(env, batch[..p]) || env.cached(batch[p].index).Some?
  {
    assert batch[..p + 1][..p] == batch[..p] && batch[..p + 1][p] == batch[p];
    if AnyHit(env, batch[..p]) {
      var q :| 0 <= q < p && env.cached(batch[..p][q].index).Some?;
      assert env.cached(batch[..p + 1][q].index).Some?;
    }
  }

  /** Cache lookups: hits are written, misses collected in order. */
  method Lookup(env: Env, batch: seq<Elem>, responses: seq<Option<RPCRes>>)
    returns (responses': seq<Option<RPCRes>>, misses: seq<Elem>, cached: bool)
    requires DistinctElems(batch) && InRange(batch, responses)
    ensures misses == Misses(env, batch)
    ensures UnchangedElsewhere(batch, responses, responses')
    ensures HitsIn(env, batch, responses')
    ensures cached <==> AnyHit(env, batch)
  {
    responses', misses, cached := responses, [], false;
    for p := 0 to |batch|
      invariant misses == Misses(env, batch[..p])
      invariant UnchangedElsewhere(batch, responses, responses')
      invariant HitsIn(env, batch[..p], responses')
      invariant cached <==> AnyHit(env, batch[..p])
    {
      LookupStep(env, batch, p);
      ghost var before := responses';
      var e := batch[p];
      match env.cached(e.index)
      case Some(result) =>
        responses' := responses'[e.index := Some(ResultRes(e.req.jsonrpc, e.req.id, result))];
        cached := true;
        LookupHit(env, batch, p, before, responses');
      case None =>
        misses := misses + [e];
        LookupMiss(env, batch, p, responses');
    }
    assert batch[..|batch|] == batch;
  }

  lemma SliceDistinct(es: seq<Elem>, lo: nat, hi: nat)
    requires DistinctElems(es) && lo <= hi <= |es|
    ensures DistinctElems(es[lo..hi]) && DistinctIds(Requests(es[lo..hi]))
  {
  }

  /** Writing a later piece leaves the responses of the earlier ones. */
  lemma WrittenKept(misses: seq<Elem>, lo: nat, hi: nat, ms: seq<Minibatch>,
                    before: seq<Option<RPCRes>>, after: seq<Option<RPCRes>>)
    requires DistinctElems(misses) && lo <= hi <= |misses| && Flatten(ms) == misses[..lo]
    requires AllWritten(ms, before) && UnchangedElsewhere(misses[lo..hi], before, after)
    ensures AllWritten(ms, after)
  {
    forall x, k | 0 <= x < |ms| && 0 <= k < |ms[x].elems|
      ensures ms[x].elems[k].index < |after| && after[ms[x].elems[k].index] == Some(ms[x].res[k])
    {
      assert Written(ms[x], before);
      ElemInFlatten(ms, x, k);
      var p :| 0 <= p < lo && misses[p] == ms[x].elems[k];
      assert Elsewhere(misses[lo..hi], misses[p].index);
    }
  }

  lemma TilesStep(max: nat, misses: seq<Elem>, lo: nat, hi: nat, ms: seq<Minibatch>, m: Minibatch)
    requires lo < hi <= |misses| && hi - lo <= max && Tiles(max, misses[..lo], ms) && m.elems == misses[lo..hi]
    requires AllFull(max, ms)
    ensures Tiles(max, misses[..hi], ms + [m])
  {
  }

  lemma OrderStep(env: Env, ms: seq<Minibatch>, m: Minibatch, from: nat, upto: nat)
    requires OneByOne(ms) && Between(ms, from, upto) && InTime(env, ms)
    requires m.start == upto + 1 <= m.next && !env.expired(upto)
    ensures OneByOne(ms + [m]) && Between(ms + [m], from, m.next) && InTime(env, ms + [m])
  {
  }

  lemma RepliedStep(env: Env, key: GroupKey, backends: seq<Backend>, ms: seq<Minibatch>, m: Minibatch)
    requires AllReplied(env, key, backends, ms) && m.key == key && Replied(env, backends, m)
    ensures AllReplied(env, key, backends, ms + [m]) && m.start <= m.next
  {
  }

  lemma WrittenStep(misses: seq<Elem>, lo: nat, hi: nat, ms: seq<Minibatch>, m: Minibatch,
                    before: seq<Option<RPCRes>>, after: seq<Option<RPCRes>>)
    requires DistinctElems(misses) && lo <= hi <= |misses| && Flatten(ms) == misses[..lo]
    requires AllWritten(ms, before) && UnchangedElsewhere(misses[lo..hi], before, after) && Written(m, after)
    ensures AllWritten(ms + [m], after)
  {
    WrittenKept(misses, lo, hi, ms, before, after);
  }

  /** One more minibatch. */
  lemma BatchedStep(env: Env, max: nat, key: GroupKey, backends: seq<Backend>, misses: seq<Elem>, lo: nat, hi: nat,
                    ms: seq<Minibatch>, m: Minibatch, before: seq<Option<RPCRes>>, after: seq<Option<RPCRes>>,
                    from: nat, upto: nat)
    requires DistinctElems(misses) && lo < hi <= |misses| && hi - lo <= max
    requires Batched(env, max, key, backends, misses[..lo], ms, before, from, upto) && AllFull(max, ms)
    requires UnchangedElsewhere(misses[lo..hi], before, after)
    requires m.key == key && m.elems == misses[lo..hi] && m.start == upto + 1
    requires Replied(env, backends, m) && Written(m, after) && !env.expired(upto)
    ensures Batched(env, max, key, backends, misses[..hi], ms + [m], after, from, m.next)
  {
    TilesStep(max, misses, lo, hi, ms, m);
    RepliedStep(env, key, backends, ms, m);
    OrderStep(env, ms, m, from, upto);
    WrittenStep(misses, lo, hi, ms, m, before, after);
  }

  lemma ElsewhereTrans(es: seq<Elem>, lo: nat, hi: nat,
                       a: seq<Option<RPCRes>>, b: seq<Option<RPCRes>>, c: seq<Option<RPCRes>>)
    requires lo <= hi <= |es|
    requires UnchangedElsewhere(es, a, b) && UnchangedElsewhere(es[lo..hi], b, c)
    ensures UnchangedElsewhere(es, a, c)
  {
  }

  lemma NothingBatched(env: Env, max: nat, key: GroupKey, backends: seq<Backend>, misses: seq<Elem>,
                       responses: seq<Option<RPCRes>>, t: nat)
    ensures Batched(env, max, key, backends, misses[..0], [], responses, t, t)
  {
  }

  /** Cut the misses into minibatches and serve them in order. */
  method ServeMisses(env: Env, max: nat, ghost key: GroupKey, backends: seq<Backend>, misses: seq<Elem>,
                     responses: seq<Option<RPCRes>>, t: nat)
    returns (stop: Option<Stop>, responses': seq<Option<RPCRes>>, t': nat, ghost ms: seq<Minibatch>)
    requires DistinctElems(misses) && InRange(misses, responses) && max > 0
    ensures stop.Some? ==> StopOk(env, stop.value, t')
    ensures UnchangedElsewhere(misses, responses, responses')
    ensures stop.None? ==> Batched(env, max, key, backends, misses, ms, responses', t, t')
  {
    responses', t', ms := responses, t, [];
    var start := 0;
    NothingBatched(env, max, key, backends, misses, responses, t);
    while start < |misses|
      invariant start <= |misses|
      invariant UnchangedElsewhere(misses, responses, responses')
      invariant Batched(env, max, key, backends, misses[..start], ms, responses', t, t')
      invariant start < |misses| ==> AllFull(max, ms)
      decreases |misses| - start
    {
      if env.expired(t') {
        return Some(Expired), responses', t', ms;
      }
      var end := Min(start + max, |misses|);
      SliceDistinct(misses, start, end);
      ghost var before, upto := responses', t';
      ghost var m;
      stop, responses', t', m := ServeMinibatch(env, key, backends, misses[start..end], responses', t' + 1);
      ElsewhereTrans(misses, start, end, responses, before, responses');
      if stop.Some? {
        return;
      }
      BatchedStep(env, max, key, backends, misses, start, end, ms, m, before, responses', t, upto);
      ms := ms + [m];
      start := end;
    }
    assert misses[..start] == misses;
    stop := None;
  }

  /** The misses are written elsewhere than the hits. */
  lemma HitsKept(env: Env, batch: seq<Elem>, misses: seq<Elem>, looked: seq<Option<RPCRes>>, after: seq<Option<RPCRes>>)
    requires HitsIn(env, batch, looked) && UnchangedElsewhere(misses, looked, after)
    requires forall e :: e in misses <==> e in batch && env.cached(e.index).None?
    ensures HitsIn(env, batch, after)
  {
  }

  lemma ElsewhereWidens(batch: seq<Elem>, misses: seq<Elem>,
                        a: seq<Option<RPCRes>>, b: seq<Option<RPCRes>>, c: seq<Option<RPCRes>>)
    requires UnchangedElsewhere(batch, a, b) && UnchangedElsewhere(misses, b, c)
    requires forall e | e in misses :: e in batch
    ensures UnchangedElsewhere(batch, a, c)
  {
    forall i: nat | i < |a| && Elsewhere(batch, i) ensures Elsewhere(misses, i) {
      forall q | 0 <= q < |misses| ensures misses[q].index != i {
        assert misses[q] in misses;
      }
    }
  }

  /** One group: cache first, then the misses in minibatches. */
  method ServeGroup(env: Env, max: nat, ghost key: GroupKey, backends: seq<Backend>, batch: seq<Elem>,
                    responses: seq<Option<RPCRes>>, t: nat)
    returns (stop: Option<Stop>, responses': seq<Option<RPCRes>>, t': nat, ghost ms: seq<Minibatch>, cached: bool)
    requires DistinctElems(batch) && InRange(batch, responses) && max > 0
    ensures stop.Some? ==> StopOk(env, stop.value, t')
    ensures UnchangedElsewhere(batch, responses, responses')
    ensures stop.None? ==> Batched(env, max, key, backends, Misses(env, batch), ms, responses', t, t')
    ensures stop.None? ==> HitsIn(env, batch, responses')
    ensures cached <==> AnyHit(env, batch)
  {
    var misses, looked;
    looked, misses, cached := Lookup(env, batch, responses);
    MissesAre(env, batch);
    MissesDistinct(env, batch);
    assert forall p | 0 <= p < |misses| :: misses[p] in batch;
    stop, responses', t', ms := ServeMisses(env, max, key, backends, misses, looked, t);
    HitsKept(env, batch, misses, looked, responses');
    ElsewhereWidens(batch, misses, responses, looked, responses');
  }

  // ----- the whole batch -----

  type Groups = map<string, seq<Backend>>

  /** The minibatches of one group, out of those of the whole run. */
  function Of(log: seq<Minibatch>, key: GroupKey): seq<Minibatch> {
    if log == [] then []
    else
      var last := log[|log| - 1];
      Of(log[..|log| - 1], key) + if last.key == key then [last] else []
  }

  lemma {:induction false} OfNone(log: seq<Minibatch>, key: GroupKey)
    requires forall x | 0 <= x < |log| :: log[x].key != key
    ensures Of(log, key) == []
  {
    if log != [] { OfNone(log[..|log| - 1], key); }
  }

  lemma {:induction false} OfAppend(log: seq<Minibatch>, ms: seq<Minibatch>, mine: GroupKey, key: GroupKey)
    requires forall x | 0 <= x < |ms| :: ms[x].key == mine
    ensures Of(log + ms, key) == if key == mine then Of(log, key) + ms else Of(log, key)
  {
    if ms == [] {
      assert log + ms == log;
    } else {
      var n := |ms| - 1;
      OfAppend(log, ms[..n], mine, key);
      assert (log + ms)[..|log| + n] == log + ms[..n];
      assert ms == ms[..n] + [ms[n]];
    }
  }

  lemma {:induction false} OfHas(log: seq<Minibatch>, key: GroupKey, m: Minibatch) returns (x: nat)
    requires m in Of(log, key)
    ensures x < |log| && log[x] == m && m.key == key
  {
    var n := |log| - 1;
    if m in Of(log[..n], key) { x := OfHas(log[..n], key, m); } else { x := n; }
  }

  predicate RepliesIn(routes: seq<Route>, responses: seq<Option<RPCRes>>) {
    |responses| == |routes| && forall i | 0 <= i < |routes| && routes[i].Reply? :: responses[i] == Some(routes[i].res)
  }

  /** Every minibatch is of a served group, of its elements, and was answered by its backends. */
  ghost predicate LogRight(env: Env, groups: Groups, batches: map<GroupKey, seq<Elem>>, log: seq<Minibatch>) {
    forall x | 0 <= x < |log| ::
      && log[x].key in batches && log[x].key.backendGroup in groups
      && (forall e | e in log[x].elems :: e in batches[log[x].key])
      && Replied(env, groups[log[x].key.backendGroup], log[x])
  }

  /** The groups outside `todo` are tiled by their minibatches and have their hits. */
  predicate GroupsDone(env: Env, max: nat, batches: map<GroupKey, seq<Elem>>, todo: set<GroupKey>,
                       log: seq<Minibatch>, responses: seq<Option<RPCRes>>) {
    forall key | key in batches && key !in todo ::
      Tiles(max, Misses(env, batches[key]), Of(log, key)) && HitsIn(env, batches[key], responses)
  }

  predicate Untouched(log: seq<Minibatch>, todo: set<GroupKey>) { forall x | 0 <= x < |log| :: log[x].key !in todo }

  predicate GroupHit(env: Env, batches: map<GroupKey, seq<Elem>>, todo: set<GroupKey>) {
    exists key :: key in batches && key !in todo && AnyHit(env, batches[key])
  }

  /** The state of the second loop. */
  ghost predicate Progress(env: Env, max: nat, groups: Groups, routes: seq<Route>, batches: map<GroupKey, seq<Elem>>,
                           todo: set<GroupKey>, responses: seq<Option<RPCRes>>, log: seq<Minibatch>, t: nat,
                           cached: bool) {
    && RepliesIn(routes, responses)
    && LogRight(env, groups, batches, log) && Untouched(log, todo)
    && OneByOne(log) && Between(log, 0, t) && InTime(env, log)
    && AllWritten(log, responses)
    && GroupsDone(env, max, batches, todo, log, responses)
    && (cached <==> GroupHit(env, batches, todo))
  }

  predicate GroupsKnown(groups: Groups, batches: map<GroupKey, seq<Elem>>) {
    forall key | key in batches :: key.backendGroup in groups
  }

  lemma GroupInRange(routes: seq<Route>, batches: map<GroupKey, seq<Elem>>, place: map<nat, (GroupKey, nat)>,
                     key: GroupKey, responses: seq<Option<RPCRes>>)
    requires Placed(routes, |routes|, batches, place) && key in batches && |responses| == |routes|
    ensures InRange(batches[key], responses)
  {
  }

  lemma MappedGroupsKnown(srv: Server, env: Env, raws: seq<Option<RPCReq>>, batches: map<GroupKey, seq<Elem>>,
                          place: map<nat, (GroupKey, nat)>)
    requires ValidServer(srv) && Placed(Routes(srv, env, raws), |raws|, batches, place)
    ensures GroupsKnown(srv.groups, batches)
  {
    forall key | key in batches ensures key.backendGroup in srv.groups {
      var e := batches[key][0];
      assert Routes(srv, env, raws)[e.index] == RouteOf(srv, env, e.index, raws[e.index]);
    }
  }

  lemma RepliesKept(routes: seq<Route>, batches: map<GroupKey, seq<Elem>>, place: map<nat, (GroupKey, nat)>,
                    key: GroupKey, before: seq<Option<RPCRes>>, after: seq<Option<RPCRes>>)
    requires Placed(routes, |routes|, batches, place) && key in batches && RepliesIn(routes, before)
    requires UnchangedElsewhere(batches[key], before, after)
    ensures RepliesIn(routes, after)
  {
  }

  /** Elements of different groups have different slots. */
  lemma GroupsApart(routes: seq<Route>, batches: map<GroupKey, seq<Elem>>, place: map<nat, (GroupKey, nat)>,
                    key: GroupKey, other: GroupKey, e: Elem)
    requires Placed(routes, |routes|, batches, place) && key in batches && other in batches && key != other
    requires e in batches[other]
    ensures Elsewhere(batches[key], e.index)
  {
  }

  lemma OtherHitsKept(env: Env, routes: seq<Route>, batches: map<GroupKey, seq<Elem>>,
                      place: map<nat, (GroupKey, nat)>, key: GroupKey, other: GroupKey,
                      before: seq<Option<RPCRes>>, after: seq<Option<RPCRes>>)
    requires Placed(routes, |routes|, batches, place) && key in batches && other in batches && key != other
    requires UnchangedElsewhere(batches[key], before, after) && HitsIn(env, batches[other], before)
    ensures HitsIn(env, batches[other], after)
  {
  }

  /** The minibatches of a group are those of the log before it was served, or its own. */
  lemma OfAfter(log: seq<Minibatch>, ms: seq<Minibatch>, todo: set<GroupKey>, key: GroupKey, k: GroupKey)
    requires key in todo && Untouched(log, todo) && forall x | 0 <= x < |ms| :: ms[x].key == key
    ensures Of(log + ms, k) == if k == key then ms else Of(log, k)
  {
    OfAppend(log, ms, key, k);
    if k == key {
      OfNone(log, key);
      assert [] + ms == ms;
    }
  }

  /** Serving one group leaves the groups before it done. */
  lemma OtherGroupsKept(env: Env, max: nat, routes: seq<Route>, batches: map<GroupKey, seq<Elem>>,
                        place: map<nat, (GroupKey, nat)>, todo: set<GroupKey>, key: GroupKey, log: seq<Minibatch>,
                        ms: seq<Minibatch>, before: seq<Option<RPCRes>>, after: seq<Option<RPCRes>>)
    requires Placed(routes, |routes|, batches, place) && key in batches && key in todo && Untouched(log, todo)
    requires GroupsDone(env, max, batches, todo, log, before) && UnchangedElsewhere(batches[key], before, after)
    requires forall x | 0 <= x < |ms| :: ms[x].key == key
    requires Tiles(max, Misses(env, batches[key]), ms) && HitsIn(env, batches[key], after)
    ensures GroupsDone(env, max, batches, todo - {key}, log + ms, after)
  {
    forall k | k in batches && k !in todo - {key}
      ensures Tiles(max, Misses(env, batches[k]), Of(log + ms, k)) && HitsIn(env, batches[k], after)
    {
      OfAfter(log, ms, todo, key, k);
      if k != key { OtherHitsKept(env, routes, batches, place, key, k, before, after); }
    }
  }

  lemma LogWritten(env: Env, groups: Groups, routes: seq<Route>, batches: map<GroupKey, seq<Elem>>,
                   place: map<nat, (GroupKey, nat)>, todo: set<GroupKey>, key: GroupKey, log: seq<Minibatch>,
                   before: seq<Option<RPCRes>>, after: seq<Option<RPCRes>>)
    requires Placed(routes, |routes|, batches, place) && key in batches && key in todo && Untouched(log, todo)
    requires LogRight(env, groups, batches, log) && AllWritten(log, before)
    requires UnchangedElsewhere(batches[key], before, after)
    ensures AllWritten(log, after)
  {
    forall x, k | 0 <= x < |log| && 0 <= k < |log[x].elems|
      ensures log[x].elems[k].index < |after| && after[log[x].elems[k].index] == Some(log[x].res[k])
    {
      assert Written(log[x], before);
      assert log[x].elems[k] in log[x].elems;
      GroupsApart(routes, batches, place, key, log[x].key, log[x].elems[k]);
    }
  }

  lemma LogStep(env: Env, max: nat, groups: Groups, batches: map<GroupKey, seq<Elem>>, key: GroupKey,
                log: seq<Minibatch>, ms: seq<Minibatch>)
    requires LogRight(env, groups, batches, log) && key in batches && key.backendGroup in groups
    requires AllReplied(env, key, groups[key.backendGroup], ms) && Tiles(max, Misses(env, batches[key]), ms)
    ensures LogRight(env, groups, batches, log + ms)
  {
    MissesAre(env, batches[key]);
    forall x, e | 0 <= x < |ms| && e in ms[x].elems ensures e in batches[key] {
      var k :| 0 <= k < |ms[x].elems| && ms[x].elems[k] == e;
      ElemInFlatten(ms, x, k);
    }
  }

  lemma OneByOneAppend(env: Env, log: seq<Minibatch>, ms: seq<Minibatch>, t: nat, t': nat)
    requires OneByOne(log) && Between(log, 0, t) && InTime(env, log)
    requires OneByOne(ms) && Between(ms, t, t') && InTime(env, ms)
    ensures OneByOne(log + ms) && Between(log + ms, 0, t') && InTime(env, log + ms)
  {
  }

  lemma HitStep(env: Env, batches: map<GroupKey, seq<Elem>>, todo: set<GroupKey>, key: GroupKey)
    requires key in batches && key in todo
    ensures GroupHit(env, batches, todo - {key}) <==> GroupHit(env, batches, todo) || AnyHit(env, batches[key])
  {
  }

  lemma ProgressStep(env: Env, max: nat, groups: Groups, routes: seq<Route>, batches: map<GroupKey, seq<Elem>>,
                     place: map<nat, (GroupKey, nat)>, todo: set<GroupKey>, before: seq<Option<RPCRes>>,
                     log: seq<Minibatch>, t: nat, cached: bool, key: GroupKey, ms: seq<Minibatch>, t': nat, hit: bool,
                     after: seq<Option<RPCRes>>)
    requires Placed(routes, |routes|, batches, place) && key in batches && key in todo && key.backendGroup in groups
    requires Progress(env, max, groups, routes, batches, todo, before, log, t, cached)
    requires UnchangedElsewhere(batches[key], before, after)
    requires Batched(env, max, key, groups[key.backendGroup], Misses(env, batches[key]), ms, after, t, t')
    requires HitsIn(env, batches[key], after) && (hit <==> AnyHit(env, batches[key]))
    ensures Progress(env, max, groups, routes, batches, todo - {key}, after, log + ms, t', cached || hit)
  {
    RepliesKept(routes, batches, place, key, before, after);
    LogStep(env, max, groups, batches, key, log, ms);
    OneByOneAppend(env, log, ms, t, t');
    LogWritten(env, groups, routes, batches, place, todo, key, log, before, after);
    OtherGroupsKept(env, max, routes, batches, place, todo, key, log, ms, before, after);
    HitStep(env, batches, todo, key);
  }

  /** The second loop, over the groups in any order. */
  method ServeAll(env: Env, max: nat, groups: Groups, ghost routes: seq<Route>, batches: map<GroupKey, seq<Elem>>,
                  ghost place: map<nat, (GroupKey, nat)>, responses: seq<Option<RPCRes>>)
    returns (stop: Option<Stop>, responses': seq<Option<RPCRes>>, ghost log: seq<Minibatch>, t: nat, cached: bool)
    requires max > 0 && GroupsKnown(groups, batches)
    requires Placed(routes, |routes|, batches, place) && RepliesIn(routes, responses) && AllDistinct(batches)
    ensures stop.Some? ==> StopOk(env, stop.value, t)
    ensures stop.None? ==> Progress(env, max, groups, routes, batches, {}, responses', log, t, cached)
  {
    responses', log, t, cached := responses, [], 0, false;
    var todo := batches.Keys;
    while todo != {}
      invariant todo <= batches.Keys
      invariant Progress(env, max, groups, routes, batches, todo, responses', log, t, cached)
      decreases todo
    {
      var key :| key in todo;
      ghost var before, from := responses', t;
      ghost var ms;
      GroupInRange(routes, batches, place, key, responses');
      var hit;
      stop, responses', t, ms, hit := ServeGroup(env, max, key, groups[key.backendGroup], batches[key], responses', t);
      if stop.Some? {
        return;
      }
      ProgressStep(env, max, groups, routes, batches, place, todo, before, log, from, cached, key, ms, t, hit, responses');
      log := log + ms;
      cached, todo := cached || hit, todo - {key};
    }
    stop := None;
  }

  /** The response of one slot, given the minibatches of the run. */
  ghost predicate SlotOk(env: Env, log: seq<Minibatch>, route: Route, i: nat, r: Option<RPCRes>) {
    && r.Some?
    && match route
       case Reply(res) => r.value == res
       case Forward(req, group) =>
         match env.cached(i)
         case Some(result) => r.value == ResultRes(req.jsonrpc, req.id, result)
         case None => FromLog(log, group, Elem(req, i), r.value)
  }

  ghost predicate FromLog(log: seq<Minibatch>, group: string, e: Elem, r: RPCRes) {
    exists x: nat, k: nat ::
      && x < |log| && k < |log[x].elems| && |log[x].res| == |log[x].elems|
      && log[x].key.backendGroup == group && log[x].elems[k] == e && r == log[x].res[k]
  }

  lemma AllSlots(env: Env, max: nat, groups: Groups, log: seq<Minibatch>, t: nat, routes: seq<Route>,
                 batches: map<GroupKey, seq<Elem>>, place: map<nat, (GroupKey, nat)>,
                 responses: seq<Option<RPCRes>>, cached: bool, i: nat)
    requires Placed(routes, |routes|, batches, place) && i < |routes|
    requires Progress(env, max, groups, routes, batches, {}, responses, log, t, cached)
    ensures SlotOk(env, log, routes[i], i, responses[i])
  {
    if routes[i].Forward? {
      var (key, p) := place[i];
      var e := batches[key][p];
      assert e == Elem(routes[i].req, i) && key.backendGroup == routes[i].group;
      if env.cached(i).None? {
        MissesAre(env, batches[key]);
        var y, k := FlattenHas(Of(log, key), e);
        var x := OfHas(log, key, Of(log, key)[y]);
        assert Written(log[x], responses);
      }
    }
  }

  /** Some forwarded request was found in the cache. */
  predicate SomeHit(env: Env, routes: seq<Route>) {
    exists i :: 0 <= i < |routes| && routes[i].Forward? && env.cached(i).Some?
  }

  lemma HitsAre(env: Env, routes: seq<Route>, batches: map<GroupKey, seq<Elem>>, place: map<nat, (GroupKey, nat)>)
    requires Placed(routes, |routes|, batches, place)
    ensures GroupHit(env, batches, {}) <==> SomeHit(env, routes)
  {
    if GroupHit(env, batches, {}) {
      var key :| key in batches && AnyHit(env, batches[key]);
      var p :| 0 <= p < |batches[key]| && env.cached(batches[key][p].index).Some?;
      assert routes[batches[key][p].index].Forward?;
    }
    if SomeHit(env, routes) {
      var i :| 0 <= i < |routes| && routes[i].Forward? && env.cached(i).Some?;
      var (key, p) := place[i];
      assert env.cached(batches[key][p].index).Some?;
      assert AnyHit(env, batches[key]);
    }
  }

  predicate AllTiled(env: Env, max: nat, batches: map<GroupKey, seq<Elem>>, log: seq<Minibatch>) {
    forall key | key in batches :: Tiles(max, Misses(env, batches[key]), Of(log, key))
  }

  /** Request i has a place exactly when it passes: in the group of its method, as it came. */
  predicate RequestPlaced(srv: Server, env: Env, raws: seq<Option<RPCReq>>, batches: map<GroupKey, seq<Elem>>,
                          place: map<nat, (GroupKey, nat)>, i: nat)
    requires i < |raws|
  {
    && (i in place <==> Passes(srv, env, i, raws[i]))
    && (i in place ==>
          var (key, p) := place[i];
          && key in batches && p < |batches[key]| && batches[key][p] == Elem(raws[i].value, i)
          && raws[i].value.method_ in srv.mappings && key.backendGroup == srv.mappings[raws[i].value.method_])
  }

  lemma RequestsPlaced(srv: Server, env: Env, raws: seq<Option<RPCReq>>, batches: map<GroupKey, seq<Elem>>,
                       place: map<nat, (GroupKey, nat)>, i: nat)
    requires i < |raws| && Placed(Routes(srv, env, raws), |raws|, batches, place)
    ensures RequestPlaced(srv, env, raws, batches, place, i)
  {
    RouteIs(srv, env, i, raws[i]);
    assert Routes(srv, env, raws)[i] == RouteOf(srv, env, i, raws[i]);
  }

  /** Every slot of a finished batch holds its own answer; only the clock or a nil answer can stop it. */
  method HandleBatch(srv: Server, env: Env, raws: seq<Option<RPCReq>>)
    returns (out: Handled, batches: map<GroupKey, seq<Elem>>, ghost place: map<nat, (GroupKey, nat)>,
             ghost log: seq<Minibatch>, ghost t: nat)
    requires ValidServer(srv)
    ensures Placed(Routes(srv, env, raws), |raws|, batches, place)
    ensures AllDistinct(batches) && Numbered(Routes(srv, env, raws), place)
    ensures forall i | 0 <= i < |raws| :: RequestPlaced(srv, env, raws, batches, place, i)
    ensures out.Responses? ==> |out.responses| == |raws|
    ensures out.Responses? ==> forall i | 0 <= i < |raws| && !Passes(srv, env, i, raws[i]) ::
              out.responses[i].Some? && Refused(srv, env, i, raws[i], out.responses[i].value)
    ensures out.Responses? ==> LogRight(env, srv.groups, batches, log) && OneByOne(log) && InTime(env, log)
    ensures out.Responses? ==> AllTiled(env, srv.maxBatch, batches, log) && AllWritten(log, out.responses)
    ensures out.Responses? ==>
      forall i | 0 <= i < |raws| :: SlotOk(env, log, Routes(srv, env, raws)[i], i, out.responses[i])
    ensures out.Responses? ==> (out.cached <==> SomeHit(env, Routes(srv, env, raws)))
    ensures out != Panic(true)
    ensures out.Panic? ==> StopOk(env, Crashed(false), t)
    ensures out.Deadline? ==> StopOk(env, Expired, t)
  {
    var routes := Routes(srv, env, raws);
    var responses;
    responses, batches, place := Split(routes);
    MappedGroupsKnown(srv, env, raws, batches, place);
    forall i | 0 <= i < |raws| ensures RequestPlaced(srv, env, raws, batches, place, i) {
      RequestsPlaced(srv, env, raws, batches, place, i);
    }
    var stop, next, cached;
    stop, responses, log, next, cached := ServeAll(env, srv.maxBatch, srv.groups, routes, batches, place, responses);
    t := next;
    if stop.Some? {
      out := if stop.value.Expired? then Deadline else Panic(stop.value.duplicate);
      return;
    }
    forall i: nat | i < |raws| ensures SlotOk(env, log, routes[i], i, responses[i]) {
      AllSlots(env, srv.maxBatch, srv.groups, log, t, routes, batches, place, responses, cached, i);
    }
    forall i | 0 <= i < |raws| && !Passes(srv, env, i, raws[i])
      ensures responses[i].Some? && Refused(srv, env, i, raws[i], responses[i].value)
    {
      RouteIs(srv, env, i, raws[i]);
    }
    HitsAre(env, routes, batches, place);
    out := Responses(responses, cached);
  }

  /** No request is forwarded twice, within a group or across groups. */
  lemma ForwardedOnce(env: Env, max: nat, routes: seq<Route>, batches: map<GroupKey, seq<Elem>>,
                      place: map<nat, (GroupKey, nat)>, log: seq<Minibatch>,
                      k1: GroupKey, p1: nat, k2: GroupKey, p2: nat)
    requires Placed(routes, |routes|, batches, place) && AllDistinct(batches) && AllTiled(env, max, batches, log)
    requires k1 in batches && p1 < |Flatten(Of(log, k1))| && k2 in batches && p2 < |Flatten(Of(log, k2))|
    requires Flatten(Of(log, k1))[p1].index == Flatten(Of(log, k2))[p2].index
    ensures k1 == k2 && p1 == p2
  {
    var e1, e2 := Misses(env, batches[k1])[p1], Misses(env, batches[k2])[p2];
    MissesAre(env, batches[k1]);
    MissesAre(env, batches[k2]);
    MissesDistinct(env, batches[k1]);
    var q :| 0 <= q < |batches[k1]| && batches[k1][q] == e1;
    if k1 != k2 { GroupsApart(routes, batches, place, k1, k2, e2); }
  }

  /** Two minibatches are answered by different exchanges. */
  lemma ExchangesApart(env: Env, groups: Groups, batches: map<GroupKey, seq<Elem>>, log: seq<Minibatch>, x: nat, y: nat)
    requires LogRight(env, groups, batches, log) && OneByOne(log) && x < y < |log|
    ensures var a := TryGroup(env.net, groups[log[x].key.backendGroup], Requests(log[x].elems), log[x].start).0;
            var b := TryGroup(env.net, groups[log[y].key.backendGroup], Requests(log[y].elems), log[y].start).0;
            a.Some? && b.Some? ==> a.value < b.value
  {
  }

  /** A request that no backend answers is told so under its own identifier. */
  lemma UnansweredTold(env: Env, groups: Groups, batches: map<GroupKey, seq<Elem>>, log: seq<Minibatch>, x: nat, k: nat)
    requires LogRight(env, groups, batches, log) && x < |log| && k < |log[x].elems|
    requires TryGroup(env.net, groups[log[x].key.backendGroup], Requests(log[x].elems), log[x].start).0.None?
    ensures |log[x].res| == |log[x].elems|
    ensures IsError(log[x].res[k], log[x].elems[k].req.id, -32011, "no backends available for method", 503)
  {
  }

  /** With honest backends, every forwarded or cached slot carries its request's identifier. */
  lemma SlotCarriesId(env: Env, groups: Groups, batches: map<GroupKey, seq<Elem>>, log: seq<Minibatch>, route: Route,
                      i: nat, r: Option<RPCRes>)
    requires Honest(env.net) && LogRight(env, groups, batches, log)
    requires route.Forward? && SlotOk(env, log, route, i, r)
    ensures r.value.id == route.req.id
  {
    if env.cached(i).None? {
      var x: nat, k: nat :| x < |log| && k < |log[x].elems| && |log[x].res| == |log[x].elems|
                            && log[x].elems[k] == Elem(route.req, i) && r.value == log[x].res[k];
      var m := log[x];
      match TryGroup(env.net, groups[m.key.backendGroup], Requests(m.elems), m.start).0
      case None =>
      case Some(winner) => AnswerAligned(env.net, winner, Requests(m.elems), m.res, k);
    }
  }
}
