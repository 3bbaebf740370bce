/** Forwarding one JSON-RPC batch: one HTTP exchange, retries on one backend, failover over a group, and the sort
    that undoes the reordering section 6 of the JSON-RPC 2.0 Specification allows a backend. */
module Backends {
  import opened Common
  import opened Rpc

  datatype Backend = Backend(name: string, maxRetries: nat)

  /** What comes back over HTTP; a `None` element is a JSON null inside the array. */
  datatype Body = Unreadable | BadJson | Single(res: RPCRes) | Batch(elems: seq<Option<RPCRes>>)
  datatype HttpAnswer = TransportError | Http(status: nat, body: Body)

  /** The environment's answers, numbered by the order in which they are asked for. */
  datatype Net = Net(online: nat -> bool, post: (nat, seq<RPCReq>) -> HttpAnswer)

  datatype Failure = Unexpected | BadResponse | Retryable | Offline | Permanent | NoBackends

  datatype Forwarded = Ok(res: seq<RPCRes>) | Err(failure: Failure) | PanicDuplicate | PanicNil

  // ----- reading an answer -----

  /** The responses in an answer, before length check and sort. */
  function Parsed(answer: HttpAnswer, reqs: seq<RPCReq>): (r: Option<seq<Option<RPCRes>>>) {
    if answer.TransportError? || (answer.status != 200 && answer.status != 400) then None
    else match answer.body
      case Unreadable => None
      case BadJson => None
      case Single(res) => if |reqs| == 1 then Some([Some(res)]) else None
      case Batch(elems) => if |reqs| == 1 then None else Some(elems)
  }

  function ParseFailure(answer: HttpAnswer, reqs: seq<RPCReq>): Failure {
    if answer.Http? && (answer.status == 200 || answer.status == 400) && answer.body.Single? && |reqs| != 1 then Unexpected
    else if answer.Http? && (answer.status == 200 || answer.status == 400) && !answer.body.Unreadable? then BadResponse
    else Retryable
  }

  /** A null element, or a 400 whose element carries no error object: dereferenced all the same. */
  predicate Nil(answer: HttpAnswer, reqs: seq<RPCReq>) {
    var p := Parsed(answer, reqs);
    && p.Some? && |p.value| == |reqs|
    && exists i :: 0 <= i < |p.value| && (p.value[i].None? || (answer.status == 400 && p.value[i].value.error.None?))
  }

  function Stamp(status: nat, r: RPCRes): RPCRes {
    if status == 400 && r.error.Some? then r.(error := Some(r.error.value.(httpCode := status))) else r
  }

  /** The responses an answer delivers for a request batch, in the backend's order. */
  function Delivered(answer: HttpAnswer, reqs: seq<RPCReq>): (r: Option<seq<RPCRes>>)
    ensures r.Some? ==> |r.value| == |reqs|
  {
    var p := Parsed(answer, reqs);
    if p.None? || |p.value| != |reqs| || Nil(answer, reqs) then None
    else Some(seq(|reqs|, i requires 0 <= i < |reqs| => Stamp(answer.status, p.value[i].value)))
  }

  // ----- sorting -----

  predicate DistinctIds(reqs: seq<RPCReq>) {
    forall i, j | 0 <= i < j < |reqs| :: reqs[i].id != reqs[j].id
  }

  predicate SortedBy(pos: map<string, nat>, res: seq<RPCRes>) {
    forall i, j | 0 <= i < j < |res| :: Get(pos, res[i].id) <= Get(pos, res[j].id)
  }

  predicate IsIndexOf(pos: map<string, nat>, reqs: seq<RPCReq>) {
    && (forall i | 0 <= i < |reqs| :: reqs[i].id in pos && pos[reqs[i].id] == i)
    && (forall k | k in pos :: pos[k] < |reqs| && reqs[pos[k]].id == k)
  }

  /** The position map; `None` is the panic on a duplicate. */
  method Index(reqs: seq<RPCReq>) returns (pos: Option<map<string, nat>>)
    ensures pos.Some? <==> DistinctIds(reqs)
    ensures pos.Some? ==> IsIndexOf(pos.value, reqs)
  {
    var m: map<string, nat> := map[];
    for i := 0 to |reqs|
      invariant DistinctIds(reqs[..i])
      invariant IsIndexOf(m, reqs[..i])
    {
      if reqs[i].id in m {
        assert reqs[m[reqs[i].id]].id == reqs[i].id;
        return None;
      }
      m := m[reqs[i].id := i];
    }
    assert reqs[..|reqs|] == reqs;
    return Some(m);
  }

  lemma InsertedSorted(pos: map<string, nat>, sorted: seq<RPCRes>, r: RPCRes, k: nat)
    requires SortedBy(pos, sorted) && k <= |sorted|
    requires k > 0 ==> Get(pos, sorted[k - 1].id) <= Get(pos, r.id)
    requires k < |sorted| ==> Get(pos, r.id) <= Get(pos, sorted[k].id)
    ensures SortedBy(pos, sorted[..k] + [r] + sorted[k..])
  {
  }

  /** Insert one response into a sorted list. */
  method Insert(pos: map<string, nat>, sorted: seq<RPCRes>, r: RPCRes) returns (out: seq<RPCRes>)
    requires SortedBy(pos, sorted)
    ensures SortedBy(pos, out) && multiset(out) == multiset(sorted) + multiset{r}
  {
    var k := |sorted|;
    while k > 0 && Get(pos, r.id) < Get(pos, sorted[k - 1].id)
      invariant 0 <= k <= |sorted|
      invariant forall i | k <= i < |sorted| :: Get(pos, r.id) < Get(pos, sorted[i].id)
    {
      k := k - 1;
    }
    out := sorted[..k] + [r] + sorted[k..];
    InsertedSorted(pos, sorted, r, k);
    MultisetWith(sorted, k, r);
  }

  /** Some permutation that the comparison accepts; nothing more is known of Go's sort. */
  method Sort(pos: map<string, nat>, res: seq<RPCRes>) returns (out: seq<RPCRes>)
    ensures SortedBy(pos, out) && multiset(out) == multiset(res)
  {
    out := [];
    for i := 0 to |res|
      invariant SortedBy(pos, out) && multiset(out) == multiset(res[..i])
    {
      assert res[..i + 1] == res[..i] + [res[i]];
      out := Insert(pos, out, res[i]);
    }
    assert res[..|res|] == res;
  }

  function Ids(res: seq<RPCRes>): seq<string> { seq(|res|, i requires 0 <= i < |res| => res[i].id) }

  function ReqIds(reqs: seq<RPCReq>): seq<string> { seq(|reqs|, i requires 0 <= i < |reqs| => reqs[i].id) }

  function Without(s: seq<RPCRes>, k: nat): seq<RPCRes>
    requires k < |s|
  {
    s[..k] + s[k + 1..]
  }

  lemma IdsWithout(s: seq<RPCRes>, k: nat)
    requires k < |s|
    ensures multiset(Ids(s)) == multiset(Ids(Without(s, k))) + multiset{s[k].id}
  {
    MultisetWithout(Ids(s), k);
    assert Ids(s)[..k] + Ids(s)[k + 1..] == Ids(Without(s, k));
  }

  lemma {:induction false} IdsPermute(a: seq<RPCRes>, b: seq<RPCRes>)
    requires multiset(a) == multiset(b)
    ensures multiset(Ids(a)) == multiset(Ids(b))
    decreases |a|
  {
    if a == [] {
      assert |multiset(b)| == 0;
    } else {
      assert a[0] in multiset(b);
      var k: nat :| k < |b| && b[k] == a[0];
      MultisetWithout(a, 0);
      MultisetWithout(b, k);
      MultisetCancel(multiset(Without(a, 0)), multiset(Without(b, k)), a[0]);
      IdsPermute(Without(a, 0), Without(b, k));
      IdsWithout(a, 0);
      IdsWithout(b, k);
    }
  }

  /** A strictly increasing sequence of n numbers below n is 0, 1, …, n - 1. */
  lemma {:induction false} Staircase(p: seq<nat>, k: nat)
    requires forall i, j | 0 <= i < j < |p| :: p[i] < p[j]
    requires forall i | 0 <= i < |p| :: p[i] < |p|
    requires k < |p|
    ensures p[k] == k
  {
    StairBelow(p, k);
    StairAbove(p, k);
  }

  lemma {:induction false} StairBelow(p: seq<nat>, k: nat)
    requires forall i, j | 0 <= i < j < |p| :: p[i] < p[j]
    requires k < |p|
    ensures k <= p[k]
  {
    if k > 0 { StairBelow(p, k - 1); }
  }

  lemma {:induction false} StairAbove(p: seq<nat>, k: nat)
    requires forall i, j | 0 <= i < j < |p| :: p[i] < p[j]
    requires forall i | 0 <= i < |p| :: p[i] < |p|
    requires k < |p|
    ensures p[k] <= k
    decreases |p| - k
  {
    if k + 1 < |p| { StairAbove(p, k + 1); }
  }

  lemma OnceInMultiset(b: seq<string>, k: nat)
    requires forall i, j | 0 <= i < j < |b| :: b[i] != b[j]
    requires k < |b|
    ensures multiset(b)[b[k]] == 1
  {
    assert b == b[..k] + [b[k]] + b[k + 1..];
    assert b[k] !in b[..k] && b[k] !in b[k + 1..];
  }

  /** Two equal entries show up twice in the multiset. */
  lemma DistinctFromMultiset(a: seq<string>, b: seq<string>)
    requires multiset(a) == multiset(b)
    requires forall i, j | 0 <= i < j < |b| :: b[i] != b[j]
    ensures forall i, j | 0 <= i < j < |a| :: a[i] != a[j]
  {
    forall i, j | 0 <= i < j < |a| ensures a[i] != a[j] {
      if a[i] == a[j] {
        assert a == a[..i] + [a[i]] + a[i + 1..j] + [a[j]] + a[j + 1..];
        assert multiset(a)[a[i]] >= 2;
        assert a[i] in multiset(b);
        var k :| 0 <= k < |b| && b[k] == a[i];
        OnceInMultiset(b, k);
      }
    }
  }

  /** Sorting by request position puts every response at its request, whatever order the backend chose. */
  lemma SortAligns(reqs: seq<RPCReq>, pos: map<string, nat>, res: seq<RPCRes>, k: nat)
    requires DistinctIds(reqs) && IsIndexOf(pos, reqs) && SortedBy(pos, res)
    requires multiset(Ids(res)) == multiset(ReqIds(reqs))
    requires k < |reqs|
    ensures |res| == |reqs| && res[k].id == reqs[k].id
  {
    assert |multiset(Ids(res))| == |res| && |multiset(ReqIds(reqs))| == |reqs|;
    DistinctFromMultiset(Ids(res), ReqIds(reqs));
    forall i | 0 <= i < |res| ensures res[i].id in pos {
      assert Ids(res)[i] in multiset(ReqIds(reqs));
      var j :| 0 <= j < |reqs| && ReqIds(reqs)[j] == res[i].id;
      assert reqs[j].id in pos;
    }
    var p: seq<nat> := seq(|res|, i requires 0 <= i < |res| => Get(pos, res[i].id));
    forall i, j | 0 <= i < j < |p| ensures p[i] < p[j] {
      assert Ids(res)[i] != Ids(res)[j];
      assert reqs[pos[res[i].id]].id == res[i].id;
    }
    Staircase(p, k);
    assert reqs[pos[res[k].id]].id == res[k].id;
  }

  // ----- one exchange, one backend, one group -----

  /** `res` is the answer of exchange `t` to exactly these requests, sorted into request order. */
  ghost predicate IsAnswer(net: Net, t: nat, reqs: seq<RPCReq>, res: seq<RPCRes>) {
    && Delivered(net.post(t, reqs), reqs).Some?
    && multiset(res) == multiset(Delivered(net.post(t, reqs), reqs).value)
    && exists pos: map<string, nat> :: IsIndexOf(pos, reqs) && SortedBy(pos, res)
  }

  /** Every backend answers exactly the identifiers it was sent, in any order. */
  ghost predicate Honest(net: Net) {
    forall t: nat, reqs: seq<RPCReq> :: Delivered(net.post(t, reqs), reqs).Some? ==>
      multiset(Ids(Delivered(net.post(t, reqs), reqs).value)) == multiset(ReqIds(reqs))
  }

  /** An exchange that ends the search: it delivers, or its answer is dereferenced through nil. */
  predicate Ends(answer: HttpAnswer, reqs: seq<RPCReq>) { Delivered(answer, reqs).Some? || Nil(answer, reqs) }

  function FailureOf(answer: HttpAnswer, reqs: seq<RPCReq>): Failure {
    if Parsed(answer, reqs).None? then ParseFailure(answer, reqs) else Unexpected
  }

  /** The exchange that ends at most `left` attempts starting at `t`, and the next free number. */
  function Attempts(net: Net, reqs: seq<RPCReq>, t: nat, left: nat): (r: (Option<nat>, nat))
    ensures t <= r.1 && (r.0.Some? ==> t <= r.0.value == r.1 - 1)
    decreases left
  {
    if left == 0 then (None, t)
    else if Ends(net.post(t, reqs), reqs) then (Some(t), t + 1)
    else if FailureOf(net.post(t, reqs), reqs) == Unexpected then (None, t + 1)
    else Attempts(net, reqs, t + 1, left - 1)
  }

  lemma NextAttempt(net: Net, reqs: seq<RPCReq>, t: nat, left: nat)
    requires left > 0 && !Ends(net.post(t, reqs), reqs) && FailureOf(net.post(t, reqs), reqs) != Unexpected
    ensures Attempts(net, reqs, t, left) == Attempts(net, reqs, t + 1, left - 1)
  {
  }

  function TryBackend(net: Net, back: Backend, reqs: seq<RPCReq>, t: nat): (r: (Option<nat>, nat))
    ensures t <= r.1 && (r.0.Some? ==> t <= r.0.value == r.1 - 1)
  {
    if net.online(t) then Attempts(net, reqs, t + 1, back.maxRetries + 1) else (None, t + 1)
  }

  /** The first backend with an ending exchange wins; the exchange is one of those made. */
  function TryGroup(net: Net, backends: seq<Backend>, reqs: seq<RPCReq>, t: nat): (r: (Option<nat>, nat))
    ensures t <= r.1 && (r.0.Some? ==> t <= r.0.value == r.1 - 1)
  {
    if backends == [] then (None, t)
    else
      var (winner, t') := TryBackend(net, backends[0], reqs, t);
      if winner.Some? then (winner, t') else TryGroup(net, backends[1..], reqs, t')
  }

  /** What a forward returns, given the exchange that ended its search. */
  ghost predicate Outcome(net: Net, reqs: seq<RPCReq>, winner: Option<nat>, r: Forwarded) {
    match winner
    case None => r.Err?
    case Some(t) =>
      if Nil(net.post(t, reqs), reqs) then r == PanicNil
      else if !DistinctIds(reqs) then r == PanicDuplicate
      else r.Ok? && |r.res| == |reqs| && IsAnswer(net, t, reqs, r.res)
  }

  method DoForward(net: Net, t: nat, reqs: seq<RPCReq>) returns (r: Forwarded)
    ensures Outcome(net, reqs, if Ends(net.post(t, reqs), reqs) then Some(t) else None, r)
    ensures r.Err? ==> r.failure == FailureOf(net.post(t, reqs), reqs)
  {
    var answer := net.post(t, reqs);
    var parsed := Parsed(answer, reqs);
    if parsed.None? {
      return Err(ParseFailure(answer, reqs));
    }
    if |reqs| != |parsed.value| {
      return Err(Unexpected);
    }
    if Nil(answer, reqs) {
      return PanicNil;
    }
    var res := Delivered(answer, reqs).value;
    var pos := Index(reqs);
    if pos.None? {
      return PanicDuplicate;
    }
    var sorted := Sort(pos.value, res);
    assert |multiset(sorted)| == |multiset(res)|;
    return Ok(sorted);
  }

  /** The retry loop. */
  method Retry(net: Net, t: nat, attempts: nat, reqs: seq<RPCReq>) returns (r: Forwarded, t': nat)
    requires attempts > 0
    ensures Outcome(net, reqs, Attempts(net, reqs, t, attempts).0, r)
    ensures t' == Attempts(net, reqs, t, attempts).1 > t
    ensures r.Err? ==>
      r.failure == if FailureOf(net.post(t' - 1, reqs), reqs) == Unexpected then Unexpected else Permanent
  {
    t' := t;
    for i := 0 to attempts
      invariant Attempts(net, reqs, t, attempts) == Attempts(net, reqs, t', attempts - i)
      invariant t' == t + i && (i > 0 ==> FailureOf(net.post(t' - 1, reqs), reqs) != Unexpected)
    {
      r := DoForward(net, t', reqs);
      t' := t' + 1;
      if !r.Err? || r.failure == Unexpected {
        return;
      }
      NextAttempt(net, reqs, t' - 1, attempts - i);
    }
    r := Err(Permanent);
  }

  /** Retries; an unexpected shape is returned at once so that the group can fail over. */
  method ForwardBackend(net: Net, back: Backend, t: nat, reqs: seq<RPCReq>) returns (r: Forwarded, t': nat)
    ensures Outcome(net, reqs, TryBackend(net, back, reqs, t).0, r)
    ensures t' == TryBackend(net, back, reqs, t).1
    ensures r.Err? ==> (r.failure == Offline <==> !net.online(t))
    ensures r.Err? && net.online(t) ==>
      t' > t + 1 && r.failure == if FailureOf(net.post(t' - 1, reqs), reqs) == Unexpected then Unexpected else Permanent
  {
    if !net.online(t) {
      return Err(Offline), t + 1;
    }
    r, t' := Retry(net, t + 1, back.maxRetries + 1, reqs);
  }

  method ForwardGroup(net: Net, backends: seq<Backend>, t: nat, reqs: seq<RPCReq>) returns (r: Forwarded, t': nat)
    ensures |reqs| == 0 ==> r == Ok([]) && t' == t
    ensures |reqs| != 0 ==>
      Outcome(net, reqs, TryGroup(net, backends, reqs, t).0, r) && t' == TryGroup(net, backends, reqs, t).1
    ensures r.Err? ==> r.failure == NoBackends
  {
    t' := t;
    if |reqs| == 0 {
      return Ok([]), t';
    }
    for i := 0 to |backends|
      invariant TryGroup(net, backends, reqs, t) == TryGroup(net, backends[i..], reqs, t')
    {
      assert backends[i..][0] == backends[i] && backends[i..][1..] == backends[i + 1..];
      r, t' := ForwardBackend(net, backends[i], t', reqs);
      if !r.Err? {
        return;
      }
    }
    r := Err(NoBackends);
  }

  /** With honest backends, a forwarded batch comes back aligned. */
  lemma AnswerAligned(net: Net, t: nat, reqs: seq<RPCReq>, res: seq<RPCRes>, k: nat)
    requires Honest(net) && DistinctIds(reqs) && IsAnswer(net, t, reqs, res) && k < |reqs|
    ensures |res| == |reqs| && res[k].id == reqs[k].id
  {
    var pos: map<string, nat> :| IsIndexOf(pos, reqs) && SortedBy(pos, res);
    IdsPermute(res, Delivered(net.post(t, reqs), reqs).value);
    SortAligns(reqs, pos, res, k);
  }

  // ----- the exchange and the search, from outside -----

  /** What a 400 does to an error object: it records the status. */
  predicate Marked(status: nat, sent: RPCRes, got: RPCRes) {
    && got.jsonrpc == sent.jsonrpc && got.result == sent.result && got.id == sent.id
    && (status == 200 ==> got.error == sent.error)
    && (status == 400 ==> sent.error.Some? && got.error == Some(RPCErr(sent.error.value.code, sent.error.value.message, 400)))
  }

  /** A single request delivers exactly the object it is answered with, under status 200 or, with an error, 400. */
  lemma SingleDelivered(answer: HttpAnswer, reqs: seq<RPCReq>)
    requires |reqs| == 1
    ensures Delivered(answer, reqs).Some? <==>
            && answer.Http? && answer.body.Single?
            && (answer.status == 200 || (answer.status == 400 && answer.body.res.error.Some?))
    ensures Delivered(answer, reqs).Some? ==> Marked(answer.status, answer.body.res, Delivered(answer, reqs).value[0])
  {
    if answer.Http? && answer.body.Single? && (answer.status == 200 || answer.status == 400) {
      assert Parsed(answer, reqs).value[0] == Some(answer.body.res);
    }
  }

  /** A batch delivers exactly a list of its own length without nulls, in the backend's order. */
  lemma BatchDelivered(answer: HttpAnswer, reqs: seq<RPCReq>)
    requires |reqs| != 1
    ensures Delivered(answer, reqs).Some? <==>
            && answer.Http? && answer.body.Batch? && (answer.status == 200 || answer.status == 400)
            && |answer.body.elems| == |reqs|
            && (forall i | 0 <= i < |reqs| ::
                  answer.body.elems[i].Some? && (answer.status == 400 ==> answer.body.elems[i].value.error.Some?))
    ensures Delivered(answer, reqs).Some? ==> forall i | 0 <= i < |reqs| ::
              Marked(answer.status, answer.body.elems[i].value, Delivered(answer, reqs).value[i])
  {
  }

  /** An answer that is not delivered fails over at once exactly when it is a lone object or a list of another length
      where a list was asked for; everything else is tried again. */
  lemma UnexpectedIff(answer: HttpAnswer, reqs: seq<RPCReq>)
    requires !Ends(answer, reqs)
    ensures FailureOf(answer, reqs) == Unexpected <==>
            && |reqs| != 1 && answer.Http? && (answer.status == 200 || answer.status == 400)
            && (answer.body.Single? || (answer.body.Batch? && |answer.body.elems| != |reqs|))
  {
  }

  predicate Passed(net: Net, reqs: seq<RPCReq>, t: nat) {
    !Ends(net.post(t, reqs), reqs) && FailureOf(net.post(t, reqs), reqs) != Unexpected
  }

  /** The retries end at the first exchange that is not to be tried again, or after the last attempt. */
  lemma {:induction false} AttemptsAre(net: Net, reqs: seq<RPCReq>, t: nat, left: nat)
    ensures var (winner, next) := Attempts(net, reqs, t, left);
            && t <= next <= t + left
            && (forall u | t <= u < next - 1 :: Passed(net, reqs, u))
            && (next < t + left ==> next > t && !Passed(net, reqs, next - 1))
            && (winner.Some? <==> next > t && Ends(net.post(next - 1, reqs), reqs))
            && (winner.Some? ==> winner.value == next - 1)
    decreases left
  {
    if left > 0 && Passed(net, reqs, t) {
      AttemptsAre(net, reqs, t + 1, left - 1);
      assert Attempts(net, reqs, t, left) == Attempts(net, reqs, t + 1, left - 1);
    }
  }

  /** A backend is asked whether it is online and then at most once more than its number of retries: exactly that often
      if all attempts fail in a way worth retrying. */
  lemma BackendFails(net: Net, back: Backend, reqs: seq<RPCReq>, t: nat)
    requires !net.online(t) || forall u | t < u <= t + 1 + back.maxRetries :: Passed(net, reqs, u)
    ensures TryBackend(net, back, reqs, t) == (None, if net.online(t) then t + 2 + back.maxRetries else t + 1)
  {
    AttemptsAre(net, reqs, t + 1, back.maxRetries + 1);
    var next := Attempts(net, reqs, t + 1, back.maxRetries + 1).1;
    assert net.online(t) && next > t + 1 ==> Passed(net, reqs, next - 1);
  }

  /** It stops at the first attempt not worth retrying, and answers if that one delivers. */
  lemma BackendStops(net: Net, back: Backend, reqs: seq<RPCReq>, t: nat, u: nat)
    requires net.online(t) && t < u <= t + 1 + back.maxRetries && !Passed(net, reqs, u)
    requires forall v | t < v < u :: Passed(net, reqs, v)
    ensures TryBackend(net, back, reqs, t) == (if Ends(net.post(u, reqs), reqs) then Some(u) else None, u + 1)
  {
    AttemptsAre(net, reqs, t + 1, back.maxRetries + 1);
  }

  /** The number at which backend `b` is asked, if those before it give no answer. */
  function AskedAt(net: Net, backends: seq<Backend>, reqs: seq<RPCReq>, t: nat, b: nat): nat
    requires b <= |backends|
  {
    if b == 0 then t else TryBackend(net, backends[b - 1], reqs, AskedAt(net, backends, reqs, t, b - 1)).1
  }

  predicate Silent(net: Net, backends: seq<Backend>, reqs: seq<RPCReq>, t: nat, b: nat)
    requires b < |backends|
  {
    TryBackend(net, backends[b], reqs, AskedAt(net, backends, reqs, t, b)).0.None?
  }

  lemma {:induction false} SkipSilent(net: Net, backends: seq<Backend>, reqs: seq<RPCReq>, t: nat, b: nat)
    requires b <= |backends| && forall c | 0 <= c < b :: Silent(net, backends, reqs, t, c)
    ensures TryGroup(net, backends, reqs, t) == TryGroup(net, backends[b..], reqs, AskedAt(net, backends, reqs, t, b))
  {
    if b == 0 {
      assert backends[0..] == backends;
    } else {
      SkipSilent(net, backends, reqs, t, b - 1);
      assert Silent(net, backends, reqs, t, b - 1);
      assert backends[b - 1..][0] == backends[b - 1] && backends[b - 1..][1..] == backends[b..];
    }
  }

  /** The answer is that of the first backend in order that gives one, and there is none only if all are silent. */
  lemma FirstBackendWins(net: Net, backends: seq<Backend>, reqs: seq<RPCReq>, t: nat, b: nat)
    requires b <= |backends| && forall c | 0 <= c < b :: Silent(net, backends, reqs, t, c)
    ensures b == |backends| ==> TryGroup(net, backends, reqs, t) == (None, AskedAt(net, backends, reqs, t, b))
    ensures b < |backends| && !Silent(net, backends, reqs, t, b) ==>
            TryGroup(net, backends, reqs, t) == TryBackend(net, backends[b], reqs, AskedAt(net, backends, reqs, t, b))
  {
    SkipSilent(net, backends, reqs, t, b);
  }
}
