/** proxyd's cache for `eth_getBlockByNumber` and `eth_getBlockRange` against a chain that still reorganises.

    A result is its JSON text; compression and JSON are lossless and left out. The store is shared with the
    `eth_call` handler and the last-value caches, whose writes are arbitrary under their own key prefixes. */
module BlockCache {
  import opened Common
  import opened Rpc

  // ----- block inputs -----

  function HexDigit(c: char): Option<nat> {
    if '0' <= c <= '9' then Some((c - '0') as nat)
    else if 'a' <= c <= 'f' then Some((c - 'a') as nat + 10)
    else if 'A' <= c <= 'F' then Some((c - 'A') as nat + 10)
    else None
  }

  function HexValue(digits: string): Option<nat> {
    if digits == "" then Some(0)
    else
      var high, low := HexValue(digits[..|digits| - 1]), HexDigit(digits[|digits| - 1]);
      if high.Some? && low.Some? then Some(16 * high.value + low.value) else None
  }

  /** `hexutil.DecodeUint64`: prefixed, no leading zeros, at most sixteen digits. */
  function DecodeBlockInput(s: string): Option<nat> {
    if |s| < 3 || s[0] != '0' || (s[1] != 'x' && s[1] != 'X') then None
    else if (|s| > 3 && s[2] == '0') || |s| > 18 then None
    else HexValue(s[2..])
  }

  predicate ValidBlockInput(s: string) {
    s == "earliest" || s == "pending" || s == "latest" || DecodeBlockInput(s).Some?
  }

  predicate IsBlockDependent(s: string) { s == "latest" || s == "pending" }

  // ----- requests -----

  datatype Query = ByNumber(input: string, full: bool) | Range(start: string, end: string, full: bool)

  predicate WellFormed(q: Query) {
    match q
    case ByNumber(input, _) => ValidBlockInput(input)
    case Range(start, end, _) => ValidBlockInput(start) && ValidBlockInput(end)
  }

  /** The parameter decoders; `None` is a method of another handler or invalid parameters. */
  function QueryOf(req: RPCReq): (q: Option<Query>)
    ensures q.Some? ==> WellFormed(q.value)
  {
    if req.params.None? then None
    else
      var list := req.params.value;
      if req.method_ == "eth_getBlockByNumber" then
        if |list| == 2 && list[0].JString? && list[1].JBool? && ValidBlockInput(list[0].s)
        then Some(ByNumber(list[0].s, list[1].b)) else None
      else if req.method_ == "eth_getBlockRange" then
        if |list| == 3 && list[0].JString? && list[1].JString? && list[2].JBool?
           && ValidBlockInput(list[0].s) && ValidBlockInput(list[1].s)
        then Some(Range(list[0].s, list[1].s, list[2].b)) else None
      else None
  }

  /** `eth_getBlockByNumber` decodes exactly from a valid block input and a flag, and to these two. */
  lemma ByNumberDecodes(req: RPCReq, s: string, full: bool)
    ensures QueryOf(req) == Some(ByNumber(s, full)) <==>
            && req.method_ == "eth_getBlockByNumber" && req.params == Some([JString(s), JBool(full)])
            && ValidBlockInput(s)
  {
    if QueryOf(req) == Some(ByNumber(s, full)) { assert req.params.value == [JString(s), JBool(full)]; }
  }

  /** `eth_getBlockRange` decodes exactly from two valid block inputs and a flag, and to these three. */
  lemma RangeDecodes(req: RPCReq, start: string, end: string, full: bool)
    ensures QueryOf(req) == Some(Range(start, end, full)) <==>
            && req.method_ == "eth_getBlockRange" && req.params == Some([JString(start), JString(end), JBool(full)])
            && ValidBlockInput(start) && ValidBlockInput(end)
  {
    if QueryOf(req) == Some(Range(start, end, full)) {
      assert req.params.value == [JString(start), JString(end), JBool(full)];
    }
  }

  predicate Cacheable(q: Query) {
    match q
    case ByNumber(input, _) => !IsBlockDependent(input)
    case Range(start, end, _) => !IsBlockDependent(start) && !IsBlockDependent(end)
  }

  function BoolText(b: bool): string { if b then "true" else "false" }

  function Key(q: Query): string {
    match q
    case ByNumber(input, full) => "method:eth_getBlockByNumber:" + (input + ":" + BoolText(full))
    case Range(start, end, full) => "method:eth_getBlockRange:" + (start + ":" + (end + ":" + BoolText(full)))
  }

  // ----- the cache -----

  type Store = map<string, string>

  /** The confirmation guard, with Go's wrapping addition. `cur` is `None` when the latest number is not known. */
  predicate Confirmed(conf: nat, cur: Option<nat>, input: string) {
    input == "earliest" ||
    (cur.Some? && DecodeBlockInput(input).Some? && cur.value > (DecodeBlockInput(input).value + conf) % UINT64)
  }

  predicate MayPut(conf: nat, cur: Option<nat>, q: Query) {
    && Cacheable(q)
    && match q
       case ByNumber(input, _) => Confirmed(conf, cur, input)
       case Range(start, end, _) => cur.Some? && Confirmed(conf, cur, start) && Confirmed(conf, cur, end)
  }

  function Put(conf: nat, store: Store, q: Query, result: string, cur: Option<nat>): Store {
    if MayPut(conf, cur, q) then store[Key(q) := result] else store
  }

  function Lookup(store: Store, q: Query): Option<string> {
    if Cacheable(q) && Key(q) in store && store[Key(q)] != "" then Some(store[Key(q)]) else None
  }

  /** The two block handlers over one shared store. */
  class RpcCache {
    var store: Store
    const numBlockConfirmations: nat

    constructor (conf: nat)
      ensures store == map[] && numBlockConfirmations == conf
    {
      store, numBlockConfirmations := map[], conf;
    }

    method GetRPC(req: RPCReq) returns (res: Option<RPCRes>)
      ensures res == match QueryOf(req)
                     case None => None
                     case Some(q) => match Lookup(store, q)
                                     case None => None
                                     case Some(v) => Some(ResultRes(req.jsonrpc, req.id, v))
    {
      var q := QueryOf(req);
      if q.None? || !Cacheable(q.value) {
        return None;
      }
      var key := Key(q.value);
      if key !in store || store[key] == "" {
        return None;
      }
      res := Some(ResultRes(req.jsonrpc, req.id, store[key]));
    }

    /** The guard for one block input. */
    method IsConfirmed(input: string, latest: Option<nat>) returns (ok: bool)
      ensures ok <==> Confirmed(numBlockConfirmations, latest, input)
    {
      if input == "earliest" {
        return true;
      }
      if latest.None? {
        return false;
      }
      var num := DecodeBlockInput(input);
      if num.None? {
        return false;
      }
      ok := latest.value > (num.value + numBlockConfirmations) % UINT64;
    }

    method MayStore(q: Query, latest: Option<nat>) returns (ok: bool)
      ensures ok <==> MayPut(numBlockConfirmations, latest, q)
    {
      if !Cacheable(q) {
        return false;
      }
      match q
      case ByNumber(input, _) =>
        ok := IsConfirmed(input, latest);
      case Range(start, end, _) =>
        if latest.None? {
          return false;
        }
        ok := IsConfirmed(start, latest);
        if ok {
          ok := IsConfirmed(end, latest);
        }
    }

    method PutRPC(req: RPCReq, result: string, latest: Option<nat>)
      modifies this
      ensures store == match QueryOf(req)
                       case None => old(store)
                       case Some(q) => Put(numBlockConfirmations, old(store), q, result, latest)
    {
      var q := QueryOf(req);
      if q.None? {
        return;
      }
      var ok := MayStore(q.value, latest);
      if ok {
        store := store[Key(q.value) := result];
      }
    }
  }

  // ----- keys -----

  lemma SplitAtColon(a: string, b: string, c: string, d: string)
    requires ':' !in a && ':' !in c && a + ":" + b == c + ":" + d
    ensures a == c && b == d
  {
    var s, t := a + ":" + b, c + ":" + d;
    assert s[|a|] == ':' && t[|c|] == ':';
    assert a == s[..|a|] && c == t[..|c|];
    assert b == s[|a| + 1..] && d == t[|c| + 1..];
  }

  lemma {:induction false} HexHasNoColon(digits: string)
    requires HexValue(digits).Some?
    ensures ':' !in digits
  {
    if digits != "" { HexHasNoColon(digits[..|digits| - 1]); }
  }

  lemma InputHasNoColon(s: string)
    requires ValidBlockInput(s)
    ensures ':' !in s
  {
    if DecodeBlockInput(s).Some? {
      HexHasNoColon(s[2..]);
      assert s == [s[0], s[1]] + s[2..];
    }
  }

  lemma ByNumberKeyInjective(p: Query, q: Query)
    requires p.ByNumber? && q.ByNumber? && WellFormed(p) && WellFormed(q) && Key(p) == Key(q)
    ensures p == q
  {
    InputHasNoColon(p.input);
    InputHasNoColon(q.input);
    assert Key(p)[28..] == p.input + ":" + BoolText(p.full) && Key(q)[28..] == q.input + ":" + BoolText(q.full);
    SplitAtColon(p.input, BoolText(p.full), q.input, BoolText(q.full));
  }

  lemma RangeKeyInjective(p: Query, q: Query)
    requires p.Range? && q.Range? && WellFormed(p) && WellFormed(q) && Key(p) == Key(q)
    ensures p == q
  {
    InputHasNoColon(p.start);
    InputHasNoColon(p.end);
    InputHasNoColon(q.start);
    InputHasNoColon(q.end);
    var ends, ends' := p.end + ":" + BoolText(p.full), q.end + ":" + BoolText(q.full);
    assert Key(p)[25..] == p.start + ":" + ends && Key(q)[25..] == q.start + ":" + ends';
    SplitAtColon(p.start, ends, q.start, ends');
    SplitAtColon(p.end, BoolText(p.full), q.end, BoolText(q.full));
  }

  lemma KeyLetter(q: Query)
    ensures |Key(q)| > 19 && Key(q)[19] == if q.ByNumber? then 'B' else 'R'
  {
  }

  /** Distinct queries have distinct keys. */
  lemma KeyInjective(p: Query, q: Query)
    requires WellFormed(p) && WellFormed(q) && Key(p) == Key(q)
    ensures p == q
  {
    KeyLetter(p);
    KeyLetter(q);
    if p.ByNumber? { ByNumberKeyInjective(p, q); } else { RangeKeyInjective(p, q); }
  }

  /** Two decodable requests share a key exactly when they have the same method and parameters. */
  lemma SameKeyIff(r: RPCReq, s: RPCReq)
    requires QueryOf(r).Some? && QueryOf(s).Some?
    ensures Key(QueryOf(r).value) == Key(QueryOf(s).value) <==> r.method_ == s.method_ && r.params == s.params
  {
    var p, q := QueryOf(r).value, QueryOf(s).value;
    if Key(p) == Key(q) { KeyInjective(p, q); }
    match p
    case ByNumber(input, full) =>
      ByNumberDecodes(r, input, full);
      ByNumberDecodes(s, input, full);
    case Range(start, end, full) =>
      RangeDecodes(r, start, end, full);
      RangeDecodes(s, start, end, full);
  }

  // ----- what the store answers -----

  /** A put is found again under its own query, unless it is empty, and leaves what is found under every other. */
  lemma PutThenLookup(conf: nat, store: Store, q: Query, result: string, cur: Option<nat>, r: Query)
    requires WellFormed(q) && WellFormed(r)
    ensures Lookup(Put(conf, store, q, result, cur), r) ==
            if r == q && MayPut(conf, cur, q) then (if result == "" then None else Some(result)) else Lookup(store, r)
  {
    if Key(r) == Key(q) { KeyInjective(r, q); }
  }

  /** The genesis block, or one more than the confirmations below the latest number. */
  predicate Deep(conf: nat, cur: Option<nat>, s: string) {
    s == "earliest" || (DecodeBlockInput(s).Some? && cur.Some? && DecodeBlockInput(s).value + conf < cur.value)
  }

  predicate Fits(conf: nat, s: string) { DecodeBlockInput(s).Some? ==> DecodeBlockInput(s).value + conf < UINT64 }

  lemma DeepIs(conf: nat, cur: Option<nat>, s: string)
    requires ValidBlockInput(s) && Fits(conf, s)
    ensures Deep(conf, cur, s) <==> !IsBlockDependent(s) && Confirmed(conf, cur, s)
  {
    assert "latest"[0] == 'l' && "pending"[0] == 'p';
  }

  /** A block is put exactly when it is deep enough, and a range exactly when both its ends are and the latest number is
      known at all. */
  lemma MayPutIff(conf: nat, cur: Option<nat>, q: Query)
    requires WellFormed(q)
    requires if q.ByNumber? then Fits(conf, q.input) else Fits(conf, q.start) && Fits(conf, q.end)
    ensures q.ByNumber? ==> (MayPut(conf, cur, q) <==> Deep(conf, cur, q.input))
    ensures q.Range? ==> (MayPut(conf, cur, q) <==> cur.Some? && Deep(conf, cur, q.start) && Deep(conf, cur, q.end))
  {
    match q
    case ByNumber(input, _) => DeepIs(conf, cur, input);
    case Range(start, end, _) =>
      DeepIs(conf, cur, start);
      DeepIs(conf, cur, end);
  }

  // ----- hexadecimal block numbers -----

  function HexChar(d: nat): char
    requires d < 16
  {
    if d < 10 then '0' + d as char else 'a' + (d - 10) as char
  }

  /** The shortest lower-case numeral. */
  function HexText(n: nat): string {
    if n < 16 then [HexChar(n)] else HexText(n / 16) + [HexChar(n % 16)]
  }

  function LowerChar(c: char): char { if 'A' <= c <= 'F' then 'a' + (c - 'A') else c }

  function Lower(s: string): string { seq(|s|, i requires 0 <= i < |s| => LowerChar(s[i])) }

  lemma HexDigitIs(c: char, d: nat)
    requires d < 16
    ensures HexDigit(c) == Some(d) <==> LowerChar(c) == HexChar(d)
  {
  }

  function Pow16(k: nat): nat { if k == 0 then 1 else 16 * Pow16(k - 1) }

  lemma {:induction false} HexLength(n: nat, k: nat)
    requires k > 0
    ensures |HexText(n)| <= k <==> n < Pow16(k)
    ensures n > 0 ==> HexText(n)[0] != '0'
  {
    if n < 16 {
      PowAtLeast(k);
    } else {
      if k == 1 { HexLength(n / 16, 1); } else { HexLength(n / 16, k - 1); }
    }
  }

  lemma {:induction false} PowAtLeast(k: nat)
    requires k > 0
    ensures Pow16(k) >= 16
  {
    if k > 1 { PowAtLeast(k - 1); }
  }

  /** A numeral without leading zeros denotes n exactly when it is the shortest one, in either case. */
  lemma {:induction false} HexValueIs(digits: string, n: nat)
    requires digits != "" && (|digits| > 1 ==> digits[0] != '0')
    ensures HexValue(digits) == Some(n) <==> Lower(digits) == HexText(n)
  {
    var last := |digits| - 1;
    var init, d := digits[..last], HexDigit(digits[last]);
    assert Lower(digits) == Lower(init) + [LowerChar(digits[last])];
    HexDigitIs(digits[last], n % 16);
    if init == "" {
      HexOneDigit(digits, n);
    } else {
      HexValueIs(init, n / 16);
      HexAppend(digits, n);
    }
  }

  lemma HexOneDigit(digits: string, n: nat)
    requires |digits| == 1
    ensures HexValue(digits) == Some(n) <==> Lower(digits) == HexText(n)
  {
    assert digits[..0] == "";
    if n < 16 { HexDigitIs(digits[0], n); } else { HexLength(n, 1); PowOne(); }
  }

  lemma PowOne()
    ensures Pow16(1) == 16
  {
  }

  lemma LastApart(s: string, c: char, t: string, d: char)
    requires s + [c] == t + [d]
    ensures s == t && c == d
  {
    assert s == (s + [c])[..|s|] && t == (t + [d])[..|t|];
    assert c == (s + [c])[|s|] && d == (t + [d])[|t|];
  }

  lemma LastDigit(high: nat, low: nat)
    requires low < 16
    ensures (16 * high + low) / 16 == high && (16 * high + low) % 16 == low
  {
  }

  lemma HexAppendThere(init: string, c: char, n: nat)
    requires init != "" && init[0] != '0' && HexValue(init + [c]) == Some(n)
    ensures n >= 16 && HexValue(init) == Some(n / 16) && HexDigit(c) == Some(n % 16)
  {
    assert (init + [c])[..|init|] == init;
    HexPositive(init);
    LastDigit(HexValue(init).value, HexDigit(c).value);
  }

  lemma HexAppendBack(init: string, c: char, n: nat)
    requires HexValue(init) == Some(n / 16) && HexDigit(c) == Some(n % 16)
    ensures HexValue(init + [c]) == Some(n)
  {
    assert (init + [c])[..|init|] == init;
  }

  lemma HexAppend(digits: string, n: nat)
    requires |digits| > 1 && digits[0] != '0'
    requires var init := digits[..|digits| - 1]; HexValue(init) == Some(n / 16) <==> Lower(init) == HexText(n / 16)
    ensures HexValue(digits) == Some(n) <==> Lower(digits) == HexText(n)
  {
    var last := |digits| - 1;
    var init, c := digits[..last], digits[last];
    assert digits == init + [c];
    assert Lower(digits) == Lower(init) + [LowerChar(c)];
    HexDigitIs(c, n % 16);
    if HexValue(digits) == Some(n) {
      HexAppendThere(init, c, n);
    } else if Lower(digits) == HexText(n) && n >= 16 {
      LastApart(Lower(init), LowerChar(c), HexText(n / 16), HexChar(n % 16));
      HexAppendBack(init, c, n);
    }
  }

  lemma {:induction false} HexPositive(digits: string)
    requires digits != "" && digits[0] != '0' && HexValue(digits).Some?
    ensures HexValue(digits).value > 0
  {
    if |digits| > 1 { HexPositive(digits[..|digits| - 1]); } else { assert digits[..0] == ""; }
  }

  lemma Digits16()
    ensures Pow16(16) == UINT64
  {
    assert Pow16(4) == 0x1_0000;
    PowSplit(4, 4);
    PowSplit(8, 8);
  }

  lemma {:induction false} PowSplit(a: nat, b: nat)
    ensures Pow16(a + b) == Pow16(a) * Pow16(b)
  {
    if a > 0 { PowSplit(a - 1, b); }
  }

  lemma LowerZero(c: char)
    ensures LowerChar(c) == '0' <==> c == '0'
  {
  }

  /** A block input denotes n exactly when it is "0x" and the shortest numeral of a 64-bit n, in either case. */
  lemma BlockInputIs(s: string, n: nat)
    ensures DecodeBlockInput(s) == Some(n) <==>
            && n < UINT64 && |s| >= 3 && s[0] == '0' && (s[1] == 'x' || s[1] == 'X') && Lower(s[2..]) == HexText(n)
  {
    Digits16();
    if |s| >= 3 && s[0] == '0' && (s[1] == 'x' || s[1] == 'X') {
      var digits := s[2..];
      HexLength(n, 16);
      if |digits| == 1 || digits[0] != '0' {
        HexValueIs(digits, n);
      } else {
        LowerZero(digits[0]);
      }
    }
  }

  /** The valid block inputs: three tags and the numerals of 64-bit numbers. */
  lemma ValidInputIff(s: string)
    ensures ValidBlockInput(s) <==>
            || s in {"earliest", "latest", "pending"}
            || (|s| >= 3 && s[0] == '0' && (s[1] == 'x' || s[1] == 'X')
                && exists n: nat :: n < UINT64 && Lower(s[2..]) == HexText(n))
  {
    if DecodeBlockInput(s).Some? { BlockInputIs(s, DecodeBlockInput(s).value); }
    if n: nat :| n < UINT64 && |s| >= 3 && Lower(s[2..]) == HexText(n) { BlockInputIs(s, n); }
  }

  /** Where the number and the confirmations do not fit in 64 bits, the guard compares with what is left of their sum. */
  lemma GuardWraps(conf: nat, cur: nat, s: string, n: nat)
    requires DecodeBlockInput(s) == Some(n) && conf < UINT64 <= n + conf
    ensures Confirmed(conf, Some(cur), s) <==> s == "earliest" || cur + UINT64 > n + conf
  {
    BlockInputIs(s, n);
  }

  /** Keys the other users of the store write. */
  predicate Foreign(key: string) { "method:eth_call:" <= key || "lvc:" <= key }

  lemma ForeignKeysApart(key: string, q: Query)
    requires Foreign(key)
    ensures key != Key(q)
  {
    assert Key(q)[0] == 'm' && Key(q)[11] == 'g';
  }

  // ----- the chain -----

  /** A block as the backend renders it, with and without transactions. */
  datatype Block = Block(full: string, brief: string)

  /** The current blocks by number, and the highest head there has been. */
  datatype Chain = Chain(blocks: seq<Block>, top: nat)

  /** Genesis, and everything more than `conf` below the highest head. */
  predicate Final(conf: nat, c: Chain, n: nat) { n == 0 || n + conf < c.top }

  ghost predicate ValidChain(conf: nat, c: Chain) {
    && 0 < |c.blocks| <= c.top + 1
    && c.top + conf < UINT64
    && forall n: nat | Final(conf, c, n) :: n < |c.blocks|
  }

  /** The chain may grow and reorganise, but keeps its final blocks. */
  ghost predicate Later(conf: nat, c: Chain, d: Chain) {
    && ValidChain(conf, d)
    && c.top <= d.top
    && forall n: nat | Final(conf, c, n) && n < |c.blocks| :: n < |d.blocks| && d.blocks[n] == c.blocks[n]
  }

  function Render(b: Block, full: bool): string { if full then b.full else b.brief }

  function RenderRange(blocks: seq<Block>, full: bool): string {
    if blocks == [] then "" else RenderRange(blocks[..|blocks| - 1], full) + "," + Render(blocks[|blocks| - 1], full)
  }

  function NumberOf(c: Chain, input: string): Option<nat>
    requires |c.blocks| > 0
  {
    if input == "earliest" then Some(0)
    else if IsBlockDependent(input) then Some(|c.blocks| - 1)
    else DecodeBlockInput(input)
  }

  /** What the backend answers now; `None` is a null result or an error, neither of which is ever put. */
  function Answer(c: Chain, q: Query): Option<string>
    requires |c.blocks| > 0
  {
    match q
    case ByNumber(input, full) =>
      var n := NumberOf(c, input);
      if n.Some? && n.value < |c.blocks| then Some(Render(c.blocks[n.value], full)) else None
    case Range(start, end, full) =>
      var lo, hi := NumberOf(c, start), NumberOf(c, end);
      if lo.Some? && hi.Some? && lo.value <= hi.value <= lo.value + 1000 && hi.value < |c.blocks|
      then Some("[" + RenderRange(c.blocks[lo.value..hi.value + 1], full) + "]") else None
  }

  predicate FinalInput(conf: nat, c: Chain, input: string) {
    input == "earliest" || (DecodeBlockInput(input).Some? && Final(conf, c, DecodeBlockInput(input).value))
  }

  predicate FinalQuery(conf: nat, c: Chain, q: Query) {
    match q
    case ByNumber(input, _) => FinalInput(conf, c, input)
    case Range(start, end, _) => FinalInput(conf, c, start) && FinalInput(conf, c, end)
  }

  lemma FinalPrefixStays(conf: nat, c: Chain, d: Chain, n: nat)
    requires ValidChain(conf, c) && Later(conf, c, d) && Final(conf, c, n)
    ensures n < |c.blocks| && n < |d.blocks| && d.blocks[..n + 1] == c.blocks[..n + 1]
  {
  }

  lemma FinalInputStays(conf: nat, c: Chain, d: Chain, input: string)
    requires ValidChain(conf, c) && Later(conf, c, d) && FinalInput(conf, c, input)
    ensures FinalInput(conf, d, input) && NumberOf(c, input) == NumberOf(d, input)
    ensures NumberOf(c, input).Some? && Final(conf, c, NumberOf(c, input).value)
  {
  }

  lemma RangeStays(conf: nat, c: Chain, d: Chain, lo: nat, hi: nat)
    requires ValidChain(conf, c) && Later(conf, c, d) && Final(conf, c, hi) && lo <= hi
    ensures hi < |c.blocks| && hi < |d.blocks| && d.blocks[lo..hi + 1] == c.blocks[lo..hi + 1]
  {
  }

  lemma FinalRangeStays(conf: nat, c: Chain, d: Chain, q: Query)
    requires ValidChain(conf, c) && Later(conf, c, d) && q.Range? && FinalQuery(conf, c, q)
    ensures FinalQuery(conf, d, q) && Answer(d, q) == Answer(c, q)
  {
    FinalInputStays(conf, c, d, q.start);
    FinalInputStays(conf, c, d, q.end);
    var lo, hi := NumberOf(c, q.start).value, NumberOf(c, q.end).value;
    if lo <= hi { RangeStays(conf, c, d, lo, hi); }
  }

  /** The answer to a query about final blocks never changes again. */
  lemma FinalAnswerStays(conf: nat, c: Chain, d: Chain, q: Query)
    requires ValidChain(conf, c) && Later(conf, c, d) && FinalQuery(conf, c, q)
    ensures FinalQuery(conf, d, q) && Answer(d, q) == Answer(c, q)
  {
    if q.Range? {
      FinalRangeStays(conf, c, d, q);
    } else {
      FinalInputStays(conf, c, d, q.input);
      FinalPrefixStays(conf, c, d, NumberOf(c, q.input).value);
    }
  }

  lemma GuardInputFinal(conf: nat, c: Chain, input: string, cur: Option<nat>)
    requires ValidChain(conf, c) && Confirmed(conf, cur, input) && (cur.Some? ==> cur.value <= c.top)
    requires DecodeBlockInput(input).Some? ==> DecodeBlockInput(input).value < |c.blocks|
    ensures FinalInput(conf, c, input)
  {
  }

  /** Passing the guard with a number the chain has reached means the blocks are final, given that they exist. */
  lemma GuardMeansFinal(conf: nat, c: Chain, q: Query, cur: Option<nat>)
    requires ValidChain(conf, c) && Cacheable(q) && MayPut(conf, cur, q) && Answer(c, q).Some?
    requires cur.Some? ==> cur.value <= c.top
    ensures FinalQuery(conf, c, q)
  {
    match q
    case ByNumber(input, _) => GuardInputFinal(conf, c, input, cur);
    case Range(start, end, _) =>
      GuardInputFinal(conf, c, start, cur);
      GuardInputFinal(conf, c, end, cur);
  }

  // ----- runs -----

  /** A forwarded request waiting for its put, and whether its blocks were final when it was answered. */
  datatype Pending = Pending(query: Query, result: string, settled: bool)

  datatype System = System(chain: Chain, store: Store, pending: seq<Pending>)

  datatype Step =
    | ForwardAndPut(query: Query, cur: Option<nat>)
    | Forward(query: Query)
    | PutLater(index: nat, cur: Option<nat>)
    | Evict(keys: set<string>)
    | ForeignPut(key: string, value: string)
    | Advance(chain: Chain)

  predicate Known(s: System, cur: Option<nat>) { cur.Some? ==> cur.value <= s.chain.top }

  ghost predicate Enabled(conf: nat, s: System, step: Step)
    requires ValidChain(conf, s.chain)
  {
    match step
    case ForwardAndPut(q, cur) => WellFormed(q) && Answer(s.chain, q).Some? && Known(s, cur)
    case Forward(q) => WellFormed(q) && Answer(s.chain, q).Some?
    case PutLater(i, cur) => i < |s.pending| && Known(s, cur)
    case Evict(_) => true
    case ForeignPut(key, _) => Foreign(key)
    case Advance(d) => Later(conf, s.chain, d)
  }

  ghost function Next(conf: nat, s: System, step: Step): System
    requires ValidChain(conf, s.chain) && Enabled(conf, s, step)
  {
    match step
    case ForwardAndPut(q, cur) => s.(store := Put(conf, s.store, q, Answer(s.chain, q).value, cur))
    case Forward(q) =>
      s.(pending := s.pending + [Pending(q, Answer(s.chain, q).value, FinalQuery(conf, s.chain, q))])
    case PutLater(i, cur) => s.(store := Put(conf, s.store, s.pending[i].query, s.pending[i].result, cur))
    case Evict(keys) => s.(store := s.store - keys)
    case ForeignPut(key, value) => s.(store := s.store[key := value])
    case Advance(d) => s.(chain := d)
  }

  /** Every stored block answer is final and still right. */
  ghost predicate StoreOk(conf: nat, c: Chain, store: Store)
    requires |c.blocks| > 0
  {
    forall q | WellFormed(q) && Cacheable(q) && Key(q) in store ::
      FinalQuery(conf, c, q) && Answer(c, q) == Some(store[Key(q)])
  }

  ghost predicate PendingOk(conf: nat, c: Chain, pending: seq<Pending>)
    requires |c.blocks| > 0
  {
    forall i | 0 <= i < |pending| ::
      && WellFormed(pending[i].query)
      && (pending[i].settled ==> FinalQuery(conf, c, pending[i].query) && Answer(c, pending[i].query) == Some(pending[i].result))
  }

  ghost predicate Inv(conf: nat, s: System) {
    ValidChain(conf, s.chain) && StoreOk(conf, s.chain, s.store) && PendingOk(conf, s.chain, s.pending)
  }

  /** A late put is of an answer that was already settled when it was given. */
  predicate Settled(s: System, step: Step) {
    step.PutLater? && step.index < |s.pending| ==> s.pending[step.index].settled
  }

  lemma PutKeepsStore(conf: nat, c: Chain, store: Store, q: Query, result: string, cur: Option<nat>)
    requires ValidChain(conf, c) && StoreOk(conf, c, store) && WellFormed(q)
    requires MayPut(conf, cur, q) ==> FinalQuery(conf, c, q) && Answer(c, q) == Some(result)
    ensures StoreOk(conf, c, Put(conf, store, q, result, cur))
  {
    var store' := Put(conf, store, q, result, cur);
    forall p | WellFormed(p) && Cacheable(p) && Key(p) in store'
      ensures FinalQuery(conf, c, p) && Answer(c, p) == Some(store'[Key(p)])
    {
      if MayPut(conf, cur, q) && Key(p) == Key(q) { KeyInjective(p, q); }
    }
  }

  lemma InvStep(conf: nat, s: System, step: Step)
    requires Inv(conf, s) && Enabled(conf, s, step) && Settled(s, step)
    ensures Inv(conf, Next(conf, s, step))
  {
    match step
    case ForwardAndPut(q, cur) =>
      if MayPut(conf, cur, q) { GuardMeansFinal(conf, s.chain, q, cur); }
      PutKeepsStore(conf, s.chain, s.store, q, Answer(s.chain, q).value, cur);
    case PutLater(i, cur) =>
      PutKeepsStore(conf, s.chain, s.store, s.pending[i].query, s.pending[i].result, cur);
    case ForeignPut(key, value) =>
      forall q | WellFormed(q) && Cacheable(q) && Key(q) in s.store[key := value]
        ensures FinalQuery(conf, s.chain, q) && Answer(s.chain, q) == Some(s.store[key := value][Key(q)])
      {
        ForeignKeysApart(key, q);
      }
    case Advance(d) =>
      forall q | FinalQuery(conf, s.chain, q) ensures FinalQuery(conf, d, q) && Answer(d, q) == Answer(s.chain, q) {
        FinalAnswerStays(conf, s.chain, d, q);
      }
    case Forward(_) =>
    case Evict(_) =>
  }

  ghost predicate IsRun(conf: nat, states: seq<System>, steps: seq<Step>) {
    && |states| == |steps| + 1
    && ValidChain(conf, states[0].chain) && states[0].store == map[] && states[0].pending == []
    && forall i | 0 <= i < |steps| ::
         && ValidChain(conf, states[i].chain) && Enabled(conf, states[i], steps[i])
         && states[i + 1] == Next(conf, states[i], steps[i])
  }

  /** Over every run, a hit is what the backend would answer now. */
  lemma {:induction false} CacheCoherent(conf: nat, states: seq<System>, steps: seq<Step>, i: nat, q: Query)
    requires IsRun(conf, states, steps) && i < |states| && WellFormed(q)
    requires forall j | 0 <= j < i :: Settled(states[j], steps[j])
    ensures Inv(conf, states[i])
    ensures Lookup(states[i].store, q).Some? ==> Answer(states[i].chain, q) == Lookup(states[i].store, q)
  {
    if i > 0 {
      CacheCoherent(conf, states, steps, i - 1, q);
      assert Settled(states[i - 1], steps[i - 1]);
      InvStep(conf, states[i - 1], steps[i - 1]);
    }
  }

  // ----- why late puts need settled answers -----

  /** A chain that replaces block `n` and goes far enough past it for the guard to pass. */
  function Replaced(conf: nat, c: Chain, n: nat, b: Block): Chain
    requires n < |c.blocks|
  {
    Chain(c.blocks[..n] + seq(conf + 2, _ => b), n + conf + 1)
  }

  /** The put of `result` at chain `d` with latest number `cur` happens and leaves a wrong entry. */
  predicate GoesStale(conf: nat, d: Chain, cur: nat, q: Query, result: string) {
    |d.blocks| > 0 && cur <= d.top && MayPut(conf, Some(cur), q) && Answer(d, q) != Some(result)
  }

  lemma ReplacedIsLater(conf: nat, c: Chain, n: nat, b: Block)
    requires ValidChain(conf, c) && c.top + 2 * conf + 1 < UINT64 && n < |c.blocks| && !Final(conf, c, n)
    ensures Later(conf, c, Replaced(conf, c, n, b))
    ensures Replaced(conf, c, n, b).blocks[n] == b
  {
  }

  function LastInput(q: Query): string { if q.ByNumber? then q.input else q.end }

  /** The last block an answered, unsettled query names: not final, and no earlier than the first. */
  lemma LastBlock(conf: nat, c: Chain, q: Query) returns (n: nat)
    requires ValidChain(conf, c) && WellFormed(q) && Cacheable(q) && Answer(c, q).Some? && !FinalQuery(conf, c, q)
    ensures DecodeBlockInput(LastInput(q)) == Some(n) && LastInput(q) != "earliest"
    ensures n < |c.blocks| && !Final(conf, c, n)
    ensures q.Range? ==> NumberOf(c, q.start).value <= n
  {
    n := NumberOf(c, LastInput(q)).value;
  }

  lemma StaleAnswer(conf: nat, d: Chain, q: Query, n: nat, v: string)
    requires WellFormed(q) && Cacheable(q) && DecodeBlockInput(LastInput(q)) == Some(n) && n < |d.blocks|
    requires LastInput(q) != "earliest" && |Render(d.blocks[n], q.full)| > |v|
    ensures Answer(d, q) != Some(v)
  {
  }

  /** The guard passes for every block an answered query names once the chain is far enough past the last of them. */
  lemma GuardPasses(conf: nat, c: Chain, q: Query, n: nat)
    requires ValidChain(conf, c) && c.top + 2 * conf + 1 < UINT64
    requires WellFormed(q) && Cacheable(q) && Answer(c, q).Some?
    requires DecodeBlockInput(LastInput(q)) == Some(n) && n < |c.blocks| && LastInput(q) != "earliest"
    requires q.Range? ==> NumberOf(c, q.start).value <= n
    ensures MayPut(conf, Some(n + conf + 1), q)
  {
  }

  /** An answered query that is not final can go stale behind its own guard. */
  lemma UnsettledGoesStale(conf: nat, c: Chain, q: Query) returns (d: Chain, cur: nat)
    requires ValidChain(conf, c) && c.top + 2 * conf + 1 < UINT64
    requires WellFormed(q) && Cacheable(q) && Answer(c, q).Some? && !FinalQuery(conf, c, q)
    ensures Later(conf, c, d) && GoesStale(conf, d, cur, q, Answer(c, q).value)
  {
    var v := Answer(c, q).value;
    var b := Block(v + "x", v + "x");
    var n := LastBlock(conf, c, q);
    d, cur := Replaced(conf, c, n, b), n + conf + 1;
    ReplacedIsLater(conf, c, n, b);
    GuardPasses(conf, c, q, n);
    StaleAnswer(conf, d, q, n, v);
  }

  lemma ThreeSteps(conf: nat, s0: System, s1: System, s2: System, s3: System, a: Step, b: Step, c: Step)
    requires ValidChain(conf, s0.chain) && s0.store == map[] && s0.pending == []
    requires Enabled(conf, s0, a) && s1 == Next(conf, s0, a)
    requires ValidChain(conf, s1.chain) && Enabled(conf, s1, b) && s2 == Next(conf, s1, b)
    requires ValidChain(conf, s2.chain) && Enabled(conf, s2, c) && s3 == Next(conf, s2, c)
    ensures IsRun(conf, [s0, s1, s2, s3], [a, b, c])
  {
  }

  lemma ForwardFirst(conf: nat, c: Chain, q: Query)
    requires ValidChain(conf, c) && WellFormed(q) && Answer(c, q).Some?
    ensures var s := System(c, map[], []);
            Enabled(conf, s, Forward(q)) && Next(conf, s, Forward(q)) ==
              System(c, map[], [Pending(q, Answer(c, q).value, FinalQuery(conf, c, q))])
  {
  }

  lemma LatePut(conf: nat, d: Chain, p: Pending, cur: nat)
    requires ValidChain(conf, d) && cur <= d.top && MayPut(conf, Some(cur), p.query)
    ensures Enabled(conf, System(d, map[], [p]), PutLater(0, Some(cur)))
    ensures Next(conf, System(d, map[], [p]), PutLater(0, Some(cur))) == System(d, map[Key(p.query) := p.result], [p])
  {
  }

  /** Forward, a reorganisation to `d`, and then the put at latest number `cur`. */
  lemma LatePutRun(conf: nat, c: Chain, d: Chain, cur: nat, q: Query) returns (states: seq<System>, steps: seq<Step>)
    requires ValidChain(conf, c) && Later(conf, c, d) && WellFormed(q) && Answer(c, q).Some?
    requires cur <= d.top && MayPut(conf, Some(cur), q)
    ensures IsRun(conf, states, steps) && |steps| == 3
    ensures states[0].chain == c && states[3].chain == d && states[3].store == map[Key(q) := Answer(c, q).value]
  {
    var p := Pending(q, Answer(c, q).value, FinalQuery(conf, c, q));
    var s0, s1, s2 := System(c, map[], []), System(c, map[], [p]), System(d, map[], [p]);
    var s3 := System(d, map[Key(q) := p.result], [p]);
    steps := [Forward(q), Advance(d), PutLater(0, Some(cur))];
    states := [s0, s1, s2, s3];
    ForwardFirst(conf, c, q);
    assert Enabled(conf, s1, Advance(d)) && s2 == Next(conf, s1, Advance(d));
    LatePut(conf, d, p, cur);
    ThreeSteps(conf, s0, s1, s2, s3, Forward(q), Advance(d), PutLater(0, Some(cur)));
  }

  /** Such a run can end with a hit the backend would not give. */
  lemma StaleRun(conf: nat, c: Chain, q: Query) returns (states: seq<System>, steps: seq<Step>)
    requires ValidChain(conf, c) && c.top + 2 * conf + 1 < UINT64
    requires WellFormed(q) && Cacheable(q) && Answer(c, q).Some? && !FinalQuery(conf, c, q)
    requires Answer(c, q).value != ""
    ensures IsRun(conf, states, steps) && |steps| == 3 && states[0].chain == c && ValidChain(conf, states[3].chain)
    ensures Lookup(states[3].store, q).Some? && Lookup(states[3].store, q) != Answer(states[3].chain, q)
  {
    var d, cur := UnsettledGoesStale(conf, c, q);
    states, steps := LatePutRun(conf, c, d, cur, q);
  }

  /** An answer may be put after any later change of the chain exactly when its blocks were final when it was given. */
  lemma LatePutSafeIffFinal(conf: nat, c: Chain, q: Query)
    requires ValidChain(conf, c) && c.top + 2 * conf + 1 < UINT64
    requires WellFormed(q) && Cacheable(q) && Answer(c, q).Some?
    ensures (forall d: Chain, cur: nat :: Later(conf, c, d) ==> !GoesStale(conf, d, cur, q, Answer(c, q).value))
            <==> FinalQuery(conf, c, q)
  {
    if FinalQuery(conf, c, q) {
      forall d: Chain, cur: nat | Later(conf, c, d) ensures !GoesStale(conf, d, cur, q, Answer(c, q).value) {
        FinalAnswerStays(conf, c, d, q);
      }
    } else {
      var d, cur := UnsettledGoesStale(conf, c, q);
    }
  }
}
