/**
 The spend gate of the paid-API probes (qa/probe_runner.py): estimate the cost
 of a run, refuse it over the cap, and account for what came back. Costs are
 exact reals here.
 */
module SpendGate {
  import opened Options

  /** A system prompt or a message body: nothing, text, or blocks of text. `extra`
      stands for the other fields of a block. */
  datatype Block = Block(text: string, extra: string)
  datatype Content = Absent | Text(text: string) | Blocks(blocks: seq<Block>)

  datatype Payload = Payload(model: string, system: Content, messages: seq<Content>, maxTokens: Option<nat>)
  datatype Request = Request(id: string, payload: Payload)

  datatype Price = Price(input: real, output: real)
  type Prices = map<string, Price>

  datatype Usage = Usage(input: nat, cacheWrite: nat, cacheRead: nat, output: nat)

  /** The cache key of a request: its model and its system prompt. */
  datatype CacheKey = CacheKey(model: string, system: Content)

  const OUTPUT_ASSUMED := 1000

  /** CHARS_PER_TOKEN, CACHE_WRITE, CACHE_READ and BATCH are the literals 3.5, 1.25,
      0.1 and 0.5, so that every formula stays linear in them. */
  function AssumedTokens(chars: nat): real {
    chars as real / 3.5
  }

  // ------------------------------------------------------------ the formulas

  function BlockChars(blocks: seq<Block>): nat {
    if blocks == [] then 0 else |blocks[0].text| + BlockChars(blocks[1..])
  }

  function Chars(c: Content): nat {
    match c
    case Absent => 0
    case Text(s) => |s|
    case Blocks(bs) => BlockChars(bs)
  }

  function AllChars(cs: seq<Content>): nat {
    if cs == [] then 0 else Chars(cs[0]) + AllChars(cs[1..])
  }

  function AssumedOutput(p: Payload): nat {
    if p.maxTokens.Some? && p.maxTokens.value < OUTPUT_ASSUMED then p.maxTokens.value else OUTPUT_ASSUMED
  }

  function KeyOf(p: Payload): CacheKey {
    CacheKey(p.model, p.system)
  }

  function Discount(batch: bool): real {
    if batch then 0.5 else 1.0
  }

  /** Dollars from token-price products: an estimate, and a bill. */
  function Estimated(system: real, cached: real, messages: real, output: real, batch: bool): real {
    (system * cached + messages + output) / 1000000.0 * Discount(batch)
  }

  function Billed(input: real, cacheWrite: real, cacheRead: real, output: real, batch: bool): real {
    (input + cacheWrite * 1.25 + cacheRead * 0.1 + output) / 1000000.0 * Discount(batch)
  }

  /** Tokens times their price per million. */
  function At(tokens: real, price: real): real {
    tokens * price
  }

  /** What one request is estimated at. */
  function ItemCost(price: Price, p: Payload, batch: bool, cached: real): real {
    Estimated(At(AssumedTokens(Chars(p.system)), price.input), cached,
              At(AssumedTokens(AllChars(p.messages)), price.input),
              At(AssumedOutput(p) as real, price.output), batch)
  }

  /** What one answer is billed at. */
  function Actual(price: Price, u: Usage, batch: bool): real {
    Billed(At(u.input as real, price.input), At(u.cacheWrite as real, price.input),
           At(u.cacheRead as real, price.input), At(u.output as real, price.output), batch)
  }

  ghost predicate Priced(prices: Prices, rs: seq<Request>) {
    forall r :: r in rs ==> r.payload.model in prices
  }

  ghost predicate Nonnegative(prices: Prices) {
    forall m :: m in prices ==> prices[m].input >= 0.0 && prices[m].output >= 0.0
  }

  function Rate(batch: bool, known: bool): real {
    if !batch && known then 0.1 else 1.25
  }

  /** The estimate of a run whose cache already holds the keys in `seen`. */
  function Estimate(prices: Prices, rs: seq<Request>, batch: bool, seen: set<CacheKey>): real
    requires Priced(prices, rs)
  {
    if rs == [] then 0.0
    else
      var p := rs[0].payload;
      ItemCost(prices[p.model], p, batch, Rate(batch, KeyOf(p) in seen))
      + Estimate(prices, rs[1..], batch, seen + {KeyOf(p)})
  }

  // ----------------------------------------------------- what the dollars are

  /** The bill of one answer: a cache write costs a quarter more than input, a cache read a
      tenth of it, prices are per million tokens, and a batch is half price. */
  lemma BillOfAnswer(price: Price, u: Usage)
    ensures Actual(price, u, false) ==
            (u.input as real * price.input + u.cacheWrite as real * price.input * 1.25
             + u.cacheRead as real * price.input * 0.1 + u.output as real * price.output) / 1000000.0
    ensures Actual(price, u, true) == Actual(price, u, false) * 0.5
  {
  }

  /** It adds up: what is used together is billed as if used apart. */
  lemma BillIsLinear(price: Price, u: Usage, v: Usage, batch: bool)
    ensures Actual(price, Usage(u.input + v.input, u.cacheWrite + v.cacheWrite,
                                u.cacheRead + v.cacheRead, u.output + v.output), batch) ==
            Actual(price, u, batch) + Actual(price, v, batch)
  {
    ProductsAdd(u.input, v.input, price.input);
    ProductsAdd(u.cacheWrite, v.cacheWrite, price.input);
    ProductsAdd(u.cacheRead, v.cacheRead, price.input);
    ProductsAdd(u.output, v.output, price.output);
  }

  lemma ProductsAdd(x: nat, y: nat, price: real)
    ensures At((x + y) as real, price) == At(x as real, price) + At(y as real, price)
  {
  }

  /** The estimate of one request, from the dollars per million of its system prompt, its
      messages and its output: three and a half characters to a token, and at most a thousand
      tokens of output. */
  lemma EstimateOfRequest(price: Price, p: Payload, cached: real, system: real, messages: real, output: real)
    requires system == Chars(p.system) as real / 3.5 * price.input
    requires messages == AllChars(p.messages) as real / 3.5 * price.input
    requires output == (if p.maxTokens.Some? && p.maxTokens.value <= 1000 then p.maxTokens.value else 1000) as real
                       * price.output
    ensures ItemCost(price, p, false, cached) == (system * cached + messages + output) / 1000000.0
    ensures ItemCost(price, p, true, cached) == ItemCost(price, p, false, cached) * 0.5
  {
    assert system == At(AssumedTokens(Chars(p.system)), price.input);
    assert messages == At(AssumedTokens(AllChars(p.messages)), price.input);
    assert output == At(AssumedOutput(p) as real, price.output);
    DollarsOf(system, cached, messages, output);
  }

  lemma DollarsOf(system: real, cached: real, messages: real, output: real)
    ensures Estimated(system, cached, messages, output, false) == (system * cached + messages + output) / 1000000.0
    ensures Estimated(system, cached, messages, output, true) ==
            Estimated(system, cached, messages, output, false) * 0.5
  {
  }

  /** Characters are counted over all text and nothing else. */
  lemma {:induction false} CharsAddUp(s: string, bs: seq<Block>, b: Block, cs: seq<Content>, c: Content)
    ensures Chars(Absent) == 0 && Chars(Text(s)) == |s|
    ensures Chars(Blocks([])) == 0 && Chars(Blocks([b] + bs)) == |b.text| + Chars(Blocks(bs))
    ensures AllChars([]) == 0 && AllChars([c] + cs) == Chars(c) + AllChars(cs)
  {
    assert ([b] + bs)[1..] == bs && ([c] + cs)[1..] == cs;
  }

  /** The rate of the system prompt of the `i`th request: written, unless an earlier request of
      a sequential run had the same model and prompt. */
  function RateAt(rs: seq<Request>, i: nat, batch: bool): real
    requires i < |rs|
  {
    if !batch && exists j :: 0 <= j < i && rs[j].payload.model == rs[i].payload.model
                             && rs[j].payload.system == rs[i].payload.system
    then 0.1 else 1.25
  }

  function SumUpTo(prices: Prices, rs: seq<Request>, n: nat, batch: bool): real
    requires Priced(prices, rs) && n <= |rs|
  {
    if n == 0 then 0.0
    else SumUpTo(prices, rs, n - 1, batch)
         + ItemCost(prices[rs[n - 1].payload.model], rs[n - 1].payload, batch, RateAt(rs, n - 1, batch))
  }

  /** The estimate is the sum over the requests, each at its rate. */
  lemma EstimateIsSum(prices: Prices, rs: seq<Request>, batch: bool)
    requires Priced(prices, rs)
    ensures Estimate(prices, rs, batch, {}) == SumUpTo(prices, rs, |rs|, batch)
  {
    SumThenRest(prices, rs, |rs|, batch);
    assert rs[|rs|..] == [];
  }

  function SeenBefore(rs: seq<Request>, n: nat): set<CacheKey>
    requires n <= |rs|
  {
    set j: nat | 0 <= j < n :: KeyOf(rs[j].payload)
  }

  lemma {:induction false} SumThenRest(prices: Prices, rs: seq<Request>, n: nat, batch: bool)
    requires Priced(prices, rs) && n <= |rs|
    ensures Priced(prices, rs[n..])
    ensures Estimate(prices, rs, batch, {}) ==
            SumUpTo(prices, rs, n, batch) + Estimate(prices, rs[n..], batch, SeenBefore(rs, n))
  {
    assert forall r :: r in rs[n..] ==> r in rs;
    if n == 0 {
      assert rs[0..] == rs && SeenBefore(rs, 0) == {};
    } else {
      SumThenRest(prices, rs, n - 1, batch);
      var tail := rs[n - 1..];
      assert tail[0] == rs[n - 1] && tail[1..] == rs[n..];
      assert SeenBefore(rs, n) == SeenBefore(rs, n - 1) + {KeyOf(rs[n - 1].payload)};
      assert Rate(batch, KeyOf(rs[n - 1].payload) in SeenBefore(rs, n - 1)) == RateAt(rs, n - 1, batch);
    }
  }

  // ---------------------------------------------- the parts of one estimate

  /** The cost of the system prompt at rate one, and of everything else. */
  function SystemCost(price: Price, p: Payload, batch: bool): real {
    At(AssumedTokens(Chars(p.system)), price.input) / 1000000.0 * Discount(batch)
  }

  function OtherCost(price: Price, p: Payload, batch: bool): real {
    (At(AssumedTokens(AllChars(p.messages)), price.input) + At(AssumedOutput(p) as real, price.output))
    / 1000000.0 * Discount(batch)
  }

  lemma AtMonotone(x: real, y: real, price: real)
    requires x <= y && price >= 0.0
    ensures At(x, price) <= At(y, price)
  {
  }

  lemma ItemParts(price: Price, p: Payload, batch: bool, cached: real)
    ensures ItemCost(price, p, batch, cached) == SystemCost(price, p, batch) * cached + OtherCost(price, p, batch)
  {
  }

  // -------------------------------------------------- order does not matter

  lemma SwapFirstTwo(prices: Prices, a: Request, b: Request, rest: seq<Request>, batch: bool, seen: set<CacheKey>)
    requires Priced(prices, [a, b] + rest) && Priced(prices, [b, a] + rest)
    ensures Estimate(prices, [a, b] + rest, batch, seen) == Estimate(prices, [b, a] + rest, batch, seen)
  {
    UnfoldTwo(prices, a, b, rest, batch, seen);
    UnfoldTwo(prices, b, a, rest, batch, seen);
    var p, q := a.payload, b.payload;
    assert seen + {KeyOf(p)} + {KeyOf(q)} == seen + {KeyOf(q)} + {KeyOf(p)};
    if KeyOf(p) == KeyOf(q) {
      SameKeySwap(prices[p.model], p, q, batch, Rate(batch, KeyOf(p) in seen), Rate(batch, true));
    }
  }

  /** Two requests with one cached prompt may trade places. */
  lemma SameKeySwap(price: Price, p: Payload, q: Payload, batch: bool, x: real, y: real)
    requires KeyOf(p) == KeyOf(q)
    ensures ItemCost(price, p, batch, x) + ItemCost(price, q, batch, y) ==
            ItemCost(price, q, batch, x) + ItemCost(price, p, batch, y)
  {
  }

  lemma EstimateCons(prices: Prices, a: Request, rest: seq<Request>, batch: bool, seen: set<CacheKey>)
    requires Priced(prices, [a] + rest)
    ensures a.payload.model in prices && Priced(prices, rest)
    ensures Estimate(prices, [a] + rest, batch, seen) ==
            ItemCost(prices[a.payload.model], a.payload, batch, Rate(batch, KeyOf(a.payload) in seen))
            + Estimate(prices, rest, batch, seen + {KeyOf(a.payload)})
  {
  }

  lemma UnfoldTwo(prices: Prices, a: Request, b: Request, rest: seq<Request>, batch: bool, seen: set<CacheKey>)
    requires Priced(prices, [a, b] + rest)
    ensures a.payload.model in prices && b.payload.model in prices && Priced(prices, rest)
    ensures Estimate(prices, [a, b] + rest, batch, seen) ==
            ItemCost(prices[a.payload.model], a.payload, batch, Rate(batch, KeyOf(a.payload) in seen))
            + ItemCost(prices[b.payload.model], b.payload, batch,
                       Rate(batch, KeyOf(b.payload) in seen + {KeyOf(a.payload)}))
            + Estimate(prices, rest, batch, seen + {KeyOf(a.payload)} + {KeyOf(b.payload)})
  {
  }

  function Removed(rs: seq<Request>, i: nat): seq<Request>
    requires i < |rs|
  {
    rs[..i] + rs[i + 1..]
  }

  lemma RemovedTail(rs: seq<Request>, i: nat)
    requires 0 < i < |rs|
    ensures Removed(rs, i) == [rs[0]] + Removed(rs[1..], i - 1)
  {
  }

  lemma RemovedMultiset(rs: seq<Request>, i: nat)
    requires i < |rs|
    ensures multiset([rs[i]] + Removed(rs, i)) == multiset(rs)
    ensures multiset(Removed(rs, i)) == multiset(rs) - multiset{rs[i]}
  {
    assert rs == rs[..i] + [rs[i]] + rs[i + 1..];
  }

  lemma SameRest(rs: seq<Request>, qs: seq<Request>, i: nat)
    requires multiset(rs) == multiset(qs) && rs != [] && i < |qs| && qs[i] == rs[0]
    ensures multiset(rs[1..]) == multiset(Removed(qs, i))
  {
    RemovedMultiset(qs, i);
    RemovedMultiset(rs, 0);
  }

  lemma PricedSame(prices: Prices, rs: seq<Request>, qs: seq<Request>)
    requires Priced(prices, rs) && multiset(qs) <= multiset(rs)
    ensures Priced(prices, qs)
  {
    forall q | q in qs
      ensures q in rs
    {
      assert q in multiset(qs);
    }
  }

  /** Taking one request out of the middle and sending it first costs the same. */
  lemma {:induction false} MoveToFront(prices: Prices, rs: seq<Request>, i: nat, batch: bool, seen: set<CacheKey>)
    requires Priced(prices, rs) && i < |rs|
    ensures var moved := [rs[i]] + Removed(rs, i);
            Priced(prices, moved) && Estimate(prices, moved, batch, seen) == Estimate(prices, rs, batch, seen)
    decreases i
  {
    assert Priced(prices, [rs[i]] + Removed(rs, i)) by {
      RemovedMultiset(rs, i);
    }
    if i == 0 {
      assert [rs[i]] + Removed(rs, i) == rs;
    } else {
      var a, tail := rs[0], rs[1..];
      assert rs == [a] + tail;
      assert Priced(prices, tail) by { EstimateCons(prices, a, tail, batch, seen); }
      MoveToFront(prices, tail, i - 1, batch, seen + {KeyOf(a.payload)});
      RemovedTail(rs, i);
      MoveStep(prices, a, rs[i], tail, Removed(tail, i - 1), batch, seen);
    }
  }

  lemma MoveStep(prices: Prices, a: Request, b: Request, tail: seq<Request>, rest: seq<Request>,
                 batch: bool, seen: set<CacheKey>)
    requires Priced(prices, [a] + tail) && Priced(prices, tail) && Priced(prices, [b] + rest)
    requires Priced(prices, [b] + ([a] + rest))
    requires Estimate(prices, [b] + rest, batch, seen + {KeyOf(a.payload)}) ==
             Estimate(prices, tail, batch, seen + {KeyOf(a.payload)})
    ensures Estimate(prices, [b] + ([a] + rest), batch, seen) == Estimate(prices, [a] + tail, batch, seen)
  {
    EstimateCons(prices, a, tail, batch, seen);
    assert [b] + ([a] + rest) == [b, a] + rest;
    assert [a] + ([b] + rest) == [a, b] + rest;
    SwapFirstTwo(prices, a, b, rest, batch, seen);
  }

  /** The estimate is the same for the requests in any order. */
  lemma {:induction false} EstimateIgnoresOrder(prices: Prices, rs: seq<Request>, qs: seq<Request>,
                                                batch: bool, seen: set<CacheKey>)
    requires Priced(prices, rs) && multiset(rs) == multiset(qs)
    ensures Priced(prices, qs) && Estimate(prices, rs, batch, seen) == Estimate(prices, qs, batch, seen)
    decreases |rs|
  {
    PricedSame(prices, rs, qs);
    if rs == [] {
      assert |multiset(qs)| == 0;
    } else {
      var a, tail := rs[0], rs[1..];
      assert a in multiset(qs);
      var i :| 0 <= i < |qs| && qs[i] == a;
      SameRest(rs, qs, i);
      MoveToFront(prices, qs, i, batch, seen);
      EstimateIgnoresOrder(prices, tail, Removed(qs, i), batch, seen + {KeyOf(a.payload)});
    }
  }

  // ------------------------------------------------------ the gate is sound

  /** What came back for one request id: a message with its usage, or an error. */
  datatype Result = Result(id: string, usage: Option<Usage>)

  function UsageOf(results: seq<Result>, id: string): Option<Usage> {
    if results == [] then None
    else if results[0].id == id then results[0].usage
    else UsageOf(results[1..], id)
  }

  /** The stated assumptions about one answer: characters per token, output length. */
  predicate WithinAssumptions(p: Payload, u: Usage) {
    && u.input as real <= AssumedTokens(AllChars(p.messages))
    && (u.cacheWrite + u.cacheRead) as real <= AssumedTokens(Chars(p.system))
    && u.output <= AssumedOutput(p)
  }

  predicate Wrote(results: seq<Result>, r: Request) {
    UsageOf(results, r.id).Some? && UsageOf(results, r.id).value.cacheWrite > 0
  }

  /** Every answer is within the assumptions, and when requests run one at a time, each
      cached prompt is written by at most one of them. */
  ghost predicate Assumed(rs: seq<Request>, results: seq<Result>, batch: bool) {
    && (forall r :: r in rs && UsageOf(results, r.id).Some? ==>
          WithinAssumptions(r.payload, UsageOf(results, r.id).value))
    && (!batch ==> forall i, j :: 0 <= i < j < |rs| && KeyOf(rs[i].payload) == KeyOf(rs[j].payload) ==>
          !(Wrote(results, rs[i]) && Wrote(results, rs[j])))
  }

  /** What the answers cost, request by request. */
  function Spent(prices: Prices, rs: seq<Request>, results: seq<Result>, batch: bool): real
    requires Priced(prices, rs)
  {
    if rs == [] then 0.0
    else
      (match UsageOf(results, rs[0].id)
       case Some(u) => Actual(prices[rs[0].payload.model], u, batch)
       case None => 0.0)
      + Spent(prices, rs[1..], results, batch)
  }

  /** The cost of the requests if exactly the flagged ones write the cache. */
  function Bound(prices: Prices, rs: seq<Request>, flags: seq<bool>, batch: bool): real
    requires Priced(prices, rs) && |flags| == |rs|
  {
    if rs == [] then 0.0
    else
      ItemCost(prices[rs[0].payload.model], rs[0].payload, batch, if flags[0] then 1.25 else 0.1)
      + Bound(prices, rs[1..], flags[1..], batch)
  }

  /** The comparison once every product of a count and a price is a number of its own. */
  lemma CompareCosts(inp: real, w: real, r: real, out: real, msg: real, sys: real, assumed: real,
                     batch: bool, writes: bool)
    requires inp <= msg && 0.0 <= r && 0.0 <= msg && 0.0 <= sys && out <= assumed && 0.0 <= assumed
    requires 0.0 <= w && w + r <= sys && (!writes ==> w == 0.0)
    ensures var item := Estimated(sys, if writes then 1.25 else 0.1, msg, assumed, batch);
            Billed(inp, w, r, out, batch) <= item && 0.0 <= item
  {
  }

  lemma AnswerWithinItem(price: Price, p: Payload, u: Usage, batch: bool, writes: bool)
    requires price.input >= 0.0 && price.output >= 0.0 && WithinAssumptions(p, u)
    requires u.cacheWrite > 0 ==> writes
    ensures Actual(price, u, batch) <= ItemCost(price, p, batch, if writes then 1.25 else 0.1)
    ensures 0.0 <= ItemCost(price, p, batch, if writes then 1.25 else 0.1)
  {
    ProductFacts(price, p, u);
    CompareCosts(At(u.input as real, price.input), At(u.cacheWrite as real, price.input),
                 At(u.cacheRead as real, price.input), At(u.output as real, price.output),
                 At(AssumedTokens(AllChars(p.messages)), price.input), At(AssumedTokens(Chars(p.system)), price.input),
                 At(AssumedOutput(p) as real, price.output), batch, writes);
  }

  lemma ProductFacts(price: Price, p: Payload, u: Usage)
    requires price.input >= 0.0 && price.output >= 0.0 && WithinAssumptions(p, u)
    ensures At(u.input as real, price.input) <= At(AssumedTokens(AllChars(p.messages)), price.input)
    ensures 0.0 <= At(AssumedTokens(AllChars(p.messages)), price.input)
    ensures 0.0 <= At(u.cacheWrite as real, price.input) && 0.0 <= At(u.cacheRead as real, price.input)
    ensures u.cacheWrite == 0 ==> At(u.cacheWrite as real, price.input) == 0.0
    ensures At(u.cacheWrite as real, price.input) + At(u.cacheRead as real, price.input)
            <= At(AssumedTokens(Chars(p.system)), price.input)
    ensures At(u.output as real, price.output) <= At(AssumedOutput(p) as real, price.output)
    ensures 0.0 <= At(AssumedOutput(p) as real, price.output)
  {
    var sys, msg := AssumedTokens(Chars(p.system)), AssumedTokens(AllChars(p.messages));
    AtMonotone(u.input as real, msg, price.input);
    AtMonotone((u.cacheWrite + u.cacheRead) as real, sys, price.input);
    AtMonotone(0.0, u.cacheWrite as real, price.input);
    AtMonotone(0.0, u.cacheRead as real, price.input);
    AtMonotone(u.output as real, AssumedOutput(p) as real, price.output);
    AtMonotone(0.0, AssumedOutput(p) as real, price.output);
  }

  lemma {:induction false} SpentWithinBound(prices: Prices, rs: seq<Request>, results: seq<Result>,
                                            flags: seq<bool>, batch: bool)
    requires Priced(prices, rs) && Nonnegative(prices) && |flags| == |rs|
    requires forall r :: r in rs && UsageOf(results, r.id).Some? ==>
               WithinAssumptions(r.payload, UsageOf(results, r.id).value)
    requires forall i :: 0 <= i < |rs| && Wrote(results, rs[i]) ==> flags[i]
    ensures Spent(prices, rs, results, batch) <= Bound(prices, rs, flags, batch)
  {
    if rs != [] {
      var price, p := prices[rs[0].payload.model], rs[0].payload;
      match UsageOf(results, rs[0].id) {
        case Some(u) => AnswerWithinItem(price, p, u, batch, flags[0]);
        case None => AnswerWithinItem(price, p, Usage(0, 0, 0, 0), batch, flags[0]);
      }
      SpentWithinBound(prices, rs[1..], results, flags[1..], batch);
    }
  }

  /** No flag for a key already seen, and at most one flag per key. */
  ghost predicate OneWriter(rs: seq<Request>, flags: seq<bool>, seen: set<CacheKey>)
    requires |flags| == |rs|
  {
    && (forall i :: 0 <= i < |rs| && KeyOf(rs[i].payload) in seen ==> !flags[i])
    && (forall i, j :: 0 <= i < j < |rs| && KeyOf(rs[i].payload) == KeyOf(rs[j].payload) ==> !(flags[i] && flags[j]))
  }

  /** Unflagging one writer saves the difference between the two rates. */
  lemma {:induction false} Unflag(prices: Prices, rs: seq<Request>, flags: seq<bool>, j: nat, batch: bool)
    requires Priced(prices, rs) && |flags| == |rs| && j < |rs| && flags[j]
    ensures rs[j].payload.model in prices
    ensures Bound(prices, rs, flags, batch) == Bound(prices, rs, flags[j := false], batch)
            + SystemCost(prices[rs[j].payload.model], rs[j].payload, batch) * (1.25 - 0.1)
    decreases j
  {
    var price, p := prices[rs[j].payload.model], rs[j].payload;
    if j == 0 {
      ItemParts(price, p, batch, 1.25);
      ItemParts(price, p, batch, 0.1);
    } else {
      Unflag(prices, rs[1..], flags[1..], j - 1, batch);
    }
  }

  lemma ReadNoMoreThanWrite(price: Price, p: Payload)
    requires price.input >= 0.0
    ensures ItemCost(price, p, false, 1.25) ==
            ItemCost(price, p, false, 0.1) + SystemCost(price, p, false) * (1.25 - 0.1)
    ensures ItemCost(price, p, false, 0.1) <= ItemCost(price, p, false, 1.25)
  {
  }

  /** However the writes fall, one per key, they cost no more than the first request of each
      key writing and the others reading. */
  lemma {:induction false} BoundWithinEstimate(prices: Prices, rs: seq<Request>, flags: seq<bool>, seen: set<CacheKey>)
    requires Priced(prices, rs) && Nonnegative(prices) && |flags| == |rs| && OneWriter(rs, flags, seen)
    ensures Bound(prices, rs, flags, false) <= Estimate(prices, rs, false, seen)
    decreases |rs|
  {
    if rs != [] {
      var p, tail, rest := rs[0].payload, rs[1..], flags[1..];
      var price, key := prices[p.model], KeyOf(p);
      ReadNoMoreThanWrite(price, p);
      if j :| 0 <= j < |tail| && rest[j] && KeyOf(tail[j].payload) == key {
        Unflag(prices, tail, rest, j, false);
        LaterWriter(rs, flags, seen, j);
        BoundWithinEstimate(prices, tail, rest[j := false], seen + {key});
      } else {
        assert OneWriter(tail, rest, seen + {key});
        BoundWithinEstimate(prices, tail, rest, seen + {key});
      }
    }
  }

  /** The first request of a key does not write, a later one does. */
  lemma LaterWriter(rs: seq<Request>, flags: seq<bool>, seen: set<CacheKey>, j: nat)
    requires |flags| == |rs| && rs != [] && OneWriter(rs, flags, seen)
    requires j < |rs| - 1 && flags[j + 1] && KeyOf(rs[j + 1].payload) == KeyOf(rs[0].payload)
    ensures KeyOf(rs[0].payload) !in seen && !flags[0]
    ensures OneWriter(rs[1..], flags[1..][j := false], seen + {KeyOf(rs[0].payload)})
  {
  }

  lemma {:induction false} BatchBoundIsEstimate(prices: Prices, rs: seq<Request>, flags: seq<bool>, seen: set<CacheKey>)
    requires Priced(prices, rs) && |flags| == |rs| && forall i :: 0 <= i < |flags| ==> flags[i]
    ensures Bound(prices, rs, flags, true) == Estimate(prices, rs, true, seen)
    decreases |rs|
  {
    if rs != [] {
      BatchBoundIsEstimate(prices, rs[1..], flags[1..], seen + {KeyOf(rs[0].payload)});
    }
  }

  /** The estimate is pessimistic: within the stated assumptions the answers never cost more. */
  lemma SpentWithinEstimate(prices: Prices, rs: seq<Request>, results: seq<Result>, batch: bool)
    requires Priced(prices, rs) && Nonnegative(prices) && Assumed(rs, results, batch)
    ensures Spent(prices, rs, results, batch) <= Estimate(prices, rs, batch, {})
  {
    var flags := seq(|rs|, i requires 0 <= i < |rs| => batch || Wrote(results, rs[i]));
    SpentWithinBound(prices, rs, results, flags, batch);
    if batch {
      BatchBoundIsEstimate(prices, rs, flags, {});
    } else {
      assert OneWriter(rs, flags, {});
      BoundWithinEstimate(prices, rs, flags, {});
    }
  }

  // ------------------------------------------------------------- accounting

  ghost predicate DistinctIds(rs: seq<Request>) {
    forall i, j :: 0 <= i < j < |rs| ==> rs[i].id != rs[j].id
  }

  ghost predicate DistinctResults(results: seq<Result>) {
    forall i, j :: 0 <= i < j < |results| ==> results[i].id != results[j].id
  }

  /** dict(requests)[id]: the last request wins. */
  function Owner(rs: seq<Request>, id: string): (o: Option<Payload>)
    ensures o.Some? ==> exists r :: r in rs && r.id == id && r.payload == o.value
    ensures o.None? <==> forall r :: r in rs ==> r.id != id
  {
    if rs == [] then None
    else
      var later := Owner(rs[1..], id);
      if later.Some? then later else if rs[0].id == id then Some(rs[0].payload) else None
  }

  /** What one result adds to the bill: nothing for an error or an unknown id. */
  function Share(prices: Prices, rs: seq<Request>, x: Result, batch: bool): real
    requires Priced(prices, rs)
  {
    var o := Owner(rs, x.id);
    if o.Some? && x.usage.Some? then Actual(prices[o.value.model], x.usage.value, batch) else 0.0
  }

  /** The bill as the runner sums it: over the results, in whatever order they arrived. */
  function Bill(prices: Prices, rs: seq<Request>, results: seq<Result>, batch: bool): real
    requires Priced(prices, rs)
  {
    if results == [] then 0.0
    else Share(prices, rs, results[0], batch) + Bill(prices, rs, results[1..], batch)
  }

  /** What the sum is made of: an answer to a request is billed at that request's prices, an
      error or an answer to nobody costs nothing, and results add up. */
  lemma BillAddsUp(prices: Prices, rs: seq<Request>, x: Result, rest: seq<Result>, batch: bool, r: Request)
    requires Priced(prices, rs) && DistinctIds(rs)
    ensures Bill(prices, rs, [], batch) == 0.0
    ensures Bill(prices, rs, [x] + rest, batch) == Bill(prices, rs, [x], batch) + Bill(prices, rs, rest, batch)
    ensures x.usage.None? || (forall q :: q in rs ==> q.id != x.id) ==> Bill(prices, rs, [x], batch) == 0.0
    ensures x.usage.Some? && r in rs && r.id == x.id ==>
              Bill(prices, rs, [x], batch) == Actual(prices[r.payload.model], x.usage.value, batch)
  {
    assert ([x] + rest)[1..] == rest && [x][1..] == [];
    if r in rs && r.id == x.id {
      var q :| q in rs && q.id == x.id && q.payload == Owner(rs, x.id).value;
      var i :| 0 <= i < |rs| && rs[i] == r;
      var j :| 0 <= j < |rs| && rs[j] == q;
    }
  }

  lemma {:induction false} UsageOfAbsent(results: seq<Result>, id: string)
    requires forall x :: x in results ==> x.id != id
    ensures UsageOf(results, id).None?
  {
    if results != [] {
      UsageOfAbsent(results[1..], id);
    }
  }

  lemma {:induction false} SpentWithoutOwner(prices: Prices, rs: seq<Request>, x: Result, rest: seq<Result>,
                                             batch: bool)
    requires Priced(prices, rs) && forall r :: r in rs ==> r.id != x.id
    ensures Spent(prices, rs, [x] + rest, batch) == Spent(prices, rs, rest, batch)
  {
    if rs != [] {
      SpentWithoutOwner(prices, rs[1..], x, rest, batch);
    }
  }

  /** One more result adds its share, whoever it belongs to. */
  lemma {:induction false} SpentGrowsByShare(prices: Prices, rs: seq<Request>, x: Result, rest: seq<Result>,
                                             batch: bool)
    requires Priced(prices, rs) && DistinctIds(rs) && forall y :: y in rest ==> y.id != x.id
    ensures Spent(prices, rs, [x] + rest, batch) == Spent(prices, rs, rest, batch) + Share(prices, rs, x, batch)
  {
    if rs != [] {
      assert rs[0] in rs && ([x] + rest)[1..] == rest;
      if rs[0].id == x.id {
        UsageOfAbsent(rest, x.id);
        SpentWithoutOwner(prices, rs[1..], x, rest, batch);
      } else {
        SpentGrowsByShare(prices, rs[1..], x, rest, batch);
      }
    }
  }

  /** Summing over results is summing over requests: each answer is billed once, to its own. */
  lemma {:induction false} BillIsSpent(prices: Prices, rs: seq<Request>, results: seq<Result>, batch: bool)
    requires Priced(prices, rs) && DistinctIds(rs) && DistinctResults(results)
    ensures Bill(prices, rs, results, batch) == Spent(prices, rs, results, batch)
    decreases |results|
  {
    if results == [] {
      NothingSpent(prices, rs, batch);
    } else {
      assert results == [results[0]] + results[1..];
      BillIsSpent(prices, rs, results[1..], batch);
      SpentGrowsByShare(prices, rs, results[0], results[1..], batch);
    }
  }

  lemma {:induction false} NothingSpent(prices: Prices, rs: seq<Request>, batch: bool)
    requires Priced(prices, rs)
    ensures Spent(prices, rs, [], batch) == 0.0
  {
    if rs != [] {
      NothingSpent(prices, rs[1..], batch);
    }
  }

  // --------------------------------------------------------------- the runner

  method CountChars(c: Content) returns (n: nat)
    ensures n == Chars(c)
  {
    match c {
      case Absent => n := 0;
      case Text(s) => n := |s|;
      case Blocks(bs) =>
        n := 0;
        for i := 0 to |bs|
          invariant n + BlockChars(bs[i..]) == BlockChars(bs)
        {
          n := n + |bs[i].text|;
        }
    }
  }

  /** _chars */
  method PayloadChars(p: Payload) returns (system: nat, messages: nat)
    ensures system == Chars(p.system) && messages == AllChars(p.messages)
  {
    system := CountChars(p.system);
    messages := 0;
    for i := 0 to |p.messages|
      invariant messages + AllChars(p.messages[i..]) == AllChars(p.messages)
    {
      var n := CountChars(p.messages[i]);
      messages := messages + n;
    }
  }

  /** estimate: None when some model has no price, where the runner refuses to guess. */
  method EstimateCost(prices: Prices, rs: seq<Request>, batch: bool) returns (total: Option<real>)
    ensures total.Some? <==> Priced(prices, rs)
    ensures total.Some? ==> total.value == Estimate(prices, rs, batch, {})
  {
    var sum, seen := 0.0, {};
    for i := 0 to |rs|
      invariant forall k :: 0 <= k < i ==> rs[k].payload.model in prices
      invariant Priced(prices, rs) ==> sum + Estimate(prices, rs[i..], batch, seen) == Estimate(prices, rs, batch, {})
    {
      var p := rs[i].payload;
      if p.model !in prices {
        return None;
      }
      var system, messages := PayloadChars(p);
      var key := KeyOf(p);
      var cached := if !batch && key in seen then 0.1 else 1.25;
      seen := seen + {key};
      sum := sum + Estimated(At(AssumedTokens(system), prices[p.model].input), cached,
                             At(AssumedTokens(messages), prices[p.model].input),
                             At(AssumedOutput(p) as real, prices[p.model].output), batch);
    }
    return Some(sum);
  }

  datatype Report = Unpriced | Dry(est: real) | Refused(est: real) | Sent(est: real, act: real)

  /** run, for requests that are sent now: estimate, gate, send, account. `results` is what
      the API returns if the requests are sent. */
  method RunProbe(prices: Prices, rs: seq<Request>, batch: bool, dry: bool, cap: real, results: seq<Result>)
    returns (r: Report)
    requires DistinctResults(results)
    ensures r.Unpriced? <==> !Priced(prices, rs)
    ensures !r.Unpriced? ==> r.est == Estimate(prices, rs, batch, {})
    ensures r.Dry? <==> Priced(prices, rs) && dry
    ensures r.Refused? <==> Priced(prices, rs) && !dry && Estimate(prices, rs, batch, {}) > cap
    ensures r.Sent? ==> r.act == Bill(prices, rs, results, batch)
    ensures r.Sent? && DistinctIds(rs) ==> r.act == Spent(prices, rs, results, batch)
    ensures r.Sent? && DistinctIds(rs) && Nonnegative(prices) && Assumed(rs, results, batch) ==> r.act <= r.est <= cap
  {
    var est := EstimateCost(prices, rs, batch);
    if est.None? {
      return Unpriced;
    }
    if dry {
      return Dry(est.value);
    }
    if est.value > cap {
      return Refused(est.value);
    }
    var act := 0.0;
    for i := 0 to |results|
      invariant act + Bill(prices, rs, results[i..], batch) == Bill(prices, rs, results, batch)
    {
      var owner := Owner(rs, results[i].id);
      if owner.Some? && results[i].usage.Some? {
        act := act + Actual(prices[owner.value.model], results[i].usage.value, batch);
      }
    }
    if DistinctIds(rs) {
      BillIsSpent(prices, rs, results, batch);
      if Nonnegative(prices) && Assumed(rs, results, batch) {
        SpentWithinEstimate(prices, rs, results, batch);
      }
    }
    return Sent(est.value, act);
  }
}
