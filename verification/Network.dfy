/** Placing one Kalshi order over a lossy network: the client's HTTP retries nested
    inside the executor's order retries, all under one client_order_id. */
module Network {
  import opened Journal
  import opened Orders
  import opened Execution

  /** What the exchange decides about an order it has not seen before. */
  datatype Verdict =
    | Fills(qty: nat, price: real, reported: bool)
    | NoFunds | NoVolume | Refuses

  /** What comes back for a post that arrived. `Clear` is the exchange's own answer. `Lost`
      is a timeout, a dropped connection or a 429/502/503/504. `Garbled` is any other error
      status put in its place, or a success body that does not parse: it is raised at once.
      `Bare` is a success without a readable fill count, an empty body included. */
  datatype Answer = Clear | Lost | Garbled | Bare

  /** The fate of one HTTP post. */
  datatype Fate = NotDelivered | Delivered(verdict: Verdict, answer: Answer)

  /** What `_request` returns or raises; `Blank` is a response that reports no fill. */
  datatype Reply =
    | Accepted(qty: nat, avg: Option<real>)
    | Blank
    | FundsError | VolumeError | DuplicateError | OtherError | Transient

  datatype Executed = Executed(coid: nat, order: Order, qty: nat, price: real)

  /** The exchange's order book of this account. */
  datatype Venue = Venue(seen: set<nat>, executed: seq<Executed>)

  function Decide(v: Verdict): Reply {
    match v
    case Fills(qty, price, reported) => Accepted(qty, if reported then Some(price) else None)
    case NoFunds => FundsError
    case NoVolume => VolumeError
    case Refuses => OtherError
  }

  predicate Executes(ex: Venue, coid: nat, f: Fate) {
    f.Delivered? && f.verdict.Fills? && coid !in ex.seen
  }

  /** One post: a repeated client_order_id is refused before anything else. */
  function Serve(ex: Venue, coid: nat, order: Order, f: Fate): (Venue, Reply) {
    if f.NotDelivered? then (ex, Transient)
    else
      var ex' := if Executes(ex, coid, f)
                 then Venue(ex.seen + {coid}, ex.executed + [Executed(coid, order, f.verdict.qty, f.verdict.price)])
                 else ex;
      var reply := match f.answer
        case Clear => if coid in ex.seen then DuplicateError else Decide(f.verdict)
        case Lost => Transient
        case Garbled => OtherError
        case Bare => if Executes(ex, coid, f) then Blank else OtherError;
      (ex', reply)
  }

  /** The simple form: post until an answer is heard, at most `budget` times. The
      network is a stream of fates, read from position k. */
  function Attempt(ex: Venue, coid: nat, order: Order, net: nat -> Fate, k: nat, budget: nat): (Venue, Reply, nat)
    decreases budget
  {
    if budget == 0 then (ex, Transient, k)
    else
      var (ex', reply) := Serve(ex, coid, order, net(k));
      if reply.Transient? then Attempt(ex', coid, order, net, k + 1, budget - 1) else (ex', reply, k + 1)
  }

  /** Spending a budget in two parts is spending it at once. */
  lemma {:induction false} AttemptSplits(ex: Venue, coid: nat, order: Order, net: nat -> Fate, k: nat, first: nat, rest: nat)
    ensures var (ex1, reply, k1) := Attempt(ex, coid, order, net, k, first);
            Attempt(ex, coid, order, net, k, first + rest)
            == if reply.Transient? then Attempt(ex1, coid, order, net, k1, rest) else (ex1, reply, k1)
    decreases first
  {
    if first > 0 {
      var (ex', _) := Serve(ex, coid, order, net(k));
      AttemptSplits(ex', coid, order, net, k + 1, first - 1, rest);
    }
  }

  // ---- a run of posts, told from the fates alone ----

  /** The post is answered in a way that is not retried. */
  predicate Conclusive(f: Fate) {
    f.Delivered? && !f.answer.Lost?
  }

  /** One past the last post sent: the first conclusive one, or the budget. */
  function End(net: nat -> Fate, k: nat, budget: nat): (e: nat)
    ensures k <= e <= k + budget
    decreases budget
  {
    if budget == 0 then k else if Conclusive(net(k)) then k + 1 else End(net, k + 1, budget - 1)
  }

  /** The run ends in the exchange's own answer. */
  predicate EndsClear(net: nat -> Fate, k: nat, budget: nat) {
    var e := End(net, k, budget);
    k < e && net(e - 1).Delivered? && net(e - 1).answer.Clear?
  }

  predicate Filled(f: Fate) {
    f.Delivered? && f.verdict.Fills?
  }

  /** The first of `n` posts to arrive and be filled. */
  function FirstFill(net: nat -> Fate, from: nat, n: nat): (v: Option<Verdict>)
    ensures v.Some? ==> v.value.Fills?
    decreases n
  {
    if n == 0 then None
    else if Filled(net(from)) then Some(net(from).verdict)
    else FirstFill(net, from + 1, n - 1)
  }

  /** No post before the last is conclusive, and the last is unless the budget ran out. */
  lemma {:induction false} EndStops(net: nat -> Fate, k: nat, budget: nat)
    ensures var e := End(net, k, budget);
            && (forall j :: k <= j < e - 1 ==> !Conclusive(net(j)))
            && (e == k + budget || (k < e && Conclusive(net(e - 1))))
    decreases budget
  {
    if budget > 0 && !Conclusive(net(k)) {
      EndStops(net, k + 1, budget - 1);
    }
  }

  lemma {:induction false} FirstFillIff(net: nat -> Fate, from: nat, n: nat)
    ensures FirstFill(net, from, n).Some? <==> exists j :: from <= j < from + n && Filled(net(j))
    decreases n
  {
    if n > 0 && !Filled(net(from)) {
      FirstFillIff(net, from + 1, n - 1);
    }
  }

  /** How a finished run of posts relates to what the exchange has executed: the first
      fill, if any, and nothing else. A clear answer then says so; any other hides it. */
  predicate Settled(before: Venue, after: Venue, coid: nat, order: Order, reply: Reply, first: Option<Verdict>, clear: bool) {
    if first.None? || !first.value.Fills? then
      after == before && !reply.Accepted? && !reply.DuplicateError? && !reply.Blank?
    else
      && after == Venue(before.seen + {coid},
                        before.executed + [Executed(coid, order, first.value.qty, first.value.price)])
      && (clear <==> reply.Accepted? || reply.DuplicateError?)
      && (!clear <==> reply.Blank? || reply.OtherError? || reply.Transient?)
      && (reply.Accepted? ==> reply.qty == first.value.qty && (reply.avg.None? || reply.avg.value == first.value.price))
  }

  /** A client_order_id the exchange knows is never executed again, and only a clear
      answer says that it is known. */
  lemma {:induction false} KnownIdNeverExecutes(ex: Venue, coid: nat, order: Order, net: nat -> Fate, k: nat, budget: nat)
    requires coid in ex.seen
    ensures var (ex', reply, k') := Attempt(ex, coid, order, net, k, budget);
            && ex' == ex && k' == End(net, k, budget)
            && (reply.DuplicateError? || reply.OtherError? || reply.Transient?)
            && (reply.DuplicateError? <==> EndsClear(net, k, budget))
    decreases budget
  {
    if budget > 0 && !Conclusive(net(k)) {
      KnownIdNeverExecutes(ex, coid, order, net, k + 1, budget - 1);
    }
  }

  function FillOf(f: Fate): Option<Verdict> {
    if Filled(f) then Some(f.verdict) else None
  }

  /** One post under a new id: it settles on its own fill, and is answered clearly only by
      a clear answer; it is retried exactly when it is not conclusive. */
  lemma OnePost(ex: Venue, coid: nat, order: Order, f: Fate)
    requires coid !in ex.seen
    ensures var (ex', reply) := Serve(ex, coid, order, f);
            && Settled(ex, ex', coid, order, reply, FillOf(f), f.Delivered? && f.answer.Clear?)
            && (reply.Transient? <==> !Conclusive(f))
            && (Filled(f) ==> coid in ex'.seen)
            && (!Filled(f) ==> ex' == ex)
  {
  }

  /** At most once: whatever becomes of requests and answers, a run of posts under a new
      client_order_id executes the first fill to arrive, if any, and nothing more. An
      acceptance or a duplicate answer means exactly one execution; insufficient funds or
      volume means none; any other error says nothing either way. */
  lemma {:induction false} AtMostOnce(ex: Venue, coid: nat, order: Order, net: nat -> Fate, k: nat, budget: nat)
    requires coid !in ex.seen
    ensures var (ex', reply, k') := Attempt(ex, coid, order, net, k, budget);
            && k' == End(net, k, budget)
            && Settled(ex, ex', coid, order, reply, FirstFill(net, k, k' - k), EndsClear(net, k, budget))
    decreases budget
  {
    if budget > 0 {
      var f := net(k);
      OnePost(ex, coid, order, f);
      if Conclusive(f) {
        assert FirstFill(net, k, 1) == FillOf(f);
      } else if Filled(f) {
        KnownIdNeverExecutes(Serve(ex, coid, order, f).0, coid, order, net, k + 1, budget - 1);
        assert FirstFill(net, k, End(net, k, budget) - k) == FillOf(f);
      } else {
        AtMostOnce(ex, coid, order, net, k + 1, budget - 1);
        assert FirstFill(net, k, End(net, k, budget) - k) == FirstFill(net, k + 1, End(net, k, budget) - k - 1);
      }
    }
  }

  /** The exception types `submit` tells apart. */
  function PlacedOf(reply: Reply): Placed {
    match reply
    case Accepted(qty, avg) => Posted(qty, avg)
    case Blank => Unreported
    case FundsError => InsufficientFunds
    case VolumeError => NotFilled
    case DuplicateError => Duplicate
    case _ => Failed
  }

  /** The order call leads to a voided entry. */
  predicate Voids(placed: Placed) {
    !placed.Duplicate? && (placed.Posted? ==> placed.qty == 0)
  }

  /** Contracts the exchange has executed in the run, in hundredths. */
  function ExecutedQty(before: Venue, after: Venue): nat {
    if |after.executed| > |before.executed| then after.executed[|before.executed|].qty else 0
  }

  /** Some post arrived and was filled with contracts, and the answer that ended the
      posting, if any did, was not the exchange's own. */
  predicate HidesFill(net: nat -> Fate, k: nat, budget: nat) {
    var first := FirstFill(net, k, End(net, k, budget) - k);
    first.Some? && first.value.qty > 0 && !EndsClear(net, k, budget)
  }

  /** "Nothing was placed" fails for a voided entry if and only if the fates of its posts
      hide a fill. */
  lemma PhantomIff(ex: Venue, coid: nat, order: Order, net: nat -> Fate, k: nat, budget: nat)
    requires coid !in ex.seen
    ensures var (ex', reply, _) := Attempt(ex, coid, order, net, k, budget);
            Voids(PlacedOf(reply)) && ExecutedQty(ex, ex') > 0 <==> HidesFill(net, k, budget)
  {
    AtMostOnce(ex, coid, order, net, k, budget);
  }

  /** A filled order whose success status is replaced by an internal server error: one
      post, no retry, the entry voided, five contracts held. */
  lemma ServerErrorHidesFill(coid: nat, order: Order)
    ensures var net := (j: nat) => Delivered(Fills(500, 0.5, true), Garbled);
            var (after, reply, posts) := Attempt(Venue({}, []), coid, order, net, 0, 9);
            posts == 1 && Voids(PlacedOf(reply)) && ExecutedQty(Venue({}, []), after) == 500
  {
    var net := (j: nat) => Delivered(Fills(500, 0.5, true), Garbled);
    AtMostOnce(Venue({}, []), coid, order, net, 0, 9);
    assert Conclusive(net(0));
  }

  function AtLeastOne(n: int): nat {
    if n < 1 then 1 else n
  }

  /** Posts left after `used` rounds of `inner` posts out of `outer`. */
  function Budget(outer: nat, used: nat, inner: nat): nat
    requires used <= outer
  {
    (outer - used) * inner
  }

  lemma BudgetStep(outer: nat, used: nat, inner: nat)
    requires used < outer
    ensures Budget(outer, used, inner) == inner + Budget(outer, used + 1, inner)
  {
  }

  class KalshiClient {
    var venue: Venue
    var posts: nat
    const net: nat -> Fate
    const retryMaxAttempts: int

    constructor (venue: Venue, net: nat -> Fate, retryMaxAttempts: int)
      ensures this.venue == venue && this.net == net && this.retryMaxAttempts == retryMaxAttempts && posts == 0
    {
      this.venue, this.net, this.retryMaxAttempts, posts := venue, net, retryMaxAttempts, 0;
    }

    method Request(coid: nat, order: Order) returns (reply: Reply)
      modifies this
      ensures (venue, reply) == Serve(old(venue), coid, order, net(old(posts)))
      ensures posts == old(posts) + 1
    {
      var (ex, r) := Serve(venue, coid, order, net(posts));
      venue, reply, posts := ex, r, posts + 1;
    }

    /** `_retrying_request`: retried on transient errors, `retry_max_attempts` in all. */
    method RetryingRequest(coid: nat, order: Order) returns (reply: Reply)
      modifies this
      ensures (venue, reply, posts) == Attempt(old(venue), coid, order, net, old(posts), AtLeastOne(retryMaxAttempts))
    {
      var attempt := 1;
      reply := Request(coid, order);
      while reply.Transient? && attempt < retryMaxAttempts
        invariant 1 <= attempt <= AtLeastOne(retryMaxAttempts)
        invariant Attempt(old(venue), coid, order, net, old(posts), AtLeastOne(retryMaxAttempts))
               == if reply.Transient?
                  then Attempt(venue, coid, order, net, posts, AtLeastOne(retryMaxAttempts) - attempt)
                  else (venue, reply, posts)
      {
        reply := Request(coid, order);
        attempt := attempt + 1;
      }
    }

    /** The order loop around it: the same id again, `max_order_retries` in all. The
        two nested loops are one run of at most the product of posts. */
    method PostOrder(coid: nat, order: Order, maxOrderRetries: int) returns (reply: Reply)
      modifies this
      ensures (venue, reply, posts)
           == Attempt(old(venue), coid, order, net, old(posts), MaxPosts(maxOrderRetries))
    {
      ghost var outer, inner := AtLeastOne(maxOrderRetries), AtLeastOne(retryMaxAttempts);
      var attempt := 0;
      while true
        invariant 0 <= attempt < outer
        invariant Attempt(old(venue), coid, order, net, old(posts), Budget(outer, 0, inner))
               == Attempt(venue, coid, order, net, posts, Budget(outer, attempt, inner))
        decreases outer - attempt
      {
        BudgetStep(outer, attempt, inner);
        AttemptSplits(venue, coid, order, net, posts, inner, Budget(outer, attempt + 1, inner));
        reply := RetryingRequest(coid, order);
        if !reply.Transient? {
          return;
        }
        attempt := attempt + 1;
        if attempt >= maxOrderRetries {
          assert Budget(outer, attempt, inner) == 0;
          return;
        }
      }
    }

    function MaxPosts(maxOrderRetries: int): nat {
      Budget(AtLeastOne(maxOrderRetries), 0, AtLeastOne(retryMaxAttempts))
    }
  }
}
