/** The wallet signs challenges within its limits; the interceptor absorbs one 402 and replays once. */
module Wallets {
  import opened Wrappers
  import opened Json
  import opened Conversions
  import opened Crypto
  import opened Price
  import opened Proof

  datatype WalletState = WalletState(
    agentId: string, secret: string, currency: string, maxPrice: int, budget: Option<int>, spent: int)

  datatype WalletError =
    | BadQuote(reason: PriceError) | OtherCurrency | StaleChallenge | PriceTooHigh | BudgetExceeded | SpentOverflow

  /** The limits checked before signing, in their order. */
  function Permitted(w: WalletState, c: Challenge, now: int): Result<int, WalletError> {
    match c.Price()
    case Err(e) => Err(BadQuote(e))
    case Ok(price) =>
      if price.currency != w.currency then Err(OtherCurrency)
      else if c.Expired(now) then Err(StaleChallenge)
      else if price.amount > w.maxPrice then Err(PriceTooHigh)
      else if w.budget.Some? && w.spent + price.amount > w.budget.value then Err(BudgetExceeded)
      else Ok(price.amount)
  }

  /** Signing comes before the running total is updated, and no header leaves when that update raises. */
  function AfterSigning(crypto: Crypto, w: WalletState, c: Challenge, amount: int, signedAt: int)
    : (WalletState, Result<string, WalletError>)
  {
    match Quantize(w.spent + amount)
    case Err(_) => (w, Err(SpentOverflow))
    case Ok(spent) => (w.(spent := spent), Ok(SignProof(crypto, c, w.agentId, w.secret, signedAt)))
  }

  function AfterAuthorize(crypto: Crypto, w: WalletState, c: Challenge, now: int, signedAt: int)
    : (WalletState, Result<string, WalletError>)
  {
    match Permitted(w, c, now)
    case Err(e) => (w, Err(e))
    case Ok(amount) => AfterSigning(crypto, w, c, amount, signedAt)
  }

  class Wallet {
    const agentId: string
    const secret: string
    const currency: string
    const maxPrice: int
    const budget: Option<int>
    var spent: int

    function View(): WalletState
      reads this
    {
      WalletState(agentId, secret, currency, maxPrice, budget, spent)
    }

    constructor (agentId: string, secret: string, currency: string, maxPrice: int, budget: Option<int>)
      ensures View() == WalletState(agentId, secret, currency, maxPrice, budget, 0)
    {
      this.agentId, this.secret, this.currency := agentId, secret, currency;
      this.maxPrice, this.budget := maxPrice, budget;
      spent := 0;
    }

    /** The refusals of `authorize`, in their order. */
    method Check(c: Challenge, now: int) returns (r: Result<int, WalletError>)
      ensures r == Permitted(View(), c, now)
    {
      var quoted := c.Price();
      if quoted.Err? {
        return Err(BadQuote(quoted.error));
      }
      var price := quoted.value;
      if price.currency != currency {
        return Err(OtherCurrency);
      }
      if c.Expired(now) {
        return Err(StaleChallenge);
      }
      if price.amount > maxPrice {
        return Err(PriceTooHigh);
      }
      if budget.Some? && spent + price.amount > budget.value {
        return Err(BudgetExceeded);
      }
      return Ok(price.amount);
    }

    method Authorize(crypto: Crypto, c: Challenge, now: int, signedAt: int) returns (r: Result<string, WalletError>)
      modifies this
      ensures (View(), r) == AfterAuthorize(crypto, old(View()), c, now, signedAt)
    {
      var permitted := Check(c, now);
      if permitted.Err? {
        return Err(permitted.error);
      }
      r := Sign(crypto, c, permitted.value, signedAt);
    }

    method Sign(crypto: Crypto, c: Challenge, amount: int, signedAt: int) returns (r: Result<string, WalletError>)
      modifies this
      ensures (View(), r) == AfterSigning(crypto, old(View()), c, amount, signedAt)
    {
      var header := SignProof(crypto, c, agentId, secret, signedAt);
      var total := Quantize(spent + amount);
      if total.Err? {
        return Err(SpentOverflow);
      }
      spent := total.value;
      return Ok(header);
    }
  }

  // ---------------------------------------------------------------- the interceptor

  const PAYMENT_REQUIRED := 402

  /** A response body that could not be read as JSON is None. */
  datatype Response = Response(status: int, body: Option<Json>)

  datatype PayError = NoChallenge | UnreadableExpiry(why: NumberError) | Refused(reason: WalletError) | PaymentFailed

  /** A server as the interceptor sees it: what it answers to a request carrying this payment header. */
  type Server = Option<string> -> Response

  datatype Exchange = Exchange(wallet: WalletState, result: Result<Response, PayError>, sent: seq<Option<string>>)

  /** Only a ValueError becomes a failed payment; the other exceptions of `int` reach the caller as they are. */
  function ChallengeIn(python: Python, response: Response, now: int, ttl: int): Result<Challenge, PayError> {
    if response.body.None? then Err(NoChallenge)
    else match ChallengeFromDict(python, response.body.value, now, ttl)
      case Err(Unusable) => Err(NoChallenge)
      case Err(Raised(why)) => Err(UnreadableExpiry(why))
      case Ok(c) => Ok(c)
  }

  function AfterPay(crypto: Crypto, send: Server, w: WalletState, now: int, ttl: int, signedAt: int): Exchange {
    var first := send(None);
    if first.status != PAYMENT_REQUIRED then Exchange(w, Ok(first), [None])
    else
      match ChallengeIn(crypto.python, first, now, ttl)
      case Err(e) => Exchange(w, Err(e), [None])
      case Ok(c) =>
        var (w', signed) := AfterAuthorize(crypto, w, c, now, signedAt);
        match signed
        case Err(e) => Exchange(w', Err(Refused(e)), [None])
        case Ok(header) =>
          var second := send(Some(header));
          Exchange(w', if second.status == PAYMENT_REQUIRED then Err(PaymentFailed) else Ok(second),
                   [None, Some(header)])
  }

  method PayAndRetry(crypto: Crypto, send: Server, wallet: Wallet, now: int, ttl: int, signedAt: int)
    returns (r: Result<Response, PayError>, sent: seq<Option<string>>)
    modifies wallet
    ensures Exchange(wallet.View(), r, sent) == AfterPay(crypto, send, old(wallet.View()), now, ttl, signedAt)
  {
    hide AfterAuthorize, ChallengeIn;
    var first := send(None);
    sent := [None];
    if first.status != PAYMENT_REQUIRED {
      return Ok(first), sent;
    }
    var c := ChallengeIn(crypto.python, first, now, ttl);
    if c.Err? {
      return Err(c.error), sent;
    }
    var header := wallet.Authorize(crypto, c.value, now, signedAt);
    if header.Err? {
      return Err(Refused(header.error)), sent;
    }
    var second := send(Some(header.value));
    sent := sent + [Some(header.value)];
    if second.status == PAYMENT_REQUIRED {
      return Err(PaymentFailed), sent;
    }
    return Ok(second), sent;
  }

  // ---------------------------------------------------------------- the client

  type Headers = map<string, string>

  const HEADER := "X-InterMesh-Payment"

  /** A server as the client reaches it: what it answers to a request with these headers. */
  type Http = Headers -> Response

  function Extra(payment: Option<string>): Headers {
    if payment.Some? then map[HEADER := payment.value] else map[]
  }

  function Extras(sent: seq<Option<string>>): (r: seq<Headers>)
    ensures |r| == |sent| && forall i :: 0 <= i < |sent| ==> r[i] == Extra(sent[i])
  {
    seq(|sent|, i requires 0 <= i < |sent| => Extra(sent[i]))
  }

  /**
    What successive sends carry: the first one takes the caller's headers out of the arguments, and none are
    left after it.
  */
  function Carried(left: Headers, extras: seq<Headers>): seq<Headers> {
    if extras == [] then [] else [left + extras[0]] + Carried(map[], extras[1..])
  }

  /** The sends of one call, as the interceptor uses them: without a payment first, and with one after. */
  function SendWith(http: Http, headers: Headers): Server {
    (payment: Option<string>) => http(if payment.None? then headers else Extra(payment))
  }

  method Request(crypto: Crypto, http: Http, headers: Headers, wallet: Wallet, now: int, ttl: int, signedAt: int)
    returns (r: Result<Response, PayError>, carried: seq<Headers>)
    modifies wallet
    ensures var x := AfterPay(crypto, SendWith(http, headers), old(wallet.View()), now, ttl, signedAt);
      wallet.View() == x.wallet && r == x.result && carried == Carried(headers, Extras(x.sent))
  {
    hide AfterPay;
    var sent;
    r, sent := PayAndRetry(crypto, SendWith(http, headers), wallet, now, ttl, signedAt);
    carried := Carried(headers, Extras(sent));
  }

  /**
    The first request carries the caller's headers as they are; a replay carries the payment and none of
    them; and each is answered for the headers it carries.
  */
  lemma {:induction false} ReplayCarriesPaymentOnly(crypto: Crypto, http: Http, headers: Headers, w: WalletState,
                                                    now: int, ttl: int, signedAt: int)
    ensures var x := AfterPay(crypto, SendWith(http, headers), w, now, ttl, signedAt);
      var carried := Carried(headers, Extras(x.sent));
      && (x.sent == [None] || (|x.sent| == 2 && x.sent[0] == None && x.sent[1].Some?))
      && carried == (if |x.sent| == 1 then [headers] else [headers, map[HEADER := x.sent[1].value]])
      && forall i :: 0 <= i < |x.sent| ==> SendWith(http, headers)(x.sent[i]) == http(carried[i])
  {
    hide AfterAuthorize, ChallengeIn;
    var x := AfterPay(crypto, SendWith(http, headers), w, now, ttl, signedAt);
    assert headers + map[] == headers;
    if |x.sent| == 1 {
      CarriedOnce(headers, Extras(x.sent));
    } else {
      CarriedTwice(headers, Extras(x.sent));
      assert map[] + Extra(x.sent[1]) == Extra(x.sent[1]);
    }
  }

  lemma {:induction false} CarriedOnce(left: Headers, extras: seq<Headers>)
    requires |extras| == 1
    ensures Carried(left, extras) == [left + extras[0]]
  {
    assert extras[1..] == [];
  }

  lemma {:induction false} CarriedTwice(left: Headers, extras: seq<Headers>)
    requires |extras| == 2
    ensures Carried(left, extras) == [left + extras[0], map[] + extras[1]]
  {
    CarriedOnce(map[], extras[1..]);
  }

  // ---------------------------------------------------------------- what the limits guarantee

  /** Whatever the server asks, one exchange costs at most the limit per request and never passes the budget. */
  lemma {:induction false} OneExchangeIsBounded(crypto: Crypto, send: Server, w: WalletState, now: int, ttl: int,
                                                signedAt: int)
    ensures var x := AfterPay(crypto, send, w, now, ttl, signedAt);
      && w.spent <= x.wallet.spent
      && x.wallet.(spent := 0) == w.(spent := 0)
      && (x.wallet.spent > w.spent ==> x.wallet.spent - w.spent <= w.maxPrice && |x.sent| == 2)
      && (x.wallet.spent > w.spent && w.budget.Some? ==> x.wallet.spent <= w.budget.value)
  {
    var first := send(None);
    if first.status == PAYMENT_REQUIRED && ChallengeIn(crypto.python, first, now, ttl).Ok? {
      AuthorizeBounded(crypto, w, ChallengeIn(crypto.python, first, now, ttl).value, now, signedAt);
    }
  }

  lemma {:induction false} AuthorizeBounded(crypto: Crypto, w: WalletState, c: Challenge, now: int, signedAt: int)
    ensures var (w', r) := AfterAuthorize(crypto, w, c, now, signedAt);
      && w'.(spent := 0) == w.(spent := 0)
      && (r.Err? ==> w' == w)
      && (r.Ok? ==>
            && c.Price().Ok? && c.Price().value.currency == w.currency
            && 0 <= c.Price().value.amount <= w.maxPrice && !c.Expired(now)
            && w'.spent == w.spent + c.Price().value.amount < PRECISION_LIMIT
            && (w.budget.Some? ==> w'.spent <= w.budget.value)
            && r.value == SignProof(crypto, c, w.agentId, w.secret, signedAt))
  {
  }

  /** The quote of the challenge can be read, in the wallet's currency, and it is neither late nor too much. */
  predicate Affordable(w: WalletState, c: Challenge, now: int) {
    var quote := ParseText(c.amount + (" " + c.currency), "USD");
    && quote.Ok? && quote.value.currency == w.currency && now <= c.expiresAt && quote.value.amount <= w.maxPrice
    && (w.budget.Some? ==> w.spent + quote.value.amount <= w.budget.value)
    && -PRECISION_LIMIT < w.spent + quote.value.amount < PRECISION_LIMIT
  }

  /**
    The wallet signs a challenge if and only if it can be read in its currency, has not expired, is within the
    limit per request and the budget, and the running total fits the decimal context; then it counts the
    amount, and otherwise nothing changes.
  */
  lemma {:induction false} AuthorizeIff(crypto: Crypto, w: WalletState, c: Challenge, now: int, signedAt: int)
    ensures var (w', r) := AfterAuthorize(crypto, w, c, now, signedAt);
      && (r.Ok? <==> Affordable(w, c, now))
      && (r.Err? ==> w' == w)
      && (r.Ok? ==>
            && w' == w.(spent := w.spent + ParseText(c.amount + (" " + c.currency), "USD").value.amount)
            && r.value == SignProof(crypto, c, w.agentId, w.secret, signedAt))
  {
    hide ParseText, SignProof;
  }

  /**
    One call of the client: an answer other than 402 is returned as it is; a 402 with a challenge that the
    wallet can afford is paid once, and the second answer returned unless it is 402 again; any other 402
    fails, and costs nothing.
  */
  lemma {:induction false} PaysIff(crypto: Crypto, send: Server, w: WalletState, now: int, ttl: int, signedAt: int)
    ensures var x, first := AfterPay(crypto, send, w, now, ttl, signedAt), send(None);
      var read := if first.body.Some? then ChallengeFromDict(crypto.python, first.body.value, now, ttl)
        else Err(Unusable);
      if first.status != 402 then x == Exchange(w, Ok(first), [None])
      else if read.Ok? && Affordable(w, read.value, now) then
        && |x.sent| == 2 && x.sent[0] == None
        && x.sent[1] == Some(SignProof(crypto, read.value, w.agentId, w.secret, signedAt))
        && x.wallet == AfterAuthorize(crypto, w, read.value, now, signedAt).0
        && x.result == if send(x.sent[1]).status == 402 then Err(PaymentFailed) else Ok(send(x.sent[1]))
      else x.wallet == w && x.result.Err? && x.sent == [None]
  {
    hide ParseText, SignProof, AfterAuthorize, Affordable, ChallengeFromDict;
    var first := send(None);
    if first.body.Some? && ChallengeFromDict(crypto.python, first.body.value, now, ttl).Ok? {
      var c := ChallengeFromDict(crypto.python, first.body.value, now, ttl).value;
      AuthorizeIff(crypto, w, c, now, signedAt);
      assert AfterAuthorize(crypto, w, c, now, signedAt).1.Err? ==> AfterAuthorize(crypto, w, c, now, signedAt).0 == w;
    }
  }
}
