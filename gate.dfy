/** The HTTP 402 "Payment Required" gate (section 15.5.3 of RFC 9110) in
    front of image generation: `POST` in app/api/generate/route.ts:163-296,
    with the module-level set of redeemed nonces (route.ts:8). */
module PaymentGate {
  import opened Wrappers
  import opened JsValues
  import opened Nonces
  import opened Verifiers
  import opened Licenses
  import Units

  // ---- configuration, requests and responses --------------------------------

  /** The process environment settings the handler reads. */
  datatype Env = Env(
    recipientAddress: Option<string>,        // RECIPIENT_ADDRESS (Base)
    solanaRecipientAddress: Option<string>,  // SOLANA_RECIPIENT_ADDRESS
    paymentAmount: Option<string>,           // NEXT_PUBLIC_PAYMENT_AMOUNT
    usdcAddress: Option<string>,             // NEXT_PUBLIC_USDC_ADDRESS
    jwtSecret: Option<string>)               // JWT_SECRET

  /** A setting that is present and not the empty string (JavaScript truthiness). */
  predicate IsSet(v: Option<string>)
  {
    v.Some? && v.value != ""
  }

  const DefaultPrice := "0.1"

  /** The price `Price` falls back to is 100000 USDC base units. */
  lemma DefaultPriceUnits()
    ensures Units.ParseUnits6(DefaultPrice) == Some(100000)
  {
    var body := DefaultPrice;
    assert Units.DotIndex(body) == 1 by { Units.DotIndexAt(body, 1); }
    assert body[..1] == "0" && body[2..] == "1";
    assert Units.DigitsValue("0") == 0 by { assert "0"[..0] == ""; }
    assert Units.DigitsValue("1") == 1 by { assert "1"[..0] == ""; }
    assert "1"[..1] == "1";
    assert Units.Pow10(5) == 100000;
  }

  /** `process.env.NEXT_PUBLIC_PAYMENT_AMOUNT || '0.1'`. */
  function Price(env: Env): (amount: string)
    ensures amount != ""
    ensures IsSet(env.paymentAmount) ==> amount == env.paymentAmount.value
  {
    if IsSet(env.paymentAmount) then env.paymentAmount.value else DefaultPrice
  }

  /** An incoming request. `bodyReadable` says that `await request.json()`
      succeeds and yields a value that `const { model, prompt } = body` can
      destructure (anything but null); `header` is `headers.get('X-PAYMENT')`. */
  datatype Request = Request(bodyReadable: bool, header: Option<string>)

  /** What the two chains' RPC nodes report about the submitted transaction. */
  datatype ChainView = ChainView(evm: EvmView, solana: SolanaView)

  /** One entry of the 402 response's `accepts` list; `expires` in Unix seconds. */
  datatype Offer = Offer(chain: string, token: string, recipient: string, amount: string,
                         nonce: string, expires: int)

  datatype Body =
    | Accepts(offers: seq<Offer>)
    | Failure(error: string)
    | Granted(license: string, expiresIn: int, allowInference: bool, message: string)

  datatype Response = Response(status: int, body: Body)

  /** Challenge lifetime in seconds, and license lifetime in seconds. */
  const ChallengeTtl := 300
  const LicenseTtl := 300

  const Base := JStr("base")
  const Solana := JStr("solana")
  const Usdc := JStr("USDC")

  /** The outer `catch` (route.ts:289-295); the exception text is not modelled. */
  function InternalError(): Response
  {
    Response(500, Failure("Internal server error"))
  }

  const ConfigError := Response(500, Failure("Server configuration error: Recipient addresses not set"))

  // ---- the pieces of the guard chain ------------------------------------------

  /** No `X-PAYMENT` header: `get` returned null or the empty string. */
  predicate NoProof(header: Option<string>)
  {
    header.None? || header.value == ""
  }

  /** The fields `const { chain, token, tx, signature, nonce } = payment` reads. */
  datatype Proof = Proof(chain: Field, token: Field, tx: Field, signature: Field, nonce: Field)

  /** `JSON.parse(paymentHeader)` and the destructuring; `None` where either
      throws (text that is not JSON; the JSON value null). */
  function ParseProof(c: Codec, header: string): (p: Option<Proof>)
    ensures p.None? <==> c.parse(header) in {None, Some(JNull)}
  {
    match c.parse(header)
    case None => None
    case Some(j) =>
      if j == JNull then None
      else Some(Proof(Property(j, "chain"), Property(j, "token"), Property(j, "tx"),
                      Property(j, "signature"), Property(j, "nonce")))
  }

  /** The message of the first failing field check (route.ts:216-236). */
  function ShapeError(p: Proof): (error: Option<string>)
    ensures error.None? ==> Truthy(p.chain) && Truthy(p.token) && Truthy(p.nonce)
    ensures error.None? && p.chain == Some(Base) ==> Truthy(p.tx)
    ensures error.None? && p.chain == Some(Solana) ==> Truthy(p.signature)
    ensures error.Some? ==> !Truthy(p.chain) || !Truthy(p.token) || !Truthy(p.nonce)
                            || (p.chain == Some(Base) && !Truthy(p.tx))
                            || (p.chain == Some(Solana) && !Truthy(p.signature))
  {
    if !Truthy(p.chain) || !Truthy(p.token) || !Truthy(p.nonce) then Some("Invalid payment header")
    else if p.chain == Some(Base) && !Truthy(p.tx) then Some("Missing transaction hash for Base chain")
    else if p.chain == Some(Solana) && !Truthy(p.signature) then Some("Missing signature for Solana chain")
    else None
  }

  /** The chain is `base` or `solana` and the token is `USDC` (route.ts:247). */
  predicate Supported(p: Proof)
    ensures Supported(p) ==> Truthy(p.chain) && Truthy(p.token)
  {
    (p.chain == Some(Base) || p.chain == Some(Solana)) && p.token == Some(Usdc)
  }

  /** The comparison is strict: a different letter case or a non-string
      value is unsupported. */
  lemma SupportIsExact(p: Proof)
    ensures !Supported(p.(chain := Some(JStr("Base"))))
    ensures !Supported(p.(token := Some(JStr("usdc"))))
    ensures !Supported(p.(chain := Some(JArr([Base]))))
  {
  }

  /** The verifier the chain selects, with the configured recipient and price
      (route.ts:255-264). */
  predicate Verdict(p: Proof, env: Env, view: ChainView)
    ensures Verdict(p, env, view) ==> p.chain == Some(Base) || p.chain == Some(Solana)
    ensures Verdict(p, env, view) && p.chain == Some(Base) ==> Units.ParseUnits6(Price(env)).Some?
  {
    if p.chain == Some(Base) then VerifyEvm(view.evm, env.recipientAddress, Price(env), env.usdcAddress)
    else p.chain == Some(Solana) && VerifySolana(view.solana, env.solanaRecipientAddress, Price(env))
  }

  /** Each chain consults only its own verifier: what the other chain's node
      reports never changes the verdict. */
  lemma VerdictSelectsChain(p: Proof, env: Env, v1: ChainView, v2: ChainView)
    ensures p.chain == Some(Base) && v1.evm == v2.evm ==> Verdict(p, env, v1) == Verdict(p, env, v2)
    ensures p.chain == Some(Solana) && v1.solana == v2.solana ==> Verdict(p, env, v1) == Verdict(p, env, v2)
  {
  }

  /** The keys `usedNonces.add(v)` makes observable: a later `has` can only
      find a primitive, since every parsed array or object is a fresh object. */
  function KeyOf(v: Json): set<Json>
  {
    if Primitive(v) then {v} else {}
  }

  /** The 402 challenge, or the configuration error when either recipient is
      unset (route.ts:171-208). `Math.floor(Date.now() / 1000)` is integer
      division here, which rounds down for a positive divisor. */
  function Challenge(env: Env, nonce: string, clock: Clock): (r: Response)
    ensures r.status == 402 <==> IsSet(env.recipientAddress) && IsSet(env.solanaRecipientAddress)
    ensures r.status != 402 ==> r == ConfigError
    ensures r.status == 402 ==>
      && r.body.Accepts? && |r.body.offers| == 2
      && r.body.offers[0].chain == "base" && r.body.offers[1].chain == "solana"
      && r.body.offers[0].recipient == env.recipientAddress.value
      && r.body.offers[1].recipient == env.solanaRecipientAddress.value
      && (forall o :: o in r.body.offers ==>
            o.nonce == nonce && o.token == "USDC" && o.amount == Price(env))
      && r.body.offers[0].expires * 1000 <= clock.first + ChallengeTtl * 1000 < (r.body.offers[0].expires + 1) * 1000
      && r.body.offers[1].expires * 1000 <= clock.second + ChallengeTtl * 1000 < (r.body.offers[1].expires + 1) * 1000
      && (clock.first == clock.second ==> r.body.offers[0].expires == r.body.offers[1].expires)
  {
    if !IsSet(env.recipientAddress) || !IsSet(env.solanaRecipientAddress) then ConfigError
    else
      Response(402, Accepts([
        Offer("base", "USDC", env.recipientAddress.value, Price(env), nonce, clock.first / 1000 + ChallengeTtl),
        Offer("solana", "USDC", env.solanaRecipientAddress.value, Price(env), nonce, clock.second / 1000 + ChallengeTtl)]))
  }

  // ---- the handler ------------------------------------------------------------

  /** The request handler with its nonce ledger. Requests are handled one at a
      time, each from start to finish. */
  class Gate {
    /** `usedNonces`: the nonces of every proof that earned a license. */
    var usedNonces: set<Json>
    /** The nonce of every license issued so far, in order. */
    ghost var licensed: seq<Json>

    /** The ledger holds truthy primitive values only, exactly the primitive
        nonces licensed so far, and no primitive nonce earned two licenses. */
    ghost predicate Valid()
      reads this
    {
      && (forall k :: k in usedNonces ==> Primitive(k) && Truthy(Some(k)))
      && (forall k :: k in usedNonces ==> k in licensed)
      && (forall i :: 0 <= i < |licensed| && Primitive(licensed[i]) ==> licensed[i] in usedNonces)
      && (forall i, j :: 0 <= i < j < |licensed| && Primitive(licensed[i]) ==> licensed[i] != licensed[j])
    }

    /** The ledger starts empty when the module is loaded. */
    constructor ()
      ensures Valid() && usedNonces == {} && licensed == []
    {
      usedNonces := {};
      licensed := [];
    }

    /** `POST /api/generate`. `clock` holds the two `Date.now()` readings,
        `entropy` the bytes `crypto.randomBytes(16)` would return, `view` what
        the RPC nodes report, and `c` the encoders. `consulted` records whether
        a chain verifier was called. */
    method Post(req: Request, env: Env, clock: Clock, entropy: seq<byte>, view: ChainView, c: Codec)
      returns (resp: Response, ghost consulted: bool)
      requires Valid()
      requires |entropy| == NonceBytes
      modifies this
      ensures Valid()
      ensures old(usedNonces) <= usedNonces
      ensures resp.status != 200 ==> usedNonces == old(usedNonces) && licensed == old(licensed)
      ensures !req.bodyReadable ==> resp == InternalError() && !consulted
      ensures req.bodyReadable && NoProof(req.header) ==>
        resp == Challenge(env, GenerateNonce(entropy), clock) && !consulted
      ensures req.bodyReadable && !NoProof(req.header) ==>
        match ParseProof(c, req.header.value)
        case None => resp == InternalError() && !consulted
        case Some(p) =>
          if ShapeError(p).Some? then
            resp == Response(400, Failure(ShapeError(p).value)) && !consulted
          else if p.nonce.value in old(usedNonces) then
            resp == Response(400, Failure("Nonce already used")) && !consulted
          else if !Supported(p) then
            resp == Response(400, Failure("Invalid chain or token")) && !consulted
          else if !Verdict(p, env, view) then
            resp == Response(402, Failure("Payment verification failed")) && consulted
          else
            && consulted
            && resp == Response(200, Granted(GenerateLicense(p.nonce.value, LicenseTtl, clock, env.jwtSecret, c),
                                             LicenseTtl, true, "Payment verified successfully"))
            && usedNonces == old(usedNonces) + KeyOf(p.nonce.value)
            && licensed == old(licensed) + [p.nonce.value]
    {
      consulted := false;
      if !req.bodyReadable {
        return InternalError(), consulted;
      }
      if NoProof(req.header) {
        var nonce := GenerateNonce(entropy);
        return Challenge(env, nonce, clock), consulted;
      }

      var payment := ParseProof(c, req.header.value);
      if payment.None? {
        return InternalError(), consulted;
      }
      var chain, token, tx, signature, nonce :=
        payment.value.chain, payment.value.token, payment.value.tx, payment.value.signature, payment.value.nonce;

      if !Truthy(chain) || !Truthy(token) || !Truthy(nonce) {
        return Response(400, Failure("Invalid payment header")), consulted;
      }
      if chain == Some(Base) && !Truthy(tx) {
        return Response(400, Failure("Missing transaction hash for Base chain")), consulted;
      }
      if chain == Some(Solana) && !Truthy(signature) {
        return Response(400, Failure("Missing signature for Solana chain")), consulted;
      }
      if nonce.value in usedNonces {
        return Response(400, Failure("Nonce already used")), consulted;
      }
      if (chain != Some(Base) && chain != Some(Solana)) || token != Some(Usdc) {
        return Response(400, Failure("Invalid chain or token")), consulted;
      }

      var isValid := false;
      var amount := Price(env);
      consulted := true;
      if chain == Some(Base) {
        isValid := VerifyEvm(view.evm, env.recipientAddress, amount, env.usdcAddress);
      } else if chain == Some(Solana) {
        isValid := VerifySolana(view.solana, env.solanaRecipientAddress, amount);
      }
      if !isValid {
        return Response(402, Failure("Payment verification failed")), consulted;
      }

      usedNonces := usedNonces + KeyOf(nonce.value);
      licensed := licensed + [nonce.value];
      var license := GenerateLicense(nonce.value, LicenseTtl, clock, env.jwtSecret, c);
      resp := Response(200, Granted(license, LicenseTtl, true, "Payment verified successfully"));
    }
  }

  // ---- scenarios ----------------------------------------------------------------

  /** A proof that passes every check and whose transaction verifies. */
  predicate Redeemable(req: Request, env: Env, view: ChainView, c: Codec)
  {
    && req.bodyReadable && !NoProof(req.header)
    && ParseProof(c, req.header.value).Some?
    && var p := ParseProof(c, req.header.value).value;
       ShapeError(p).None? && Supported(p) && Verdict(p, env, view)
  }

  /** Single use: once a nonce has earned a license, presenting it again is
      refused with 400 before any verifier runs, although the same transaction
      still verifies. No challenge has to be issued first: the handler only
      asks whether the nonce was already used. */
  method ReplayIsRefused(req: Request, env: Env, clock: Clock, entropy: seq<byte>, view: ChainView, c: Codec)
    returns (first: Response, second: Response)
    requires |entropy| == NonceBytes
    requires Redeemable(req, env, view, c)
    requires Primitive(ParseProof(c, req.header.value).value.nonce.value)
    ensures first.status == 200 && first.body.Granted? && first.body.allowInference
    ensures second == Response(400, Failure("Nonce already used"))
  {
    var gate := new Gate();
    ghost var consulted;
    first, consulted := gate.Post(req, env, clock, entropy, view, c);
    second, consulted := gate.Post(req, env, clock, entropy, view, c);
  }

  /** The nonce is not tied to the transaction: one verified payment earns a
      license for every fresh nonce it is presented with. */
  method PaymentReusedWithFreshNonce(req1: Request, req2: Request, env: Env, clock: Clock, entropy: seq<byte>,
                                     view: ChainView, c: Codec)
    returns (first: Response, second: Response)
    requires |entropy| == NonceBytes
    requires Redeemable(req1, env, view, c) && Redeemable(req2, env, view, c)
    requires ParseProof(c, req1.header.value).value.nonce != ParseProof(c, req2.header.value).value.nonce
    ensures first.status == 200 && second.status == 200
  {
    var gate := new Gate();
    ghost var consulted;
    first, consulted := gate.Post(req1, env, clock, entropy, view, c);
    second, consulted := gate.Post(req2, env, clock, entropy, view, c);
  }

  /** A nonce that is a JSON array or object is never found by `has`, since
      every parse yields a fresh object: the same proof earns a license each
      time it is presented. */
  method ObjectNonceNeverBurns(req: Request, env: Env, clock: Clock, entropy: seq<byte>, view: ChainView, c: Codec)
    returns (first: Response, second: Response)
    requires |entropy| == NonceBytes
    requires Redeemable(req, env, view, c)
    requires !Primitive(ParseProof(c, req.header.value).value.nonce.value)
    ensures first.status == 200 && second.status == 200
  {
    var gate := new Gate();
    ghost var consulted;
    first, consulted := gate.Post(req, env, clock, entropy, view, c);
    second, consulted := gate.Post(req, env, clock, entropy, view, c);
  }

  /** Without a proof the gate answers with a challenge and burns nothing; a
      proof for either offered chain is then judged on its own. */
  method ChallengeThenRedeem(challengeReq: Request, proofReq: Request, env: Env, clock: Clock,
                             entropy: seq<byte>, view: ChainView, c: Codec)
    returns (challenge: Response, grant: Response)
    requires |entropy| == NonceBytes
    requires challengeReq.bodyReadable && NoProof(challengeReq.header)
    requires IsSet(env.recipientAddress) && IsSet(env.solanaRecipientAddress)
    requires Redeemable(proofReq, env, view, c)
    ensures challenge.status == 402 && challenge.body.Accepts? && |challenge.body.offers| == 2
    ensures challenge.body.offers[0].nonce == challenge.body.offers[1].nonce == GenerateNonce(entropy)
    ensures grant.status == 200
  {
    var gate := new Gate();
    ghost var consulted;
    challenge, consulted := gate.Post(challengeReq, env, clock, entropy, view, c);
    grant, consulted := gate.Post(proofReq, env, clock, entropy, view, c);
  }
}
