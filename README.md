# PayAI402 payment gate — a Dafny model

PayAI402 sells one AI image generation per on-chain USDC micropayment. Its
server route `POST /api/generate` is an HTTP 402 "Payment Required" gate
(section 15.5.3 of RFC 9110):

- a request without an `X-PAYMENT` header gets a 402 challenge listing one
  offer per chain (Base, an EVM chain, and Solana), both carrying the same
  fresh nonce;
- a request with a payment proof goes through a guard chain (field checks,
  the redeemed-nonce ledger, chain/token support), then the chain's verifier;
- a verified payment burns the nonce and returns a short-lived license: base64
  of JSON carrying an HMAC-SHA256 signature (RFC 2104).

The model also covers the client's translation helper `t(key, params)`, which
fills `{name}` placeholders with `String.prototype.replace`.

Files (one module each):

| file | module | models |
|---|---|---|
| wrappers.dfy | `Wrappers` | `Option` |
| json.dfy | `JsValues` | JSON values, JavaScript truthiness, property lookup after `JSON.parse` |
| nonce.dfy | `Nonces` | `generateNonce` (hex of 16 random bytes) and its decoder |
| units.dfy | `Units` | `ethers.parseUnits(amount, 6)` and a renderer that it inverts |
| verifiers.dfy | `Verifiers` | `verifyTransaction` (EVM) and `verifySolanaTransaction` |
| license.dfy | `Licenses` | `generateLicense`, with a reader for the token it produces |
| gate.dfy | `PaymentGate` | the `POST` handler as class `Gate` over the `usedNonces` set, plus scenarios |
| language.dfy | `Translation` | `LanguageProvider`: the `language` state and `t` |

How the environment is represented:

- The clock is two `Date.now()` readings (`Clock`), because the handler reads it
  twice on each path. The challenge reads it once per offer; the license reads
  it once for `expires` and once for `issued`.
- The random bytes behind a nonce are an input.
- What the RPC nodes report about the submitted transaction is an input
  (`ChainView`). A lookup that throws is caught by the verifier and counts as
  absent.
- `JSON.stringify`, `JSON.parse`, base64 and HMAC-SHA256 are function-valued
  fields of a `Codec` parameter. Facts that need decoding to undo encoding
  assume `RoundTripsOn(codec, j)` for the one value `j` being encoded, which
  some codec always meets, whatever its encoder and HMAC
  (`RoundTripsOnSatisfiable`).
- The proof header's fields keep their JSON types. A `Set` compares primitives
  by value, but every parsed array or object is a fresh object. So the
  ledger's observable contents are the primitive nonces only
  (`ObjectNonceNeverBurns`, `ReplayIsRefused`).

What the code does, where a reader might expect otherwise (each proved):

- The handler never checks that a nonce was issued. A never-issued nonce is
  accepted if the transaction verifies (`ReplayIsRefused` starts from an empty
  ledger).
- Nothing ties the nonce to the transaction. One payment earns a license for
  every fresh nonce presented with it (`PaymentReusedWithFreshNonce`).
- A nonce that is a JSON object or array is never found in the `Set`, so it
  never burns (`ObjectNonceNeverBurns`).
- The Solana verifier checks only that the transaction exists and succeeded
  (`SolanaOnlyChecksSuccess`).
- Challenge expiry is in seconds. License times are in milliseconds. Neither
  expiry is checked on redemption.

## Model

| member | source | states |
|---|---|---|
| JsValues.Truthy | app/api/generate/route.ts:216-236 | a field is truthy exactly when it is present and not null, false, 0 or ""; so every array and object, even an empty one, is truthy |
| JsValues.GetIsLastMember | app/api/generate/route.ts:212-213 | a proof field is found exactly when the parsed object has a member of that name, and then it is the last such member's value |
| Nonces.GenerateNonce | app/api/generate/route.ts:11-13 | a nonce is 32 lower-case hex characters and decodes back to the 16 random bytes it was made from |
| Nonces.UnhexHex | app/api/generate/route.ts:12 | decoding the hex rendering of any byte string gives the bytes back |
| Nonces.HexInjective | app/api/generate/route.ts:11-13 | distinct random draws give distinct nonces |
| Units.ParseFormatUnits6 | app/api/generate/route.ts:88 | `parseUnits(·, 6)` reads a six-place decimal rendering of any amount back as that many base units |
| Units.ParseUnits6 | app/api/generate/route.ts:88 | `parseUnits(·, 6)` accepts only text with at least one digit, and a negative amount only after a leading `-` |
| Verifiers.VerifyEvm | app/api/generate/route.ts:35-99 | the EVM verdict: receipt status 1, `to` equal to the USDC address ignoring case, a `transfer` call, recipient equal ignoring case, amount at least the parsed price; anything else (including a throw) is false |
| Verifiers.EvmAcceptsExactly | app/api/generate/route.ts:41-98 | a confirmed USDC transfer is accepted if and only if it goes to the expected recipient (ignoring case) and carries at least the price, which must parse |
| Verifiers.EvmAmountThreshold | app/api/generate/route.ts:87-92 | exact payment and overpayment are accepted; one base unit less is rejected |
| Verifiers.EvmRejects | app/api/generate/route.ts:46-90 | a missing transaction or receipt, a failed status, another contract, an undecodable call, an unset or different recipient, or an unparsable price each give false |
| Verifiers.EvmCaseInsensitive | app/api/generate/route.ts:60-85 | re-casing the configured recipient or USDC address never changes the verdict |
| Verifiers.VerifySolana | app/api/generate/route.ts:102-161 | the Solana verdict: the transaction exists, has `meta`, `meta.err` is falsy, the recipient is set, and building the keys for that recipient does not throw |
| Verifiers.SolanaOnlyChecksSuccess | app/api/generate/route.ts:107-160 | the Solana verdict never depends on the amount, and is the same for any two recipients whose keys both build; it holds exactly when the transaction exists with `meta`, a falsy `err`, and the recipient's keys build |
| Licenses.Secret | app/api/generate/route.ts:23 | a `JWT_SECRET` that is set and non-empty is the signing key; the key is never empty |
| Licenses.RoundTripsOnSatisfiable | app/api/generate/route.ts:16-32 | for any inputs and any encoder, base64 and HMAC, some choice of decoders round-trips the signed license object built with that codec, so the premise of `GenerateLicense` excludes no input |
| Licenses.GenerateLicense | app/api/generate/route.ts:16-32 | when the codec round-trips the signed object, the license reads back as `{nonce, expires, issued, signature}` with this nonce, `expires` = first reading + ttl·1000, `issued` = second reading, and a signature that recomputes from the other three fields under the key |
| Licenses.LicenseLifetime | app/api/generate/route.ts:17-21 | when the clock does not run backwards between the two readings, `expires` never exceeds `issued` + ttl·1000 ms, and equals it when both readings agree |
| PaymentGate.DefaultPriceUnits | app/api/generate/route.ts:176 | the price `Price` falls back to, "0.1", parses to 100000 USDC base units |
| PaymentGate.Price | app/api/generate/route.ts:176 | a configured amount that is set and non-empty is the price; the price is never empty |
| PaymentGate.ParseProof | app/api/generate/route.ts:212-213 | parsing fails (outer catch) exactly when the header is not JSON or is the JSON value null |
| PaymentGate.ShapeError | app/api/generate/route.ts:216-236 | no error exactly when chain, token and nonce are truthy, plus `tx` for base and `signature` for solana |
| PaymentGate.Supported | app/api/generate/route.ts:247 | a supported proof has a truthy chain and token, the first two parts of the check at route.ts:216 |
| PaymentGate.SupportIsExact | app/api/generate/route.ts:247 | the comparison is strict: "Base", "usdc" or an array chain is unsupported |
| PaymentGate.Verdict | app/api/generate/route.ts:254-264 | a true verdict needs chain base or solana; a base verdict also needs a price that `parseUnits` accepts |
| PaymentGate.VerdictSelectsChain | app/api/generate/route.ts:254-264 | base consults only the EVM node's report and solana only the Solana node's; the other chain's report never changes the verdict |
| PaymentGate.Challenge | app/api/generate/route.ts:171-208 | 402 with exactly two offers, base then solana, same nonce, token USDC and price, `expires` = ⌊now/1000⌋ + 300 s, equal when the clock readings agree; 500 when either recipient is unset |
| PaymentGate.Gate.constructor | app/api/generate/route.ts:8 | the ledger starts empty |
| PaymentGate.Gate.Post | app/api/generate/route.ts:163-296 | the full outcome of one request: 500, challenge, each 400, 402 on a false verdict, or 200 with the license; the ledger only grows, it gains exactly the nonce's key on 200 and is unchanged otherwise; no verifier runs before every 400 check passed; no primitive nonce ever earns two licenses |
| PaymentGate.ReplayIsRefused | app/api/generate/route.ts:238-244 | a redeemed string, number or boolean nonce is refused with 400 "Nonce already used" even though its transaction still verifies; a never-issued nonce is redeemable |
| PaymentGate.PaymentReusedWithFreshNonce | app/api/generate/route.ts:238-288 | one verified transaction earns a license for each distinct nonce |
| PaymentGate.ObjectNonceNeverBurns | app/api/generate/route.ts:239 | an array or object nonce earns a license every time it is presented |
| PaymentGate.ChallengeThenRedeem | app/api/generate/route.ts:171-288 | a challenge burns nothing and shares one nonce across both offers; a valid proof is then granted |
| Translation.IndexOf | app/contexts/LanguageContext.tsx:22 | the match position is the first position where the placeholder occurs, or none when it never occurs |
| Translation.IndexOfFirst | app/contexts/LanguageContext.tsx:22 | a given occurrence with none before it is the one found |
| Translation.Expand | app/contexts/LanguageContext.tsx:22 | the replacement patterns of `String.prototype.replace`: `$$` gives `$`, `$&` the match, `` $` `` the text before it, `$'` the text after it; `$1` (no captures) and a lone `$` stay literal |
| Translation.ExpandLiteral | app/contexts/LanguageContext.tsx:22 | a replacement value without `$` expands to itself |
| Translation.ReplaceFirst | app/contexts/LanguageContext.tsx:22 | with no occurrence the text is unchanged; otherwise the text before the first occurrence and everything after it are kept, and a `$`-free value is inserted literally |
| Translation.ReplaceKeepsLaterOccurrence | app/contexts/LanguageContext.tsx:22 | a second occurrence of the placeholder survives: only the first is replaced |
| Translation.SubstituteAll | app/contexts/LanguageContext.tsx:20-24 | no parameters leave the entry unchanged; one parameter is one first-occurrence `replace` of its placeholder (the fold laws are `SubstituteAllAppend` and `SubstituteAbsent`) |
| Translation.SubstituteAllAppend | app/contexts/LanguageContext.tsx:20-24 | substituting one parameter list and then another equals substituting their concatenation: each parameter acts on the previous result |
| Translation.SubstituteAbsent | app/contexts/LanguageContext.tsx:20-24 | parameters whose placeholders do not occur leave the text unchanged |
| Translation.ReplaceWhole | app/contexts/LanguageContext.tsx:22 | a text that is exactly the placeholder becomes the value (when the value has no `$`) |
| Translation.PlaceholdersDistinct | app/contexts/LanguageContext.tsx:22 | for distinct brace-free names, one name's placeholder never occurs in the other's |
| Translation.SubstitutionIsSequential | app/contexts/LanguageContext.tsx:20-24 | for any names `a`, `b` and `$`-free values: substituting `a := "{b}"` then `b := x` into `{a}` gives `x`, so a later parameter rewrites an earlier value |
| Translation.SubstitutionOrderMatters | app/contexts/LanguageContext.tsx:21-23 | with the two parameters in the other order the inserted `{b}` stays |
| Translation.OnePlaceholder | app/contexts/LanguageContext.tsx:20-24 | an entry with one placeholder and no `{` before it becomes prefix + value + suffix, for a `$`-free value |
| Translation.PayAmountLine | app/components/PaymentModal.tsx:247 | for a `$`-free amount, `t('payAmount', {amount})` on the English entry gives "Pay <amount> USDC per image" |
| Translation.LanguageProvider.constructor | app/contexts/LanguageContext.tsx:15 | the provider starts in English |
| Translation.LanguageProvider.Table | app/contexts/LanguageContext.tsx:18 | the current table has every English key |
| Translation.LanguageProvider.SetLanguage | app/contexts/LanguageContext.tsx:30 | later lookups read the chosen language's table |
| Translation.LanguageProvider.T | app/contexts/LanguageContext.tsx:17-27 | without parameters, the entry unchanged; with parameters, each substituted in `Object.keys` order into the previous result |
| Translation.PriceLines | app/contexts/LanguageContext.tsx:15-30 | a client, for a `$`-free amount: "Pay <amount> USDC per image" first, then "每张图片 <amount> USDC" after `setLanguage` |

## Left out

- Concurrency: the ledger check (route.ts:239) and the add (route.ts:274) are separated by the verifier's `await`, so interleaved requests could both succeed. `Post` runs each request to completion, so the single-use guarantee holds for sequential requests only.
- The `usedNonces` set lives in process memory and is lost on restart. The model has one `Gate` per process lifetime.
- RPC access (`JsonRpcProvider`, Solana `Connection`, `getAssociatedTokenAddress`) is an input. The model does not tie the reported transaction to the submitted `tx` or `signature` string.
- Verifiers.VerifySolana: whether the mint key, the recipient key and the associated token account can be built (base58 and curve checks) is the input function `keysDerivable`, applied to the configured recipient. The base58 decoding and curve test themselves are not modelled.
- Cryptography and encodings (`crypto.randomBytes`, HMAC-SHA256, base64 of UTF-8, `JSON.stringify`, `JSON.parse`) are uninterpreted `Codec` fields. The license facts assume that decoding undoes encoding.
- The route has no license reader or verifier. `ReadLicense` and `SignatureMatches` state what a key holder can recompute. Tamper evidence rests on HMAC, which is not modelled.
- Units.ParseUnits6: does not model the library's 512-bit range check. The decimal grammar follows the library's fixed-point parser, which is not part of this model.
- Verifiers.Lower: lower-cases ASCII letters only. Hex addresses use no other letters.
- PaymentGate.InternalError: omits the `details: error.message` field of the 500 body.
- Console logging, and the `model` and `prompt` body fields, which the handler reads but does not use.
- JSON numbers are reals. Overflow to `Infinity` and the double-precision rounding of `JSON.parse` are not modelled.
- Translation.LanguageProvider.T: takes `params` already in `Object.keys` order. JavaScript lists integer-like keys first, in ascending order, which is not derived here.
- Translation.LanguageProvider.SetLanguage: the model switches tables within the call. In React the `useState` setter takes effect on the next render, and a `t` captured before the call still reads the old table. The model merges that re-render into `SetLanguage`, so `PriceLines` shows the order of lookups, not render timing.
- The array-valued entry `enableSteps` of app/lib/i18n.ts is not modelled. `t` is never called with it.
- The translation tables are a parameter, not the literal data of app/lib/i18n.ts. Only the `payAmount` entries appear, in the scenarios.
- Statistical uniqueness of nonces across issuances depends on the random source. The model proves only that distinct random bytes give distinct nonces.
- The UI and client flows are not modelled: PaymentModal.tsx, ImageGenerator.tsx, the pages, and the components.
- app/api/generate-image/route.ts, the scripts and the config are not part of this model.
