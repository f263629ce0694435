/** The two on-chain payment checks, `verifyTransaction` (Base, an EVM chain)
    and `verifySolanaTransaction` (app/api/generate/route.ts:35-161), as
    predicates over what the chain's RPC node reports. An RPC call that
    throws is caught by the verifier and yields `false`, the same as a
    missing record, so both are `None` here. */
module Verifiers {
  import opened Wrappers
  import opened JsValues
  import Units

  // ---- address comparison ----------------------------------------------

  function LowerChar(c: char): char
  {
    if 'A' <= c <= 'Z' then (c as int - 'A' as int + 'a' as int) as char else c
  }

  /** `String.prototype.toLowerCase` on the ASCII letters that addresses use. */
  function Lower(s: string): (r: string)
    ensures |r| == |s|
    ensures forall i :: 0 <= i < |s| ==> r[i] == LowerChar(s[i])
    ensures forall i :: 0 <= i < |r| ==> !('A' <= r[i] <= 'Z')
  {
    if |s| == 0 then "" else [LowerChar(s[0])] + Lower(s[1..])
  }

  /** Two addresses that differ only in letter case compare equal. */
  predicate SameAddress(a: string, b: string)
  {
    Lower(a) == Lower(b)
  }

  /** `x?.toLowerCase()`: undefined stays undefined. */
  function LowerOpt(s: Option<string>): Option<string>
  {
    if s.Some? then Some(Lower(s.value)) else None
  }

  // ---- Base / EVM --------------------------------------------------------

  /** `iface.parseTransaction(...)` against the one-function interface
      `transfer(address to, uint256 amount)`: the function name and the two
      arguments. */
  datatype TransferCall = TransferCall(name: string, recipient: string, amount: nat)

  /** What `provider.getTransaction` reports: the `to` field (null for a
      contract creation) and the calldata decoded as above (`None` when it
      does not decode or decoding throws). */
  datatype EvmTx = EvmTx(to: Option<string>, call: Option<TransferCall>)

  /** What `provider.getTransactionReceipt` reports: the status (null before
      the Byzantium fork). */
  datatype Receipt = Receipt(status: Option<int>)

  datatype EvmView = EvmView(tx: Option<EvmTx>, receipt: Option<Receipt>)

  /** `verifyTransaction(txHash, expectedRecipient, expectedAmount, token)`:
      `usdcAddress` is the `NEXT_PUBLIC_USDC_ADDRESS` setting and
      `expectedRecipient` the `RECIPIENT_ADDRESS` setting, either possibly
      unset. An unset recipient makes `expectedRecipient.toLowerCase()` throw;
      an unparsable amount makes `parseUnits` throw; both are caught. */
  predicate VerifyEvm(view: EvmView, expectedRecipient: Option<string>, expectedAmount: string,
                      usdcAddress: Option<string>)
  {
    && view.tx.Some?
    && view.receipt.Some? && view.receipt.value.status == Some(1)
    && LowerOpt(view.tx.value.to) == LowerOpt(usdcAddress)
    && view.tx.value.call.Some? && view.tx.value.call.value.name == "transfer"
    && expectedRecipient.Some?
    && SameAddress(view.tx.value.call.value.recipient, expectedRecipient.value)
    && Units.ParseUnits6(expectedAmount).Some?
    && view.tx.value.call.value.amount >= Units.ParseUnits6(expectedAmount).value
  }

  /** A confirmed USDC `transfer` to `recipient` of `amount` base units. */
  function Payment(usdcAddress: string, recipient: string, amount: nat): (view: EvmView)
    ensures view.tx.Some? && view.receipt.Some?
  {
    EvmView(Some(EvmTx(Some(usdcAddress), Some(TransferCall("transfer", recipient, amount)))),
            Some(Receipt(Some(1))))
  }

  /** The verifier accepts exactly when every check passes, and each check is
      needed: the pass conditions, stated over the decoded payment. */
  lemma EvmAcceptsExactly(usdc: string, to: string, amount: nat, expectedRecipient: string, expectedAmount: string)
    ensures VerifyEvm(Payment(usdc, to, amount), Some(expectedRecipient), expectedAmount, Some(usdc))
        <==> SameAddress(to, expectedRecipient)
             && Units.ParseUnits6(expectedAmount).Some?
             && amount >= Units.ParseUnits6(expectedAmount).value
  {
  }

  /** Paying more than the price is accepted; paying less is not. */
  lemma EvmAmountThreshold(usdc: string, to: string, price: nat)
    ensures VerifyEvm(Payment(usdc, to, price), Some(to), Units.FormatUnits6(price), Some(usdc))
    ensures VerifyEvm(Payment(usdc, to, price + 1), Some(to), Units.FormatUnits6(price), Some(usdc))
    ensures price > 0 ==> !VerifyEvm(Payment(usdc, to, price - 1), Some(to), Units.FormatUnits6(price), Some(usdc))
  {
    Units.ParseFormatUnits6(price);
  }

  /** A transfer to another recipient, a call to another contract, or a
      failed or missing receipt is rejected whatever the amount. */
  lemma EvmRejects(view: EvmView, expectedRecipient: Option<string>, expectedAmount: string, usdcAddress: Option<string>)
    requires || view.tx.None? || view.receipt.None?
             || view.receipt.value.status != Some(1)
             || LowerOpt(view.tx.value.to) != LowerOpt(usdcAddress)
             || view.tx.value.call.None?
             || expectedRecipient.None?
             || !SameAddress(view.tx.value.call.value.recipient, expectedRecipient.value)
             || Units.ParseUnits6(expectedAmount).None?
    ensures !VerifyEvm(view, expectedRecipient, expectedAmount, usdcAddress)
  {
  }

  /** Address comparisons ignore letter case: re-casing the configured
      addresses never changes the verdict. */
  lemma EvmCaseInsensitive(view: EvmView, r1: string, r2: string, amount: string, u1: string, u2: string)
    requires SameAddress(r1, r2) && SameAddress(u1, u2)
    ensures VerifyEvm(view, Some(r1), amount, Some(u1)) == VerifyEvm(view, Some(r2), amount, Some(u2))
  {
  }

  // ---- Solana --------------------------------------------------------------

  /** `tx.meta` of a confirmed transaction; `err` is null on success. */
  datatype SolanaMeta = SolanaMeta(err: Json)

  datatype SolanaTx = SolanaTx(meta: Option<SolanaMeta>)

  /** What `connection.getTransaction` reports, and, for a recipient string,
      whether building the USDC mint key, the recipient's key and its
      associated token account succeeds (each of these throws on a malformed
      or off-curve key). */
  datatype SolanaView = SolanaView(tx: Option<SolanaTx>, keysDerivable: string -> bool)

  /** `verifySolanaTransaction(signature, expectedRecipient, expectedAmount)`:
      an unset recipient makes `new PublicKey(undefined)` throw. The amount
      is not looked at. */
  predicate VerifySolana(view: SolanaView, expectedRecipient: Option<string>, expectedAmount: string)
  {
    && view.tx.Some?
    && view.tx.value.meta.Some?
    && !Truthy(Some(view.tx.value.meta.value.err))
    && expectedRecipient.Some?
    && view.keysDerivable(expectedRecipient.value)
  }

  /** The Solana verdict is "the transaction exists and succeeded": it never
      depends on the expected amount, and the recipient matters only through
      whether its keys can be built. */
  lemma SolanaOnlyChecksSuccess(view: SolanaView, r1: string, r2: string, a1: string, a2: string)
    ensures view.keysDerivable(r1) && view.keysDerivable(r2) ==>
              VerifySolana(view, Some(r1), a1) == VerifySolana(view, Some(r2), a2)
    ensures VerifySolana(view, Some(r1), a1) <==>
              view.tx.Some? && view.tx.value.meta.Some? && view.keysDerivable(r1)
              && view.tx.value.meta.value.err in {JNull, JBool(false), JNum(0.0), JStr("")}
  {
  }
}
