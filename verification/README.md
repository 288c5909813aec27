# InterMesh in Dafny

A model of the parts of InterMesh that hold its guarantees, with proofs of those guarantees for every
input, every run and every reachable state. `dafny verify dfyconfig.toml` checks the whole project.

The modules follow the components of the Python SDK:

* **Encoding.** `Json`, `JsonText`, `Utf8`, `Canonical`, `Spelling`, `Base64`: the canonical bytes that every
  signature and hash rests on, as a concrete printer, with a parser that follows RFC 8259 and reads the three
  numbers Python adds to it, and the one spelling that the canonical text has. `Conversions` and `Crypto` hold
  what is a parameter: `str`, `int` and truth of the values that Python spells or rounds in its own way, the
  hash, and the signatures.
* **Pay per call.** `Price`, `Proof`, `Audit`, `Ledgers`, `Wallets`, `Gates`: exact decimal money, the signed
  answer to a 402 response, the register with its sealed journal, the wallet and the gate. `LedgerLaws` holds
  what every run of the register keeps, and `RegisterLaws` when each operation succeeds and what it then moves;
  `Payments` puts one wallet, any number of gates, other payers and restarts together; `Exchanges` follows one
  honest payment and its replay; `GateRuns` says how long a gate keeps a challenge and follows one client from
  asking to settling among any others; `GateLaws` says when the gate raises instead of refusing, and
  `RaisingHeaders` gives headers that make it raise; `Refusals` says why register, wallet, gate and custody
  refuse.
* **Evidence.** `Evidence`, `EvidenceLaws`, `EvidenceRuns`, `Records`, `Reports`: signed, chained records, their
  offline verifier, the store, what a record says under each key and what a report tells apart. `Approvals`,
  `Proxies`, `ProxyLaws`, `ProxyRecords`: single-use human approvals, the proxy they gate, and what it sends and
  records.
* **Admission and custody.** `Backpressure`, `Guardrails`, `AdmissionLaws`, `Escrow`, `Hub`, `HubLaws`,
  `DeskLaws`, `DeskRuns`, `HubLimits`, `Presence`, `PresenceLaws`: the token bucket, the sliding window and
  circuit breaker, custody of simulated money, the hub's task desk with its human queue, and the presence table
  of a cluster; with when each of them lets something pass, and what it leaves.
* **Negotiation.** `Negotiation`, `Concessions`: the mandate-bounded negotiation of the example and of the
  portal, what its deals keep, and when it concludes.

Objects whose methods change their fields are classes. Each method is proved against a specification
function (`After…`) that gives the whole new state, and the theorems speak about runs of those functions.
Times, random identifiers, failing writes and the answers of other machines are parameters.

Hypotheses are stated where they are used: `Crypto.Correct` (a signature verifies under its own key),
`Crypto.CollisionFree` (the hash is injective and never GENESIS), `Crypto.AsciiDigest`, `Audit.Binding` (no
collision among the contents in question), `Payments.Admissible` (fresh nonces, the wallet as sole holder of its
key), `HubLaws.Proper` (fresh task identifiers, well-formed tasks), `Guardrails.Timely`, `Backpressure.Ordered`
and `HubLimits.InOrder` (clocks that do not go back), `Negotiation.Arithmetic.Near` (a concession is rounded
within 0.051 of its exact value, a difference is computed within 0.001 of it) and `Concessions.Tenths`
(concessions are whole tenths). The two theorems on non-repudiation assume, of the one signature they are about,
that it is not forged.

What the code does that its documentation does not say, modelled as it is and proved:

* A charge to oneself creates its amount (`LedgerLaws.SelfChargeCreates`), and a credit that overflows the
  decimal context loses it: exactly then is the total not kept (`LedgerLaws.ChargeConservesIff`).
* Amounts below 100 units print in scientific form and are then refused (`Price.QuotedPriceReadBack`).
* `verify_integrity` does not reach the contents of the first entry (`Audit.TamperedEntryPassesIff`), nor
  deletions at either end (`Audit.OnlyStretchesPass`).
* `append` moves its hash and count before a write that may fail; a record written after a lost one breaks
  the chain unless the process was restarted in between (`EvidenceRuns.JournalVerifiesIff`).
* `admit` raises instead of refusing for an unreadable price, key or nonce, for a signed time that is an
  infinite float such as `1e999`, for a challenge below 100 units, and for sums beyond the decimal context
  (`GateLaws.AdmitRaisesIff`); the last may debit the payer for nothing, again and again
  (`GateLaws.ExceptionDebitsIff`, `GateLaws.DebitedAgainIff`).
* The replay of a request goes out without the caller's headers (`Wallets.ReplayCarriesPaymentOnly`).
* The delay announced with a refusal may be rounded below what is needed (`Backpressure.RetryAfterExactly`).
* Approving a malformed task leaves its money held and loses its entry (`HubLaws.MalformedApprovalStrandsHold`);
  approving one whose escrow amount is no number loses its entry (`HubLaws.UnreadableAmountLosesTask`).
* A hub does not tell two connections of one agent apart (`Presence.OlderConnectionErasesNewer`).
* Concessions do pass one's own limit (`Negotiation.ConcessionPassesCeilingIff`), although a deal never does;
  and compatible mandates may part (`Concessions.ConcludesIff`), some because the floating-point difference of
  two tenths is below 0.2 (`Concessions.FourteenAgainstFifteen`).

## Model

| member | source | states |
|---|---|---|
| Json.SameNormal | sdk-python/intermesh/canonical.py:54-59 | two dictionaries are equal as JSON values (booleans and integers apart), at every depth and whatever their insertion order, if and only if their key-sorted normal forms are identical |
| JsonText.PrintThenParse | sdk-python/intermesh/canonical.py:54-59 | a parser that follows RFC 8259 (section 7 for the escapes) and also reads `NaN`, `Infinity` and `-Infinity` returns every float-free value with distinct keys from its compact printed text |
| JsonText.ParsePrint | sdk-python/intermesh/canonical.py:54-59 | the same inside any text: parsing stops exactly where the printed value ends |
| Utf8.DecodeEncode | sdk-python/intermesh/canonical.py:54-59 | UTF-8 decoding returns every encoded text |
| Utf8.EncodeDecode | sdk-python/intermesh/canonical.py:54-59 | and every byte string that decodes is the encoding of what it decodes to |
| Canonical.ReadCanonical | sdk-python/intermesh/canonical.py:40-59 | the canonical bytes of a float-free value exist and are read back as that value with sorted keys |
| Canonical.CanonicalIffSame | sdk-python/intermesh/canonical.py:40-64 | two values have the same canonical bytes if and only if they are equal as JSON values: equal bytes imply equal values, and insertion order never matters |
| Canonical.CanonicalStable | sdk-python/intermesh/canonical.py:54-59 | what was read from canonical bytes encodes to the same bytes |
| Spelling.CanonicalSpelling | sdk-python/intermesh/canonical.py:54-59 | the canonical text says the same value with the keys of every dictionary, at every depth, ascending by code point with a prefix first; it has no white space between tokens; and in its strings `"`, `\` and the seven characters with a short escape are written so, other control characters as lower-case `\u00xx`, and nothing else is escaped |
| Base64.ScanSymbols | sdk-python/intermesh/canonical.py:36-37 | the decoder, scanning any text character by character, gathers exactly the sextets that were written before it |
| Base64.UnbB64 | sdk-python/intermesh/canonical.py:31-37 | `unb64(b64(x)) == x` for every byte string, padding removed and restored (section 5 of RFC 4648) |
| Base64.SextetsOfGroups | sdk-python/intermesh/canonical.py:31-37 | three bytes and the four symbols they become name the same number, first byte first; a remainder of one or two bytes is shifted to the front |
| Base64.SymbolInTable | sdk-python/intermesh/canonical.py:31-37 | the symbols are those of table 2 of RFC 4648, in order |
| Base64.OthersSkipped | sdk-python/intermesh/canonical.py:36-37 | the decoder skips every character outside both alphabets and padding, wherever it stands |
| Price.UnitsNearest | sdk-python/intermesh/payments/price.py:61-63 | quantizing a numeral with more decimals than the register keeps rounds to the nearest unit, a tie upward |
| Price.UnitsExact | sdk-python/intermesh/payments/price.py:61-63 | a numeral with at most eight decimals keeps its value exactly |
| Price.SignedPriceRead | sdk-python/intermesh/payments/price.py:66-95 | a numeral after a currency sign is read in that sign's currency, rounded to the nearest unit, unless it is beyond the decimal context |
| Price.PlainPriceRead | sdk-python/intermesh/payments/price.py:66-95 | a bare numeral is read in the caller's currency, and one before a code in that of the code, in capitals |
| Price.ParseDecimalStr | sdk-python/intermesh/payments/ledger.py:233-256 | every amount, of either sign and in plain or scientific form, is read back from `str(Decimal)` |
| Price.QuotedPriceReadBack | sdk-python/intermesh/payments/price.py:66-95 | an amount quoted as text with a currency code is read back as the same price if and only if it is at least 100 units of 1e-8 and below the 28-digit limit; otherwise it is refused |
| Proof.SplitFirstPoint | sdk-python/intermesh/payments/proof.py:105-109 | a point separates body and signature at its first occurrence, and encoded bodies hold none |
| Proof.BodyInjective | sdk-python/intermesh/payments/proof.py:61-72 | the signed bytes determine all fields of a proof |
| Proof.ReadSigned | sdk-python/intermesh/payments/proof.py:78-92 | a header made from a proof yields its body, its signature and its payload |
| Proof.VerifySigned | sdk-python/intermesh/payments/proof.py:78-151 | the header a wallet signs for a challenge is accepted until the challenge expires and only then, with the payer and the fields of the challenge; the payer and nonce peeked before verification are those |
| Proof.AcceptedBody | sdk-python/intermesh/payments/proof.py:95-151 | a header accepted over the bytes of a proof yields that proof, field for field |
| Proof.AcceptedWasSigned | sdk-python/intermesh/payments/proof.py:95-151 | unless the signature the header carries verifies over a body that was never signed, an accepted proof is one of those its key's owner signed, field for field |
| Proof.InfiniteTimeIff | sdk-python/intermesh/payments/proof.py:105-139 | verification stops with an OverflowError if and only if the header is readable, of this version and signed under the key, has every field up to the time of issue, and that time is an infinite float, or is readable and the expiry is an infinite float |
| Proof.ChallengeReadBack | sdk-python/intermesh/payments/challenge.py:61-88 | the client reads from the body of a 402 response the challenge the gate put there (an empty register address reads as none) |
| Proof.ChallengeRead | sdk-python/intermesh/payments/challenge.py:61-88 | from any body: a challenge if and only if five fields are there and the expiry is missing or can be read; the fields as texts, an expiry of its own when there is none; and exactly which expiries raise |
| Audit.AuditLog.VerifyIntegrity | sdk-python/intermesh/audit.py:133-150 | true if and only if every entry after the first is linked to the one before and sealed over its own contents |
| Audit.LogKeepsGenuine | sdk-python/intermesh/audit.py:117-131 | appending a sealed entry keeps a journal genuine from end to end |
| Audit.LastHashFixesJournal | sdk-python/intermesh/audit.py:133-150 | when the hash has no collision among the contents of two verified journals of one length, the same last hash means the same entries, the contents of the first apart |
| Audit.FirstEntryUnchecked | sdk-python/intermesh/audit.py:133-150 | the contents of the first entry can be replaced without changing the verdict |
| Audit.TamperedEntryPassesIff | sdk-python/intermesh/audit.py:133-150 | other contents under the kept hash of entry i of a genuine journal pass if and only if i is 0 or they are the same contents |
| Audit.HashesDistinct | sdk-python/intermesh/audit.py:33-45 | no two entries of a journal have the same hash, since their contents carry their index |
| Audit.OnlyStretchesPass | sdk-python/intermesh/audit.py:133-150 | whatever is picked from a journal passes if and only if it is a contiguous stretch: deletions at either end are not noticed, anything else is |
| Ledgers.Ledger.Open | sdk-python/intermesh/payments/ledger.py:111-131 | the whole new state of opening an account, existing accounts and refusals included |
| Ledgers.Ledger.Check | sdk-python/intermesh/payments/ledger.py:146-172 | the guards of a charge in their order, exact decimal limits included |
| Ledgers.Ledger.Enter | sdk-python/intermesh/payments/ledger.py:162-188 | the writes of a charge in their order, including the first one that stays when the second raises |
| Ledgers.Ledger.Charge | sdk-python/intermesh/payments/ledger.py:146-188 | the whole new state of a charge and its answer |
| Ledgers.Ledger.Settle | sdk-python/intermesh/payments/ledger.py:190-206 | the whole new state of a settlement and its answer |
| LedgerLaws.StepKeepsInv | sdk-python/intermesh/payments/ledger.py:111-256 | every operation, and a restart through export and import, keeps: the replayed journal equals the books, balances reconcile, nonces are distinct, credit holds |
| LedgerLaws.EveryRunKeepsTheBooks | sdk-python/intermesh/payments/ledger.py:111-256 | over every run in which payer and payee differ and credits fit the decimal context: replaying the sealed entries rebuilds accounts, charges and nonces; each balance is what was earned and settled less what is owed; balances add up to settlements |
| LedgerLaws.StepEvolves | sdk-python/intermesh/payments/ledger.py:111-256 | every operation, charges to oneself and overflows included, keeps the journal genuine, nonces distinct and recorded, credit limits unchanged |
| LedgerLaws.EveryRunIsSound | sdk-python/intermesh/payments/ledger.py:111-256 | over every run without exception: the journal verifies from its genesis on, each nonce is honoured once, export then import is the identity, and no balance is below minus its credit limit |
| LedgerLaws.LimitsNeverChange | sdk-python/intermesh/payments/ledger.py:111-206 | over every run without exception the credit limit of an open account never changes |
| LedgerLaws.ChargeConservesIff | sdk-python/intermesh/payments/ledger.py:162-177 | a charge keeps the total of the balances if and only if it is refused, or payer and payee differ and the payee's balance fits the decimal context |
| LedgerLaws.SelfChargeCreates | sdk-python/intermesh/payments/ledger.py:162-177 | in a new register with one account, a charge to itself succeeds and the balances then add up to its amount, with nothing settled |
| LedgerLaws.ExportThenImport | sdk-python/intermesh/payments/ledger.py:233-256 | a sound register is unchanged by export and import, at any later time |
| LedgerLaws.TransferTotal | sdk-python/intermesh/payments/ledger.py:162-177 | moving an amount between two accounts keeps the total; moving it to oneself adds it |
| RegisterLaws.OpenIff | sdk-python/intermesh/payments/ledger.py:111-131 | an existing account is returned and nothing changes; another is opened, with the asked limit, no balance and one entry that says so, if and only if its limit can be read in the register's currency |
| RegisterLaws.SettleIff | sdk-python/intermesh/payments/ledger.py:190-206 | a settlement succeeds if and only if its amount can be read in the register's currency, is positive, the account exists and the new balance fits the decimal context; then exactly that balance grows by the amount and the journal by one entry that names the agent, the amount and the new balance; otherwise nothing changes |
| RegisterLaws.ChargeIff | sdk-python/intermesh/payments/ledger.py:146-188 | a charge succeeds if and only if its nonce is new, its amount can be read in the register's currency and is positive, both accounts exist, the payer can cover it and the new balances fit; then it carries the fields of the proof, the amount moves from payer to payee, charge and nonce are recorded, and one entry says so |
| RegisterLaws.OperationsDecideBalances | sdk-python/intermesh/payments/ledger.py:111-206 | over every allowed run from an empty register each balance is what the operations answered with success moved to the agent, read from the operations and not from the journal, and all balances add up to the settlements asked for and accepted |
| RegisterLaws.StatementHolds | sdk-python/intermesh/payments/ledger.py:212-218 | a statement holds each charge that names the agent as payer or payee and falls into the period, its end excluded, as often as the register does, and no other |
| RegisterLaws.TotalOwedIs | sdk-python/intermesh/payments/ledger.py:220-224 | what is owed for a period is the sum of the charges in it that the agent pays, or raises if and only if that sum does not fit |
| Wallets.Wallet.Check | sdk-python/intermesh/client/wallet.py:75-95 | the refusals of `authorize` in their order |
| Wallets.Wallet.Authorize | sdk-python/intermesh/client/wallet.py:75-99 | the whole new state of the wallet and the header or refusal |
| Wallets.PayAndRetry | sdk-python/intermesh/client/http.py:52-68 | the requests sent, the answer and the wallet after one exchange, with at most one replay |
| Wallets.Request | sdk-python/intermesh/client/http.py:102-110 | one exchange of the client: the answer, the wallet, and the headers of each request |
| Wallets.ReplayCarriesPaymentOnly | sdk-python/intermesh/client/http.py:102-110 | the first request carries the caller's headers; the replay carries the payment header and none of the caller's |
| Wallets.OneExchangeIsBounded | sdk-python/intermesh/client/http.py:52-68 | whatever the server answers, one exchange costs the wallet at most the limit per request, never passes the budget, and costs nothing unless a payment was sent |
| Wallets.AuthorizeIff | sdk-python/intermesh/client/wallet.py:75-99 | the wallet signs if and only if the challenge can be read in its currency, has not expired, is within the limit per request and the budget, and the running total fits; then it signs that challenge and counts its amount, and otherwise nothing changes |
| Wallets.PaysIff | sdk-python/intermesh/client/http.py:52-68 | an answer other than 402 is returned as it is; a 402 with a readable challenge that the wallet can afford is paid once and the second answer returned, unless it is 402 again; any other 402 fails and costs nothing |
| Gates.PaymentGate.Evict | sdk-python/intermesh/server/gate.py:142-147 | exactly the challenges expired for longer than the grace period are forgotten |
| Gates.PaymentGate.ChallengeFor | sdk-python/intermesh/server/gate.py:83-90 | eviction, then a new challenge retained under its nonce, or a price error after the eviction |
| Gates.PaymentGate.Examine | sdk-python/intermesh/server/gate.py:102-130 | everything decided before the register is asked, in order: the payer and its key, the nonce, the retained challenge, the proof, the payee; unreadable keys and infinite times included |
| Gates.PaymentGate.Admit | sdk-python/intermesh/server/gate.py:92-138 | the whole new state of gate and register and the outcome, with every exception that is not caught |
| GateRuns.IssuedAsAsked | sdk-python/intermesh/server/gate.py:83-90 | a request without payment is answered with a challenge if and only if its price can be read; the challenge is for that resource, price and currency, to the gate's payee, under the given nonce, for the time to live, and is retained |
| GateRuns.IssueForgets | sdk-python/intermesh/server/gate.py:142-147 | of the challenges retained before, exactly those that expired more than a minute earlier are forgotten by it |
| GateRuns.HeaderForgets | sdk-python/intermesh/server/gate.py:113-138 | a header makes the gate forget the challenge of its own nonce, when it reached the register, and no other |
| GateRuns.ChallengeStaysPending | sdk-python/intermesh/server/gate.py:83-147 | over every run of requests, before and after, an issued challenge is pending if and only if no later request for a challenge came more than a minute after its expiry and no header for its nonce reached the register |
| GateRuns.AskPaySettle | sdk-python/intermesh/server/gate.py:83-147 | end to end: a client asks; others ask and pay, but not for its nonce; it signs what it read and presents it before expiry; the charge settles for the resource and price asked, from the client to the payee, as the wallet counted, and the nonce is recorded |
| GateLaws.AdmitRaisesIff | sdk-python/intermesh/server/gate.py:92-138 | `admit` raises instead of refusing if and only if: the first request's price cannot be read; or the payer of a header has a key and that key cannot be read, or its nonce cannot, or the header is signed, names a retained challenge and has an infinite time; or a good header is charged for an amount below 100 units or for sums beyond the decimal context |
| GateLaws.ReachedGateIsQuoted | sdk-python/intermesh/server/gate.py:83-138 | every gate that any requests reach from an empty one, with prices given as texts, retains only challenges quoted at the amounts asked for, as the theorem on exceptions assumes |
| GateLaws.IssueKeepsQuoted | sdk-python/intermesh/server/gate.py:83-90 | a gate with prices given as text retains only challenges quoted in units and a currency code |
| GateLaws.CheapChallengeRaises | sdk-python/intermesh/payments/ledger.py:157 | a challenge the gate issues for less than 100 units, answered by anyone with a key, makes `admit` raise and changes nothing |
| RaisingHeaders.PayerOnlyRaisesIff | sdk-python/intermesh/server/gate.py:104-113 | an unsigned header that names a payer and nothing else is refused if the payer has no key or an empty one, and otherwise makes `admit` raise, for its key or for the missing nonce |
| RaisingHeaders.InfiniteTimeRaises | sdk-python/intermesh/payments/proof.py:125-139 | the text of a proof with `"issued_at":1e999`, signed by any payer with a key for a challenge the gate retains, makes `admit` raise and changes nothing |
| GateLaws.ExceptionDebitsIff | sdk-python/intermesh/payments/ledger.py:172-177 | an exception leaves a trace if and only if the payee's balance overflows: then the payer is debited, no nonce is recorded and the challenge stays pending |
| GateLaws.DebitedAgainIff | sdk-python/intermesh/payments/ledger.py:162-177 | the same header then debits again if and only if the payer can cover the amount once more and, when it pays itself, its balance before the first debit already was beyond the context |
| Proof.PeekAgrees | sdk-python/intermesh/server/gate.py:154-175 | the payer and nonce read before verification are those of the verified proof |
| Payments.ExaminedFacts | sdk-python/intermesh/server/gate.py:102-130 | a header that passes answers the challenge retained under its own nonce, for this payee, under the payer's key |
| Payments.WalletSignedIt | sdk-python/intermesh/payments/proof.py:95-151 | a proof accepted for the wallet's agent is one that the wallet signed and counted |
| Payments.StepKeepsInv | sdk-python/intermesh/server/gate.py:83-147 | every move of wallet, gates, other payers and restarts keeps the invariant of the protocol |
| Payments.BudgetHolds | sdk-python/intermesh/client/wallet.py:75-99 | end to end, over every run with the wallet as sole holder of its key: `total_owed` of its agent, over any period, is defined and at most what the wallet counted as spent, which is within the budget, and no charge exceeds the limit per request |
| Payments.SettledAtMostOnce | sdk-python/intermesh/server/gate.py:83-147 | over every run of issue, admit, evict and restart: each nonce settles at most once, each settlement carries amount, currency, resource and payee of a challenge issued under that nonce, and what is pending was never settled |
| Payments.CreditHolds | sdk-python/intermesh/payments/ledger.py:54-57 | over every such run no account owes more than its credit limit |
| Exchanges.HonestExchange | sdk-python/intermesh/server/gate.py:92-138 | a retained challenge, read by the client, signed within the wallet's limits and presented before expiry, reaches the register with the fields of that challenge, and the wallet has counted its price |
| Exchanges.HonestExchangeSettles | sdk-python/intermesh/server/gate.py:92-138 | when the register can also fund it, that exchange settles: the charge is for the price of the challenge, which is what the wallet counted, its nonce is recorded and the challenge forgotten |
| Exchanges.ReplayRefused | sdk-python/intermesh/server/gate.py:113-117 | once a nonce has settled, a header that carries it changes nothing at any gate |
| Refusals.HeaderAnswer | sdk-python/intermesh/payments/proof.py:95-151 | a header is split at its first point, both halves must decode and the first must read as a dictionary; then version, signature, fields, expiry and challenge are checked in this order; each answer exactly when |
| Refusals.GateAnswer | sdk-python/intermesh/server/gate.py:102-130 | each reason why a header does not reach the register, exactly when it is the answer |
| Refusals.ChargeAnswer | sdk-python/intermesh/payments/ledger.py:146-172 | each refusal of a charge, exactly when it is the answer, the account named that is missing |
| Refusals.SettleAnswer | sdk-python/intermesh/payments/ledger.py:190-206 | each refusal of a settlement, exactly when it is the answer |
| Refusals.WalletAnswer | sdk-python/intermesh/client/wallet.py:75-99 | each refusal of the wallet, exactly when it is the answer |
| Refusals.ClientAnswer | sdk-python/intermesh/client/http.py:52-68 | each failure of the client after a 402, exactly when it is the answer |
| Evidence.VerifyChain | sdk-python/intermesh/assurance/evidence.py:263-288 | the loop returns the report of the specification, or the exception of the first record that raises |
| Evidence.EvidenceStore.Resume | sdk-python/intermesh/assurance/proxy.py:77-86 | after a restart, the last hash and the count are those of the file |
| Evidence.EvidenceStore.Append | sdk-python/intermesh/assurance/proxy.py:92-113 | chaining, signing and writing in one step: the whole new state, when the write succeeds and when it raises after hash and count have moved |
| EvidenceLaws.ChainReport | sdk-python/intermesh/assurance/evidence.py:263-288 | a chain is reported valid if and only if every record is valid by itself and refers to the hash of the one before, the first to GENESIS |
| Reports.RecordReport | sdk-python/intermesh/assurance/evidence.py:191-260 | the report on one record: it raises, lacks fields, is intact, is signed, has no key or cannot be serialised, each exactly when; and it names a problem if and only if it is not valid |
| Reports.ChainFaults | sdk-python/intermesh/assurance/evidence.py:263-288 | the report on a chain lists the faults of its records in order, where a valid record must refer to the last valid one before it; schema and signature hold if they do for every record, integrity if no link is broken besides |
| EvidenceLaws.SameHashSameBody | sdk-python/intermesh/assurance/evidence.py:191-260 | two valid records with one hash have equal bodies |
| EvidenceLaws.HashesDistinct | sdk-python/intermesh/assurance/evidence.py:263-288 | no hash occurs twice along an accepted chain |
| EvidenceLaws.OnlyPrefixesAccepted | sdk-python/intermesh/assurance/evidence.py:263-288 | whatever is deleted, repeated or reordered in an accepted chain, the result is accepted if and only if it is a prefix |
| EvidenceLaws.LastHashFixesChain | sdk-python/intermesh/assurance/evidence.py:263-288 | two accepted chains with the same last hash have the same length and equal bodies throughout |
| EvidenceRuns.SignedRecordIsValid | sdk-python/intermesh/assurance/evidence.py:104-144 | signing is refused exactly for a body with a float; otherwise the record verifies, by its own key and by the signer's, and refers to the hash it was given |
| Records.SignedTells | sdk-python/intermesh/assurance/evidence.py:104-144 | every signed record holds, under each of the ten covered keys, what the evidence says there, nulls left out of three of the blocks; and an envelope with the hash of the canonical bytes of those fields, its signature, the key and the issuer, the organisation when nobody else is named |
| EvidenceRuns.ValidWasSigned | sdk-python/intermesh/assurance/evidence.py:191-260 | unless the signature the record carries verifies over the hash of a body that was never signed, a record valid under a trusted key carries a body its owner signed |
| EvidenceRuns.AppendExtends | sdk-python/intermesh/assurance/proxy.py:92-113 | an append adds a valid record to the chain in memory, whether or not it reaches the file |
| EvidenceRuns.JournalVerifiesIff | sdk-python/intermesh/assurance/proxy.py:77-113 | over every run with failing writes anywhere, the file verifies if and only if no record was written after a lost one without a restart in between; the store then agrees with its file if and only if nothing was lost since the last restart |
| EvidenceRuns.OneLostWriteBreaks | sdk-python/intermesh/assurance/proxy.py:106-112 | one write that fails and one that does not leave a file that no longer verifies |
| EvidenceRuns.JournalAlwaysVerifies | sdk-python/intermesh/assurance/proxy.py:77-113 | while no write fails, every run of appends from any handlers, with any keys, interleaved with restarts, leaves a file that the offline verifier accepts, and the store knows its last hash and length |
| Approvals.ApprovalStore.constructor | sdk-python/intermesh/assurance/approval.py:76-83 | approvals are reloaded from the file, later rows over earlier ones |
| Approvals.ApprovalStore.Grant | sdk-python/intermesh/assurance/approval.py:85-94 | the whole new state of a grant, when the file is written and when it is not |
| Approvals.ApprovalStore.Consume | sdk-python/intermesh/assurance/approval.py:96-120 | the four refusals in their order, and the whole new state of a use |
| Approvals.ApprovalStore.Save | sdk-python/intermesh/assurance/approval.py:128-136 | the file holds all approvals, or what it held before when the write fails |
| Approvals.ReloadIsIdentity | sdk-python/intermesh/assurance/approval.py:76-83 | reading back what was saved gives the same approvals in the same order |
| Approvals.RestartReadsFile | sdk-python/intermesh/assurance/approval.py:76-94 | a restart brings back what was saved with the last grant or use, in its order, and forgets a grant that was not saved; without a file it forgets all |
| Approvals.GrantStep | sdk-python/intermesh/assurance/approval.py:85-94 | a grant makes at most one more use available, and only for its own identifier, method and address |
| Approvals.ConsumeStep | sdk-python/intermesh/assurance/approval.py:96-120 | a use takes away the one that was available, in memory and on file; it matches its grant and is in time; a refusal takes nothing |
| Approvals.GrantIsUsable | sdk-python/intermesh/assurance/approval.py:85-120 | an approval just granted can be used if and only if method and address are its own and its time to live has not passed, and the use reaches the file, if there is one; other approvals are kept |
| Approvals.UsedOnce | sdk-python/intermesh/assurance/approval.py:96-120 | a use marks its approval and no other; after it the approval is refused as used, at any time and for any action; a refused use changes nothing |
| Approvals.RefusedBecause | sdk-python/intermesh/assurance/approval.py:96-120 | each of the four refusals, and the exception of a failing write, with the exact condition under which it is the answer |
| Proxies.AssuranceProxy.Record | sdk-python/intermesh/assurance/proxy.py:133-157 | one record, with the approval moved to the authorization, is chained to the journal |
| Proxies.AssuranceProxy.Handle | sdk-python/intermesh/assurance/proxy.py:195-230 | decision, use of an approval, forward and record, with the states they leave |
| Proxies.AssuranceProxy.Forward | sdk-python/intermesh/assurance/proxy.py:232-261 | failures are always recorded, executions from the threshold of risk on |
| Proxies.AssuranceProxy.HandleConnect | sdk-python/intermesh/assurance/proxy.py:265-287 | a tunnel is refused for a blocked host and for one that needs approval, whatever token is shown |
| ProxyLaws.RecordedIsSignable | sdk-python/intermesh/assurance/evidence.py:73-102 | what a handler records is always made of dictionaries without floats |
| ProxyLaws.ExecutedNamesApprover | sdk-python/intermesh/assurance/proxy.py:147-157 | the evidence of an execution under an approval names the approval and the person who gave it |
| ProxyRecords.SentIff | sdk-python/intermesh/assurance/proxy.py:195-287 | a request is sent on if and only if its address is http and the policy allows it, or wants it approved and the store holds an unused approval for this very action, in time, whose use can be written; a tunnel opens if and only if the policy allows its host |
| ProxyRecords.InterruptedIff | sdk-python/intermesh/assurance/approval.py:96-136 | the handler is interrupted before anything is sent if and only if the approval could be used and its use cannot be written; nothing is recorded then |
| ProxyRecords.WithheldNeverSent | sdk-python/intermesh/assurance/proxy.py:206-219 | in every run of the proxy, what the policy blocks, and what it wants approved while no token is shown, is never sent |
| ProxyRecords.WithheldIsRecorded | sdk-python/intermesh/assurance/proxy.py:206-219 | such a request is refused, approvals stay as they are, and the journal gains a signed record that names agent, request and verdict, with status "blocked" or "pending_approval" |
| ProxyRecords.RejectedIsRecorded | sdk-python/intermesh/assurance/proxy.py:220-228 | a token that opens nothing is refused, approvals stay as they are, and the journal gains a record with status "approval_rejected" and the reason of the refusal |
| ProxyRecords.FailedIsRecorded | sdk-python/intermesh/assurance/proxy.py:232-243 | a request that could not be delivered is always recorded as failed, with the error |
| ProxyRecords.ExecutedIsRecorded | sdk-python/intermesh/assurance/proxy.py:245-252 | a delivered request is recorded as executed, with status and hash of the answer, if and only if its risk reaches the threshold; under an approval, the record at the end of the journal names the approval and the person who gave it |
| ProxyRecords.TunnelIsRecorded | sdk-python/intermesh/assurance/proxy.py:265-287 | an opened tunnel is recorded from the threshold of risk on, and one that failed is not |
| ProxyLaws.SingleUse | sdk-python/intermesh/assurance/approval.py:96-120 | over every run, with restarts and failing writes, requests forwarded under an approval for an identifier, method and address are at most the grants for exactly those |
| ProxyLaws.SentWasGranted | sdk-python/intermesh/assurance/proxy.py:195-230 | each forward under an approval answers an earlier grant for that very action, no later than its expiry |
| ProxyLaws.ProxyJournalVerifiesIff | sdk-python/intermesh/assurance/proxy.py:133-157 | over every run of the handlers, what they record can always be signed, and the journal verifies if and only if no record was written after a lost one without a restart in between |
| ProxyLaws.ProxyJournalVerifies | sdk-python/intermesh/assurance/proxy.py:133-157 | while no write fails, the journal verifies after every run of the handlers |
| Backpressure.BackpressureGate.Admit | sdk-python/intermesh/backpressure.py:157-185 | the whole new state and the refusal, limits on state before the rate |
| Backpressure.RateBound | sdk-python/intermesh/backpressure.py:136-185 | from the first to the last of any arrivals in a row, at most C + C·(t − s) are admitted |
| Backpressure.LastIsLastCheck | sdk-python/intermesh/backpressure.py:157-185 | the time kept is that of the last request whose rate was checked |
| Backpressure.SteadyPaceAdmitted | sdk-python/intermesh/backpressure.py:136-185 | a request 1/C after the last one whose rate was checked is never refused for the rate |
| Backpressure.LevelKept | sdk-python/intermesh/backpressure.py:136-185 | requests that are not admitted do not change what the bucket will hold |
| Backpressure.RetryAfterSuffices | sdk-python/intermesh/backpressure.py:142-153 | coming back after the announced delay and half a millisecond always succeeds, unless others took the tokens |
| Backpressure.RetryAfterExactly | sdk-python/intermesh/backpressure.py:142-153 | coming back after exactly the announced delay succeeds if and only if the milliseconds missing are not above 1 and rounded down (a fraction below one half, or one half over an even number) |
| Backpressure.RetryAfterRoundsDown | sdk-python/intermesh/backpressure.py:142-153 | a new gate of three tasks a second that admitted three at once announces 333 ms to the fourth and refuses it again then |
| AdmissionLaws.AdmitIff | sdk-python/intermesh/backpressure.py:136-185 | a task is admitted if and only if the gate is off, or what is in flight and what is queued are below their limits and the bucket holds a token; the reason of a refusal, the counters and what the bucket then holds |
| Guardrails.RateWindowTracker.CountRecent | sdk-python/intermesh/guardrails.py:67-75 | the loop prunes the window from the front and counts what is left |
| Guardrails.CircuitBreaker.RecordViolation | sdk-python/intermesh/guardrails.py:89-97 | the count, and the isolation from the threshold on |
| Guardrails.CircuitBreaker.IsTripped | sdk-python/intermesh/guardrails.py:99-106 | isolation, and its end |
| Guardrails.GuardrailEngine.Validate | sdk-python/intermesh/guardrails.py:187-235 | the checks in their order, with the whole new state of window and breaker |
| Guardrails.CountIsExact | sdk-python/intermesh/guardrails.py:67-75 | the pruned window counts exactly the events of the whole history since a minute before |
| Guardrails.CountOfHistory | sdk-python/intermesh/guardrails.py:67-79 | in every run, a count is the number of accepted submissions in the whole history since a minute before |
| Guardrails.WindowBound | sdk-python/intermesh/guardrails.py:187-235 | no closed stretch of a minute holds more accepted submissions of an agent than its quota |
| Guardrails.RefusedCostsNothing | sdk-python/intermesh/guardrails.py:232-235 | a refused submission leaves every later count as if it had not been made |
| Guardrails.IsolatedUntil | sdk-python/intermesh/guardrails.py:82-106 | an isolated agent is refused until its time, and its attempts neither count nor prolong it |
| Guardrails.TripsAtThreshold | sdk-python/intermesh/guardrails.py:89-97 | the breaker isolates exactly from the violation that reaches the threshold on |
| Guardrails.ReturnsClean | sdk-python/intermesh/guardrails.py:99-106 | the first check after an isolation ends it, and the count of violations starts again from zero |
| AdmissionLaws.SubmissionAnswer | sdk-python/intermesh/guardrails.py:187-235 | a submission is accepted if and only if its agent is not isolated and it is not too deep, not too costly, below the quota of the last minute and not forbidden; otherwise the first of these that applies is the answer |
| AdmissionLaws.AcceptedIff | sdk-python/intermesh/guardrails.py:187-235 | the same over every run from a new engine, where the quota counts the submissions accepted in the whole run |
| AdmissionLaws.SubmissionCounts | sdk-python/intermesh/guardrails.py:82-106 | an isolated agent's attempts count for nothing; every other refusal counts as one violation and isolates for a minute from the threshold on; an acceptance counts nothing; other agents are not concerned |
| Escrow.SimulatedLedger.Debit | sdk-python/intermesh/escrow.py:88-95 | a debit succeeds if and only if the balance covers it, and otherwise changes nothing |
| Escrow.EscrowManager.CreateHold | sdk-python/intermesh/escrow.py:123-153 | the refusals in their order, and the debit and the hold of a success |
| Escrow.EscrowManager.Release | sdk-python/intermesh/escrow.py:164-170 | a held amount goes to the payee |
| Escrow.EscrowManager.Refund | sdk-python/intermesh/escrow.py:172-178 | a held amount goes back to the payer |
| Escrow.EscrowManager.ImportState | sdk-python/intermesh/escrow.py:187-200 | balances and holds are those of the export |
| Escrow.ExportThenImport | sdk-python/intermesh/escrow.py:180-200 | importing an export restores balances and holds, whatever the order of its rows |
| Escrow.StepConserves | sdk-python/intermesh/escrow.py:81-208 | each operation keeps balances plus held amounts, in every currency, except a grant, which adds its amount |
| Escrow.EveryRunConserves | sdk-python/intermesh/escrow.py:81-208 | over every run, in every currency, balances and held amounts add up to the grants, and no balance is negative |
| Escrow.LeavingHeldPaysOneSide | sdk-python/intermesh/escrow.py:164-178 | leaving HELD pays the payee or the payer, by the amount of the hold, and changes no other balance and no other hold |
| Escrow.ResolvedStays | sdk-python/intermesh/escrow.py:202-208 | a resolved hold stays as it is in every later state |
| Escrow.GrantIff | sdk-python/intermesh/escrow.py:81-86 | a grant succeeds if and only if it is positive, and then exactly that balance grows by it |
| Escrow.HoldIff | sdk-python/intermesh/escrow.py:123-153 | a hold is made if and only if it names a task that has none, for a positive amount that the payer has; then exactly the payer has that much less; otherwise nothing changes |
| Escrow.ResolveIff | sdk-python/intermesh/escrow.py:164-208 | a hold is resolved if and only if it is held; then exactly the payee of a release, or the payer of a refund, has its amount more; otherwise nothing changes |
| Refusals.CustodyAnswer | sdk-python/intermesh/escrow.py:123-208 | each refusal to make or to resolve a hold, exactly when it is the answer |
| Hub.TaskDesk.Finalize | sdk-python/intermesh/hub.py:271-304 | the amount, the hold, then the registration; what stays when any of them fails |
| Hub.TaskDesk.Submit | sdk-python/intermesh/hub.py:1230-1352 | guardrails, load, human validation and finalisation, with the whole new state |
| Hub.TaskDesk.FederatedSubmit | sdk-python/intermesh/hub.py:623-655 | a task from a peer hub passes the guardrails and is registered without a hold |
| Hub.TaskDesk.Update | sdk-python/intermesh/hub.py:1354-1381 | a registered task's end releases or refunds its hold |
| Hub.TaskDesk.FederatedUpdate | sdk-python/intermesh/hub.py:657-670 | an update from a peer hub changes a status and no hold |
| Hub.TaskDesk.Approve | sdk-python/intermesh/admin.py:779-804 | popped, finalised, and put back when the hold is refused; lost when the hub cannot finalise or finalising raises |
| Hub.TaskDesk.Deny | sdk-python/intermesh/admin.py:807-817 | a waiting task in scope leaves the queue, and nothing else changes |
| Hub.TaskDesk.Cancel | sdk-python/intermesh/admin.py:336-346 | a task that is not terminal fails, and its hold stays |
| HubLaws.HeldBackIsFree | sdk-python/intermesh/hub.py:1294-1352 | in every reachable state a held-back task has neither a hold nor a registry entry, and every hold belongs to a registered task |
| HubLaws.FailedApprovalUnchanged | sdk-python/intermesh/admin.py:779-804 | an approval that does not deliver leaves the hub unchanged if and only if the hub can finalise, the amount of a requested hold is a number, and the task is well formed or its hold is refused; otherwise the queue loses its entry |
| HubLaws.MalformedApprovalStrandsHold | sdk-python/intermesh/hub.py:282-303 | for a malformed task the hold is made and stays, with no entry in queue or registry |
| HubLaws.UnreadableAmountLosesTask | sdk-python/intermesh/hub.py:282-290 | a held-back task whose escrow amount is no number is lost by its approval, which raises with no hold and no registration |
| HubLaws.RefusedCommitsNothing | sdk-python/intermesh/hub.py:1230-1320 | a submission that the guardrails or the load refuse leaves custody, registry and queue as they were; one held back leaves custody and registry; a violation does not reach the load check |
| HubLaws.UpdateSettles | sdk-python/intermesh/hub.py:1354-1381 | a report of completion or failure pays the one side of a hold that waits for it, a second report pays nothing, and any other report leaves custody as it was |
| HubLaws.DeniedNeverHeld | sdk-python/intermesh/admin.py:807-817 | a denied task never acquires a hold nor an entry, whatever happens afterwards |
| HubLaws.HubConserves | sdk-python/intermesh/hub.py:271-304 | over every run of the hub, balances and holds add up to the grants and no balance is negative |
| DeskLaws.DeliveredIff | sdk-python/intermesh/hub.py:271-304 | a task is delivered if and only if it is well formed and what it asks to be held can be paid by the submitter's organisation; then it is registered with its status, and the submitter's organisation has paid into a hold for the assignee's |
| DeskLaws.LoadCounts | sdk-python/intermesh/hub.py:358-378 | the load check counts exactly the tasks that wait or run, and exactly those that wait |
| DeskLaws.SubmissionFate | sdk-python/intermesh/hub.py:1230-1352 | a submission meets the guardrails, the load, the person who must validate it and the purse of the submitter, in this order; what is held back waits as submitted with nothing paid; exactly what passes all of them is delivered |
| DeskLaws.ApprovalDelivers | sdk-python/intermesh/admin.py:779-804 | an approval delivers if and only if the task waits in the approver's scope, the hub can finalise, and the task can be delivered and paid for by its first submitter; it then no longer waits |
| DeskRuns.WaitsIff | sdk-python/intermesh/admin.py:779-817 | after every run a task waits if and only if some submission of it was answered with a wait and since then nobody in scope denied it or approved it without its hold being refused; and it waits as it was submitted |
| DeskRuns.StatusIff | sdk-python/intermesh/hub.py:1354-1381 | after every run a task stands under a status if and only if some event gave it that status, by a delivery, a report of a registered task, a cancellation before its end or a retry, and no later event gave it any |
| HubLimits.HubQuota | sdk-python/intermesh/hub.py:1230-1320 | over every run of the hub, with tasks of peer hubs, approvals, reports and cancellations in between, no closed minute holds more submissions of an agent that broke no rule than its quota |
| HubLimits.HubRate | sdk-python/intermesh/hub.py:1260-1320 | over every run of the hub the tasks that pass the load check in a period are at most one bucket and what flows into it meanwhile; a rule broken before costs no token |
| Presence.PresenceTable.Clear | sdk-python/intermesh/store.py:373-384 | a row is removed only for the hub it names |
| Presence.PresenceTable.Touch | sdk-python/intermesh/store.py:463-469 | exactly the rows of one hub are refreshed |
| Presence.ClusterHub.Register | sdk-python/intermesh/hub.py:1121-1137 | the connection, and its row with the organisation of the identity |
| Presence.ClusterHub.Disconnect | sdk-python/intermesh/hub.py:1412-1421 | a known agent leaves, and its row with it if it is this hub's |
| Presence.ClusterHub.Heartbeat | sdk-python/intermesh/hub.py:1642-1659 | a sign of life refreshes exactly the rows of this hub |
| Presence.ClusterHub.Deliver | sdk-python/intermesh/hub.py:479-508 | local first, then a sibling of the same organisation with a fresh row |
| Presence.RowNamesLatestRegistration | sdk-python/intermesh/store.py:363-384 | after any interleaving of registrations, disconnections, heartbeats and crashes, a row names a hub if and only if the agent's latest registration was there and that hub has handled no disconnection of it since |
| Presence.LateDisconnectHarmless | sdk-python/intermesh/store.py:373-384 | a late disconnection elsewhere never erases the row |
| Presence.DisconnectErasesIff | sdk-python/intermesh/hub.py:1412-1421 | a disconnection erases the current row if and only if the row's own hub handles it while it knows the agent by name |
| Presence.OlderConnectionErasesNewer | sdk-python/intermesh/hub.py:1412-1421 | of two connections of an agent to one hub, the older one closing late removes the row and the newer connection |
| Presence.FoundIsFresh | sdk-python/intermesh/store.py:391-408 | a row that is found was refreshed within 45 seconds by its hub, which was up then |
| Presence.SilentHubForgotten | sdk-python/intermesh/store.py:391-408 | 45 seconds after a hub's last sign of life no lookup returns it |
| Presence.AtMostOneHop | sdk-python/intermesh/hub.py:925-940 | over every run a message makes at most one hop between siblings and is delivered at most once |
| PresenceLaws.GoesWhere | sdk-python/intermesh/hub.py:479-508 | a message is delivered if its agent is connected to this hub; otherwise it is handed to another hub if and only if there is a link to it and the table places the agent there, in the same organisation and with a sign of life within 45 seconds |
| PresenceLaws.ArrivesOnce | sdk-python/intermesh/hub.py:925-940 | a relayed message is delivered where it arrives if and only if that hub is up and has the agent, and is never sent on |
| PresenceLaws.RelayedToItsHub | sdk-python/intermesh/store.py:363-408 | in every run a message is handed only to another hub that the agent last registered with, under the organisation of the hub that hands it over, and that gave a sign of life within 45 seconds |
| Negotiation.Negotiate | examples/negociation_partenariat.py:206-256 | the five-turn loop returns the outcome of the specification |
| Negotiation.DealHonoursBoth | portal/src/components/NegotiationDemo.tsx:140-180 | a concluded deal lies between floor and ceiling, above both minima, without exclusivity below the producer's volume, and on the opening duration and volume |
| Negotiation.NoDealWhenIncompatible | examples/negociation_partenariat.py:206-256 | incompatible mandates never conclude |
| Negotiation.SafeIffCoherent | examples/negociation_partenariat.py:206-211 | a distributor is safe with every producer if and only if what it wants lies within its own limits |
| Negotiation.ConcessionPassesCeilingIff | examples/negociation_partenariat.py:113-125 | a concession of the distributor passes its own ceiling if and only if the turn is at most 3, or the step to the ceiling is rounded above it |
| Negotiation.ProposalsPassOwnCeiling | examples/negociation_partenariat.py:113-125 | wanting 12 and never more than 14 against a floor of 30, the first proposal of the distributor is above 14, for any rounding and floating-point error within the bounds |
| Concessions.ConcludesIff | examples/negociation_partenariat.py:113-125 | for any arithmetic, compatible mandates conclude if and only if the producer's own concessions, four or three once an exclusivity is dropped, lead from the distributor's wish to the producer's floor with no step that the arithmetic finds below 0.2; the deal is then at the larger of wish and floor, with the rest of the opening offer and no exclusivity below the producer's volume |
| Concessions.GapDecides | examples/negociation_partenariat.py:206-256 | between mandates in whole tenths, compatible ones conclude if and only if the gap is at most 0, or at least 0.2 a step with every step of exactly two tenths passing the floating-point comparison with 0.2 |
| Concessions.FloatsDecideBand | examples/negociation_partenariat.py:121-122 | from 0.2 a step up to less than 0.3 that comparison always decides: such mandates part if it fails every difference of two tenths, and meet if it passes them all |
| Concessions.AnyRoundingBounds | examples/negociation_partenariat.py:206-256 | for any rounding within 0.051 and any differences within 0.001, compatible mandates part over a positive gap below 0.199 a step, and conclude at no gap or from 0.3 a step on (1.2, or 0.9 after an exclusivity) when the last step reaches the floor |
| Concessions.FourteenAgainstFifteen | examples/negociation_partenariat.py:113-125 | where 14.25 is rounded to 14.2 and 14.2 less 14.0 is found below 0.2, as in binary floating point, a distributor that wants 14 and would give 18 parts from a producer that would take 15 |

## Left out

- Cryptography, PEM parsing and key files: keys are named by their PEM text, and ideal properties are hypotheses.
- Lone surrogates, which the parser of the model refuses and its texts cannot hold; Python's limits on the digits of integers and on nesting; bodies in another encoding than UTF-8 or with a byte order mark.
- GateLaws.AdmitRaisesIff: for headers whose body is UTF-8 text without unpaired surrogate escapes and within Python's limits on digits and nesting; the model takes others as unreadable.
- The register address of a challenge that is not a text: it is read as none, where Python keeps the value.
- `\d` and `str.upper` beyond ASCII in price texts; the capitals of a method name are any function.
- The order of rows in exported dictionaries, and the `on_change` hooks.
- `Price` values finer than 1e-8, and the arithmetic operators of `Price`.
- One reading of the clock serves a whole call of the gate and of the approval store; the forward begins after the approval was used.
- The text of refusals; the identifiers and times of holds; audit entries and broadcasts of the hub.
- Files as text: a journal is a sequence of records, so a write leaves a whole record or none, and torn lines and blank lines do not occur; a `chmod` that fails after the write.
- A write of the journal that fails interrupts its handler; the answer that is then not sent is a flag of the model.
- A journal file written by others: `EvidenceStore.Resume` treats a record whose `evidence` is not a dictionary as one without a hash, where Python raises.
- Egress filtering, policy matching, approval rules and forbidden patterns: their verdicts are inputs.
- The depth of cascades and the cost of a submission are inputs; a cost that is not a number raises before anything is done.
- The guardrail policy is one for a whole run; the code looks it up by organisation.
- Snapshots, identities, API keys, the SQL dialects and the retries of the store: a table is a map; writes of the presence table do not fail.
- Federation between organisations beyond what it does to registry and custody; messages that leave the cluster.
- `clear_hub_presence`, which no hub calls.
- The sockets, the tunnels, the dashboards and the command line.
- Floating point in escrow and time: real numbers, with rounding where the code rounds.
- Escrow.EveryRunConserves: for finite amounts; a NaN, which is neither below nor above anything, has no value in this model.
- HubLaws.HubConserves: for finite amounts, likewise.
- Floating point in the negotiation is a parameter: the rounded concession and the difference compared with 0.2; mandates and offers are the numbers their decimal texts name.
- The network of the negotiation example: the loop calls the other side directly.
