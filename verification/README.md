# Verification of mpp-go's payment core

mpp-go settles payments over HTTP 402. A server issues HMAC-bound challenges, a client pays one, and
the server verifies the transfer and consumes it once. This project models the parts of the
repository on which that promise rests and proves them in Dafny. `dafny verify dfyconfig.toml`
checks everything.

The proofs are about four connected parts.

**Settlement.** `ReplayStore.dfy` is the replay store: a reference table with deadlines, the
`MemoryStore` class with its lazy eviction and rate-limited sweep, and the proof that the two answer
every run of calls alike, also under printed keys. `Settlement.dfy` models every attempt to settle a
credential as a program of store, RPC and clock steps and lets any number of them interleave with each
other, with crashes and with failures: at most one success per transaction or proof. `Deadlines.dfy`,
`SharedTransaction.dfy` and `DeadlineConflicts.dfy` say of which presented credentials that holds when
replay keys expire, and `Deployment.dfy` carries it over to a server that runs with MemoryStore.
`Recovery.dfy` and `Retry.dfy` exclude crashes and store or RPC failures and prove what failed attempts
leave behind, and that a lone retry settles a payment that is already on chain. `FreshPayment.dfy` proves
that a new payment that nothing stands in the way of is credited, and that one that was refused never is;
`Screening.dfy` that whatever is credited has passed every check.

**Paying and matching.** `Decimal.dfy`, `Hex.dfy`, `Addresses.dfy` and `ChargeRequest.dfy` are the
request: exact decimal parsing, canonical texts, splits, and the round trip through a challenge;
`RequestMeaning.dfy` says which request any parameters or map amount to. `Attribution.dfy` is the memo
that names a challenge. `Calldata.dfy` and `Payment.dfy` are the two ends of a transaction, from the
client's transfers to the server's check, and `PaidCharge.dfy` is what a yes of that check means in bytes,
tokens, amounts and recipients. `Assignment.dfy`, `Matching.dfy` and `MatchingTheorems.dfy` are the greedy
matching of transfers: when it is exact, when it is not, and that one list of transfers names one
challenge. `CanonicalReceipts.dfy` collapses paired logs so value counts once. `Sponsor.dfy` is the fee
payer's gas budget and validity window.

**Client loops.** `RoundTrip.dfy` is the HTTP transport's payment loop and `McpLoop.dfy` its sibling
for MCP, each against an arbitrary server; `PaymentRounds.dfy` and `McpRounds.dfy` give the rules every
round follows, told from the trace alone. `SingleFlight.dfy` is the protocol by which concurrent
callers share one signing.

**Challenges on the wire.** `Quoted.dfy` and `AuthParams.dfy` are the printer, parser and splitter of
authentication headers (RFC 9110, sections 5.6.4 and 11.2), `SplitLaws.dfy` how headers of any scheme
split. `Challenges.dfy` carries challenges and credentials across them. `Binding.dfy` is the HMAC
preimage, `Verify.dfy` the server's decision and what any number of decisions reveal, `Issuance.dfy` the
proof that a server accepts what it issues, and `Outcomes.dfy` the answer to every request, case by case.

Keccak-256, HMAC-SHA256, address checksums, JSON, base64url and the body digest are functions the
theorems are quantified over. Where a theorem needs a property of one of them, it is a named predicate
among its requirements: `Spells` (a checksum changes only the case of hex digits), `Lossless` (the JSON
encodings have a left inverse and yield base64url text), `Sound` (that, and a body digest in normal
form), `Unforgeable` (nobody presents a MAC that was not revealed), `Injective` (the JSON text of an
echo), `OneEnvelope` (the expiring nonce lets one envelope of a sponsored transaction in) and
`PaysOneChallenge` (a transaction satisfies the charge of one challenge). Errors are values: which
error is returned is kept where the protocol depends on it and reduced to "none" elsewhere.

Findings that the statements record:

- With expiring replay keys, a transaction or proof is settled at most once if and only if no two of
  the credentials that may claim its key are in conflict (`DeadlineConflicts.SettlesOnceIffNoConflict`).
  Two credentials with different expiries are in conflict unless clocks are synchronized, both have
  the fee payer send one transaction, the later one expires within the grace of the earlier one, and no
  third credential for that transaction expires so early that its claim can lapse before the earlier
  one does. Without synchronized clocks this says that all of them have one expiry. They have when a
  transaction pays one challenge and a challenge fixes its expiry
  (`Deadlines.SettledAtMostOnceExpiring`), which `MatchingTheorems.TransfersNameOneChallenge` and the
  HMAC over the expiry are for.
- The greedy matching is exact for every list of transfers if and only if no split repeats the primary
  recipient and amount with a configured memo that itself verifies as attribution for the challenge
  (`MatchingTheorems.MatchIsExactIffUnambiguous`). Payments built by this client match in any case
  (`Payment.ClientPaymentMatches`).
- The transport's rule that nothing is paid after a hash credential was sent holds, whatever servers do
  and whatever types of credential are mixed, if and only if the caller brought a hash or the retries
  are too few to forget one: at most three, or two if the caller brought a credential of another type
  (`RoundTrip.HashIsLastPaymentIff`). The default of three keeps it unless the caller brought such a
  credential; with more retries a re-offered challenge makes the loop forget the hash. Runs in which
  every credential sent is a hash pay once in any case (`RoundTrip.HashesPayOnce`).
- A lone retry of a charge sponsored by a local fee payer settles if and only if the fee payer's policy
  admits its envelope under the fee token selected now (`Retry.LoneRetrySettles`).
- A credential parses back to the same one if and only if its metadata is echoed in an encoding that
  decodes to it (`Challenges.CredentialRoundTrip`); the echo of a parsed challenge always is.
- A sponsored valid_before chosen by the client meets the server's floor exactly up to 45 seconds after
  signing, rounded to whole seconds, or when the challenge's own cap was what the client chose
  (`Sponsor.ValidBeforeSurvivesDelivery`).

## Model

| member | source | states |
|---|---|---|
| `ReplayStore.MemoryStore.constructor` | pkg/tempo/store.go:65-67 | a new store is empty and has never swept |
| `ReplayStore.MemoryStore.Get` | pkg/tempo/store.go:70-76 | a read drops the entry when it has expired and answers what is left |
| `ReplayStore.MemoryStore.Put` | pkg/tempo/store.go:79-85 | stores for good, forgetting an earlier expiry |
| `ReplayStore.MemoryStore.PutIfAbsent` | pkg/tempo/store.go:88-97 | claims for good exactly when no live entry is there |
| `ReplayStore.MemoryStore.PutIfAbsentUntil` | pkg/tempo/store.go:102-120 | claims until a deadline, refuses one that has passed, and may sweep on the way |
| `ReplayStore.MemoryStore.Delete` | pkg/tempo/store.go:123-129 | removes value and expiry |
| `ReplayStore.MemoryStore.EvictExpired` | pkg/tempo/store.go:132-137 | removes exactly an expired entry of that key |
| `ReplayStore.MemoryStore.SweepExpired` | pkg/tempo/store.go:142-153 | at most once a minute, removes exactly the expired entries |
| `ReplayStore.StepRefines` | pkg/tempo/store.go:69-153 | one call on MemoryStore and on the reference table answer alike and stay indistinguishable from then on |
| `ReplayStore.MemoryStoreRefines` | pkg/tempo/store.go:69-153 | under a clock that never runs back, eviction and sweep never change an answer of any run of calls |
| `ReplayStore.NoSecondClaim` | pkg/tempo/store.go:87-120 | between a successful claim and its deadline or Delete no second claim of the key succeeds |
| `ReplayStore.MemoryStoreNoSecondClaim` | pkg/tempo/store.go:87-120 | the same for MemoryStore itself |
| `ReplayStore.ChargeStoreKeyFoldsCase` | pkg/tempo/store.go:155-162 | two spellings of a hash share a key exactly when they differ in case only |
| `ReplayStore.KeyPrintInjective` | pkg/tempo/store.go:155-174 | the key namespaces never collide: equal printed keys mean the same thing |
| `ReplayStore.MemoryStoreServesKeys` | pkg/tempo/store.go:69-174 | MemoryStore under printed keys answers every run of calls like a table of what the keys mean |
| `Settlement.ResumeDiscipline` | pkg/tempo/server/charge.go:658-1010 | every continuation of an attempt keeps a claim only when it won it and gives it up only by Delete |
| `Settlement.ClaimStepKeepsInv` | pkg/tempo/server/charge.go:1157-1185 | a claim, a refusal, a release or a failed store write keeps every attempt's claims disjoint and in the store until their deadline |
| `Settlement.NextKeepsInv` | pkg/tempo/server/charge.go:658-1010 | every step of the system, including crashes, keeps the claim invariant |
| `Settlement.SettledAtMostOnce` | pkg/tempo/server/charge.go:658-1010 | with permanent keys at most one attempt ever succeeds per case-folded transaction hash or proof challenge, over every interleaving |
| `Deadlines.ClaimIsOwn` | pkg/tempo/server/charge.go:658-1010 | an attempt claims only keys that its statically validated credential may claim |
| `Deadlines.AgreedSettlesOnce` | pkg/tempo/server/charge.go:1157-1185 | with any delays, at most one success for all time on a key whose claimants have one expiry |
| `Deadlines.SettledAtMostOnceExpiring` | pkg/tempo/server/charge.go:1166-1185 | so at most one success on every key, if a transaction pays one challenge and a challenge fixes its expiry |
| `Deadlines.ReleaseDeletesOwnClaimOnly` | pkg/tempo/server/charge.go:721-734 | a release, however slow, deletes a key of its own attempt that no other attempt relies on |
| `SharedTransaction.EntangledSettlesOnce` | pkg/tempo/server/charge.go:736-1001 | synchronized fee-payer attempts on one transaction settle at most once although their deadlines differ, when no two of their credentials are separable |
| `DeadlineConflicts.ConflictSettlesTwice` | pkg/tempo/server/charge.go:1157-1185 | any two credentials of whatever kind in conflict over a key, claimed under different expiries, both succeed in some run |
| `DeadlineConflicts.SettlesOnceIffNoConflict` | pkg/tempo/server/charge.go:1157-1185 | every run settles a key at most once exactly when no two credentials that may claim it are in conflict, and without synchronized clocks exactly when they have one expiry |
| `Deployment.DeployedRunIsPresented` | pkg/tempo/store.go:69-174 | every run of the protocol over MemoryStore and printed keys is a run over a table of keys |
| `Deployment.MemoryStoreSettlesOnce` | pkg/tempo/store.go:69-174 | a server over MemoryStore settles each transaction and proof at most once, with or without expiring keys |
| `Recovery.ReliableRunKeeps` | pkg/tempo/server/charge.go:697-1010 | what each program point knows about chain, store and claims holds throughout every reliable run |
| `Recovery.ClaimsAreBalanced` | pkg/tempo/server/charge.go:721-734 | a failed attempt has removed exactly the keys it claimed unless the outcome is terminal, and every stored key belongs to an attempt that keeps it |
| `Retry.KeyIsFree` | pkg/tempo/server/charge.go:613-638 | the keys a lone retry needs are not in the store |
| `Retry.RetryMoves` | pkg/tempo/server/charge.go:770-777 | every step of the retry stays on the path that settles from the receipt, past valid_before and under another fee token too |
| `Retry.LoneRetrySettles` | pkg/tempo/server/charge.go:854-1001 | when a lone retry before expiry stops, it has succeeded for the transaction on chain exactly if the sponsor's policy admits its envelope, after at most 2n+13 calls |
| `Retry.RetryCanMove` | pkg/tempo/server/charge.go:697-1010 | a retry that has not stopped can always take a reliable step |
| `FreshPayment.FreshPaymentSettles` | pkg/tempo/server/charge.go:658-1010 | a lone new attempt of any kind whose keys are free, whose checks pass and whose transaction is mined, its send answered with that hash or failed, stops credited for its own transaction or challenge with its claims kept, after at most n+20 calls |
| `FreshPayment.FreshCanMove` | pkg/tempo/server/charge.go:658-1010 | until it has stopped such an attempt can always take a favourable step |
| `FreshPayment.RefusalDooms` | pkg/tempo/server/charge.go:658-1010 | an answer that refuses, per program point, fails the attempt at once and for that reason, a receipt found early when it is used |
| `FreshPayment.RefusedIsNeverCredited` | pkg/tempo/server/charge.go:658-1010 | over every run, with crashes, failures and other attempts, an attempt that heard a refusal is never credited afterwards |
| `Screening.CreditedPassedItsScreen` | pkg/tempo/server/charge.go:658-1010 | over every run, a credited attempt was asked every check its kind of credential has to pass, and passed it, at an earlier step |
| `Attribution.EncodeAttribution` | pkg/tempo/attribution.go:35-45 | the buffer filled slice by slice is tag, version, server and client fingerprints and challenge nonce |
| `Attribution.LayoutVerifies` | pkg/tempo/attribution.go:48-98 | a memo laid out for a realm and challenge verifies for exactly those with the same fingerprint and nonce |
| `Attribution.VerifiedIsAttribution` | pkg/tempo/attribution.go:61-71 | a memo that verifies for a server is an attribution memo, prefix or not |
| `Attribution.MemoBindsOneChallenge` | pkg/tempo/attribution.go:61-84 | a memo that verifies for two realms and challenges has equal fingerprints and nonces |
| `Assignment.GreedyIsSound` | pkg/tempo/server/charge.go:1549-1596 | what the first-unused choice finds is an assignment of distinct transfers |
| `Assignment.GreedyIsComplete` | pkg/tempo/server/charge.go:1549-1596 | under the exchange property it finds one whenever one exists |
| `Matching.SortExpectedTransfers` | pkg/tempo/server/charge.go:1599-1607 | the in-place swaps compute the specified reordering |
| `Matching.SortedFacts` | pkg/tempo/server/charge.go:1599-1617 | that reordering is a permutation ordered by priority and leaves an attributed first element first |
| `Matching.TakeFirst` | pkg/tempo/server/charge.go:1552-1591 | marks the first unused transfer the want accepts, and only that |
| `Matching.MatchTransfers` | pkg/tempo/server/charge.go:1545-1597 | agrees with the greedy specification and says yes only if a bijection respecting recipient, amount and memo rules exists |
| `MatchingTheorems.RuleYields` | pkg/tempo/server/charge.go:1561-1590 | the exchange property of the memo rules between wants that do not conflict |
| `MatchingTheorems.MatchIsExact` | pkg/tempo/server/charge.go:1545-1617 | for an unambiguous charge the answer is yes precisely when a bijection exists |
| `MatchingTheorems.MatchIgnoresOrder` | pkg/tempo/server/charge.go:1545-1617 | the answer does not depend on the order of calls, logs or splits |
| `MatchingTheorems.InOrderMatches` | pkg/tempo/server/charge.go:1545-1617 | transfers listed in the order of the charge match, ambiguous or not |
| `MatchingTheorems.MatchIsExactIffUnambiguous` | pkg/tempo/server/charge.go:1561-1576 | exactness on all lists holds if and only if no split's memo competes with the primary transfer |
| `MatchingTheorems.TransfersNameOneChallenge` | pkg/tempo/server/charge.go:1569-1585 | a list that matches two charges, the second without attribution memos on splits, has equal realm fingerprints and challenge nonces |
| `CanonicalReceipts.PairedTransferIndex` | pkg/tempo/server/charge.go:1441-1452 | finds an unskipped plain event for the same payment, or there is none |
| `CanonicalReceipts.CanonicalReceiptTransfers` | pkg/tempo/server/charge.go:1418-1439 | succeeds exactly when every memo event can be paired, keeps every memo event in order, and stands for the payments of the plain events alone |
| `CanonicalReceipts.PaidOnce` | pkg/tempo/server/charge.go:1396-1400 | when the collapsed logs match a charge, the plain events moved exactly the expected amounts to the expected recipients |
| `Decimal.ToDecimalSpells` | pkg/tempo/request.go:203 | a number's decimal text is the canonical numeral and reads back as the number |
| `Decimal.CanonicalIsToDecimal` | pkg/tempo/request.go:384-388 | a canonical numeral is the only such spelling of its number |
| `Decimal.UnitsAreExact` | pkg/mpp/units.go:9-14 | the parsers answer n exactly when the string is a decimal whose value times 10^decimals is n |
| `Decimal.ParseAmount` | pkg/mpp/units.go:15-67 | computes those base units, refusing what is not whole |
| `Decimal.ParseUnitsString` | pkg/tempo/request.go:343-389 | the same, as the canonical numeral |
| `Decimal.ParseUnits` | pkg/tempo/client/policy.go:113-139 | the same for the client's policies |
| `Addresses.SpelledAddress` | pkg/tempo/request.go:632-637 | the checksummed text of an address reads back as that address |
| `Addresses.NormalizeIsIdempotent` | pkg/tempo/request.go:632-637 | normalizing an address twice is normalizing it once |
| `ChargeRequest.ValidateCanonicalSplits` | pkg/tempo/request.go:590-613 | accepts exactly positive splits whose sum is less than the total |
| `ChargeRequest.NormalizeSplits` | pkg/tempo/request.go:514-541 | normalizes at most ten splits and validates their sum |
| `ChargeRequest.ParseSplits` | pkg/tempo/request.go:543-588 | reads one to ten splits from either form of list |
| `ChargeRequest.NormalizedIsCanonical` | pkg/tempo/request.go:134-185 | a normalized request has canonical amounts, addresses and memos and valid splits |
| `ChargeRequest.ParsedIsCanonical` | pkg/tempo/request.go:188-233 | so has every request that parses |
| `ChargeRequest.RequestRoundTrip` | pkg/tempo/request.go:188-341 | a canonical request reads back unchanged from its map, before and after JSON |
| `ChargeRequest.NormalizedRoundTrip` | pkg/tempo/request.go:134-341 | so parsing the map of a normalized request returns that request |
| `RequestMeaning.NormalizeMeans` | pkg/tempo/request.go:134-185 | parameters give a request exactly when it has the amount times 10^decimals, the same accounts for currency and recipient, the same splits in order leaving some of the amount, and all other fields as given |
| `RequestMeaning.ParseMeans` | pkg/tempo/request.go:188-233 | a map, canonical or not, parses to a request exactly when the request has the numbers, accounts, memos, splits, chain ID, fee payer and modes the map spells |
| `Calldata.TransferRoundTrip` | pkg/tempo/abi.go:25-27 | the server decodes from transfer calldata the recipient and amount the client encoded |
| `Calldata.MemoTransferRoundTrip` | pkg/tempo/abi.go:31-39 | and from transferWithMemo calldata also the memo, in lower case |
| `Calldata.SmallNumbersFit` | pkg/tempo/abi.go:67-72 | every amount below 2^256 fits its word |
| `Payment.BuildTransfers` | pkg/tempo/client/method.go:753-778 | the loop computes the primary transfer and one per split, or refuses an unreadable amount |
| `Payment.TransfersConserve` | pkg/tempo/client/method.go:758-776 | splitting creates and loses no value, whatever the amounts |
| `Payment.TransfersAddUp` | pkg/tempo/client/method.go:753-778 | for a canonical request the transfers sum to the amount; with splits all of them are positive |
| `Payment.BuildExpectedTransfers` | pkg/tempo/server/charge.go:1469-1491 | the loop computes the attributed primary and one want per split |
| `Payment.TransactionMatches` | pkg/tempo/server/charge.go:1234-1254 | checks token, value and access list of every call and matches the decoded transfers |
| `Payment.CallRoundTrip` | pkg/tempo/client/method.go:780-786 | a transfer the client encodes is the transfer the server decodes |
| `Payment.ClientPaymentMatches` | pkg/tempo/server/charge.go:1234-1254 | the calls a client builds for a canonical request always match on the server for that challenge |
| `Payment.ParsedPaymentMatches` | pkg/tempo/server/charge.go:1234-1254 | the same for every request that parses with amounts below 2^256, and the transfers sum to the amount |
| `PaidCharge.DecodedIsMovement` | pkg/tempo/server/charge.go:1493-1525 | calldata decodes to a transfer exactly when its bytes are a transfer selector, an address and number word, and a memo word |
| `PaidCharge.AcceptedIff` | pkg/tempo/server/charge.go:1234-1254 | yes exactly when there is no access list and one call per expected transfer, each to the requested token without value and with transfer calldata, and the transfers match |
| `PaidCharge.AcceptedPaysAsAsked` | pkg/tempo/server/charge.go:1234-1254 | a yes means that the calls move, on the requested token, the rest of the amount to the recipient under a memo for this challenge and each split to its recipient under its memo; for an unambiguous charge every such transaction gets a yes |
| `PaidCharge.AcceptedMovesTheAmount` | pkg/tempo/server/charge.go:1234-1254 | what an accepted transaction moves sums to the requested amount |
| `Sponsor.SimulationStaysWithinPolicy` | pkg/tempo/server/charge.go:1752-1764 | the simulation copy passes the policy, adds at most 6000 gas, never lowers it, fits 64 bits, and is the largest such gas |
| `Sponsor.SignableMeetsFloor` | pkg/tempo/client/method.go:582-602 | the client's check before signing is the server's floor at the same instant |
| `Sponsor.ValidBeforeSurvivesDelivery` | pkg/tempo/client/method.go:649-667 | the chosen valid_before passes floor and caps at an arrival before expiry exactly when the arrival, rounded up, is within 45 seconds of signing or the challenge cap was chosen |
| `Sponsor.UnboundedChallengeSurvivesDelivery` | pkg/tempo/client/method.go:649-653 | without an expiry it passes exactly within 45 seconds |
| `Sponsor.ChoiceIsSignable` | pkg/tempo/client/method.go:641-667 | a client finds a valid_before exactly when 15 seconds are left, and what it finds is signable at once, lasts at most a minute and ends soon after the challenge |
| `Sponsor.KeyAuthorizationMatters` | pkg/tempo/server/charge.go:2259-2262 | installing a key is refused exactly under a policy that rejects it |
| `Sponsor.SponsorPaysAtMost` | pkg/tempo/server/charge.go:2263-2286 | whatever gas is used, at whatever price up to the declared one, the sponsor pays at most its budget |
| `Sponsor.LessIsAdmitted` | pkg/tempo/server/charge.go:2259-2302 | a transaction that asks for no more than an admitted one is admitted, then and later |
| `RoundTrip.Creator.Create` | pkg/client/transport.go:404-415 | runs the method once and repeats its first result |
| `RoundTrip.CreateCredential` | pkg/client/transport.go:395-437 | what the hook makes of the run-once closure, and when the payment counts as declined |
| `RoundTrip.PayFor` | pkg/client/transport.go:246-281 | prepares the retry, reuses or creates the credential of the challenge, keeps and prints it |
| `RoundTrip.DoRoundTrip` | pkg/client/transport.go:122-289 | the loop computes the specified trace and result |
| `RoundTrip.SendsAreBounded` | pkg/client/transport.go:144-196 | at most maxRetries+1 requests are sent |
| `RoundTrip.CreatesAreBounded` | pkg/client/transport.go:241-273 | per challenge at most one creation more than invalid-payload answers to rounds that sent its credential |
| `RoundTrip.HashesPayOnce` | pkg/client/transport.go:233-240 | if only hash credentials are sent, one creation at most, and none when the caller brought a credential |
| `RoundTrip.RunEnds` | pkg/client/transport.go:145-192 | nothing follows an unknown outcome or an expired caller credential; unknown is reported exactly when a paid request failed so; a decline made no credential |
| `RoundTrip.CredentialsStayWithTheirChallenge` | pkg/client/transport.go:256-287 | each credential goes out only for the challenge it was obtained for |
| `RoundTrip.RoundTripIsSafe` | pkg/client/transport.go:122-289 | all of these for every server, hook and method |
| `RoundTrip.MixedTypesMayPayAgain` | pkg/client/transport.go:233-283 | for every other caller and number of retries some server makes the loop forget a hash and pay again |
| `RoundTrip.HashIsLastPaymentIff` | pkg/client/transport.go:144-288 | no creation follows the sending of a hash, in any environment, exactly when the caller brought a hash or the retries are at most three, less one for a caller's credential of another type |
| `PaymentRounds.RoundsFollow` | pkg/client/transport.go:122-289 | every request of every run is followed by exactly what the rules say of its reply, hook and method: how it ends, what is created, and whose credential the next request carries |
| `PaymentRounds.RefusalPaysNothing` | pkg/client/transport.go:416-432 | when the hook fails without having called createCredential, nothing is created or sent any more and the run is declined |
| `PaymentRounds.DeclinedIff` | pkg/client/transport.go:419-432 | a run is declined exactly when its last round was to pay with a new credential and its hook failed without one having been made, the error being its own |
| `McpLoop.Cache.Pay` | pkg/mcp/client/client.go:241-279 | reuses the credential of an identical challenge, or approves, creates and stores one |
| `McpLoop.Middleware` | pkg/mcp/client/client.go:144-166 | the loop computes the specified trace |
| `McpLoop.MiddlewareIsSafe` | pkg/mcp/client/client.go:144-184 | at most four calls, per challenge one creation more than its rejections, and a credential is sent only for an identical challenge |
| `McpRounds.CallsFollow` | pkg/mcp/client/client.go:144-184 | every call of every run is followed by exactly what the rules say: the credential of an identical challenge, a new one if the user approves, or the end |
| `McpRounds.CreatesAreApproved` | pkg/mcp/client/client.go:241-279 | a credential is created only in answer to the demand just before it, for its challenge, and with approval |
| `SingleFlight.MoveKeepsInv` | pkg/tempo/client/method.go:271-321 | every step of a caller keeps map, calls and callers consistent |
| `SingleFlight.SigningsNeverOverlap` | pkg/tempo/client/method.go:262-322 | two executions of createCredential for one challenge never overlap |
| `SingleFlight.EntryMeansActive` | pkg/tempo/client/method.go:294-309 | a map entry exists only while the leader of that signing is active |
| `SingleFlight.OutcomeIsFinal` | pkg/tempo/client/method.go:301-317 | a recorded outcome, its key and its leader never change |
| `SingleFlight.JoinersShare` | pkg/tempo/client/method.go:277-292 | joiners return the credential of the signing they joined, the same for all, for their own challenge |
| `SingleFlight.WokenGetsTheCredential` | pkg/tempo/client/method.go:279-292 | whoever wakes from a signing that made a credential has that credential at every later point, or has not looked yet |
| `SingleFlight.FailedForAReason` | pkg/tempo/client/method.go:279-292 | a caller fails only if it was cancelled or the signing it joined ended in an error or a panic |
| `SingleFlight.WaitersAreNotStuck` | pkg/tempo/client/method.go:279-311 | a waiter can wake, or the leader it waits for can move |
| `SingleFlight.FinishReleasesJoiners` | pkg/tempo/client/method.go:301-311 | whatever is interleaved, a leader that finished or panicked takes two more steps, can always take the next, and then every joiner can wake |
| `Quoted.RuneRoundTrip` | pkg/mpp/parse.go:438-445 | a decoded rune is a scalar value and encodes as its bytes |
| `Quoted.EscapeReads` | pkg/mpp/parse.go:207-234 | the parser reads back every escape the printer writes past Latin-1, surrogate pairs included |
| `Quoted.EscapeQuoted` | pkg/mpp/parse.go:433-464 | the loop computes the escape rune by rune |
| `Quoted.ReadQuotedAuthParamValue` | pkg/mpp/parse.go:181-205 | the loop reads the specified value and stops behind the closing quote |
| `Quoted.EscapeRoundTrip` | pkg/mpp/parse.go:181-464 | unescaping an escaped value returns it without CR and LF, for every string |
| `Quoted.EscapeIsLossless` | pkg/mpp/parse.go:181-464 | so it returns the value itself exactly when it has neither |
| `AuthParams.ParseAuthParams` | pkg/mpp/parse.go:27-84 | the index loops compute the specified params, duplicates and malformed separators refused, a description's tail ignored |
| `AuthParams.ReadAuthParamValue` | pkg/mpp/parse.go:170-179 | reads a quoted value or the trimmed text up to a comma |
| `AuthParams.NextChallengeStart` | pkg/mpp/parse.go:121-139 | a token followed by a blank starts a challenge, a param does not |
| `AuthParams.SplitAuthenticate` | pkg/mpp/parse.go:88-119 | the scanning loop computes the specified split |
| `AuthParams.ParamsRoundTrip` | pkg/mpp/parse.go:27-84 | parsing printed params gives those params |
| `AuthParams.UnquotedRoundTrip` | pkg/mpp/parse.go:27-179 | so does parsing params with unquoted values |
| `AuthParams.EscapedScans` | pkg/mpp/parse.go:97-113 | an escaped value never ends the quoted string it stands in |
| `AuthParams.SplitUndoesJoin` | pkg/mpp/parse.go:88-139 | splitting comma-joined challenges gives back exactly that list |
| `SplitLaws.SplitComposes` | pkg/mpp/parse.go:88-139 | for any schemes, a comma outside quotes before a token and a blank splits a header into the parts of both sides |
| `SplitLaws.WholeIsOnePart` | pkg/mpp/parse.go:88-139 | and a header without such a comma is one part |
| `Challenges.OpaqueReads` | pkg/mpp/challenge.go:430-487 | the opaque parameter decodes to the metadata and encodes back to itself, raw and non-canonical ones included |
| `Challenges.ChallengeRoundTrip` | pkg/mpp/parse.go:237-415 | every challenge FormatChallenge accepts parses back to the same fields |
| `Challenges.ParsedCarriesParams` | pkg/mpp/parse.go:237-308 | a challenge is parsed exactly from params that are complete and decode, and carries them |
| `Challenges.FormattedChallengesSplit` | pkg/mpp/parse.go:86-119 | and a merged header of them splits into exactly those texts |
| `Challenges.CredentialRoundTrip` | pkg/mpp/parse.go:470-669 | a formatted credential is found in its header and parses back to the same payload and source, and to the same echo exactly if its metadata is echoed in an encoding that decodes to it |
| `Binding.JoinIsInjective` | pkg/mpp/hmac.go:77-91 | joining pipe-free parts is injective, also across lists of different length |
| `Binding.MessageIsInjective` | pkg/mpp/hmac.go:42-94 | two accepted inputs with the same preimage agree in every field, header or its absence included |
| `Binding.BoundIsBindable` | pkg/mpp/hmac.go:43-75 | whatever passes the field checks has no delimiter in any part |
| `Verify.DoVerifyOrChallenge` | pkg/server/verify.go:85-160 | issues a challenge from server parameters and answers what is presented |
| `Verify.AnswerPresented` | pkg/server/verify.go:142-160 | finds and parses the credential, and decides on it |
| `Verify.DecideCredential` | pkg/server/verify.go:162-271 | the early-return chain computes the specified decision |
| `Verify.ReleaseIsSafe` | pkg/server/verify.go:142-275 | a released ID binds server-chosen parameters or is the genuine ID the client presented |
| `Verify.VerifiedIsBound` | pkg/server/verify.go:187-245 | a verified credential has a genuine ID and this route's realm, method, intent, request, metadata and digest, before its expiry |
| `Verify.RevealedWasIssued` | pkg/server/verify.go:130-271 | over any run, every MAC revealed authenticates fields a holder of the key chose |
| `Verify.VerifiedWasIssued` | pkg/server/verify.go:130-271 | over any run, every verified credential echoes exactly the fields of a challenge some holder of the key issued |
| `Issuance.EchoedHasId` | pkg/server/verify.go:162-187 | recomputing the ID from the echo of an issued challenge gives that ID |
| `Issuance.ReleasedIsAccepted` | pkg/server/verify.go:97-245 | any challenge released, for whatever reason, passes every check up to settlement when submitted before expiry on the same route |
| `Issuance.ScopeIsCarried` | pkg/server/server.go:409-425 | a credential verified under a scope carries it next to the handler's own metadata |
| `Issuance.SelectChargeOffer` | pkg/server/server.go:542-564 | the loop picks the first offer whose request the credential echoes, or the first of all |
| `Issuance.FirstOfferIsFirst` | pkg/server/server.go:542-564 | the selected offer is the least that equals the echoed request, if any does |
| `Issuance.ChargeOfferChallenges` | pkg/server/server.go:650-672 | fills in a challenge for every offer, keeping the selected one |
| `Issuance.DoCharge` | pkg/server/server.go:612-646 | charge, once its offers are built, computes the specified result |
| `Issuance.ChargeAcceptsOwn` | pkg/server/server.go:592-672 | any challenge charge returns, for any number of offers, is accepted by charge before it expires |
| `Outcomes.FreshFields` | pkg/server/verify.go:86-140 | a new challenge is issued exactly for parameters without reserved keys and with bindable fields, and has those fields, the expiry, digest and nonce, and the MAC of them as its ID |
| `Outcomes.FindPaymentMeans` | pkg/mpp/json.go:186-217 | the one Payment value among the parts of a header is found; two, or too long a header, are an error |
| `Outcomes.AnswerIs` | pkg/server/verify.go:85-271 | the whole answer for every request: which challenge is released, for the first check that fails, and what settling comes to, the client's own challenge unless the payload is invalid |
| `Outcomes.VerifiedIff` | pkg/server/verify.go:142-270 | a credential is verified exactly when it is the one shown, stands every check, and its settlement succeeds |
| `Outcomes.FailedIff` | pkg/server/verify.go:97-263 | no challenge is released exactly when none can be issued, the header is ambiguous, or settling an admissible credential says so |
| `Outcomes.ReleasedIsPaid` | pkg/server/verify.go:85-271 | a released challenge submitted in time is answered with the credential of that ID and payload if settling succeeds, and with the refusal settling asks for otherwise |
| `Outcomes.OfferedIsPaid` | pkg/server/server.go:592-672 | the same for any challenge charge offers, submitted to charge |
| `Outcomes.OtherOffersAreFresh` | pkg/server/server.go:648-672 | the offers next to the selected one are newly issued, each for its own request |

## Left out

- RPC clients, receipt polling, contexts and cancellation: replaced by step outcomes; a wait for a receipt is one lookup.
- Store failures and crashes are part of the at-most-once statements and excluded from recovery, since a crash strands a claim.
- Settlement.SettledAtMostOnce: static validation of a credential is presumed; RPC steps without an effect on claims (simulations, proof and deadline readings) are merged, and the funding lookup after settlement is dropped.
- Retry.LoneRetrySettles: a hosted fee payer is not covered, because its envelope cannot be rebuilt without asking it to sign again; whether the sponsor's policy admits an envelope is the predicate PolicyAdmits, and the other checks of the co-signed transaction repeat static validation.
- FreshPayment.FreshPaymentSettles: that the transaction is on chain when its receipt is looked for is a condition on the run (MinedInTime), since polling for the receipt is one lookup.
- Recovery.ClaimsAreBalanced: the node is taken to let at most one envelope of a sponsored transaction on chain (OneEnvelope), and a mined transaction to pay one challenge (PaysOneChallenge); hash credentials may name any transaction, transactions and proofs are tied to their challenge by static validation.
- Keccak, HMAC-SHA256, ECDSA recovery, EIP-712 digests, key authorizations and transaction encoding: uninterpreted or absent; the libraries are not part of this model.
- Log decoding (decodeLogTransfer), the source and fee-controller filters of receiptMatches, and MatchTransferCalldata.
- Payment.ClientPaymentMatches: gas, nonces, fees and the signature of the transaction are not modelled, only its calls and access list.
- ChargeRequest.RequestRoundTrip: numbers are integers or other; a chainId written with an exponent that happens to be integral counts as other, one outside 64 bits is refused even where the platform's conversion from floating point would accept its rounding, and Go's nil and empty slices are one.
- Sponsor.SimulationStaysWithinPolicy: a policy always has its three limits, as the configured policies do.
- RoundTrip.DoRoundTrip: ranking, ordering and the origin check of offers are reduced to their outcome per round, closing of bodies and the shared payment state are dropped.
- McpLoop.Middleware: results and errors are reduced to whether they require payment.
- Challenges.CredentialRoundTrip: what JSON makes of typed lists and numbers in a payload is a function (the identity on text); a credential whose challenge has an opaque object instead of text is parsed but not printed.
- Challenges.ChallengeRoundTrip: text is presumed to be valid UTF-8 where it passes through JSON, and a request that is the JSON value null counts as empty.
- AuthParams.SplitAuthenticate: spaces outside ASCII at the ends of a header value are not trimmed.
- Verify.VerifiedWasIssued: the nonce is any text; its randomness plays no part.
- Issuance.ChargeAcceptsOwn: how a method builds its offers is a parameter, and events, problem details and receipts are dropped.
- Relay and hosted fee payer HTTP exchanges, the Redis client, framework adapters, middleware writers, session reflection, Accept-Payment ranking: plumbing or library-bound.
- Replay protection of subscriptions, and the receipt header formats.
