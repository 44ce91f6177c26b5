/**
 Settling charges: any number of attempts, on any number of replicas, sharing one replay store.

 An attempt is a small program. `Pending` is the store call, RPC call or clock reading it makes
 next, and `Resume` is what it does with the answer. Every such call is one atomic step of the
 system, and steps of different attempts interleave freely with the clock and the chain.
 */
module Settlement {
  import opened Text
  import opened ReplayStore

  type AttemptId = nat

  const REPLAY_CLAIM_EXPIRY_GRACE: Time := 600 * SECOND

  /** A mined transaction: its status, and the challenges whose charge its transfers satisfy. */
  datatype Receipt = Receipt(success: bool, pays: set<string>)

  datatype Kind =
    | Hash(hash: string)
    | Proof
    | Unsponsored(signedHash: string)
    // A local fee payer signs deterministically: `envelopes` are the hashes of its co-signed
    // transaction, for the selected fee token first and then for every other allowed one.
    | Sponsored(tx: string, envelopes: seq<string>)
    // A hosted fee payer's envelope is only known once it answered.
    | Hosted(tx: string)

  datatype Credential = Credential(challenge: string, expires: Time, kind: Kind)
  {
    predicate FeePayer() { kind.Sponsored? || kind.Hosted? }

    predicate WellFormed() { kind.Sponsored? ==> kind.envelopes != [] }

    /** The hash this push or unsponsored credential names. */
    function NamedHash(): string {
      if kind.Hash? then kind.hash else if kind.Unsponsored? then kind.signedHash else ""
    }

    /** How many envelopes a local fee payer may have signed; a hosted one answers with a single one. */
    function EnvelopeCount(): nat { if kind.Sponsored? then |kind.envelopes| else 0 }

    function Envelope(n: nat): string { if n < EnvelopeCount() then kind.envelopes[n] else "" }

    /** The key claimed before anything is settled. */
    function MainKey(): Key {
      match kind
      case Hash(h) => TxKey(Lower(h))
      case Proof => ProofKey(challenge)
      case Unsponsored(h) => TxKey(Lower(h))
      case Sponsored(tx, _) => SponsorKey(tx)
      case Hosted(tx) => SponsorKey(tx)
    }

    /** The key a success receipt for `reference` stands on. */
    function ReferenceKey(reference: string): Key {
      if kind.Proof? then ProofKey(reference) else TxKey(Lower(reference))
    }
  }

  datatype Failure = AlreadyUsed | Reverted | ReceiptMismatch | OutcomeUnknown | Rejected | StoreFailed

  datatype PC =
    | FetchHash                // validateHash: the receipt of a push payment
    | Validate                 // a proof's signature, a simulation, a hosted fee payer's deadline
    | ReadUsed                 // rejectUsedCredential on the transaction hash
    | FindIncluded             // lookupIncludedReceipt before simulating
    | ExpiryEarly
    | ReadLegacy               // reservations of earlier versions
    | ReadSponsor
    | HostedSimulate
    | ClaimMain
    | Deadline
    | Late(next: nat)          // sponsoredTransactionIncluded
    | CoSign
    | Fill                     // the hosted fee payer's answer
    | FindEnvelope(next: nat)
    | Simulate                 // the simulations just before sending
    | ExpiryLate
    | DeadlineLate
    | Sending
    | Confirming               // lookupConfirmedReceipt after a failed send
    | Awaiting                 // fetchReceipt after an accepted send
    | ClaimReference
    | Releasing(failure: Failure)
    | Succeeded(reference: string)
    | Failed(failure: Failure)
    | Crashed

  datatype Attempt = Attempt(
    cred: Credential,
    pc: PC,
    claimed: seq<Key>,         // claimedKeys: what the deferred release would delete
    included: bool,
    receipt: Option<Receipt>,
    signed: string,            // signedHash
    reference: string,         // txHash
    kept: set<Key>)            // history: keys won and not handed to Delete
  {
    predicate Halted() { pc.Succeeded? || pc.Failed? || pc.Crashed? }
  }

  datatype Call =
    | GetKey(key: Key)
    | ClaimKey(key: Key)
    | DeleteKey(key: Key)
    | Lookup(hash: string)
    | Send(hash: string)
    | ReadExpiry
    | LocalCoSign
    | AskFeePayer
    | Other                    // simulations, deadline readings, proof lookups

  datatype Reply =
    | Found(found: bool)
    | Claimed(accepted: bool)
    | Deleted
    | StoreError
    | Mined(receipt: Option<Receipt>)
    | Sent(hash: string)
    | SendFailed
    | Signed(hash: string)
    | Passed(ok: bool)

  function Start(cred: Credential): Attempt {
    var pc := match cred.kind
      case Hash(_) => FetchHash
      case Proof => Validate
      case Unsponsored(_) => ReadUsed
      case Sponsored(_, _) => ExpiryEarly
      case Hosted(_) => Validate;
    Attempt(cred, pc, [], false, None, cred.NamedHash(), "", {})
  }

  function Pending(a: Attempt): Call
    requires !a.Halted()
  {
    match a.pc
    case FetchHash => Lookup(a.cred.NamedHash())
    case ReadUsed => GetKey(a.cred.MainKey())
    case FindIncluded => Lookup(a.signed)
    case ExpiryEarly => ReadExpiry
    case ReadLegacy => GetKey(LegacyKey(a.cred.challenge))
    case ReadSponsor => GetKey(a.cred.MainKey())
    case ClaimMain => ClaimKey(a.cred.MainKey())
    case Late(n) => Lookup(a.cred.Envelope(n))
    case CoSign => LocalCoSign
    case Fill => AskFeePayer
    case FindEnvelope(n) => Lookup(if a.cred.kind.Hosted? then a.signed else a.cred.Envelope(n))
    case ExpiryLate => ReadExpiry
    case Sending => Send(a.signed)
    case Confirming => Lookup(a.signed)
    case Awaiting => Lookup(a.reference)
    case ClaimReference => ClaimKey(TxKey(Lower(a.reference)))
    case Releasing(_) => if a.claimed == [] then Other else DeleteKey(a.claimed[0])
    case _ => Other
  }

  /** A return with an error: the deferred release runs unless the transaction was included. */
  function Fail(a: Attempt, failure: Failure): Attempt {
    if a.included || a.claimed == [] then a.(pc := PC.Failed(failure))
    else a.(pc := Releasing(failure))
  }

  function Win(a: Attempt, key: Key): Attempt {
    a.(kept := a.kept + {key})
  }

  /** A receipt was found for `reference`: the claims stay from here on. */
  function Settle(a: Attempt, reference: string, receipt: Receipt): Attempt {
    var a := a.(included := true, reference := reference);
    if !receipt.success then Fail(a, Reverted)
    else if a.cred.challenge !in receipt.pays then Fail(a, ReceiptMismatch)
    else if a.cred.FeePayer() then a.(pc := ClaimReference)
    else a.(pc := Succeeded(reference))
  }

  function SendOrSettle(a: Attempt): Attempt {
    if a.receipt.Some? then Settle(a, a.signed, a.receipt.value) else a.(pc := Sending)
  }

  /** Up to the first claim of a sponsored charge, or the last check of an unsponsored one. */
  predicate Checking(pc: PC) {
    pc.FetchHash? || pc.Validate? || pc.ReadUsed? || pc.FindIncluded? || pc.ExpiryEarly? || pc.ReadLegacy?
    || pc.ReadSponsor? || pc.HostedSimulate?
  }

  predicate Sponsoring(pc: PC) {
    pc.Deadline? || pc.Late? || pc.CoSign? || pc.Fill? || pc.FindEnvelope?
  }

  predicate Finishing(pc: PC) {
    pc.Simulate? || pc.ExpiryLate? || pc.DeadlineLate?
  }

  /** An answer the code did not ask for, or an error: the attempt fails. */
  function Refuse(a: Attempt, r: Reply): Attempt {
    Fail(a, if r == StoreError then StoreFailed else Rejected)
  }

  function ResumeChecking(a: Attempt, r: Reply): Attempt
    requires Checking(a.pc)
  {
    match a.pc
    case FetchHash =>
      if !r.Mined? || r.receipt.None? then Refuse(a, r)
      else if !r.receipt.value.success then Fail(a, Reverted)
      else if a.cred.challenge !in r.receipt.value.pays then Fail(a, ReceiptMismatch)
      else a.(pc := ExpiryEarly)
    case Validate => if r == Passed(true) then a.(pc := ExpiryEarly) else Refuse(a, r)
    case ReadUsed =>
      if !r.Found? then Refuse(a, r) else if r.found then Fail(a, AlreadyUsed) else a.(pc := FindIncluded)
    case FindIncluded =>
      if r.Mined? && r.receipt.Some? then a.(receipt := r.receipt, pc := ExpiryEarly) else a.(pc := Validate)
    case ExpiryEarly =>
      if r != Passed(true) then Refuse(a, r) else
      a.(pc := match a.cred.kind
        case Hash(_) => ClaimMain
        case Proof => ClaimMain
        case Unsponsored(_) => if a.receipt.Some? then ExpiryLate else Simulate
        case _ => ReadLegacy)
    case ReadLegacy =>
      if !r.Found? then Refuse(a, r) else if r.found then Fail(a, AlreadyUsed) else a.(pc := ReadSponsor)
    case ReadSponsor =>
      if !r.Found? then Refuse(a, r) else if r.found then Fail(a, AlreadyUsed)
      else a.(pc := if a.cred.kind.Hosted? then HostedSimulate else ClaimMain)
    case HostedSimulate => if r == Passed(true) then a.(pc := ClaimMain) else Refuse(a, r)
  }

  function ResumeClaim(a: Attempt, r: Reply): Attempt
    requires a.pc.ClaimMain?
  {
    var key := a.cred.MainKey();
    if !r.Claimed? then Refuse(a, r)
    else if !r.accepted then Fail(a, AlreadyUsed)
    else match a.cred.kind
      case Hash(h) => Win(a, key).(pc := Succeeded(h))
      case Proof => Win(a, key).(pc := Succeeded(a.cred.challenge))
      case Unsponsored(_) => SendOrSettle(Win(a, key).(claimed := [key]))
      case _ => Win(a, key).(claimed := [key], pc := Deadline)
  }

  function ResumeSponsoring(a: Attempt, r: Reply): Attempt
    requires Sponsoring(a.pc)
  {
    match a.pc
    case Deadline =>
      if !r.Passed? then Refuse(a, r)
      else if r.ok then a.(pc := if a.cred.kind.Hosted? then Fill else CoSign)
      else if a.cred.kind.Hosted? then Fail(a, Rejected)
      else a.(pc := Late(0))
    case Late(n) =>
      if r.Mined? && r.receipt.Some? then a.(pc := CoSign)
      else if n + 1 < a.cred.EnvelopeCount() then a.(pc := Late(n + 1))
      else Fail(a, Rejected)
    case CoSign =>
      if r == Passed(true) then a.(signed := a.cred.Envelope(0), pc := FindEnvelope(0)) else Refuse(a, r)
    case Fill => if r.Signed? then a.(signed := r.hash, pc := FindEnvelope(0)) else Refuse(a, r)
    case FindEnvelope(n) =>
      if r.Mined? && r.receipt.Some? then
        a.(receipt := r.receipt, signed := if a.cred.kind.Hosted? then a.signed else a.cred.Envelope(n),
           pc := ExpiryLate)
      else if a.cred.kind.Hosted? then a.(pc := Simulate)
      else if n + 1 < a.cred.EnvelopeCount() then a.(pc := FindEnvelope(n + 1))
      else a.(pc := Simulate)
  }

  function ResumeFinishing(a: Attempt, r: Reply): Attempt
    requires Finishing(a.pc)
  {
    if r != Passed(true) then Refuse(a, r)
    else match a.pc
      case Simulate => a.(pc := ExpiryLate)
      case ExpiryLate =>
        if a.cred.kind.Unsponsored? then a.(pc := ClaimMain)
        else if a.receipt.Some? then SendOrSettle(a)
        else a.(pc := DeadlineLate)
      case DeadlineLate => SendOrSettle(a)
  }

  function ResumeSending(a: Attempt, r: Reply): Attempt
    requires a.pc.Sending? || a.pc.Confirming? || a.pc.Awaiting? || a.pc.ClaimReference?
  {
    match a.pc
    case Sending =>
      if !r.Sent? then a.(pc := Confirming)
      else if !EqualFold(r.hash, a.signed) then Fail(a, Rejected)
      else a.(reference := r.hash, pc := Awaiting)
    case Confirming =>
      if r.Mined? && r.receipt.Some? then Settle(a, a.signed, r.receipt.value) else Fail(a, OutcomeUnknown)
    case Awaiting =>
      if r.Mined? && r.receipt.Some? then Settle(a, a.reference, r.receipt.value) else Fail(a, OutcomeUnknown)
    case ClaimReference =>
      // A failed claim write leaves the payment on chain but unrecorded, so the sponsored claim goes too.
      if !r.Claimed? then Refuse(a.(included := false), r)
      else if r.accepted then Win(a, TxKey(Lower(a.reference))).(pc := Succeeded(a.reference))
      else Fail(a, AlreadyUsed)
  }

  function ResumeReleasing(a: Attempt): Attempt
    requires a.pc.Releasing?
  {
    if a.claimed == [] then a.(pc := Failed(a.pc.failure))
    else a.(claimed := a.claimed[1..], kept := a.kept - {a.claimed[0]},
            pc := if |a.claimed| == 1 then Failed(a.pc.failure) else a.pc)
  }

  function Resume(a: Attempt, r: Reply): Attempt
    requires !a.Halted()
  {
    if Checking(a.pc) then ResumeChecking(a, r)
    else if a.pc.ClaimMain? then ResumeClaim(a, r)
    else if Sponsoring(a.pc) then ResumeSponsoring(a, r)
    else if Finishing(a.pc) then ResumeFinishing(a, r)
    else if a.pc.Releasing? then ResumeReleasing(a)
    else ResumeSending(a, r)
  }

  // ---------- the system ----------

  datatype State = State(
    store: Table<Key>,
    chain: map<string, Receipt>,
    now: Time,
    attempts: map<AttemptId, Attempt>)

  datatype Config = Config(expireReplayKeys: bool)

  /** replayClaimExpiry, or None for a key that is kept forever. */
  function Until(config: Config, cred: Credential): Option<Time> {
    if config.expireReplayKeys then Some(cred.expires + REPLAY_CLAIM_EXPIRY_GRACE) else None
  }

  /** claimReplayKey on the reference store. */
  function ClaimOp(config: Config, cred: Credential, key: Key): Op<Key> {
    match Until(config, cred)
    case Some(until) => PutIfAbsentUntil(key, "", until)
    case None => PutIfAbsent(key, "")
  }

  predicate ClaimAnswers(store: Table<Key>, step: (Table<Key>, Answer), r: Reply, store': Table<Key>) {
    || (r == Claimed(step.1 == Accepted) && store' == step.0)
    || (r == StoreError && (store' == store || store' == step.0))
  }

  /** What the store, the node and the clock may answer; a failed store write may still have landed. */
  ghost predicate Answers(config: Config, s: State, a: Attempt, call: Call, r: Reply, store': Table<Key>) {
    match call
    case GetKey(key) =>
      store' == s.store && (r == StoreError || r == Found(Live(s.store, key, s.now)))
    case ClaimKey(key) =>
      ClaimAnswers(s.store, RefStep(s.store, ClaimOp(config, a.cred, key), s.now), r, store')
    case DeleteKey(key) =>
      || (r == Deleted && store' == s.store - {key})
      || (r == StoreError && (store' == s.store || store' == s.store - {key}))
    case _ => store' == s.store && !r.Claimed? && !r.Found?
  }

  ghost predicate AttemptStep(config: Config, s: State, s': State, i: AttemptId, r: Reply) {
    && i in s.attempts
    && var a := s.attempts[i];
    && !a.Halted()
    && Answers(config, s, a, Pending(a), r, s'.store)
    && s' == s.(store := s'.store, attempts := s.attempts[i := Resume(a, r)])
  }

  ghost predicate EnvironmentStep(s: State, s': State) {
    || (s' == s.(now := s'.now) && s.now <= s'.now)
    || (exists h: string :: h !in s.chain && h in s'.chain && s' == s.(chain := s.chain[h := s'.chain[h]]))
  }

  ghost predicate StartStep(s: State, s': State) {
    exists i: AttemptId, cred: Credential ::
      i !in s.attempts && cred.WellFormed() && s' == s.(attempts := s.attempts[i := Start(cred)])
  }

  ghost predicate CrashStep(s: State, s': State) {
    exists i :: i in s.attempts && s' == s.(attempts := s.attempts[i := s.attempts[i].(pc := Crashed)])
      && !s.attempts[i].Halted()
  }

  ghost predicate Next(config: Config, s: State, s': State) {
    || EnvironmentStep(s, s')
    || StartStep(s, s')
    || CrashStep(s, s')
    || (exists i, r :: AttemptStep(config, s, s', i, r))
  }

  ghost predicate Init(s: State) {
    s.store == map[] && s.attempts == map[]
  }

  ghost predicate NextAt(config: Config, run: seq<State>, n: nat)
    requires 0 < n < |run|
  {
    Next(config, run[n - 1], run[n])
  }

  ghost predicate IsRun(config: Config, run: seq<State>) {
    && run != [] && Init(run[0])
    && forall n: nat :: 0 < n < |run| ==> NextAt(config, run, n)
  }

  // ---------- at most one success per reference ----------

  predicate Claiming(a: Attempt, key: Key) {
    !a.Halted() && Pending(a) == ClaimKey(key)
  }

  /** Every claim of `key` asks for one and the same deadline, or for none. */
  ghost predicate ClaimsAgree(config: Config, s: State, key: Key, deadline: Option<Time>) {
    forall i :: i in s.attempts && Claiming(s.attempts[i], key) ==> Until(config, s.attempts[i].cred) == deadline
  }

  /** Which program points each kind of credential reaches. */
  predicate Typed(a: Attempt) {
    match a.pc
    case FetchHash => a.cred.kind.Hash?
    case Validate => !a.cred.kind.Hash? && !a.cred.kind.Sponsored?
    case ReadUsed => a.cred.kind.Unsponsored?
    case FindIncluded => a.cred.kind.Unsponsored?
    case ReadLegacy => a.cred.FeePayer()
    case ReadSponsor => a.cred.FeePayer()
    case HostedSimulate => a.cred.kind.Hosted?
    case Late(n) => n < a.cred.EnvelopeCount()
    case CoSign => a.cred.kind.Sponsored?
    case Fill => a.cred.kind.Hosted?
    case FindEnvelope(n) => a.cred.kind.Hosted? || n < a.cred.EnvelopeCount()
    case _ => true
  }

  predicate NothingClaimed(a: Attempt) {
    a.claimed == [] && a.kept == {} && !a.included
  }

  predicate MainClaimed(a: Attempt) {
    a.claimed == [a.cred.MainKey()] && a.kept == {a.cred.MainKey()}
  }

  /**
   What each program point knows about the attempt's own claims. In particular a failed attempt
   keeps nothing, unless its transaction was included: then it keeps its main claim for good.
   */
  predicate LocalInv(a: Attempt) {
    && (a.cred.kind.Unsponsored? ==> a.signed == a.cred.kind.signedHash)
    && match a.pc
       case Deadline => a.cred.FeePayer() && MainClaimed(a) && !a.included
       case Late(_) => a.cred.FeePayer() && MainClaimed(a) && !a.included
       case CoSign => a.cred.FeePayer() && MainClaimed(a) && !a.included
       case Fill => a.cred.FeePayer() && MainClaimed(a) && !a.included
       case FindEnvelope(_) => a.cred.FeePayer() && MainClaimed(a) && !a.included
       case Simulate => ChecksPayment(a)
       case ExpiryLate => ChecksPayment(a)
       case DeadlineLate => a.cred.FeePayer() && MainClaimed(a) && !a.included
       case Sending => MakesPayment(a) && !a.included
       case Confirming => MakesPayment(a) && !a.included
       case Awaiting => MakesPayment(a) && !a.included && EqualFold(a.reference, a.signed)
       case ClaimReference => a.cred.FeePayer() && MainClaimed(a) && a.included
       case Releasing(_) => MakesPayment(a) && !a.included
       case Succeeded(reference) => a.kept == {a.cred.MainKey(), a.cred.ReferenceKey(reference)}
       case Failed(_) => if a.included then MakesPayment(a) else NothingClaimed(a)
       case Crashed => a.kept <= {a.cred.MainKey()}
       case _ => NothingClaimed(a)
  }

  predicate ChecksPayment(a: Attempt) {
    || (a.cred.FeePayer() && MainClaimed(a) && !a.included)
    || (a.cred.kind.Unsponsored? && NothingClaimed(a))
  }

  predicate MakesPayment(a: Attempt) {
    (a.cred.FeePayer() || a.cred.kind.Unsponsored?) && MainClaimed(a)
  }

  /** `a'` is what an attempt may become by making `call` and hearing `r`, as far as its claims go. */
  predicate Disciplined(a: Attempt, call: Call, r: Reply, a': Attempt) {
    && a'.cred == a.cred
    && (call.ClaimKey? && r == Claimed(true) ==> a'.kept == a.kept + {call.key})
    && (call.DeleteKey? ==> call.key in a.kept && a'.kept == a.kept - {call.key})
    && (!(call.ClaimKey? && r == Claimed(true)) && !call.DeleteKey? ==> a'.kept == a.kept)
  }

  lemma {:induction false} SettleDiscipline(a: Attempt, reference: string, receipt: Receipt)
    requires MakesPayment(a)
    requires a.cred.kind.Unsponsored? ==> a.signed == a.cred.kind.signedHash && EqualFold(reference, a.signed)
    ensures var a' := Settle(a, reference, receipt); LocalInv(a') && a'.cred == a.cred && a'.kept == a.kept
  {
  }

  lemma {:induction false} CheckingDiscipline(a: Attempt, r: Reply)
    requires Checking(a.pc) && LocalInv(a) && !r.Claimed?
    ensures LocalInv(ResumeChecking(a, r)) && Disciplined(a, Pending(a), r, ResumeChecking(a, r))
  {
  }

  lemma {:induction false} ClaimDiscipline(a: Attempt, r: Reply)
    requires a.pc.ClaimMain? && LocalInv(a)
    ensures LocalInv(ResumeClaim(a, r)) && Disciplined(a, Pending(a), r, ResumeClaim(a, r))
  {
    if a.cred.kind.Unsponsored? && r == Claimed(true) && a.receipt.Some? {
      SettleDiscipline(Win(a, a.cred.MainKey()).(claimed := [a.cred.MainKey()]), a.signed, a.receipt.value);
    }
  }

  lemma {:induction false} SponsoringDiscipline(a: Attempt, r: Reply)
    requires Sponsoring(a.pc) && LocalInv(a) && !r.Claimed?
    ensures LocalInv(ResumeSponsoring(a, r)) && Disciplined(a, Pending(a), r, ResumeSponsoring(a, r))
  {
  }

  lemma {:induction false} PayingDiscipline(a: Attempt)
    requires MakesPayment(a) && !a.included && a.cred.FeePayer()
    ensures var a' := SendOrSettle(a); LocalInv(a') && a'.cred == a.cred && a'.kept == a.kept
  {
    if a.receipt.Some? {
      SettleDiscipline(a, a.signed, a.receipt.value);
    }
  }

  lemma {:induction false} FinishingDiscipline(a: Attempt, r: Reply)
    requires Finishing(a.pc) && LocalInv(a) && !r.Claimed?
    ensures LocalInv(ResumeFinishing(a, r)) && Disciplined(a, Pending(a), r, ResumeFinishing(a, r))
  {
    if a.cred.FeePayer() && !a.pc.Simulate? {
      PayingDiscipline(a);
    }
  }

  lemma {:induction false} SendingDiscipline(a: Attempt, r: Reply)
    requires a.pc.Sending? || a.pc.Confirming? || a.pc.Awaiting? || a.pc.ClaimReference?
    requires LocalInv(a) && (r.Claimed? ==> a.pc.ClaimReference?)
    ensures LocalInv(ResumeSending(a, r)) && Disciplined(a, Pending(a), r, ResumeSending(a, r))
  {
    if (a.pc.Confirming? || a.pc.Awaiting?) && r.Mined? && r.receipt.Some? {
      SettleDiscipline(a, if a.pc.Confirming? then a.signed else a.reference, r.receipt.value);
    }
  }

  lemma {:induction false} ReleasingDiscipline(a: Attempt, r: Reply)
    requires a.pc.Releasing? && LocalInv(a) && !r.Claimed?
    ensures LocalInv(ResumeReleasing(a)) && Disciplined(a, Pending(a), r, ResumeReleasing(a))
  {
  }

  /** An attempt keeps exactly the keys it was told it won, and deletes only those. */
  lemma {:induction false} ResumeDiscipline(a: Attempt, r: Reply)
    requires !a.Halted() && LocalInv(a)
    requires r.Claimed? ==> Pending(a).ClaimKey?
    ensures LocalInv(Resume(a, r)) && Disciplined(a, Pending(a), r, Resume(a, r))
  {
    if Checking(a.pc) {
      CheckingDiscipline(a, r);
    } else if a.pc.ClaimMain? {
      ClaimDiscipline(a, r);
    } else if Sponsoring(a.pc) {
      SponsoringDiscipline(a, r);
    } else if Finishing(a.pc) {
      FinishingDiscipline(a, r);
    } else if a.pc.Releasing? {
      ReleasingDiscipline(a, r);
    } else {
      SendingDiscipline(a, r);
    }
  }

  lemma {:induction false} CheckingTyped(a: Attempt, r: Reply)
    requires Checking(a.pc) && Typed(a)
    ensures Typed(ResumeChecking(a, r))
  {
  }

  lemma {:induction false} SponsoringTyped(a: Attempt, r: Reply)
    requires Sponsoring(a.pc) && LocalInv(a) && Typed(a) && a.cred.WellFormed()
    ensures Typed(ResumeSponsoring(a, r))
  {
  }

  lemma {:induction false} FinishingTyped(a: Attempt, r: Reply)
    requires Finishing(a.pc)
    ensures Typed(ResumeFinishing(a, r))
  {
  }

  lemma {:induction false} SendingTyped(a: Attempt, r: Reply)
    requires a.pc.Sending? || a.pc.Confirming? || a.pc.Awaiting? || a.pc.ClaimReference?
    ensures Typed(ResumeSending(a, r))
  {
  }

  lemma {:induction false} ResumeTyped(a: Attempt, r: Reply)
    requires !a.Halted() && LocalInv(a) && Typed(a) && a.cred.WellFormed()
    ensures Typed(Resume(a, r))
  {
    if Checking(a.pc) {
      CheckingTyped(a, r);
    } else if a.pc.ClaimMain? {
      assert Typed(ResumeClaim(a, r));
    } else if Sponsoring(a.pc) {
      SponsoringTyped(a, r);
    } else if Finishing(a.pc) {
      FinishingTyped(a, r);
    } else if a.pc.Releasing? {
      assert Typed(ResumeReleasing(a));
    } else {
      SendingTyped(a, r);
    }
  }

  /** A kept key is still stored, unless its deadline passed: then nobody can claim it again. */
  predicate StillHeld(s: State, key: Key, deadline: Option<Time>) {
    key in s.store || (deadline.Some? && deadline.value <= s.now)
  }

  /** What holds of one key if all its claims ask for `deadline`: it has at most one keeper. */
  ghost predicate KeyInv(s: State, key: Key, deadline: Option<Time>) {
    && (key in s.store ==> s.store[key].deadline == deadline)
    && (forall i :: i in s.attempts && key in s.attempts[i].kept ==> StillHeld(s, key, deadline))
    && (forall i, j :: i in s.attempts && j in s.attempts && i != j && key in s.attempts[i].kept ==>
          key !in s.attempts[j].kept)
  }

  ghost predicate LocalInvs(s: State) {
    forall i :: i in s.attempts ==> LocalInv(s.attempts[i])
  }

  /** The store's side: a key that is kept somewhere is never won again, and is deleted only by its keeper. */
  lemma {:induction false} ClaimStepKeepsInv(config: Config, s: State, s': State, i: AttemptId, call: Call, r: Reply,
                                             a': Attempt, key: Key, deadline: Option<Time>)
    requires KeyInv(s, key, deadline) && i in s.attempts
    requires Answers(config, s, s.attempts[i], call, r, s'.store)
    requires s' == s.(store := s'.store, attempts := s.attempts[i := a'])
    requires Disciplined(s.attempts[i], call, r, a')
    requires call == ClaimKey(key) ==> Until(config, s.attempts[i].cred) == deadline
    ensures KeyInv(s', key, deadline)
  {
    if call == ClaimKey(key) && r == Claimed(true) {
      assert !Live(s.store, key, s.now) && !StillHeld(s, key, deadline);
    } else {
      assert key in a'.kept ==> key in s.attempts[i].kept;
    }
  }

  lemma {:induction false} AttemptStepKeepsInv(config: Config, s: State, s': State, i: AttemptId, r: Reply, key: Key,
                                               deadline: Option<Time>)
    requires AttemptStep(config, s, s', i, r)
    requires LocalInvs(s) && KeyInv(s, key, deadline) && ClaimsAgree(config, s, key, deadline)
    ensures LocalInvs(s') && KeyInv(s', key, deadline)
  {
    var a := s.attempts[i];
    ResumeDiscipline(a, r);
    assert Pending(a) == ClaimKey(key) ==> Claiming(a, key);
    ClaimStepKeepsInv(config, s, s', i, Pending(a), r, s'.attempts[i], key, deadline);
  }

  /** Nobody claims or releases anything, so every claim still holds. */
  lemma {:induction false} ClaimsOutlastQuiet(s: State, s': State, key: Key, deadline: Option<Time>)
    requires KeyInv(s, key, deadline) && s'.store == s.store && s.now <= s'.now
    requires forall i :: i in s'.attempts && s'.attempts[i].kept != {} ==>
      i in s.attempts && s'.attempts[i].kept == s.attempts[i].kept
    ensures KeyInv(s', key, deadline)
  {
    forall i | i in s'.attempts && key in s'.attempts[i].kept ensures StillHeld(s', key, deadline) {
      assert i in s.attempts && key in s.attempts[i].kept;
    }
  }

  lemma {:induction false} StartsClean(cred: Credential)
    ensures LocalInv(Start(cred)) && Start(cred).kept == {}
  {
  }

  lemma {:induction false} CrashesClean(a: Attempt)
    requires LocalInv(a) && !a.Halted()
    ensures LocalInv(a.(pc := Crashed))
  {
  }

  lemma {:induction false} QuietStepKeepsInv(s: State, s': State, key: Key, deadline: Option<Time>)
    requires EnvironmentStep(s, s') || StartStep(s, s') || CrashStep(s, s')
    requires LocalInvs(s) && KeyInv(s, key, deadline)
    ensures LocalInvs(s') && KeyInv(s', key, deadline)
  {
    ClaimsOutlastQuiet(s, s', key, deadline);
    forall i | i in s'.attempts ensures LocalInv(s'.attempts[i]) {
      if i in s.attempts && s'.attempts[i] != s.attempts[i] {
        CrashesClean(s.attempts[i]);
      } else if i !in s.attempts {
        StartsClean(s'.attempts[i].cred);
      }
    }
  }

  lemma {:induction false} NextKeepsInv(config: Config, s: State, s': State, key: Key, deadline: Option<Time>)
    requires Next(config, s, s')
    requires LocalInvs(s) && KeyInv(s, key, deadline) && ClaimsAgree(config, s, key, deadline)
    ensures LocalInvs(s') && KeyInv(s', key, deadline)
  {
    if EnvironmentStep(s, s') || StartStep(s, s') || CrashStep(s, s') {
      QuietStepKeepsInv(s, s', key, deadline);
    } else {
      var i, r :| AttemptStep(config, s, s', i, r);
      AttemptStepKeepsInv(config, s, s', i, r, key, deadline);
    }
  }

  lemma {:induction false} RunKeepsInv(config: Config, run: seq<State>, n: nat, key: Key, deadline: Option<Time>)
    requires IsRun(config, run) && n < |run|
    requires forall m :: 0 <= m < n ==> ClaimsAgree(config, run[m], key, deadline)
    ensures LocalInvs(run[n]) && KeyInv(run[n], key, deadline)
  {
    if n == 0 {
    } else {
      RunKeepsInv(config, run, n - 1, key, deadline);
      assert NextAt(config, run, n);
      NextKeepsInv(config, run[n - 1], run[n], key, deadline);
    }
  }

  /** At most one attempt holds a success receipt that stands on `key`. */
  ghost predicate AtMostOnceOn(s: State, key: Key) {
    forall i, j :: i in s.attempts && j in s.attempts && i != j ==>
      !(Settles(s.attempts[i], key) && Settles(s.attempts[j], key))
  }

  predicate Settles(a: Attempt, key: Key) {
    a.pc.Succeeded? && a.cred.ReferenceKey(a.pc.reference) == key
  }

  /** No two attempts hold success receipts on one key. */
  ghost predicate AtMostOnce(s: State) {
    forall key :: AtMostOnceOn(s, key)
  }

  lemma {:induction false} InvSettlesOnce(s: State, key: Key, deadline: Option<Time>)
    requires LocalInvs(s) && KeyInv(s, key, deadline)
    ensures AtMostOnceOn(s, key)
  {
    forall i | i in s.attempts && Settles(s.attempts[i], key) ensures key in s.attempts[i].kept {
      assert LocalInv(s.attempts[i]);
    }
  }

  /**
   Replay keys kept forever: over every interleaving of hash, proof, unsponsored and sponsored
   attempts, with crashes, store and RPC failures, releases and retries, at most one success per
   case-folded transaction hash or proof challenge.
   */
  lemma {:induction false} SettledAtMostOnce(config: Config, run: seq<State>)
    requires IsRun(config, run) && !config.expireReplayKeys
    ensures AtMostOnce(run[|run| - 1])
  {
    var s := run[|run| - 1];
    forall key ensures AtMostOnceOn(s, key) {
      RunKeepsInv(config, run, |run| - 1, key, None);
      InvSettlesOnce(s, key, None);
    }
  }

  /** A release under way deletes a key that its own attempt keeps. */
  lemma {:induction false} ReleasesOwnKey(a: Attempt)
    requires LocalInv(a) && a.pc.Releasing?
    ensures Pending(a) == DeleteKey(a.cred.MainKey()) && a.cred.MainKey() in a.kept
  {
  }
}
