/**
 The replay store of the charge verifier.

 A reference store keeps every entry it was given and consults deadlines on reading. MemoryStore
 drops expired entries when it happens to look at them, and sweeps at most once a minute. Both
 answer every run of calls alike.
 */
module ReplayStore {
  import opened Text

  /** Nanoseconds since the zero time. */
  type Time = nat

  const SECOND: nat := 1_000_000_000
  const SWEEP_INTERVAL: nat := 60 * SECOND

  datatype Entry = Entry(value: string, deadline: Option<Time>)

  type Table<!K> = map<K, Entry>

  predicate Expired(e: Entry, now: Time) {
    e.deadline.Some? && e.deadline.value <= now
  }

  predicate Live<K>(t: Table<K>, key: K, now: Time) {
    key in t && !Expired(t[key], now)
  }

  datatype Op<K> =
    | Get(key: K)
    | Put(key: K, value: string)
    | PutIfAbsent(key: K, value: string)
    | PutIfAbsentUntil(key: K, value: string, expiresAt: Time)
    | Delete(key: K)
  {
    predicate Claims() { PutIfAbsent? || PutIfAbsentUntil? }
  }

  datatype Answer = Value(value: string) | Missing | Accepted | Refused | Ack

  // ---------- the reference store ----------

  /** What the Store and ExpiringStore interfaces promise, with nothing ever evicted. */
  function RefStep<K>(t: Table<K>, op: Op<K>, now: Time): (Table<K>, Answer) {
    match op
    case Get(key) => (t, if Live(t, key, now) then Value(t[key].value) else Missing)
    case Put(key, value) => (t[key := Entry(value, None)], Ack)
    case PutIfAbsent(key, value) =>
      if Live(t, key, now) then (t, Refused) else (t[key := Entry(value, None)], Accepted)
    case PutIfAbsentUntil(key, value, expiresAt) =>
      if expiresAt <= now || Live(t, key, now) then (t, Refused)
      else (t[key := Entry(value, Some(expiresAt))], Accepted)
    case Delete(key) => (t - {key}, Ack)
  }

  // ---------- what MemoryStore does to its table ----------

  datatype Memory = Memory(table: Table<string>, lastSweep: Time)

  function Evict(t: Table<string>, key: string, now: Time): Table<string> {
    if key in t && Expired(t[key], now) then t - {key} else t
  }

  function Sweep(m: Memory, now: Time): Memory {
    if now - m.lastSweep < SWEEP_INTERVAL then m
    else Memory(map k | k in m.table && !Expired(m.table[k], now) :: m.table[k], now)
  }

  function MemStep(m: Memory, op: Op<string>, now: Time): (Memory, Answer) {
    match op
    case Get(key) =>
      var t := Evict(m.table, key, now);
      (m.(table := t), if key in t then Value(t[key].value) else Missing)
    case Put(key, value) => (m.(table := m.table[key := Entry(value, None)]), Ack)
    case PutIfAbsent(key, value) =>
      var t := Evict(m.table, key, now);
      if key in t then (m.(table := t), Refused)
      else (m.(table := t[key := Entry(value, None)]), Accepted)
    case PutIfAbsentUntil(key, value, expiresAt) =>
      var swept := Sweep(m, now);
      var t := Evict(swept.table, key, now);
      if expiresAt <= now || key in t then (swept.(table := t), Refused)
      else (swept.(table := t[key := Entry(value, Some(expiresAt))]), Accepted)
    case Delete(key) => (m.(table := m.table - {key}), Ack)
  }

  /** The development store of pkg/tempo/store.go; every method runs under its mutex. */
  class MemoryStore {
    var values: map<string, string>
    var expiries: map<string, Time>
    var lastSweep: Time

    /** An expiry is only ever kept for a stored value. */
    ghost predicate Valid()
      reads this
    {
      expiries.Keys <= values.Keys
    }

    ghost function Contents(): Table<string>
      reads this
    {
      map k | k in values ::
        Entry(values[k], if k in expiries then Some(expiries[k]) else None)
    }

    ghost function State(): Memory
      reads this
    {
      Memory(Contents(), lastSweep)
    }

    constructor ()
      ensures Valid() && State() == Memory(map[], 0)
    {
      values, expiries, lastSweep := map[], map[], 0;
    }

    method Get(key: string, now: Time) returns (value: Option<string>)
      requires Valid()
      modifies this
      ensures Valid()
      ensures State() == MemStep(old(State()), Op.Get(key), now).0
      ensures MemStep(old(State()), Op.Get(key), now).1
           == (if value.Some? then Value(value.value) else Missing)
    {
      EvictExpired(key, now);
      value := if key in values then Some(values[key]) else None;
    }

    method Put(key: string, value: string)
      requires Valid()
      modifies this
      ensures Valid()
      ensures forall now :: State() == MemStep(old(State()), Op.Put(key, value), now).0
    {
      values := values[key := value];
      expiries := expiries - {key};
    }

    method PutIfAbsent(key: string, value: string, now: Time) returns (ok: bool)
      requires Valid()
      modifies this
      ensures Valid()
      ensures (State(), if ok then Accepted else Refused)
           == MemStep(old(State()), Op.PutIfAbsent(key, value), now)
    {
      EvictExpired(key, now);
      if key in values {
        return false;
      }
      values := values[key := value];
      assert Contents() == Evict(old(Contents()), key, now)[key := Entry(value, None)];
      return true;
    }

    method PutIfAbsentUntil(key: string, value: string, expiresAt: Time, now: Time) returns (ok: bool)
      requires Valid()
      modifies this
      ensures Valid()
      ensures (State(), if ok then Accepted else Refused)
           == MemStep(old(State()), Op.PutIfAbsentUntil(key, value, expiresAt), now)
    {
      SweepExpired(now);
      EvictExpired(key, now);
      if expiresAt <= now {
        return false;
      }
      if key in values {
        return false;
      }
      values := values[key := value];
      expiries := expiries[key := expiresAt];
      assert Contents()
          == Evict(Sweep(old(State()), now).table, key, now)[key := Entry(value, Some(expiresAt))];
      return true;
    }

    method Delete(key: string)
      requires Valid()
      modifies this
      ensures Valid()
      ensures forall now :: State() == MemStep(old(State()), Op.Delete(key), now).0
    {
      values := values - {key};
      expiries := expiries - {key};
    }

    method EvictExpired(key: string, now: Time)
      requires Valid()
      modifies this`values, this`expiries
      ensures Valid()
      ensures Contents() == Evict(old(Contents()), key, now)
    {
      if key in expiries && expiries[key] <= now {
        values := values - {key};
        expiries := expiries - {key};
      }
    }

    method SweepExpired(now: Time)
      requires Valid()
      modifies this
      ensures Valid()
      ensures State() == Sweep(old(State()), now)
    {
      if now - lastSweep < SWEEP_INTERVAL {
        return;
      }
      lastSweep := now;
      var pending := expiries.Keys;
      while pending != {}
        invariant pending <= expiries.Keys && Valid() && lastSweep == now
        invariant forall k :: k in Contents() ==> k in old(Contents()) && Contents()[k] == old(Contents())[k]
        invariant forall k :: k in old(Contents()) && k !in Contents() ==> Expired(old(Contents())[k], now)
        invariant forall k :: k in expiries && k !in pending ==> now < expiries[k]
        decreases pending
      {
        var key :| key in pending;
        if expiries[key] <= now {
          values := values - {key};
          expiries := expiries - {key};
        }
        pending := pending - {key};
      }
    }
  }

  // ---------- refinement ----------

  /** From `now` on, no reader can tell the two tables apart. */
  ghost predicate Agrees<K(!new)>(a: Table<K>, b: Table<K>, now: Time) {
    forall key, t: Time {:trigger Live(a, key, t)} {:trigger Live(b, key, t)} ::
      now <= t ==> Live(a, key, t) == Live(b, key, t) && (Live(a, key, t) ==> a[key] == b[key])
  }

  lemma StepRefines(m: Memory, t: Table<string>, op: Op<string>, now: Time)
    requires Agrees(m.table, t, now)
    ensures MemStep(m, op, now).1 == RefStep(t, op, now).1
    ensures Agrees(MemStep(m, op, now).0.table, RefStep(t, op, now).0, now)
  {
    assert Live(m.table, op.key, now) == Live(t, op.key, now);
    var swept := Sweep(m, now).table;
    assert Agrees(swept, t, now) by {
      forall key, u: Time | now <= u
        ensures Live(swept, key, u) == Live(t, key, u) && (Live(t, key, u) ==> swept[key] == t[key])
      {
        assert Live(m.table, key, u) == Live(t, key, u);
      }
    }
    assert Live(swept, op.key, now) == Live(t, op.key, now);
    if op.PutIfAbsentUntil? {
      EvictInvisible(swept, t, op.key, now);
    } else {
      EvictInvisible(m.table, t, op.key, now);
    }
    var m', t' := MemStep(m, op, now).0.table, RefStep(t, op, now).0;
    forall key, u: Time | now <= u
      ensures Live(m', key, u) == Live(t', key, u) && (Live(t', key, u) ==> m'[key] == t'[key])
    {
      assert Live(m.table, key, u) == Live(t, key, u);
      assert Live(swept, key, u) == Live(t, key, u);
      assert Live(Evict(m.table, op.key, now), key, u) == Live(t, key, u);
      assert Live(Evict(swept, op.key, now), key, u) == Live(t, key, u);
    }
  }

  lemma EvictInvisible(m: Table<string>, t: Table<string>, key: string, now: Time)
    requires Agrees(m, t, now)
    ensures Agrees(Evict(m, key, now), t, now)
    ensures key in Evict(m, key, now) <==> Live(t, key, now)
  {
    assert Live(m, key, now) == Live(t, key, now);
    forall k, u: Time | now <= u
      ensures Live(Evict(m, key, now), k, u) == Live(t, k, u) && (Live(t, k, u) ==> Evict(m, key, now)[k] == t[k])
    {
      assert Live(m, k, u) == Live(t, k, u);
    }
  }

  datatype Timed<K> = Timed(op: Op<K>, now: Time)

  /** The clock never runs backwards and starts no earlier than `start`. */
  ghost predicate Ordered<K>(run: seq<Timed<K>>, start: Time) {
    && (forall i :: 0 <= i < |run| ==> start <= run[i].now)
    && (forall i, j :: 0 <= i < j < |run| ==> run[i].now <= run[j].now)
  }

  function MemAnswers(m: Memory, run: seq<Timed<string>>): (r: seq<Answer>)
    ensures |r| == |run|
    decreases run
  {
    if run == [] then [] else
      var (m', a) := MemStep(m, run[0].op, run[0].now);
      [a] + MemAnswers(m', run[1..])
  }

  function RefAnswers<K>(t: Table<K>, run: seq<Timed<K>>): (r: seq<Answer>)
    ensures |r| == |run|
    decreases run
  {
    if run == [] then [] else
      var (t', a) := RefStep(t, run[0].op, run[0].now);
      [a] + RefAnswers(t', run[1..])
  }

  /** Lazy eviction and the rate-limited sweep are invisible to every run of calls. */
  lemma {:induction false} MemoryStoreRefines(m: Memory, t: Table<string>, run: seq<Timed<string>>, start: Time)
    requires Agrees(m.table, t, start) && Ordered(run, start)
    ensures MemAnswers(m, run) == RefAnswers(t, run)
    decreases run
  {
    if run == [] {
    } else {
      var now := run[0].now;
      assert Agrees(m.table, t, now) by {
        forall key, u: Time | now <= u
          ensures Live(m.table, key, u) == Live(t, key, u) && (Live(t, key, u) ==> m.table[key] == t[key])
        {
          assert start <= u;
        }
      }
      StepRefines(m, t, run[0].op, now);
      MemoryStoreRefines(MemStep(m, run[0].op, now).0, RefStep(t, run[0].op, now).0, run[1..], now);
    }
  }

  // ---------- a claim stays until its deadline or its Delete ----------

  /** `key` is taken until `until`, or for good. */
  predicate Taken<K>(t: Table<K>, key: K, until: Option<Time>) {
    key in t && (t[key].deadline == None || t[key].deadline == until)
  }

  predicate Before(now: Time, until: Option<Time>) {
    until.Some? ==> now < until.value
  }

  function UntilOf<K>(op: Op<K>): Option<Time> {
    if op.PutIfAbsentUntil? then Some(op.expiresAt) else None
  }

  lemma {:induction false} TakenStaysTaken<K>(t: Table<K>, key: K, until: Option<Time>, run: seq<Timed<K>>, j: nat)
    requires Taken(t, key, until)
    requires j < |run| && run[j].op.Claims() && run[j].op.key == key
    requires forall i :: 0 <= i < j ==> run[i].op != Op.Delete(key)
    requires forall i :: 0 <= i <= j ==> Before(run[i].now, until)
    ensures RefAnswers(t, run)[j] == Refused
    decreases run
  {
    if j == 0 {
    } else {
      var t' := RefStep(t, run[0].op, run[0].now).0;
      TakenStaysTaken(t', key, until, run[1..], j - 1);
      assert RefAnswers(t, run)[j] == RefAnswers(t', run[1..])[j - 1];
    }
  }

  /**
   Between a successful claim and its deadline, no second claim of that key succeeds unless the
   key was deleted in between: whatever else is stored, overwritten or read.
   */
  lemma {:induction false} NoSecondClaim<K>(t: Table<K>, run: seq<Timed<K>>, i: nat, j: nat)
    requires i < j < |run| && Ordered(run, 0)
    requires run[i].op.Claims() && run[j].op.Claims() && run[i].op.key == run[j].op.key
    requires RefAnswers(t, run)[i] == Accepted
    requires Before(run[j].now, UntilOf(run[i].op))
    requires forall k :: i < k < j ==> run[k].op != Op.Delete(run[i].op.key)
    ensures RefAnswers(t, run)[j] == Refused
    decreases run
  {
    var t' := RefStep(t, run[0].op, run[0].now).0;
    assert RefAnswers(t, run)[1..] == RefAnswers(t', run[1..]);
    if i == 0 {
      TakenStaysTaken(t', run[0].op.key, UntilOf(run[0].op), run[1..], j - 1);
    } else {
      NoSecondClaim(t', run[1..], i - 1, j - 1);
    }
    assert RefAnswers(t, run)[j] == RefAnswers(t, run)[1..][j - 1];
  }

  /** NoSecondClaim for MemoryStore itself. */
  lemma {:induction false} MemoryStoreNoSecondClaim(run: seq<Timed<string>>, i: nat, j: nat)
    requires i < j < |run| && Ordered(run, 0)
    requires run[i].op.Claims() && run[j].op.Claims() && run[i].op.key == run[j].op.key
    requires MemAnswers(Memory(map[], 0), run)[i] == Accepted
    requires Before(run[j].now, UntilOf(run[i].op))
    requires forall k :: i < k < j ==> run[k].op != Op.Delete(run[i].op.key)
    ensures MemAnswers(Memory(map[], 0), run)[j] == Refused
  {
    MemoryStoreRefines(Memory(map[], 0), map[], run, 0);
    NoSecondClaim(map[], run, i, j);
  }

  // ---------- key builders ----------

  const REPLAY_KEY_PREFIX := "mppx:charge:"

  function ChargeStoreKey(hash: string): string {
    var h := Lower(TrimSpace(hash));
    REPLAY_KEY_PREFIX + (if HasPrefix(h, "0x") then h else "0x" + h)
  }

  function ChargeSponsoredTransactionStoreKey(hash: string): string {
    REPLAY_KEY_PREFIX + "sponsor:" + Lower(hash)
  }

  function ChargeProofStoreKey(challengeID: string): string {
    REPLAY_KEY_PREFIX + "proof:" + challengeID
  }

  function LegacySponsoredChallengeStoreKey(challengeID: string): string {
    REPLAY_KEY_PREFIX + "sponsor:" + challengeID
  }

  /** A 32-byte hash printed as 0x and 64 hex digits: 66 characters with no space at either end. */
  predicate IsHashText(s: string) {
    |s| == 66 && s[0] == '0' && (s[1] == 'x' || s[1] == 'X') && forall i :: 0 <= i < |s| ==> !IsSpace(s[i])
  }

  /** An unpadded base64url HMAC-SHA256: 43 characters. */
  predicate IsChallengeIDText(s: string) {
    |s| == 43
  }

  /** What a replay key stands for; hashes are folded to lower case. */
  datatype Key =
    | TxKey(hash: string)
    | SponsorKey(tx: string)
    | ProofKey(challengeID: string)
    | LegacyKey(challengeID: string)
  {
    predicate WellFormed() {
      match this
      case TxKey(h) => IsHashText(h) && Lower(h) == h
      case SponsorKey(h) => IsHashText(h) && Lower(h) == h
      case ProofKey(id) => IsChallengeIDText(id)
      case LegacyKey(id) => IsChallengeIDText(id)
    }

    function Print(): string {
      match this
      case TxKey(h) => ChargeStoreKey(h)
      case SponsorKey(h) => ChargeSponsoredTransactionStoreKey(h)
      case ProofKey(id) => ChargeProofStoreKey(id)
      case LegacyKey(id) => LegacySponsoredChallengeStoreKey(id)
    }
  }

  lemma TrimHashText(s: string)
    requires IsHashText(s)
    ensures TrimSpace(s) == s
  {
    assert !IsSpace(s[0]) && !IsSpace(s[|s| - 1]);
  }

  /** Every spelling of one hash, whatever its case, has the same key. */
  lemma ChargeStoreKeyFoldsCase(a: string, b: string)
    requires IsHashText(a) && IsHashText(b)
    ensures ChargeStoreKey(a) == ChargeStoreKey(b) <==> EqualFold(a, b)
    ensures ChargeStoreKey(a) == REPLAY_KEY_PREFIX + Lower(a)
  {
    TrimHashText(a);
    TrimHashText(b);
    LowerPointwise(a);
    LowerPointwise(b);
    assert Lower(a)[..2] == "0x" && Lower(b)[..2] == "0x";
    assert ChargeStoreKey(a)[|REPLAY_KEY_PREFIX|..] == Lower(a);
    assert ChargeStoreKey(b)[|REPLAY_KEY_PREFIX|..] == Lower(b);
  }

  /** The four key namespaces never collide, so two entries clash only when they mean the same thing. */
  lemma KeyPrintInjective(a: Key, b: Key)
    requires a.WellFormed() && b.WellFormed()
    ensures a.Print() == b.Print() ==> a == b
  {
    if a.Print() == b.Print() {
      PrintedSuffix(a);
      PrintedSuffix(b);
      var x, y := a.Print()[12..], b.Print()[12..];
      assert x == y && x[0] == y[0];
      assert a.ProofKey? && b.ProofKey? ==> x[6..] == a.challengeID && y[6..] == b.challengeID;
      assert a.SponsorKey? && b.SponsorKey? ==> x[8..] == a.tx && y[8..] == b.tx;
      assert a.LegacyKey? && b.LegacyKey? ==> x[8..] == a.challengeID && y[8..] == b.challengeID;
    }
  }

  lemma PrintedSuffix(k: Key)
    requires k.WellFormed()
    ensures |k.Print()| > 12
    ensures match k
      case TxKey(h) => k.Print()[12..] == h
      case SponsorKey(h) => k.Print()[12..] == "sponsor:" + h && |k.Print()| == 12 + 8 + 66
      case ProofKey(id) => k.Print()[12..] == "proof:" + id
      case LegacyKey(id) => k.Print()[12..] == "sponsor:" + id && |k.Print()| == 12 + 8 + 43
  {
    if k.TxKey? {
      ChargeStoreKeyFoldsCase(k.hash, k.hash);
    }
  }

  // ---------- keys as meanings, keys as text ----------

  function PrintOp(op: Op<Key>): Op<string> {
    match op
    case Get(key) => Op.Get(key.Print())
    case Put(key, value) => Op.Put(key.Print(), value)
    case PutIfAbsent(key, value) => Op.PutIfAbsent(key.Print(), value)
    case PutIfAbsentUntil(key, value, expiresAt) => Op.PutIfAbsentUntil(key.Print(), value, expiresAt)
    case Delete(key) => Op.Delete(key.Print())
  }

  /** A table of printed keys holds what a table of keys holds. */
  ghost predicate Prints(t: Table<Key>, printed: Table<string>) {
    forall k: Key {:trigger k.Print()} :: k.WellFormed() ==>
      (k in t <==> k.Print() in printed) && (k in t ==> printed[k.Print()] == t[k])
  }

  lemma {:induction false} PrintedStep(t: Table<Key>, printed: Table<string>, op: Op<Key>, now: Time)
    requires Prints(t, printed) && op.key.WellFormed()
    ensures RefStep(t, op, now).1 == RefStep(printed, PrintOp(op), now).1
    ensures Prints(RefStep(t, op, now).0, RefStep(printed, PrintOp(op), now).0)
  {
    assert op.key in t <==> op.key.Print() in printed;
    var t', printed' := RefStep(t, op, now).0, RefStep(printed, PrintOp(op), now).0;
    forall k: Key | k.WellFormed()
      ensures (k in t' <==> k.Print() in printed') && (k in t' ==> printed'[k.Print()] == t'[k])
    {
      KeyPrintInjective(k, op.key);
      assert k in t <==> k.Print() in printed;
    }
  }

  function PrintRun(run: seq<Timed<Key>>): seq<Timed<string>> {
    seq(|run|, i requires 0 <= i < |run| => Timed(PrintOp(run[i].op), run[i].now))
  }

  lemma {:induction false} PrintedAnswers(t: Table<Key>, printed: Table<string>, run: seq<Timed<Key>>)
    requires Prints(t, printed) && forall i :: 0 <= i < |run| ==> run[i].op.key.WellFormed()
    ensures RefAnswers(printed, PrintRun(run)) == RefAnswers(t, run)
    decreases |run|
  {
    if run == [] {
    } else {
      PrintedStep(t, printed, run[0].op, run[0].now);
      PrintedAnswers(RefStep(t, run[0].op, run[0].now).0, RefStep(printed, PrintOp(run[0].op), run[0].now).0, run[1..]);
      assert PrintRun(run)[1..] == PrintRun(run[1..]);
    }
  }

  /**
   MemoryStore, under printed keys, answers every run of calls as a plain table of the keys' meanings
   does: the kind of store the settlement protocol is stated over.
   */
  lemma {:induction false} MemoryStoreServesKeys(run: seq<Timed<Key>>)
    requires Ordered(run, 0) && forall i :: 0 <= i < |run| ==> run[i].op.key.WellFormed()
    ensures MemAnswers(Memory(map[], 0), PrintRun(run)) == RefAnswers(map[], run)
  {
    MemoryStoreRefines(Memory(map[], 0), map[], PrintRun(run), 0);
    PrintedAnswers(map[], map[], run);
  }
}
