/**
 * Budgeted, at-most-once sending of planned requests. A record is made durable
 * before its request leaves, money is reserved for the worst case, and nothing
 * that may already have been sent is ever sent again. Money is counted in
 * billionths of a dollar, so that the published rate is a whole number.
 */
module ReviewLedger {
  import opened Common
  import opened ReviewPlan

  const RATE: nat := 42
  const MAX_TOKENS: nat := 64_000
  const RESERVATION: nat := 2_688_000
  const DOLLAR: nat := 1_000_000_000

  datatype Status = Awaiting | Complete | ContractRejected | ProcessingFailed | FailedOrAmbiguous

  /** Statuses after which a saved response may be relied on. */
  predicate Terminal(s: Status) {
    s == Complete || s == ContractRejected || s == ProcessingFailed
  }

  datatype Attempt = Attempt(name: string, sha256: string, status: Status)

  datatype Ledger = Ledger(budget: nat, reserved: nat, inputTokens: nat, estimated: nat, attempts: seq<Attempt>)

  datatype Verdict = Accepted | Rejected | Broken

  /** What comes back for a request: nothing usable, or a body with its usage and verdict. */
  datatype Reply = NoReply | Reply(modelMatches: bool, usageValid: bool, inputTokens: nat, verdict: Verdict)

  /** What survives a crash, the requests the service has been sent, in order, and what reached the run for each. */
  datatype Disk = Disk(
    ledger: Option<Ledger>, responses: map<string, bool>, sent: seq<string>, answers: map<string, Reply>)

  function Fresh(budget: nat): Ledger {
    Ledger(budget, 0, 0, 0, [])
  }

  function LedgerOf(d: Disk, budget: nat): Ledger {
    if d.ledger.Some? then d.ledger.value else Fresh(budget)
  }

  function Names(attempts: seq<Attempt>): (names: seq<string>)
    ensures |names| == |attempts|
    ensures forall i :: 0 <= i < |attempts| ==> names[i] == attempts[i].name
  {
    seq(|attempts|, i requires 0 <= i < |attempts| => attempts[i].name)
  }

  function ItemNames(plan: seq<Item>): (names: seq<string>)
    ensures |names| == |plan|
    ensures forall i :: 0 <= i < |plan| ==> names[i] == plan[i].name
  {
    seq(|plan|, i requires 0 <= i < |plan| => plan[i].name)
  }

  // ----- What holds on disk at every instant of every run

  /** Reserved money is the worst case of the attempts made, within budget, and covers the estimated usage. */
  predicate Solvent(l: Ledger) {
    && l.reserved == RESERVATION * |l.attempts|
    && l.reserved <= l.budget <= DOLLAR
    && l.estimated == RATE * l.inputTokens
    && l.inputTokens <= MAX_TOKENS * |l.attempts|
  }

  lemma SolventCoversUsage(l: Ledger)
    requires Solvent(l)
    ensures l.estimated <= l.reserved
  {
    assert RATE * l.inputTokens <= RATE * (MAX_TOKENS * |l.attempts|);
  }

  /** A reply whose usage is charged. */
  predicate Chargeable(r: Reply) {
    r.Reply? && r.modelMatches && r.usageValid && r.inputTokens <= MAX_TOKENS
  }

  /** The statuses a reply may lead to; an awaiting record says nothing yet. */
  predicate StatusFits(s: Status, r: Reply) {
    match s
    case Awaiting => true
    case Complete => Chargeable(r) && r.verdict == Accepted
    case ContractRejected => Chargeable(r) && r.verdict == Verdict.Rejected
    case ProcessingFailed => r.Reply?
    case FailedOrAmbiguous => r.NoReply?
  }

  /** What a record of this status adds to the tokens, given its reply. */
  function Charge(s: Status, r: Reply): nat {
    if Terminal(s) && Chargeable(r) then r.inputTokens else 0
  }

  function Charged(attempts: seq<Attempt>, answers: map<string, Reply>): nat {
    if attempts == [] then 0
    else
      var a := attempts[|attempts| - 1];
      Charged(attempts[..|attempts| - 1], answers) + if a.name in answers then Charge(a.status, answers[a.name]) else 0
  }

  /** Every settled attempt has its whole response on disk. */
  predicate ResponsesKept(attempts: seq<Attempt>, responses: map<string, bool>) {
    forall a :: a in attempts && Terminal(a.status) ==> a.name in responses && responses[a.name]
  }

  /** Every record but an awaiting one says what its reply was. */
  predicate RecordsFit(attempts: seq<Attempt>, answers: map<string, Reply>) {
    forall a :: a in attempts && a.status != Awaiting ==> a.name in answers && StatusFits(a.status, answers[a.name])
  }

  /** Every record says what its reply was, and the tokens are those of the replies scored. */
  ghost predicate Scored(d: Disk) {
    && (forall n :: n in d.answers <==> n in d.sent)
    && (d.ledger.Some? ==>
          && RecordsFit(d.ledger.value.attempts, d.answers)
          && d.ledger.value.inputTokens == Charged(d.ledger.value.attempts, d.answers))
  }

  lemma {:induction false} ChargedElsewhere(
      attempts: seq<Attempt>, answers: map<string, Reply>, more: map<string, Reply>, name: string)
    requires forall a :: a in attempts ==> a.name != name
    requires forall n :: n != name ==> (n in answers <==> n in more) && (n in answers ==> answers[n] == more[n])
    ensures Charged(attempts, answers) == Charged(attempts, more)
  {
    if attempts != [] {
      assert attempts[|attempts| - 1] in attempts;
      ChargedElsewhere(attempts[..|attempts| - 1], answers, more, name);
    }
  }

  /** Whatever plans the runs so far had. */
  ghost predicate Safe(d: Disk) {
    && Distinct(d.sent)
    && Scored(d)
    && match d.ledger
       case None => d.sent == []
       case Some(l) =>
         && Solvent(l)
         && Distinct(Names(l.attempts))
         && (forall n :: n in d.sent ==> n in Names(l.attempts))
         && ResponsesKept(l.attempts, d.responses)
  }

  /** When every run so far had this plan: recorded names are a prefix of it, and only the last may be unsettled. */
  ghost predicate InStep(plan: seq<Item>, d: Disk) {
    d.ledger.Some? ==>
      var attempts := d.ledger.value.attempts;
      var n := |attempts|;
      && n <= |plan|
      && (forall i :: 0 <= i < n ==> attempts[i].name == plan[i].name && attempts[i].sha256 == plan[i].sha256)
      && (forall i :: 0 <= i < n - 1 ==> Terminal(attempts[i].status))
      && (d.sent == ItemNames(plan)[..n]
          || (n > 0 && attempts[n - 1].status == Awaiting && d.sent == ItemNames(plan)[..n - 1]))
  }

  predicate Unsettled(d: Disk) {
    d.ledger.Some? && exists i :: 0 <= i < |d.ledger.value.attempts| && !Terminal(d.ledger.value.attempts[i].status)
  }

  // ----- What one request may leave behind

  ghost predicate SameBut(a: map<string, bool>, b: map<string, bool>, name: string) {
    forall n :: n != name ==> (n in a <==> n in b) && (n in a ==> a[n] == b[n])
  }

  /** The request's own record is on disk, still awaiting, and the request has never been sent. */
  ghost predicate ReadyToSend(d: Disk, name: string) {
    && name !in d.sent
    && d.ledger.Some? && d.ledger.value.attempts != []
    && d.ledger.value.attempts[|d.ledger.value.attempts| - 1].name == name
    && d.ledger.value.attempts[|d.ledger.value.attempts| - 1].status == Awaiting
  }

  /** The ledger with one more attempt. */
  ghost predicate Appended(l: Ledger, m: Ledger, item: Item, status: Status) {
    && m.budget == l.budget
    && m.reserved == l.reserved + RESERVATION
    && m.attempts == l.attempts + [Attempt(item.name, item.sha256, status)]
    && l.inputTokens <= m.inputTokens <= l.inputTokens + MAX_TOKENS
    && m.estimated == (if m.inputTokens == l.inputTokens then l.estimated else RATE * m.inputTokens)
  }

  /** Not sent yet, or sent once, with the status and the charge that its reply calls for. */
  ghost predicate Answered(l: Ledger, d: Disk, e: Disk, item: Item, status: Status)
    requires e.ledger.Some?
  {
    if e.sent == d.sent then
      status == Awaiting && e.answers == d.answers && e.ledger.value.inputTokens == l.inputTokens
    else
      && e.sent == d.sent + [item.name]
      && item.name in e.answers && e.answers == d.answers[item.name := e.answers[item.name]]
      && StatusFits(status, e.answers[item.name])
      && e.ledger.value.inputTokens == l.inputTokens + Charge(status, e.answers[item.name])
  }

  /** The disk after one more attempt has been recorded, sent or not. */
  ghost predicate Recorded(l: Ledger, d: Disk, e: Disk, item: Item, status: Status) {
    && e.ledger.Some? && Appended(l, e.ledger.value, item, status)
    && Answered(l, d, e, item, status)
    && (Terminal(status) ==> item.name in e.responses && e.responses[item.name])
    && SameBut(d.responses, e.responses, item.name)
  }

  ghost predicate Requested(l: Ledger, d: Disk, e: Disk, item: Item) {
    e == d || exists status :: Recorded(l, d, e, item, status)
  }

  /** One more record, and perhaps the reply to its request, leave what the others say alone. */
  lemma OneMoreRecord(attempts: seq<Attempt>, answers: map<string, Reply>, more: map<string, Reply>, a: Attempt)
    requires RecordsFit(attempts, answers) && a.name !in Names(attempts)
    requires a.name !in answers
    requires more == answers || (a.name in more && more == answers[a.name := more[a.name]])
    requires a.name in more ==> StatusFits(a.status, more[a.name])
    requires a.name !in more ==> a.status == Awaiting
    ensures RecordsFit(attempts + [a], more)
    ensures Charged(attempts + [a], more)
         == Charged(attempts, answers) + if a.name in more then Charge(a.status, more[a.name]) else 0
  {
    hide StatusFits, Charge;
    forall b | b in attempts ensures b.name != a.name {
      var i :| 0 <= i < |attempts| && attempts[i] == b;
      assert Names(attempts)[i] == b.name;
    }
    assert (attempts + [a])[..|attempts + [a]| - 1] == attempts;
    ChargedElsewhere(attempts, answers, more, a.name);
  }

  lemma RecordedKeepsScored(l: Ledger, d: Disk, e: Disk, item: Item, status: Status)
    requires Scored(d) && l == LedgerOf(d, l.budget)
    requires item.name !in Names(l.attempts) && item.name !in d.sent
    requires Recorded(l, d, e, item, status)
    ensures Scored(e)
  {
    hide StatusFits, Charge, Charged, RecordsFit, Names;
    var a := Attempt(item.name, item.sha256, status);
    assert RecordsFit(l.attempts, d.answers) && l.inputTokens == Charged(l.attempts, d.answers) by {
      NothingRecorded(d.answers);
    }
    OneMoreRecord(l.attempts, d.answers, e.answers, a);
  }

  lemma NothingRecorded(answers: map<string, Reply>)
    ensures RecordsFit([], answers) && Charged([], answers) == 0
  {
  }

  lemma OneMoreResponse(attempts: seq<Attempt>, responses: map<string, bool>, more: map<string, bool>, a: Attempt)
    requires ResponsesKept(attempts, responses) && a.name !in Names(attempts)
    requires SameBut(responses, more, a.name)
    requires Terminal(a.status) ==> a.name in more && more[a.name]
    ensures ResponsesKept(attempts + [a], more)
  {
    hide Terminal;
    forall b | b in attempts ensures b.name != a.name {
      var i :| 0 <= i < |attempts| && attempts[i] == b;
      assert Names(attempts)[i] == b.name;
    }
  }

  lemma RecordedKeepsSafe(l: Ledger, d: Disk, e: Disk, item: Item, status: Status)
    requires Safe(d) && l == LedgerOf(d, l.budget) && l.budget <= DOLLAR
    requires item.name !in Names(l.attempts) && l.reserved + RESERVATION <= l.budget
    requires Recorded(l, d, e, item, status)
    ensures Safe(e)
  {
    hide Scored, StatusFits, Charge, Charged, Terminal, SameBut, ResponsesKept;
    assert item.name !in d.sent;
    RecordedKeepsScored(l, d, e, item, status);
    var m := e.ledger.value;
    assert Names(m.attempts) == Names(l.attempts) + [item.name];
    assert ResponsesKept(l.attempts, d.responses) by {
      NoResponses(d.responses);
    }
    OneMoreResponse(l.attempts, d.responses, e.responses, Attempt(item.name, item.sha256, status));
  }

  lemma NoResponses(responses: map<string, bool>)
    ensures ResponsesKept([], responses)
  {
  }

  lemma RecordedKeepsStep(plan: seq<Item>, k: nat, l: Ledger, d: Disk, e: Disk, status: Status)
    requires Safe(d) && InStep(plan, d) && !Unsettled(d) && l == LedgerOf(d, l.budget)
    requires k < |plan| && |l.attempts| == k
    requires Recorded(l, d, e, plan[k], status)
    ensures InStep(plan, e)
  {
    hide Scored, StatusFits, Charge, Solvent;
    var names := ItemNames(plan);
    assert d.sent == names[..k];
    assert names[..k + 1] == names[..k] + [plan[k].name];
  }

  /** What each record on a safe disk says of the reply to its request. */
  lemma RecordsSay(d: Disk)
    requires Safe(d)
    ensures d.ledger.Some? ==>
      && d.ledger.value.inputTokens == Charged(d.ledger.value.attempts, d.answers)
      && forall a :: a in d.ledger.value.attempts && a.status != Awaiting ==>
           a.name in d.answers
           && var reply := d.answers[a.name];
              && (a.status == FailedOrAmbiguous <==> reply == NoReply)
              && (a.status == Complete ==> Chargeable(reply) && reply.verdict == Accepted)
              && (a.status == ContractRejected ==> Chargeable(reply) && reply.verdict == Verdict.Rejected)
  {
  }

  /** A run over the plan has passed its first `i` requests: each of them is recorded and settled. */
  ghost predicate Passed(plan: seq<Item>, i: nat, d: Disk) {
    && InStep(plan, d)
    && if d.ledger.None? then i == 0
       else i <= |d.ledger.value.attempts| && forall k :: 0 <= k < i ==> Terminal(d.ledger.value.attempts[k].status)
  }

  function Previous(l: Ledger, name: string): nat {
    FirstIndex(l.attempts, (a: Attempt) => a.name == name)
  }

  /** In step, the next request is the next record, or there is none and everything is settled. */
  lemma NextInStep(plan: seq<Item>, i: nat, d: Disk, l: Ledger)
    requires UniqueNames(plan) && i < |plan| && Passed(plan, i, d) && l == LedgerOf(d, l.budget)
    ensures i < |l.attempts| ==> Previous(l, plan[i].name) == i
    ensures i >= |l.attempts| ==> i == |l.attempts| == Previous(l, plan[i].name) && !Unsettled(d)
  {
    forall k | 0 <= k < |l.attempts| && k != i ensures l.attempts[k].name != plan[i].name {
      assert l.attempts[k].name == plan[k].name;
    }
  }

  /** Looking a name up tells which of the three cases an entry is in; a settled one has its response. */
  lemma LookUp(d: Disk, l: Ledger, item: Item)
    requires Safe(d) && l == LedgerOf(d, l.budget)
    ensures var k := Previous(l, item.name);
      && (k < |l.attempts| <==> exists a :: a in l.attempts && a.name == item.name)
      && (k < |l.attempts| && Terminal(l.attempts[k].status) ==> item.name in d.responses)
      && (k < |l.attempts| ==>
            forall a :: a in l.attempts && a.name == item.name ==> a == l.attempts[k])
  {
    hide Scored, Solvent;
    var k := Previous(l, item.name);
    forall a | a in l.attempts && a.name == item.name ensures k < |l.attempts| && a == l.attempts[k] {
      var j :| 0 <= j < |l.attempts| && l.attempts[j] == a;
      var names := Names(l.attempts);
      assert names[j] == item.name;
      assert k <= j;
      assert names[k] == item.name;
    }
  }

  /** The request is recorded with its digest and needs no sending any more. */
  predicate SettledIn(attempts: seq<Attempt>, item: Item) {
    exists a :: a in attempts && a.name == item.name && a.sha256 == item.sha256
                && a.status in {Complete, ContractRejected, ProcessingFailed}
  }

  lemma SettledBy(attempts: seq<Attempt>, item: Item, a: Attempt)
    requires a in attempts && a.name == item.name && a.sha256 == item.sha256 && Terminal(a.status)
    ensures SettledIn(attempts, item)
  {
  }

  lemma SettlingRecords(l: Ledger, d: Disk, e: Disk, item: Item)
    requires exists status :: Terminal(status) && Recorded(l, d, e, item, status)
    ensures e.ledger.Some? && l.attempts <= e.ledger.value.attempts && SettledIn(e.ledger.value.attempts, item)
  {
    var status :| Terminal(status) && Recorded(l, d, e, item, status);
    var attempts := e.ledger.value.attempts;
    assert attempts[|l.attempts|] == Attempt(item.name, item.sha256, status);
  }

  /** So are the first `i` requests of the plan. */
  predicate AllSettled(attempts: seq<Attempt>, plan: seq<Item>, i: nat) {
    i <= |plan| && forall k :: 0 <= k < i ==> SettledIn(attempts, plan[k])
  }

  lemma OneMoreSettled(attempts: seq<Attempt>, more: seq<Attempt>, plan: seq<Item>, i: nat)
    requires AllSettled(attempts, plan, i) && attempts <= more
    requires i < |plan| && SettledIn(more, plan[i])
    ensures AllSettled(more, plan, i + 1)
  {
    forall k | 0 <= k < i ensures SettledIn(more, plan[k]) {
      var a :| a in attempts && a.name == plan[k].name && a.sha256 == plan[k].sha256
               && a.status in {Complete, ContractRejected, ProcessingFailed};
      assert a in more;
    }
  }

  /** In step with something unsettled, an entry already passed is not the unsettled one. */
  lemma StillStuck(plan: seq<Item>, i: nat, d: Disk, l: Ledger)
    requires Passed(plan, i, d) && Unsettled(d) && l == LedgerOf(d, l.budget)
    ensures i < |l.attempts| && i < |plan|
  {
  }

  lemma UnknownWasNeverSent(d: Disk, l: Ledger, name: string)
    requires Safe(d) && l == LedgerOf(d, l.budget) && Previous(l, name) >= |l.attempts|
    ensures name !in Names(l.attempts) && name !in d.sent
  {
  }

  lemma RequestKeepsSafe(l: Ledger, d: Disk, e: Disk, item: Item)
    requires Safe(d) && l == LedgerOf(d, l.budget) && l.budget <= DOLLAR
    requires item.name !in Names(l.attempts) && l.reserved + RESERVATION <= l.budget
    requires Requested(l, d, e, item)
    ensures Safe(e) && d.sent <= e.sent
  {
    if e != d {
      var status :| Recorded(l, d, e, item, status);
      RecordedKeepsSafe(l, d, e, item, status);
    }
  }

  lemma RequestKeepsStep(plan: seq<Item>, i: nat, l: Ledger, d: Disk, e: Disk, settled: bool)
    requires Safe(d) && Passed(plan, i, d) && !Unsettled(d) && l == LedgerOf(d, l.budget)
    requires i < |plan| && |l.attempts| == i
    requires Requested(l, d, e, plan[i])
    requires settled ==> exists status :: Terminal(status) && Recorded(l, d, e, plan[i], status)
    ensures InStep(plan, e)
    ensures settled ==> Passed(plan, i + 1, e)
  {
    if settled {
      var status :| Terminal(status) && Recorded(l, d, e, plan[i], status);
      RecordedKeepsStep(plan, i, l, d, e, status);
    } else if e != d {
      var status :| Recorded(l, d, e, plan[i], status);
      RecordedKeepsStep(plan, i, l, d, e, status);
    }
  }

  /** A settled record of the plan's own request, with its response there, holds up no later run. */
  lemma SettledIsPassedOver(plan: seq<Item>, i: nat, d: Disk, l: Ledger)
    requires Safe(d) && Passed(plan, i, d) && !Unsettled(d) && l == LedgerOf(d, l.budget) && i < |l.attempts|
    ensures i < |plan| && l.attempts[i].sha256 == plan[i].sha256
    ensures Terminal(l.attempts[i].status) && plan[i].name in d.responses
  {
    assert l.attempts[i] in l.attempts;
  }

  lemma StaysSettled(l: Ledger, d: Disk, e: Disk, item: Item)
    requires !Unsettled(d) && l == LedgerOf(d, l.budget)
    requires exists status :: Terminal(status) && Recorded(l, d, e, item, status)
    ensures !Unsettled(e)
  {
  }

  lemma BudgetStays(l: Ledger, d: Disk, e: Disk, item: Item)
    requires exists status :: Terminal(status) && Recorded(l, d, e, item, status)
    ensures e.ledger.Some? && e.ledger.value.budget == l.budget
  {
  }

  lemma InStepOf(plan: seq<Item>, i: nat, d: Disk, fixed: bool)
    requires fixed ==> Passed(plan, i, d)
    ensures fixed ==> InStep(plan, d)
  {
  }

  lemma SafeIsSolvent(d: Disk, l: Ledger)
    requires Safe(d) && d.ledger == Some(l)
    ensures Solvent(l)
  {
  }

  lemma PassOver(plan: seq<Item>, i: nat, d: Disk, l: Ledger)
    requires Passed(plan, i, d) && l == LedgerOf(d, l.budget)
    requires i < |l.attempts| && Terminal(l.attempts[i].status)
    ensures Passed(plan, i + 1, d)
  {
  }

  /** A run that has passed every request has sent each of them once, in order. */
  lemma AllPassed(plan: seq<Item>, d: Disk)
    requires Safe(d) && Passed(plan, |plan|, d)
    ensures d.sent == ItemNames(plan) && !Unsettled(d)
  {
  }

  lemma WithinPlanBudget(plan: seq<Item>, l: Ledger, budget: nat)
    requires Solvent(l) && |l.attempts| < |plan| && RESERVATION * |plan| <= budget
    ensures l.reserved + RESERVATION <= budget
  {
    assert RESERVATION * (|l.attempts| + 1) <= RESERVATION * |plan|;
  }

  // ----- The evaluator

  /** How one step of the file system or the network goes. */
  datatype Fate = Fine | Raises | RaisesPartway | DiesBefore | DiesPartway | DiesAfter

  datatype Outcome = Done | Raised | Died

  predicate Fatal(f: Fate) {
    f == DiesBefore || f == DiesPartway || f == DiesAfter
  }

  /** A reply the run can score, accepted or not. */
  predicate Usable(r: Reply) {
    Chargeable(r) && r.verdict != Broken
  }

  /** The request's record is the one its reply calls for, and the run goes on exactly after a reply it can score. */
  ghost predicate AsReplied(l: Ledger, d: Disk, item: Item, goesOn: bool) {
    item.name in d.answers && d.ledger.Some?
    && var reply, m := d.answers[item.name], d.ledger.value;
       var charged := reply.Reply? && reply.modelMatches && reply.usageValid && reply.inputTokens <= 64_000;
       && m.attempts == l.attempts + [Attempt(item.name, item.sha256,
            if reply.NoReply? then FailedOrAmbiguous
            else if !charged || reply.verdict.Broken? then ProcessingFailed
            else if reply.verdict.Accepted? then Complete else ContractRejected)]
       && m.inputTokens == l.inputTokens + (if charged then reply.inputTokens else 0)
       && (goesOn <==> charged && !reply.verdict.Broken?)
  }

  datatype RunResult =
    | Finished
    | BadBudget | DifferentBudget | ReplayProhibited | ResponseMissing | BudgetExhausted
    | RequestFailed
    | Killed

  class Evaluator {
    const fates: nat -> Fate
    const replies: nat -> Reply
    var disk: Disk
    var clock: nat

    /** Some step may be the process's last. */
    ghost predicate Mortal() {
      exists n: nat :: Fatal(fates(n))
    }

    /** No step fails, and every reply is usable. */
    ghost predicate Unfailing() {
      (forall n: nat :: fates(n) == Fine) && (forall n: nat :: Usable(replies(n)))
    }

    /** No step of the disk or the network fails, whatever the replies. */
    ghost predicate Steady() {
      forall n: nat :: fates(n) == Fine
    }

    constructor (fates: nat -> Fate, replies: nat -> Reply)
      ensures disk == Disk(None, map[], [], map[])
      ensures Safe(disk)
      ensures forall plan :: InStep(plan, disk)
    {
      this.fates, this.replies := fates, replies;
      disk, clock := Disk(None, map[], [], map[]), 0;
    }

    method Tick() returns (f: Fate)
      modifies `clock
      ensures (Unfailing() ==> f == Fine) && (Fatal(f) ==> Mortal())
      ensures Steady() ==> f == Fine
    {
      f := fates(clock);
      clock := clock + 1;
    }

    /** Writes a temporary file and renames it over the ledger. */
    method Save(l: Ledger) returns (o: Outcome)
      modifies `disk, `clock
      ensures o.Done? ==> disk == old(disk).(ledger := Some(l))
      ensures o.Raised? ==> disk == old(disk)
      ensures o.Died? ==> disk == old(disk) || disk == old(disk).(ledger := Some(l))
      ensures (Unfailing() ==> o.Done?) && (o.Died? ==> Mortal())
      ensures Steady() ==> o.Done?
    {
      var f := Tick();
      match f
      case Fine => disk := disk.(ledger := Some(l)); o := Done;
      case Raises => o := Raised;
      case RaisesPartway => o := Raised;
      case DiesBefore => o := Died;
      case DiesPartway => o := Died;
      case DiesAfter => disk := disk.(ledger := Some(l)); o := Died;
    }

    /** Writes a response file in place: cut short, it is there but incomplete. */
    method WriteResponse(name: string) returns (o: Outcome)
      modifies `disk, `clock
      ensures o.Done? ==> disk == old(disk).(responses := old(disk).responses[name := true])
      ensures disk == old(disk).(responses := disk.responses) && SameBut(old(disk).responses, disk.responses, name)
      ensures (Unfailing() ==> o.Done?) && (o.Died? ==> Mortal())
      ensures Steady() ==> o.Done?
    {
      var f := Tick();
      match f
      case Fine => disk := disk.(responses := disk.responses[name := true]); o := Done;
      case Raises => o := Raised;
      case RaisesPartway => disk := disk.(responses := disk.responses[name := false]); o := Raised;
      case DiesBefore => o := Died;
      case DiesPartway => disk := disk.(responses := disk.responses[name := false]); o := Died;
      case DiesAfter => disk := disk.(responses := disk.responses[name := true]); o := Died;
    }

    /** Sends a request. Only a name that is durably recorded and was never sent may be passed. */
    method Transmit(name: string) returns (o: Outcome, reply: Reply)
      requires ReadyToSend(disk, name)
      modifies `disk, `clock
      ensures disk == old(disk).(sent := old(disk).sent + [name], answers := old(disk).answers[name := reply])
      ensures o.Done? <==> reply != NoReply
      ensures (Unfailing() ==> o.Done? && Usable(reply)) && (o.Died? ==> Mortal())
      ensures Steady() ==> !o.Died?
    {
      reply := replies(clock);
      var f := Tick();
      reply := if Fatal(f) then NoReply else reply;
      disk := disk.(sent := disk.sent + [name], answers := disk.answers[name := reply]);
      if Fatal(f) {
        return Died, NoReply;
      }
      o := if reply == NoReply then Raised else Done;
    }

    /** After a failure with a response in hand: keep the response, then record the failure. */
    method FailWithResponse(item: Item, l: Ledger, m: Ledger, ghost status: Status, ghost before: Disk)
      returns (r: RunResult)
      requires Appended(l, m, item, status) && Recorded(l, before, disk, item, Awaiting)
      requires disk.sent == before.sent + [item.name]
      requires item.name in disk.answers && disk.answers[item.name].Reply?
      requires m.inputTokens == l.inputTokens + Charge(ProcessingFailed, disk.answers[item.name])
      modifies `disk, `clock
      ensures disk.sent == old(disk).sent && disk.answers == old(disk).answers
      ensures r.RequestFailed? || (r.Killed? && Mortal())
      ensures Requested(l, before, disk, item)
      ensures Steady() ==>
        disk.ledger == Some(m.(attempts := l.attempts + [Attempt(item.name, item.sha256, ProcessingFailed)]))
    {
      var o := WriteResponse(item.name);
      assert Recorded(l, before, disk, item, Awaiting);
      if !o.Done? {
        return if o.Died? then Killed else RequestFailed;
      }
      var failed := m.(attempts := l.attempts + [Attempt(item.name, item.sha256, ProcessingFailed)]);
      o := Save(failed);
      if disk.ledger == Some(failed) {
        assert Recorded(l, before, disk, item, ProcessingFailed);
      } else {
        assert Recorded(l, before, disk, item, Awaiting);
      }
      return if o.Died? then Killed else RequestFailed;
    }

    /**
     * One request: reserve and record it, save, send, then settle it. When the
     * run is to go on, the request has been sent and is settled on disk; when
     * it is not, at most this one record has been added and at most this one
     * request sent, after its record.
     */
    method Request(item: Item, l: Ledger) returns (next: Ledger, stop: Option<RunResult>)
      requires l == LedgerOf(disk, l.budget) && Solvent(l)
      requires item.name !in disk.sent
      modifies `disk, `clock
      ensures Requested(l, old(disk), disk, item)
      ensures stop.None? ==>
        && disk.ledger == Some(next) && disk.sent == old(disk).sent + [item.name]
        && exists status :: Terminal(status) && Recorded(l, old(disk), disk, item, status)
      ensures stop.None? ==> item.name in disk.answers
      ensures stop.None? ==>
        var reply, n := disk.answers[item.name], |l.attempts|;
        && Usable(reply) && |next.attempts| == n + 1 && next.inputTokens == l.inputTokens + reply.inputTokens
        && (next.attempts[n].status == Complete <==> reply.verdict == Accepted)
        && (next.attempts[n].status == ContractRejected <==> reply.verdict == Verdict.Rejected)
      ensures stop.Some? ==> stop.value.RequestFailed? || (stop.value.Killed? && Mortal())
      ensures Unfailing() ==> stop.None?
      ensures Steady() ==> AsReplied(l, disk, item, stop.None?)
    {
      ghost var before := disk;
      next := l.(attempts := l.attempts + [Attempt(item.name, item.sha256, Awaiting)],
                 reserved := l.reserved + RESERVATION);
      var o := Save(next);
      if !o.Done? {
        assert disk == before || Recorded(l, before, disk, item, Awaiting);
        return next, Some(if o.Died? then Killed else RequestFailed);
      }
      var reply;
      o, reply := Transmit(item.name);
      assert Recorded(l, before, disk, item, Awaiting);
      if o.Died? {
        return next, Some(Killed);
      }
      if o.Raised? {
        var r := RecordAmbiguous(item, l, next, before);
        return next, Some(r);
      }
      if !reply.modelMatches || !reply.usageValid || reply.inputTokens > MAX_TOKENS {
        var r := FailWithResponse(item, l, next, Awaiting, before);
        return next, Some(r);
      }
      var tokens := l.inputTokens + reply.inputTokens;
      next := next.(inputTokens := tokens, estimated := RATE * tokens);
      assert Appended(l, next, item, Awaiting);
      var r;
      next, r := Settle(item, l, next, reply.verdict, before);
      return next, r;
    }

    /** No answer came back: whether the request arrived is unknown, and stays recorded so. */
    method RecordAmbiguous(item: Item, l: Ledger, m: Ledger, ghost before: Disk) returns (r: RunResult)
      requires Appended(l, m, item, Awaiting) && Recorded(l, before, disk, item, Awaiting)
      requires disk.sent == before.sent + [item.name]
      requires item.name in disk.answers && disk.answers[item.name].NoReply? && m.inputTokens == l.inputTokens
      modifies `disk, `clock
      ensures r.RequestFailed? || (r.Killed? && Mortal())
      ensures Requested(l, before, disk, item)
      ensures Recorded(l, before, disk, item, Awaiting) || Recorded(l, before, disk, item, FailedOrAmbiguous)
      ensures disk.answers == old(disk).answers
      ensures Steady() ==>
        disk.ledger == Some(m.(attempts := l.attempts + [Attempt(item.name, item.sha256, FailedOrAmbiguous)]))
    {
      var failed := m.(attempts := l.attempts + [Attempt(item.name, item.sha256, FailedOrAmbiguous)]);
      var o := Save(failed);
      if disk.ledger == Some(failed) {
        assert Recorded(l, before, disk, item, FailedOrAmbiguous);
      } else {
        assert Recorded(l, before, disk, item, Awaiting);
      }
      return if o.Died? then Killed else RequestFailed;
    }

    /** A usable answer: score it, write the response, then save the final status. */
    method Settle(item: Item, l: Ledger, m: Ledger, verdict: Verdict, ghost before: Disk)
      returns (next: Ledger, stop: Option<RunResult>)
      requires Appended(l, m, item, Awaiting) && Recorded(l, before, disk, item, Awaiting)
      requires disk.sent == before.sent + [item.name]
      requires item.name in disk.answers && Chargeable(disk.answers[item.name])
      requires verdict == disk.answers[item.name].verdict
      requires m.inputTokens == l.inputTokens + disk.answers[item.name].inputTokens
      modifies `disk, `clock
      ensures Requested(l, before, disk, item)
      ensures disk.sent == old(disk).sent && disk.answers == old(disk).answers
      ensures stop.None? ==>
        && disk.ledger == Some(next)
        && exists status :: Terminal(status) && Recorded(l, before, disk, item, status)
      ensures stop.None? ==>
        && verdict != Broken && |next.attempts| == |l.attempts| + 1 && next.inputTokens == m.inputTokens
        && (next.attempts[|l.attempts|].status == Complete <==> verdict == Accepted)
        && (next.attempts[|l.attempts|].status == ContractRejected <==> verdict == Verdict.Rejected)
      ensures stop.Some? ==> stop.value.RequestFailed? || (stop.value.Killed? && Mortal())
      ensures Unfailing() || Steady() ==> (verdict != Broken <==> stop.None?)
      ensures Steady() ==>
        disk.ledger == Some(m.(attempts := l.attempts + [Attempt(item.name, item.sha256,
          if verdict == Accepted then Complete
          else if verdict == Verdict.Rejected then ContractRejected else ProcessingFailed)]))
    {
      next := m;
      if verdict == Broken {
        var r := FailWithResponse(item, l, m, Awaiting, before);
        return m, Some(r);
      }
      var status := if verdict == Accepted then Complete else ContractRejected;
      next := m.(attempts := l.attempts + [Attempt(item.name, item.sha256, status)]);
      assert Appended(l, next, item, status);
      var o := WriteResponse(item.name);
      assert Recorded(l, before, disk, item, Awaiting);
      if o.Died? {
        return next, Some(Killed);
      }
      if o.Raised? {
        var r := FailWithResponse(item, l, next, status, before);
        return next, Some(r);
      }
      o := Save(next);
      if o.Raised? {
        var r := FailWithResponse(item, l, next, status, before);
        return next, Some(r);
      }
      assert disk.ledger == Some(next) ==> Recorded(l, before, disk, item, status);
      assert disk.ledger != Some(next) ==> Recorded(l, before, disk, item, Awaiting);
      stop := if o.Died? then Some(Killed) else None;
    }

    /**
     * One entry of the plan: settled already and passed over, refused, or
     * requested. `fixed` says that all runs so far had this plan.
     */
    method PassItem(plan: seq<Item>, i: nat, l: Ledger, ghost fixed: bool)
      returns (next: Ledger, stop: Option<RunResult>)
      requires i < |plan| && Safe(disk) && l == LedgerOf(disk, l.budget) && l.budget <= DOLLAR && Solvent(l)
      requires fixed ==> UniqueNames(plan) && Passed(plan, i, disk)
      modifies `disk, `clock
      ensures Safe(disk) && old(disk).sent <= disk.sent
      ensures stop.None? ==> next == LedgerOf(disk, l.budget) && next.budget == l.budget && Solvent(next)
      ensures stop.Some? ==>
        stop.value.ReplayProhibited? || stop.value.ResponseMissing? || stop.value.BudgetExhausted?
        || (stop.value.RequestFailed? && !Unfailing()) || (stop.value.Killed? && Mortal())
      ensures fixed ==>
        && InStep(plan, disk) && (stop.None? ==> Passed(plan, i + 1, disk))
        && (if old(Unsettled(disk)) then disk == old(disk) else stop.None? ==> !Unsettled(disk))
        && (RESERVATION * |plan| <= l.budget ==> stop != Some(BudgetExhausted))
        && (Unfailing() && !old(Unsettled(disk)) && RESERVATION * |plan| <= l.budget ==> stop.None?)
        && (stop == Some(ReplayProhibited) ==> old(Unsettled(disk)))
        && (old(Unsettled(disk)) && stop.Some? ==> stop == Some(ReplayProhibited))
      ensures stop != Some(ResponseMissing)
      ensures stop == Some(ReplayProhibited) <==>
        exists a :: a in l.attempts && a.name == plan[i].name
                    && (a.sha256 != plan[i].sha256 || a.status !in {Complete, ContractRejected, ProcessingFailed})
      ensures stop == Some(BudgetExhausted) <==>
        (forall a :: a in l.attempts ==> a.name != plan[i].name) && l.reserved + RESERVATION > l.budget
      ensures stop in {Some(ReplayProhibited), Some(BudgetExhausted)} ==> disk == old(disk)
      ensures (exists a :: a in l.attempts && a.name == plan[i].name) ==> disk == old(disk)
      ensures stop.None? ==> l.attempts <= next.attempts && SettledIn(next.attempts, plan[i])
    {
      hide Safe, InStep, Passed, Unsettled, Requested, Recorded, Previous, SettledIn, Mortal, Unfailing, Steady,
        AsReplied, UniqueNames;
      next, stop := l, None;
      var item := plan[i];
      var k := Previous(l, item.name);
      LookUp(disk, l, item);
      if fixed && Unsettled(disk) {
        StillStuck(plan, i, disk, l);
      }
      if fixed {
        NextInStep(plan, i, disk, l);
        InStepOf(plan, i, disk, fixed);
        if !Unsettled(disk) && k < |l.attempts| {
          SettledIsPassedOver(plan, i, disk, l);
        }
      }
      if k < |l.attempts| {
        var previous := l.attempts[k];
        if previous.sha256 != item.sha256 || !Terminal(previous.status) {
          return l, Some(ReplayProhibited);
        }
        if item.name !in disk.responses {
          return l, Some(ResponseMissing);
        }
        SettledBy(l.attempts, item, previous);
        if fixed {
          PassOver(plan, i, disk, l);
        }
        return;
      }
      if l.reserved + RESERVATION > l.budget {
        if fixed && RESERVATION * |plan| <= l.budget {
          WithinPlanBudget(plan, l, l.budget);
        }
        return l, Some(BudgetExhausted);
      }
      UnknownWasNeverSent(disk, l, item.name);
      ghost var before := disk;
      next, stop := Request(item, l);
      RequestKeepsSafe(l, before, disk, item);
      if fixed {
        RequestKeepsStep(plan, i, l, before, disk, stop.None?);
      }
      if stop.None? {
        SafeIsSolvent(disk, next);
        SettlingRecords(l, before, disk, item);
        BudgetStays(l, before, disk, item);
        if !Unsettled(before) {
          StaysSettled(l, before, disk, item);
        }
      }
    }

    /**
     * One run over a plan, wherever it is cut off. Whatever the plan, the disk
     * stays safe and only grows. When all runs so far had this plan, records
     * stay in step with it; an unsettled record lets nothing more be sent; a
     * finished run has sent every request exactly once, in order; and a budget
     * that covers the whole plan is never exhausted. With such a budget, nothing
     * unsettled and no step failing, the run finishes.
     */
    method Run(plan: seq<Item>, budget: nat) returns (r: RunResult)
      requires Safe(disk)
      modifies `disk, `clock
      ensures Safe(disk)
      ensures old(disk).sent <= disk.sent
      ensures r.BadBudget? <==> !(0 < budget <= DOLLAR)
      ensures r.DifferentBudget? <==> 0 < budget <= DOLLAR && LedgerOf(old(disk), budget).budget != budget
      ensures r.BadBudget? || r.DifferentBudget? ==> disk == old(disk)
      ensures disk.ledger.Some? ==>
        && disk.ledger.value.inputTokens == Charged(disk.ledger.value.attempts, disk.answers)
        && forall a :: a in disk.ledger.value.attempts && a.status != Awaiting ==>
             a.name in disk.answers
             && var reply := disk.answers[a.name];
                && (a.status == FailedOrAmbiguous <==> reply == NoReply)
                && (a.status == Complete ==> Chargeable(reply) && reply.verdict == Accepted)
                && (a.status == ContractRejected ==> Chargeable(reply) && reply.verdict == Verdict.Rejected)
      ensures (r.Killed? ==> Mortal()) && (r.RequestFailed? ==> !Unfailing())
      ensures !r.ResponseMissing?
      ensures r.BudgetExhausted? ==> LedgerOf(disk, budget).reserved + RESERVATION > budget
      ensures r.Finished? ==> AllSettled(LedgerOf(disk, budget).attempts, plan, |plan|)
      ensures UniqueNames(plan) && old(InStep(plan, disk)) ==>
        && InStep(plan, disk)
        && (old(Unsettled(disk)) ==> disk == old(disk))
        && (r.ReplayProhibited? <==> old(Unsettled(disk)) && !r.BadBudget? && !r.DifferentBudget?)
        && (r.Finished? ==> disk.sent == ItemNames(plan) && !Unsettled(disk))
        && (RESERVATION * |plan| <= budget ==> !r.BudgetExhausted?)
        && (Unfailing() && !old(Unsettled(disk)) && RESERVATION * |plan| <= budget ==>
              r.Finished? || r.BadBudget? || r.DifferentBudget?)
    {
      hide Scored, RecordsFit, Charged, StatusFits, Chargeable, ResponsesKept, SettledIn;
      RecordsSay(disk);
      if !(0 < budget <= DOLLAR) {
        return BadBudget;
      }
      var l := LedgerOf(disk, budget);
      if l.budget != budget {
        return DifferentBudget;
      }
      ghost var fixed := UniqueNames(plan) && InStep(plan, disk);
      ghost var stuck := Unsettled(disk);
      assert fixed ==> Passed(plan, 0, disk);
      assert AllSettled(l.attempts, plan, 0);
      hide Safe, InStep, Passed, Unsettled, Mortal, Unfailing, Steady, UniqueNames, AllSettled;
      for i := 0 to |plan|
        invariant Safe(disk) && old(disk).sent <= disk.sent
        invariant l == LedgerOf(disk, budget) && l.budget == budget && Solvent(l)
        invariant fixed ==> Passed(plan, i, disk)
        invariant AllSettled(l.attempts, plan, i)
        invariant fixed ==> if stuck then disk == old(disk) else !Unsettled(disk)
      {
        var stop;
        ghost var settled := l.attempts;
        l, stop := PassItem(plan, i, l, fixed);
        if stop.Some? {
          RecordsSay(disk);
          return stop.value;
        }
        OneMoreSettled(settled, l.attempts, plan, i);
      }
      if fixed {
        AllPassed(plan, disk);
        InStepOf(plan, |plan|, disk, fixed);
      }
      RecordsSay(disk);
      r := Finished;
    }

    /**
     * Any sequence of runs, each with its own plan and budget, from a disk no
     * run has touched: no name is ever sent twice, and reserved money stays
     * within the budget.
     */
    method RunMany(runs: seq<(seq<Item>, nat)>)
      requires disk == Disk(None, map[], [], map[])
      modifies `disk, `clock
      ensures Safe(disk)
      ensures forall plan :: UniqueNames(plan) && (forall i :: 0 <= i < |runs| ==> runs[i].0 == plan) ==>
        InStep(plan, disk)
    {
      for i := 0 to |runs|
        invariant Safe(disk)
        invariant forall plan :: UniqueNames(plan) && (forall k :: 0 <= k < i ==> runs[k].0 == plan) ==>
          InStep(plan, disk)
      {
        var _ := Run(runs[i].0, runs[i].1);
      }
    }
  }
}
