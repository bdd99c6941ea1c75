/** The ledger of verified publications and its recovery (ops/c2/auto-custodian.py). */
module Ledger {
  import opened Outcomes

  datatype Step = Prepared | Armed | EventConsumed | Completed | Inconclusive | OtherStep

  datatype Verdict = Pass | Fail | Undecided | OtherVerdict

  /** The policy of an entry; anything that is neither absent nor well formed is malformed. */
  datatype Policy = Legacy | Site(sha: nat) | Malformed

  datatype Mark = Mark(state: Step, at: Option<int>)

  /** `id` is unset when it is not a well-formed identifier, `acceptance` when there is no
      evidence object. */
  datatype Entry = Entry(id: Option<nat>, state: Step, verdict: Verdict, policy: Policy, transitions: seq<Step>,
    history: seq<Mark>, acceptance: Option<Verdict>)

  datatype Error = LedgerShape | LedgerIdentity | LedgerPolicy | LedgerHistory | LedgerEvidence
    | LedgerInconclusive | LedgerAttempt | AbandonedAttemptUnproven | AbandonedLedgerShape

  const MAX_ENTRIES := 1000

  predicate HistoryMatches(history: seq<Mark>, transitions: seq<Step>) {
    |history| == |transitions| && forall i :: 0 <= i < |history| ==> history[i].state == transitions[i] && history[i].at.Some?
  }

  predicate Counts(e: Entry) { e.state == Completed && e.verdict == Pass }

  /** What is wrong with one entry by itself, in the order of the checks. */
  function Complaint(e: Entry, seen: set<nat>): Option<Error> {
    if e.id.None? || e.id.value in seen || (e.state != Completed && e.state != Inconclusive) || e.verdict.OtherVerdict? then Some(LedgerIdentity)
    else if e.policy.Malformed? then Some(LedgerPolicy)
    else if e.transitions == [] || e.transitions[0] != Prepared || e.transitions[|e.transitions| - 1] != e.state ||
      !HistoryMatches(e.history, e.transitions)
    then Some(LedgerHistory)
    else if e.state == Completed && (e.transitions != [Prepared, Armed, EventConsumed, Completed] || e.acceptance != Some(e.verdict)) then Some(LedgerEvidence)
    else if e.state == Inconclusive && e.verdict != Undecided then Some(LedgerInconclusive)
    else None
  }

  function Ids(entries: seq<Entry>): set<nat> { set e | e in entries && e.id.Some? :: e.id.value }

  /** The first complaint about a list of entries. */
  function Scan(entries: seq<Entry>): Option<Error> {
    if entries == [] then None else
      var init, e := entries[..|entries| - 1], entries[|entries| - 1];
      if Scan(init).Some? then Scan(init) else Complaint(e, Ids(init))
  }

  /** The running count, as the loop computes it. */
  function Running(entries: seq<Entry>): nat {
    if entries == [] then 0 else
      var init, e := entries[..|entries| - 1], entries[|entries| - 1];
      var kept := if init == [] || init[|init| - 1].policy != e.policy then 0 else Running(init);
      if e.verdict == Fail then 0 else if Counts(e) then kept + 1 else kept
  }

  function Judged(entries: seq<Entry>, attempt: nat): Result<(Verdict, nat), Error> {
    if entries == [] || |entries| > MAX_ENTRIES then Err(LedgerShape)
    else if Scan(entries).Some? then Err(Scan(entries).value)
    else if entries[|entries| - 1].id != Some(attempt) then Err(LedgerAttempt)
    else Ok((entries[|entries| - 1].verdict, Running(entries)))
  }

  /** ledger_verdict. */
  method LedgerVerdict(entries: seq<Entry>, attempt: nat) returns (r: Result<(Verdict, nat), Error>)
    ensures r == Judged(entries, attempt)
  {
    hide Complaint, Scan, Running, Ids;
    if entries == [] || |entries| > MAX_ENTRIES { return Err(LedgerShape); }
    var seen: set<nat>, count, previous: Option<Policy> := {}, 0, None;
    ScanNext(entries, 0);
    for i := 0 to |entries|
      invariant Scan(entries[..i]) == None && seen == Ids(entries[..i]) && count == Running(entries[..i])
      invariant previous == if i == 0 then None else Some(entries[i - 1].policy)
    {
      var e := entries[i];
      ScanNext(entries, i);
      if Complaint(e, seen).Some? {
        FirstComplaint(entries, i + 1);
        return Err(Complaint(e, seen).value);
      }
      Identified(e, seen);
      seen := seen + {e.id.value};
      if Some(e.policy) != previous { count := 0; }
      previous := Some(e.policy);
      if e.verdict == Fail { count := 0; } else if e.state == Completed && e.verdict == Pass { count := count + 1; }
    }
    assert entries[..|entries|] == entries;
    if entries[|entries| - 1].id != Some(attempt) { return Err(LedgerAttempt); }
    r := Ok((entries[|entries| - 1].verdict, count));
  }

  /** One entry more. */
  lemma ScanNext(entries: seq<Entry>, i: nat)
    requires i < |entries|
    ensures i == 0 ==> Scan(entries[..i]) == None && Ids(entries[..i]) == {} && Running(entries[..i]) == 0
    ensures Scan(entries[..i]) == None ==> Scan(entries[..i + 1]) == Complaint(entries[i], Ids(entries[..i]))
    ensures entries[i].id.Some? ==> Ids(entries[..i + 1]) == Ids(entries[..i]) + {entries[i].id.value}
    ensures var e, kept := entries[i], if i == 0 || entries[i - 1].policy != entries[i].policy then 0
      else Running(entries[..i]);
      Running(entries[..i + 1]) == if e.verdict == Fail then 0 else if Counts(e) then kept + 1 else kept
  {
    hide Complaint;
    assert entries[..i + 1][..i] == entries[..i] && entries[..i + 1] == entries[..i] + [entries[i]];
  }

  lemma Identified(e: Entry, seen: set<nat>)
    requires Complaint(e, seen).None?
    ensures e.id.Some?
  {
  }

  lemma {:induction false} FirstComplaint(entries: seq<Entry>, n: nat)
    requires n <= |entries| && Scan(entries[..n]).Some?
    ensures Scan(entries) == Scan(entries[..n])
    decreases |entries|
  {
    if n == |entries| {
      assert entries[..n] == entries;
    } else {
      assert entries[..|entries| - 1][..n] == entries[..n];
      FirstComplaint(entries[..|entries| - 1], n);
    }
  }

  // ----- what is accepted -----

  /** What every entry of an accepted ledger says: completed in exactly the four steps and with
      evidence of its own verdict, or broken off without a verdict. */
  predicate Sound(e: Entry) {
    && e.id.Some? && e.policy != Malformed
    && e.transitions != [] && e.transitions[0] == Prepared && e.transitions[|e.transitions| - 1] == e.state
    && |e.history| == |e.transitions| &&
      (forall i :: 0 <= i < |e.history| ==> e.history[i].state == e.transitions[i] && e.history[i].at.Some?)
    && match e.state
       case Completed => e.transitions == [Prepared, Armed, EventConsumed, Completed] && e.verdict in {Pass, Fail, Undecided} && e.acceptance == Some(e.verdict)
       case Inconclusive => e.verdict == Undecided
       case _ => false
  }

  /** A ledger is accepted exactly when it has up to a thousand sound entries with different
      identifiers, the last of them the attempt in question; the answer is its verdict. */
  lemma AcceptedIff(entries: seq<Entry>, attempt: nat)
    ensures Judged(entries, attempt).Ok? <==>
      && 0 < |entries| <= 1000 && entries[|entries| - 1].id == Some(attempt)
      && (forall i :: 0 <= i < |entries| ==> Sound(entries[i]))
      && forall i, j :: 0 <= i < j < |entries| ==> entries[i].id != entries[j].id
    ensures Judged(entries, attempt).Ok? ==> Judged(entries, attempt).value.0 == entries[|entries| - 1].verdict
  {
    hide Sound, Running;
    ScanIff(entries);
  }

  lemma SoundIff(e: Entry, seen: set<nat>)
    ensures Complaint(e, seen).None? <==> Sound(e) && e.id.value !in seen
  {
  }

  lemma {:induction false} ScanIff(entries: seq<Entry>)
    ensures Scan(entries).None? <==>
      (forall i :: 0 <= i < |entries| ==> Sound(entries[i])) && forall i, j :: 0 <= i < j < |entries| ==> entries[i].id != entries[j].id
  {
    if entries != [] {
      var n := |entries| - 1;
      var init, e := entries[..n], entries[n];
      ScanIff(init);
      SoundIff(e, Ids(init));
      hide Complaint, Sound;
      assert forall i :: 0 <= i < n ==> entries[i] == init[i];
      if Sound(e) && (forall i :: 0 <= i < n ==> Sound(entries[i])) {
        assert e.id.value in Ids(init) <==> exists i :: 0 <= i < n && entries[i].id == e.id by {
          SoundIds(init, e);
        }
      }
    }
  }

  lemma SoundIds(init: seq<Entry>, e: Entry)
    requires Sound(e)
    ensures e.id.value in Ids(init) <==> exists i :: 0 <= i < |init| && init[i].id == e.id
  {
    if i :| 0 <= i < |init| && init[i].id == e.id { assert init[i] in init; }
  }

  // ----- what the count means -----

  function Passes(entries: seq<Entry>): nat {
    if entries == [] then 0 else Passes(entries[..|entries| - 1]) + if Counts(entries[|entries| - 1]) then 1 else 0
  }

  /** Where the current streak starts: after the later of the last failure and the last change of
      policy. */
  ghost predicate Streak(entries: seq<Entry>, from: nat) {
    && entries != [] && from <= |entries|
    && (forall i :: from <= i < |entries| ==> entries[i].verdict != Fail && entries[i].policy == entries[|entries| - 1].policy)
    && (from > 0 ==> entries[from - 1].verdict == Fail || entries[from - 1].policy != entries[|entries| - 1].policy)
  }

  /** The count is the number of completed passes in the current streak. */
  lemma {:induction false} CountMeans(entries: seq<Entry>, from: nat)
    requires Streak(entries, from)
    ensures Running(entries) == Passes(entries[from..])
  {
    var n := |entries| - 1;
    var init := entries[..n];
    if from == |entries| {
      assert entries[from..] == [];
    } else {
      assert entries[from..][..n - from] == init[from..];
      if from < n {
        assert Streak(init, from) by { assert init[n - 1].policy == entries[n].policy; }
        CountMeans(init, from);
      } else if n > 0 && init[n - 1].policy == entries[n].policy {
        assert init[n - 1].verdict == Fail;
        assert Running(init) == 0;
      }
    }
  }

  lemma {:induction false} StreakExists(entries: seq<Entry>, from: nat) returns (start: nat)
    requires entries != [] && from <= |entries|
    requires forall i :: from <= i < |entries| ==>
      entries[i].verdict != Fail && entries[i].policy == entries[|entries| - 1].policy
    ensures Streak(entries, start)
  {
    if from == 0 || entries[from - 1].verdict == Fail || entries[from - 1].policy != entries[|entries| - 1].policy {
      start := from;
    } else {
      start := StreakExists(entries, from - 1);
    }
  }

  // ----- recovery after a reboot -----

  predicate OpenAttempt(e: Entry) {
    && e.transitions in [[Prepared], [Prepared, Armed], [Prepared, Armed, EventConsumed]]
    && e.state == e.transitions[|e.transitions| - 1] && HistoryMatches(e.history, e.transitions) &&
      e.verdict == Undecided
  }

  function Closed(e: Entry, at: int): Entry {
    e.(state := Inconclusive, transitions := e.transitions + [Inconclusive],
       history := e.history + [Mark(Inconclusive, Some(at))], verdict := Undecided, acceptance := Some(Undecided))
  }

  /** abandon_after_boot; boots are unset when empty. */
  function Abandon(entries: seq<Entry>, attempt: nat, oldBoot: Option<nat>, currentBoot: Option<nat>, at: int, actorsGone: bool): Result<seq<Entry>, Error> {
    if (oldBoot == currentBoot && !actorsGone) || oldBoot.None? || currentBoot.None? ||
      entries == [] || entries[|entries| - 1].id != Some(attempt)
    then Err(AbandonedAttemptUnproven)
    else
      var n := |entries| - 1;
      var last := entries[n];
      if n > 0 && JudgedAsItEnds(entries[..n]).Err? then Err(JudgedAsItEnds(entries[..n]).error)
      else if last.state == Completed || last.state == Inconclusive then
        if Judged(entries, attempt).Err? then Err(Judged(entries, attempt).error) else Ok(entries)
      else if !OpenAttempt(last) then Err(AbandonedLedgerShape)
      else
        var result := entries[..n] + [Closed(last, at)];
        if Judged(result, attempt).Err? then Err(Judged(result, attempt).error) else Ok(result)
  }

  /** The verdict on a list for its own last attempt. */
  function JudgedAsItEnds(entries: seq<Entry>): Result<(Verdict, nat), Error>
    requires entries != []
  {
    var last := entries[|entries| - 1];
    if last.id.Some? then Judged(entries, last.id.value) else Judged(entries, 0)
  }

  lemma ClosedComplaint(e: Entry, at: int, seen: set<nat>)
    requires OpenAttempt(e)
    ensures Complaint(Closed(e, at), seen) == if e.id.None? || e.id.value in seen then Some(LedgerIdentity)
      else if e.policy.Malformed? then Some(LedgerPolicy) else None
  {
  }

  /** An interrupted attempt can be closed exactly when the boot has changed or its actors are
      gone, everything before it is a valid ledger, it stopped at a whole step, and its own
      identity and policy are sound. */
  lemma AbandonIff(entries: seq<Entry>, attempt: nat, oldBoot: Option<nat>, currentBoot: Option<nat>, at: int, actorsGone: bool)
    requires entries != [] && entries[|entries| - 1].state != Completed &&
      entries[|entries| - 1].state != Inconclusive
    ensures var n, last := |entries| - 1, entries[|entries| - 1];
      Abandon(entries, attempt, oldBoot, currentBoot, at, actorsGone).Ok? <==>
        && (oldBoot != currentBoot || actorsGone) && oldBoot.Some? && currentBoot.Some? &&
          last.id == Some(attempt)
        && Scan(entries[..n]) == None && |entries| <= MAX_ENTRIES
        && OpenAttempt(last) && attempt !in Ids(entries[..n]) && !last.policy.Malformed?
  {
    var n, last := |entries| - 1, entries[|entries| - 1];
    if OpenAttempt(last) {
      ClosedComplaint(last, at, Ids(entries[..n]));
      var result := entries[..n] + [Closed(last, at)];
      assert result[..n] == entries[..n];
      Accounted(entries[..n]);
    }
  }

  lemma {:induction false} Accounted(entries: seq<Entry>)
    ensures Scan(entries) == None ==> forall e :: e in entries ==> e.id.Some?
  {
    if entries != [] {
      Accounted(entries[..|entries| - 1]);
      assert entries == entries[..|entries| - 1] + [entries[|entries| - 1]];
    }
  }

  /** Recovery leaves a valid ledger with every earlier entry unchanged, never counts the
      interrupted attempt, and keeps the count of the entries before it under the same policy. */
  lemma AbandonKeeps(entries: seq<Entry>, attempt: nat, oldBoot: Option<nat>, currentBoot: Option<nat>, at: int,
    actorsGone: bool, result: seq<Entry>)
    requires Abandon(entries, attempt, oldBoot, currentBoot, at, actorsGone) == Ok(result)
    ensures Judged(result, attempt).Ok? && |result| == |entries| &&
      result[..|entries| - 1] == entries[..|entries| - 1]
    ensures entries[|entries| - 1].state == Completed || entries[|entries| - 1].state == Inconclusive ==>
      result == entries
    ensures entries[|entries| - 1].state != Completed && entries[|entries| - 1].state != Inconclusive ==>
      var before := entries[..|entries| - 1];
      Judged(result, attempt) == Ok((Undecided, if before != [] && before[|before| - 1].policy == entries[|entries| - 1].policy then Running(before) else 0))
  {
  }

  /** Recovering again changes nothing. */
  lemma AbandonTwice(entries: seq<Entry>, attempt: nat, oldBoot: Option<nat>, currentBoot: Option<nat>, at: int,
    actorsGone: bool, result: seq<Entry>, later: int)
    requires Abandon(entries, attempt, oldBoot, currentBoot, at, actorsGone) == Ok(result)
    ensures Abandon(result, attempt, oldBoot, currentBoot, later, actorsGone) == Ok(result)
  {
  }
}
