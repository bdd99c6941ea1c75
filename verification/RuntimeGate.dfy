/** Services behind the shared runtime lock and promoters behind the exclusive one
    (ops/c2/promotion-runtime-gate.py and promotion_locks of ops/c2/publisher-promotion.py). */
module RuntimeGate {
  import opened Outcomes
  import opened PromotionWorld
  import opened Promotion

  /** Where a service process stands: before its lock, between lock and interlock check,
      or past the gate. */
  datatype Service = Waiting | Locked | Running

  /** The runtime lock is `shared` by services or held `exclusive`ly by one promoter.
      `whole` is every release ever completely installed or proposed. */
  datatype State = State(world: World, whole: set<Release>, services: map<nat, Service>, shared: set<nat>, exclusive: Option<nat>)

  datatype Event =
    | Arrive(s: nat)            // a unit starts and opens the lock file
    | TakeShared(s: nat)        // LOCK_SH granted
    | Busy(s: nat)              // deadline passed: promotion_busy
    | Enter(s: nat)             // no interlock: exec the service
    | Refuse(s: nat)            // interlock found: promotion_reconciliation_required
    | Serve(s: nat, ledger: nat) // a running service works
    | Leave(s: nat)             // a process ends, normally or not, and its lock drops
    | TakeExclusive(p: nat)     // LOCK_EX granted to a promoter
    | Propose(r: Release)       // a candidate has been verified
    | Write(p: nat, next: World) // one durable write of the promoter
    | Drop(p: nat)              // the promoter ends or crashes at any point; the disk stays

  predicate Step(a: State, e: Event, b: State) {
    match e
    case Arrive(s) => s !in a.services && b == a.(services := a.services[s := Waiting])
    case TakeShared(s) =>
      && s in a.services && a.services[s] == Waiting && a.exclusive.None?
      && b == a.(services := a.services[s := Locked], shared := a.shared + {s})
    case Busy(s) => s in a.services && a.services[s] == Waiting && b == a.(services := a.services - {s})
    case Enter(s) =>
      && s in a.services && a.services[s] == Locked && a.world.interlock.None?
      && b == a.(services := a.services[s := Running])
    case Refuse(s) =>
      && s in a.services && a.services[s] == Locked && a.world.interlock.Some?
      && b == a.(services := a.services - {s}, shared := a.shared - {s})
    case Serve(s, ledger) =>
      && s in a.services && a.services[s] == Running
      && b == a.(world := a.world.(ledger := ledger))
    case Leave(s) => s in a.services && b == a.(services := a.services - {s}, shared := a.shared - {s})
    case TakeExclusive(p) => a.exclusive.None? && a.shared == {} && b == a.(exclusive := Some(p))
    case Propose(r) => WellFormed(r) && CodecApproved(r) && b == a.(whole := a.whole + {r})
    case Write(p, next) => a.exclusive == Some(p) && Guarded(a.world, next, a.whole) && b == a.(world := next)
    case Drop(p) => a.exclusive == Some(p) && b == a.(exclusive := None)
  }

  /** Any interleaving of any number of services and promoters. */
  predicate Run(states: seq<State>, events: seq<Event>) {
    && |states| == |events| + 1
    && forall i :: 0 <= i < |events| ==> Step(states[i], events[i], states[i + 1])
  }

  predicate Start(a: State) {
    a.services == map[] && a.shared == {} && a.exclusive.None? && a.world.interlock.None? && a.world.live in a.whole
  }

  /** Exactly the services between their lock and their end share the lock, never beside an
      exclusive holder; without an interlock the disk is whole; past the gate there is none. */
  ghost predicate Safe(a: State) {
    && (forall s :: s in a.shared <==> s in a.services && a.services[s] != Waiting)
    && (a.exclusive.Some? ==> a.shared == {})
    && (a.world.interlock.None? ==> a.world.live in a.whole)
    && (forall s :: s in a.services && a.services[s] == Running ==> a.world.interlock.None?)
  }

  lemma StepKeepsSafe(a: State, e: Event, b: State)
    requires Safe(a) && Step(a, e, b)
    ensures Safe(b)
  {
  }

  lemma {:induction false} AlwaysSafe(states: seq<State>, events: seq<Event>, i: nat)
    requires Run(states, events) && Start(states[0]) && i < |states|
    ensures Safe(states[i])
  {
    if i > 0 {
      AlwaysSafe(states, events, i - 1);
      StepKeepsSafe(states[i - 1], events[i - 1], states[i]);
    }
  }

  lemma RunningFreezesRelease(a: State, e: Event, b: State, s: nat)
    requires Safe(a) && Step(a, e, b) && s in a.services && a.services[s] == Running
    ensures b.world.live == a.world.live
  {
  }

  /** From the moment a service passes the gate until it ends, it sees one complete release,
      the same one throughout, whatever services and promoters do or crash meanwhile. */
  lemma {:induction false} ServiceSeesOneRelease(states: seq<State>, events: seq<Event>, s: nat, i: nat, j: nat)
    requires Run(states, events) && Start(states[0]) && i <= j < |states|
    requires forall k :: i <= k <= j ==> s in states[k].services && states[k].services[s] == Running
    ensures states[j].world.live == states[i].world.live && states[i].world.live in states[i].whole
    ensures states[j].world.interlock.None?
  {
    AlwaysSafe(states, events, j);
    AlwaysSafe(states, events, i);
    if i < j {
      ServiceSeesOneRelease(states, events, s, i, j - 1);
      AlwaysSafe(states, events, j - 1);
      RunningFreezesRelease(states[j - 1], events[j - 1], states[j], s);
    }
  }

  /** The events that replay a promoter's write history while it holds the lock. */
  function Replay(log: seq<World>, p: nat): (events: seq<Event>)
    requires |log| > 0
    ensures |events| == |log| - 1
  {
    seq(|log| - 1, i requires 0 <= i < |log| - 1 => Write(p, log[i + 1]))
  }

  function Snapshots(a: State, log: seq<World>): (states: seq<State>)
    ensures |states| == |log|
  {
    seq(|log|, i requires 0 <= i < |log| => a.(world := log[i]))
  }

  /** Every durable history a promoter can produce is a legal stretch of this protocol: the
      log of a Transaction, which obeys the write rule, replays step by step. */
  lemma PromoterHistoryIsLegal(a: State, log: seq<World>, p: nat)
    requires |log| > 0 && a.world == log[0] && a.exclusive == Some(p)
    requires forall i :: 0 <= i < |log| - 1 ==> Guarded(log[i], log[i + 1], a.whole)
    ensures Run(Snapshots(a, log), Replay(log, p))
  {
  }
}
