/** The per-client rate limiter, which forgets idle clients, beside one that never forgets
    (backend-go/internal/middleware/ratelimit.go). Times are seconds. */
module RateLimit {
  import opened Counting
  import opened Outcomes

  type Ip = nat
  type Time = real

  const MAX_RATE_CLIENTS := 8192
  const RATE_IDLE_TTL := 600.0
  const RATE_SWEEP_INTERVAL := 60.0

  datatype Config = Config(rps: real, burst: nat)

  /** A token bucket: `tokens` were left at `last`. */
  datatype Bucket = Bucket(tokens: real, last: Time)

  function Min(a: real, b: real): real { if a <= b then a else b }

  /** The standard token bucket: it fills at `rps` up to `burst`, and an event takes one token. */
  function Level(c: Config, b: Bucket, now: Time): real {
    Min(c.burst as real, b.tokens + c.rps * (if now < b.last then 0.0 else now - b.last))
  }

  function Full(c: Config, now: Time): Bucket { Bucket(c.burst as real, now) }

  predicate Admits(c: Config, b: Bucket, now: Time) { Level(c, b, now) >= 1.0 }

  function Take(c: Config, b: Bucket, now: Time): Bucket {
    if Admits(c, b, now) then Bucket(Level(c, b, now) - 1.0, now) else b
  }

  datatype Client = Client(bucket: Bucket, lastSeen: Time)

  /** `lastSweep` is unset until the first call. */
  datatype State = State(clients: map<Ip, Client>, lastSweep: Option<Time>)

  datatype Answer = AtCapacity | Allowed | Denied

  function Verdict(ok: bool): Answer { if ok then Allowed else Denied }

  predicate SweepDue(s: State, now: Time) { s.lastSweep.None? || now - s.lastSweep.value >= RATE_SWEEP_INTERVAL }

  function Swept(s: State, now: Time): State {
    if SweepDue(s, now) then State(map ip | ip in s.clients && now - s.clients[ip].lastSeen < RATE_IDLE_TTL :: s.clients[ip], Some(now)) else s
  }

  /** One call, as a function of the state. */
  function Next(c: Config, s: State, ip: Ip, now: Time): (State, Answer) {
    var swept := Swept(s, now);
    if ip !in swept.clients && |swept.clients| >= MAX_RATE_CLIENTS then (swept, AtCapacity) else
      var b := if ip in swept.clients then swept.clients[ip].bucket else Full(c, now);
      (swept.(clients := swept.clients[ip := Client(Take(c, b, now), now)]), Verdict(Admits(c, b, now)))
  }

  class Limiter {
    const config: Config
    var clients: map<Ip, Client>
    var lastSweep: Option<Time>

    constructor (rps: real, burst: nat)
      ensures config == Config(rps, burst) && Now() == State(map[], None)
    {
      config, clients, lastSweep := Config(rps, burst), map[], None;
    }

    function Now(): State
      reads this
    {
      State(clients, lastSweep)
    }

    method Allow(ip: Ip, now: Time) returns (ok: bool)
      modifies this`clients, this`lastSweep
      ensures Now() == Next(config, old(Now()), ip, now).0
      ensures ok == Next(config, old(Now()), ip, now).1.Allowed?
    {
      if lastSweep.None? || now - lastSweep.value >= RATE_SWEEP_INTERVAL {
        Sweep(now);
        lastSweep := Some(now);
      }
      assert Now() == Swept(old(Now()), now);
      if ip !in clients {
        if |clients| >= MAX_RATE_CLIENTS { return false; }
        clients := clients[ip := Client(Full(config, now), now)];
      }
      var c := clients[ip];
      ok := Admits(config, c.bucket, now);
      clients := clients[ip := Client(Take(config, c.bucket, now), now)];
    }

    /** Deletes every client that has been idle for the TTL. */
    method Sweep(now: Time)
      modifies this`clients
      ensures clients == map ip | ip in old(clients) && now - old(clients)[ip].lastSeen < RATE_IDLE_TTL ::
        old(clients)[ip]
    {
      var left := clients.Keys;
      while left != {}
        invariant left <= clients.Keys <= old(clients).Keys
        invariant forall ip :: ip in old(clients) && ip !in left ==>
          (ip in clients <==> now - old(clients)[ip].lastSeen < RATE_IDLE_TTL)
        invariant forall ip :: ip in clients ==> clients[ip] == old(clients)[ip]
      {
        var ip :| ip in left;
        if now - clients[ip].lastSeen >= RATE_IDLE_TTL { clients := clients - {ip}; }
        left := left - {ip};
      }
    }
  }

  // ----- the limiter that never forgets -----

  type Memory = map<Ip, Bucket>

  function Recall(c: Config, m: Memory, ip: Ip, now: Time): Bucket { if ip in m then m[ip] else Full(c, now) }

  datatype Call = Call(ip: Ip, now: Time)

  /** The states and answers of both limiters along a run; the second one is not shown the calls
      that the first refuses for capacity. */
  datatype Run = Run(state: State, memory: Memory, answers: seq<Answer>, reference: seq<Answer>)

  function Extend(c: Config, r: Run, k: Call): Run {
    var (state, answer) := Next(c, r.state, k.ip, k.now);
    if answer.AtCapacity? then Run(state, r.memory, r.answers + [answer], r.reference + [answer]) else
      var b := Recall(c, r.memory, k.ip, k.now);
      Run(state, r.memory[k.ip := Take(c, b, k.now)], r.answers + [answer], r.reference + [Verdict(Admits(c, b, k.now))])
  }

  function Both(c: Config, calls: seq<Call>): Run {
    if calls == [] then Run(State(map[], None), map[], [], []) else Extend(c, Both(c, calls[..|calls| - 1]), calls[|calls| - 1])
  }

  ghost predicate Forward(calls: seq<Call>) { forall i, j :: 0 <= i < j < |calls| ==> calls[i].now <= calls[j].now }

  /** From `now` on the two buckets cannot be told apart. */
  ghost predicate Alike(c: Config, a: Bucket, b: Bucket, now: Time) {
    forall t :: t >= now ==> Level(c, a, t) == Level(c, b, t)
  }

  /** Tokens are within bounds, and a bucket was last drawn on no later than its client was seen. */
  ghost predicate Sane(c: Config, s: State, m: Memory, now: Time) {
    && (forall ip :: ip in s.clients ==>
      ip in m && s.clients[ip].lastSeen <= now && m[ip].last <= s.clients[ip].lastSeen &&
      s.clients[ip].bucket.last <= s.clients[ip].lastSeen)
    && (forall ip :: ip in m ==> 0.0 <= m[ip].tokens <= c.burst as real && m[ip].last <= now)
  }

  /** Clients still known have equivalent buckets; forgotten ones would be full again. */
  ghost predicate Refines(c: Config, s: State, m: Memory, now: Time) {
    && Sane(c, s, m, now)
    && (forall ip :: ip in s.clients ==> Alike(c, s.clients[ip].bucket, m[ip], now))
    && (forall ip :: ip in m && ip !in s.clients ==> Alike(c, m[ip], Full(c, now), now))
    && |s.clients| <= MAX_RATE_CLIENTS
  }

  lemma Alikes(c: Config, a: Bucket, b: Bucket, now: Time, later: Time)
    requires now <= later && Alike(c, a, b, now)
    ensures Alike(c, a, b, later) && (Admits(c, a, later) <==> Admits(c, b, later))
    ensures Alike(c, Take(c, a, later), Take(c, b, later), later)
  {
  }

  lemma StillFull(c: Config, b: Bucket, now: Time, later: Time)
    requires now <= later && Alike(c, b, Full(c, now), now) && c.rps >= 0.0
    ensures Alike(c, b, Full(c, later), later)
  {
  }

  lemma Rises(c: Config, d: real)
    requires c.rps >= 0.0 && d >= 0.0
    ensures c.rps * d >= 0.0
  {
  }

  /** A bucket nobody drew on for the TTL is full again, if the burst fits into it. */
  lemma Refilled(c: Config, b: Bucket, now: Time)
    requires c.rps >= 0.0 && c.burst as real <= c.rps * RATE_IDLE_TTL && b.tokens >= 0.0 &&
      now - b.last >= RATE_IDLE_TTL
    ensures Alike(c, b, Full(c, now), now)
  {
    forall t | t >= now ensures Level(c, b, t) == Level(c, Full(c, now), t) {
      Rises(c, t - now);
      Rises(c, t - b.last - RATE_IDLE_TTL);
      assert c.rps * (t - b.last) == c.rps * RATE_IDLE_TTL + c.rps * (t - b.last - RATE_IDLE_TTL);
    }
  }

  /** The sweep forgets only clients that would be full again. */
  lemma SweepRefines(c: Config, s: State, m: Memory, before: Time, now: Time)
    requires c.rps >= 0.0 && c.burst as real <= c.rps * RATE_IDLE_TTL && before <= now &&
      Refines(c, s, m, before)
    ensures Refines(c, Swept(s, now), m, now)
  {
    var t := Swept(s, now);
    forall ip | ip in t.clients ensures Alike(c, t.clients[ip].bucket, m[ip], now) {
      Alikes(c, s.clients[ip].bucket, m[ip], before, now);
    }
    forall ip | ip in m && ip !in t.clients ensures Alike(c, m[ip], Full(c, now), now) {
      if ip in s.clients {
        Refilled(c, m[ip], now);
      } else {
        StillFull(c, m[ip], before, now);
      }
    }
    SubsetSize(t.clients.Keys, s.clients.Keys);
    assert |t.clients| == |t.clients.Keys| && |s.clients| == |s.clients.Keys|;
  }

  /** One call keeps the two limiters in step and gets the same answer from both, unless it is
      refused for capacity. */
  lemma CallRefines(c: Config, s: State, m: Memory, before: Time, k: Call)
    requires c.rps >= 0.0 && c.burst as real <= c.rps * RATE_IDLE_TTL && before <= k.now &&
      Refines(c, s, m, before)
    ensures var (t, answer) := Next(c, s, k.ip, k.now);
      var b := Recall(c, m, k.ip, k.now);
      if answer.AtCapacity? then Refines(c, t, m, k.now)
      else answer == Verdict(Admits(c, b, k.now)) && Refines(c, t, m[k.ip := Take(c, b, k.now)], k.now)
  {
    SweepRefines(c, s, m, before, k.now);
    hide Alike, Take, Admits, Swept, Refines;
    var swept := Swept(s, k.now);
    if k.ip in swept.clients || |swept.clients| < MAX_RATE_CLIENTS { AnswerRefines(c, swept, m, k.ip, k.now); }
  }

  lemma AnswerRefines(c: Config, s: State, m: Memory, ip: Ip, now: Time)
    requires c.rps >= 0.0 && Refines(c, s, m, now) && (ip in s.clients || |s.clients| < MAX_RATE_CLIENTS)
    ensures var a, b := if ip in s.clients then s.clients[ip].bucket else Full(c, now), Recall(c, m, ip, now);
      && (Admits(c, a, now) <==> Admits(c, b, now))
      && Refines(c, s.(clients := s.clients[ip := Client(Take(c, a, now), now)]), m[ip := Take(c, b, now)], now)
  {
    hide Alike, Take, Admits;
    var a, b := if ip in s.clients then s.clients[ip].bucket else Full(c, now), Recall(c, m, ip, now);
    AlikeItself(c, b, now);
    AlikeBack(c, b, a, now);
    Alikes(c, a, b, now, now);
    Bounded(c, b, now);
    TakeLast(c, a, now);
  }

  lemma AlikeItself(c: Config, b: Bucket, now: Time)
    ensures Alike(c, b, b, now)
  {
  }

  lemma AlikeBack(c: Config, a: Bucket, b: Bucket, now: Time)
    ensures Alike(c, a, b, now) ==> Alike(c, b, a, now)
  {
  }

  lemma TakeLast(c: Config, b: Bucket, now: Time)
    requires b.last <= now
    ensures Take(c, b, now).last <= now
  {
  }

  lemma Bounded(c: Config, b: Bucket, now: Time)
    requires c.rps >= 0.0 && 0.0 <= b.tokens <= c.burst as real && b.last <= now
    ensures 0.0 <= Take(c, b, now).tokens <= c.burst as real && Take(c, b, now).last <= now
  {
  }

  /** The run so far, and the time of its last call. */
  lemma {:induction false} RunRefines(c: Config, calls: seq<Call>)
    requires c.rps >= 0.0 && c.burst as real <= c.rps * RATE_IDLE_TTL && Forward(calls)
    ensures Both(c, calls).answers == Both(c, calls).reference && |Both(c, calls).answers| == |calls|
    ensures |Both(c, calls).state.clients| <= MAX_RATE_CLIENTS
    ensures calls != [] ==> Refines(c, Both(c, calls).state, Both(c, calls).memory, calls[|calls| - 1].now)
  {
    if calls != [] {
      var init, k := calls[..|calls| - 1], calls[|calls| - 1];
      RunRefines(c, init);
      var r := Both(c, init);
      var before := if init == [] then k.now else init[|init| - 1].now;
      assert Refines(c, r.state, r.memory, before);
      CallRefines(c, r.state, r.memory, before, k);
    }
  }

  /** A client seen within the last ten minutes is never forgotten. */
  lemma RecentStay(c: Config, s: State, k: Call, ip: Ip)
    requires ip in s.clients && k.now - s.clients[ip].lastSeen < RATE_IDLE_TTL
    ensures ip in Next(c, s, k.ip, k.now).0.clients
  {
  }

  /** Every client known after a call was seen in the last eleven minutes. */
  ghost predicate Fresh(s: State, now: Time) {
    && (s.lastSweep.Some? ==> s.lastSweep.value <= now < s.lastSweep.value + RATE_SWEEP_INTERVAL)
    && (s.lastSweep.None? ==> s.clients == map[])
    && forall ip :: ip in s.clients ==>
      s.clients[ip].lastSeen <= now && s.lastSweep.value - s.clients[ip].lastSeen < RATE_IDLE_TTL
  }

  /** Call `i` of a run came from `ip` at `t` and was answered. */
  ghost predicate AnsweredAt(c: Config, calls: seq<Call>, ip: Ip, t: Time) {
    exists i :: 0 <= i < |calls| && i < |Both(c, calls).answers| && calls[i] == Call(ip, t) && !Both(c, calls).answers[i].AtCapacity?
  }

  lemma AnsweredStays(c: Config, calls: seq<Call>, ip: Ip, t: Time)
    requires calls != [] && |Both(c, calls[..|calls| - 1]).answers| == |calls| - 1 &&
      AnsweredAt(c, calls[..|calls| - 1], ip, t)
    ensures AnsweredAt(c, calls, ip, t)
  {
    hide Next, Take, Admits;
    var init := calls[..|calls| - 1];
    var i :| 0 <= i < |init| && init[i] == Call(ip, t) && !Both(c, init).answers[i].AtCapacity?;
    assert calls[i] == Call(ip, t) && Both(c, calls).answers[i] == Both(c, init).answers[i];
  }

  lemma FreshNext(c: Config, s: State, before: Time, k: Call)
    requires Fresh(s, before) && before <= k.now
    ensures Fresh(Next(c, s, k.ip, k.now).0, k.now)
  {
    hide Take, Admits;
  }

  lemma {:induction false} KnownWereAnswered(c: Config, calls: seq<Call>)
    requires Forward(calls)
    ensures |Both(c, calls).answers| == |calls| &&
      (calls != [] ==> Fresh(Both(c, calls).state, calls[|calls| - 1].now))
    ensures forall ip :: ip in Both(c, calls).state.clients ==>
      AnsweredAt(c, calls, ip, Both(c, calls).state.clients[ip].lastSeen)
  {
    hide Take, Admits, Fresh, AnsweredAt;
    if calls != [] {
      var n := |calls| - 1;
      var init, k := calls[..n], calls[n];
      KnownWereAnswered(c, init);
      var s, t := Both(c, init).state, Both(c, calls).state;
      var before := if n == 0 then k.now else calls[n - 1].now;
      assert Fresh(s, before) by { if n == 0 { NothingKnown(before); } }
      FreshNext(c, s, before, k);
      forall ip | ip in t.clients ensures AnsweredAt(c, calls, ip, t.clients[ip].lastSeen) {
        if ip == k.ip && Both(c, calls).answers[n] != AtCapacity {
          LastAnswered(c, calls);
        } else {
          assert ip in s.clients && t.clients[ip] == s.clients[ip];
          AnsweredStays(c, calls, ip, t.clients[ip].lastSeen);
        }
      }
    }
  }

  lemma NothingKnown(now: Time)
    ensures Fresh(State(map[], None), now)
  {
  }

  lemma LastAnswered(c: Config, calls: seq<Call>)
    requires calls != [] && |Both(c, calls).answers| == |calls| &&
      !Both(c, calls).answers[|calls| - 1].AtCapacity?
    ensures AnsweredAt(c, calls, calls[|calls| - 1].ip, calls[|calls| - 1].now)
  {
  }

  ghost predicate AnsweredLately(c: Config, calls: seq<Call>, ip: Ip, now: Time) {
    exists t :: AnsweredAt(c, calls, ip, t) && now - t < RATE_IDLE_TTL + RATE_SWEEP_INTERVAL
  }

  /** A run refuses a call for capacity only if 8192 other clients were answered in the eleven
      minutes before it. */
  lemma RefusedWhenCrowded(c: Config, calls: seq<Call>) returns (others: set<Ip>)
    requires Forward(calls) && calls != [] && |Both(c, calls).answers| == |calls| &&
      Both(c, calls).answers[|calls| - 1].AtCapacity?
    ensures |others| >= MAX_RATE_CLIENTS && calls[|calls| - 1].ip !in others
    ensures forall ip :: ip in others ==> AnsweredLately(c, calls, ip, calls[|calls| - 1].now)
  {
    hide Take, Admits, AnsweredAt;
    KnownWereAnswered(c, calls);
    others := Both(c, calls).state.clients.Keys;
    assert |others| == |Both(c, calls).state.clients|;
    forall ip | ip in others ensures AnsweredLately(c, calls, ip, calls[|calls| - 1].now) {
      assert AnsweredAt(c, calls, ip, Both(c, calls).state.clients[ip].lastSeen);
    }
  }

  // ----- what a client gets -----

  /** The calls of `ip` from index `lo` on that were allowed. */
  function Granted(calls: seq<Call>, answers: seq<Answer>, ip: Ip, lo: nat): nat
    requires |answers| == |calls|
  {
    if |calls| <= lo then 0 else
      var n := |calls| - 1;
      Granted(calls[..n], answers[..n], ip, lo) + if calls[n].ip == ip && answers[n].Allowed? then 1 else 0
  }

  /** One more call of `ip` at `t` keeps every window within the burst and what the window refills. */
  ghost predicate Room(c: Config, calls: seq<Call>, answers: seq<Answer>, ip: Ip, t: Time)
    requires |answers| == |calls|
  {
    c.burst >= 1 && forall i :: 0 <= i < |calls| ==> Within(c, calls, answers, ip, t, i)
  }

  ghost predicate Within(c: Config, calls: seq<Call>, answers: seq<Answer>, ip: Ip, t: Time, i: nat)
    requires |answers| == |calls| && i < |calls|
  {
    (Granted(calls, answers, ip, i) + 1) as real <= Ceiling(c, calls, i, t)
  }

  function Ceiling(c: Config, calls: seq<Call>, i: nat, t: Time): real
    requires i < |calls|
  {
    c.burst as real + Gain(c, calls[i].now, t)
  }

  /** What refills between two times. */
  function Gain(c: Config, s: Time, t: Time): real { c.rps * (t - s) }

  /** The level of a bucket is the tightest of all the windows. */
  ghost predicate Tightest(c: Config, calls: seq<Call>, answers: seq<Answer>, ip: Ip, t: Time, level: real)
    requires |answers| == |calls|
  {
    && level <= c.burst as real
    && (forall i :: 0 <= i < |calls| ==> level <= Ceiling(c, calls, i, t) - Granted(calls, answers, ip, i) as real)
    && (level == c.burst as real || exists i ::
      0 <= i < |calls| && level == Ceiling(c, calls, i, t) - Granted(calls, answers, ip, i) as real)
  }

  lemma ReferenceGrows(c: Config, calls: seq<Call>)
    requires calls != []
    ensures |Both(c, calls).reference| == |Both(c, calls[..|calls| - 1]).reference| + 1
    ensures Both(c, calls).reference[..|Both(c, calls).reference| - 1] == Both(c, calls[..|calls| - 1]).reference
  {
    hide Next, Take, Admits;
  }

  lemma {:induction false} ReferenceLength(c: Config, calls: seq<Call>)
    ensures |Both(c, calls).reference| == |Both(c, calls).answers| == |calls|
  {
    hide Next, Take, Admits;
    if calls != [] { ReferenceLength(c, calls[..|calls| - 1]); }
  }

  lemma {:induction false} LevelIsTightest(c: Config, calls: seq<Call>, ip: Ip, t: Time)
    requires c.rps >= 0.0 && Forward(calls) && forall k :: k in calls ==> k.now <= t
    ensures |Both(c, calls).reference| == |calls|
    ensures var b := Recall(c, Both(c, calls).memory, ip, t);
      b.last <= t && Tightest(c, calls, Both(c, calls).reference, ip, t, Level(c, b, t))
  {
    hide Tightest, Level, Next, Both, Recall, Gain;
    ReferenceLength(c, calls);
    if calls == [] {
      NothingDrawn(c, ip, t);
      FullIsTightest(c, ip, t);
    } else {
      var n := |calls| - 1;
      var init, k := calls[..n], calls[n];
      ReferenceGrows(c, calls);
      LevelIsTightest(c, init, ip, if Grants(c, calls, ip) then k.now else t);
      var s := if Grants(c, calls, ip) then k.now else t;
      var was, now := Recall(c, Both(c, init).memory, ip, s), Recall(c, Both(c, calls).memory, ip, t);
      BucketNext(c, calls, ip, t);
      WindowsNext(c, calls, Both(c, calls).reference, ip, s, t, Level(c, was, s), Level(c, now, t));
    }
  }

  /** The last call of the run is one of `ip` that is allowed. */
  predicate Grants(c: Config, calls: seq<Call>, ip: Ip)
    requires calls != []
  {
    var r := Both(c, calls).reference;
    calls[|calls| - 1].ip == ip && r != [] && r[|r| - 1].Allowed?
  }

  lemma NothingDrawn(c: Config, ip: Ip, t: Time)
    ensures Both(c, []).reference == [] && Recall(c, Both(c, []).memory, ip, t) == Full(c, t)
  {
  }

  lemma FullIsTightest(c: Config, ip: Ip, t: Time)
    ensures Tightest(c, [], [], ip, t, Level(c, Full(c, t), t))
  {
  }

  /** The bucket after a call: drawn on if the call was granted, and as full as before otherwise. */
  lemma BucketNext(c: Config, calls: seq<Call>, ip: Ip, t: Time)
    requires c.rps >= 0.0 && calls != [] && calls[|calls| - 1].now <= t
    requires |Both(c, calls).reference| == |calls|
    requires var s := if Grants(c, calls, ip) then calls[|calls| - 1].now else t;
      Recall(c, Both(c, calls[..|calls| - 1]).memory, ip, s).last <= s
    ensures Recall(c, Both(c, calls).memory, ip, t).last <= t
    ensures var k, init := calls[|calls| - 1], calls[..|calls| - 1];
      var s := if Grants(c, calls, ip) then k.now else t;
      var was, now := Level(c, Recall(c, Both(c, init).memory, ip, s), s), Level(c, Recall(c, Both(c, calls).memory, ip, t), t);
      now == if Grants(c, calls, ip) then Min(c.burst as real, was - 1.0 + Gain(c, k.now, t)) else was
  {
    hide Next;
    Rises(c, t - calls[|calls| - 1].now);
  }

  /** The last call of `calls` is drawn, or not, on a bucket whose level was the tightest window. */
  ghost predicate Drawn(c: Config, calls: seq<Call>, answers: seq<Answer>, ip: Ip, s: Time, t: Time, was: real, level: real)
    requires |answers| == |calls|
  {
    && calls != [] && c.rps >= 0.0 && (forall k :: k in calls ==> k.now <= t)
    && var n := |calls| - 1;
    var granted := calls[n].ip == ip && answers[n].Allowed?;
    && s == (if granted then calls[n].now else t) && Tightest(c, calls[..n], answers[..n], ip, s, was)
    && level == if granted then Min(c.burst as real, was - 1.0 + Gain(c, s, t)) else was
  }

  lemma WindowsNext(c: Config, calls: seq<Call>, answers: seq<Answer>, ip: Ip, s: Time, t: Time, was: real, level: real)
    requires |answers| == |calls| && Drawn(c, calls, answers, ip, s, t, was, level)
    ensures Tightest(c, calls, answers, ip, t, level)
  {
    hide Drawn, Ceiling, Granted, Gain;
    forall i | 0 <= i < |calls|
      ensures level <= Ceiling(c, calls, i, t) - Granted(calls, answers, ip, i) as real
    {
      WindowBelow(c, calls, answers, ip, s, t, was, level, i);
    }
    var i := WindowReached(c, calls, answers, ip, s, t, was, level);
  }

  lemma WindowBelow(c: Config, calls: seq<Call>, answers: seq<Answer>, ip: Ip, s: Time, t: Time, was: real, level: real, i: nat)
    requires |answers| == |calls| && Drawn(c, calls, answers, ip, s, t, was, level) && i < |calls|
    ensures level <= Ceiling(c, calls, i, t) - Granted(calls, answers, ip, i) as real
  {
    hide Ceiling, Granted, Gain;
    WindowNext(c, calls, answers, ip, s, t, i);
  }

  lemma WindowReached(c: Config, calls: seq<Call>, answers: seq<Answer>, ip: Ip, s: Time, t: Time, was: real,
    level: real) returns (i: nat)
    requires |answers| == |calls| && Drawn(c, calls, answers, ip, s, t, was, level)
    ensures level <= c.burst as real
    ensures level == c.burst as real ||
      (i < |calls| && level == Ceiling(c, calls, i, t) - Granted(calls, answers, ip, i) as real)
  {
    hide Ceiling, Granted, Gain;
    var n := |calls| - 1;
    i := n;
    if level != c.burst as real {
      if was != c.burst as real { i :| 0 <= i < n && was == Ceiling(c, calls[..n], i, s) - Granted(calls[..n], answers[..n], ip, i) as real; }
      WindowNext(c, calls, answers, ip, s, t, i);
    }
  }

  /** One window, before and after the last call. */
  lemma WindowNext(c: Config, calls: seq<Call>, answers: seq<Answer>, ip: Ip, s: Time, t: Time, i: nat)
    requires i < |calls| == |answers| && c.rps >= 0.0 && calls[i].now <= t
    ensures Ceiling(c, calls, i, t) >= c.burst as real && (s == t ==> Gain(c, s, t) == 0.0)
    ensures i < |calls| - 1 ==>
      Ceiling(c, calls, i, t) == Ceiling(c, calls[..|calls| - 1], i, s) + Gain(c, s, t)
    ensures i == |calls| - 1 && calls[i].now == s ==> Ceiling(c, calls, i, t) == c.burst as real + Gain(c, s, t)
    ensures var n := |calls| - 1; var g := if calls[n].ip == ip && answers[n].Allowed? then 1 else 0;
      Granted(calls, answers, ip, i) == g + if i < n then Granted(calls[..n], answers[..n], ip, i) else 0
  {
    GainAdds(c, calls[i].now, s, t);
    Rises(c, t - calls[i].now);
  }

  lemma GainAdds(c: Config, r: Time, s: Time, t: Time)
    ensures Gain(c, r, t) == Gain(c, r, s) + Gain(c, s, t) && Gain(c, s, s) == 0.0
  {
  }

  /** A call is allowed exactly when the client stays, in every window up to it, within the burst
      and what the window refills: by the limiter that never forgets always, and by the one that
      forgets idle clients if the burst fits into what the idle time refills. */
  lemma AllowedIff(c: Config, calls: seq<Call>)
    requires c.rps >= 0.0 && Forward(calls) && calls != []
    ensures |Both(c, calls).answers| == |Both(c, calls).reference| == |calls|
    ensures var n := |calls| - 1;
      var r := Both(c, calls);
      && (!r.reference[n].AtCapacity? ==>
        (r.reference[n].Allowed? <==> Room(c, calls[..n], r.reference[..n], calls[n].ip, calls[n].now)))
      && (c.burst as real <= c.rps * RATE_IDLE_TTL && !r.answers[n].AtCapacity? ==>
            (r.answers[n].Allowed? <==> Room(c, calls[..n], r.answers[..n], calls[n].ip, calls[n].now)))
  {
    hide Room, Next, Admits, Level;
    var n := |calls| - 1;
    var init, k, r := calls[..n], calls[n], Both(c, calls);
    ReferenceLength(c, calls);
    ReferenceGrows(c, calls);
    LevelIsTightest(c, init, k.ip, k.now);
    var b := Recall(c, Both(c, init).memory, k.ip, k.now);
    RoomIff(c, init, Both(c, init).reference, k.ip, k.now, b);
    if c.burst as real <= c.rps * RATE_IDLE_TTL { RunRefines(c, calls); }
  }

  lemma RoomIff(c: Config, calls: seq<Call>, answers: seq<Answer>, ip: Ip, t: Time, b: Bucket)
    requires |answers| == |calls| && c.rps >= 0.0 && Tightest(c, calls, answers, ip, t, Level(c, b, t))
    requires forall k :: k in calls ==> k.now <= t
    ensures Admits(c, b, t) <==> Room(c, calls, answers, ip, t)
  {
    hide Level, Ceiling, Granted, Gain;
    var level := Level(c, b, t);
    if Admits(c, b, t) {
      forall i | 0 <= i < |calls| ensures Within(c, calls, answers, ip, t, i) {
        assert level <= Ceiling(c, calls, i, t) - Granted(calls, answers, ip, i) as real;
      }
    } else if level != c.burst as real {
      var i :| 0 <= i < |calls| && level == Ceiling(c, calls, i, t) - Granted(calls, answers, ip, i) as real;
      assert !Within(c, calls, answers, ip, t, i);
    }
  }

  // ----- and only then -----

  /** One client: a whole burst at once, ten minutes of silence, and another burst. */
  function Probe(burst: nat, n: nat): seq<Call> {
    if n == 0 then [] else Probe(burst, n - 1) + [Call(0, if n <= burst then 0.0 else RATE_IDLE_TTL)]
  }

  lemma {:induction false} ProbeForward(burst: nat, n: nat)
    ensures |Probe(burst, n)| == n && Forward(Probe(burst, n))
    ensures forall i :: 0 <= i < n ==> Probe(burst, n)[i].now == if i < burst then 0.0 else RATE_IDLE_TTL
  {
    if n > 0 { ProbeForward(burst, n - 1); }
  }

  lemma ProbeNext(c: Config, n: nat)
    requires n > 0
    ensures Both(c, Probe(c.burst, n)) == Extend(c, Both(c, Probe(c.burst, n - 1)),
      Call(0, if n <= c.burst then 0.0 else RATE_IDLE_TTL))
  {
  }

  /** After `n` calls of the first burst. */
  ghost predicate Drained(c: Config, r: Run, n: nat) {
    var b := Bucket((c.burst - n) as real, 0.0);
    && r.state == State(map[0 := Client(b, 0.0)], Some(0.0)) && r.memory == map[0 := b]
    && |r.answers| == n && r.reference == r.answers && forall i :: 0 <= i < n ==> r.answers[i] == Allowed
  }

  lemma {:induction false} FirstBurst(c: Config, n: nat)
    requires 0 < n <= c.burst && c.rps >= 0.0
    ensures Drained(c, Both(c, Probe(c.burst, n)), n)
  {
    hide Both, Probe, Next, Take, Admits, Level;
    ProbeNext(c, n);
    var b := Bucket((c.burst - (n - 1)) as real, 0.0);
    if n == 1 {
      assert Both(c, Probe(c.burst, 0)) == Run(State(map[], None), map[], [], []) by { NoProbe(c); }
      FromFull(c, State(map[], None), 0, 0.0);
    } else {
      FirstBurst(c, n - 1);
      Drain(c, b);
      Again(c, State(map[0 := Client(b, 0.0)], Some(0.0)), b, 0.0);
    }
  }

  lemma NoProbe(c: Config)
    ensures Both(c, Probe(c.burst, 0)) == Run(State(map[], None), map[], [], [])
  {
  }

  /** A bucket that was last drawn on just now. */
  lemma Drain(c: Config, b: Bucket)
    requires b.tokens <= c.burst as real
    ensures Level(c, b, b.last) == b.tokens && (Admits(c, b, b.last) <==> b.tokens >= 1.0)
    ensures b.tokens >= 1.0 ==> Take(c, b, b.last) == Bucket(b.tokens - 1.0, b.last)
  {
  }

  lemma Again(c: Config, s: State, b: Bucket, t: Time)
    requires s == State(map[0 := Client(b, t)], Some(t)) && b.last == t && 1.0 <= b.tokens <= c.burst as real
    ensures Next(c, s, 0, t) == (State(map[0 := Client(Bucket(b.tokens - 1.0, t), t)], Some(t)), Allowed)
  {
    Drain(c, b);
    hide Level, Take, Admits;
    assert Swept(s, t) == s;
    var next := Client(Bucket(b.tokens - 1.0, t), t);
    assert s.clients[0 := next] == map[0 := next];
  }

  /** A client unknown or idle for long enough starts with a full bucket. */
  lemma FromFull(c: Config, s: State, ip: Ip, t: Time)
    requires c.burst >= 1 && SweepDue(s, t) && forall k :: k in s.clients ==>
      t - s.clients[k].lastSeen >= RATE_IDLE_TTL
    ensures Next(c, s, ip, t) == (State(map[ip := Client(Bucket((c.burst - 1) as real, t), t)], Some(t)), Allowed)
    ensures Take(c, Full(c, t), t) == Bucket((c.burst - 1) as real, t) && Admits(c, Full(c, t), t)
  {
  }

  /** After `j` calls of the second burst: the forgetful limiter let them all through, and if
      the other one did too, it has only what the idle time refilled. */
  ghost predicate Refilling(c: Config, r: Run, j: nat) {
    && r.state == State(map[0 := Client(Bucket((c.burst - j) as real, RATE_IDLE_TTL), RATE_IDLE_TTL)], Some(RATE_IDLE_TTL))
    && |r.answers| == |r.reference|
    && (r.reference == r.answers ==>
      c.rps * RATE_IDLE_TTL >= j as real &&
      r.memory == map[0 := Bucket(c.rps * RATE_IDLE_TTL - j as real, RATE_IDLE_TTL)])
  }

  lemma {:induction false} SecondBurst(c: Config, j: nat)
    requires 0 < j <= c.burst && c.rps >= 0.0 && c.burst as real > c.rps * RATE_IDLE_TTL
    ensures Refilling(c, Both(c, Probe(c.burst, c.burst + j)), j)
  {
    hide Both, Probe, Next, Take, Admits, Level, Drained;
    var n := c.burst + j;
    ProbeNext(c, n);
    var p := Both(c, Probe(c.burst, n - 1));
    if j == 1 {
      FirstBurst(c, c.burst);
      SecondStarts(c, p, Both(c, Probe(c.burst, n)));
    } else {
      SecondBurst(c, j - 1);
      SecondGoesOn(c, p, Both(c, Probe(c.burst, n)), j);
    }
  }

  lemma SecondStarts(c: Config, p: Run, r: Run)
    requires c.burst >= 1 && c.rps >= 0.0 && c.burst as real > c.rps * RATE_IDLE_TTL
    requires Drained(c, p, c.burst) && r == Extend(c, p, Call(0, RATE_IDLE_TTL))
    ensures Refilling(c, r, 1)
  {
    Rises(c, RATE_IDLE_TTL);
    FromFull(c, p.state, 0, RATE_IDLE_TTL);
    Dry(c, Bucket(0.0, 0.0));
    hide Next, Take, Admits, Level;
    if r.reference == r.answers { assert r.reference[c.burst] == Allowed; }
  }

  lemma SecondGoesOn(c: Config, p: Run, r: Run, j: nat)
    requires 1 < j <= c.burst && c.rps >= 0.0 && c.burst as real > c.rps * RATE_IDLE_TTL
    requires Refilling(c, p, j - 1) && r == Extend(c, p, Call(0, RATE_IDLE_TTL))
    ensures Refilling(c, r, j)
  {
    var n := |p.answers|;
    Again(c, p.state, Bucket((c.burst - (j - 1)) as real, RATE_IDLE_TTL), RATE_IDLE_TTL);
    if r.reference == r.answers {
      assert p.reference == r.reference[..n] == r.answers[..n] == p.answers;
      assert r.reference[n] == Allowed;
      Drain(c, Bucket(c.rps * RATE_IDLE_TTL - (j - 1) as real, RATE_IDLE_TTL));
    }
  }

  /** An empty bucket after the idle time. */
  lemma Dry(c: Config, b: Bucket)
    requires b == Bucket(0.0, 0.0) && 0.0 <= c.rps * RATE_IDLE_TTL <= c.burst as real
    ensures Admits(c, b, RATE_IDLE_TTL) <==> c.rps * RATE_IDLE_TTL >= 1.0
    ensures Admits(c, b, RATE_IDLE_TTL) ==>
      Take(c, b, RATE_IDLE_TTL) == Bucket(c.rps * RATE_IDLE_TTL - 1.0, RATE_IDLE_TTL)
  {
  }

  /** Forgetting idle clients is unobservable, on every run of calls in time order, exactly when
      the burst fits into what the idle time refills. */
  lemma UnobservableIff(c: Config)
    requires c.rps >= 0.0
    ensures c.burst as real <= c.rps * RATE_IDLE_TTL <==>
      forall calls :: Forward(calls) ==> Both(c, calls).answers == Both(c, calls).reference
  {
    if c.burst as real <= c.rps * RATE_IDLE_TTL {
      forall calls | Forward(calls) ensures Both(c, calls).answers == Both(c, calls).reference { RunRefines(c, calls); }
    } else {
      Rises(c, RATE_IDLE_TTL);
      ProbeForward(c.burst, c.burst + c.burst);
      SecondBurst(c, c.burst);
      var calls := Probe(c.burst, c.burst + c.burst);
      assert Forward(calls) && Both(c, calls).answers != Both(c, calls).reference;
    }
  }
}
