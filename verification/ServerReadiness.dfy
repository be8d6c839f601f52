/** Polling a starting server until it answers, with a deadline.

  Time is an integer that moves only while the poller awaits something. What a probe meets and how
  late a timer fires is up to the world, and nothing is assumed about it unless a lemma says so.
 */
module ServerReadiness {
  import opened Basics

  /** How the server treats a probe: `after` counts from the start of the probe. */
  datatype Probe = Responds(after: nat, ok: bool) | Rejects(after: nat) | Hangs

  /** `probe(k, t)` is what the k-th probe meets when it starts at time t. The timer of probe k fires
    `lateness(2k)` late, the sleep after it ends `lateness(2k + 1)` late. When an answer and the timer
    are due at the same instant, `answerFirst(k)` says which one wins. */
  datatype World = World(probe: (nat, int) -> Probe, lateness: nat -> nat, answerFirst: nat -> bool)

  datatype Config = Config(timeoutMs: int, requestTimeoutMs: int, pollIntervalMs: int)

  datatype Attempt = Attempt(start: int, end: int, ok: bool)

  datatype Outcome = Outcome(ready: bool, end: int, attempts: nat)

  /** The longest one probe may take when `elapsed` has passed since the start. */
  function Cap(c: Config, elapsed: int): (cap: int)
    ensures cap >= 1
  {
    Max(1, Min(c.requestTimeoutMs, c.timeoutMs - elapsed))
  }

  predicate InTime(w: World, k: nat, after: nat, cap: int) {
    var due := cap + w.lateness(2 * k);
    after < due || (after == due && w.answerFirst(k))
  }

  /** Probe k, started at `now`, raced against its timer. */
  function Raced(w: World, k: nat, now: int, cap: int): (a: Attempt)
    ensures a.start == now
    ensures cap >= 0 ==> now <= a.end <= now + cap + w.lateness(2 * k)
  {
    match w.probe(k, now)
    case Responds(after, ok) =>
      if InTime(w, k, after, cap) then Attempt(now, now + after, ok)
      else Attempt(now, now + cap + w.lateness(2 * k), false)
    case Rejects(after) =>
      Attempt(now, now + if InTime(w, k, after, cap) then after else cap + w.lateness(2 * k), false)
    case Hangs => Attempt(now, now + cap + w.lateness(2 * k), false)
  }

  function Slept(w: World, k: nat, now: int, ms: int): int {
    now + Max(0, ms) + w.lateness(2 * k + 1)
  }

  /** The poll from the loop head at `now`, after `k` attempts. */
  function PollFrom(c: Config, w: World, started: int, now: int, k: nat): (o: Outcome)
    requires c.pollIntervalMs >= 1 || now - started >= c.timeoutMs
    ensures o.attempts >= k
    decreases c.timeoutMs - (now - started)
  {
    if now - started >= c.timeoutMs then Outcome(false, now, k)
    else
      var a := Raced(w, k, now, Cap(c, now - started));
      var remaining := c.timeoutMs - (a.end - started);
      if a.ok then Outcome(true, a.end, k + 1)
      else if remaining <= 0 then Outcome(false, a.end, k + 1)
      else PollFrom(c, w, started, Slept(w, k, a.end, Min(c.pollIntervalMs, remaining)), k + 1)
  }

  /** The attempts of the poll, in order. */
  function AttemptsFrom(c: Config, w: World, started: int, now: int, k: nat): seq<Attempt>
    requires c.pollIntervalMs >= 1 || now - started >= c.timeoutMs
    decreases c.timeoutMs - (now - started)
  {
    if now - started >= c.timeoutMs then []
    else
      var a := Raced(w, k, now, Cap(c, now - started));
      var remaining := c.timeoutMs - (a.end - started);
      if a.ok || remaining <= 0 then [a]
      else [a] + AttemptsFrom(c, w, started, Slept(w, k, a.end, Min(c.pollIntervalMs, remaining)), k + 1)
  }

  // ---- The loop ----

  /** The clock, the network and the timers the poller is given. */
  class Host {
    const world: World
    var now: int
    var probes: nat
    ghost var attempts: seq<Attempt>

    constructor (world: World, now: int)
      ensures this.world == world && this.now == now && probes == 0 && attempts == []
    {
      this.world, this.now := world, now;
      probes, attempts := 0, [];
    }

    method Race(cap: int) returns (ok: bool)
      modifies this
      ensures var a := Raced(world, old(probes), old(now), cap);
              now == a.end && ok == a.ok && attempts == old(attempts) + [a]
      ensures probes == old(probes) + 1
    {
      var a := Raced(world, probes, now, cap);
      now, ok, probes, attempts := a.end, a.ok, probes + 1, attempts + [a];
    }

    method Sleep(ms: int)
      requires probes > 0
      modifies this`now
      ensures now == Slept(world, probes - 1, old(now), ms)
    {
      now := Slept(world, probes - 1, now, ms);
    }
  }

  method WaitForServer(host: Host, c: Config) returns (ready: bool)
    requires c.pollIntervalMs >= 1 || c.timeoutMs <= 0
    requires host.probes == 0 && host.attempts == []
    modifies host
    ensures Outcome(ready, host.now, host.probes) == PollFrom(c, host.world, old(host.now), old(host.now), 0)
    ensures host.attempts == AttemptsFrom(c, host.world, old(host.now), old(host.now), 0)
  {
    hide InTime, Raced, Cap;
    var startedAt := host.now;
    while host.now - startedAt < c.timeoutMs
      invariant c.pollIntervalMs >= 1 || host.now - startedAt >= c.timeoutMs
      invariant PollFrom(c, host.world, startedAt, host.now, host.probes)
             == PollFrom(c, host.world, startedAt, startedAt, 0)
      invariant host.attempts + AttemptsFrom(c, host.world, startedAt, host.now, host.probes)
             == AttemptsFrom(c, host.world, startedAt, startedAt, 0)
      decreases c.timeoutMs - (host.now - startedAt)
    {
      var cap := Cap(c, host.now - startedAt);
      ghost var made, a := host.attempts, Raced(host.world, host.probes, host.now, cap);
      ghost var rest := AttemptsFrom(c, host.world, startedAt, host.now, host.probes)[1..];
      assert made + ([a] + rest) == made + [a] + rest;
      var ok := host.Race(cap);
      if ok { return true; }
      var remaining := c.timeoutMs - (host.now - startedAt);
      if remaining <= 0 { break; }
      host.Sleep(Min(c.pollIntervalMs, remaining));
    }
    ready := false;
  }

  // ---- What it achieves ----

  /** The server answered attempt `a`, the k-th, positively before its cap ran out. */
  predicate AnsweredOk(c: Config, w: World, started: int, a: Attempt, k: nat) {
    var p := w.probe(k, a.start);
    p.Responds? && p.ok && InTime(w, k, p.after, Cap(c, a.start - started))
  }

  predicate AnsweredAt(c: Config, w: World, started: int, s: seq<Attempt>, k: nat, i: nat)
    requires i < |s|
  {
    AnsweredOk(c, w, started, s[i], k + i)
  }

  lemma OkIffAnswered(c: Config, w: World, started: int, now: int, k: nat)
    ensures var a := Raced(w, k, now, Cap(c, now - started));
            a.ok <==> AnsweredOk(c, w, started, a, k)
  {
  }

  lemma AnsweredShift(c: Config, w: World, started: int, a: Attempt, t: seq<Attempt>, k: nat)
    ensures forall i :: 0 < i < |t| + 1 ==>
              (AnsweredAt(c, w, started, [a] + t, k, i) <==> AnsweredAt(c, w, started, t, k + 1, i - 1))
  {
    hide AnsweredOk;
    forall i | 0 < i < |t| + 1
      ensures AnsweredAt(c, w, started, [a] + t, k, i) <==> AnsweredAt(c, w, started, t, k + 1, i - 1)
    {
      assert ([a] + t)[i] == t[i - 1];
    }
  }

  lemma {:induction false} AttemptsAnswered(c: Config, w: World, started: int, now: int, k: nat)
    requires c.pollIntervalMs >= 1
    ensures var o, s := PollFrom(c, w, started, now, k), AttemptsFrom(c, w, started, now, k);
            && o.attempts == k + |s|
            && (forall i :: 0 <= i < |s| ==> (AnsweredAt(c, w, started, s, k, i) <==> o.ready && i == |s| - 1))
            && (o.ready ==> s != [] && o.end == s[|s| - 1].end)
    decreases c.timeoutMs - (now - started)
  {
    hide InTime, Raced, AnsweredOk, Cap;
    if now - started < c.timeoutMs {
      var a := Raced(w, k, now, Cap(c, now - started));
      var remaining := c.timeoutMs - (a.end - started);
      OkIffAnswered(c, w, started, now, k);
      var s := AttemptsFrom(c, w, started, now, k);
      if !a.ok && remaining > 0 {
        var next := Slept(w, k, a.end, Min(c.pollIntervalMs, remaining));
        AttemptsAnswered(c, w, started, next, k + 1);
        var t := AttemptsFrom(c, w, started, next, k + 1);
        assert s == [a] + t;
        AnsweredShift(c, w, started, a, t, k);
      } else {
        assert s == [a];
      }
    }
  }

  /** The poll reports ready exactly when some attempt was answered positively before its cap, and
    then at the moment of that answer, the last attempt made. */
  lemma ReadyIffAnswered(c: Config, w: World, started: int)
    requires c.pollIntervalMs >= 1
    ensures var o, s := PollFrom(c, w, started, started, 0), AttemptsFrom(c, w, started, started, 0);
            && o.attempts == |s|
            && (o.ready <==> exists i :: 0 <= i < |s| && AnsweredAt(c, w, started, s, 0, i))
            && (forall i :: 0 <= i < |s| && AnsweredAt(c, w, started, s, 0, i) ==> i == |s| - 1 && o.end == s[i].end)
  {
    hide PollFrom, AttemptsFrom, AnsweredAt;
    AttemptsAnswered(c, w, started, started, 0);
    var s := AttemptsFrom(c, w, started, started, 0);
    if PollFrom(c, w, started, started, 0).ready {
      assert AnsweredAt(c, w, started, s, 0, |s| - 1);
    }
  }

  // ---- When each attempt happens ----

  /** Attempt `a`, the k-th, seen from outside: its probe is raced against the cap, however late the timer is;
    an answer or a rejection that comes first ends it, the timer ends it otherwise; and it succeeds only with
    a positive answer. */
  predicate RunsItsCourse(c: Config, w: World, started: int, a: Attempt, k: nat) {
    var p := w.probe(k, a.start);
    var due := Max(1, Min(c.requestTimeoutMs, c.timeoutMs - (a.start - started))) + w.lateness(2 * k);
    var inTime := !p.Hangs? && (p.after < due || (p.after == due && w.answerFirst(k)));
    && a.end == a.start + (if inTime then p.after else due)
    && (a.ok <==> inTime && p.Responds? && p.ok)
  }

  /** When the loop is back at its head after attempt `a`, the k-th. */
  function HeadAfterSleep(c: Config, w: World, started: int, a: Attempt, k: nat): int {
    a.end + Max(0, Min(c.pollIntervalMs, c.timeoutMs - (a.end - started))) + w.lateness(2 * k + 1)
  }

  /** Attempt `i` of `s` leads to the next: it failed, time was left, and after the sleep there still is. */
  predicate LeadsOn(c: Config, w: World, started: int, s: seq<Attempt>, k: nat, i: nat)
    requires i + 1 < |s|
  {
    && !s[i].ok && s[i].end - started < c.timeoutMs
    && s[i + 1].start == HeadAfterSleep(c, w, started, s[i], k + i)
    && s[i + 1].start - started < c.timeoutMs
  }

  /** How the poll ends after its last attempt `a`, the k-th. */
  predicate EndsWith(c: Config, w: World, started: int, a: Attempt, k: nat, o: Outcome) {
    var head := HeadAfterSleep(c, w, started, a, k);
    && o.ready == a.ok && o.attempts == k + 1
    && if a.ok || a.end - started >= c.timeoutMs then o.end == a.end
       else head - started >= c.timeoutMs && o.end == head
  }

  lemma RacedRuns(c: Config, w: World, started: int, now: int, k: nat)
    ensures RunsItsCourse(c, w, started, Raced(w, k, now, Cap(c, now - started)), k)
  {
  }

  /** All attempts of `s`, numbered from `k`, run their course, each leading to the next. */
  predicate OnClock(c: Config, w: World, started: int, s: seq<Attempt>, k: nat) {
    forall i: nat :: i < |s| ==>
      RunsItsCourse(c, w, started, s[i], k + i) && (i + 1 < |s| ==> LeadsOn(c, w, started, s, k, i))
  }

  lemma OnClockCons(c: Config, w: World, started: int, a: Attempt, t: seq<Attempt>, k: nat)
    requires RunsItsCourse(c, w, started, a, k) && OnClock(c, w, started, t, k + 1)
    requires t != [] ==> !a.ok && a.end - started < c.timeoutMs
                         && t[0].start == HeadAfterSleep(c, w, started, a, k) && t[0].start - started < c.timeoutMs
    ensures OnClock(c, w, started, [a] + t, k)
  {
    hide RunsItsCourse, HeadAfterSleep;
    var s := [a] + t;
    forall i: nat | i < |s|
      ensures RunsItsCourse(c, w, started, s[i], k + i) && (i + 1 < |s| ==> LeadsOn(c, w, started, s, k, i))
    {
      if i > 0 {
        assert s[i] == t[i - 1] && k + 1 + (i - 1) == k + i;
        if i + 1 < |s| { assert s[i + 1] == t[i] && LeadsOn(c, w, started, t, k + 1, i - 1); }
      }
    }
  }

  /** How a poll from `now` must go. */
  predicate PollsOnClock(c: Config, w: World, started: int, now: int, k: nat, s: seq<Attempt>, o: Outcome) {
    && OnClock(c, w, started, s, k)
    && if s == [] then now - started >= c.timeoutMs && o == Outcome(false, now, k)
       else s[0].start == now && now - started < c.timeoutMs
            && EndsWith(c, w, started, s[|s| - 1], k + |s| - 1, o)
  }

  lemma EndsAtHead(c: Config, w: World, started: int, a: Attempt, k: nat, o: Outcome)
    requires !a.ok && a.end - started < c.timeoutMs
    requires var head := HeadAfterSleep(c, w, started, a, k);
             head - started >= c.timeoutMs && o == Outcome(false, head, k + 1)
    ensures EndsWith(c, w, started, a, k, o)
  {
    hide HeadAfterSleep;
  }

  lemma PollConsClock(c: Config, w: World, started: int, a: Attempt, t: seq<Attempt>, k: nat, o: Outcome)
    requires RunsItsCourse(c, w, started, a, k) && a.start - started < c.timeoutMs
    requires !a.ok && a.end - started < c.timeoutMs
    requires PollsOnClock(c, w, started, HeadAfterSleep(c, w, started, a, k), k + 1, t, o)
    ensures PollsOnClock(c, w, started, a.start, k, [a] + t, o)
  {
    hide RunsItsCourse, OnClock, HeadAfterSleep, EndsWith;
    OnClockCons(c, w, started, a, t, k);
    var s := [a] + t;
    if t == [] {
      EndsAtHead(c, w, started, a, k, o);
    } else {
      assert s[|s| - 1] == t[|t| - 1] && k + |s| - 1 == k + 1 + |t| - 1;
    }
  }

  lemma PollStep(c: Config, w: World, started: int, now: int, k: nat)
    requires c.pollIntervalMs >= 1 && now - started < c.timeoutMs
    ensures var a, s, o := Raced(w, k, now, Cap(c, now - started)), AttemptsFrom(c, w, started, now, k),
                           PollFrom(c, w, started, now, k);
            var next := HeadAfterSleep(c, w, started, a, k);
            && next > now
            && if a.ok || a.end - started >= c.timeoutMs then s == [a] && o == Outcome(a.ok, a.end, k + 1)
               else s == [a] + AttemptsFrom(c, w, started, next, k + 1) && o == PollFrom(c, w, started, next, k + 1)
  {
    hide InTime;
  }

  lemma LastOnClock(c: Config, w: World, started: int, a: Attempt, k: nat)
    requires RunsItsCourse(c, w, started, a, k) && a.start - started < c.timeoutMs
    requires a.ok || a.end - started >= c.timeoutMs
    ensures PollsOnClock(c, w, started, a.start, k, [a], Outcome(a.ok, a.end, k + 1))
  {
    hide RunsItsCourse, HeadAfterSleep;
  }

  lemma NoneOnClock(c: Config, w: World, started: int, now: int, k: nat)
    requires now - started >= c.timeoutMs
    ensures PollsOnClock(c, w, started, now, k, AttemptsFrom(c, w, started, now, k), PollFrom(c, w, started, now, k))
  {
  }

  /** The whole poll, attempt by attempt, on the clock. */
  lemma {:induction false} AttemptsOnClock(c: Config, w: World, started: int, now: int, k: nat)
    requires c.pollIntervalMs >= 1
    ensures PollsOnClock(c, w, started, now, k, AttemptsFrom(c, w, started, now, k), PollFrom(c, w, started, now, k))
    decreases c.timeoutMs - (now - started)
  {
    hide RunsItsCourse, Raced, HeadAfterSleep, PollFrom, AttemptsFrom, PollsOnClock;
    if now - started < c.timeoutMs {
      var a := Raced(w, k, now, Cap(c, now - started));
      RacedRuns(c, w, started, now, k);
      PollStep(c, w, started, now, k);
      if !a.ok && a.end - started < c.timeoutMs {
        var next := HeadAfterSleep(c, w, started, a, k);
        AttemptsOnClock(c, w, started, next, k + 1);
        var rest, end := AttemptsFrom(c, w, started, next, k + 1), PollFrom(c, w, started, next, k + 1);
        PollConsClock(c, w, started, a, rest, k, end);
      } else {
        LastOnClock(c, w, started, a, k);
      }
    } else {
      NoneOnClock(c, w, started, now, k);
    }
  }

  ghost predicate LateBy(w: World, late: nat) { forall i: nat :: w.lateness(i) <= late }

  /** The poll ends by its deadline, up to one late timer, and it never gives up before. */
  lemma {:induction false} EndsByDeadline(c: Config, w: World, started: int, now: int, k: nat, late: nat)
    requires c.pollIntervalMs >= 1
    requires LateBy(w, late)
    requires now <= started + Max(0, c.timeoutMs) + late
    ensures var o := PollFrom(c, w, started, now, k);
            && now <= o.end <= started + Max(0, c.timeoutMs) + late
            && (!o.ready ==> started + c.timeoutMs <= o.end)
    decreases c.timeoutMs - (now - started)
  {
    if now - started < c.timeoutMs {
      var a := Raced(w, k, now, Cap(c, now - started));
      var remaining := c.timeoutMs - (a.end - started);
      if !a.ok && remaining > 0 {
        EndsByDeadline(c, w, started, Slept(w, k, a.end, Min(c.pollIntervalMs, remaining)), k + 1, late);
      }
    }
  }

  lemma OneMoreInterval(k: nat, interval: int)
    ensures (k + 1) * interval == k * interval + interval
  {
  }

  /** With n attempts made, n - 1 whole poll intervals fit before the deadline: n is at most the
    timeout divided by the interval, rounded up. */
  lemma {:induction false} AttemptBound(c: Config, w: World, started: int, now: int, k: nat)
    requires c.pollIntervalMs >= 1
    requires k * c.pollIntervalMs <= now - started
    requires k > 0 ==> (k - 1) * c.pollIntervalMs < c.timeoutMs
    ensures var n := PollFrom(c, w, started, now, k).attempts;
            n > 0 ==> (n - 1) * c.pollIntervalMs < c.timeoutMs
    decreases c.timeoutMs - (now - started)
  {
    hide Raced;
    if now - started < c.timeoutMs {
      var a := Raced(w, k, now, Cap(c, now - started));
      var remaining := c.timeoutMs - (a.end - started);
      var next := Slept(w, k, a.end, Min(c.pollIntervalMs, remaining));
      if !a.ok && remaining > 0 {
        OneMoreInterval(k, c.pollIntervalMs);
        if c.pollIntervalMs <= remaining {
          AttemptBound(c, w, started, next, k + 1);
        } else {
          assert next - started >= c.timeoutMs;
        }
      }
    }
  }

  lemma MulMonotone(m: int, n: int, p: int)
    requires p >= 1
    ensures m <= n ==> m * p <= n * p
  {
  }

  lemma {:induction false} QuotientBound(n: nat, p: int, t: int)
    requires n > 0 && p >= 1 && (n - 1) * p < t
    ensures n <= (t + p - 1) / p
  {
    var q := (t + p - 1) / p;
    assert n * p == (n - 1) * p + p;
    assert (q + 1) * p == q * p + p;
    MulMonotone(q + 1, n, p);
  }

  lemma AttemptsRoundedUp(c: Config, w: World, started: int)
    requires c.pollIntervalMs >= 1
    ensures var n := PollFrom(c, w, started, started, 0).attempts;
            if c.timeoutMs <= 0 then n == 0 else n <= (c.timeoutMs + c.pollIntervalMs - 1) / c.pollIntervalMs
  {
    AttemptBound(c, w, started, started, 0);
    var n := PollFrom(c, w, started, started, 0).attempts;
    if n > 0 { QuotientBound(n, c.pollIntervalMs, c.timeoutMs); }
  }

  /** From time `up` on the server answers every probe positively within `d`. */
  ghost predicate UpFrom(w: World, up: int, d: nat) {
    forall k: nat, t: int :: up <= t ==> w.probe(k, t).Responds? && w.probe(k, t).ok && w.probe(k, t).after <= d
  }

  /** Whatever the server did before, a poll whose deadline is far enough away finds it at the latest
    one request timeout, one poll interval, one answer and two late timers after it came up. */
  lemma {:induction false} DetectsServer(
      c: Config, w: World, started: int, now: int, k: nat, up: int, d: nat, late: nat)
    requires c.pollIntervalMs >= 1 && d < c.requestTimeoutMs
    requires LateBy(w, late)
    requires UpFrom(w, up, d)
    requires var slack := c.requestTimeoutMs + c.pollIntervalMs + 2 * late;
             started <= now <= Max(up, started) + slack && Max(up, started) + slack + d < started + c.timeoutMs
    ensures var o := PollFrom(c, w, started, now, k);
            o.ready && o.end <= Max(up, started) + c.requestTimeoutMs + c.pollIntervalMs + 2 * late + d
    decreases c.timeoutMs - (now - started)
  {
    var a := Raced(w, k, now, Cap(c, now - started));
    if up <= now {
      assert w.probe(k, now).after <= d;
    } else if !a.ok {
      var remaining := c.timeoutMs - (a.end - started);
      assert a.end <= now + c.requestTimeoutMs + late;
      DetectsServer(c, w, started, Slept(w, k, a.end, Min(c.pollIntervalMs, remaining)), k + 1, up, d, late);
    }
  }

  // ---- When the poll ends ----

  /** The time at the loop head after `n` attempts, for any interval. */
  function HeadAfter(c: Config, w: World, started: int, n: nat): int {
    if n == 0 then started
    else
      var now := HeadAfter(c, w, started, n - 1);
      var a := Raced(w, n - 1, now, Cap(c, now - started));
      Slept(w, n - 1, a.end, Min(c.pollIntervalMs, c.timeoutMs - (a.end - started)))
  }

  /** The attempt begun at `now`, the n-th, does not end the loop. */
  predicate GoesOn(c: Config, w: World, started: int, now: int, n: nat) {
    var a := Raced(w, n, now, Cap(c, now - started));
    !a.ok && c.timeoutMs - (a.end - started) > 0
  }

  /** The loop runs on after `n` attempts: none of them ended it, and its guard holds again. */
  predicate RunsOn(c: Config, w: World, started: int, n: nat) {
    (n > 0 ==> RunsOn(c, w, started, n - 1) && GoesOn(c, w, started, HeadAfter(c, w, started, n - 1), n - 1))
    && HeadAfter(c, w, started, n) - started < c.timeoutMs
  }

  ghost predicate Ends(c: Config, w: World, started: int) { exists n: nat :: !RunsOn(c, w, started, n) }

  lemma {:induction false} StaysOver(c: Config, w: World, started: int, k: nat, n: nat)
    requires k <= n && !RunsOn(c, w, started, k)
    ensures !RunsOn(c, w, started, n)
  {
    hide HeadAfter, GoesOn;
    if k < n { StaysOver(c, w, started, k, n - 1); }
  }

  lemma PollUnfolds(c: Config, w: World, started: int, k: nat)
    requires c.pollIntervalMs >= 1
    ensures var now, next := HeadAfter(c, w, started, k), HeadAfter(c, w, started, k + 1);
            && (now - started >= c.timeoutMs ==> PollFrom(c, w, started, now, k).attempts == k)
            && (now - started < c.timeoutMs && GoesOn(c, w, started, now, k) ==>
                next > now && PollFrom(c, w, started, now, k) == PollFrom(c, w, started, next, k + 1))
            && (now - started < c.timeoutMs && !GoesOn(c, w, started, now, k) ==>
                PollFrom(c, w, started, now, k).attempts == k + 1)
  {
    hide InTime;
  }

  /** The loop runs on after exactly the attempts that are not its last. */
  lemma {:induction false} RunsOnFrom(c: Config, w: World, started: int, k: nat, n: nat)
    requires c.pollIntervalMs >= 1 && k <= n
    requires k > 0 ==> RunsOn(c, w, started, k - 1) && GoesOn(c, w, started, HeadAfter(c, w, started, k - 1), k - 1)
    ensures RunsOn(c, w, started, n) <==> n < PollFrom(c, w, started, HeadAfter(c, w, started, k), k).attempts
    decreases c.timeoutMs - (HeadAfter(c, w, started, k) - started)
  {
    hide HeadAfter, GoesOn, PollFrom;
    var now := HeadAfter(c, w, started, k);
    PollUnfolds(c, w, started, k);
    if now - started >= c.timeoutMs {
      StaysOver(c, w, started, k, n);
    } else if k < n {
      if GoesOn(c, w, started, now, k) {
        RunsOnFrom(c, w, started, k + 1, n);
      } else {
        StaysOver(c, w, started, k + 1, n);
      }
    }
  }

  lemma RunsOnIffAttempts(c: Config, w: World, started: int, n: nat)
    requires c.pollIntervalMs >= 1
    ensures RunsOn(c, w, started, n) <==> n < PollFrom(c, w, started, started, 0).attempts
  {
    RunsOnFrom(c, w, started, 0, n);
  }

  /** A server that refuses every probe at once, with a sleep that returns at once when it is asked for no time.
    An injected `sleepFn` may do that; the timer behind the default one waits at least a millisecond, which is
    a `lateness` of 1 here. */
  const REFUSING := World((_, _) => Rejects(0), _ => 0, _ => true)

  /** Without a positive interval such a server is probed for ever: after any number of attempts the loop
    runs on and the clock still shows the start. */
  lemma {:induction false} SpinsWithoutInterval(c: Config, started: int, n: nat)
    requires c.pollIntervalMs <= 0 && c.timeoutMs > 0
    ensures RunsOn(c, REFUSING, started, n) && HeadAfter(c, REFUSING, started, n) == started
  {
    if n > 0 { SpinsWithoutInterval(c, started, n - 1); }
  }

  /** The poll ends whatever the world does exactly when its interval is positive or it has no time at all. */
  lemma EndsIff(c: Config, started: int)
    ensures (forall w: World :: Ends(c, w, started)) <==> c.pollIntervalMs >= 1 || c.timeoutMs <= 0
  {
    if c.pollIntervalMs >= 1 {
      forall w: World ensures Ends(c, w, started) {
        RunsOnIffAttempts(c, w, started, PollFrom(c, w, started, started, 0).attempts);
      }
    } else if c.timeoutMs <= 0 {
      forall w: World ensures Ends(c, w, started) { assert !RunsOn(c, w, started, 0); }
    } else {
      forall n: nat ensures RunsOn(c, REFUSING, started, n) { SpinsWithoutInterval(c, started, n); }
      assert !Ends(c, REFUSING, started);
    }
  }
}
