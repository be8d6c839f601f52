/** How long a login waits, and what it says while it does.
 */
module LoginConduct {
  import opened Basics
  import opened LoginProtocol
  import opened LoginSafety
  import opened LoginSuccession

  // ---- Delays ----

  /** `delay` is the configured `n`, or `default` when none is configured. */
  predicate IsDelay(delay: nat, n: nat, default: nat) {
    (n > 0 ==> delay == n) && (n == 0 ==> delay == default)
  }

  /** The delay a timer of this login must have: the first poll comes at once. */
  predicate WellDelayed(t: Timer, config: Config, timeout: nat) {
    match t.task
    case StartPolling => IsDelay(t.delay, config.minLoginTime, 5000)
    case Poll(count) => if count == 0 then t.delay == 0 else IsDelay(t.delay, config.pollInterval, 1000)
    case OverallTimeout =>
      if timeout > 0 then t.delay == timeout else IsDelay(t.delay, config.timeout, 300000)
  }

  /** Every armed timer has its delay, and every read was begun by a counted poll. */
  predicate AllDelayed(s: State, config: Config, timeout: nat) {
    && (forall id :: id in s.armed ==> WellDelayed(s.armed[id], config, timeout))
    && (forall r :: r in s.pending ==> r.count > 0 && r.login.config.pollInterval == config.pollInterval)
    && (forall id :: id in s.armed ==> s.armed[id].login.config.pollInterval == config.pollInterval)
  }

  lemma BeginDelayed(s: State, provider: string, config: Config, timeout: nat)
    requires Drained(s)
    ensures AllDelayed(Started(s, LoginFor(provider, config, timeout)), config, timeout)
  {
    var t := Started(s, LoginFor(provider, config, timeout));
    assert t.armed.Keys == {s.nextTimer, s.nextTimer + 1};
  }

  lemma FewerDelayed(s: State, config: Config, timeout: nat)
    requires AllDelayed(s, config, timeout)
    ensures forall ids: set<nat> :: AllDelayed(s.(armed := s.armed - ids), config, timeout)
    ensures forall i: nat :: i < |s.pending| ==>
              AllDelayed(WithoutRead(s, i), config, timeout) && s.pending[i].count > 0
              && s.pending[i].login.config.pollInterval == config.pollInterval
  {
    hide WellDelayed;
    forall i: nat | i < |s.pending|
      ensures AllDelayed(WithoutRead(s, i), config, timeout) && s.pending[i] in s.pending
    {
      assert forall r :: r in WithoutRead(s, i).pending ==> r in s.pending;
    }
  }

  lemma CleanupDelayed(s: State, config: Config, timeout: nat)
    requires AllDelayed(s, config, timeout)
    ensures AllDelayed(Cleanup(s), config, timeout)
  {
    hide WellDelayed;
  }

  lemma PollDelayed(s: State, login: Login, count: nat, delay: nat, config: Config, timeout: nat)
    requires AllDelayed(s, config, timeout) && login.config.pollInterval == config.pollInterval
    requires if count == 0 then delay == 0 else IsDelay(delay, config.pollInterval, 1000)
    ensures AllDelayed(SchedulePoll(s, login, count, delay), config, timeout)
  {
  }

  lemma TimerDelayed(s: State, t: Timer, config: Config, timeout: nat)
    requires AllDelayed(s, config, timeout) && t.login.config.pollInterval == config.pollInterval
    ensures AllDelayed(OnTimer(s, t), config, timeout)
  {
    hide WellDelayed, Cleanup;
    CleanupDelayed(s, config, timeout);
    PollDelayed(s, t.login, 0, 0, config, timeout);
  }

  lemma CheckDelayed(s: State, login: Login, count: nat, creds: Credentials, config: Config, timeout: nat)
    requires AllDelayed(s, config, timeout) && count > 0 && login.config.pollInterval == config.pollInterval
    ensures AllDelayed(CheckCredentials(s, login, count, creds), config, timeout)
    ensures AllDelayed(OnCookiesFailed(s, login, count), config, timeout)
  {
    CleanupDelayed(s, config, timeout);
    PollDelayed(s, login, count, PositiveOr(login.config.pollInterval, 1000), config, timeout);
    hide AllFound, Cleanup, SchedulePoll, WellDelayed;
  }

  lemma ReadDelayed(s: State, e: Event, config: Config, timeout: nat)
    requires AllDelayed(s, config, timeout) && IsReadEvent(e) && e.i < |s.pending|
    ensures AllDelayed(Step(s, e), config, timeout)
  {
    var s1, read := WithoutRead(s, e.i), s.pending[e.i];
    FewerDelayed(s, config, timeout);
    forall creds { CheckDelayed(s1, read.login, read.count, creds, config, timeout); }
    hide CheckCredentials, WithCookies, WellDelayed, HasStorage, HasWindow, WithoutRead;
  }

  lemma WindowDelayed(s: State, e: Event, config: Config, timeout: nat)
    requires AllDelayed(s, config, timeout) && !IsReadEvent(e) && !e.TimerFires?
    ensures AllDelayed(Step(s, e), config, timeout)
  {
    hide Cleanup, WellDelayed, CaptureHeaders;
    CleanupDelayed(s, config, timeout);
    if e.WindowClosed? && e.w < |s.windows| { CleanupDelayed(WithStage(s, e.w, Closed), config, timeout); }
  }

  lemma StepDelayed(s: State, e: Event, config: Config, timeout: nat)
    requires AllDelayed(s, config, timeout)
    ensures AllDelayed(Step(s, e), config, timeout)
  {
    if IsReadEvent(e) {
      if e.i < |s.pending| { ReadDelayed(s, e, config, timeout); }
    } else if e.TimerFires? {
      hide OnTimer, WellDelayed;
      if e.id in s.armed {
        FewerDelayed(s, config, timeout);
        TimerDelayed(s.(armed := s.armed - {e.id}), s.armed[e.id], config, timeout);
      }
    } else {
      WindowDelayed(s, e, config, timeout);
    }
  }

  lemma {:induction false} RunDelayed(s: State, events: seq<Event>, config: Config, timeout: nat)
    requires AllDelayed(s, config, timeout)
    ensures AllDelayed(Run(s, events), config, timeout)
    decreases events
  {
    hide AllDelayed, Step;
    if events != [] {
      StepDelayed(s, events[0], config, timeout);
      RunDelayed(Step(s, events[0]), events[1..], config, timeout);
    }
  }

  /** Whatever happens in a login, every timer it arms has its delay: the caller's timeout, or else the
    configured one, or else five minutes for the whole; the configured values or their defaults for the start
    of polling and between polls. */
  lemma TimersWellDelayed(s: State, provider: string, config: Config, timeout: nat, events: seq<Event>)
    requires Drained(s)
    ensures var t := Run(Started(s, LoginFor(provider, config, timeout)), events);
            forall id :: id in t.armed ==> WellDelayed(t.armed[id], config, timeout)
  {
    hide Run, Started, WellDelayed;
    BeginDelayed(s, provider, config, timeout);
    RunDelayed(Started(s, LoginFor(provider, config, timeout)), events, config, timeout);
  }

  // ---- What a login says ----

  function CountKind(sts: seq<Status>, kind: StatusKind): nat {
    if sts == [] then 0
    else CountKind(sts[..|sts| - 1], kind) + if sts[|sts| - 1].kind == kind then 1 else 0
  }

  lemma CountAppend(sts: seq<Status>, st: Status)
    ensures forall kind :: CountKind(sts + [st], kind) == CountKind(sts, kind) + if st.kind == kind then 1 else 0
  {
    assert (sts + [st])[..|sts|] == sts;
  }

  function Successes(arrivals: seq<bool>): nat {
    if arrivals == [] then 0
    else Successes(arrivals[..|arrivals| - 1]) + if arrivals[|arrivals| - 1] then 1 else 0
  }

  /** What a login went through: how often it polled, and of each page it arrived at whether that was the
    configured place of success. */
  datatype Tally = Tally(polls: nat, arrivals: seq<bool>)

  function Tallied(s: State, e: Event, t: Tally): Tally {
    if s.isCompleted then t
    else if e.TimerFires? && e.id in s.armed && s.armed[e.id].task.Poll? then t.(polls := t.polls + 1)
    else if e.Navigates? && e.w < |s.windows| && s.windows[e.w].stage == Open && e.validUrl
    then t.(arrivals := t.arrivals + [e.isSuccessUrl])
    else t
  }

  function TallyOf(s: State, events: seq<Event>, t: Tally): Tally
    decreases events
  {
    if events == [] then t else TallyOf(Step(s, events[0]), events[1..], Tallied(s, events[0], t))
  }

  /** The statuses of a login that went through `t`: one at the start; one for the page it loads and one for each
    it arrives at; one for each success but at the first page; one for every thirtieth poll. */
  predicate Reports(sts: seq<Status>, t: Tally) {
    && CountKind(sts, Starting) == 1
    && CountKind(sts, Navigating) == 1 + |t.arrivals|
    && CountKind(sts, Detected) == (if t.arrivals == [] then 0 else Successes(t.arrivals[1..]))
    && CountKind(sts, Waiting) == t.polls / 30
  }

  /** What the pending parts of a login in progress remember of it. */
  ghost predicate Remembers(s: State, t: Tally) {
    && s.windows != [] && (s.windows[|s.windows| - 1].navigatedToLogin <==> t.arrivals != [])
    && (forall id :: id in s.armed ==> match s.armed[id].task
                                       case StartPolling => t.polls == 0
                                       case Poll(count) => count == t.polls
                                       case OverallTimeout => true)
    && (forall r :: r in s.pending ==> r.count == t.polls)
  }

  ghost predicate Consistent(s: State, b: Login, t: Tally) {
    Reports(s.emitted, t) && (InProgress(s, b) ==> Remembers(s, t))
  }

  lemma FinalReports(sts: seq<Status>, st: Status, t: Tally)
    requires Reports(sts, t) && IsTerminal(st)
    ensures Reports(sts + [st], t)
  {
    CountAppend(sts, st);
  }

  lemma {:induction false} SuccessesAppend(arrivals: seq<bool>, a: bool)
    requires arrivals != []
    ensures Successes((arrivals + [a])[1..]) == Successes(arrivals[1..]) + if a then 1 else 0
  {
    assert (arrivals + [a])[1..] == arrivals[1..] + [a];
    assert (arrivals[1..] + [a])[..|arrivals| - 1] == arrivals[1..];
  }

  lemma NavigatingReports(sts: seq<Status>, b: Login, t: Tally, isSuccessUrl: bool)
    requires Reports(sts, t)
    ensures var page := Status(Some(b.provider), Navigating, "Navigated");
            var detected := Status(Some(b.provider), Detected, "Login page redirect detected");
            Reports((if t.arrivals != [] && isSuccessUrl then sts + [detected] else sts) + [page],
                    t.(arrivals := t.arrivals + [isSuccessUrl]))
  {
    var page := Status(Some(b.provider), Navigating, "Navigated");
    var detected := Status(Some(b.provider), Detected, "Login page redirect detected");
    CountAppend(sts, detected);
    CountAppend(sts + [detected], page);
    CountAppend(sts, page);
    if t.arrivals != [] { SuccessesAppend(t.arrivals, isSuccessUrl); }
  }

  lemma PollReports(sts: seq<Status>, b: Login, t: Tally)
    requires Reports(sts, t)
    ensures var waiting := Status(Some(b.provider), Waiting, "Waiting for login");
            Reports(if (t.polls + 1) % 30 == 0 then sts + [waiting] else sts, t.(polls := t.polls + 1))
  {
    CountAppend(sts, Status(Some(b.provider), Waiting, "Waiting for login"));
  }

  lemma NavigatesConsistent(s: State, b: Login, t: Tally, e: Event)
    requires InProgress(s, b) && Consistent(s, b, t) && e.Navigates?
    ensures Consistent(Step(s, e), b, Tallied(s, e, t))
  {
    hide Reports, OneThread, OnlyProgress;
    if e.w < |s.windows| && s.windows[e.w].stage == Open && e.validUrl {
      assert e.w == |s.windows| - 1;
      NavigatingReports(s.emitted, b, t, e.isSuccessUrl);
    }
  }

  lemma PollConsistent(s: State, b: Login, t: Tally, id: nat)
    requires InProgress(s, b) && Consistent(s, b, t) && id in s.armed && s.armed[id].task.Poll?
    ensures Consistent(Step(s, TimerFires(id)), b, Tallied(s, TimerFires(id), t))
  {
    hide Reports, OwnsWindow, OnlyProgress;
    assert s.pending == [] && s.armed[id].login == b;
    PollReports(s.emitted, b, t);
  }

  lemma SilentConsistent(s: State, u: State, b: Login, t: Tally)
    requires Consistent(s, b, t) && InProgress(s, b)
    requires u.emitted == s.emitted && u.armed == s.armed && u.pending == s.pending
    requires |u.windows| == |s.windows|
             && u.windows[|s.windows| - 1].navigatedToLogin == s.windows[|s.windows| - 1].navigatedToLogin
    ensures Consistent(u, b, t)
  {
    hide Reports, InProgress;
  }

  lemma EndConsistent(s: State, u: State, b: Login, t: Tally)
    requires Consistent(s, b, t) && u.isCompleted && u.emitted != []
    requires u.emitted[..|u.emitted| - 1] == s.emitted && IsTerminal(u.emitted[|u.emitted| - 1])
    ensures Consistent(u, b, t)
  {
    FinalReports(s.emitted, u.emitted[|u.emitted| - 1], t);
    assert u.emitted == s.emitted + [u.emitted[|u.emitted| - 1]];
  }

  /** Nothing drives the login on: what holds at the start of every callback. */
  ghost predicate Idle(u: State, t: Tally) {
    && Reports(u.emitted, t) && u.pending == []
    && u.windows != [] && (u.windows[|u.windows| - 1].navigatedToLogin <==> t.arrivals != [])
    && forall id :: id in u.armed ==> u.armed[id].task == OverallTimeout
  }

  lemma ScheduledConsistent(u: State, b: Login, t: Tally, count: nat, delay: nat)
    requires Idle(u, t) && count == t.polls
    ensures Consistent(SchedulePoll(u, b, count, delay), b, t)
  {
    hide Reports, InProgress;
  }

  lemma ReadingConsistent(u: State, b: Login, t: Tally, read: Read)
    requires Idle(u, t) && read.count == t.polls
    ensures Consistent(u.(pending := u.pending + [read]), b, t)
  {
    hide Reports, InProgress;
  }

  lemma ReadEndAppends(s: State, e: Event)
    requires s.settled == [] && IsReadEvent(e) && Step(s, e).settled != []
    ensures var u := Step(s, e);
            u.isCompleted && u.emitted != [] && u.emitted[..|u.emitted| - 1] == s.emitted
            && IsTerminal(u.emitted[|u.emitted| - 1])
  {
    hide AllFound, WithCookies, HasStorage;
  }

  /** The step that settles a login adds one final status and no other. */
  lemma EndAppends(s: State, e: Event)
    requires s.settled == [] && Step(s, e).settled != []
    ensures var u := Step(s, e);
            u.isCompleted && u.emitted != [] && u.emitted[..|u.emitted| - 1] == s.emitted
            && IsTerminal(u.emitted[|u.emitted| - 1])
  {
    if IsReadEvent(e) {
      ReadEndAppends(s, e);
    } else {
      hide CaptureHeaders, OnPoll;
      if e.TimerFires? && e.id in s.armed && s.armed[e.id].task.Poll? {
        PollSettlesNothing(s.(armed := s.armed - {e.id}), s.armed[e.id].login, s.armed[e.id].task.count);
      }
    }
  }

  lemma OnePending(s: State, b: Login, i: nat)
    requires InProgress(s, b) && i < |s.pending|
    ensures i == 0 && s.pending == [s.pending[0]] && s.pending[0].login == b && !s.isCompleted
    ensures s.timeoutTimer.Some? && s.armed.Keys == {s.timeoutTimer.value}
    ensures s.armed[s.timeoutTimer.value].task == OverallTimeout && s.settled == []
  {
    hide OwnsWindow, OnlyProgress, NoNull;
  }

  lemma CheckedConsistent(u: State, b: Login, t: Tally, creds: Credentials)
    requires Idle(u, t) && !u.isCompleted && u.settled == []
    ensures CheckCredentials(u, b, t.polls, creds).settled == [] ==>
              Consistent(CheckCredentials(u, b, t.polls, creds), b, t)
    ensures Consistent(OnCookiesFailed(u, b, t.polls), b, t)
  {
    ScheduledConsistent(u, b, t, t.polls, PositiveOr(b.config.pollInterval, 1000));
    hide Idle, AllFound, Consistent, SchedulePoll;
  }

  lemma ArrivalConsistent(u: State, b: Login, t: Tally)
    requires Idle(u, t) && !u.isCompleted && u.settled == []
    ensures forall cookies :: OnCookies(u, b, t.polls, cookies).settled == [] ==>
              Consistent(OnCookies(u, b, t.polls, cookies), b, t)
    ensures forall found, values :: OnStorage(u, b, t.polls, found, values).settled == [] ==>
              Consistent(OnStorage(u, b, t.polls, found, values), b, t)
  {
    forall creds { CheckedConsistent(u, b, t, creds); }
    forall read: Read | read.count == t.polls { ReadingConsistent(u, b, t, read); }
    hide Consistent, Idle, CheckCredentials, WithCookies, HasStorage, HasWindow;
  }

  lemma ReadIsIdle(s: State, b: Login, t: Tally, i: nat)
    requires InProgress(s, b) && Consistent(s, b, t) && i < |s.pending|
    ensures Idle(WithoutRead(s, i), t) && s.pending[i].count == t.polls
  {
    OnePending(s, b, i);
    assert s.pending[0] in s.pending;
    hide Reports, InProgress;
  }

  lemma ReadConsistent(s: State, b: Login, t: Tally, e: Event)
    requires InProgress(s, b) && Consistent(s, b, t) && IsReadEvent(e) && e.i < |s.pending|
    requires Step(s, e).settled == []
    ensures Consistent(Step(s, e), b, t)
  {
    OnePending(s, b, e.i);
    ReadIsIdle(s, b, t, e.i);
    var u := WithoutRead(s, e.i);
    CheckedConsistent(u, b, t, map[]);
    ArrivalConsistent(u, b, t);
    hide InProgress, Consistent, Idle, CheckCredentials, OnCookies, OnStorage, OnCookiesFailed;
  }

  lemma StartConsistent(s: State, b: Login, t: Tally, id: nat)
    requires InProgress(s, b) && Consistent(s, b, t) && id in s.armed && s.armed[id].task.StartPolling?
    ensures Consistent(Step(s, TimerFires(id)), b, t)
  {
    assert s.pending == [] && IsDriver(s, b, id) && s.armed.Keys == {s.timeoutTimer.value, id};
    ScheduledConsistent(s.(armed := s.armed - {id}), b, t, 0, 0);
    hide Reports, OwnsWindow, OnlyProgress;
  }

  lemma NoTallyAtEnd(s: State, e: Event, t: Tally)
    requires s.settled == [] && Step(s, e).settled != []
    ensures Tallied(s, e, t) == t
  {
    hide Cleanup, WithCookies, CaptureHeaders;
  }

  lemma TimerConsistent(s: State, b: Login, t: Tally, id: nat)
    requires InProgress(s, b) && Consistent(s, b, t) && id in s.armed && Step(s, TimerFires(id)).settled == []
    ensures Consistent(Step(s, TimerFires(id)), b, Tallied(s, TimerFires(id), t))
  {
    match s.armed[id].task
    case StartPolling => StartConsistent(s, b, t, id);
    case Poll(_) => PollConsistent(s, b, t, id);
    case OverallTimeout =>
    hide Reports;
  }

  /** Unless it ends the login such an event says nothing and leaves timers and reads alone. */
  lemma WindowKeeps(s: State, e: Event)
    requires s.settled == [] && Step(s, e).settled == []
    requires e.SendsHeaders? || e.WindowDestroyed? || e.WindowClosed? || e.CancelRequested?
    ensures var u := Step(s, e);
            && u.emitted == s.emitted && u.armed == s.armed && u.pending == s.pending && |u.windows| == |s.windows|
            && forall w :: 0 <= w < |s.windows| ==> u.windows[w].navigatedToLogin == s.windows[w].navigatedToLogin
  {
    hide CaptureHeaders, Cleanup;
  }

  lemma WindowConsistent(s: State, b: Login, t: Tally, e: Event)
    requires InProgress(s, b) && Consistent(s, b, t) && Step(s, e).settled == []
    requires e.SendsHeaders? || e.WindowDestroyed? || e.WindowClosed? || e.CancelRequested?
    ensures Consistent(Step(s, e), b, t)
  {
    InProgressUnsettled(s, b);
    assert s.windows != [];
    hide Reports, InProgress, Step, Consistent;
    WindowKeeps(s, e);
    SilentConsistent(s, Step(s, e), b, t);
  }

  lemma StepConsistent(s: State, b: Login, t: Tally, e: Event)
    requires InProgress(s, b) && Consistent(s, b, t)
    ensures Consistent(Step(s, e), b, Tallied(s, e, t))
  {
    InProgressUnsettled(s, b);
    if Step(s, e).settled != [] {
      EndAppends(s, e);
      NoTallyAtEnd(s, e, t);
      hide Step, Reports;
      EndConsistent(s, Step(s, e), b, t);
    } else if IsReadEvent(e) {
      hide Reports, InProgress;
      if e.i < |s.pending| { ReadConsistent(s, b, t, e); }
    } else if e.TimerFires? {
      if e.id in s.armed { TimerConsistent(s, b, t, e.id); }
    } else if e.Navigates? {
      NavigatesConsistent(s, b, t, e);
    } else {
      WindowConsistent(s, b, t, e);
    }
  }

  lemma OverTallied(s: State, b: Login, e: Event, t: Tally)
    requires Finished(s, b)
    ensures Tallied(s, e, t) == t
  {
  }

  lemma NotBoth(s: State, b: Login)
    requires Finished(s, b)
    ensures !InProgress(s, b)
  {
  }

  lemma {:induction false} RunConsistent(s: State, b: Login, events: seq<Event>, t: Tally)
    requires Sound(s, b) && Consistent(s, b, t)
    ensures Reports(Run(s, events).emitted, TallyOf(s, events, t))
    decreases events
  {
    hide InProgress, Finished, Step, Tallied, Reports, Remembers;
    if events != [] {
      var u := Step(s, events[0]);
      if InProgress(s, b) {
        StepKeepsProgress(s, b, events[0]);
        StepConsistent(s, b, t, events[0]);
      } else {
        StepAfterEnd(s, b, events[0]);
        OverTallied(s, b, events[0], t);
        NotBoth(u, b);
      }
      RunConsistent(u, b, events[1..], Tallied(s, events[0], t));
    }
  }

  lemma StartedConsistent(s: State, b: Login)
    requires Drained(s)
    ensures Consistent(Started(s, b), b, Tally(0, []))
  {
    hide InProgress, OnlyProgress;
    StartedIs(s, b);
    var t := Started(s, b);
    assert t.emitted == [Status(Some(b.provider), Starting, "Opening login"),
                         Status(Some(b.provider), Navigating, "Loading")];
    CountAppend([], t.emitted[0]);
    CountAppend([t.emitted[0]], t.emitted[1]);
    assert [] + [t.emitted[0]] == [t.emitted[0]] && [t.emitted[0]] + [t.emitted[1]] == t.emitted;
  }

  /** Over every run of a login the statuses it shows add up: one at the start, one for the page it loads and one
    for each page it arrives at, one for each arrival at the place of success but the very first page, and one
    for every thirtieth poll. */
  lemma StatusesAddUp(s: State, b: Login, events: seq<Event>)
    requires Drained(s)
    ensures Reports(Run(Started(s, b), events).emitted, TallyOf(Started(s, b), events, Tally(0, [])))
  {
    BeginSound(s, b, Opened);
    StartedConsistent(s, b);
    hide Run, InProgress, Finished, Reports, TallyOf, Begin, Consistent;
    RunConsistent(Started(s, b), b, events, Tally(0, []));
  }

  /** What an opening shows, whatever was left over. */
  lemma OpeningShows(s: State, b: Login, opening: Opening)
    ensures var p, sts := Some(b.provider), Begin(Anew(s), b, opening).emitted;
            match opening
            case Opened => sts == [Status(p, Starting, "Opening login"), Status(p, Navigating, "Loading")]
            case ConstructorThrows(error) =>
              sts == [Status(p, Starting, "Opening login"), Status(p, Error, "Failed to open window: " + error)]
            case LoadThrows(error) =>
              sts == [Status(p, Starting, "Opening login"), Status(p, Navigating, "Loading"),
                      Status(p, Error, "Failed to open window: " + error)]
  {
  }

  /** Everything `s` held is released in `t`. */
  predicate Released(s: State, t: State) {
    && t.isCompleted && t.activeProviderId == None && t.window == None && t.headerCredentials == map[]
    && t.timeoutId == None && t.timeoutTimer == None && t.pollIntervalId == None
    && Handle(s.timeoutId) + Handle(s.timeoutTimer) + Handle(s.pollIntervalId) !! t.armed.Keys
  }

  lemma CleanupReleases(s: State, u: State)
    requires u.timeoutId == s.timeoutId && u.timeoutTimer == s.timeoutTimer && u.pollIntervalId == s.pollIntervalId
    ensures forall provider, kind, message, r ::
              Released(s, Settle(Emit(Cleanup(u), provider, kind, message), r))
  {
  }

  lemma CheckReleases(s: State, u: State)
    requires u.timeoutId == s.timeoutId && u.timeoutTimer == s.timeoutTimer && u.pollIntervalId == s.pollIntervalId
    requires u.settled == []
    ensures forall login, count, creds ::
              CheckCredentials(u, login, count, creds).settled != [] ==>
                Released(s, CheckCredentials(u, login, count, creds))
  {
    hide AllFound, Cleanup, Released;
    CleanupReleases(s, u);
  }

  lemma NoEndOnFailure(u: State)
    ensures forall login, count :: OnCookiesFailed(u, login, count).settled == u.settled
  {
  }

  lemma ReadEndReleases(s: State, e: Event)
    requires s.settled == [] && IsReadEvent(e) && Step(s, e).settled != []
    ensures Released(s, Step(s, e))
  {
    assert e.i < |s.pending|;
    CheckReleases(s, WithoutRead(s, e.i));
    hide CheckCredentials, WithCookies, HasStorage, HasWindow, Released, SchedulePoll;
    NoEndOnFailure(WithoutRead(s, e.i));
  }

  /** An end releases everything the manager held. */
  lemma EndReleases(s: State, e: Event)
    requires s.settled == [] && Step(s, e).settled != []
    ensures Released(s, Step(s, e))
  {
    if IsReadEvent(e) {
      ReadEndReleases(s, e);
    } else {
      hide CaptureHeaders, Cleanup, Released;
      CleanupReleases(s, s);
      if e.TimerFires? { CleanupReleases(s, s.(armed := s.armed - {e.id})); }
      if e.WindowClosed? && e.w < |s.windows| { CleanupReleases(s, WithStage(s, e.w, Closed)); }
    }
  }
}
