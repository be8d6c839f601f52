/** From one login to the next: exactly when what is left over of earlier logins is harmless, and what it
  does when it is not.
 */
module LoginSuccession {
  import opened JsString
  import opened Basics
  import opened LoginProtocol
  import opened LoginSafety

  // ---- When the next login is undisturbed ----

  /** What one login shows at any time: progress of its own, or a proper end. */
  ghost predicate Proper(s: State, login: Login) {
    (s.settled == [] && OnlyProgress(s.emitted, login)) || Ended(s, login)
  }

  lemma SoundIsProper(s: State, login: Login)
    requires Sound(s, login)
    ensures Proper(s, login)
  {
    hide Ended, OneThread;
  }

  predicate TimersKnown(s: State) { forall id :: id in s.armed ==> id < s.nextTimer }

  /** The next login `b` opens its window, whatever is left over in `s`. */
  function Started(s: State, b: Login): State { Begin(Anew(s), b, Opened) }

  ghost predicate IsStarted(t: State, s: State, b: Login) {
    var n := s.nextTimer;
    && !t.isCompleted && t.settled == [] && t.pending == s.pending && t.nextTimer == n + 2
    && t.headerCredentials == s.headerCredentials
    && t.windows == s.windows + [LoginWindow(b, true, false, Open)] && HasWindow(t)
    && t.timeoutId == Some(n) && t.timeoutTimer == Some(n + 1)
    && t.armed.Keys == s.armed.Keys + {n, n + 1}
    && t.armed[n].task == StartPolling && t.armed[n].login == b && t.armed[n + 1].task == OverallTimeout
  }

  /** The login has its start timer `i` and overall timeout `o`; both are armed. */
  ghost predicate HasOwnTimers(t: State, i: nat, o: nat) {
    && !t.isCompleted && TimersKnown(t) && i != o
    && t.timeoutId == Some(i) && i in t.armed && t.armed[i].task == StartPolling
    && t.timeoutTimer == Some(o) && o in t.armed && t.armed[o].task == OverallTimeout
  }

  lemma StartedIs(s: State, b: Login)
    ensures IsStarted(Started(s, b), s, b)
    ensures var t := Started(s, b); !t.isCompleted && t.settled == [] && t.pending == s.pending
    ensures TimersKnown(s) ==> HasOwnTimers(Started(s, b), s.nextTimer, s.nextTimer + 1)
  {
  }

  lemma RunCons(s: State, e: Event, rest: seq<Event>)
    ensures Run(s, [e] + rest) == Run(Step(s, e), rest)
  {
    hide Step;
    assert ([e] + rest)[1..] == rest;
  }

  lemma RunOne(s: State, e: Event)
    ensures Run(s, [e]) == Step(s, e)
  {
    hide Step;
    RunCons(s, e, []);
    assert [e] + [] == [e];
  }

  lemma StartTimerFires(t: State, b: Login, n: nat, o: nat)
    requires HasOwnTimers(t, n, o) && t.armed[n].login == b
    ensures Step(t, TimerFires(n)) == SchedulePoll(t.(armed := t.armed - {n}), b, 0, 0)
  {
  }

  lemma OverallTimerFires(t: State, o: nat)
    requires !t.isCompleted && o in t.armed && t.armed[o].task == OverallTimeout
    ensures var u := Step(t, TimerFires(o));
            && u.settled != []
            && u.armed == t.armed - {o} - Handle(t.timeoutId) - Handle(t.timeoutTimer) - Handle(t.pollIntervalId)
  {
  }

  /** A timer whose handle the manager does not hold outlives the login. */
  lemma StrayTimerShows(t: State, b: Login, i: nat, o: nat, x: nat)
    requires HasOwnTimers(t, i, o) && x in t.armed && x != i && x != o
    ensures !Proper(Run(t, [TimerFires(i), TimerFires(o)]), b)
  {
    StartTimerFires(t, t.armed[i].login, i, o);
    var t1 := Step(t, TimerFires(i));
    assert x in t1.armed && t1.pollIntervalId == Some(t.nextTimer) && o in t1.armed && !t1.isCompleted;
    hide Step, OnlyProgress;
    OverallTimerFires(t1, o);
    assert x in Step(t1, TimerFires(o)).armed;
    RunCons(t, TimerFires(i), [TimerFires(o)]);
    RunOne(t1, TimerFires(o));
    assert [TimerFires(i)] + [TimerFires(o)] == [TimerFires(i), TimerFires(o)];
  }

  /** A login of another provider, one that asks for nothing. */
  function Other(a: Login): Login { Login(a.provider + "x", Config([], 0, 0, 0)) }

  /** The failure of the read at `i`. */
  function Fails(t: State, i: nat): Event
    requires i < |t.pending|
  {
    if t.pending[i].CookieRead? then CookiesFail(i) else StorageFails(i)
  }

  /** A read that is left over either settles the login at once or goes on as a second poll. */
  lemma FailedReadShows(t: State, i: nat)
    requires i < |t.pending| && !t.isCompleted && t.settled == []
    ensures var read, t1 := t.pending[i], Step(t, Fails(t, i));
            if t1.settled == [] then
              t1 == SchedulePoll(WithoutRead(t, i), read.login, read.count,
                                 PositiveOr(read.login.config.pollInterval, 1000))
            else t1.emitted != [] && t1.emitted[|t1.emitted| - 1] ==
                 Status(Some(read.login.provider), Complete, "Credentials extracted successfully")
  {
    hide AllFound, Cleanup;
  }

  lemma NotItsOwnEnd(t: State, b: Login)
    requires t.settled != [] && t.emitted != []
    requires var st := t.emitted[|t.emitted| - 1]; st.message != "Login cancelled" && st.provider != Some(b.provider)
    ensures !Proper(t, b)
  {
    hide OnlyProgress;
  }

  lemma SecondPoll(t: State, r: nat, i: nat, o: nat, a: Login, count: nat, delay: nat)
    requires HasOwnTimers(t, i, o) && r < |t.pending|
    ensures var t1 := SchedulePoll(WithoutRead(t, r), a, count, delay);
            HasOwnTimers(t1, i, o) && t.nextTimer in t1.armed && t.nextTimer != i && t.nextTimer != o
  {
  }

  lemma SecondPollShows(t: State, b: Login, r: nat, i: nat, o: nat)
    requires HasOwnTimers(t, i, o) && r < |t.pending| && t.settled == [] && Step(t, Fails(t, r)).settled == []
    ensures !Proper(Run(t, [Fails(t, r)] + [TimerFires(i), TimerFires(o)]), b)
  {
    var read, t1 := t.pending[r], Step(t, Fails(t, r));
    assert !t.isCompleted;
    FailedReadShows(t, r);
    hide Step, Run, Proper, HasOwnTimers, SchedulePoll, WithoutRead, Fails;
    SecondPoll(t, r, i, o, read.login, read.count, PositiveOr(read.login.config.pollInterval, 1000));
    StrayTimerShows(t1, b, i, o, t.nextTimer);
    RunCons(t, Fails(t, r), [TimerFires(i), TimerFires(o)]);
  }

  lemma WrongEndShows(t: State, b: Login, r: nat)
    requires !t.isCompleted && r < |t.pending| && t.settled == [] && Step(t, Fails(t, r)).settled != []
    requires t.pending[r].login.provider != b.provider
    ensures !Proper(Run(t, [Fails(t, r)]), b)
  {
    FailedReadShows(t, r);
    hide Step, Run, Proper, Fails;
    NotItsOwnEnd(Step(t, Fails(t, r)), b);
    RunOne(t, Fails(t, r));
  }

  lemma ReadShows(s: State, r: nat) returns (b: Login, events: seq<Event>)
    requires TimersKnown(s) && r < |s.pending|
    ensures !Proper(Run(Started(s, b), events), b)
  {
    hide Started, Step, Run, Proper, HasOwnTimers, IsStarted, TimersKnown;
    b := Other(s.pending[r].login);
    StartedIs(s, b);
    var t, n := Started(s, b), s.nextTimer;
    if Step(t, Fails(t, r)).settled == [] {
      SecondPollShows(t, b, r, n, n + 1);
      events := [Fails(t, r)] + [TimerFires(n), TimerFires(n + 1)];
    } else {
      WrongEndShows(t, b, r);
      events := [Fails(t, r)];
    }
  }

  lemma TimerShows(s: State, x: nat) returns (b: Login, events: seq<Event>)
    requires TimersKnown(s) && x in s.armed
    ensures !Proper(Run(Started(s, b), events), b)
  {
    b := Other(s.armed[x].login);
    StartedIs(s, b);
    hide Started, Step, Run, Proper, HasOwnTimers;
    StrayTimerShows(Started(s, b), b, s.nextTimer, s.nextTimer + 1, x);
    events := [TimerFires(s.nextTimer), TimerFires(s.nextTimer + 1)];
  }

  lemma NotEnded(t: State, b: Login)
    requires t.settled == []
    ensures !Ended(t, b)
  {
  }

  lemma PageShows(t: State, b: Login, w: nat)
    requires !t.isCompleted && t.settled == [] && w < |t.windows| && !Silent(t.windows[w])
    requires t.windows[w].login.provider != b.provider
    ensures !Proper(Step(t, if t.windows[w].stage == Open then Navigates(w, true, false) else WindowClosed(w)), b)
  {
    hide Cleanup, Ended;
    var page := t.windows[w];
    if page.stage == Open {
      var t1 := OnNavigate(t, w, true, false);
      assert t1.emitted[|t1.emitted| - 1] in t1.emitted;
      NotEnded(t1, b);
    } else {
      NotItsOwnEnd(OnClosed(WithStage(t, w, Closed), page.login), b);
    }
  }

  lemma WindowShows(s: State, w: nat) returns (b: Login, events: seq<Event>)
    requires w < |s.windows| && !Silent(s.windows[w])
    ensures !Proper(Run(Started(s, b), events), b)
  {
    hide Started, Step, Run, Proper, HasOwnTimers;
    b := Other(s.windows[w].login);
    StartedIs(s, b);
    PageShows(Started(s, b), b, w);
    var e := if s.windows[w].stage == Open then Navigates(w, true, false) else WindowClosed(w);
    RunOne(Started(s, b), e);
    events := [e];
  }

  /** A manager is ready for any next login exactly when nothing of the earlier ones can still act: no timer
    is armed, no read is in flight, and every earlier window has closed. */
  lemma NextLoginSafeIff(s: State)
    requires TimersKnown(s)
    ensures (forall b: Login, events: seq<Event> :: Proper(Run(Started(s, b), events), b)) <==> Drained(s)
  {
    hide Proper, Run, Begin, Sound;
    if Drained(s) {
      forall b: Login, events: seq<Event> ensures Proper(Run(Started(s, b), events), b) {
        LoginIsSafe(s, b, Opened, events);
        SoundIsProper(Run(Started(s, b), events), b);
      }
    } else if s.armed != map[] {
      var x :| x in s.armed;
      var b, events := TimerShows(s, x);
    } else if s.pending != [] {
      var b, events := ReadShows(s, 0);
    } else {
      var w :| 0 <= w < |s.windows| && !Silent(s.windows[w]);
      var b, events := WindowShows(s, w);
    }
  }

  lemma TimerKeepsWindows(s: State, t: Timer)
    ensures OnTimer(s, t).windows == s.windows
  {
  }

  lemma ReadKeepsWindows(s: State, login: Login, count: nat)
    ensures forall cookies :: OnCookies(s, login, count, cookies).windows == s.windows
    ensures OnCookiesFailed(s, login, count).windows == s.windows
    ensures forall found, values :: OnStorage(s, login, count, found, values).windows == s.windows
  {
    hide AllFound, HasStorage, WithCookies;
  }

  lemma WhatEnds(s: State, e: Event)
    requires s.settled == [] && Step(s, e).settled != []
    ensures var t := Step(s, e);
            if e.WindowClosed?
            then && e.w < |s.windows| && s.windows[e.w].handlesClose && s.windows[e.w].stage != Closed
                 && t.pending == s.pending && t.windows == WithStage(s, e.w, Closed).windows
            else t.windows == s.windows
  {
    hide OnCookies, OnCookiesFailed, OnStorage, OnTimer;
    if IsReadEvent(e) {
      if e.i < |s.pending| { ReadKeepsWindows(WithoutRead(s, e.i), s.pending[e.i].login, s.pending[e.i].count); }
    } else if e.TimerFires? && e.id in s.armed {
      TimerKeepsWindows(s.(armed := s.armed - {e.id}), s.armed[e.id]);
    }
  }

  /** Only a login ended by the closing of its own window, between two reads, leaves nothing behind. After
    every other end a new login has to wait: for the window to close, and for a read in flight. */
  lemma EndDrainsIff(s: State, login: Login, e: Event)
    requires InProgress(s, login) && Step(s, e).settled != []
    ensures Drained(Step(s, e)) <==> e.WindowClosed? && s.pending == []
  {
    hide Step, OneThread, Corresponds, OnlyProgress, AllFound;
    StepKeepsProgress(s, login, e);
    WhatEnds(s, e);
    assert Step(s, e).armed == map[];
    assert !Silent(s.windows[|s.windows| - 1]);
    if e.WindowClosed? { assert !Silent(s.windows[e.w]); }
  }

  lemma ClosedAfterEnd(t: State, w: nat)
    requires t.isCompleted && w < |t.windows|
    ensures Step(t, WindowClosed(w)) == WithStage(t, w, Closed)
  {
  }

  lemma EndThenClose(s: State, login: Login, e: Event)
    requires InProgress(s, login) && Step(s, e).settled != []
    ensures s.windows != []
    ensures var t := Step(s, e);
            var u := Step(t, WindowClosed(|s.windows| - 1));
            u.armed == map[] && (Drained(u) <==> t.pending == [])
  {
    hide Step, Corresponds, OnlyProgress, AllFound, OneThread;
    StepKeepsProgress(s, login, e);
    WhatEnds(s, e);
    var t, own := Step(s, e), |s.windows| - 1;
    if e.WindowClosed? { assert !Silent(s.windows[e.w]); }
    ClosedAfterEnd(t, own);
  }

  /** Once the window of a login that is over has closed, whatever ended it, every next login is undisturbed
    exactly when no read was in flight at the end. */
  lemma EndThenCloseSafeIff(s: State, login: Login, e: Event)
    requires InProgress(s, login) && Step(s, e).settled != []
    ensures var t := Step(s, e);
            var u := Step(t, WindowClosed(|s.windows| - 1));
            (forall b: Login, events: seq<Event> :: Proper(Run(Started(u, b), events), b)) <==> t.pending == []
  {
    EndThenClose(s, login, e);
    hide Step, InProgress, Proper, Run, Started;
    NextLoginSafeIff(Step(Step(s, e), WindowClosed(|s.windows| - 1)));
  }

  lemma CookiesSettle(t: State, i: nat, cookies: seq<CookieRecord>)
    requires !t.isCompleted && HasWindow(t) && t.settled == [] && i < |t.pending| && t.pending[i].CookieRead?
    ensures var a, r := t.pending[i].login, Step(t, CookiesArrive(i, cookies));
            var creds := WithCookies(Known(t.headerCredentials), CookieSources(a.config.sources), cookies);
            if !HasStorage(a.config.sources) && AllFound(a.config, creds)
            then r.settled == [Success(creds)]
                 && r.emitted == t.emitted
                                 + [Status(Some(a.provider), Complete, "Credentials extracted successfully")]
            else r.settled == []
  {
    hide WithCookies, AllFound, HasStorage;
  }

  /** What the next login suffers from a cookie read of an earlier login: the read settles it, with the
    earlier login's name and cookies, exactly when it asks for no storage entry and the jar and the captured
    headers deliver all it asks for. */
  lemma LeftoverCookiesSettleIff(s: State, b: Login, i: nat, cookies: seq<CookieRecord>)
    requires i < |s.pending| && s.pending[i].CookieRead?
    ensures var a, started := s.pending[i].login, Started(s, b);
            var t := Step(started, CookiesArrive(i, cookies));
            var creds := WithCookies(Known(s.headerCredentials), CookieSources(a.config.sources), cookies);
            && (t.settled != [] <==>
                !HasStorage(a.config.sources) && (a.config.sources != [] || s.headerCredentials != map[])
                && forall source :: source in a.config.sources ==> Delivered(started, a, cookies, source.key))
            && (t.settled != [] ==>
                t.settled == [Success(creds)]
                && t.emitted == started.emitted
                                + [Status(Some(a.provider), Complete, "Credentials extracted successfully")])
  {
    StartedIs(s, b);
    var t, a := Started(s, b), s.pending[i].login;
    FoundIffDelivered(t, a, cookies);
    hide Started, Delivered, AllFound, WithCookies, HasStorage;
    CookiesSettle(t, i, cookies);
  }

  /** A storage read that is left over settles the next login exactly when it brings the last of what its own
    login asked for. */
  lemma LeftoverStorageSettlesIff(s: State, b: Login, i: nat, values: Option<Credentials>)
    requires i < |s.pending| && s.pending[i].StorageRead?
    ensures var a, found, started := s.pending[i].login, s.pending[i].found, Started(s, b);
            var t := Step(started, StorageArrives(i, values));
            && (t.settled != [] <==> AllBrought(a.config.sources, found, values))
            && (t.settled != [] ==>
                t.settled == [Success(WithValues(found, values))]
                && t.emitted == started.emitted
                                + [Status(Some(a.provider), Complete, "Credentials extracted successfully")])
  {
    hide Started, Step, AllBrought, WithValues;
    StartedIs(s, b);
    StorageSettles(Started(s, b), i, values);
  }

  /** The close handler of an earlier window ends the next login, whose own window stays open. */
  lemma StaleCloseEndsNextLogin(s: State, b: Login, w: nat)
    requires w < |s.windows| && s.windows[w].handlesClose && s.windows[w].stage != Closed
    ensures var started := Started(s, b);
            var t := Step(started, WindowClosed(w));
            && t.settled == [Failure("Login window closed")]
            && t.emitted == started.emitted
                            + [Status(Some(s.windows[w].login.provider), Cancelled, "Login window closed by user")]
            && t.windows[|s.windows|] == LoginWindow(b, true, false, Open)
  {
    StartedIs(s, b);
    hide Started;
  }
}
