/** What one login keeps: at most one thread of callbacks carries it on, it ends once, and what a success
  delivers. The theorems hold for every order of events from a manager on which nothing is left over.
 */
module LoginSafety {
  import opened JsString
  import opened Basics
  import opened LoginProtocol

  // ---- The invariant of one run ----

  /** No handler of this window can act any more, except that its session may send requests. */
  predicate Silent(page: LoginWindow) {
    page.stage == Closed || (page.stage == Destroyed && !page.handlesClose)
  }

  /** Nothing of an earlier login can still act: no timer, no read in flight, no window. */
  predicate Drained(s: State) {
    s.armed == map[] && s.pending == [] && forall w :: 0 <= w < |s.windows| ==> Silent(s.windows[w])
  }

  /** The same manager; what is observed is counted from here. */
  function Anew(s: State): State { s.(emitted := [], settled := []) }

  predicate OnlyProgress(sts: seq<Status>, login: Login) {
    forall st :: st in sts ==> !IsTerminal(st) && st.provider == Some(login.provider)
  }

  /** The timer `id` carries the login on. */
  ghost predicate IsDriver(s: State, login: Login, id: nat)
    requires id in s.armed
  {
    && s.armed[id].login == login
    && match s.armed[id].task
       case StartPolling => s.timeoutId == Some(id)
       case Poll(_) => s.pollIntervalId == Some(id)
       case OverallTimeout => false
  }

  /** Exactly one of start timer, poll timer, cookie read and storage read is pending; the only other
    thing pending is the overall timeout `o`. */
  ghost predicate OneThread(s: State, login: Login, o: nat) {
    || (s.pending == [] && exists id :: id != o && s.armed.Keys == {o, id} && IsDriver(s, login, id))
    || (|s.pending| == 1 && s.armed.Keys == {o} && s.pending[0].login == login
        && (s.pending[0].StorageRead? ==> NoNull(s.pending[0].found)))
  }

  /** The newest window is the login's own and the manager holds it; the older ones are silent. */
  predicate OwnsWindow(window: Option<nat>, windows: seq<LoginWindow>, login: Login) {
    && windows != []
    && var own := |windows| - 1;
       && window == Some(own)
       && windows[own].login == login && windows[own].handlesClose && windows[own].stage != Closed
       && forall w :: 0 <= w < own ==> Silent(windows[w])
  }

  ghost predicate Live(s: State, login: Login) {
    && !s.isCompleted
    && s.settled == []
    && OnlyProgress(s.emitted, login)
    && s.activeProviderId == Some(login.provider)
    && OwnsWindow(s.window, s.windows, login)
    && (forall id :: id in s.armed ==> id < s.nextTimer)
    && s.timeoutTimer.Some?
    && s.timeoutTimer.value in s.armed
    && s.armed[s.timeoutTimer.value] == Timer(OverallTimeout, login, PositiveOr(login.config.timeout, 300000))
  }

  ghost predicate InProgress(s: State, login: Login) {
    Live(s, login) && OneThread(s, login, s.timeoutTimer.value)
  }

  /** Closed by the user is only reported of the newest window. */
  predicate ClosedIsOwn(windows: seq<LoginWindow>, st: Status) {
    st.message == "Login window closed by user" ==> windows != [] && windows[|windows| - 1].stage == Closed
  }

  /** What is seen of a login that is over: one final status, emitted last, the one settlement it stands
    for, and no timer. Every status names the provider except that of a cancellation. */
  ghost predicate Ended(s: State, login: Login) {
    && s.armed == map[]
    && s.emitted != []
    && var last := s.emitted[|s.emitted| - 1];
       && OnlyProgress(s.emitted[..|s.emitted| - 1], login)
       && |s.settled| == 1 && Corresponds(last, s.settled[0])
       && last.provider == (if last.message == "Login cancelled" then None else Some(login.provider))
       && ClosedIsOwn(s.windows, last)
       && (s.settled[0].Success? ==> AllFound(login.config, s.settled[0].credentials))
  }

  ghost predicate Finished(s: State, login: Login) {
    s.isCompleted && |s.pending| <= 1 && s.activeProviderId == None && Ended(s, login)
  }

  ghost predicate Sound(s: State, login: Login) { InProgress(s, login) || Finished(s, login) }

  // ---- Every transition keeps it ----

  /** The state inside a callback that was carrying the login on: only the overall timeout is pending. */
  ghost predicate Between(s: State, login: Login) {
    Live(s, login) && s.pending == [] && s.armed.Keys == {s.timeoutTimer.value}
  }

  lemma FinishSound(s: State, login: Login, st: Status, r: Result)
    requires !s.isCompleted && s.settled == [] && OnlyProgress(s.emitted, login) && |s.pending| <= 1
    requires s.armed.Keys <= Handle(s.timeoutId) + Handle(s.timeoutTimer) + Handle(s.pollIntervalId)
    requires Corresponds(st, r) && ClosedIsOwn(s.windows, st)
    requires st.provider == if st.message == "Login cancelled" then None else Some(login.provider)
    requires r.Success? ==> AllFound(login.config, r.credentials)
    ensures Finished(Finish(s, st, r), login)
  {
    var t := Finish(s, st, r);
    assert t.armed.Keys == {};
    assert t.emitted[..|t.emitted| - 1] == s.emitted;
  }

  /** Whatever carries the login on, the manager still holds the handle of every armed timer. */
  lemma HandlesCoverArmed(s: State, login: Login)
    requires InProgress(s, login)
    ensures s.armed.Keys <= Handle(s.timeoutId) + Handle(s.timeoutTimer) + Handle(s.pollIntervalId)
    ensures |s.pending| <= 1
  {
    hide OwnsWindow, OnlyProgress, NoNull;
  }

  lemma OnPollSound(s: State, login: Login, count: nat)
    requires Between(s, login)
    ensures InProgress(OnPoll(s, login, count), login)
  {
    hide OwnsWindow;
  }

  lemma SchedulePollSound(s: State, login: Login, count: nat, delay: nat)
    requires Between(s, login)
    ensures InProgress(SchedulePoll(s, login, count, delay), login)
  {
    hide OwnsWindow, OnlyProgress;
    var t := SchedulePoll(s, login, count, delay);
    assert t.armed.Keys == {s.timeoutTimer.value, s.nextTimer};
    assert IsDriver(t, login, s.nextTimer);
  }

  lemma CheckCredentialsSound(s: State, login: Login, count: nat, creds: Credentials)
    requires Between(s, login)
    ensures Sound(CheckCredentials(s, login, count, creds), login)
  {
    hide InProgress, Finished, OwnsWindow, AllFound;
    if AllFound(login.config, creds) {
      FinishSound(s, login, Status(Some(login.provider), Complete, "Credentials extracted successfully"),
                  Success(creds));
    } else {
      SchedulePollSound(s, login, count, PositiveOr(login.config.pollInterval, 1000));
    }
  }

  lemma {:induction false} WithCookiesNoNull(creds: Credentials, wanted: seq<TokenSource>, cookies: seq<CookieRecord>)
    requires NoNull(creds)
    ensures NoNull(WithCookies(creds, wanted, cookies))
    decreases wanted
  {
    if wanted != [] {
      var found := FindCookie(wanted[0], cookies);
      WithCookiesNoNull(if found.Some? then creds[wanted[0].key := found] else creds, wanted[1..], cookies);
    }
  }

  lemma OverallTimeoutSound(s: State, login: Login)
    requires InProgress(s, login)
    ensures var t := Step(s, TimerFires(s.timeoutTimer.value));
            Finished(t, login) && t.settled == [Failure("Login timed out")]
  {
    HandlesCoverArmed(s, login);
    hide Finished, OwnsWindow, OneThread;
    FinishSound(s.(armed := s.armed - {s.timeoutTimer.value}), login,
                Status(Some(login.provider), Error, "Login timed out"), Failure("Login timed out"));
  }

  lemma DriverSound(s: State, login: Login, id: nat)
    requires InProgress(s, login) && id in s.armed && id != s.timeoutTimer.value
    ensures Sound(Step(s, TimerFires(id)), login)
  {
    hide OwnsWindow, Finished;
    var s1 := s.(armed := s.armed - {id});
    assert IsDriver(s, login, id);
    assert s1.armed.Keys == {s.timeoutTimer.value};
    assert Between(s1, login);
    match s.armed[id].task
    case StartPolling => SchedulePollSound(s1, login, 0, 0);
    case Poll(count) => OnPollSound(s1, login, count);
    case _ =>
  }

  lemma TimerSound(s: State, login: Login, id: nat)
    requires InProgress(s, login) && id in s.armed
    ensures Sound(Step(s, TimerFires(id)), login)
  {
    assert s.timeoutTimer.Some?;
    hide InProgress, Finished, Step;
    if id == s.timeoutTimer.value { OverallTimeoutSound(s, login); } else { DriverSound(s, login, id); }
  }

  lemma ReadFailsSound(s: State, login: Login, i: nat)
    requires InProgress(s, login) && i < |s.pending|
    ensures s.pending[i].CookieRead? ==> Sound(Step(s, CookiesFail(i)), login)
    ensures s.pending[i].StorageRead? ==> Sound(Step(s, StorageFails(i)), login)
  {
    hide OwnsWindow, Finished, CheckCredentials;
    var read, s1 := s.pending[0], WithoutRead(s, 0);
    assert Between(s1, login);
    if read.CookieRead? {
      SchedulePollSound(s1, login, read.count, PositiveOr(login.config.pollInterval, 1000));
    } else {
      CheckCredentialsSound(s1, login, read.count, read.found);
    }
  }

  lemma CookiesSound(s: State, login: Login, i: nat, cookies: seq<CookieRecord>)
    requires InProgress(s, login) && i < |s.pending| && s.pending[i].CookieRead?
    ensures Sound(Step(s, CookiesArrive(i, cookies)), login)
  {
    hide OwnsWindow, Finished, CheckCredentials, WithCookies, HasWindow;
    var s1 := WithoutRead(s, 0);
    assert Between(s1, login);
    WithCookiesNoNull(Known(s.headerCredentials), CookieSources(login.config.sources), cookies);
    CheckCredentialsSound(s1, login, s.pending[0].count,
                          WithCookies(Known(s.headerCredentials), CookieSources(login.config.sources), cookies));
  }

  lemma StorageSound(s: State, login: Login, i: nat, values: Option<Credentials>)
    requires InProgress(s, login) && i < |s.pending| && s.pending[i].StorageRead?
    ensures Sound(Step(s, StorageArrives(i, values)), login)
  {
    hide OwnsWindow, Finished, CheckCredentials;
    var read, s1 := s.pending[0], WithoutRead(s, 0);
    assert Between(s1, login);
    CheckCredentialsSound(s1, login, read.count, if values.Some? then read.found + values.value else read.found);
  }

  lemma SameThread(s: State, t: State, login: Login)
    requires InProgress(s, login)
    requires t.pending == s.pending && t.armed == s.armed
    requires t.timeoutId == s.timeoutId && t.pollIntervalId == s.pollIntervalId
    ensures OneThread(t, login, s.timeoutTimer.value)
  {
    if s.pending == [] {
      var id :| id != s.timeoutTimer.value && s.armed.Keys == {s.timeoutTimer.value, id} && IsDriver(s, login, id);
      assert IsDriver(t, login, id);
    }
  }

  lemma ProgressEmitted(sts: seq<Status>, st: Status, login: Login)
    requires OnlyProgress(sts, login) && !IsTerminal(st) && st.provider == Some(login.provider)
    ensures OnlyProgress(sts + [st], login)
  {
  }

  lemma PageNavigated(window: Option<nat>, windows: seq<LoginWindow>, login: Login, w: nat)
    requires OwnsWindow(window, windows, login) && w < |windows| && windows[w].stage == Open
    ensures windows[w].login == login
    ensures OwnsWindow(window, windows[w := windows[w].(navigatedToLogin := true)], login)
  {
  }

  lemma NavigatesSound(s: State, login: Login, w: nat, validUrl: bool, isSuccessUrl: bool)
    requires InProgress(s, login) && w < |s.windows| && s.windows[w].stage == Open
    ensures InProgress(OnNavigate(s, w, validUrl, isSuccessUrl), login)
  {
    hide OneThread, OwnsWindow, OnlyProgress;
    PageNavigated(s.window, s.windows, login, w);
    var detected, navigated := Status(Some(login.provider), Detected, "Login page redirect detected"),
                               Status(Some(login.provider), Navigating, "Navigated");
    ProgressEmitted(s.emitted, detected, login);
    ProgressEmitted(s.emitted, navigated, login);
    ProgressEmitted(s.emitted + [detected], navigated, login);
    SameThread(s, OnNavigate(s, w, validUrl, isSuccessUrl), login);
  }

  lemma StageSound(s: State, login: Login, w: nat)
    requires InProgress(s, login) && w < |s.windows| && s.windows[w].stage == Open
    ensures InProgress(WithStage(s, w, Destroyed), login)
  {
    hide OneThread;
    SameThread(s, WithStage(s, w, Destroyed), login);
  }

  lemma HeadersSound(s: State, login: Login, of: Login, headers: seq<(string, string)>)
    requires InProgress(s, login)
    ensures InProgress(OnHeaders(s, of, headers), login)
  {
    hide OneThread, OwnsWindow, CaptureHeaders;
    SameThread(s, OnHeaders(s, of, headers), login);
  }

  lemma OwnClosedSound(s: State, login: Login)
    requires InProgress(s, login)
    ensures var own := |s.windows| - 1;
            Finished(OnClosed(WithStage(s, own, Closed), login), login)
  {
    HandlesCoverArmed(s, login);
    hide Finished, OneThread;
    FinishSound(WithStage(s, |s.windows| - 1, Closed), login,
                Status(Some(login.provider), Cancelled, "Login window closed by user"), Failure("Login window closed"));
  }

  lemma OldClosedSound(s: State, login: Login, w: nat)
    requires InProgress(s, login) && w < |s.windows| - 1
    ensures InProgress(WithStage(s, w, Closed), login)
  {
    hide OneThread;
    SameThread(s, WithStage(s, w, Closed), login);
  }

  lemma OwnOrSilent(s: State, login: Login, w: nat)
    requires InProgress(s, login) && w < |s.windows|
    ensures if w == |s.windows| - 1 then s.windows[w].handlesClose && s.windows[w].login == login
            else Silent(s.windows[w])
  {
    hide OneThread;
  }

  /** While a login is in progress only its own window can still close with effect. */
  lemma ClosedSound(s: State, login: Login, w: nat)
    requires InProgress(s, login) && w < |s.windows| && s.windows[w].stage != Closed
    ensures Sound(Step(s, WindowClosed(w)), login)
  {
    hide InProgress, Finished, OnClosed, WithStage;
    OwnOrSilent(s, login, w);
    if w == |s.windows| - 1 { OwnClosedSound(s, login); } else { OldClosedSound(s, login, w); }
  }

  lemma CancelSound(s: State, login: Login)
    requires InProgress(s, login)
    ensures Sound(Cancel(s), login)
  {
    HandlesCoverArmed(s, login);
    hide Finished, OneThread, OwnsWindow;
    if IsActive(s) {
      FinishSound(s, login, Status(None, Cancelled, "Login cancelled"), Failure("Login cancelled"));
    }
  }

  lemma StepKeepsProgress(s: State, login: Login, e: Event)
    requires InProgress(s, login)
    ensures Sound(Step(s, e), login)
  {
    hide InProgress, Finished, OnTimer, OnCookies, OnCookiesFailed, OnStorage, OnNavigate, OnHeaders, OnClosed, Cancel;
    match e
    case TimerFires(id) => if id in s.armed { TimerSound(s, login, id); }
    case CookiesArrive(i, cookies) =>
      if i < |s.pending| && s.pending[i].CookieRead? { CookiesSound(s, login, i, cookies); }
    case CookiesFail(i) => if i < |s.pending| { ReadFailsSound(s, login, i); }
    case StorageArrives(i, values) =>
      if i < |s.pending| && s.pending[i].StorageRead? { StorageSound(s, login, i, values); }
    case StorageFails(i) => if i < |s.pending| { ReadFailsSound(s, login, i); }
    case Navigates(w, validUrl, isSuccessUrl) =>
      if w < |s.windows| && s.windows[w].stage == Open { NavigatesSound(s, login, w, validUrl, isSuccessUrl); }
    case SendsHeaders(w, headers) =>
      if w < |s.windows| { HeadersSound(s, login, s.windows[w].login, headers); }
    case WindowDestroyed(w) =>
      if w < |s.windows| && s.windows[w].stage == Open { StageSound(s, login, w); }
    case WindowClosed(w) =>
      if w < |s.windows| && s.windows[w].stage != Closed { ClosedSound(s, login, w); }
    case CancelRequested => CancelSound(s, login);
  }

  predicate IsReadEvent(e: Event) {
    e.CookiesArrive? || e.CookiesFail? || e.StorageArrives? || e.StorageFails?
  }

  lemma ReadAfterEnd(s: State, e: Event)
    requires s.isCompleted && IsReadEvent(e)
    ensures Step(s, e) == s || (e.i < |s.pending| && Step(s, e) == WithoutRead(s, e.i))
  {
  }

  /** No window is opened, and a closed one stays closed. */
  predicate WindowsMoveOn(before: seq<LoginWindow>, after: seq<LoginWindow>) {
    && |after| == |before|
    && forall w :: 0 <= w < |before| ==>
         after[w].login == before[w].login && (before[w].stage == Closed ==> after[w].stage == Closed)
  }

  lemma OtherAfterEnd(s: State, e: Event)
    requires s.isCompleted && s.activeProviderId == None && s.armed == map[] && !IsReadEvent(e)
    ensures var t := Step(s, e);
            t == s.(windows := t.windows, headerCredentials := t.headerCredentials)
            && WindowsMoveOn(s.windows, t.windows)
  {
    hide CaptureHeaders;
  }

  /** Nothing that still arrives after the end is seen: no status, no settlement, no timer. */
  lemma StepAfterEnd(s: State, login: Login, e: Event)
    requires Finished(s, login)
    ensures var t := Step(s, e);
            Finished(t, login) && t.emitted == s.emitted && t.settled == s.settled && t.armed == map[]
  {
    hide Step;
    if IsReadEvent(e) { ReadAfterEnd(s, e); } else { OtherAfterEnd(s, e); }
  }

  lemma ArmLoginTimersSound(s: State, login: Login)
    requires !s.isCompleted && s.settled == [] && OnlyProgress(s.emitted, login)
    requires s.activeProviderId == Some(login.provider) && OwnsWindow(s.window, s.windows, login)
    requires s.armed == map[] && s.pending == []
    ensures InProgress(ArmLoginTimers(s, login), login)
  {
    hide OwnsWindow;
    var t := ArmLoginTimers(s, login);
    assert t.armed.Keys == {s.nextTimer, s.nextTimer + 1};
    assert IsDriver(t, login, s.nextTimer);
  }

  lemma FailToOpenSound(s: State, login: Login, error: string)
    requires !s.isCompleted && s.settled == [] && OnlyProgress(s.emitted, login)
    requires s.armed == map[] && s.pending == []
    ensures Finished(FailToOpen(s, login.provider, error), login)
    ensures FailToOpen(s, login.provider, error).settled == [Failure(error)]
  {
    var st := Status(Some(login.provider), Error, "Failed to open window: " + error);
    assert st.message[0] == 'F' && st.message != "Login cancelled" && st.message != "Login window closed by user";
    FinishSound(s, login, st, Failure(error));
  }

  lemma {:induction false} BeginSound(s: State, login: Login, opening: Opening)
    requires Drained(s)
    ensures var t := Begin(Anew(s), login, opening);
            if opening.Opened? then InProgress(t, login)
            else Finished(t, login) && t.settled == [Failure(opening.error)]
  {
    hide Finished, InProgress, Cleanup, ArmLoginTimers;
    var s1 := Emit(Anew(s).(activeProviderId := Some(login.provider), isCompleted := false),
                   Some(login.provider), Starting, "Opening login");
    match opening
    case Opened =>
      ArmLoginTimersSound(OpenLoginWindow(s1, login, true), login);
    case ConstructorThrows(error) =>
      FailToOpenSound(s1, login, error);
    case LoadThrows(error) =>
      FailToOpenSound(OpenLoginWindow(s1, login, false), login, error);
  }

  // ---- Whole runs ----

  lemma {:induction false} RunKeepsSound(s: State, login: Login, events: seq<Event>)
    requires Sound(s, login)
    ensures Sound(Run(s, events), login)
    decreases events
  {
    hide InProgress, Finished, Step;
    if events != [] {
      if InProgress(s, login) { StepKeepsProgress(s, login, events[0]); } else { StepAfterEnd(s, login, events[0]); }
      RunKeepsSound(Step(s, events[0]), login, events[1..]);
    }
  }

  /** Safety of every interleaving of one login's events. */
  lemma LoginIsSafe(s: State, login: Login, opening: Opening, events: seq<Event>)
    requires Drained(s)
    ensures Sound(Run(Begin(Anew(s), login, opening), events), login)
  {
    hide InProgress, Finished, Begin, Run;
    BeginSound(s, login, opening);
    RunKeepsSound(Begin(Anew(s), login, opening), login, events);
  }

  lemma FinishedIsEnded(s: State, login: Login)
    requires Finished(s, login)
    ensures Ended(s, login) && s.armed == map[]
  {
  }

  /** What is settled stays settled, whatever arrives later. */
  lemma {:induction false} SettledForGood(s: State, login: Login, later: seq<Event>)
    requires Finished(s, login)
    ensures var t := Run(s, later); t.emitted == s.emitted && t.settled == s.settled && t.armed == map[]
    decreases later
  {
    hide Finished, Step;
    if later != [] {
      StepAfterEnd(s, login, later[0]);
      SettledForGood(Step(s, later[0]), login, later[1..]);
    } else {
      FinishedIsEnded(s, login);
    }
  }

  /** A login never hangs: while it is in progress its overall timeout is armed, and firing it ends it. */
  lemma TimeoutEndsLogin(s: State, login: Login)
    requires InProgress(s, login)
    ensures var t := Step(s, TimerFires(s.timeoutTimer.value));
            Finished(t, login) && t.settled == [Failure("Login timed out")]
  {
    OverallTimeoutSound(s, login);
  }

  // ---- Whom the statuses name ----

  lemma PollSettlesNothing(s: State, login: Login, count: nat)
    ensures OnPoll(s, login, count).settled == s.settled
  {
  }

  lemma CancelEndsLogin(s: State, login: Login)
    requires InProgress(s, login)
    ensures Step(s, CancelRequested).settled != [] <==> login.provider != ""
  {
    hide OneThread, OwnsWindow, OnlyProgress;
  }

  lemma ReadEndNames(s: State, e: Event)
    requires s.settled == [] && IsReadEvent(e) && Step(s, e).settled != []
    ensures Step(s, e).emitted != [] && Step(s, e).emitted[|Step(s, e).emitted| - 1].provider.Some?
  {
    hide AllFound, WithCookies, HasStorage, Cleanup;
  }

  /** Of all events that end a login a cancellation alone leaves the provider out of the final status. */
  lemma {:induction false} NamelessIffCancelled(s: State, e: Event)
    requires s.settled == [] && Step(s, e).settled != []
    ensures var t := Step(s, e);
            t.emitted != [] && (t.emitted[|t.emitted| - 1].provider == None <==> e.CancelRequested?)
  {
    if IsReadEvent(e) {
      ReadEndNames(s, e);
    } else {
      hide Cleanup, CaptureHeaders, OnPoll;
      if e.TimerFires? && e.id in s.armed && s.armed[e.id].task.Poll? {
        PollSettlesNothing(s.(armed := s.armed - {e.id}), s.armed[e.id].login, s.armed[e.id].task.count);
      }
    }
  }

  /** The cancellation at `n` finds the login in progress. */
  predicate CancelledAt(s: State, events: seq<Event>, n: nat)
    requires n < |events|
  {
    events[n].CancelRequested? && Run(s, events[..n]).settled == []
  }

  predicate AllName(sts: seq<Status>, login: Login) {
    forall st :: st in sts ==> st.provider == Some(login.provider)
  }

  lemma FinishedNames(t: State, login: Login)
    requires Finished(t, login)
    ensures t.emitted != [] && (AllName(t.emitted, login) <==> t.emitted[|t.emitted| - 1].provider != None)
  {
    hide Corresponds, AllFound;
    var sts := t.emitted;
    assert sts == sts[..|sts| - 1] + [sts[|sts| - 1]];
  }

  lemma InProgressOrNot(t: State, login: Login)
    requires Sound(t, login)
    ensures if t.settled == [] then InProgress(t, login) else Finished(t, login)
  {
    hide OneThread, OwnsWindow, OnlyProgress;
  }

  lemma InProgressUnsettled(s: State, login: Login)
    requires InProgress(s, login)
    ensures s.settled == [] && AllName(s.emitted, login)
  {
    hide OneThread, OwnsWindow;
  }

  lemma EndNames(s: State, login: Login, e: Event)
    requires InProgress(s, login) && Step(s, e).settled != []
    ensures Finished(Step(s, e), login)
    ensures AllName(Step(s, e).emitted, login) <==> !e.CancelRequested?
  {
    hide InProgress, Finished, Step, AllName;
    StepKeepsProgress(s, login, e);
    InProgressUnsettled(s, login);
    NamelessIffCancelled(s, e);
    InProgressOrNot(Step(s, e), login);
    FinishedNames(Step(s, e), login);
  }

  lemma CancelledLater(s: State, events: seq<Event>, n: nat)
    requires 0 < n < |events|
    ensures CancelledAt(s, events, n) <==> CancelledAt(Step(s, events[0]), events[1..], n - 1)
  {
    hide Step;
    assert events[..n][0] == events[0] && events[..n][1..] == events[1..][..n - 1];
  }

  lemma CancelledFirst(s: State, login: Login, events: seq<Event>)
    requires InProgress(s, login) && events != []
    ensures CancelledAt(s, events, 0) <==> events[0].CancelRequested?
  {
    hide OneThread, OwnsWindow, OnlyProgress;
    assert events[..0] == [];
  }

  /** All statuses of a run name the provider exactly when no cancellation finds the login in progress. */
  lemma {:induction false} AllNameIff(s: State, login: Login, events: seq<Event>)
    requires InProgress(s, login)
    ensures AllName(Run(s, events).emitted, login)
       <==> login.provider == "" || forall n :: 0 <= n < |events| ==> !CancelledAt(s, events, n)
    decreases events
  {
    hide InProgress;
    if events == [] {
      InProgressUnsettled(s, login);
    } else {
      var t := Step(s, events[0]);
      hide Step, Finished, CancelledAt, AllName;
      InProgressUnsettled(s, login);
      CancelEndsLogin(s, login);
      CancelledFirst(s, login, events);
      StepKeepsProgress(s, login, events[0]);
      forall n | 0 < n < |events|
        ensures CancelledAt(s, events, n) <==> CancelledAt(t, events[1..], n - 1)
      {
        CancelledLater(s, events, n);
      }
      if t.settled == [] {
        InProgressOrNot(t, login);
        AllNameIff(t, login, events[1..]);
        if forall n :: 0 <= n < |events| ==> !CancelledAt(s, events, n) {
          forall n | 0 <= n < |events| - 1 ensures !CancelledAt(t, events[1..], n) {
            assert !CancelledAt(s, events, n + 1);
          }
        }
      } else {
        EndNames(s, login, events[0]);
        SettledForGood(t, login, events[1..]);
        forall n | 0 < n < |events| ensures !CancelledAt(s, events, n) {
          SettledForGood(t, login, events[1..][..n - 1]);
        }
      }
    }
  }

  // ---- What success delivers ----

  predicate CarriesNull(e: Event) {
    e.StorageArrives? && e.values.Some? && !NoNull(e.values.value)
  }

  lemma CheckSettlesWith(s: State, login: Login, count: nat, creds: Credentials)
    requires Between(s, login)
    ensures var t := CheckCredentials(s, login, count, creds);
            t.settled == if AllFound(login.config, creds) then [Success(creds)] else []
  {
  }

  lemma StorageNulls(found: Credentials, values: Credentials)
    requires NoNull(found)
    ensures NoNull(found + values) <==> NoNull(values)
  {
    if !NoNull(values) {
      var k :| k in values && values[k].None?;
      assert (found + values)[k].None?;
    }
  }

  lemma OnlyReadsSucceed(s: State, login: Login, e: Event)
    requires InProgress(s, login)
    requires !e.CookiesArrive? && !e.StorageArrives? && !e.StorageFails?
    ensures var t := Step(s, e); t.settled == [] || t.settled[0].Failure?
  {
    hide CaptureHeaders, OneThread, OwnsWindow, OnlyProgress;
  }

  /** The step that completes a login delivers a null credential exactly when it is the arrival of a
    storage read that found one of its entries absent. */
  lemma {:induction false} NullCredentialIff(s: State, login: Login, e: Event)
    requires InProgress(s, login)
    requires var t := Step(s, e); t.settled != [] && t.settled[0].Success?
    ensures NoNull(Step(s, e).settled[0].credentials) <==> !CarriesNull(e)
  {
    hide CheckCredentials, AllFound, WithCookies, OnTimer, OnNavigate, OnClosed, Cancel;
    match e
    case CookiesArrive(_, cookies) =>
      var s1 := WithoutRead(s, 0);
      var creds := WithCookies(Known(s.headerCredentials), CookieSources(login.config.sources), cookies);
      WithCookiesNoNull(Known(s.headerCredentials), CookieSources(login.config.sources), cookies);
      CheckSettlesWith(s1, login, s.pending[0].count, creds);
    case StorageArrives(_, values) =>
      var found := s.pending[0].found;
      CheckSettlesWith(WithoutRead(s, 0), login, s.pending[0].count,
                       if values.Some? then found + values.value else found);
      if values.Some? { StorageNulls(found, values.value); }
    case StorageFails(_) =>
      CheckSettlesWith(WithoutRead(s, 0), login, s.pending[0].count, s.pending[0].found);
    case _ =>
      OnlyReadsSucceed(s, login, e);
  }

  /** What a storage read brings together. */
  function WithValues(found: Credentials, values: Option<Credentials>): Credentials {
    if values.Some? then found + values.value else found
  }

  /** Every source's key was found before or is in what the page returned, with a value or null. */
  predicate AllBrought(sources: seq<TokenSource>, found: Credentials, values: Option<Credentials>) {
    && WithValues(found, values) != map[]
    && forall t :: t in sources ==> t.key in found || (values.Some? && t.key in values.value)
  }

  lemma StorageSettles(t: State, i: nat, values: Option<Credentials>)
    requires !t.isCompleted && t.settled == [] && i < |t.pending| && t.pending[i].StorageRead?
    ensures var a, found, r := t.pending[i].login, t.pending[i].found, Step(t, StorageArrives(i, values));
            if AllBrought(a.config.sources, found, values)
            then r.settled == [Success(WithValues(found, values))]
                 && r.emitted == t.emitted
                                 + [Status(Some(a.provider), Complete, "Credentials extracted successfully")]
            else r.settled == []
  {
  }

  /** A storage read completes its login exactly when it brings the last of what was asked for; an entry that
    does not exist counts, for its value is null. */
  lemma {:induction false} StorageLoginCompletesIff(s: State, login: Login, values: Option<Credentials>)
    requires InProgress(s, login) && |s.pending| == 1 && s.pending[0].StorageRead?
    ensures var found := s.pending[0].found;
            Step(s, StorageArrives(0, values)).settled
            == if AllBrought(login.config.sources, found, values) then [Success(WithValues(found, values))] else []
  {
    hide Step, AllBrought, WithValues;
    StorageSettles(s, 0, values);
  }

  /** The cookie jar holds what source `t` asks for. */
  predicate InJar(t: TokenSource, cookies: seq<CookieRecord>) {
    exists i :: 0 <= i < |cookies| && CookieMatches(t, cookies[i])
  }

  lemma {:induction false} FindCookieIff(t: TokenSource, cookies: seq<CookieRecord>)
    ensures FindCookie(t, cookies).Some? <==> InJar(t, cookies)
  {
    hide CookieMatches;
    if cookies != [] {
      FindCookieIff(t, cookies[1..]);
      if InJar(t, cookies[1..]) {
        var i :| 0 <= i < |cookies| - 1 && CookieMatches(t, cookies[1..][i]);
        assert CookieMatches(t, cookies[i + 1]);
      }
      if InJar(t, cookies) && !CookieMatches(t, cookies[0]) {
        var i :| 0 <= i < |cookies| && CookieMatches(t, cookies[i]);
        assert cookies[1..][i - 1] == cookies[i];
      }
    }
  }

  predicate WantedInJar(wanted: seq<TokenSource>, cookies: seq<CookieRecord>, key: string) {
    exists t :: t in wanted && t.key == key && InJar(t, cookies)
  }

  lemma {:induction false} WithCookiesKeys(creds: Credentials, wanted: seq<TokenSource>,
                                           cookies: seq<CookieRecord>, key: string)
    ensures key in WithCookies(creds, wanted, cookies) <==> key in creds || WantedInJar(wanted, cookies, key)
    decreases wanted
  {
    hide FindCookie, InJar;
    if wanted != [] {
      FindCookieIff(wanted[0], cookies);
      var found := FindCookie(wanted[0], cookies);
      var next := if found.Some? then creds[wanted[0].key := found] else creds;
      WithCookiesKeys(next, wanted[1..], cookies, key);
      assert forall t :: t in wanted <==> t == wanted[0] || t in wanted[1..];
    }
  }

  /** The key was captured from a request header, or is that of a cookie in the jar. */
  predicate Delivered(s: State, login: Login, cookies: seq<CookieRecord>, key: string) {
    key in s.headerCredentials || WantedInJar(CookieSources(login.config.sources), cookies, key)
  }

  lemma NoSources(creds: Credentials, cookies: seq<CookieRecord>)
    ensures WithCookies(creds, CookieSources([]), cookies) == creds
  {
  }

  lemma {:induction false} FoundIffDelivered(s: State, login: Login, cookies: seq<CookieRecord>)
    ensures var sources := login.config.sources;
            AllFound(login.config, WithCookies(Known(s.headerCredentials), CookieSources(sources), cookies))
            <==> (sources != [] || s.headerCredentials != map[])
                 && forall source :: source in sources ==> Delivered(s, login, cookies, source.key)
  {
    hide WithCookies, WantedInJar, CookieSources;
    var sources := login.config.sources;
    var creds := WithCookies(Known(s.headerCredentials), CookieSources(sources), cookies);
    forall key ensures key in creds <==> Delivered(s, login, cookies, key) {
      WithCookiesKeys(Known(s.headerCredentials), CookieSources(sources), cookies, key);
    }
    if sources == [] {
      NoSources(Known(s.headerCredentials), cookies);
      assert s.headerCredentials.Keys == creds.Keys;
      assert creds == map[] <==> s.headerCredentials == map[];
    } else if forall source :: source in sources ==> Delivered(s, login, cookies, source.key) {
      assert sources[0] in sources;
      assert sources[0].key in creds;
    }
  }

  lemma OwnWindowOpen(s: State, login: Login)
    requires InProgress(s, login)
    ensures s.windows != [] && (HasWindow(s) <==> s.windows[|s.windows| - 1].stage == Open)
  {
    hide OneThread;
  }

  lemma CookiesLead(s: State, login: Login, cookies: seq<CookieRecord>)
    requires InProgress(s, login) && |s.pending| == 1 && s.pending[0].CookieRead?
    ensures var t, count := Step(s, CookiesArrive(0, cookies)), s.pending[0].count;
            var creds := WithCookies(Known(s.headerCredentials), CookieSources(login.config.sources), cookies);
            if HasStorage(login.config.sources) && HasWindow(s)
            then t.settled == [] && t.pending == [StorageRead(login, count, creds)]
            else t.settled == if AllFound(login.config, creds) then [Success(creds)] else []
  {
    hide WithCookies, AllFound, HasStorage, OwnsWindow, OnlyProgress, CheckCredentials;
    var creds := WithCookies(Known(s.headerCredentials), CookieSources(login.config.sources), cookies);
    assert s.pending[0].login == login && WithoutRead(s, 0).pending == [] && Between(WithoutRead(s, 0), login);
    CheckSettlesWith(WithoutRead(s, 0), login, s.pending[0].count, creds);
  }

  lemma FoundKeys(s: State, login: Login, cookies: seq<CookieRecord>, key: string)
    ensures key in WithCookies(Known(s.headerCredentials), CookieSources(login.config.sources), cookies)
       <==> Delivered(s, login, cookies, key)
  {
    hide WithCookies, WantedInJar, CookieSources;
    WithCookiesKeys(Known(s.headerCredentials), CookieSources(login.config.sources), cookies, key);
  }

  /** What comes of a cookie read. If the login asks for a storage entry and its window is open, it goes on to
    read storage with what was delivered so far. Otherwise it completes exactly when every source it asks for
    has been delivered, and there is something to deliver. */
  lemma {:induction false} CookieLoginCompletesIff(s: State, login: Login, cookies: seq<CookieRecord>)
    requires InProgress(s, login) && |s.pending| == 1 && s.pending[0].CookieRead?
    ensures s.windows != []
    ensures var t, sources := Step(s, CookiesArrive(0, cookies)), login.config.sources;
            if HasStorage(sources) && s.windows[|s.windows| - 1].stage == Open then
              && t.settled == [] && |t.pending| == 1 && t.pending[0].StorageRead?
              && forall key :: key in t.pending[0].found <==> Delivered(s, login, cookies, key)
            else
              (exists creds :: t.settled == [Success(creds)])
              <==> (sources != [] || s.headerCredentials != map[])
                   && forall source :: source in sources ==> Delivered(s, login, cookies, source.key)
  {
    hide Step, WithCookies, Delivered, InProgress, HasStorage, CookieSources, AllFound, HasWindow;
    OwnWindowOpen(s, login);
    CookiesLead(s, login, cookies);
    FoundIffDelivered(s, login, cookies);
    forall key { FoundKeys(s, login, cookies, key); }
  }

  predicate Wants(wanted: seq<TokenSource>, key: string) {
    exists t :: t in wanted && t.key == key
  }

  /** Captured headers: a wanted name is held from its first non-blank value on, trimmed, and that value
    stays; no other name is added. */
  lemma {:induction false} CaptureKeeps(wanted: seq<TokenSource>, headers: seq<(string, string)>,
                                        held: map<string, string>, key: string)
    ensures var r, value := CaptureHeaders(wanted, headers, held), HeaderValue(headers, key);
            var takes := (key !in held || held[key] == "")
                         && Wants(wanted, key) && value.Some? && Trim(value.value) != "";
            && (key in r <==> key in held || takes)
            && (takes ==> r[key] == Trim(value.value))
            && (key in held && !takes ==> r[key] == held[key])
    decreases wanted
  {
    hide HeaderValue, Trim;
    if wanted != [] {
      var name := wanted[0].key;
      var value := HeaderValue(headers, name);
      var next := if (name !in held || held[name] == "") && value.Some? && Trim(value.value) != ""
                  then held[name := Trim(value.value)] else held;
      CaptureKeeps(wanted[1..], headers, next, key);
      assert forall t :: t in wanted <==> t == wanted[0] || t in wanted[1..];
      assert wanted[0] in wanted;
    }
  }
}
