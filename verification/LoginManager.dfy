/** The login manager itself: the fields its callbacks update in place, each callback proved to be the
  transition of `LoginProtocol` of the same name. */
module LoginManager {
  import opened Basics
  import opened LoginProtocol
  import opened LoginSafety

  class Manager {
    var isCompleted: bool
    var activeProviderId: Option<string>
    var timeoutId: Option<nat>
    var timeoutTimer: Option<nat>
    var pollIntervalId: Option<nat>
    var window: Option<nat>
    var headerCredentials: map<string, string>

    // The windows with their handlers, the event loop, and what was observed
    var windows: seq<LoginWindow>
    var armed: map<nat, Timer>
    var nextTimer: nat
    var pending: seq<Read>
    var emitted: seq<Status>
    var settled: seq<Result>

    function Snapshot(): State
      reads this
    {
      State(isCompleted, activeProviderId, timeoutId, timeoutTimer, pollIntervalId, window, headerCredentials,
            windows, armed, nextTimer, pending, emitted, settled)
    }

    constructor ()
      ensures Drained(Snapshot()) && !IsActive(Snapshot()) && Snapshot() == Anew(Snapshot())
      ensures headerCredentials == map[] && windows == []
    {
      isCompleted, activeProviderId := false, None;
      timeoutId, timeoutTimer, pollIntervalId := None, None, None;
      window, headerCredentials := None, map[];
      windows, armed, nextTimer, pending := [], map[], 0, [];
      emitted, settled := [], [];
    }

    // ---- Primitives ----

    method Emit(provider: Option<string>, kind: StatusKind, message: string)
      modifies this
      ensures Snapshot() == LoginProtocol.Emit(old(Snapshot()), provider, kind, message)
    {
      emitted := emitted + [Status(provider, kind, message)];
    }

    method Settle(r: Result)
      modifies this
      ensures Snapshot() == LoginProtocol.Settle(old(Snapshot()), r)
    {
      settled := settled + [r];
    }

    method SetTimeout(t: Timer) returns (id: nat)
      modifies this
      ensures Snapshot() == Arm(old(Snapshot()), t) && id == old(nextTimer)
    {
      id := nextTimer;
      armed := armed[id := t];
      nextTimer := nextTimer + 1;
    }

    /** Clears the timer whose handle is held, if one is. */
    method ClearTimeout(id: Option<nat>)
      modifies this`armed
      ensures armed == old(armed) - Handle(id)
    {
      if id.Some? {
        armed := armed - {id.value};
      } else {
        assert armed == armed - {};
      }
    }

    method ClearTimers()
      modifies this`armed, this`timeoutId, this`timeoutTimer, this`pollIntervalId
      ensures timeoutId == None && timeoutTimer == None && pollIntervalId == None
      ensures armed == old(armed) - Handle(old(timeoutId)) - Handle(old(timeoutTimer)) - Handle(old(pollIntervalId))
    {
      ClearTimeout(timeoutId);
      timeoutId := None;
      ClearTimeout(timeoutTimer);
      timeoutTimer := None;
      ClearTimeout(pollIntervalId);
      pollIntervalId := None;
    }

    method Cleanup()
      modifies this
      ensures Snapshot() == LoginProtocol.Cleanup(old(Snapshot()))
    {
      isCompleted := true;
      activeProviderId := None;
      ClearTimers();
      window := None;
      headerCredentials := map[];
    }

    // ---- Starting a login ----

    method ArmTimers(login: Login)
      modifies this
      ensures Snapshot() == ArmLoginTimers(old(Snapshot()), login)
    {
      var id := SetTimeout(Timer(StartPolling, login, PositiveOr(login.config.minLoginTime, 5000)));
      timeoutId := Some(id);
      id := SetTimeout(Timer(OverallTimeout, login, PositiveOr(login.config.timeout, 300000)));
      timeoutTimer := Some(id);
    }

    method Open(login: Login, opening: Opening) returns (error: Option<string>)
      modifies this
      ensures error == if opening.Opened? then None else Some(opening.error)
      ensures var s := old(Snapshot());
              Snapshot() == match opening
                            case ConstructorThrows(_) => s
                            case LoadThrows(_) => OpenLoginWindow(s, login, false)
                            case Opened => ArmLoginTimers(OpenLoginWindow(s, login, true), login)
    {
      if opening.ConstructorThrows? { return Some(opening.error); }
      var own := |windows|;
      windows := windows + [LoginWindow(login, false, false, WindowStage.Open)];
      window := Some(own);
      Emit(Some(login.provider), Navigating, "Loading");
      if opening.LoadThrows? { return Some(opening.error); }
      windows := windows[own := windows[own].(handlesClose := true)];
      ArmTimers(login);
      error := None;
    }

    /** Either answers at once with a failure and changes nothing, or begins a login whose promise
      is settled later. */
    method StartLogin(provider: string, configs: Option<map<string, Config>>, timeout: nat, opening: Opening)
      returns (answer: Option<Result>)
      modifies this
      ensures var s := old(Snapshot());
              if configs.Some? && provider in configs.value && !IsActive(s)
              then && answer == None
                   && Snapshot() == Begin(s, LoginFor(provider, configs.value[provider], timeout), opening)
              else answer.Some? && answer.value.Failure? && Snapshot() == s
    {
      if configs.None? {
        return Some(Failure("tokenExtractionConfig module not found"));
      }
      if provider !in configs.value {
        return Some(Failure("No extraction config for provider: " + provider));
      }
      if activeProviderId.Some? && activeProviderId.value != "" {
        return Some(Failure("A login process is already in progress"));
      }
      hide LoginProtocol.Cleanup, OpenLoginWindow, ArmLoginTimers;
      var login := LoginFor(provider, configs.value[provider], timeout);
      activeProviderId := Some(provider);
      isCompleted := false;
      Emit(Some(provider), Starting, "Opening login");
      var error := Open(login, opening);
      if error.Some? {
        Cleanup();
        Emit(Some(provider), Error, "Failed to open window: " + error.value);
        Settle(Failure(error.value));
      }
      answer := None;
    }

    // ---- Callbacks ----

    method OnNavigate(w: nat, validUrl: bool, isSuccessUrl: bool)
      requires w < |windows|
      modifies this
      ensures Snapshot() == LoginProtocol.OnNavigate(old(Snapshot()), w, validUrl, isSuccessUrl)
    {
      if isCompleted || !validUrl { return; }
      var page := windows[w];
      if page.navigatedToLogin && isSuccessUrl {
        Emit(Some(page.login.provider), Detected, "Login page redirect detected");
      }
      if page.navigatedToLogin {
        assert windows == windows[w := page.(navigatedToLogin := true)];
      } else {
        windows := windows[w := page.(navigatedToLogin := true)];
      }
      Emit(Some(page.login.provider), Navigating, "Navigated");
    }

    method OnClosed(login: Login)
      modifies this
      ensures Snapshot() == LoginProtocol.OnClosed(old(Snapshot()), login)
    {
      if !isCompleted {
        Cleanup();
        Emit(Some(login.provider), Cancelled, "Login window closed by user");
        Settle(Failure("Login window closed"));
      }
    }

    method OnOverallTimeout(login: Login)
      modifies this
      ensures Snapshot() == LoginProtocol.OnOverallTimeout(old(Snapshot()), login)
    {
      if !isCompleted {
        Cleanup();
        Emit(Some(login.provider), Error, "Login timed out");
        Settle(Failure("Login timed out"));
      }
    }

    method SchedulePoll(login: Login, count: nat, delay: nat)
      modifies this
      ensures Snapshot() == LoginProtocol.SchedulePoll(old(Snapshot()), login, count, delay)
    {
      var id := SetTimeout(Timer(Poll(count), login, delay));
      pollIntervalId := Some(id);
    }

    method OnStartPolling(login: Login)
      modifies this
      ensures Snapshot() == LoginProtocol.OnStartPolling(old(Snapshot()), login)
    {
      if isCompleted { return; }
      SchedulePoll(login, 0, 0);
    }

    method OnPoll(login: Login, count: nat)
      modifies this
      ensures Snapshot() == LoginProtocol.OnPoll(old(Snapshot()), login, count)
    {
      if isCompleted { return; }
      var pollCount := count + 1;
      if pollCount % 30 == 0 {
        Emit(Some(login.provider), Waiting, "Waiting for login");
      }
      pending := pending + [CookieRead(login, pollCount)];
    }

    method CompleteLogin(login: Login, creds: Credentials)
      modifies this
      ensures Snapshot() == Finish(old(Snapshot()),
                                   Status(Some(login.provider), Complete, "Credentials extracted successfully"),
                                   Success(creds))
    {
      Cleanup();
      Emit(Some(login.provider), Complete, "Credentials extracted successfully");
      Settle(Success(creds));
    }

    method CheckCredentials(login: Login, count: nat, creds: Credentials)
      modifies this
      ensures Snapshot() == LoginProtocol.CheckCredentials(old(Snapshot()), login, count, creds)
    {
      if isCompleted { return; }
      if AllFound(login.config, creds) {
        CompleteLogin(login, creds);
      } else {
        SchedulePoll(login, count, PositiveOr(login.config.pollInterval, 1000));
      }
    }

    static method CollectCookies(held: Credentials, wanted: seq<TokenSource>, cookies: seq<CookieRecord>)
      returns (creds: Credentials)
      ensures creds == WithCookies(held, wanted, cookies)
    {
      creds := held;
      for i := 0 to |wanted|
        invariant WithCookies(creds, wanted[i..], cookies) == WithCookies(held, wanted, cookies)
      {
        assert wanted[i..][1..] == wanted[i + 1..];
        var found := FindCookie(wanted[i], cookies);
        if found.Some? { creds := creds[wanted[i].key := found]; }
      }
    }

    method OnCookies(login: Login, count: nat, cookies: seq<CookieRecord>)
      modifies this
      ensures Snapshot() == LoginProtocol.OnCookies(old(Snapshot()), login, count, cookies)
    {
      if isCompleted { return; }
      var creds := CollectCookies(Known(headerCredentials), CookieSources(login.config.sources), cookies);
      if HasStorage(login.config.sources) && HasWindow(Snapshot()) {
        pending := pending + [StorageRead(login, count, creds)];
      } else {
        CheckCredentials(login, count, creds);
      }
    }

    method OnCookiesFailed(login: Login, count: nat)
      modifies this
      ensures Snapshot() == LoginProtocol.OnCookiesFailed(old(Snapshot()), login, count)
    {
      if !isCompleted { SchedulePoll(login, count, PositiveOr(login.config.pollInterval, 1000)); }
    }

    method OnStorage(login: Login, count: nat, found: Credentials, values: Option<Credentials>)
      modifies this
      ensures Snapshot() == LoginProtocol.OnStorage(old(Snapshot()), login, count, found, values)
    {
      CheckCredentials(login, count, if values.Some? then found + values.value else found);
    }

    method OnHeaders(login: Login, headers: seq<(string, string)>)
      modifies this
      ensures Snapshot() == LoginProtocol.OnHeaders(old(Snapshot()), login, headers)
    {
      headerCredentials := CaptureHeaders(HeaderSources(login.config.sources), headers, headerCredentials);
    }

    method Cancel()
      modifies this
      ensures Snapshot() == LoginProtocol.Cancel(old(Snapshot()))
    {
      if activeProviderId.None? || activeProviderId.value == "" { return; }
      Cleanup();
      Emit(activeProviderId, Cancelled, "Login cancelled");
      Settle(Failure("Login cancelled"));
    }

    // ---- The event loop ----

    method TakeRead(i: nat) returns (read: Read)
      requires i < |pending|
      modifies this
      ensures read == old(pending)[i] && Snapshot() == WithoutRead(old(Snapshot()), i)
    {
      read := pending[i];
      pending := pending[..i] + pending[i + 1..];
    }

    method SetStage(w: nat, stage: WindowStage)
      requires w < |windows|
      modifies this`windows
      ensures Snapshot() == WithStage(old(Snapshot()), w, stage)
    {
      windows := windows[w := windows[w].(stage := stage)];
    }

    /** Delivers one event; what comes of it is the transition the safety theorems speak of. */
    method Deliver(e: Event)
      modifies this
      ensures Snapshot() == Step(old(Snapshot()), e)
    {
      hide LoginProtocol.OnStartPolling, LoginProtocol.OnPoll, LoginProtocol.OnOverallTimeout, LoginProtocol.OnCookies,
           LoginProtocol.OnCookiesFailed, LoginProtocol.OnStorage, LoginProtocol.OnNavigate, LoginProtocol.OnHeaders,
           LoginProtocol.OnClosed, LoginProtocol.Cancel;
      match e
      case TimerFires(id) =>
        if id in armed {
          var t := armed[id];
          armed := armed - {id};
          match t.task
          case StartPolling => OnStartPolling(t.login);
          case Poll(count) => OnPoll(t.login, count);
          case OverallTimeout => OnOverallTimeout(t.login);
        }
      case CookiesArrive(i, cookies) =>
        if i < |pending| && pending[i].CookieRead? {
          var read := TakeRead(i);
          OnCookies(read.login, read.count, cookies);
        }
      case CookiesFail(i) =>
        if i < |pending| && pending[i].CookieRead? {
          var read := TakeRead(i);
          OnCookiesFailed(read.login, read.count);
        }
      case StorageArrives(i, values) =>
        if i < |pending| && pending[i].StorageRead? {
          var read := TakeRead(i);
          OnStorage(read.login, read.count, read.found, values);
        }
      case StorageFails(i) =>
        if i < |pending| && pending[i].StorageRead? {
          var read := TakeRead(i);
          OnStorage(read.login, read.count, read.found, None);
        }
      case Navigates(w, validUrl, isSuccessUrl) =>
        if w < |windows| && windows[w].stage == WindowStage.Open { OnNavigate(w, validUrl, isSuccessUrl); }
      case SendsHeaders(w, headers) =>
        if w < |windows| { OnHeaders(windows[w].login, headers); }
      case WindowDestroyed(w) =>
        if w < |windows| && windows[w].stage == WindowStage.Open { SetStage(w, Destroyed); }
      case WindowClosed(w) =>
        if w < |windows| && windows[w].stage != Closed {
          var page := windows[w];
          SetStage(w, Closed);
          if page.handlesClose { OnClosed(page.login); }
        }
      case CancelRequested =>
        Cancel();
    }
  }
}
