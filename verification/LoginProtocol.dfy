/** The web-login flow as a transition system.

  One state holds the manager's fields and the event loop around it: armed timers, cookie and storage
  reads still in flight, every window ever opened with the handlers on it, the statuses emitted and the
  settlements of the promise. Every callback of the flow is one function on that state; what a callback
  closed over travels with its timer, read or window.
 */
module LoginProtocol {
  import opened JsString
  import opened Basics

  // ---- What a provider asks for ----

  datatype SourceKind = Cookie | LocalStorage | SessionStorage | Header

  /** `key` is the name of a cookie or header, or the key of a storage entry. */
  datatype TokenSource = TokenSource(kind: SourceKind, key: string, domain: string)

  datatype Config = Config(sources: seq<TokenSource>, timeout: nat, minLoginTime: nat, pollInterval: nat)

  datatype Login = Login(provider: string, config: Config)

  function PositiveOr(n: nat, default: nat): nat { if n != 0 then n else default }

  /** The login of a provider; `timeout` is the caller's, 0 when none is given, and wins over the configured one. */
  function LoginFor(provider: string, config: Config, timeout: nat): Login {
    Login(provider, config.(timeout := PositiveOr(timeout, config.timeout)))
  }

  predicate IsStorage(t: TokenSource) { t.kind == LocalStorage || t.kind == SessionStorage }

  function HeaderSources(sources: seq<TokenSource>): (r: seq<TokenSource>)
    ensures forall t :: t in r <==> t in sources && t.kind == Header
  {
    if sources == [] then []
    else (if sources[0].kind == Header then [sources[0]] else []) + HeaderSources(sources[1..])
  }

  function CookieSources(sources: seq<TokenSource>): (r: seq<TokenSource>)
    ensures forall t :: t in r <==> t in sources && t.kind == Cookie
  {
    if sources == [] then []
    else (if sources[0].kind == Cookie then [sources[0]] else []) + CookieSources(sources[1..])
  }

  predicate HasStorage(sources: seq<TokenSource>) {
    exists t :: t in sources && IsStorage(t)
  }

  // ---- Credentials ----

  /** A credential may be present and null: that is what reading an absent storage entry gives. */
  type Credentials = map<string, Option<string>>

  datatype CookieRecord = CookieRecord(name: string, value: string, domain: string)

  predicate Includes(s: string, part: string) {
    part <= s || (s != "" && Includes(s[1..], part))
  }

  predicate CookieMatches(t: TokenSource, c: CookieRecord) {
    c.name == t.key
    && (t.domain == "" || Includes(c.domain, if t.domain[0] == '.' then t.domain[1..] else t.domain))
  }

  function FindCookie(t: TokenSource, cookies: seq<CookieRecord>): Option<string> {
    if cookies == [] then None
    else if CookieMatches(t, cookies[0]) then Some(cookies[0].value)
    else FindCookie(t, cookies[1..])
  }

  function WithCookies(creds: Credentials, wanted: seq<TokenSource>, cookies: seq<CookieRecord>): Credentials
    decreases wanted
  {
    if wanted == [] then creds
    else
      var found := FindCookie(wanted[0], cookies);
      WithCookies(if found.Some? then creds[wanted[0].key := found] else creds, wanted[1..], cookies)
  }

  /** Request headers as an insertion-ordered record; of names that agree up to case the last one counts. */
  function HeaderValue(headers: seq<(string, string)>, name: string): Option<string> {
    if headers == [] then None
    else
      var last := headers[|headers| - 1];
      if Lower(last.0) == Lower(name) then Some(last.1) else HeaderValue(headers[..|headers| - 1], name)
  }

  function CaptureHeaders(wanted: seq<TokenSource>, headers: seq<(string, string)>, held: map<string, string>)
    : map<string, string>
  {
    if wanted == [] then held
    else
      var name := wanted[0].key;
      var value := HeaderValue(headers, name);
      CaptureHeaders(wanted[1..], headers,
                     if (name !in held || held[name] == "") && value.Some? && Trim(value.value) != ""
                     then held[name := Trim(value.value)] else held)
  }

  function Known(held: map<string, string>): Credentials {
    map k | k in held :: Some(held[k])
  }

  predicate NoNull(c: Credentials) { forall k :: k in c ==> c[k].Some? }

  predicate AllFound(config: Config, c: Credentials) {
    c != map[] && forall t :: t in config.sources ==> t.key in c
  }

  // ---- What the outside sees ----

  datatype StatusKind = Starting | Navigating | Detected | Waiting | Complete | Error | Cancelled

  datatype Status = Status(provider: Option<string>, kind: StatusKind, message: string)

  datatype Result = Success(credentials: Credentials) | Failure(error: string)

  predicate IsTerminal(st: Status) { st.kind == Complete || st.kind == Error || st.kind == Cancelled }

  /** Which final status goes with which settlement of the promise. */
  predicate Corresponds(st: Status, r: Result) {
    match st.kind
    case Complete => r.Success?
    case Error =>
      || (st.message == "Login timed out" && r == Failure("Login timed out"))
      || (r.Failure? && st.message == "Failed to open window: " + r.error)
    case Cancelled =>
      || (st.message == "Login window closed by user" && r == Failure("Login window closed"))
      || (st.message == "Login cancelled" && r == Failure("Login cancelled"))
    case _ => false
  }

  // ---- State ----

  datatype Task = StartPolling | Poll(count: nat) | OverallTimeout

  datatype Timer = Timer(task: Task, login: Login, delay: nat)

  datatype Read = CookieRead(login: Login, count: nat) | StorageRead(login: Login, count: nat, found: Credentials)

  datatype WindowStage = Open | Destroyed | Closed

  /** A window and what its handlers closed over. The close handler is registered only after the page was
    told to load; the handlers for navigation and request headers are there from the start. */
  datatype LoginWindow = LoginWindow(login: Login, handlesClose: bool, navigatedToLogin: bool, stage: WindowStage)

  datatype State = State(
    isCompleted: bool,
    activeProviderId: Option<string>,
    timeoutId: Option<nat>,
    timeoutTimer: Option<nat>,
    pollIntervalId: Option<nat>,
    window: Option<nat>,
    headerCredentials: map<string, string>,
    // The windows in the order they were opened, and the event loop
    windows: seq<LoginWindow>,
    armed: map<nat, Timer>,
    nextTimer: nat,
    pending: seq<Read>,
    // What was observed
    emitted: seq<Status>,
    settled: seq<Result>)

  function Emit(s: State, provider: Option<string>, kind: StatusKind, message: string): State {
    s.(emitted := s.emitted + [Status(provider, kind, message)])
  }

  function Settle(s: State, r: Result): State { s.(settled := s.settled + [r]) }

  function WithStage(s: State, w: nat, stage: WindowStage): State
    requires w < |s.windows|
  {
    s.(windows := s.windows[w := s.windows[w].(stage := stage)])
  }

  /** The manager holds a window that is not destroyed. */
  predicate HasWindow(s: State) {
    s.window.Some? && s.window.value < |s.windows| && s.windows[s.window.value].stage == Open
  }

  /** `setTimeout`; the new handle is the old `nextTimer`. */
  function Arm(s: State, t: Timer): State {
    s.(armed := s.armed[s.nextTimer := t], nextTimer := s.nextTimer + 1)
  }

  function Handle(id: Option<nat>): set<nat> { if id.Some? then {id.value} else {} }

  function Cleanup(s: State): State {
    s.(isCompleted := true,
       activeProviderId := None,
       armed := s.armed - Handle(s.timeoutId) - Handle(s.timeoutTimer) - Handle(s.pollIntervalId),
       timeoutId := None,
       timeoutTimer := None,
       pollIntervalId := None,
       window := None,
       headerCredentials := map[])
  }

  function Finish(s: State, st: Status, r: Result): State {
    Settle(Emit(Cleanup(s), st.provider, st.kind, st.message), r)
  }

  // ---- Starting ----

  datatype Opening = Opened | ConstructorThrows(error: string) | LoadThrows(error: string)

  predicate IsActive(s: State) { s.activeProviderId.Some? && s.activeProviderId.value != "" }

  function FailToOpen(s: State, provider: string, error: string): State {
    Settle(Emit(Cleanup(s), Some(provider), Error, "Failed to open window: " + error), Failure(error))
  }

  function OpenLoginWindow(s: State, login: Login, loads: bool): State {
    Emit(s.(window := Some(|s.windows|), windows := s.windows + [LoginWindow(login, loads, false, Open)]),
         Some(login.provider), Navigating, "Loading")
  }

  function ArmLoginTimers(s: State, login: Login): State {
    var c := login.config;
    var s1 := Arm(s, Timer(StartPolling, login, PositiveOr(c.minLoginTime, 5000))).(timeoutId := Some(s.nextTimer));
    Arm(s1, Timer(OverallTimeout, login, PositiveOr(c.timeout, 300000))).(timeoutTimer := Some(s1.nextTimer))
  }

  /** A login begins; the manager is not busy. */
  function Begin(s: State, login: Login, opening: Opening): State {
    var s1 := Emit(s.(activeProviderId := Some(login.provider), isCompleted := false),
                   Some(login.provider), Starting, "Opening login");
    match opening
    case ConstructorThrows(error) => FailToOpen(s1, login.provider, error)
    case LoadThrows(error) => FailToOpen(OpenLoginWindow(s1, login, false), login.provider, error)
    case Opened => ArmLoginTimers(OpenLoginWindow(s1, login, true), login)
  }

  // ---- Callbacks ----

  function OnNavigate(s: State, w: nat, validUrl: bool, isSuccessUrl: bool): State
    requires w < |s.windows|
  {
    if s.isCompleted || !validUrl then s
    else
      var page := s.windows[w];
      var s1 := if page.navigatedToLogin && isSuccessUrl
                then Emit(s, Some(page.login.provider), Detected, "Login page redirect detected") else s;
      Emit(s1.(windows := s.windows[w := page.(navigatedToLogin := true)]),
           Some(page.login.provider), Navigating, "Navigated")
  }

  function OnClosed(s: State, login: Login): State {
    if s.isCompleted then s
    else Settle(Emit(Cleanup(s), Some(login.provider), Cancelled, "Login window closed by user"),
                Failure("Login window closed"))
  }

  function OnOverallTimeout(s: State, login: Login): State {
    if s.isCompleted then s
    else Settle(Emit(Cleanup(s), Some(login.provider), Error, "Login timed out"), Failure("Login timed out"))
  }

  function SchedulePoll(s: State, login: Login, count: nat, delay: nat): State {
    Arm(s, Timer(Poll(count), login, delay)).(pollIntervalId := Some(s.nextTimer))
  }

  function OnStartPolling(s: State, login: Login): State {
    if s.isCompleted then s else SchedulePoll(s, login, 0, 0)
  }

  function OnPoll(s: State, login: Login, count: nat): State {
    if s.isCompleted then s
    else
      var s1 := if (count + 1) % 30 == 0
                then Emit(s, Some(login.provider), Waiting, "Waiting for login") else s;
      s1.(pending := s1.pending + [CookieRead(login, count + 1)])
  }

  function CheckCredentials(s: State, login: Login, count: nat, creds: Credentials): State {
    if s.isCompleted then s
    else if AllFound(login.config, creds) then
      Settle(Emit(Cleanup(s), Some(login.provider), Complete, "Credentials extracted successfully"), Success(creds))
    else SchedulePoll(s, login, count, PositiveOr(login.config.pollInterval, 1000))
  }

  function OnCookies(s: State, login: Login, count: nat, cookies: seq<CookieRecord>): State {
    if s.isCompleted then s
    else
      var creds := WithCookies(Known(s.headerCredentials), CookieSources(login.config.sources), cookies);
      if HasStorage(login.config.sources) && HasWindow(s)
      then s.(pending := s.pending + [StorageRead(login, count, creds)])
      else CheckCredentials(s, login, count, creds)
  }

  function OnCookiesFailed(s: State, login: Login, count: nat): State {
    if s.isCompleted then s
    else SchedulePoll(s, login, count, PositiveOr(login.config.pollInterval, 1000))
  }

  /** `values` is what the page script returned, None when that was no object. */
  function OnStorage(s: State, login: Login, count: nat, found: Credentials, values: Option<Credentials>): State {
    CheckCredentials(s, login, count, if values.Some? then found + values.value else found)
  }

  function OnHeaders(s: State, login: Login, headers: seq<(string, string)>): State {
    s.(headerCredentials := CaptureHeaders(HeaderSources(login.config.sources), headers, s.headerCredentials))
  }

  function Cancel(s: State): State {
    if !IsActive(s) then s
    else Settle(Emit(Cleanup(s), None, Cancelled, "Login cancelled"), Failure("Login cancelled"))
  }

  // ---- Events ----

  datatype Event =
    | TimerFires(id: nat)
    | CookiesArrive(i: nat, cookies: seq<CookieRecord>)
    | CookiesFail(i: nat)
    | StorageArrives(i: nat, values: Option<Credentials>)
    | StorageFails(i: nat)
    | Navigates(w: nat, validUrl: bool, isSuccessUrl: bool)
    | SendsHeaders(w: nat, headers: seq<(string, string)>)
    | WindowDestroyed(w: nat)
    | WindowClosed(w: nat)
    | CancelRequested

  function OnTimer(s: State, t: Timer): State {
    match t.task
    case StartPolling => OnStartPolling(s, t.login)
    case Poll(count) => OnPoll(s, t.login, count)
    case OverallTimeout => OnOverallTimeout(s, t.login)
  }

  function WithoutRead(s: State, i: nat): State
    requires i < |s.pending|
  {
    s.(pending := s.pending[..i] + s.pending[i + 1..])
  }

  /** One turn of the event loop. An event that is not pending changes nothing. A window navigates while it
    is open and closes once; its session may send requests for ever, since that handler is never removed. */
  function Step(s: State, e: Event): State {
    match e
    case TimerFires(id) =>
      if id in s.armed then OnTimer(s.(armed := s.armed - {id}), s.armed[id]) else s
    case CookiesArrive(i, cookies) =>
      if i < |s.pending| && s.pending[i].CookieRead?
      then OnCookies(WithoutRead(s, i), s.pending[i].login, s.pending[i].count, cookies) else s
    case CookiesFail(i) =>
      if i < |s.pending| && s.pending[i].CookieRead?
      then OnCookiesFailed(WithoutRead(s, i), s.pending[i].login, s.pending[i].count) else s
    case StorageArrives(i, values) =>
      if i < |s.pending| && s.pending[i].StorageRead?
      then OnStorage(WithoutRead(s, i), s.pending[i].login, s.pending[i].count, s.pending[i].found, values) else s
    case StorageFails(i) =>
      if i < |s.pending| && s.pending[i].StorageRead?
      then OnStorage(WithoutRead(s, i), s.pending[i].login, s.pending[i].count, s.pending[i].found, None) else s
    case Navigates(w, validUrl, isSuccessUrl) =>
      if w < |s.windows| && s.windows[w].stage == Open then OnNavigate(s, w, validUrl, isSuccessUrl) else s
    case SendsHeaders(w, headers) =>
      if w < |s.windows| then OnHeaders(s, s.windows[w].login, headers) else s
    case WindowDestroyed(w) =>
      if w < |s.windows| && s.windows[w].stage == Open then WithStage(s, w, Destroyed) else s
    case WindowClosed(w) =>
      if w < |s.windows| && s.windows[w].stage != Closed then
        var s1 := WithStage(s, w, Closed);
        if s.windows[w].handlesClose then OnClosed(s1, s.windows[w].login) else s1
      else s
    case CancelRequested => Cancel(s)
  }

  function Run(s: State, events: seq<Event>): State
    decreases events
  {
    if events == [] then s else Run(Step(s, events[0]), events[1..])
  }
}
