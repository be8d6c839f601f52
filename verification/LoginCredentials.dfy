/** What a successful login delivers: whose values, and when a null among them.
 */
module LoginCredentials {
  import opened JsString
  import opened Basics
  import opened LoginProtocol
  import opened LoginSafety
  import opened LoginSuccession

  // ---- What a read finds ----

  lemma {:induction false} IncludesIff(s: string, part: string)
    ensures Includes(s, part) <==> exists a: string, b: string :: s == a + part + b
  {
    if Includes(s, part) {
      if part <= s {
        assert s == "" + part + s[|part|..];
      } else {
        IncludesIff(s[1..], part);
        var a: string, b: string :| s[1..] == a + part + b;
        assert s == ([s[0]] + a) + part + b;
      }
    }
    if a: string, b: string :| s == a + part + b {
      if a == "" {
        assert s == part + b;
      } else {
        assert s[1..] == a[1..] + part + b;
        IncludesIff(s[1..], part);
      }
    }
  }

  /** `c` is a cookie for source `t`: the name agrees, and its domain contains the wanted one, with or without
    a leading dot. */
  lemma CookieMatchesIff(t: TokenSource, c: CookieRecord)
    ensures CookieMatches(t, c)
       <==> c.name == t.key
            && exists a: string, d: string, b: string :: c.domain == a + d + b && (t.domain == d || t.domain == "." + d)
  {
    if t.domain == "" {
      assert c.domain == "" + "" + c.domain;
    } else {
      var wanted := if t.domain[0] == '.' then t.domain[1..] else t.domain;
      IncludesIff(c.domain, wanted);
      if Includes(c.domain, wanted) {
        var a: string, b: string :| c.domain == a + wanted + b;
        assert t.domain == wanted || t.domain == "." + wanted;
      }
      if a: string, d: string, b: string :| c.domain == a + d + b && (t.domain == d || t.domain == "." + d) {
        if d == wanted {
        } else {
          assert d == "." + wanted;
          assert c.domain == (a + ".") + wanted + b;
        }
      }
    }
  }

  /** The first cookie in the jar that matches. */
  lemma {:induction false} FindCookieIsFirst(t: TokenSource, cookies: seq<CookieRecord>)
    ensures match FindCookie(t, cookies)
            case Some(v) =>
              exists i :: 0 <= i < |cookies| && CookieMatches(t, cookies[i]) && cookies[i].value == v
                          && forall j :: 0 <= j < i ==> !CookieMatches(t, cookies[j])
            case None => forall i :: 0 <= i < |cookies| ==> !CookieMatches(t, cookies[i])
  {
    hide CookieMatches;
    if cookies != [] && !CookieMatches(t, cookies[0]) {
      var rest := cookies[1..];
      FindCookieIsFirst(t, rest);
      assert forall i :: 0 <= i < |rest| ==> rest[i] == cookies[i + 1];
      if FindCookie(t, rest).Some? {
        var i :| 0 <= i < |rest| && CookieMatches(t, rest[i]) && rest[i].value == FindCookie(t, rest).value
                 && forall j :: 0 <= j < i ==> !CookieMatches(t, rest[j]);
        assert CookieMatches(t, cookies[i + 1]);
        forall j | 0 <= j < i + 1 ensures !CookieMatches(t, cookies[j]) {
          if j > 0 { assert rest[j - 1] == cookies[j]; }
        }
      } else {
        forall i | 0 <= i < |cookies| ensures !CookieMatches(t, cookies[i]) {
          if i > 0 { assert rest[i - 1] == cookies[i]; }
        }
      }
    }
  }

  /** The source at `i` is the last one for `key` with a cookie in the jar. */
  predicate Supplies(wanted: seq<TokenSource>, cookies: seq<CookieRecord>, key: string, i: nat)
    requires i < |wanted|
  {
    && wanted[i].key == key && FindCookie(wanted[i], cookies).Some?
    && forall j :: i < j < |wanted| && wanted[j].key == key ==> FindCookie(wanted[j], cookies).None?
  }

  lemma {:induction false} LastSupplies(wanted: seq<TokenSource>, cookies: seq<CookieRecord>, key: string, j: nat)
    returns (i: nat)
    requires j < |wanted| && wanted[j].key == key && FindCookie(wanted[j], cookies).Some?
    ensures i < |wanted| && Supplies(wanted, cookies, key, i)
    decreases |wanted| - j
  {
    hide FindCookie;
    if Supplies(wanted, cookies, key, j) {
      i := j;
    } else {
      var k :| j < k < |wanted| && wanted[k].key == key && FindCookie(wanted[k], cookies).Some?;
      i := LastSupplies(wanted, cookies, key, k);
    }
  }

  lemma SuppliesTail(wanted: seq<TokenSource>, cookies: seq<CookieRecord>, key: string, i: nat)
    requires 0 < i < |wanted|
    ensures Supplies(wanted, cookies, key, i) <==> Supplies(wanted[1..], cookies, key, i - 1)
  {
    hide FindCookie;
    assert forall j :: 0 < j < |wanted| ==> wanted[1..][j - 1] == wanted[j];
    if Supplies(wanted[1..], cookies, key, i - 1) {
      forall j | i < j < |wanted| && wanted[j].key == key ensures FindCookie(wanted[j], cookies).None? {
        assert wanted[1..][j - 1] == wanted[j];
      }
    }
  }

  /** Under each key the cookie of the last source that has one, else what was there. */
  lemma {:induction false} WithCookiesIs(
      creds: Credentials, wanted: seq<TokenSource>, cookies: seq<CookieRecord>, key: string)
    ensures var r := WithCookies(creds, wanted, cookies);
            && (forall i: nat :: i < |wanted| && Supplies(wanted, cookies, key, i) ==>
                  key in r && r[key] == FindCookie(wanted[i], cookies))
            && ((forall i: nat :: i < |wanted| ==> !Supplies(wanted, cookies, key, i)) ==>
                  (key in r <==> key in creds) && (key in creds ==> r[key] == creds[key]))
    decreases wanted
  {
    hide FindCookie;
    if wanted != [] {
      var found, rest := FindCookie(wanted[0], cookies), wanted[1..];
      var next := if found.Some? then creds[wanted[0].key := found] else creds;
      WithCookiesIs(next, rest, cookies, key);
      forall i: nat | 0 < i < |wanted|
        ensures Supplies(wanted, cookies, key, i) <==> Supplies(rest, cookies, key, i - 1)
      {
        SuppliesTail(wanted, cookies, key, i);
      }
      forall i: nat | i < |rest| ensures Supplies(rest, cookies, key, i) <==> Supplies(wanted, cookies, key, i + 1) {
        SuppliesTail(wanted, cookies, key, i + 1);
      }
      if Supplies(wanted, cookies, key, 0) {
        forall i: nat | i < |rest| ensures !Supplies(rest, cookies, key, i) {
          assert rest[i] == wanted[i + 1];
        }
      } else if wanted[0].key == key && found.Some? {
        var i := LastSupplies(wanted, cookies, key, 0);
      }
    }
  }

  /** Of the request headers that agree with the name up to case, the last one. */
  lemma {:induction false} HeaderValueIsLast(headers: seq<(string, string)>, name: string)
    ensures match HeaderValue(headers, name)
            case Some(v) =>
              exists i :: 0 <= i < |headers| && Lower(headers[i].0) == Lower(name) && headers[i].1 == v
                          && forall j :: i < j < |headers| ==> Lower(headers[j].0) != Lower(name)
            case None => forall i :: 0 <= i < |headers| ==> Lower(headers[i].0) != Lower(name)
  {
    hide Lower;
    if headers != [] {
      var n := |headers| - 1;
      if Lower(headers[n].0) != Lower(name) { HeaderValueIsLast(headers[..n], name); }
    }
  }

  // ---- Whose values a success carries ----

  /** Event `e` hands the login of window `own` the value `v` under `key`. */
  predicate Offers(e: Event, own: nat, key: string, v: Option<string>) {
    match e
    case CookiesArrive(_, cookies) =>
      exists i :: 0 <= i < |cookies| && cookies[i].name == key && v == Some(cookies[i].value)
    case StorageArrives(_, values) => values.Some? && key in values.value && values.value[key] == v
    case SendsHeaders(w, headers) =>
      w == own && HeaderValue(headers, key).Some? && v == Some(Trim(HeaderValue(headers, key).value))
    case _ => false
  }

  predicate Offered(events: seq<Event>, own: nat, key: string, v: Option<string>) {
    exists e :: e in events && Offers(e, own, key, v)
  }

  predicate AllOffered(events: seq<Event>, own: nat, c: Credentials) {
    forall key :: key in c ==> Offered(events, own, key, c[key])
  }

  /** A success carries only what the events handed to the login of window `own`. */
  predicate OwnValues(t: State, own: nat, events: seq<Event>) {
    forall r :: r in t.settled && r.Success? ==> AllOffered(events, own, r.credentials)
  }

  predicate AsksForHeaders(page: LoginWindow) { HeaderSources(page.login.config.sources) != [] }

  predicate NoOldHeaders(windows: seq<LoginWindow>, own: nat) {
    |windows| == own + 1 && forall w :: 0 <= w < own ==> !AsksForHeaders(windows[w])
  }

  /** Everything held so far was offered. */
  predicate Traced(t: State, own: nat, events: seq<Event>) {
    && NoOldHeaders(t.windows, own)
    && AllOffered(events, own, Known(t.headerCredentials))
    && (forall r :: r in t.pending && r.StorageRead? ==> AllOffered(events, own, r.found))
    && OwnValues(t, own, events)
  }

  lemma {:induction false} FoundCookieOffered(t: TokenSource, cookies: seq<CookieRecord>)
    ensures var v := FindCookie(t, cookies);
            v.Some? ==> exists i :: 0 <= i < |cookies| && cookies[i].name == t.key && v == Some(cookies[i].value)
  {
    hide Includes;
    if cookies != [] && !CookieMatches(t, cookies[0]) {
      FoundCookieOffered(t, cookies[1..]);
      var v := FindCookie(t, cookies[1..]);
      if v.Some? {
        var i :| 0 <= i < |cookies| - 1 && cookies[1..][i].name == t.key && v == Some(cookies[1..][i].value);
        assert cookies[i + 1] == cookies[1..][i];
      }
    }
  }

  lemma {:induction false} CookiesOffered(
      events: seq<Event>, own: nat, e: Event, creds: Credentials, wanted: seq<TokenSource>, cookies: seq<CookieRecord>)
    requires e in events && e.CookiesArrive? && e.cookies == cookies && AllOffered(events, own, creds)
    ensures AllOffered(events, own, WithCookies(creds, wanted, cookies))
    decreases wanted
  {
    hide FindCookie;
    if wanted != [] {
      var found := FindCookie(wanted[0], cookies);
      FoundCookieOffered(wanted[0], cookies);
      if found.Some? { assert Offers(e, own, wanted[0].key, found); }
      var next := if found.Some? then creds[wanted[0].key := found] else creds;
      CookiesOffered(events, own, e, next, wanted[1..], cookies);
    }
  }

  lemma HeadersOffered(
      events: seq<Event>, own: nat, e: Event, wanted: seq<TokenSource>, headers: seq<(string, string)>,
      held: map<string, string>)
    requires e in events && e == SendsHeaders(own, headers) && AllOffered(events, own, Known(held))
    ensures AllOffered(events, own, Known(CaptureHeaders(wanted, headers, held)))
  {
    hide HeaderValue, CaptureHeaders, Trim;
    var r := CaptureHeaders(wanted, headers, held);
    forall key | key in r ensures Offered(events, own, key, Some(r[key])) {
      CaptureKeeps(wanted, headers, held, key);
      if key in held && r[key] == held[key] {
        assert key in Known(held);
      } else {
        assert Offers(e, own, key, Some(r[key]));
      }
    }
  }

  lemma SettleTraced(t: State, own: nat, events: seq<Event>, r: Result)
    requires Traced(t, own, events) && (r.Success? ==> AllOffered(events, own, r.credentials))
    ensures forall provider, kind, message ::
              Traced(Settle(Emit(Cleanup(t), provider, kind, message), r), own, events)
  {
    hide NoOldHeaders, Offered;
  }

  lemma CheckTraced(t: State, own: nat, events: seq<Event>, login: Login, count: nat, creds: Credentials)
    requires Traced(t, own, events) && AllOffered(events, own, creds)
    ensures Traced(CheckCredentials(t, login, count, creds), own, events)
  {
    hide AllFound, AllOffered, Offered, Cleanup;
    SettleTraced(t, own, events, Success(creds));
  }

  lemma WithoutReadTraced(t: State, own: nat, events: seq<Event>, i: nat)
    requires Traced(t, own, events) && i < |t.pending|
    ensures Traced(WithoutRead(t, i), own, events)
    ensures t.pending[i].StorageRead? ==> AllOffered(events, own, t.pending[i].found)
  {
    hide AllOffered, NoOldHeaders;
    assert t.pending[i] in t.pending;
    assert forall r :: r in WithoutRead(t, i).pending ==> r in t.pending;
  }

  lemma CookiesTraced(t: State, own: nat, events: seq<Event>, i: nat, cookies: seq<CookieRecord>)
    requires CookiesArrive(i, cookies) in events && Traced(t, own, events)
    requires i < |t.pending| && t.pending[i].CookieRead?
    ensures Traced(Step(t, CookiesArrive(i, cookies)), own, events)
  {
    hide AllOffered, NoOldHeaders, CheckCredentials, HasStorage, HasWindow, WithCookies;
    var t1, login := WithoutRead(t, i), t.pending[i].login;
    WithoutReadTraced(t, own, events, i);
    var creds := WithCookies(Known(t1.headerCredentials), CookieSources(login.config.sources), cookies);
    CookiesOffered(events, own, CookiesArrive(i, cookies), Known(t1.headerCredentials),
                   CookieSources(login.config.sources), cookies);
    CheckTraced(t1, own, events, login, t.pending[i].count, creds);
  }

  lemma StorageTraced(t: State, own: nat, events: seq<Event>, i: nat, values: Option<Credentials>)
    requires Traced(t, own, events) && i < |t.pending| && t.pending[i].StorageRead?
    requires values.Some? ==> StorageArrives(i, values) in events
    ensures Traced(OnStorage(WithoutRead(t, i), t.pending[i].login, t.pending[i].count, t.pending[i].found, values),
                   own, events)
  {
    hide NoOldHeaders, CheckCredentials;
    WithoutReadTraced(t, own, events, i);
    var found := t.pending[i].found;
    var creds := if values.Some? then found + values.value else found;
    forall key | key in creds ensures Offered(events, own, key, creds[key]) {
      if values.Some? && key in values.value { assert Offers(StorageArrives(i, values), own, key, creds[key]); }
    }
    CheckTraced(WithoutRead(t, i), own, events, t.pending[i].login, t.pending[i].count, creds);
  }

  lemma SendsTraced(t: State, own: nat, events: seq<Event>, w: nat, headers: seq<(string, string)>)
    requires SendsHeaders(w, headers) in events && Traced(t, own, events) && w < |t.windows|
    ensures Traced(OnHeaders(t, t.windows[w].login, headers), own, events)
  {
    hide AllOffered;
    if w == own {
      HeadersOffered(events, own, SendsHeaders(w, headers), HeaderSources(t.windows[w].login.config.sources), headers,
                     t.headerCredentials);
    } else {
      assert !AsksForHeaders(t.windows[w]);
    }
  }

  lemma TimerTraced(t: State, own: nat, events: seq<Event>, timer: Timer)
    requires Traced(t, own, events)
    ensures Traced(OnTimer(t, timer), own, events)
  {
    hide AllOffered, NoOldHeaders, Cleanup;
    SettleTraced(t, own, events, Failure("Login timed out"));
  }

  lemma SameLoginsTraced(t: State, u: State, own: nat, events: seq<Event>)
    requires Traced(t, own, events)
    requires u.headerCredentials == t.headerCredentials && u.pending == t.pending && u.settled == t.settled
    requires |u.windows| == |t.windows| && forall w :: 0 <= w < |t.windows| ==> u.windows[w].login == t.windows[w].login
    ensures Traced(u, own, events)
  {
    hide AllOffered;
  }

  lemma CancelTraced(t: State, own: nat, events: seq<Event>)
    requires Traced(t, own, events)
    ensures Traced(Cancel(t), own, events)
  {
    hide Traced, Cleanup;
    SettleTraced(t, own, events, Failure("Login cancelled"));
  }

  lemma StageTraced(t: State, own: nat, events: seq<Event>, w: nat, stage: WindowStage)
    requires Traced(t, own, events) && w < |t.windows|
    ensures Traced(WithStage(t, w, stage), own, events)
  {
    hide Traced;
    SameLoginsTraced(t, WithStage(t, w, stage), own, events);
  }

  lemma ClosedTraced(t: State, own: nat, events: seq<Event>, w: nat)
    requires Traced(t, own, events)
    ensures Traced(Step(t, WindowClosed(w)), own, events)
  {
    hide Traced, Cleanup, WithStage;
    if w < |t.windows| {
      StageTraced(t, own, events, w, Closed);
      SettleTraced(WithStage(t, w, Closed), own, events, Failure("Login window closed"));
    }
  }

  lemma NavigatesTraced(t: State, own: nat, events: seq<Event>, w: nat, validUrl: bool, isSuccessUrl: bool)
    requires Traced(t, own, events) && w < |t.windows|
    ensures Traced(OnNavigate(t, w, validUrl, isSuccessUrl), own, events)
  {
    hide Traced;
    SameLoginsTraced(t, OnNavigate(t, w, validUrl, isSuccessUrl), own, events);
  }

  lemma WithoutTimerTraced(t: State, own: nat, events: seq<Event>, id: nat)
    requires Traced(t, own, events)
    ensures Traced(t.(armed := t.armed - {id}), own, events)
  {
    hide AllOffered, NoOldHeaders;
  }

  lemma PollTraced(t: State, own: nat, events: seq<Event>, login: Login, count: nat)
    requires Traced(t, own, events)
    ensures Traced(OnCookiesFailed(t, login, count), own, events)
  {
    hide AllOffered, NoOldHeaders;
  }

  lemma StepTraced(t: State, own: nat, events: seq<Event>, e: Event)
    requires e in events && Traced(t, own, events)
    ensures Traced(Step(t, e), own, events)
  {
    hide Traced, OnTimer, OnStorage, OnHeaders, OnNavigate, OnClosed, Cancel, OnCookies, CookieMatches;
    match e
    case TimerFires(id) =>
      if id in t.armed {
        WithoutTimerTraced(t, own, events, id);
        TimerTraced(t.(armed := t.armed - {id}), own, events, t.armed[id]);
      }
    case CookiesArrive(i, cookies) =>
      if i < |t.pending| && t.pending[i].CookieRead? { CookiesTraced(t, own, events, i, cookies); }
    case CookiesFail(i) =>
      if i < |t.pending| && t.pending[i].CookieRead? {
        WithoutReadTraced(t, own, events, i);
        PollTraced(WithoutRead(t, i), own, events, t.pending[i].login, t.pending[i].count);
      }
    case StorageArrives(i, values) =>
      if i < |t.pending| && t.pending[i].StorageRead? { StorageTraced(t, own, events, i, values); }
    case StorageFails(i) =>
      if i < |t.pending| && t.pending[i].StorageRead? { StorageTraced(t, own, events, i, None); }
    case SendsHeaders(w, headers) => if w < |t.windows| { SendsTraced(t, own, events, w, headers); }
    case Navigates(w, validUrl, isSuccessUrl) =>
      if w < |t.windows| { NavigatesTraced(t, own, events, w, validUrl, isSuccessUrl); }
    case WindowDestroyed(w) => if w < |t.windows| { StageTraced(t, own, events, w, Destroyed); }
    case WindowClosed(w) => ClosedTraced(t, own, events, w);
    case CancelRequested => CancelTraced(t, own, events);
  }

  lemma {:induction false} RunTraced(t: State, own: nat, events: seq<Event>, n: nat)
    requires n <= |events| && Traced(t, own, events)
    ensures Traced(Run(t, events[n..]), own, events)
    decreases |events| - n
  {
    hide Traced, Step;
    if n < |events| {
      assert events[n..][0] == events[n] && events[n..][1..] == events[n + 1..];
      StepTraced(t, own, events, events[n]);
      RunTraced(Step(t, events[n]), own, events, n + 1);
    }
  }

  lemma StartTraced(s: State, b: Login, events: seq<Event>)
    requires s.pending == [] && s.headerCredentials == map[]
    requires forall w :: 0 <= w < |s.windows| ==> !AsksForHeaders(s.windows[w])
    ensures Traced(Started(s, b), |s.windows|, events)
  {
    StartedIs(s, b);
    hide Started, AsksForHeaders;
  }

  lemma HeldCompletes(t: State, b: Login)
    requires t.pending == [CookieRead(b, 1)] && t.settled == [] && !t.isCompleted
    requires b.config.sources == [] && t.headerCredentials != map[]
    ensures Step(t, CookiesArrive(0, [])).settled == [Success(Known(t.headerCredentials))]
  {
    var held := Known(t.headerCredentials);
    assert held.Keys == t.headerCredentials.Keys;
    NoSources(held, []);
  }

  /** The events of a login that asks for nothing: it starts polling, polls, and finds an empty jar. */
  function EmptyPoll(n: nat): seq<Event> { [TimerFires(n), TimerFires(n + 2), CookiesArrive(0, [])] }

  lemma FirstPollFires(t: State, b: Login, x: nat)
    requires !t.isCompleted && x in t.armed && t.armed[x].task == Poll(0) && t.armed[x].login == b
    ensures var u := Step(t, TimerFires(x));
            && u.pending == t.pending + [CookieRead(b, 1)] && u.settled == t.settled && !u.isCompleted
            && u.headerCredentials == t.headerCredentials && u.window == t.window && u.windows == t.windows
  {
  }

  /** A login that asks for nothing completes with its first cookie read if a header is held. */
  lemma HeldHeaderCompletes(t: State, b: Login, n: nat)
    requires HasOwnTimers(t, n, n + 1) && t.nextTimer == n + 2 && t.armed[n].login == b
    requires t.pending == [] && t.settled == [] && b.config.sources == [] && t.headerCredentials != map[]
    ensures Run(t, EmptyPoll(n)).settled == [Success(Known(t.headerCredentials))]
  {
    hide Step, Run, Known;
    var t1 := Step(t, TimerFires(n));
    StartTimerFires(t, b, n, n + 1);
    var t2 := Step(t1, TimerFires(n + 2));
    FirstPollFires(t1, b, n + 2);
    HeldCompletes(t2, b);
    var last := CookiesArrive(0, []);
    RunCons(t, TimerFires(n), [TimerFires(n + 2), last]);
    RunCons(t1, TimerFires(n + 2), [last]);
    RunOne(t2, last);
    assert [TimerFires(n)] + [TimerFires(n + 2), last] == EmptyPoll(n);
    assert [TimerFires(n + 2)] + [last] == [TimerFires(n + 2), last];
  }

  lemma ForeignHeader(t: State, own: nat, events: seq<Event>, held: map<string, string>)
    requires t.settled == [Success(Known(held))] && held != map[]
    requires forall e :: e in events ==>
               e.TimerFires? || (e.CookiesArrive? && e.cookies == []) || (e.SendsHeaders? && e.w != own)
    ensures !OwnValues(t, own, events)
  {
    var key :| key in held;
    assert key in Known(held);
    assert forall e :: e in events ==> !Offers(e, own, key, Some(held[key]));
    assert !Offered(events, own, key, Some(held[key]));
    assert Success(Known(held)) in t.settled;
  }

  lemma HeldHeaderShows(s: State, b: Login)
    requires Drained(s) && s.headerCredentials != map[] && b.config.sources == []
    ensures !OwnValues(Run(Started(s, b), EmptyPoll(s.nextTimer)), |s.windows|, EmptyPoll(s.nextTimer))
  {
    StartedIs(s, b);
    hide Started, Run, OwnValues;
    HeldHeaderCompletes(Started(s, b), b, s.nextTimer);
    ForeignHeader(Run(Started(s, b), EmptyPoll(s.nextTimer)), |s.windows|, EmptyPoll(s.nextTimer), s.headerCredentials);
  }

  lemma HeaderCaptured(wanted: seq<TokenSource>)
    requires wanted != []
    ensures CaptureHeaders(wanted, [(wanted[0].key, "v")], map[]) != map[]
  {
    hide CaptureHeaders, Trim;
    TrimFixesTrimmed("v");
    assert wanted[0] in wanted;
    CaptureKeeps(wanted, [(wanted[0].key, "v")], map[], wanted[0].key);
  }

  lemma OldSessionShows(s: State, b: Login, w: nat) returns (events: seq<Event>)
    requires Drained(s) && s.headerCredentials == map[] && b.config.sources == []
    requires w < |s.windows| && AsksForHeaders(s.windows[w])
    ensures !OwnValues(Run(Started(s, b), events), |s.windows|, events)
  {
    var wanted, n, t := HeaderSources(s.windows[w].login.config.sources), s.nextTimer, Started(s, b);
    var e := SendsHeaders(w, [(wanted[0].key, "v")]);
    StartedIs(s, b);
    HeaderCaptured(wanted);
    var t1 := OnHeaders(t, s.windows[w].login, [(wanted[0].key, "v")]);
    assert Step(t, e) == t1;
    hide Started, Run, OwnValues, Step, CaptureHeaders, HeaderSources;
    HeldHeaderCompletes(t1, b, n);
    RunCons(t, e, EmptyPoll(n));
    events := [e] + EmptyPoll(n);
    ForeignHeader(Run(t, events), |s.windows|, events, t1.headerCredentials);
  }

  /** Whether a success can carry anything but what its own login received: not when the manager starts with
    no captured header and no earlier window asked for headers, and only then. The record of captured headers
    is not reset at the start, and an earlier session's handler is never removed. */
  lemma OwnValuesIff(s: State)
    requires Drained(s)
    ensures (forall b: Login, events: seq<Event> :: OwnValues(Run(Started(s, b), events), |s.windows|, events))
       <==> s.headerCredentials == map[] && forall w :: 0 <= w < |s.windows| ==> !AsksForHeaders(s.windows[w])
  {
    hide Started, Run, OwnValues, AsksForHeaders;
    var b := Login("x", Config([], 0, 0, 0));
    if s.headerCredentials != map[] {
      HeldHeaderShows(s, b);
    } else if w :| 0 <= w < |s.windows| && AsksForHeaders(s.windows[w]) {
      var events := OldSessionShows(s, b, w);
    } else {
      forall b: Login, events: seq<Event> ensures OwnValues(Run(Started(s, b), events), |s.windows|, events) {
        StartTraced(s, b, events);
        RunTraced(Started(s, b), |s.windows|, events, 0);
        assert events[0..] == events;
      }
    }
  }

  // ---- When a success carries a null ----

  /** No success carries a null. */
  predicate NullFree(t: State) {
    forall r :: r in t.settled && r.Success? ==> NoNull(r.credentials)
  }

  predicate OnlyCookieReads(t: State) { forall r :: r in t.pending ==> r.CookieRead? }

  lemma CleanupKeepsReads(t: State)
    ensures Cleanup(t).pending == t.pending
  {
  }

  lemma CheckKeepsReads(t: State)
    ensures forall login, count, creds :: CheckCredentials(t, login, count, creds).pending == t.pending
  {
    hide AllFound;
  }

  lemma TimerReads(t: State, timer: Timer)
    requires OnlyCookieReads(t)
    ensures OnlyCookieReads(OnTimer(t, timer))
  {
    hide Cleanup;
    CleanupKeepsReads(t);
  }

  lemma FewerReads(t: State, i: nat)
    requires OnlyCookieReads(t) && i < |t.pending|
    ensures OnlyCookieReads(WithoutRead(t, i)) && t.pending[i].CookieRead?
  {
    assert t.pending[i] in t.pending;
    assert forall r :: r in WithoutRead(t, i).pending ==> r in t.pending;
  }

  /** Only a login that asks for a storage entry reads storage. */
  lemma NoStorageRead(t: State, b: Login, e: Event)
    requires OnlyCookieReads(t) && !HasStorage(b.config.sources)
    requires forall i :: 0 <= i < |t.pending| ==> t.pending[i].login == b
    ensures OnlyCookieReads(Step(t, e))
  {
    hide HasStorage, CheckCredentials, OnTimer, CaptureHeaders, WithCookies, WithoutRead;
    if IsReadEvent(e) {
      if e.i < |t.pending| {
        FewerReads(t, e.i);
        CheckKeepsReads(WithoutRead(t, e.i));
      }
    } else if e.TimerFires? {
      if e.id in t.armed { TimerReads(t.(armed := t.armed - {e.id}), t.armed[e.id]); }
    }
  }

  lemma ReadsAreOwn(t: State, b: Login)
    requires InProgress(t, b)
    ensures t.settled == [] && forall i :: 0 <= i < |t.pending| ==> t.pending[i].login == b
  {
    hide OwnsWindow, OnlyProgress, NoNull, IsDriver;
  }

  lemma OneSettlement(u: State, b: Login)
    requires Finished(u, b)
    ensures |u.settled| == 1
  {
  }

  lemma NoSuchRead(t: State, e: Event)
    requires OnlyCookieReads(t) && e.StorageArrives?
    ensures Step(t, e) == t
  {
    if e.i < |t.pending| { assert t.pending[e.i] in t.pending; }
  }

  lemma StepNullFree(t: State, b: Login, e: Event)
    requires InProgress(t, b) && OnlyCookieReads(t)
    ensures NullFree(Step(t, e))
  {
    hide InProgress, Finished, Step, OnlyCookieReads, NoNull;
    var u := Step(t, e);
    ReadsAreOwn(t, b);
    if e.StorageArrives? {
      NoSuchRead(t, e);
    } else if u.settled != [] {
      StepKeepsProgress(t, b, e);
      InProgressOrNot(u, b);
      OneSettlement(u, b);
      if u.settled[0].Success? { NullCredentialIff(t, b, e); }
    }
  }

  lemma FinishedCompleted(t: State, b: Login)
    requires Finished(t, b)
    ensures !InProgress(t, b)
  {
  }

  lemma {:induction false} RunNullFree(t: State, b: Login, events: seq<Event>)
    requires Sound(t, b) && NullFree(t) && !HasStorage(b.config.sources)
    requires InProgress(t, b) ==> OnlyCookieReads(t)
    ensures NullFree(Run(t, events))
    decreases events
  {
    hide InProgress, Finished, Step, HasStorage, OnlyCookieReads, NoNull;
    if events != [] {
      var u := Step(t, events[0]);
      if InProgress(t, b) {
        StepKeepsProgress(t, b, events[0]);
        StepNullFree(t, b, events[0]);
        ReadsAreOwn(t, b);
        NoStorageRead(t, b, events[0]);
      } else {
        StepAfterEnd(t, b, events[0]);
        FinishedCompleted(u, b);
      }
      RunNullFree(u, b, events[1..]);
    }
  }

  /** The storage keys a login asks for. */
  function StorageKeys(sources: seq<TokenSource>): set<string> {
    set t | t in sources && IsStorage(t) :: t.key
  }

  /** Whenever the page returns a record it has exactly the entries it was asked for. */
  predicate AsAsked(b: Login, events: seq<Event>) {
    forall e :: e in events && e.StorageArrives? && e.values.Some? ==>
      e.values.value.Keys == StorageKeys(b.config.sources)
  }

  /** A jar and a set of request headers that hold something for every source. */
  function FullJar(sources: seq<TokenSource>): (jar: seq<CookieRecord>)
    ensures |jar| == |sources| && forall i :: 0 <= i < |jar| ==> CookieMatches(sources[i], jar[i])
  {
    if sources == [] then []
    else
      var t := sources[0];
      var domain := if t.domain != "" && t.domain[0] == '.' then t.domain[1..] else t.domain;
      [CookieRecord(t.key, "v", domain)] + FullJar(sources[1..])
  }

  function AllHeaders(sources: seq<TokenSource>): seq<(string, string)> {
    seq(|sources|, i requires 0 <= i < |sources| => (sources[i].key, "v"))
  }

  lemma {:induction false} HeaderSent(headers: seq<(string, string)>, i: nat)
    requires i < |headers| && forall j :: 0 <= j < |headers| ==> headers[j].1 == "v"
    ensures HeaderValue(headers, headers[i].0) == Some("v")
  {
    hide Lower;
    var n := |headers| - 1;
    if i < n {
      assert headers[..n][i] == headers[i];
      HeaderSent(headers[..n], i);
    }
  }

  lemma HeadersHeld(sources: seq<TokenSource>, held: map<string, string>, t: TokenSource)
    requires t in sources && t.kind == Header
    ensures t.key in CaptureHeaders(HeaderSources(sources), AllHeaders(sources), held)
  {
    hide CaptureHeaders, HeaderValue, Trim;
    var i :| 0 <= i < |sources| && sources[i] == t;
    HeaderSent(AllHeaders(sources), i);
    TrimFixesTrimmed("v");
    assert t in HeaderSources(sources);
    CaptureKeeps(HeaderSources(sources), AllHeaders(sources), held, t.key);
  }

  lemma CookiesHeld(sources: seq<TokenSource>, creds: Credentials, t: TokenSource)
    requires t in sources && t.kind == Cookie
    ensures t.key in WithCookies(creds, CookieSources(sources), FullJar(sources))
  {
    hide WithCookies, CookieMatches, FullJar;
    var i :| 0 <= i < |sources| && sources[i] == t;
    assert InJar(t, FullJar(sources)) by { assert CookieMatches(t, FullJar(sources)[i]); }
    assert t in CookieSources(sources);
    WithCookiesKeys(creds, CookieSources(sources), FullJar(sources), t.key);
  }

  /** A run in which a login that asks for a storage entry gets every header and cookie it asks for, but each
    of its storage entries is absent. */
  function AbsentRun(b: Login, own: nat, n: nat): seq<Event> {
    var sources := b.config.sources;
    [SendsHeaders(own, AllHeaders(sources)), TimerFires(n), TimerFires(n + 2), CookiesArrive(0, FullJar(sources))]
    + [StorageArrives(0, Some(map k | k in StorageKeys(sources) :: None))]
  }

  lemma ReadsStorage(t: State, b: Login, cookies: seq<CookieRecord>)
    requires !t.isCompleted && t.settled == [] && t.pending == [CookieRead(b, 1)] && HasWindow(t)
    requires HasStorage(b.config.sources)
    ensures var u := Step(t, CookiesArrive(0, cookies));
            && !u.isCompleted && u.settled == []
            && u.pending == [StorageRead(b, 1, WithCookies(Known(t.headerCredentials),
                                                           CookieSources(b.config.sources), cookies))]
  {
    hide WithCookies, HasStorage;
  }

  lemma AllBroughtByAbsence(sources: seq<TokenSource>, held: map<string, string>, found: Credentials,
                            values: Credentials)
    requires HasStorage(sources) && values.Keys == StorageKeys(sources)
    requires forall t :: t in sources && t.kind == Header ==> t.key in held
    requires found == WithCookies(Known(held), CookieSources(sources), FullJar(sources))
    ensures AllBrought(sources, found, Some(values))
  {
    hide WithCookies, CookieSources, FullJar, WantedInJar;
    forall t | t in sources ensures t.key in found || t.key in values {
      if t.kind == Cookie { CookiesHeld(sources, Known(held), t); }
      if t.kind == Header {
        WithCookiesKeys(Known(held), CookieSources(sources), FullJar(sources), t.key);
      }
      if IsStorage(t) { assert t.key in StorageKeys(sources); }
    }
    var t :| t in sources && IsStorage(t);
    assert t.key in StorageKeys(sources);
    assert t.key in WithValues(found, Some(values));
  }

  lemma RunFive(s: State, a: Event, b: Event, c: Event, d: Event, e: Event)
    ensures Run(s, [a, b, c, d] + [e]) == Step(Step(Step(Step(Step(s, a), b), c), d), e)
  {
    hide Step;
    assert [a, b, c, d] + [e] == [a] + [b, c, d, e];
    RunCons(s, a, [b, c, d, e]);
    assert [b, c, d, e] == [b] + [c, d, e];
    RunCons(Step(s, a), b, [c, d, e]);
    assert [c, d, e] == [c] + [d, e];
    RunCons(Step(Step(s, a), b), c, [d, e]);
    assert [d, e] == [d] + [e];
    RunCons(Step(Step(Step(s, a), b), c), d, [e]);
    RunOne(Step(Step(Step(Step(s, a), b), c), d), e);
  }

  lemma HeadersArrive(t: State, b: Login, own: nat, n: nat)
    requires HasOwnTimers(t, n, n + 1) && own < |t.windows| && t.windows[own].login == b
    ensures var sources, u := b.config.sources, Step(t, SendsHeaders(own, AllHeaders(b.config.sources)));
            && u == t.(headerCredentials := u.headerCredentials) && HasOwnTimers(u, n, n + 1)
            && forall x :: x in sources && x.kind == Header ==> x.key in u.headerCredentials
  {
    hide CaptureHeaders, HeaderSources, AllHeaders;
    forall x | x in b.config.sources && x.kind == Header
      ensures x.key in OnHeaders(t, b, AllHeaders(b.config.sources)).headerCredentials
    {
      HeadersHeld(b.config.sources, t.headerCredentials, x);
    }
  }

  lemma NullDelivered(t: State, b: Login, values: Credentials)
    requires !t.isCompleted && t.settled == []
    requires |t.pending| == 1 && t.pending[0].StorageRead? && t.pending[0].login == b
    requires AllBrought(b.config.sources, t.pending[0].found, Some(values)) && !NoNull(values)
    ensures !NullFree(Step(t, StorageArrives(0, Some(values))))
  {
    hide Step, AllBrought;
    StorageSettles(t, 0, Some(values));
    var key :| key in values && values[key].None?;
    assert WithValues(t.pending[0].found, Some(values))[key].None?;
    assert Step(t, StorageArrives(0, Some(values))).settled[0] in Step(t, StorageArrives(0, Some(values))).settled;
  }

  lemma StorageIsNull(sources: seq<TokenSource>, values: Credentials)
    requires HasStorage(sources) && values.Keys == StorageKeys(sources)
    requires forall k :: k in values ==> values[k] == None
    ensures !NoNull(values)
  {
    var t :| t in sources && IsStorage(t);
    assert t.key in StorageKeys(sources);
    assert values[t.key].None?;
  }

  /** From a login whose timers are armed to its first storage read. */
  lemma PollsToStorage(t: State, b: Login, n: nat, cookies: seq<CookieRecord>)
    requires HasOwnTimers(t, n, n + 1) && t.nextTimer == n + 2 && t.armed[n].login == b
    requires t.pending == [] && t.settled == [] && HasWindow(t) && HasStorage(b.config.sources)
    ensures var u := Step(Step(Step(t, TimerFires(n)), TimerFires(n + 2)), CookiesArrive(0, cookies));
            && !u.isCompleted && u.settled == []
            && u.pending == [StorageRead(b, 1, WithCookies(Known(t.headerCredentials),
                                                           CookieSources(b.config.sources), cookies))]
  {
    hide Step, HasStorage, WithCookies, CookieSources, Known;
    StartTimerFires(t, b, n, n + 1);
    var t2 := Step(t, TimerFires(n));
    FirstPollFires(t2, b, n + 2);
    ReadsStorage(Step(t2, TimerFires(n + 2)), b, cookies);
  }

  lemma AbsentRunFrom(t: State, b: Login, own: nat, n: nat)
    requires HasOwnTimers(t, n, n + 1) && t.nextTimer == n + 2 && t.armed[n].login == b
    requires t.pending == [] && t.settled == [] && HasWindow(t) && own < |t.windows| && t.windows[own].login == b
    requires HasStorage(b.config.sources)
    ensures !NullFree(Run(t, AbsentRun(b, own, n)))
  {
    var sources := b.config.sources;
    var values: Credentials := map k | k in StorageKeys(sources) :: None;
    HeadersArrive(t, b, own, n);
    hide Step, Run, NullFree, HasStorage, AllHeaders, FullJar, WithCookies, CookieSources, AllBrought, Known,
         HasOwnTimers;
    var t1 := Step(t, SendsHeaders(own, AllHeaders(sources)));
    assert HasWindow(t1) && t1.armed == t.armed;
    PollsToStorage(t1, b, n, FullJar(sources));
    var t4 := Step(Step(Step(t1, TimerFires(n)), TimerFires(n + 2)), CookiesArrive(0, FullJar(sources)));
    AllBroughtByAbsence(sources, t1.headerCredentials, t4.pending[0].found, values);
    StorageIsNull(sources, values);
    NullDelivered(t4, b, values);
    RunFive(t, SendsHeaders(own, AllHeaders(sources)), TimerFires(n), TimerFires(n + 2),
            CookiesArrive(0, FullJar(sources)), StorageArrives(0, Some(values)));
  }

  lemma AbsentRunShows(s: State, b: Login)
    requires Drained(s) && HasStorage(b.config.sources)
    ensures !NullFree(Run(Started(s, b), AbsentRun(b, |s.windows|, s.nextTimer)))
  {
    hide Started, HasStorage, Run, NullFree, AbsentRun, HasOwnTimers;
    StartedIs(s, b);
    AbsentRunFrom(Started(s, b), b, |s.windows|, s.nextTimer);
  }

  lemma StartedBegins(s: State, b: Login)
    ensures Started(s, b) == Begin(Anew(s), b, Opened)
  {
  }

  lemma StartNullFree(s: State, b: Login)
    requires Drained(s)
    ensures var t := Started(s, b); Sound(t, b) && OnlyCookieReads(t) && NullFree(t)
  {
    StartedIs(s, b);
    BeginSound(s, b, Opened);
    hide Started, Begin, InProgress, Finished;
    assert Started(s, b) == Begin(Anew(s), b, Opened) by { StartedBegins(s, b); }
  }

  lemma AbsentRunAsAsked(b: Login, own: nat, n: nat)
    ensures AsAsked(b, AbsentRun(b, own, n))
  {
    hide AllHeaders, FullJar, StorageKeys;
    var values: Credentials := map k | k in StorageKeys(b.config.sources) :: None;
    assert values.Keys == StorageKeys(b.config.sources);
  }

  /** Whether a success can carry a null: exactly when the login asks for a storage entry. That the page then
    returns no more than it was asked for makes no difference. */
  lemma NullFreeIff(s: State, b: Login)
    requires Drained(s)
    ensures (forall events: seq<Event> :: NullFree(Run(Started(s, b), events))) <==> !HasStorage(b.config.sources)
    ensures (forall events: seq<Event> :: AsAsked(b, events) ==> NullFree(Run(Started(s, b), events)))
       <==> !HasStorage(b.config.sources)
  {
    hide HasStorage, NullFree, Run, AsAsked;
    if HasStorage(b.config.sources) {
      AbsentRunShows(s, b);
      AbsentRunAsAsked(b, |s.windows|, s.nextTimer);
      var events := AbsentRun(b, |s.windows|, s.nextTimer);
      assert AsAsked(b, events) && !NullFree(Run(Started(s, b), events));
    } else {
      forall events: seq<Event> ensures NullFree(Run(Started(s, b), events)) {
        StartNullFree(s, b);
        RunNullFree(Started(s, b), b, events);
      }
    }
  }
}
