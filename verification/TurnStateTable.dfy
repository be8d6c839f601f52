/** The provenance table behind the cross-account echo guard, and the log it stands for.

  The table forgets: a read deletes an expired entry, and every 256th write sweeps them all. The log
  forgets nothing. The guard answers the same from either.
 */
module TurnStateTable {
  import opened JsString
  import opened Basics

  const TTL_MS := 2 * 60 * 60 * 1000
  const SWEEP_EVERY := 256
  const HEADER := "x-codex-turn-state"

  datatype Origin = Origin(accountKey: string, expiresAt: int)

  datatype Table = Table(origins: map<string, Origin>, writes: nat)

  /** Session ids and account keys as the callers pass them: None stands for anything but a string. */
  function Normalized(id: Option<string>): string {
    match id
    case Some(s) => Trim(s)
    case None => ""
  }

  function Swept(origins: map<string, Origin>, now: int): (r: map<string, Origin>)
    ensures r.Keys <= origins.Keys
  {
    map s | s in origins && now < origins[s].expiresAt :: origins[s]
  }

  function Noted(t: Table, session: Option<string>, account: Option<string>, now: int): Table {
    var s, a := Normalized(session), Normalized(account);
    if s == "" || a == "" then t
    else
      var origins := t.origins[s := Origin(a, now + TTL_MS)];
      Table(if (t.writes + 1) % SWEEP_EVERY == 0 then Swept(origins, now) else origins, t.writes + 1)
  }

  function Queried(t: Table, session: Option<string>, account: Option<string>, now: int): (Table, bool) {
    var s, a := Normalized(session), Normalized(account);
    if s == "" || a == "" || s !in t.origins then (t, false)
    else if t.origins[s].expiresAt <= now then (t.(origins := t.origins - {s}), false)
    else (t, t.origins[s].accountKey != a)
  }

  // ---- Runs, and the log ----

  datatype Event =
    | Note(session: Option<string>, account: Option<string>, at: int)
    | Query(session: Option<string>, account: Option<string>, at: int)

  /** The event names a session and an account. */
  predicate Counts(e: Event) { Normalized(e.session) != "" && Normalized(e.account) != "" }

  predicate NotesFor(e: Event, s: string) { e.Note? && Counts(e) && Normalized(e.session) == s }

  predicate QueriesFor(e: Event, s: string) { e.Query? && Counts(e) && Normalized(e.session) == s }

  /** The table after the first `n` events of a run. */
  function After(events: seq<Event>, n: nat): Table
    requires n <= |events|
  {
    if n == 0 then Table(map[], 0)
    else
      var t := After(events, n - 1);
      match events[n - 1]
      case Note(session, account, at) => Noted(t, session, account, at)
      case Query(session, account, at) => Queried(t, session, account, at).0
  }

  /** Index of the latest of the first `n` events that is a note for session `s`, -1 when there is none. */
  function LatestNote(events: seq<Event>, n: nat, s: string): (i: int)
    requires n <= |events|
    ensures -1 <= i < n
  {
    if n == 0 then -1 else if NotesFor(events[n - 1], s) then n - 1 else LatestNote(events, n - 1, s)
  }

  lemma {:induction false} LatestNoteIsLatest(events: seq<Event>, n: nat, s: string)
    requires n <= |events|
    ensures var i := LatestNote(events, n, s);
            (i >= 0 ==> NotesFor(events[i], s)) && forall j :: i < j < n ==> !NotesFor(events[j], s)
  {
    hide NotesFor;
    if n > 0 && LatestNote(events, n, s) != n - 1 { LatestNoteIsLatest(events, n - 1, s); }
  }

  /** What the guard should answer after `n` events, read off the log alone. */
  predicate CrossByLog(events: seq<Event>, n: nat, session: Option<string>, account: Option<string>, now: int)
    requires n <= |events|
  {
    var s, a := Normalized(session), Normalized(account);
    var i := LatestNote(events, n, s);
    && s != "" && a != "" && i >= 0
    && Normalized(events[i].account) != a
    && now < events[i].at + TTL_MS
  }

  /** The clock does not go back during the first `n` events, and `now` is not before them. */
  predicate Monotone(events: seq<Event>, n: nat, now: int)
    requires n <= |events|
  {
    && (forall i, j :: 0 <= i < j < n ==> events[i].at <= events[j].at)
    && (forall i :: 0 <= i < n ==> events[i].at <= now)
  }

  function NoteCount(events: seq<Event>, n: nat): nat
    requires n <= |events|
  {
    if n == 0 then 0
    else NoteCount(events, n - 1) + if events[n - 1].Note? && Counts(events[n - 1]) then 1 else 0
  }

  /** The event at `i` is a note that triggers a sweep. */
  predicate IsSweep(events: seq<Event>, i: nat)
    requires i < |events|
  {
    events[i].Note? && Counts(events[i]) && NoteCount(events, i + 1) % 256 == 0
  }

  /** The event at `i` deletes an entry for `s` that expires at `expiry`, if there is one. */
  predicate Deletes(events: seq<Event>, i: nat, s: string, expiry: int)
    requires i < |events|
  {
    expiry <= events[i].at && (QueriesFor(events[i], s) || IsSweep(events, i))
  }

  predicate DeletedSince(events: seq<Event>, k: nat, n: nat, s: string, expiry: int)
    requires n <= |events|
  {
    exists i :: k < i < n && Deletes(events, i, s, expiry)
  }

  /** Some event after the latest note for `s` found it expired and deleted it. */
  predicate Deleted(events: seq<Event>, n: nat, s: string)
    requires n <= |events|
  {
    var k := LatestNote(events, n, s);
    k >= 0 && DeletedSince(events, k, n, s, events[k].at + TTL_MS)
  }

  ghost predicate HoldsEntry(t: Table, events: seq<Event>, n: nat, s: string)
    requires n <= |events|
  {
    var k := LatestNote(events, n, s);
    if k >= 0 && !Deleted(events, n, s)
    then s in t.origins && t.origins[s] == Origin(Normalized(events[k].account), events[k].at + TTL_MS)
    else s !in t.origins
  }

  lemma {:induction false} TableHoldsEntry(events: seq<Event>, n: nat, s: string)
    requires 0 < n <= |events| && s != ""
    requires After(events, n - 1).writes == NoteCount(events, n - 1)
    requires HoldsEntry(After(events, n - 1), events, n - 1, s)
    ensures HoldsEntry(After(events, n), events, n, s)
  {
    hide Trim, Normalized;
    var e, k := events[n - 1], LatestNote(events, n, s);
    if !NotesFor(e, s) && k >= 0 {
      var expiry := events[k].at + TTL_MS;
      assert DeletedSince(events, k, n, s, expiry)
        <==> DeletedSince(events, k, n - 1, s, expiry) || Deletes(events, n - 1, s, expiry) by {
        if Deletes(events, n - 1, s, expiry) {}
        if DeletedSince(events, k, n - 1, s, expiry) {
          var i :| k < i < n - 1 && Deletes(events, i, s, expiry);
          assert Deletes(events, i, s, expiry);
        }
      }
    }
  }

  lemma {:induction false} WritesAreNotes(events: seq<Event>, n: nat)
    requires n <= |events|
    ensures After(events, n).writes == NoteCount(events, n)
    ensures "" !in After(events, n).origins
  {
    hide Trim, Normalized;
    if n > 0 { WritesAreNotes(events, n - 1); }
  }

  lemma EmptyHoldsNothing(events: seq<Event>, s: string)
    ensures HoldsEntry(After(events, 0), events, 0, s)
  {
    hide Deleted;
    assert LatestNote(events, 0, s) == -1;
  }

  /** After any run, on any clock, the table holds exactly the latest note of a session, unless a
    later event deleted it. */
  lemma {:induction false} TableHoldsLog(events: seq<Event>, n: nat, s: string)
    requires n <= |events| && s != ""
    ensures HoldsEntry(After(events, n), events, n, s)
  {
    hide HoldsEntry, After, NoteCount;
    if n == 0 {
      EmptyHoldsNothing(events, s);
    } else {
      WritesAreNotes(events, n - 1);
      TableHoldsLog(events, n - 1, s);
      TableHoldsEntry(events, n, s);
    }
  }

  /** The guard's answer after any run, on any clock, forwards or not. */
  lemma {:induction false} AnswerFromLog(
      events: seq<Event>, n: nat, session: Option<string>, account: Option<string>, now: int)
    requires n <= |events|
    ensures Queried(After(events, n), session, account, now).1
         <==> CrossByLog(events, n, session, account, now) && !Deleted(events, n, Normalized(session))
  {
    hide Trim, Normalized, After;
    if Normalized(session) != "" { TableHoldsLog(events, n, Normalized(session)); }
  }

  /** On a clock that jumps back the table may have forgotten what the log still counts as live. */
  lemma {:induction false} BackwardClockForgets()
    ensures var events := [Note(Some("s"), Some("a"), 0), Query(Some("s"), Some("b"), TTL_MS)];
            CrossByLog(events, 2, Some("s"), Some("b"), 0) && !Queried(After(events, 2), Some("s"), Some("b"), 0).1
  {
    var events := [Note(Some("s"), Some("a"), 0), Query(Some("s"), Some("b"), TTL_MS)];
    TrimFixesTrimmed("s");
    TrimFixesTrimmed("a");
    TrimFixesTrimmed("b");
    assert LatestNote(events, 1, "s") == 0 == LatestNote(events, 2, "s");
    assert Deletes(events, 1, "s", TTL_MS);
    AnswerFromLog(events, 2, Some("s"), Some("b"), 0);
  }

  /** `e` notes session `s` for some account. */
  predicate IsNoteOf(e: Event, s: string) {
    e.Note? && e.session.Some? && Trim(e.session.value) == s && e.account.Some? && Trim(e.account.value) != ""
  }

  /** The note at `k` is the latest for session `s`. */
  predicate IsLatest(events: seq<Event>, n: nat, s: string, k: nat)
    requires k < n <= |events|
  {
    IsNoteOf(events[k], s) && forall j :: k < j < n ==> !IsNoteOf(events[j], s)
  }

  /** The latest note for the session, less than two hours old, names another account. */
  ghost predicate CrossByNotes(
      events: seq<Event>, n: nat, session: Option<string>, account: Option<string>, now: int)
    requires n <= |events|
  {
    && session.Some? && Trim(session.value) != "" && account.Some? && Trim(account.value) != ""
    && exists k: nat :: k < n && IsLatest(events, n, Trim(session.value), k)
                        && Trim(events[k].account.value) != Trim(account.value)
                        && now < events[k].at + 7_200_000
  }

  lemma NoteForms(e: Event, s: string)
    requires s != ""
    ensures NotesFor(e, s) <==> IsNoteOf(e, s)
  {
    hide Trim;
  }

  lemma LatestIs(events: seq<Event>, n: nat, s: string, k: nat)
    requires k < n <= |events| && s != ""
    ensures LatestNote(events, n, s) == k <==> IsLatest(events, n, s, k)
  {
    hide Trim;
    LatestNoteIsLatest(events, n, s);
    forall j | 0 <= j < n ensures NotesFor(events[j], s) <==> IsNoteOf(events[j], s) { NoteForms(events[j], s); }
  }

  lemma LatestNamesAccount(events: seq<Event>, n: nat, s: string, k: nat)
    requires k < n <= |events| && IsLatest(events, n, s, k)
    ensures events[k].account.Some? && Normalized(events[k].account) == Trim(events[k].account.value)
  {
    hide Trim;
  }

  /** The log's answer in terms of the raw events. */
  lemma CrossByLogIff(events: seq<Event>, n: nat, session: Option<string>, account: Option<string>, now: int)
    requires n <= |events|
    ensures CrossByLog(events, n, session, account, now) <==> CrossByNotes(events, n, session, account, now)
  {
    hide Trim, IsLatest, LatestNote;
    var s := Normalized(session);
    if s != "" {
      forall k: nat | k < n ensures LatestNote(events, n, s) == k <==> IsLatest(events, n, s, k) {
        LatestIs(events, n, s, k);
      }
      var k := LatestNote(events, n, s);
      if k >= 0 { LatestNamesAccount(events, n, s, k); }
    }
  }

  /** When the clock does not go back, lazy deletes and sweeps are never visible: the guard answers as
    the log of all notes does. */
  lemma {:induction false} GuardRefinesLog(
      events: seq<Event>, n: nat, session: Option<string>, account: Option<string>, now: int)
    requires n <= |events| && Monotone(events, n, now)
    ensures Queried(After(events, n), session, account, now).1 <==> CrossByNotes(events, n, session, account, now)
  {
    hide Trim, Normalized, After, Queried, CrossByNotes;
    AnswerFromLog(events, n, session, account, now);
    CrossByLogIff(events, n, session, account, now);
  }

  // ---- Size ----

  predicate IsLive(events: seq<Event>, n: nat, s: string, now: int)
    requires n <= |events|
  {
    var k := LatestNote(events, n, s);
    k >= 0 && now < events[k].at + TTL_MS
  }

  function Sessions(events: seq<Event>): set<string> {
    set i | 0 <= i < |events| :: Normalized(events[i].session)
  }

  function LiveSessions(events: seq<Event>, n: nat, now: int): set<string>
    requires n <= |events|
  {
    set s | s in Sessions(events) && IsLive(events, n, s, now)
  }

  /** How many of the first `n` events there were when the table was last swept, 0 when it never was. */
  function LastSweep(events: seq<Event>, n: nat): (i: nat)
    requires n <= |events|
    ensures i <= n
  {
    if n == 0 then 0 else if IsSweep(events, n - 1) then n else LastSweep(events, n - 1)
  }

  lemma {:induction false} LastSweepIsLast(events: seq<Event>, n: nat)
    requires n <= |events|
    ensures var i := LastSweep(events, n);
            (i > 0 ==> IsSweep(events, i - 1)) && forall j :: i <= j < n ==> !IsSweep(events, j)
  {
    hide IsSweep;
    if n > 0 && LastSweep(events, n) != n { LastSweepIsLast(events, n - 1); }
  }

  function LiveAtLastSweep(events: seq<Event>, n: nat): nat
    requires n <= |events|
  {
    var i := LastSweep(events, n);
    if i == 0 then 0 else |LiveSessions(events, i, events[i - 1].at)|
  }

  lemma SubsetSize<T>(a: set<T>, b: set<T>)
    requires a <= b
    ensures |a| <= |b|
  {
    assert b == a + (b - a);
  }

  lemma {:induction false} HeldIsNoted(events: seq<Event>, n: nat, s: string)
    requires n <= |events| && s in After(events, n).origins
    ensures s in Sessions(events)
    ensures var k := LatestNote(events, n, s);
            k >= 0 && After(events, n).origins[s].expiresAt == events[k].at + TTL_MS
  {
    hide Trim, Normalized, After;
    WritesAreNotes(events, n);
    TableHoldsLog(events, n, s);
    LatestNoteIsLatest(events, n, s);
  }

  lemma LiveIsHeld(events: seq<Event>, n: nat, s: string, now: int)
    requires n <= |events| && Monotone(events, n, now) && IsLive(events, n, s, now)
    ensures s in After(events, n).origins
  {
    hide Trim, After;
    LatestNoteIsLatest(events, n, s);
    TableHoldsLog(events, n, s);
  }

  lemma {:induction false} SweepLeavesUnexpired(events: seq<Event>, n: nat, s: string)
    requires 0 < n <= |events| && IsSweep(events, n - 1)
    requires s in After(events, n).origins
    ensures events[n - 1].at < After(events, n).origins[s].expiresAt
  {
    hide Trim, Normalized;
    WritesAreNotes(events, n - 1);
  }

  /** Right after a sweep only live sessions are left; on a clock that does not go back, all of them. */
  lemma {:induction false} SweepLeavesLive(events: seq<Event>, n: nat)
    requires 0 < n <= |events| && IsSweep(events, n - 1)
    ensures var now := events[n - 1].at;
            && After(events, n).origins.Keys <= LiveSessions(events, n, now)
            && (Monotone(events, n, now) ==> After(events, n).origins.Keys == LiveSessions(events, n, now))
  {
    hide Trim, Normalized, After, IsSweep, LatestNote;
    var now := events[n - 1].at;
    forall s | s in After(events, n).origins ensures s in LiveSessions(events, n, now) {
      SweepLeavesUnexpired(events, n, s);
      HeldIsNoted(events, n, s);
    }
    if Monotone(events, n, now) {
      forall s | s in LiveSessions(events, n, now) ensures s in After(events, n).origins {
        LiveIsHeld(events, n, s, now);
      }
    }
  }

  lemma {:induction false} NotedSize(t: Table, session: Option<string>, account: Option<string>, now: int)
    ensures var r := Noted(t, session, account, now);
            r.writes == t.writes || |r.origins| <= |t.origins| + 1
    ensures Noted(t, session, account, now).writes == t.writes ==> Noted(t, session, account, now) == t
  {
    hide Trim, Normalized;
    var r := Noted(t, session, account, now);
    if r.writes != t.writes {
      SubsetSize(r.origins.Keys, t.origins.Keys + {Normalized(session)});
    }
  }

  lemma QueriedSize(t: Table, session: Option<string>, account: Option<string>, now: int)
    ensures var r := Queried(t, session, account, now).0;
            r.writes == t.writes && |r.origins| <= |t.origins|
  {
    hide Trim, Normalized;
    var r := Queried(t, session, account, now).0;
    SubsetSize(r.origins.Keys, t.origins.Keys);
  }

  /** How many writes of a table came after the last that was a sweep. */
  function SinceSweep(writes: nat): nat { writes % 256 }

  lemma {:induction false} CountStep(events: seq<Event>, n: nat)
    requires 0 < n <= |events|
    ensures IsSweep(events, n - 1) ==> SinceSweep(NoteCount(events, n)) == 0
    ensures !IsSweep(events, n - 1) ==> LiveAtLastSweep(events, n) == LiveAtLastSweep(events, n - 1)
    ensures !IsSweep(events, n - 1) ==>
              SinceSweep(NoteCount(events, n)) - SinceSweep(NoteCount(events, n - 1))
              == NoteCount(events, n) - NoteCount(events, n - 1)
  {
    hide Trim, Normalized;
  }

  lemma {:induction false} StepSize(events: seq<Event>, n: nat)
    requires 0 < n <= |events|
    ensures |After(events, n).origins|
         <= |After(events, n - 1).origins| + (NoteCount(events, n) - NoteCount(events, n - 1))
  {
    hide Trim, Normalized;
    WritesAreNotes(events, n);
    WritesAreNotes(events, n - 1);
    match events[n - 1]
    case Note(session, account, at) =>
      NotedSize(After(events, n - 1), session, account, at);
      hide Noted;
    case Query(session, account, at) =>
      hide Queried;
      QueriedSize(After(events, n - 1), session, account, at);
  }

  lemma {:induction false} SizeAfterSweep(events: seq<Event>, n: nat)
    requires 0 < n <= |events| && IsSweep(events, n - 1)
    ensures |After(events, n).origins| <= LiveAtLastSweep(events, n)
  {
    hide LiveSessions, IsSweep, After;
    SweepLeavesLive(events, n);
    SubsetSize(After(events, n).origins.Keys, LiveSessions(events, n, events[n - 1].at));
  }

  lemma EmptyTable(events: seq<Event>)
    ensures |After(events, 0).origins| == 0
  {
  }

  /** The table never holds more than the sessions live at the last sweep plus the writes since. */
  lemma {:induction false} TableSizeBound(events: seq<Event>, n: nat)
    requires n <= |events|
    ensures |After(events, n).origins| <= LiveAtLastSweep(events, n) + SinceSweep(After(events, n).writes)
  {
    hide After, LiveAtLastSweep, NoteCount, IsSweep, SinceSweep;
    WritesAreNotes(events, n);
    if n == 0 {
      EmptyTable(events);
    } else {
      TableSizeBound(events, n - 1);
      WritesAreNotes(events, n - 1);
      CountStep(events, n);
      if IsSweep(events, n - 1) { SizeAfterSweep(events, n); } else { StepSize(events, n); }
    }
  }

  // ---- The echo guard on request headers ----

  /** A header bag as an insertion-ordered record; None is a value that is not a string. */
  type Headers = seq<(string, Option<string>)>

  function NamedHeader(headers: Headers, name: string): (r: Option<string>)
    ensures r.Some? ==> r.value != "" && Trimmed(r.value)
  {
    if headers == [] then None
    else if Lower(headers[0].0) == name && headers[0].1.Some? && Trim(headers[0].1.value) != ""
    then Some(Trim(headers[0].1.value))
    else NamedHeader(headers[1..], name)
  }

  /** Position `i` holds some text under `name`, in any case. */
  predicate Carries(headers: Headers, name: string, i: nat)
    requires i < |headers|
  {
    Lower(headers[i].0) == name && headers[i].1.Some? && Trim(headers[i].1.value) != ""
  }

  /** `v` is the trimmed text of the first position that holds some under `name`. */
  predicate IsFirstText(headers: Headers, name: string, v: string) {
    exists i: nat :: i < |headers| && Carries(headers, name, i) && v == Trim(headers[i].1.value)
                     && forall j: nat :: j < i ==> !Carries(headers, name, j)
  }

  lemma {:induction false} NamedHeaderIsFirst(headers: Headers, name: string)
    ensures match NamedHeader(headers, name)
            case Some(v) => IsFirstText(headers, name, v)
            case None => forall i: nat :: i < |headers| ==> !Carries(headers, name, i)
  {
    hide Lower, Trim;
    if headers != [] && !Carries(headers, name, 0) {
      var rest := headers[1..];
      NamedHeaderIsFirst(rest, name);
      assert NamedHeader(headers, name) == NamedHeader(rest, name);
      forall i: nat | 0 < i < |headers| ensures Carries(headers, name, i) <==> Carries(rest, name, i - 1) {
        assert rest[i - 1] == headers[i];
      }
      if NamedHeader(rest, name).Some? {
        var v := NamedHeader(rest, name).value;
        var i: nat :| i < |rest| && Carries(rest, name, i) && v == Trim(rest[i].1.value)
                      && forall j: nat :: j < i ==> !Carries(rest, name, j);
        assert Carries(headers, name, i + 1) && v == Trim(headers[i + 1].1.value);
      }
    }
  }

  lemma FirstTextUnique(headers: Headers, name: string, v: string, w: string)
    requires IsFirstText(headers, name, v) && IsFirstText(headers, name, w)
    ensures v == w
  {
    hide Carries;
  }

  predicate IsSessionIdChar(c: char) {
    'A' <= c <= 'Z' || 'a' <= c <= 'z' || '0' <= c <= '9' || c == '.' || c == '_' || c == ':' || c == '-'
  }

  function SessionIdHeader(headers: Headers, name: string): Option<string> {
    match NamedHeader(headers, name)
    case Some(v) => if |v| <= 200 && forall c :: c in v ==> IsSessionIdChar(c) then Some(v) else None
    case None => None
  }

  function ClientSessionId(headers: Headers): Option<string> {
    var id := SessionIdHeader(headers, "session-id");
    if id.Some? then id else SessionIdHeader(headers, "session_id")
  }

  /** `v` is a usable session id: at most 200 letters, digits, dots, underscores, colons and hyphens. */
  predicate IsLegalId(v: string) {
    && 1 <= |v| <= 200
    && forall c :: c in v ==> var n := c as int; 48 <= n <= 57 || 65 <= n <= 90 || 97 <= n <= 122 || c in "._:-"
  }

  /** The first text under `name` is `v`, and usable as a session id. */
  predicate Offers(headers: Headers, name: string, v: string) { IsFirstText(headers, name, v) && IsLegalId(v) }

  /** Session ids stand under "session-id", or else under "session_id". */
  ghost predicate IsSessionId(headers: Headers, v: string) {
    || Offers(headers, "session-id", v)
    || ((forall w :: !Offers(headers, "session-id", w)) && Offers(headers, "session_id", v))
  }

  lemma LegalIds(v: string)
    requires v != ""
    ensures IsLegalId(v) <==> |v| <= 200 && forall c :: c in v ==> IsSessionIdChar(c)
  {
  }

  lemma NoFirstText(headers: Headers, name: string, v: string)
    requires IsFirstText(headers, name, v)
    ensures NamedHeader(headers, name).Some?
  {
    hide Carries;
    NamedHeaderIsFirst(headers, name);
  }

  lemma SessionIdHeaderIs(headers: Headers, name: string)
    ensures match SessionIdHeader(headers, name)
            case Some(v) => Offers(headers, name, v)
            case None => forall v :: !Offers(headers, name, v)
  {
    hide IsFirstText, IsSessionIdChar;
    NamedHeaderIsFirst(headers, name);
    forall v | v != "" ensures IsLegalId(v) <==> |v| <= 200 && forall c :: c in v ==> IsSessionIdChar(c) {
      LegalIds(v);
    }
    hide IsLegalId;
    forall v | IsFirstText(headers, name, v) ensures NamedHeader(headers, name) == Some(v) {
      NoFirstText(headers, name, v);
      if NamedHeader(headers, name).Some? { FirstTextUnique(headers, name, v, NamedHeader(headers, name).value); }
    }
  }

  /** Which session id the client sends, if any. */
  lemma ClientSessionIdIs(headers: Headers)
    ensures match ClientSessionId(headers)
            case Some(v) => IsSessionId(headers, v)
            case None => forall v :: !IsSessionId(headers, v)
  {
    hide SessionIdHeader, Offers;
    SessionIdHeaderIs(headers, "session-id");
    SessionIdHeaderIs(headers, "session_id");
  }

  function EchoResolved(t: Table, headers: Headers, account: Option<string>, now: int): (Table, Option<string>) {
    var value, id := NamedHeader(headers, HEADER), ClientSessionId(headers);
    if value.None? || id.None? then (t, value)
    else
      var (t', cross) := Queried(t, id, account, now);
      (t', if cross then None else value)
  }

  /** What goes upstream for the client's echo, in terms of header positions and raw events: the first text
    under "x-codex-turn-state", unless the client sends a session id whose latest note, less than two hours
    old, names another account. */
  ghost predicate EchoAsNoted(
      echo: Option<string>, headers: Headers, events: seq<Event>, n: nat, account: Option<string>, now: int)
    requires n <= |events|
  {
    match echo
    case Some(v) =>
      && IsFirstText(headers, "x-codex-turn-state", v)
      && forall id :: IsSessionId(headers, id) ==> !CrossByNotes(events, n, Some(id), account, now)
    case None =>
      || (forall v :: !IsFirstText(headers, "x-codex-turn-state", v))
      || exists id :: IsSessionId(headers, id) && CrossByNotes(events, n, Some(id), account, now)
  }

  lemma SessionIdUnique(headers: Headers, v: string)
    requires IsSessionId(headers, v)
    ensures ClientSessionId(headers) == Some(v)
  {
    hide IsFirstText, IsLegalId, ClientSessionId;
    ClientSessionIdIs(headers);
    var w := ClientSessionId(headers).value;
    if Offers(headers, "session-id", v) {
      FirstTextUnique(headers, "session-id", v, w);
    } else {
      FirstTextUnique(headers, "session_id", v, w);
    }
  }

  lemma EchoByLog(events: seq<Event>, n: nat, headers: Headers, account: Option<string>, now: int)
    requires n <= |events| && Monotone(events, n, now)
    ensures EchoResolved(After(events, n), headers, account, now).1
         == if CrossByLog(events, n, ClientSessionId(headers), account, now) then None else NamedHeader(headers, HEADER)
  {
    assert !CrossByLog(events, n, None, account, now);
    hide Trim, After, Queried, CrossByLog, CrossByNotes;
    GuardRefinesLog(events, n, ClientSessionId(headers), account, now);
    CrossByLogIff(events, n, ClientSessionId(headers), account, now);
  }

  lemma NotCrossWithout(events: seq<Event>, n: nat, account: Option<string>, now: int)
    requires n <= |events|
    ensures !CrossByNotes(events, n, None, account, now)
  {
  }

  lemma NotFirstText(headers: Headers, name: string)
    ensures NamedHeader(headers, name).None? ==> forall v :: !IsFirstText(headers, name, v)
  {
    hide Carries;
    NamedHeaderIsFirst(headers, name);
  }

  /** The guard never injects: it passes the client's own value, or drops it when, and only when, the
    events say that another account minted it. */
  lemma {:induction false} EchoPassesOrDrops(
      events: seq<Event>, n: nat, headers: Headers, account: Option<string>, now: int)
    requires n <= |events| && Monotone(events, n, now)
    ensures EchoAsNoted(EchoResolved(After(events, n), headers, account, now).1, headers, events, n, account, now)
  {
    hide Trim, After, EchoResolved, CrossByLog, CrossByNotes, IsFirstText, IsSessionId, ClientSessionId;
    EchoByLog(events, n, headers, account, now);
    NamedHeaderIsFirst(headers, HEADER);
    NotFirstText(headers, HEADER);
    ClientSessionIdIs(headers);
    var id := ClientSessionId(headers);
    CrossByLogIff(events, n, id, account, now);
    NotCrossWithout(events, n, account, now);
    forall v | IsSessionId(headers, v) ensures id == Some(v) { SessionIdUnique(headers, v); }
  }
}
