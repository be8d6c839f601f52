/** The live provenance table: module state updated in place, tied to the log of everything that
  was noted and asked. */
module CodexTurnState {
  import opened Basics
  import opened TurnStateTable

  lemma {:induction false} AfterPrefix(log: seq<Event>, e: Event, n: nat)
    requires n <= |log|
    ensures After(log + [e], n) == After(log, n)
  {
    hide Noted, Queried;
    if n > 0 { AfterPrefix(log, e, n - 1); }
  }

  lemma AfterAppended(log: seq<Event>, e: Event)
    ensures After(log + [e], |log| + 1)
         == match e
            case Note(session, account, at) => Noted(After(log, |log|), session, account, at)
            case Query(session, account, at) => Queried(After(log, |log|), session, account, at).0
  {
    hide Noted, Queried;
    AfterPrefix(log, e, |log|);
    assert (log + [e])[|log|] == e;
  }

  class Provenance {
    var origins: map<string, Origin>
    var writes: nat
    ghost var log: seq<Event>

    /** The state is the one the log leads to. */
    ghost predicate Valid()
      reads this
    {
      Table(origins, writes) == After(log, |log|)
    }

    constructor ()
      ensures Valid() && log == []
    {
      origins, writes := map[], 0;
      log := [];
    }

    /** One pass over the keys there are, deleting what has expired. */
    method Sweep(now: int)
      modifies this`origins
      ensures origins == Swept(old(origins), now)
    {
      ghost var was := origins;
      var visiting := origins.Keys;
      while visiting != {}
        invariant visiting <= origins.Keys <= was.Keys
        invariant forall s :: s in origins ==> origins[s] == was[s]
        invariant forall s :: s in was && s !in visiting ==> (s in origins <==> now < was[s].expiresAt)
        decreases |visiting|
      {
        var s :| s in visiting;
        visiting := visiting - {s};
        if origins[s].expiresAt <= now { origins := origins - {s}; }
      }
    }

    method Note(session: Option<string>, account: Option<string>, now: int)
      requires Valid()
      modifies this
      ensures Valid() && log == old(log) + [Event.Note(session, account, now)]
      ensures Table(origins, writes) == Noted(old(Table(origins, writes)), session, account, now)
    {
      hide After, Normalized;
      log := log + [Event.Note(session, account, now)];
      AfterAppended(old(log), Event.Note(session, account, now));
      var s, a := Normalized(session), Normalized(account);
      if s == "" || a == "" { return; }
      origins := origins[s := Origin(a, now + TTL_MS)];
      writes := writes + 1;
      if writes % SWEEP_EVERY == 0 { Sweep(now); }
    }

    /** True when the blob of this session is known to come from another account. */
    method IsCrossAccount(session: Option<string>, account: Option<string>, now: int) returns (cross: bool)
      requires Valid()
      modifies this
      ensures Valid() && log == old(log) + [Query(session, account, now)]
      ensures (Table(origins, writes), cross) == Queried(old(Table(origins, writes)), session, account, now)
      ensures Monotone(old(log), |old(log)|, now) ==>
                (cross <==> CrossByNotes(old(log), |old(log)|, session, account, now))
    {
      hide After, Normalized, CrossByLog, CrossByNotes, Monotone;
      log := log + [Query(session, account, now)];
      AfterAppended(old(log), Query(session, account, now));
      if Monotone(old(log), |old(log)|, now) {
        GuardRefinesLog(old(log), |old(log)|, session, account, now);
      }
      var s, a := Normalized(session), Normalized(account);
      if s == "" || a == "" || s !in origins { return false; }
      var origin := origins[s];
      if origin.expiresAt <= now {
        origins := origins - {s};
        return false;
      }
      cross := origin.accountKey != a;
    }

    /** What goes upstream for the client's echo. */
    method ResolveEcho(headers: Headers, account: Option<string>, now: int) returns (echo: Option<string>)
      requires Valid()
      modifies this
      ensures Valid()
      ensures (Table(origins, writes), echo) == EchoResolved(old(Table(origins, writes)), headers, account, now)
      ensures Monotone(old(log), |old(log)|, now) ==>
                EchoAsNoted(echo, headers, old(log), |old(log)|, account, now)
    {
      hide After, Normalized, CrossByNotes, EchoAsNoted, Monotone, Queried;
      if Monotone(log, |log|, now) { EchoPassesOrDrops(log, |log|, headers, account, now); }
      var value := NamedHeader(headers, HEADER);
      if value.None? { return None; }
      var session := ClientSessionId(headers);
      if session.Some? {
        var cross := IsCrossAccount(session, account, now);
        if cross { return None; }
      }
      echo := value;
    }

    /** However long the process runs, the table stays small. */
    lemma Bounded()
      requires Valid()
      ensures |origins| <= LiveAtLastSweep(log, |log|) + SinceSweep(writes)
    {
      TableSizeBound(log, |log|);
    }
  }
}
