/** A database over several runs of the server, each under a setup of its own, each killed at any step. */
module Sessions {
  import opened Commitments
  import opened Consistency
  import opened Handlers
  import opened History
  import opened Invariants
  import opened Layout
  import opened Names
  import opened Queries
  import opened Results
  import opened Schemas
  import opened Service
  import opened Store

  /** One run of the server: what it is started with, and the steps taken until it is killed. */
  datatype Session = Session(server: Server, schedule: seq<Step>)

  function Reached(session: Session, d: Disk): System {
    Interleave(session.server, Started(d), session.schedule)
  }

  function DiskAfter(d: Disk, sessions: seq<Session>): Disk {
    if sessions == [] then d
    else Reached(sessions[|sessions| - 1], DiskAfter(d, sessions[..|sessions| - 1])).disk
  }

  /** The log, with the request that held the lock when the server was killed, if any, as its last entry. */
  function FullLog(s: System): seq<Entry> {
    if s.holder.Some? && s.holder.value in s.threads then
      var thread := s.threads[s.holder.value];
      s.log + [Entry(s.holder.value, thread.request, Written(thread.pc), false, Failed(DbError.Io))]
    else s.log
  }

  function EventsAcross(d: Disk, sessions: seq<Session>): seq<Event> {
    if sessions == [] then []
    else
      var before, last := sessions[..|sessions| - 1], sessions[|sessions| - 1];
      EventsAcross(d, before) + EventsOf(last.server, DiskAfter(d, before), FullLog(Reached(last, DiskAfter(d, before))))
  }

  /** Every session's setup comes from the one ceremony; sizes, engines and decoders may differ. */
  ghost predicate OneCeremony(tau: Ceremony, sessions: seq<Session>) {
    forall i :: 0 <= i < |sessions| ==> sessions[i].server.tau == tau
  }

  // ---- Sessions are a history ----

  /** Being killed is one more failed access: whatever was on the disk is explained by the full log. */
  lemma KilledIsExplained(server: Server, d: Disk, schedule: seq<Step>)
    ensures var s := Interleave(server, Started(d), schedule);
            s.disk == Replay(server, d, FullLog(s)) && LogHolds(server, d, FullLog(s))
  {
    var s := Interleave(server, Started(d), schedule);
    EveryInterleaving(server, d, schedule);
    if s.holder.Some? {
      ReleaseKeeps(server, d, s, s.holder.value, Ready(Failed(DbError.Io)), false);
    }
  }

  lemma {:induction false} RunSplits(tau: Ceremony, d: Disk, a: seq<Event>, b: seq<Event>)
    ensures Run(tau, d, a + b) == Run(tau, Run(tau, d, a), b)
  {
    if b == [] {
      assert a + b == a;
    } else {
      assert (a + b)[..|a + b| - 1] == a + b[..|b| - 1];
      RunSplits(tau, d, a, b[..|b| - 1]);
    }
  }

  lemma {:induction false} AllCleanSplits(tau: Ceremony, d: Disk, a: seq<Event>, b: seq<Event>, t: TableRef)
    ensures AllClean(tau, d, a + b, t) <==> AllClean(tau, d, a, t) && AllClean(tau, Run(tau, d, a), b, t)
  {
    if b == [] {
      assert a + b == a;
    } else {
      var rest := b[..|b| - 1];
      assert (a + b)[..|a + b| - 1] == a + rest;
      AllCleanSplits(tau, d, a, rest, t);
      RunSplits(tau, d, a, rest);
    }
  }

  lemma {:induction false} SessionIsRun(session: Session, d: Disk)
    ensures Reached(session, d).disk == Run(session.server.tau, d, EventsOf(session.server, d, FullLog(Reached(session, d))))
  {
    KilledIsExplained(session.server, d, session.schedule);
    ReplayIsRun(session.server, d, FullLog(Reached(session, d)));
  }

  /** Whatever several runs of the server do is one database history. */
  lemma {:induction false} SessionsAreRun(tau: Ceremony, d: Disk, sessions: seq<Session>)
    requires OneCeremony(tau, sessions)
    ensures DiskAfter(d, sessions) == Run(tau, d, EventsAcross(d, sessions))
  {
    if sessions != [] {
      var before, last := sessions[..|sessions| - 1], sessions[|sessions| - 1];
      SessionsAreRun(tau, d, before);
      SessionIsRun(last, DiskAfter(d, before));
      RunSplits(tau, d, EventsAcross(d, before), EventsOf(last.server, DiskAfter(d, before), FullLog(Reached(last, DiskAfter(d, before)))));
    }
  }

  // ---- What restarts keep ----

  lemma SessionServable(session: Session, d: Disk)
    requires Servable(session.server.tau, d)
    ensures Servable(session.server.tau, Reached(session, d).disk)
  {
    KilledIsExplained(session.server, d, session.schedule);
    LogStaysServable(session.server, d, FullLog(Reached(session, d)));
  }

  /** Whatever was there when the server was killed, it can be started on again, and all that holds of
      one run of it holds of the next. */
  lemma {:induction false} RestartsAreServable(tau: Ceremony, d: Disk, sessions: seq<Session>)
    requires Servable(tau, d) && OneCeremony(tau, sessions)
    ensures Servable(tau, DiskAfter(d, sessions))
  {
    if sessions != [] {
      RestartsAreServable(tau, d, sessions[..|sessions| - 1]);
      SessionServable(sessions[|sessions| - 1], DiskAfter(d, sessions[..|sessions| - 1]));
    }
  }

  lemma EmptyIsServable(tau: Ceremony)
    ensures Servable(tau, map[])
  {
  }

  /** Over any runs of the server, under setups of any sizes, killed anywhere: a table's commitment is
      that of the data read back exactly when every write of every run was clean for it. */
  lemma {:induction false} RestartsMatchIff(tau: Ceremony, d: Disk, sessions: seq<Session>, t: TableRef)
    requires Good(tau, d) && OneCeremony(tau, sessions)
    requires t in DiskAfter(d, sessions) && |ParquetPaths(DiskAfter(d, sessions)[t])| <= LIMIT
    ensures Matches(tau, DiskAfter(d, sessions), t) <==>
            (t in d ==> Whole(tau, ViewOf(d[t]))) && AllClean(tau, d, EventsAcross(d, sessions), t)
  {
    SessionsAreRun(tau, d, sessions);
    RunMatchesIff(tau, d, EventsAcross(d, sessions), t);
  }

  predicate AllServed(session: Session, d: Disk) {
    forall i :: 0 <= i < |FullLog(Reached(session, d))| ==> Served(FullLog(Reached(session, d))[i])
  }

  /** No run was killed inside a request, and no request gave up after storing its batch. */
  predicate AllSessionsServed(d: Disk, sessions: seq<Session>) {
    sessions == [] ||
    (var before := sessions[..|sessions| - 1];
     AllSessionsServed(d, before) && AllServed(sessions[|sessions| - 1], DiskAfter(d, before)))
  }

  lemma SessionIsClean(session: Session, d: Disk, t: TableRef)
    requires Good(session.server.tau, d) && AllServed(session, d)
    ensures AllClean(session.server.tau, d, EventsOf(session.server, d, FullLog(Reached(session, d))), t)
  {
    KilledIsExplained(session.server, d, session.schedule);
    ServedLogIsClean(session.server, d, FullLog(Reached(session, d)), t);
  }

  lemma {:induction false} ServedSessionsAreClean(tau: Ceremony, d: Disk, sessions: seq<Session>, t: TableRef)
    requires Good(tau, d) && OneCeremony(tau, sessions) && AllSessionsServed(d, sessions)
    ensures AllClean(tau, d, EventsAcross(d, sessions), t)
  {
    if sessions != [] {
      var before, last := sessions[..|sessions| - 1], sessions[|sessions| - 1];
      var state := DiskAfter(d, before);
      ServedSessionsAreClean(tau, d, before, t);
      SessionsAreRun(tau, d, before);
      GoodRun(tau, d, EventsAcross(d, before));
      SessionIsClean(last, state, t);
      AllCleanSplits(tau, d, EventsAcross(d, before), EventsOf(last.server, state, FullLog(Reached(last, state))), t);
    }
  }

  /** In particular, from an empty database, when every run served its requests to their ends. */
  lemma {:induction false} RestartsMatch(tau: Ceremony, sessions: seq<Session>, t: TableRef)
    requires OneCeremony(tau, sessions) && AllSessionsServed(map[], sessions)
    requires t in DiskAfter(map[], sessions) && |ParquetPaths(DiskAfter(map[], sessions)[t])| <= LIMIT
    ensures Matches(tau, DiskAfter(map[], sessions), t)
  {
    ServedSessionsAreClean(tau, map[], sessions, t);
    RestartsMatchIff(tau, map[], sessions, t);
  }

  /** No reply of any run, over whatever earlier runs left behind, reports a schema gone wrong, and an
      append fails exactly for want of room in the setup of the run it is made in. */
  lemma {:induction false} RestartsKeepSchemas(tau: Ceremony, earlier: seq<Session>, session: Session, i: nat)
    requires OneCeremony(tau, earlier) && session.server.tau == tau
    requires i < |Reached(session, DiskAfter(map[], earlier)).log|
    ensures var d := DiskAfter(map[], earlier);
            var log := Reached(session, d).log;
      && !SchemaFailure(log[i].reply)
      && (log[i].reply == Failed(DbError.Append) <==>
            log[i].completed && OutOfRoom(session.server, Replay(session.server, d, log[..i]), log[i].request))
  {
    EmptyIsServable(tau);
    RestartsAreServable(tau, map[], earlier);
    NoSchemaFailures(session.server, DiskAfter(map[], earlier), session.schedule, i);
  }

  // ---- A response outlives the server that gave it ----

  lemma {:induction false} LogReaches(session: Session, d: Disk, before: seq<Entry>, after: seq<Entry>, state: Disk)
    requires FullLog(Reached(session, d)) == before + after && state == Replay(session.server, d, before)
    ensures Reached(session, d).disk == Run(session.server.tau, state, EventsOf(session.server, state, after))
  {
    KilledIsExplained(session.server, d, session.schedule);
    ReplayOn(session.server, d, before, after, state);
  }

  lemma {:induction false} LoggedOutlives(session: Session, d: Disk, before: seq<Entry>, after: seq<Entry>, state: Disk,
                                          past: seq<Event>, rest: seq<Event>, later: seq<Session>, next: seq<Event>,
                                          sql: string, response: Response, order: seq<TableRef>)
    requires Good(session.server.tau, d) && OneCeremony(session.server.tau, later)
    requires FullLog(Reached(session, d)) == before + after && state == Replay(session.server, d, before)
    requires past == EventsOf(session.server, d, before) && rest == EventsOf(session.server, state, after)
    requires next == EventsAcross(Reached(session, d).disk, later)
    requires Answer(session.server.engine, session.server.tau, state, sql) == Ok(response)
    requires Walks(order, response.tables) && session.server.engine.refs(sql).Some?
    requires forall t :: t in session.server.engine.refs(sql).value ==> CleanSoFar(session.server.tau, d, past, t)
    ensures VerifyCommand(session.server.engine, Some(DiskAfter(Reached(session, d).disk, later)), sql, response, order).Ok? <==>
            forall t :: t in session.server.engine.refs(sql).value ==> AllQuiet(session.server.tau, state, rest + next, t)
  {
    var server := session.server;
    LogReaches(session, d, before, after, state);
    SessionsAreRun(server.tau, Reached(session, d).disk, later);
    RunSplits(server.tau, state, rest, next);
    ReplayIsRun(server, d, before);
    CleanResponseVerifiesIff(server.engine, server.tau, d, past, state, rest + next, sql, response, order);
  }

  lemma FullLogSplits(s: System, entry: nat)
    requires entry <= |s.log|
    ensures FullLog(s) == s.log[..entry] + FullLog(s)[entry..]
  {
  }

  /** A response given in any run verifies against what that run and any later ones leave, wherever
      each is killed, exactly when none of their requests since committed a row to, or tore the
      commitment of, a table it reads. `past` is what happened before it was proved, none of it
      parting those tables. */
  lemma {:induction false} ResponseOutlivesIff(session: Session, d: Disk, s: System, id: ThreadId, entry: nat,
                                               before: seq<Entry>, after: seq<Entry>, state: Disk,
                                               past: seq<Event>, rest: seq<Event>, later: seq<Session>,
                                               sql: string, response: Response, order: seq<TableRef>)
    requires Good(session.server.tau, d) && OneCeremony(session.server.tau, later) && s == Reached(session, d)
    requires id in s.threads && s.threads[id].request == Query(sql) && s.threads[id].pc == Finished(Answered(response), entry)
    requires entry < |s.log| && before == s.log[..entry] && after == FullLog(s)[entry..]
    requires state == Replay(session.server, d, before)
    requires past == EventsOf(session.server, d, before) && rest == EventsOf(session.server, state, after)
    requires Walks(order, response.tables) && session.server.engine.refs(sql).Some?
    requires forall t :: t in session.server.engine.refs(sql).value ==> CleanSoFar(session.server.tau, d, past, t)
    ensures VerifyCommand(session.server.engine, Some(DiskAfter(s.disk, later)), sql, response, order).Ok? <==>
            forall t :: t in session.server.engine.refs(sql).value ==>
              AllQuiet(session.server.tau, state, rest + EventsAcross(s.disk, later), t)
  {
    AnsweredFrom(session.server, d, session.schedule, s, id, entry, sql, response, before);
    FullLogSplits(s, entry);
    LoggedOutlives(session, d, before, after, state, past, rest, later, EventsAcross(s.disk, later), sql, response, order);
  }
}
