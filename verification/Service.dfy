/** What the running service promises: the guarantees about histories, carried over to every
    interleaving of its handlers. */
module Service {
  import opened Commitments
  import opened Consistency
  import opened Handlers
  import opened History
  import opened Invariants
  import opened Layout
  import opened Names
  import opened Queries
  import opened Results
  import opened Store

  /** The database event behind a logged request, if it is one that writes. */
  function EventOf(server: Server, d: Disk, entry: Entry): Option<Event> {
    match entry.request
    case CreateTable(t, columns) =>
      var schema := ParseColumns(columns);
      if schema.None? then None else Some(Event(Op.Create(t, schema.value), server.capacity, entry.written))
    case InsertRows(t, body) =>
      var schema := SchemaOf(d, t);
      if schema.Err? then None
      else
        var batch := DecodeRows(server, schema.value, body);
        if batch.None? then None else Some(Event(Op.Insert(t, batch.value), server.capacity, entry.written))
    case _ => None
  }

  function EventsOf(server: Server, d: Disk, log: seq<Entry>): seq<Event> {
    if log == [] then []
    else
      var event := EventOf(server, Replay(server, d, log[..|log| - 1]), log[|log| - 1]);
      EventsOf(server, d, log[..|log| - 1]) + if event.Some? then [event.value] else []
  }

  lemma EventScriptIsHandled(server: Server, d: Disk, entry: Entry)
    ensures EventOf(server, d, entry).Some? ==>
              FromScript(EventScript(server.tau, d, EventOf(server, d, entry).value)) == Handle(server, d, entry.request)
    ensures EventOf(server, d, entry).None? ==> Handle(server, d, entry.request).actions == []
  {
  }

  lemma RunOneMore(tau: Ceremony, d: Disk, events: seq<Event>, e: Event)
    ensures Run(tau, d, events + [e]) == After(tau, Run(tau, d, events), e)
  {
    assert (events + [e])[..|events|] == events;
  }

  /** Replaying a log is running its events. */
  lemma {:induction false} ReplayIsRun(server: Server, d: Disk, log: seq<Entry>)
    ensures Replay(server, d, log) == Run(server.tau, d, EventsOf(server, d, log))
  {
    if log != [] {
      var before, entry := log[..|log| - 1], log[|log| - 1];
      ReplayIsRun(server, d, before);
      EventScriptIsHandled(server, Replay(server, d, before), entry);
      var event := EventOf(server, Replay(server, d, before), entry);
      if event.Some? {
        RunOneMore(server.tau, d, EventsOf(server, d, before), event.value);
      } else {
        assert EventsOf(server, d, log) == EventsOf(server, d, before);
      }
    }
  }

  lemma ReplayGood(server: Server, d: Disk, log: seq<Entry>)
    requires Good(server.tau, d)
    ensures Good(server.tau, Replay(server, d, log))
  {
    ReplayIsRun(server, d, log);
    GoodRun(server.tau, d, EventsOf(server, d, log));
  }

  // ---- Commitments match data whenever the lock is free ----

  /** The request ran to its end and did not give up after storing its batch. */
  predicate Served(entry: Entry) {
    entry.completed && entry.reply != Failed(DbError.Append) && entry.reply != Failed(DbError.Commit)
  }

  lemma ServedIsClean(server: Server, d: Disk, entry: Entry, t: TableRef)
    requires Good(server.tau, d) && EntryHolds(server, d, entry) && Served(entry)
    requires EventOf(server, d, entry).Some?
    ensures Clean(server.tau, d, EventOf(server, d, entry).value, t)
  {
    var e := EventOf(server, d, entry).value;
    EventScriptIsHandled(server, d, entry);
    ScriptLength(server.tau, d, e);
    ReportsTruthfully(server.tau, d, e);
    CreateReports(server.tau, d, e);
    UninterruptedIsClean(server.tau, d, e, t);
  }

  lemma CreateReports(tau: Ceremony, d: Disk, e: Event)
    requires AllNumbered(d)
    ensures e.op.Create? && Passes(d, e) && !Commits(tau, d, e) ==> EventScript(tau, d, e).result == Err(DbError.Commit)
  {
  }

  lemma CleanOneMore(tau: Ceremony, d: Disk, events: seq<Event>, e: Event, t: TableRef)
    requires AllClean(tau, d, events, t) && Clean(tau, Run(tau, d, events), e, t)
    ensures AllClean(tau, d, events + [e], t)
  {
    assert (events + [e])[..|events|] == events;
  }

  lemma ServedOneMore(server: Server, d: Disk, before: seq<Entry>, entry: Entry, t: TableRef)
    requires Good(server.tau, d) && AllClean(server.tau, d, EventsOf(server, d, before), t)
    requires EntryHolds(server, Replay(server, d, before), entry) && Served(entry)
    ensures AllClean(server.tau, d, EventsOf(server, d, before + [entry]), t)
  {
    var state, events := Replay(server, d, before), EventsOf(server, d, before);
    assert (before + [entry])[..|before|] == before;
    ReplayGood(server, d, before);
    ReplayIsRun(server, d, before);
    if EventOf(server, state, entry).Some? {
      var e := EventOf(server, state, entry).value;
      ServedIsClean(server, state, entry, t);
      CleanOneMore(server.tau, d, events, e, t);
      assert EventsOf(server, d, before + [entry]) == events + [e];
    } else {
      assert EventsOf(server, d, before + [entry]) == events;
    }
  }

  lemma {:induction false} ServedLogIsClean(server: Server, d: Disk, log: seq<Entry>, t: TableRef)
    requires Good(server.tau, d) && LogHolds(server, d, log)
    requires forall i :: 0 <= i < |log| ==> Served(log[i])
    ensures AllClean(server.tau, d, EventsOf(server, d, log), t)
  {
    if log != [] {
      var before := log[..|log| - 1];
      LogSplits(server, d, log);
      ServedLogIsClean(server, d, before, t);
      assert Served(log[|log| - 1]);
      ServedOneMore(server, d, before, log[|log| - 1], t);
    }
  }

  lemma LogSplits(server: Server, d: Disk, log: seq<Entry>)
    requires LogHolds(server, d, log) && log != []
    ensures LogHolds(server, d, log[..|log| - 1])
    ensures EntryHolds(server, Replay(server, d, log[..|log| - 1]), log[|log| - 1])
    ensures log[..|log| - 1] + [log[|log| - 1]] == log
  {
    LogPrefix(server, d, log, |log| - 1);
  }

  lemma LogPrefix(server: Server, d: Disk, log: seq<Entry>, n: nat)
    requires LogHolds(server, d, log) && n <= |log|
    ensures LogHolds(server, d, log[..n])
  {
    var prefix := log[..n];
    forall i | 0 <= i < n
      ensures EntryHolds(server, Replay(server, d, prefix[..i]), prefix[i])
    {
      assert prefix[..i] == log[..i] && prefix[i] == log[i];
      assert EntryHolds(server, Replay(server, d, log[..i]), log[i]);
    }
  }

  /** In every interleaving, from whatever database the server found: whenever no handler holds the
      lock, a table's commitment is that of its data exactly when it was, or was not there, when the
      server started and every write since was clean for it. */
  lemma {:induction false} UnlockedMatchesIff(server: Server, d: Disk, schedule: seq<Step>, t: TableRef)
    requires Good(server.tau, d) && Interleave(server, Started(d), schedule).holder.None?
    requires t in Interleave(server, Started(d), schedule).disk
    requires |ParquetPaths(Interleave(server, Started(d), schedule).disk[t])| <= LIMIT
    ensures var s := Interleave(server, Started(d), schedule);
      && Good(server.tau, s.disk)
      && (Matches(server.tau, s.disk, t) <==>
            (t in d ==> Whole(server.tau, ViewOf(d[t]))) && AllClean(server.tau, d, EventsOf(server, d, s.log), t))
  {
    EveryInterleaving(server, d, schedule);
    var s := Interleave(server, Started(d), schedule);
    ReplayIsRun(server, d, s.log);
    RunMatchesIff(server.tau, d, EventsOf(server, d, s.log), t);
  }

  lemma {:induction false} RunMatchesIff(tau: Ceremony, d: Disk, events: seq<Event>, t: TableRef)
    requires Good(tau, d) && t in Run(tau, d, events) && |ParquetPaths(Run(tau, d, events)[t])| <= LIMIT
    ensures Good(tau, Run(tau, d, events))
    ensures Matches(tau, Run(tau, d, events), t) <==>
            (t in d ==> Whole(tau, ViewOf(d[t]))) && AllClean(tau, d, events, t)
  {
    GoodRun(tau, d, events);
    WholeIffClean(tau, d, events, t);
    MatchesIsWhole(tau, Run(tau, d, events), t);
  }

  /** In particular when every request so far was served to its end. */
  lemma {:induction false} UnlockedMatches(server: Server, d: Disk, schedule: seq<Step>, t: TableRef)
    requires Good(server.tau, d) && Interleave(server, Started(d), schedule).holder.None?
    requires t in d ==> Whole(server.tau, ViewOf(d[t]))
    requires t in Interleave(server, Started(d), schedule).disk
    requires |ParquetPaths(Interleave(server, Started(d), schedule).disk[t])| <= LIMIT
    requires forall i :: 0 <= i < |Interleave(server, Started(d), schedule).log| ==> Served(Interleave(server, Started(d), schedule).log[i])
    ensures Matches(server.tau, Interleave(server, Started(d), schedule).disk, t)
  {
    EveryInterleaving(server, d, schedule);
    ServedLogIsClean(server, d, Interleave(server, Started(d), schedule).log, t);
    UnlockedMatchesIff(server, d, schedule, t);
  }

  // ---- A served response, checked later ----

  lemma {:induction false} ReplaySplits(server: Server, d: Disk, a: seq<Entry>, b: seq<Entry>)
    ensures Replay(server, d, a + b) == Replay(server, Replay(server, d, a), b)
  {
    if b == [] {
      assert a + b == a;
    } else {
      assert (a + b)[..|a + b| - 1] == a + b[..|b| - 1];
      ReplaySplits(server, d, a, b[..|b| - 1]);
    }
  }

  /** What a log's second half does is a history from the state its first half left. */
  lemma {:induction false} ReplayOn(server: Server, d: Disk, before: seq<Entry>, after: seq<Entry>, state: Disk)
    requires state == Replay(server, d, before)
    ensures Replay(server, d, before + after) == Run(server.tau, state, EventsOf(server, state, after))
  {
    ReplaySplits(server, d, before, after);
    ReplayIsRun(server, state, after);
  }

  /** Nothing recorded by `events` parted table `t`'s commitment from its data, which can be read in order. */
  predicate CleanSoFar(tau: Ceremony, d: Disk, events: seq<Event>, t: TableRef) {
    && (t in d ==> Whole(tau, ViewOf(d[t]))) && AllClean(tau, d, events, t)
    && (t in Run(tau, d, events) ==> |ParquetPaths(Run(tau, d, events)[t])| <= LIMIT)
  }

  lemma CleanMatches(tau: Ceremony, d: Disk, events: seq<Event>, t: TableRef)
    requires Good(tau, d) && CleanSoFar(tau, d, events, t) && t in Run(tau, d, events)
    ensures Matches(tau, Run(tau, d, events), t)
  {
    RunMatchesIff(tau, d, events, t);
  }

  lemma AnswerTables(engine: Engine, tau: Ceremony, d: Disk, sql: string)
    requires Answer(engine, tau, d, sql).Ok? && engine.refs(sql).Some?
    ensures forall t :: t in engine.refs(sql).value ==> t in d
  {
    AnswerParts(engine, tau, d, sql);
    DataContents(d, engine.refs(sql).value);
  }

  /** A response proved after one history, checked after another on top of it. */
  lemma {:induction false} CleanResponseVerifiesIff(engine: Engine, tau: Ceremony, d: Disk, earlier: seq<Event>, state: Disk, since: seq<Event>,
                                 sql: string, response: Response, order: seq<TableRef>)
    requires Good(tau, d) && state == Run(tau, d, earlier)
    requires Answer(engine, tau, state, sql) == Ok(response)
    requires Walks(order, response.tables) && engine.refs(sql).Some?
    requires forall t :: t in engine.refs(sql).value ==> CleanSoFar(tau, d, earlier, t)
    ensures VerifyCommand(engine, Some(Run(tau, state, since)), sql, response, order).Ok? <==>
            forall t :: t in engine.refs(sql).value ==> AllQuiet(tau, state, since, t)
  {
    GoodRun(tau, d, earlier);
    AnswerTables(engine, tau, state, sql);
    forall t | t in engine.refs(sql).value ensures Matches(tau, state, t) { CleanMatches(tau, d, earlier, t); }
    SavedResponseVerifiesIff(engine, tau, state, sql, order, since);
  }

  /** A finished query's response is the answer in the state its log entry met. */
  lemma {:induction false} AnsweredFrom(server: Server, d: Disk, schedule: seq<Step>, s: System, id: ThreadId, entry: nat,
                                        sql: string, response: Response, before: seq<Entry>)
    requires s == Interleave(server, Started(d), schedule)
    requires id in s.threads && s.threads[id].request == Query(sql) && s.threads[id].pc == Finished(Answered(response), entry)
    requires entry <= |s.log| && before == s.log[..entry]
    ensures Answer(server.engine, server.tau, Replay(server, d, before), sql) == Ok(response)
  {
    QuerySeesOneState(server, d, schedule, id);
  }

  lemma {:induction false} LoggedResponseVerifiesIff(server: Server, d: Disk, before: seq<Entry>, after: seq<Entry>, state: Disk,
                                                     earlier: seq<Event>, since: seq<Event>,
                                                     sql: string, response: Response, order: seq<TableRef>)
    requires Good(server.tau, d) && state == Replay(server, d, before)
    requires earlier == EventsOf(server, d, before) && since == EventsOf(server, state, after)
    requires Answer(server.engine, server.tau, state, sql) == Ok(response)
    requires Walks(order, response.tables) && server.engine.refs(sql).Some?
    requires forall t :: t in server.engine.refs(sql).value ==> CleanSoFar(server.tau, d, earlier, t)
    ensures VerifyCommand(server.engine, Some(Replay(server, d, before + after)), sql, response, order).Ok? <==>
            forall t :: t in server.engine.refs(sql).value ==> AllQuiet(server.tau, state, since, t)
  {
    ReplayOn(server, d, before, after, state);
    ReplayIsRun(server, d, before);
    CleanResponseVerifiesIff(server.engine, server.tau, d, earlier, state, since, sql, response, order);
  }

  lemma LogSplitsAt(log: seq<Entry>, entry: nat)
    requires entry <= |log|
    ensures log[..entry] + log[entry..] == log
  {
  }

  /** End to end: a response the service gave, to a query on tables no earlier write had parted,
      verifies against the service's directory at any later unlocked moment exactly when nothing
      logged since committed a row to, or tore the commitment of, a table it reads. */
  lemma {:induction false} ServedResponseVerifiesIff(server: Server, d: Disk, schedule: seq<Step>, s: System, id: ThreadId, entry: nat,
                                                     before: seq<Entry>, after: seq<Entry>, state: Disk,
                                                     earlier: seq<Event>, since: seq<Event>,
                                                     sql: string, response: Response, order: seq<TableRef>)
    requires Good(server.tau, d) && s == Interleave(server, Started(d), schedule) && s.holder.None?
    requires id in s.threads && s.threads[id].request == Query(sql) && s.threads[id].pc == Finished(Answered(response), entry)
    requires entry < |s.log| && before == s.log[..entry] && after == s.log[entry..]
    requires state == Replay(server, d, before)
    requires earlier == EventsOf(server, d, before) && since == EventsOf(server, state, after)
    requires Walks(order, response.tables) && server.engine.refs(sql).Some?
    requires forall t :: t in server.engine.refs(sql).value ==> CleanSoFar(server.tau, d, earlier, t)
    ensures VerifyCommand(server.engine, Some(s.disk), sql, response, order).Ok? <==>
            forall t :: t in server.engine.refs(sql).value ==> AllQuiet(server.tau, state, since, t)
  {
    AnsweredFrom(server, d, schedule, s, id, entry, sql, response, before);
    EveryInterleaving(server, d, schedule);
    LogSplitsAt(s.log, entry);
    LoggedResponseVerifiesIff(server, d, before, after, state, earlier, since, sql, response, order);
  }
}
