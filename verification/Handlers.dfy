/** The HTTP handlers, running concurrently over one database behind one mutex.

    Each handler is a thread with a program counter. Under the lock it advances by one disk write, or by
    reading one table, commitment or schema, or what an insert checks first; any other thread's steps
    fall in between. What a step does depends on its own counter alone, so that only the lock keeps
    handlers apart. */
module Handlers {
  import opened Columns
  import opened Commitments
  import opened Queries
  import opened Results
  import opened Store
  import opened Verdicts

  type ThreadId = nat

  datatype Request =
    | CreateTable(t: TableRef, columns: seq<(string, Option<SqlType>)>)
    | InsertRows(t: TableRef, body: string)
    | Show(t: TableRef)
    | List
    | Query(sql: string)

  datatype Reply =
    | Created
    | BadColumns
    | BadRows
    | Failed(error: DbError)
    | Listed(tables: seq<TableRef>)
    | Described(columns: seq<(string, string)>, numRows: nat, commitment: TableCommitment)
    | Undescribable
    | Answered(response: Response)
    | QueryFailed(queryError: QueryError)

  /** What the server is started with: the SQL engine, the ceremony and how much of it is loaded, and
      the decoder of JSON rows against a schema. */
  datatype Server = Server(engine: Engine, tau: Ceremony, capacity: nat, decode: (Schema, string) -> Option<seq<Row>>)
  {
    function Setup(): Setup {
      Powers(tau, capacity)
    }
  }

  // ---- One request, alone ----

  function ParseColumns(columns: seq<(string, Option<SqlType>)>): Option<Schema> {
    if columns == [] then Some([])
    else
      var before := ParseColumns(columns[..|columns| - 1]);
      var last := columns[|columns| - 1];
      var dataType := ParseColumnType(last.1);
      if before.None? || dataType.None? then None else Some(before.value + [Field(last.0, dataType.value)])
  }

  function DescribeColumns(schema: Schema): Option<seq<(string, string)>> {
    if schema == [] then Some([])
    else
      var before := DescribeColumns(schema[..|schema| - 1]);
      var last := schema[|schema| - 1];
      var name := ColumnTypeName(last.dataType);
      if before.None? || name.None? then None else Some(before.value + [(last.name, name.value)])
  }

  function Describe(commitment: TableCommitment): Reply {
    var columns := DescribeColumns(commitment.schema);
    if columns.None? then Undescribable else Described(columns.value, commitment.rows, commitment)
  }

  /** Rows decoded against a schema are as wide as it. */
  function DecodeRows(server: Server, schema: Schema, body: string): Option<RecordBatch> {
    var rows := server.decode(schema, body);
    if rows.Some? && (forall i :: 0 <= i < |rows.value| ==> |rows.value[i]| == |schema|)
    then Some(Batch(schema, rows.value)) else None
  }

  function ReplyOf(result: Result<(), DbError>): Reply {
    if result.Ok? then Created else Failed(result.error)
  }

  function ReplyToQuery(answer: Result<Response, QueryError>): Reply {
    if answer.Ok? then Answered(answer.value) else QueryFailed(answer.error)
  }

  /** What a request does to the disk, and its reply. */
  datatype Outcome = Outcome(actions: seq<Action>, reply: Reply)

  function FromScript(script: Script): Outcome {
    Outcome(script.actions, ReplyOf(script.result))
  }

  /** A request handled with the database to itself. */
  function Handle(server: Server, d: Disk, request: Request): Outcome {
    match request
    case CreateTable(t, columns) =>
      var schema := ParseColumns(columns);
      if schema.None? then Outcome([], BadColumns)
      else FromScript(CreateScript(d, t, schema.value, server.Setup()))
    case InsertRows(t, body) =>
      var schema := SchemaOf(d, t);
      if schema.Err? then Outcome([], Failed(schema.error))
      else
        var batch := DecodeRows(server, schema.value, body);
        if batch.None? then Outcome([], BadRows)
        else FromScript(InsertScript(d, t, batch.value, server.Setup()))
    case Show(t) =>
      var commitment := CommitmentOf(d, t);
      if commitment.Err? then Outcome([], Failed(commitment.error)) else Outcome([], Describe(commitment.value))
    case List => Outcome([], Listed(Tables(d)))
    case Query(sql) => Outcome([], ReplyToQuery(Answer(server.engine, server.tau, d, sql)))
  }

  // ---- Requests, interleaved ----

  /** What is left to do once the lock is given up. */
  datatype Rest = Ready(reply: Reply) | Build(proof: Proof, commitments: map<TableRef, TableCommitment>) | Depict(commitment: TableCommitment)

  function FinalReply(rest: Rest): Reply {
    match rest
    case Ready(reply) => reply
    case Build(proof, commitments) => ReplyToQuery(BuildResponse(proof, commitments))
    case Depict(commitment) => Describe(commitment)
  }

  datatype Pc =
    | Waiting
    | Locked
    | Decoding(schema: Schema)
    | Writing(todo: seq<Action>, written: nat, reply: Reply)
    | ReadingData(data: map<TableRef, RecordBatch>, next: nat)
    | ReadingCommitments(proof: Proof, commitments: map<TableRef, TableCommitment>, next: nat)
    | Leaving(rest: Rest, written: nat)
    | Replying(rest: Rest, entry: nat)
    | Finished(reply: Reply, entry: nat)
    | Rejected(reply: Reply)

  predicate Critical(pc: Pc) {
    pc.Locked? || pc.Decoding? || pc.Writing? || pc.ReadingData? || pc.ReadingCommitments? || pc.Leaving?
  }

  /** `born` is how many requests had given up the lock when this one arrived. */
  datatype Thread = Thread(request: Request, born: nat, pc: Pc)

  /** A request that has given up the lock, after `written` of its disk actions. */
  datatype Entry = Entry(id: ThreadId, request: Request, written: nat, completed: bool, reply: Reply)

  datatype System = System(disk: Disk, holder: Option<ThreadId>, threads: map<ThreadId, Thread>, log: seq<Entry>)

  datatype Step = Arrive(id: ThreadId, request: Request) | Acquire(id: ThreadId) | Work(id: ThreadId) | Fail(id: ThreadId)

  /** Requests are parsed, and may be turned down, before they wait for the lock. */
  function FirstPc(server: Server, request: Request): Pc {
    match request
    case CreateTable(_, columns) => if ParseColumns(columns).None? then Rejected(BadColumns) else Waiting
    case Query(sql) => if server.engine.refs(sql).None? then Rejected(QueryFailed(BadSql)) else Waiting
    case _ => Waiting
  }

  /** The next disk write, the next read, or the next computation of a thread holding the lock. */
  function Advance(server: Server, d: Disk, request: Request, pc: Pc): (Disk, Pc)
    requires Critical(pc)
  {
    match pc
    case Locked => (d, Begin(server, d, request))
    case Decoding(schema) =>
      if !request.InsertRows? then (d, pc)
      else
        var batch := DecodeRows(server, schema, request.body);
        if batch.None? then (d, Leaving(Ready(BadRows), 0))
        else
          var script := InsertScript(d, request.t, batch.value, server.Setup());
          (d, Writing(script.actions, 0, ReplyOf(script.result)))
    case Writing(todo, written, reply) =>
      if todo == [] then (d, Leaving(Ready(reply), written))
      else (Apply(d, todo[0]), Writing(todo[1..], written + 1, reply))
    case ReadingData(data, next) => (d, ReadTable(server, d, request, data, next))
    case ReadingCommitments(proof, commitments, next) => (d, ReadCommit(server, d, request, proof, commitments, next))
    case Leaving(_, _) => (d, pc)
  }

  function Begin(server: Server, d: Disk, request: Request): Pc {
    match request
    case CreateTable(t, columns) =>
      var schema := ParseColumns(columns);
      if schema.None? then Leaving(Ready(BadColumns), 0)
      else
        var script := CreateScript(d, t, schema.value, server.Setup());
        Writing(script.actions, 0, ReplyOf(script.result))
    case InsertRows(t, _) =>
      var schema := SchemaOf(d, t);
      if schema.Err? then Leaving(Ready(Failed(schema.error)), 0) else Decoding(schema.value)
    case Show(t) =>
      var commitment := CommitmentOf(d, t);
      if commitment.Err? then Leaving(Ready(Failed(commitment.error)), 0) else Leaving(Depict(commitment.value), 0)
    case List => Leaving(Ready(Listed(Tables(d))), 0)
    case Query(_) => ReadingData(map[], 0)
  }

  function ReadTable(server: Server, d: Disk, request: Request, data: map<TableRef, RecordBatch>, next: nat): Pc {
    if !request.Query? || server.engine.refs(request.sql).None? then Leaving(Ready(QueryFailed(BadSql)), 0)
    else
      var refs := server.engine.refs(request.sql).value;
      if next < |refs| then
        var table := TableData(d, refs[next]);
        if table.Err? then Leaving(Ready(QueryFailed(Snapshot(table.error))), 0)
        else ReadingData(data[refs[next] := table.value], next + 1)
      else
        var proof := ProveOver(server.engine, server.tau, request.sql, data);
        if proof.Err? then Leaving(Ready(QueryFailed(proof.error)), 0)
        else ReadingCommitments(proof.value, map[], 0)
  }

  function ReadCommit(server: Server, d: Disk, request: Request, proof: Proof,
                      commitments: map<TableRef, TableCommitment>, next: nat): Pc {
    if !request.Query? || server.engine.refs(request.sql).None? then Leaving(Ready(QueryFailed(BadSql)), 0)
    else
      var refs := server.engine.refs(request.sql).value;
      if next < |refs| then
        var commitment := CommitmentOf(d, refs[next]);
        if commitment.Err? then Leaving(Ready(QueryFailed(Snapshot(commitment.error))), 0)
        else ReadingCommitments(proof, commitments[refs[next] := commitment.value], next + 1)
      else Leaving(Build(proof, commitments), 0)
  }

  function Written(pc: Pc): nat {
    if pc.Writing? || pc.Leaving? then pc.written else 0
  }

  function SetPc(s: System, id: ThreadId, pc: Pc): System
    requires id in s.threads
  {
    s.(threads := s.threads[id := s.threads[id].(pc := pc)])
  }

  function Release(s: System, id: ThreadId, rest: Rest, written: nat, completed: bool): System
    requires id in s.threads
  {
    var entry := Entry(id, s.threads[id].request, written, completed, FinalReply(rest));
    SetPc(s, id, Replying(rest, |s.log|)).(holder := None, log := s.log + [entry])
  }

  /** One step of the whole system; a step that is not enabled changes nothing. */
  function Next(server: Server, s: System, step: Step): System {
    match step
    case Arrive(id, request) =>
      if id in s.threads then s
      else s.(threads := s.threads[id := Thread(request, |s.log|, FirstPc(server, request))])
    case Acquire(id) =>
      if id in s.threads && s.threads[id].pc.Waiting? && s.holder.None? then SetPc(s, id, Locked).(holder := Some(id)) else s
    case Work(id) =>
      if id !in s.threads then s
      else
        var thread := s.threads[id];
        if thread.pc.Leaving? then Release(s, id, thread.pc.rest, thread.pc.written, true)
        else if Critical(thread.pc) then
          var (disk, pc) := Advance(server, s.disk, thread.request, thread.pc);
          SetPc(s, id, pc).(disk := disk)
        else if thread.pc.Replying? then SetPc(s, id, Finished(FinalReply(thread.pc.rest), thread.pc.entry))
        else s
    case Fail(id) =>
      if id in s.threads && Critical(s.threads[id].pc)
      then Release(s, id, Ready(Failed(DbError.Io)), Written(s.threads[id].pc), false) else s
  }

  function Interleave(server: Server, s: System, schedule: seq<Step>): System {
    if schedule == [] then s
    else Next(server, Interleave(server, s, schedule[..|schedule| - 1]), schedule[|schedule| - 1])
  }

  function Started(d: Disk): System {
    System(d, None, map[], [])
  }

  // ---- The sequential history behind an interleaving ----

  /** The disk after the logged requests, one at a time. */
  function Replay(server: Server, d: Disk, log: seq<Entry>): Disk {
    if log == [] then d
    else
      var before := Replay(server, d, log[..|log| - 1]);
      var entry := log[|log| - 1];
      var actions := Handle(server, before, entry.request).actions;
      ApplyAll(before, if entry.written < |actions| then actions[..entry.written] else actions)
  }

  /** An entry tells what its request, alone on that disk, does and replies. */
  predicate EntryHolds(server: Server, d: Disk, entry: Entry) {
    var outcome := Handle(server, d, entry.request);
    if entry.completed then entry.written == |outcome.actions| && entry.reply == outcome.reply
    else entry.written <= |outcome.actions| && entry.reply == Failed(DbError.Io)
  }

  predicate LogHolds(server: Server, d: Disk, log: seq<Entry>) {
    forall i {:trigger EntryHolds(server, Replay(server, d, log[..i]), log[i])} :: 0 <= i < |log| ==> EntryHolds(server, Replay(server, d, log[..i]), log[i])
  }

  /** How far a thread holding the lock has got with its request since the disk was `base`. */
  predicate Progress(server: Server, base: Disk, d: Disk, request: Request, pc: Pc) {
    var outcome := Handle(server, base, request);
    match pc
    case Locked => d == base
    case Decoding(schema) => d == base && request.InsertRows? && SchemaOf(base, request.t) == Ok(schema)
    case Writing(todo, written, reply) =>
      && written <= |outcome.actions| && todo == outcome.actions[written..]
      && d == ApplyAll(base, outcome.actions[..written]) && reply == outcome.reply
    case ReadingData(data, next) =>
      && d == base && request.Query? && server.engine.refs(request.sql).Some?
      && next <= |server.engine.refs(request.sql).value|
      && Data(base, server.engine.refs(request.sql).value[..next]) == Ok(data)
    case ReadingCommitments(proof, commitments, next) =>
      && d == base && request.Query? && server.engine.refs(request.sql).Some?
      && next <= |server.engine.refs(request.sql).value|
      && Data(base, server.engine.refs(request.sql).value).Ok?
      && ProveOver(server.engine, server.tau, request.sql, Data(base, server.engine.refs(request.sql).value).value) == Ok(proof)
      && CommitmentsOf(base, server.engine.refs(request.sql).value[..next]) == Ok(commitments)
    case Leaving(rest, written) =>
      written == |outcome.actions| && d == ApplyAll(base, outcome.actions) && FinalReply(rest) == outcome.reply
    case _ => false
  }

  /** Where a thread without the lock stands: not served yet, served by an entry logged since it
      arrived, or turned down. */
  predicate Settled(server: Server, log: seq<Entry>, id: ThreadId, thread: Thread) {
    && thread.born <= |log|
    && match thread.pc
       case Waiting => FirstPc(server, thread.request) == Waiting
       case Replying(rest, entry) =>
         thread.born <= entry < |log| && log[entry].id == id && log[entry].request == thread.request && log[entry].reply == FinalReply(rest)
       case Finished(reply, entry) =>
         thread.born <= entry < |log| && log[entry].id == id && log[entry].request == thread.request && log[entry].reply == reply
       case Rejected(reply) => FirstPc(server, thread.request) == Rejected(reply)
       case _ => FirstPc(server, thread.request) == Waiting
  }

  predicate MutualExclusion(s: System) {
    && (s.holder.Some? ==> s.holder.value in s.threads && Critical(s.threads[s.holder.value].pc))
    && forall id :: id in s.threads && Critical(s.threads[id].pc) ==> s.holder == Some(id)
  }

  /** The disk is that of the logged requests, plus what the lock's holder has done. */
  predicate DiskExplained(server: Server, d: Disk, s: System)
    requires MutualExclusion(s)
  {
    var base := Replay(server, d, s.log);
    if s.holder.None? then s.disk == base
    else Progress(server, base, s.disk, s.threads[s.holder.value].request, s.threads[s.holder.value].pc)
  }

  predicate Explained(server: Server, d: Disk, s: System) {
    && MutualExclusion(s)
    && DiskExplained(server, d, s)
    && LogHolds(server, d, s.log)
    && AllSettled(server, s.log, s.threads)
  }

  // ---- Every step keeps it ----

  lemma WritingProgress(base: Disk, d: Disk, actions: seq<Action>, written: nat)
    requires written < |actions| && d == ApplyAll(base, actions[..written])
    ensures Apply(d, actions[written..][0]) == ApplyAll(base, actions[..written + 1])
    ensures actions[written..][1..] == actions[written + 1..]
  {
    assert actions[..written + 1][..written] == actions[..written];
  }

  lemma {:induction false} DataFails(d: Disk, refs: seq<TableRef>, n: nat)
    requires n <= |refs| && Data(d, refs[..n]).Err?
    ensures Data(d, refs) == Data(d, refs[..n])
    decreases |refs|
  {
    if n < |refs| {
      assert refs[..|refs| - 1][..n] == refs[..n];
      DataFails(d, refs[..|refs| - 1], n);
    } else {
      assert refs[..n] == refs;
    }
  }

  lemma {:induction false} CommitmentsFail(d: Disk, refs: seq<TableRef>, n: nat)
    requires n <= |refs| && CommitmentsOf(d, refs[..n]).Err?
    ensures CommitmentsOf(d, refs) == CommitmentsOf(d, refs[..n])
    decreases |refs|
  {
    if n < |refs| {
      assert refs[..|refs| - 1][..n] == refs[..n];
      CommitmentsFail(d, refs[..|refs| - 1], n);
    } else {
      assert refs[..n] == refs;
    }
  }

  lemma DataNext(d: Disk, refs: seq<TableRef>, n: nat)
    requires n < |refs| && Data(d, refs[..n]).Ok?
    ensures var next := TableData(d, refs[n]);
            if next.Ok? then Data(d, refs[..n + 1]) == Ok(Data(d, refs[..n]).value[refs[n] := next.value])
            else Data(d, refs) == Err(next.error)
  {
    assert refs[..n + 1][..n] == refs[..n];
    if TableData(d, refs[n]).Err? {
      DataFails(d, refs, n + 1);
    }
  }

  lemma CommitmentsNext(d: Disk, refs: seq<TableRef>, n: nat)
    requires n < |refs| && CommitmentsOf(d, refs[..n]).Ok?
    ensures var next := CommitmentOf(d, refs[n]);
            if next.Ok? then CommitmentsOf(d, refs[..n + 1]) == Ok(CommitmentsOf(d, refs[..n]).value[refs[n] := next.value])
            else CommitmentsOf(d, refs) == Err(next.error)
  {
    assert refs[..n + 1][..n] == refs[..n];
    if CommitmentOf(d, refs[n]).Err? {
      CommitmentsFail(d, refs, n + 1);
    }
  }

  lemma BeginProgress(server: Server, base: Disk, request: Request)
    requires FirstPc(server, request) == Waiting
    ensures Critical(Begin(server, base, request))
    ensures Progress(server, base, base, request, Begin(server, base, request))
  {
    var actions := Handle(server, base, request).actions;
    assert actions[..0] == [] && actions[0..] == actions;
    if request.Query? {
      assert server.engine.refs(request.sql).value[..0] == [];
    }
  }

  lemma ReadTableProgress(server: Server, base: Disk, request: Request, data: map<TableRef, RecordBatch>, next: nat)
    requires Progress(server, base, base, request, ReadingData(data, next))
    ensures Critical(ReadTable(server, base, request, data, next))
    ensures Progress(server, base, base, request, ReadTable(server, base, request, data, next))
  {
    var refs := server.engine.refs(request.sql).value;
    if next < |refs| {
      DataNext(base, refs, next);
    } else {
      assert refs[..next] == refs && refs[..0] == [];
    }
  }

  lemma ReadCommitProgress(server: Server, base: Disk, request: Request, proof: Proof,
                           commitments: map<TableRef, TableCommitment>, next: nat)
    requires Progress(server, base, base, request, ReadingCommitments(proof, commitments, next))
    ensures Critical(ReadCommit(server, base, request, proof, commitments, next))
    ensures Progress(server, base, base, request, ReadCommit(server, base, request, proof, commitments, next))
  {
    var refs := server.engine.refs(request.sql).value;
    if next < |refs| {
      CommitmentsNext(base, refs, next);
    } else {
      assert refs[..next] == refs;
    }
  }

  lemma DecodingProgress(server: Server, base: Disk, request: Request, schema: Schema)
    requires request.InsertRows? && SchemaOf(base, request.t) == Ok(schema)
    ensures Critical(Advance(server, base, request, Decoding(schema)).1)
    ensures Advance(server, base, request, Decoding(schema)).0 == base
    ensures Progress(server, base, base, request, Advance(server, base, request, Decoding(schema)).1)
  {
    var actions := Handle(server, base, request).actions;
    assert actions[..0] == [] && actions[0..] == actions;
  }

  lemma AdvanceProgress(server: Server, base: Disk, d: Disk, request: Request, pc: Pc)
    requires Critical(pc) && !pc.Leaving? && FirstPc(server, request) == Waiting
    requires Progress(server, base, d, request, pc)
    ensures Critical(Advance(server, d, request, pc).1)
    ensures Progress(server, base, Advance(server, d, request, pc).0, request, Advance(server, d, request, pc).1)
  {
    match pc
    case Locked => BeginProgress(server, base, request);
    case Decoding(schema) => DecodingProgress(server, base, request, schema);
    case Writing(todo, written, reply) =>
      var actions := Handle(server, base, request).actions;
      if todo == [] {
        assert written == |actions| && actions[..written] == actions;
      } else {
        WritingProgress(base, d, actions, written);
      }
    case ReadingData(data, next) => ReadTableProgress(server, base, request, data, next);
    case ReadingCommitments(proof, commitments, next) => ReadCommitProgress(server, base, request, proof, commitments, next);
  }

  /** Stopping part way leaves what the actions done so far leave. */
  lemma WrittenSoFar(server: Server, base: Disk, d: Disk, request: Request, pc: Pc)
    requires Critical(pc) && Progress(server, base, d, request, pc)
    ensures Written(pc) <= |Handle(server, base, request).actions|
    ensures d == ApplyAll(base, Handle(server, base, request).actions[..Written(pc)])
  {
    var actions := Handle(server, base, request).actions;
    assert actions[..|actions|] == actions && actions[..0] == [];
  }

  lemma ReplayOne(server: Server, d: Disk, log: seq<Entry>, entry: Entry)
    requires EntryHolds(server, Replay(server, d, log), entry)
    ensures Replay(server, d, log + [entry])
         == ApplyAll(Replay(server, d, log), Handle(server, Replay(server, d, log), entry.request).actions[..entry.written])
  {
    assert (log + [entry])[..|log|] == log;
    var actions := Handle(server, Replay(server, d, log), entry.request).actions;
    assert actions[..|actions|] == actions;
  }

  lemma LogExtends(server: Server, d: Disk, log: seq<Entry>, entry: Entry)
    requires LogHolds(server, d, log) && EntryHolds(server, Replay(server, d, log), entry)
    ensures LogHolds(server, d, log + [entry])
  {
    var more := log + [entry];
    forall i | 0 <= i < |more|
      ensures EntryHolds(server, Replay(server, d, more[..i]), more[i])
    {
      if i < |log| {
        assert more[..i] == log[..i] && more[i] == log[i];
        assert EntryHolds(server, Replay(server, d, log[..i]), log[i]);
      } else {
        assert more[..i] == log;
      }
    }
  }

  predicate AllSettled(server: Server, log: seq<Entry>, threads: map<ThreadId, Thread>) {
    forall id {:trigger threads[id]} :: id in threads ==> Settled(server, log, id, threads[id])
  }

  lemma StillSettled(server: Server, log: seq<Entry>, entry: Entry, threads: map<ThreadId, Thread>)
    requires AllSettled(server, log, threads)
    ensures AllSettled(server, log + [entry], threads)
  {
    forall id {:trigger threads[id]} | id in threads
      ensures Settled(server, log + [entry], id, threads[id])
    {
      assert Settled(server, log, id, threads[id]);
    }
  }

  lemma SettledUpdate(server: Server, log: seq<Entry>, threads: map<ThreadId, Thread>, id: ThreadId, thread: Thread)
    requires AllSettled(server, log, threads) && Settled(server, log, id, thread)
    ensures AllSettled(server, log, threads[id := thread])
  {
    var after := threads[id := thread];
    forall other {:trigger after[other]} | other in after
      ensures Settled(server, log, other, after[other])
    {
      assert other != id ==> after[other] == threads[other];
    }
  }

  /** While one thread is in its critical section no other is. */
  lemma Alone(s: System, id: ThreadId, other: ThreadId)
    requires MutualExclusion(s)
    requires id in s.threads && Critical(s.threads[id].pc)
    requires other in s.threads && other != id
    ensures !Critical(s.threads[other].pc)
  {
  }

  lemma ExclusionAfterRelease(s: System, id: ThreadId, rest: Rest, written: nat, completed: bool)
    requires MutualExclusion(s) && id in s.threads && Critical(s.threads[id].pc)
    ensures MutualExclusion(Release(s, id, rest, written, completed))
  {
    var after := Release(s, id, rest, written, completed);
    forall other | other in after.threads
      ensures !Critical(after.threads[other].pc)
    {
      if other != id { Alone(s, id, other); }
    }
  }

  lemma ReleaseKeeps(server: Server, d: Disk, s: System, id: ThreadId, rest: Rest, completed: bool)
    requires Explained(server, d, s)
    requires id in s.threads && Critical(s.threads[id].pc)
    requires if completed then s.threads[id].pc.Leaving? && rest == s.threads[id].pc.rest else rest == Ready(Failed(DbError.Io))
    ensures Explained(server, d, Release(s, id, rest, Written(s.threads[id].pc), completed))
  {
    var base, thread := Replay(server, d, s.log), s.threads[id];
    var entry := Entry(id, thread.request, Written(thread.pc), completed, FinalReply(rest));
    assert s.holder == Some(id);
    assert Progress(server, base, s.disk, thread.request, thread.pc);
    WrittenSoFar(server, base, s.disk, thread.request, thread.pc);
    assert EntryHolds(server, base, entry);
    ReplayOne(server, d, s.log, entry);
    LogExtends(server, d, s.log, entry);
    StillSettled(server, s.log, entry, s.threads);
    assert Settled(server, s.log, id, thread);
    SettledUpdate(server, s.log + [entry], s.threads, id, thread.(pc := Replying(rest, |s.log|)));
    ExclusionAfterRelease(s, id, rest, Written(thread.pc), completed);
  }

  lemma WorkKeeps(server: Server, d: Disk, s: System, id: ThreadId)
    requires Explained(server, d, s)
    requires id in s.threads && Critical(s.threads[id].pc) && !s.threads[id].pc.Leaving?
    ensures Explained(server, d, Next(server, s, Work(id)))
  {
    var base, thread := Replay(server, d, s.log), s.threads[id];
    assert s.holder == Some(id);
    assert Settled(server, s.log, id, thread);
    AdvanceProgress(server, base, s.disk, thread.request, thread.pc);
    var after := Next(server, s, Work(id));
    forall other | other in s.threads && other != id ensures !Critical(s.threads[other].pc) { Alone(s, id, other); }
    SettledUpdate(server, s.log, s.threads, id, after.threads[id]);
  }

  lemma AcquireKeeps(server: Server, d: Disk, s: System, id: ThreadId)
    requires Explained(server, d, s)
    ensures Explained(server, d, Next(server, s, Acquire(id)))
  {
    if id in s.threads && s.threads[id].pc.Waiting? && s.holder.None? {
      assert Settled(server, s.log, id, s.threads[id]);
      SettledUpdate(server, s.log, s.threads, id, s.threads[id].(pc := Locked));
    }
  }

  lemma ArriveKeeps(server: Server, d: Disk, s: System, id: ThreadId, request: Request)
    requires Explained(server, d, s)
    ensures Explained(server, d, Next(server, s, Arrive(id, request)))
  {
    if id !in s.threads {
      SettledUpdate(server, s.log, s.threads, id, Thread(request, |s.log|, FirstPc(server, request)));
    }
  }

  lemma ReplyKeeps(server: Server, d: Disk, s: System, id: ThreadId)
    requires Explained(server, d, s)
    requires id in s.threads && s.threads[id].pc.Replying?
    ensures Explained(server, d, Next(server, s, Work(id)))
  {
    var thread := s.threads[id];
    assert Settled(server, s.log, id, thread);
    SettledUpdate(server, s.log, s.threads, id, thread.(pc := Finished(FinalReply(thread.pc.rest), thread.pc.entry)));
  }

  lemma NextKeeps(server: Server, d: Disk, s: System, step: Step)
    requires Explained(server, d, s)
    ensures Explained(server, d, Next(server, s, step))
  {
    match step
    case Arrive(id, request) => ArriveKeeps(server, d, s, id, request);
    case Acquire(id) => AcquireKeeps(server, d, s, id);
    case Work(id) =>
      if id in s.threads {
        if s.threads[id].pc.Leaving? {
          ReleaseKeeps(server, d, s, id, s.threads[id].pc.rest, true);
        } else if Critical(s.threads[id].pc) {
          WorkKeeps(server, d, s, id);
        } else if s.threads[id].pc.Replying? {
          ReplyKeeps(server, d, s, id);
        }
      }
    case Fail(id) =>
      if id in s.threads && Critical(s.threads[id].pc) {
        ReleaseKeeps(server, d, s, id, Ready(Failed(DbError.Io)), false);
      }
  }

  /** Every interleaving, with disk accesses failing anywhere under the lock, is explained by its
      log: handled one after another, the logged requests give the disk and every reply. */
  lemma {:induction false} EveryInterleaving(server: Server, d: Disk, schedule: seq<Step>)
    ensures Explained(server, d, Interleave(server, Started(d), schedule))
  {
    if schedule != [] {
      EveryInterleaving(server, d, schedule[..|schedule| - 1]);
      NextKeeps(server, d, Interleave(server, Started(d), schedule[..|schedule| - 1]), schedule[|schedule| - 1]);
    }
  }

  /** Linearizability: every finished request replied what it would have, alone, at a moment between
      its arrival and its reply; or a disk access failed and it said so. */
  lemma Linearizable(server: Server, d: Disk, schedule: seq<Step>, id: ThreadId)
    requires var s := Interleave(server, Started(d), schedule);
             id in s.threads && s.threads[id].pc.Finished?
    ensures var s := Interleave(server, Started(d), schedule);
            var thread := s.threads[id];
            var entry := thread.pc.entry;
      && thread.born <= entry < |s.log| && s.log[entry].id == id
      && thread.pc.reply == (if s.log[entry].completed
                             then Handle(server, Replay(server, d, s.log[..entry]), thread.request).reply
                             else Failed(DbError.Io))
  {
    EveryInterleaving(server, d, schedule);
    var s := Interleave(server, Started(d), schedule);
    var thread := s.threads[id];
    assert Settled(server, s.log, id, thread);
    assert EntryHolds(server, Replay(server, d, s.log[..thread.pc.entry]), s.log[thread.pc.entry]);
  }

  /** The data a query was proved over, the result it was proved to have and the rows it gives, the
      commitments it carries and every row count it reports describe one and the same state of the
      database. */
  lemma QuerySeesOneState(server: Server, d: Disk, schedule: seq<Step>, id: ThreadId)
    requires var s := Interleave(server, Started(d), schedule);
      id in s.threads && s.threads[id].pc.Finished? && s.threads[id].pc.reply.Answered?
    ensures var s := Interleave(server, Started(d), schedule); s.threads[id].born <= s.threads[id].pc.entry < |s.log|
    ensures var s := Interleave(server, Started(d), schedule);
            var thread := s.threads[id];
            var state := Replay(server, d, s.log[..thread.pc.entry]);
            var response := thread.pc.reply.response;
      && thread.request.Query? && server.engine.refs(thread.request.sql).Some?
      && Answer(server.engine, server.tau, state, thread.request.sql) == Ok(response)
      && Answerable(server.engine, server.tau, state, thread.request.sql, server.engine.refs(thread.request.sql).value)
      && Answers(server.engine, server.tau, state, thread.request.sql, server.engine.refs(thread.request.sql).value, response)
      && response.proof.ProofBlob?
      && (forall t :: t in response.tables <==> t in server.engine.refs(thread.request.sql).value)
      && (forall t :: t in response.tables ==>
            && TableData(state, t).Ok? && CommitmentOf(state, t).Ok?
            && t in response.proof.proof.commitments
            && response.proof.proof.commitments[t] == CommitmentTo(server.tau, TableData(state, t).value)
            && response.tables[t] == QueriedTable(CommitmentBlob(CommitmentOf(state, t).value), CommitmentOf(state, t).value.rows))
  {
    Linearizable(server, d, schedule, id);
    var s := Interleave(server, Started(d), schedule);
    var thread := s.threads[id];
    var state := Replay(server, d, s.log[..thread.pc.entry]);
    OnlyQueriesAnswer(server, state, thread.request);
    AnsweredIff(server.engine, server.tau, state, thread.request.sql);
    AnswerContents(server.engine, server.tau, state, thread.request.sql);
  }

  lemma OnlyQueriesAnswer(server: Server, d: Disk, request: Request)
    requires Handle(server, d, request).reply.Answered?
    ensures request.Query? && Answer(server.engine, server.tau, d, request.sql) == Ok(Handle(server, d, request).reply.response)
  {
  }

  lemma AnswerContents(engine: Engine, tau: Ceremony, d: Disk, sql: string)
    requires Answer(engine, tau, d, sql).Ok?
    ensures engine.refs(sql).Some?
    ensures var response := Answer(engine, tau, d, sql).value;
      && response.proof.ProofBlob?
      && (forall t :: t in response.tables <==> t in engine.refs(sql).value)
      && (forall t :: t in response.tables ==>
            && TableData(d, t).Ok? && CommitmentOf(d, t).Ok?
            && t in response.proof.proof.commitments
            && response.proof.proof.commitments[t] == CommitmentTo(tau, TableData(d, t).value)
            && response.tables[t] == QueriedTable(CommitmentBlob(CommitmentOf(d, t).value), CommitmentOf(d, t).value.rows))
  {
    DataContents(d, engine.refs(sql).value);
    CommitmentsContents(d, engine.refs(sql).value);
  }
}
