/** That requests are served at all: which request a thread carries, what a turned-down one is told, and
    that no request is ever stuck. */
module Completion {
  import opened Commitments
  import opened Handlers
  import opened Queries
  import opened Results
  import opened Store

  // ---- Arriving ----

  /** The `i`-th step is where thread `id` arrived, with the request and at the time it says. */
  predicate ArrivedAt(server: Server, d: Disk, schedule: seq<Step>, i: nat, id: ThreadId, thread: Thread)
    requires i < |schedule|
  {
    && schedule[i] == Arrive(id, thread.request)
    && id !in Interleave(server, Started(d), schedule[..i]).threads
    && thread.born == |Interleave(server, Started(d), schedule[..i]).log|
  }

  lemma NextThread(server: Server, s: System, step: Step, id: ThreadId)
    requires id in Next(server, s, step).threads
    ensures id in s.threads ==> Next(server, s, step).threads[id].request == s.threads[id].request
    ensures id in s.threads ==> Next(server, s, step).threads[id].born == s.threads[id].born
    ensures id !in s.threads ==> step == Arrive(id, Next(server, s, step).threads[id].request)
    ensures id !in s.threads ==> Next(server, s, step).threads[id].born == |s.log|
  {
  }

  /** Every thread carries the request it arrived with, and was born when it arrived. */
  lemma {:induction false} CarriesItsRequest(server: Server, d: Disk, schedule: seq<Step>, id: ThreadId) returns (i: nat)
    requires id in Interleave(server, Started(d), schedule).threads
    ensures i < |schedule| && ArrivedAt(server, d, schedule, i, id, Interleave(server, Started(d), schedule).threads[id])
  {
    var last := |schedule| - 1;
    var before := Interleave(server, Started(d), schedule[..last]);
    NextThread(server, before, schedule[last], id);
    if id in before.threads {
      i := CarriesItsRequest(server, d, schedule[..last], id);
      assert schedule[..last][..i] == schedule[..i];
    } else {
      i := last;
    }
  }

  /** A request turned down before it waits for the lock is told what it would be told on any disk, and
      does nothing to any. */
  lemma {:induction false} RejectedReplies(server: Server, d: Disk, schedule: seq<Step>, id: ThreadId, any: Disk)
    requires id in Interleave(server, Started(d), schedule).threads
    requires Interleave(server, Started(d), schedule).threads[id].pc.Rejected?
    ensures var thread := Interleave(server, Started(d), schedule).threads[id];
            Handle(server, any, thread.request) == Outcome([], thread.pc.reply)
  {
    EveryInterleaving(server, d, schedule);
    var s := Interleave(server, Started(d), schedule);
    assert Settled(server, s.log, id, s.threads[id]);
  }

  // ---- Finishing ----

  lemma {:induction false} InterleaveSplits(server: Server, s: System, a: seq<Step>, b: seq<Step>)
    ensures Interleave(server, s, a + b) == Interleave(server, Interleave(server, s, a), b)
  {
    if b == [] {
      assert a + b == a;
    } else {
      assert (a + b)[..|a + b| - 1] == a + b[..|b| - 1];
      InterleaveSplits(server, s, a, b[..|b| - 1]);
    }
  }

  lemma OneStep(server: Server, s: System, step: Step)
    ensures Interleave(server, s, [step]) == Next(server, s, step)
  {
    assert [step][..0] == [];
  }

  lemma {:induction false} InterleaveKeeps(server: Server, d: Disk, s: System, schedule: seq<Step>)
    requires Explained(server, d, s)
    ensures Explained(server, d, Interleave(server, s, schedule))
  {
    if schedule != [] {
      InterleaveKeeps(server, d, s, schedule[..|schedule| - 1]);
      NextKeeps(server, d, Interleave(server, s, schedule[..|schedule| - 1]), schedule[|schedule| - 1]);
    }
  }

  function Rank(pc: Pc): nat {
    match pc
    case Locked => 4
    case Decoding(_) => 3
    case ReadingData(_, _) => 3
    case ReadingCommitments(_, _, _) => 2
    case Writing(_, _, _) => 1
    case _ => 0
  }

  /** Steps left before a thread holding the lock moves on to its next phase. */
  function Remaining(server: Server, request: Request, pc: Pc): nat {
    var refs := if request.Query? && server.engine.refs(request.sql).Some? then |server.engine.refs(request.sql).value| else 0;
    match pc
    case Writing(todo, _, _) => |todo|
    case ReadingData(_, next) => if next <= refs then refs - next else 0
    case ReadingCommitments(_, _, next) => if next <= refs then refs - next else 0
    case _ => 0
  }

  lemma PhasesFollow(server: Server, d: Disk, request: Request)
    ensures Rank(Begin(server, d, request)) < Rank(Locked)
    ensures forall schema :: Rank(Advance(server, d, request, Decoding(schema)).1) < Rank(Decoding(schema)) || !request.InsertRows?
  {
  }

  lemma DataReadAdvances(server: Server, d: Disk, request: Request, data: map<TableRef, RecordBatch>, next: nat)
    requires request.Query? && server.engine.refs(request.sql).Some? && next <= |server.engine.refs(request.sql).value|
    ensures var pc := ReadTable(server, d, request, data, next);
            Rank(pc) < 3 || (pc.ReadingData? && pc.next == next + 1 <= |server.engine.refs(request.sql).value|)
  {
  }

  lemma CommitReadAdvances(server: Server, d: Disk, request: Request, proof: Proof, commitments: map<TableRef, TableCommitment>, next: nat)
    requires request.Query? && server.engine.refs(request.sql).Some? && next <= |server.engine.refs(request.sql).value|
    ensures var pc := ReadCommit(server, d, request, proof, commitments, next);
            Rank(pc) < 2 || (pc.ReadingCommitments? && pc.next == next + 1 <= |server.engine.refs(request.sql).value|)
  {
  }

  lemma AdvanceDecreases(server: Server, base: Disk, d: Disk, request: Request, pc: Pc)
    requires Critical(pc) && !pc.Leaving? && Progress(server, base, d, request, pc)
    ensures var next := Advance(server, d, request, pc).1;
            Rank(next) < Rank(pc) || (Rank(next) == Rank(pc) && Remaining(server, request, next) < Remaining(server, request, pc))
  {
    match pc
    case Locked => PhasesFollow(server, d, request);
    case Decoding(schema) => PhasesFollow(server, d, request);
    case Writing(_, _, _) =>
    case ReadingData(data, next) => DataReadAdvances(server, d, request, data, next);
    case ReadingCommitments(proof, commitments, next) => CommitReadAdvances(server, d, request, proof, commitments, next);
  }

  predicate Only(schedule: seq<Step>, id: ThreadId) {
    forall i :: 0 <= i < |schedule| ==> schedule[i] == Work(id)
  }

  /** The holder of the lock, worked on alone, comes to the end of what it does under it. */
  lemma {:induction false} ComesToLeave(server: Server, base: Disk, s: System, id: ThreadId) returns (schedule: seq<Step>)
    requires id in s.threads && Critical(s.threads[id].pc) && FirstPc(server, s.threads[id].request) == Waiting
    requires Progress(server, base, s.disk, s.threads[id].request, s.threads[id].pc)
    ensures Only(schedule, id)
    ensures var after := Interleave(server, s, schedule);
      && id in after.threads && after.threads[id].pc.Leaving? && after.threads[id].request == s.threads[id].request
      && after.threads == s.threads[id := after.threads[id]] && after.log == s.log
      && Progress(server, base, after.disk, after.threads[id].request, after.threads[id].pc)
    decreases Rank(s.threads[id].pc), Remaining(server, s.threads[id].request, s.threads[id].pc)
  {
    if s.threads[id].pc.Leaving? {
      schedule := [];
      assert s.threads == s.threads[id := s.threads[id]];
    } else {
      var next := Next(server, s, Work(id));
      AdvanceProgress(server, base, s.disk, s.threads[id].request, s.threads[id].pc);
      AdvanceDecreases(server, base, s.disk, s.threads[id].request, s.threads[id].pc);
      var rest := ComesToLeave(server, base, next, id);
      schedule := [Work(id)] + rest;
      InterleaveSplits(server, s, [Work(id)], rest);
      OneStep(server, s, Work(id));
    }
  }

  /** At the end of its critical section, two more steps give up the lock and reply. */
  lemma LeavesAndReplies(server: Server, s: System, id: ThreadId)
    requires id in s.threads && s.threads[id].pc.Leaving?
    ensures var after := Interleave(server, s, [Work(id), Work(id)]);
      && id in after.threads && after.threads[id].pc == Finished(FinalReply(s.threads[id].pc.rest), |s.log|)
      && after.holder.None? && after.disk == s.disk
      && after.threads == s.threads[id := after.threads[id]]
  {
    assert [Work(id), Work(id)][..1] == [Work(id)];
    OneStep(server, s, Work(id));
  }

  /** Whoever holds the lock can finish, with the reply it would have had alone, and leave it free. */
  lemma {:induction false} HolderFinishes(server: Server, d: Disk, s: System, id: ThreadId) returns (schedule: seq<Step>)
    requires Explained(server, d, s) && s.holder == Some(id)
    ensures Only(schedule, id)
    ensures var base, after := Replay(server, d, s.log), Interleave(server, s, schedule);
      && id in after.threads && after.threads == s.threads[id := after.threads[id]] && after.holder.None?
      && after.threads[id].pc == Finished(Handle(server, base, s.threads[id].request).reply, |s.log|)
      && after.disk == ApplyAll(base, Handle(server, base, s.threads[id].request).actions)
  {
    assert Settled(server, s.log, id, s.threads[id]);
    var first := ComesToLeave(server, Replay(server, d, s.log), s, id);
    var leaving := Interleave(server, s, first);
    LeavesAndReplies(server, leaving, id);
    schedule := first + [Work(id), Work(id)];
    InterleaveSplits(server, s, first, [Work(id), Work(id)]);
  }

  /** A waiting request left alone with a free lock takes it and finishes, having done to the disk, and
      replied, what it does and replies alone on the disk it finds. */
  lemma {:induction false} LeftAloneFinishes(server: Server, d: Disk, s: System, id: ThreadId) returns (schedule: seq<Step>)
    requires Explained(server, d, s) && s.holder.None? && id in s.threads && s.threads[id].pc.Waiting?
    ensures |schedule| > 0 && schedule[0] == Acquire(id) && Only(schedule[1..], id)
    ensures var after := Interleave(server, s, schedule);
      && id in after.threads && after.threads == s.threads[id := after.threads[id]] && after.holder.None?
      && after.threads[id].pc == Finished(Handle(server, s.disk, s.threads[id].request).reply, |s.log|)
      && after.disk == ApplyAll(s.disk, Handle(server, s.disk, s.threads[id].request).actions)
  {
    var locked := Next(server, s, Acquire(id));
    AcquireKeeps(server, d, s, id);
    var rest := HolderFinishes(server, d, locked, id);
    schedule := [Acquire(id)] + rest;
    InterleaveSplits(server, s, [Acquire(id)], rest);
    OneStep(server, s, Acquire(id));
  }

  /** No request is ever stuck: from whatever state an interleaving reaches, some further steps finish it,
      whoever holds the lock. */
  lemma {:induction false} NeverStuck(server: Server, d: Disk, s: System, id: ThreadId) returns (schedule: seq<Step>)
    requires Explained(server, d, s) && id in s.threads && !s.threads[id].pc.Rejected?
    ensures id in Interleave(server, s, schedule).threads && Interleave(server, s, schedule).threads[id].pc.Finished?
  {
    assert Settled(server, s.log, id, s.threads[id]);
    if s.threads[id].pc.Finished? {
      schedule := [];
    } else if s.threads[id].pc.Replying? {
      schedule := [Work(id)];
      OneStep(server, s, Work(id));
    } else if s.holder == Some(id) {
      schedule := HolderFinishes(server, d, s, id);
    } else if s.holder.Some? {
      var first := HolderFinishes(server, d, s, s.holder.value);
      InterleaveKeeps(server, d, s, first);
      var rest := LeftAloneFinishes(server, d, Interleave(server, s, first), id);
      schedule := first + rest;
      InterleaveSplits(server, s, first, rest);
    } else {
      schedule := LeftAloneFinishes(server, d, s, id);
    }
  }
}
