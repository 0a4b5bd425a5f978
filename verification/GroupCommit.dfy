/** The writer queue: concurrent writes joined into groups, each logged and applied by its first writer. */
module GroupCommit {
  import opened Traces
  import opened Wrappers
  import opened WriteBatches

  /** A call of Write. A request without a batch only forces a memtable switch. */
  datatype Request = Request(batch: Option<seq<Op>>, sync: bool, size: nat)

  /** A log record: its first sequence number, its operations, and whether the log was synced after it. */
  datatype Record = Record(sn: nat, ops: seq<Op>, synced: bool)

  function Ops(r: Request): seq<Op> {
    if r.batch.Some? then r.batch.value else []
  }

  /** The operations of the first `n` requests, in order. */
  function OpsOf(rs: seq<Request>, n: nat): seq<Op>
    requires n <= |rs|
  {
    if n == 0 then [] else OpsOf(rs, n - 1) + Ops(rs[n - 1])
  }

  lemma {:induction false} OpsConcat(a: seq<Request>, b: seq<Request>, n: nat)
    requires n <= |b|
    ensures OpsOf(a + b, |a| + n) == OpsOf(a, |a|) + OpsOf(b, n)
  {
    if n == 0 {
      OpsPrefix(a, b, |a|);
    } else {
      OpsConcat(a, b, n - 1);
    }
  }

  lemma {:induction false} OpsPrefix(a: seq<Request>, b: seq<Request>, n: nat)
    requires n <= |a|
    ensures OpsOf(a + b, n) == OpsOf(a, n)
  {
    if n > 0 {
      OpsPrefix(a, b, n - 1);
    }
  }

  lemma {:induction false} OpsMonotone(rs: seq<Request>, m: nat, n: nat)
    requires m <= n <= |rs|
    ensures |OpsOf(rs, m)| <= |OpsOf(rs, n)|
  {
    if m < n {
      OpsMonotone(rs, m, n - 1);
    }
  }

  // ------------------------------------------------------- which writers join

  const SMALL: nat := 0x2_0000
  const LARGE: nat := 0x10_0000

  function MaxSize(first: nat): nat {
    if first <= SMALL then first + SMALL else LARGE
  }

  function TotalSize(rs: seq<Request>): nat {
    if rs == [] then 0
    else TotalSize(rs[..|rs| - 1]) + if rs[|rs| - 1].batch.Some? then rs[|rs| - 1].size else 0
  }

  /** Request `i` may be in the group of the first one, if all before it are. */
  predicate Joins(queue: seq<Request>, i: nat)
    requires 0 < i < |queue|
  {
    && !(queue[i].sync && !queue[0].sync)
    && (queue[i].batch.Some? ==> TotalSize(queue[..i + 1]) <= MaxSize(queue[0].size))
  }

  /** The first `n` requests are the group: each one joins, and the next, if there is one, does not. */
  ghost predicate IsGroup(queue: seq<Request>, n: nat) {
    && 1 <= n <= |queue|
    && (forall i :: 0 < i < n ==> Joins(queue, i))
    && (n < |queue| ==> !Joins(queue, n))
  }

  /** What the leader takes: its whole group, or only itself when it has no batch. */
  ghost predicate Leads(queue: seq<Request>, n: nat) {
    && 1 <= n <= |queue|
    && if queue[0].batch.Some? then IsGroup(queue, n) else n == 1
  }

  method BuildBatchGroup(queue: seq<Request>) returns (ops: seq<Op>, n: nat)
    requires queue != [] && queue[0].batch.Some?
    ensures IsGroup(queue, n) && ops == OpsOf(queue, n)
  {
    var size := queue[0].size;
    var maxSize := LARGE;
    if size <= SMALL {
      maxSize := size + SMALL;
    }
    ops := queue[0].batch.value;
    n := 1;
    assert queue[..1][..0] == [];
    while n < |queue|
      invariant 1 <= n <= |queue| && ops == OpsOf(queue, n) && size == TotalSize(queue[..n])
      invariant forall i :: 0 < i < n ==> Joins(queue, i)
    {
      var w := queue[n];
      assert queue[..n + 1][..n] == queue[..n];
      if w.sync && !queue[0].sync {
        break;
      }
      if w.batch.Some? {
        size := size + w.size;
        if size > maxSize {
          break;
        }
        ops := ops + w.batch.value;
      }
      n := n + 1;
    }
  }

  // ------------------------------------------------------------- the protocol

  /** What the leader of a group has done so far. */
  datatype Phase = Built | Logged | Synced | Applied

  datatype Leader = Leader(n: nat, ops: seq<Op>, phase: Phase)

  /**
   * The queue of waiting writers, front first, the leader among them; `asked` and `done` record the
   * calls made and the calls acknowledged, in order.
   */
  datatype System = System(
    asked: seq<Request>, queue: seq<Request>, done: seq<Request>, leader: Option<Leader>,
    lastSequence: nat, log: seq<Record>, mem: seq<(nat, Op)>)

  /** Operation `k` of a batch gets sequence number `sn + k`. */
  function Numbered(sn: nat, ops: seq<Op>): (r: seq<(nat, Op)>)
    ensures |r| == |ops|
  {
    seq(|ops|, k requires 0 <= k < |ops| => (sn + k, ops[k]))
  }

  datatype Step = Enqueue(request: Request) | Lead(n: nat) | AddRecord | Sync | Apply | Finish

  ghost predicate Next(a: System, step: Step, b: System) {
    match step
    case Enqueue(r) =>
      b == a.(asked := a.asked + [r], queue := a.queue + [r])
    case Lead(n) =>
      && a.leader.None? && Leads(a.queue, n)
      && b == a.(leader := Some(Leader(n, OpsOf(a.queue, n), if a.queue[0].batch.Some? then Built else Applied)))
    case AddRecord =>
      && InPhase(a, Built)
      && b == a.(log := a.log + [Record(a.lastSequence + 1, a.leader.value.ops, false)], leader := At(a, Logged))
    case Sync =>
      && InPhase(a, Logged) && a.queue != [] && a.log != []
      && b == a.(log := if a.queue[0].sync then MarkSynced(a.log) else a.log, leader := At(a, Synced))
    case Apply =>
      && InPhase(a, Synced)
      && b == a.(mem := a.mem + Numbered(a.lastSequence + 1, a.leader.value.ops), leader := At(a, Applied))
    case Finish =>
      && InPhase(a, Applied) && a.leader.value.n <= |a.queue|
      && b == a.(lastSequence := a.lastSequence + |a.leader.value.ops|, leader := None,
                 done := a.done + a.queue[..a.leader.value.n], queue := a.queue[a.leader.value.n..])
  }

  predicate InPhase(a: System, phase: Phase) {
    a.leader.Some? && a.leader.value.phase == phase
  }

  function At(a: System, phase: Phase): Option<Leader>
    requires a.leader.Some?
  {
    Some(a.leader.value.(phase := phase))
  }

  function MarkSynced(log: seq<Record>): seq<Record>
    requires log != []
  {
    log[|log| - 1 := log[|log| - 1].(synced := true)]
  }

  // -------------------------------------------------------------- the promise

  /** The numbered operations in the log. */
  function LogEntries(log: seq<Record>): seq<(nat, Op)> {
    if log == [] then [] else LogEntries(log[..|log| - 1]) + Numbered(log[|log| - 1].sn, log[|log| - 1].ops)
  }

  /** The operations acknowledged. */
  function DoneOps(s: System): seq<Op> {
    OpsOf(s.done, |s.done|)
  }

  /** The leader's operations, once they are in the log. */
  function LoggedAhead(s: System): seq<Op> {
    if s.leader.Some? && !s.leader.value.phase.Built? then s.leader.value.ops else []
  }

  /** The leader's operations, once they are in the memtable. */
  function AppliedAhead(s: System): seq<Op> {
    if InPhase(s, Applied) then s.leader.value.ops else []
  }

  /** The leader is at the front; its group has its operations, and none of them wants a sync it does not make. */
  ghost predicate LeaderOk(s: System) {
    s.leader.Some? ==>
      && 1 <= s.leader.value.n <= |s.queue|
      && s.leader.value.ops == OpsOf(s.queue, s.leader.value.n)
      && (s.queue[0].sync || forall i :: 0 <= i < s.leader.value.n ==> !s.queue[i].sync)
      && (s.queue[0].batch.None? ==> s.leader.value == Leader(1, [], Applied))
  }

  /** Past logging, the leader's record ends the log; past syncing, it is on disk if the leader wants that. */
  ghost predicate RecordOk(s: System)
    requires LeaderOk(s)
  {
    s.leader.Some? && s.queue[0].batch.Some? ==>
      && (!s.leader.value.phase.Built? ==> s.log != [] && s.log[|s.log| - 1].sn == s.lastSequence + 1
                                           && s.log[|s.log| - 1].ops == s.leader.value.ops)
      && (InPhase(s, Synced) || InPhase(s, Applied) ==> s.queue[0].sync ==> s.log[|s.log| - 1].synced)
  }

  /** The record holds the `n` operations numbered from `sn`, and was synced. */
  predicate SyncedWith(r: Record, sn: nat, n: nat) {
    r.synced && r.sn <= sn && sn + n <= r.sn + |r.ops|
  }

  ghost predicate SomeSynced(log: seq<Record>, sn: nat, n: nat) {
    exists r :: r in log && SyncedWith(r, sn, n)
  }

  /** The batch of request `i` of `done` is in one synced record. */
  ghost predicate OnDisk(log: seq<Record>, base: nat, done: seq<Request>, i: nat)
    requires i < |done|
  {
    SomeSynced(log, base + 1 + |OpsOf(done, i)|, |Ops(done[i])|)
  }

  ghost predicate SyncOk(log: seq<Record>, base: nat, done: seq<Request>) {
    forall i :: 0 <= i < |done| && done[i].sync && done[i].batch.Some? ==> OnDisk(log, base, done, i)
  }

  ghost predicate Inv(base: nat, s: System) {
    && s.asked == s.done + s.queue
    && LeaderOk(s) && RecordOk(s) && SyncOk(s.log, base, s.done)
    && s.lastSequence == base + |DoneOps(s)|
    && LogEntries(s.log) == Numbered(base + 1, DoneOps(s) + LoggedAhead(s))
    && s.mem == Numbered(base + 1, DoneOps(s) + AppliedAhead(s))
  }

  // ------------------------------------------------------- every step keeps it

  lemma LogSnoc(log: seq<Record>, r: Record)
    ensures LogEntries(log + [r]) == LogEntries(log) + Numbered(r.sn, r.ops)
  {
    assert (log + [r])[..|log|] == log;
  }

  lemma LogMarked(log: seq<Record>)
    requires log != []
    ensures LogEntries(MarkSynced(log)) == LogEntries(log)
  {
    assert MarkSynced(log)[..|log| - 1] == log[..|log| - 1];
  }

  lemma NumberedConcat(sn: nat, a: seq<Op>, b: seq<Op>)
    ensures Numbered(sn, a + b) == Numbered(sn, a) + Numbered(sn + |a|, b)
  {
  }

  lemma SomeSyncedKept(log: seq<Record>, log2: seq<Record>, sn: nat, n: nat)
    requires SomeSynced(log, sn, n) && forall r :: r in log && r.synced ==> r in log2
    ensures SomeSynced(log2, sn, n)
  {
    var r :| r in log && SyncedWith(r, sn, n);
    assert r in log2 && SyncedWith(r, sn, n);
  }

  /** Records that stay, or are only marked synced, keep what is on disk. */
  lemma SyncKept(log: seq<Record>, log2: seq<Record>, base: nat, done: seq<Request>)
    requires SyncOk(log, base, done) && forall r :: r in log && r.synced ==> r in log2
    ensures SyncOk(log2, base, done)
  {
    forall i | 0 <= i < |done| && done[i].sync && done[i].batch.Some?
      ensures OnDisk(log2, base, done, i)
    {
      assert OnDisk(log, base, done, i);
      SomeSyncedKept(log, log2, base + 1 + |OpsOf(done, i)|, |Ops(done[i])|);
    }
  }

  lemma EnqueueKeeps(base: nat, a: System, r: Request, b: System)
    requires Inv(base, a) && Next(a, Enqueue(r), b)
    ensures Inv(base, b)
  {
    assert b.asked == b.done + b.queue;
    if b.leader.Some? {
      OpsPrefix(a.queue, [r], a.leader.value.n);
    }
  }

  lemma LeadKeeps(base: nat, a: System, n: nat, b: System)
    requires Inv(base, a) && Next(a, Lead(n), b)
    ensures Inv(base, b)
  {
    if a.queue[0].batch.Some? {
      forall i | 0 <= i < n
        ensures a.queue[0].sync || !a.queue[i].sync
      {
        assert i > 0 ==> Joins(a.queue, i);
      }
    }
    assert DoneOps(b) + [] == DoneOps(b);
  }

  lemma AddRecordKeeps(base: nat, a: System, b: System)
    requires Inv(base, a) && Next(a, AddRecord, b)
    ensures Inv(base, b)
  {
    var ops := a.leader.value.ops;
    assert DoneOps(a) + [] == DoneOps(a);
    LogSnoc(a.log, Record(a.lastSequence + 1, ops, false));
    NumberedConcat(base + 1, DoneOps(a), ops);
    SyncKept(a.log, b.log, base, a.done);
  }

  lemma MarkedStay(log: seq<Record>, r: Record)
    requires log != [] && r in log && r.synced
    ensures r in MarkSynced(log)
  {
    var j :| 0 <= j < |log| && log[j] == r;
    assert MarkSynced(log)[j] == r;
  }

  lemma SyncKeeps(base: nat, a: System, b: System)
    requires Inv(base, a) && Next(a, Sync, b)
    ensures Inv(base, b)
  {
    LogMarked(a.log);
    forall r | r in a.log && r.synced
      ensures r in b.log
    {
      MarkedStay(a.log, r);
    }
    SyncKept(a.log, b.log, base, a.done);
  }

  lemma ApplyKeeps(base: nat, a: System, b: System)
    requires Inv(base, a) && Next(a, Apply, b)
    ensures Inv(base, b)
  {
    assert DoneOps(a) + [] == DoneOps(a);
    NumberedConcat(base + 1, DoneOps(a), a.leader.value.ops);
  }

  lemma EarlierOnDisk(log: seq<Record>, base: nat, done: seq<Request>, group: seq<Request>, i: nat)
    requires i < |done| && OnDisk(log, base, done, i)
    ensures OnDisk(log, base, done + group, i)
  {
    OpsPrefix(done, group, i);
  }

  /** Where the batch of a member lies in the group's record. */
  lemma Lengths(done: seq<Request>, group: seq<Request>, k: nat, i: nat)
    requires k < |group| && i == |done| + k
    ensures |OpsOf(done, |done|)| <= |OpsOf(done + group, i)|
    ensures |OpsOf(done + group, i)| + |Ops((done + group)[i])| <= |OpsOf(done, |done|)| + |OpsOf(group, |group|)|
  {
    OpsConcat(done, group, k);
    OpsMonotone(group, k + 1, |group|);
  }

  /** The synced record of a group holds the batch of every member. */
  lemma MemberOnDisk(log: seq<Record>, base: nat, done: seq<Request>, group: seq<Request>, r: Record, i: nat)
    requires r in log && r.synced && |done| <= i < |done| + |group|
    requires r.sn == base + 1 + |OpsOf(done, |done|)| && r.ops == OpsOf(group, |group|)
    ensures OnDisk(log, base, done + group, i)
  {
    Lengths(done, group, i - |done|, i);
    Witness(log, r, base + 1 + |OpsOf(done + group, i)|, |Ops((done + group)[i])|);
  }

  lemma Witness(log: seq<Record>, r: Record, sn: nat, n: nat)
    requires r in log && SyncedWith(r, sn, n)
    ensures SomeSynced(log, sn, n)
  {
  }

  lemma MembersOnDisk(log: seq<Record>, base: nat, done: seq<Request>, group: seq<Request>, r: Record)
    requires SyncOk(log, base, done) && r in log && (r.synced || forall i :: 0 <= i < |group| ==> !group[i].sync)
    requires r.sn == base + 1 + |OpsOf(done, |done|)| && r.ops == OpsOf(group, |group|)
    ensures SyncOk(log, base, done + group)
  {
    var both := done + group;
    forall i | 0 <= i < |both| && both[i].sync && both[i].batch.Some?
      ensures OnDisk(log, base, both, i)
    {
      if i < |done| {
        EarlierOnDisk(log, base, done, group, i);
      } else {
        MemberOnDisk(log, base, done, group, r, i);
      }
    }
  }

  lemma FinishSync(base: nat, a: System, b: System)
    requires Inv(base, a) && Next(a, Finish, b)
    ensures SyncOk(b.log, base, b.done) && DoneOps(b) == DoneOps(a) + a.leader.value.ops
  {
    var n := a.leader.value.n;
    var group := a.queue[..n];
    assert group + a.queue[n..] == a.queue;
    OpsPrefix(group, a.queue[n..], n);
    OpsConcat(a.done, group, n);
    if a.queue[0].batch.Some? {
      MembersOnDisk(a.log, base, a.done, group, a.log[|a.log| - 1]);
    } else {
      forall i | 0 <= i < |b.done| && b.done[i].sync && b.done[i].batch.Some?
        ensures OnDisk(b.log, base, b.done, i)
      {
        assert group == [a.queue[0]];
        EarlierOnDisk(a.log, base, a.done, group, i);
      }
    }
  }

  lemma FinishKeeps(base: nat, a: System, b: System)
    requires Inv(base, a) && Next(a, Finish, b)
    ensures Inv(base, b)
  {
    FinishSync(base, a, b);
    assert b.done + b.queue == a.done + a.queue;
    assert DoneOps(b) + [] == DoneOps(b);
  }

  lemma NextKeepsInv(base: nat, a: System, step: Step, b: System)
    requires Inv(base, a) && Next(a, step, b)
    ensures Inv(base, b)
  {
    match step
    case Enqueue(r) => EnqueueKeeps(base, a, r, b);
    case Lead(n) => LeadKeeps(base, a, n, b);
    case AddRecord => AddRecordKeeps(base, a, b);
    case Sync => SyncKeeps(base, a, b);
    case Apply => ApplyKeeps(base, a, b);
    case Finish => FinishKeeps(base, a, b);
  }

  // ------------------------------------------------------------------- runs

  ghost predicate IsRun(base: nat, states: seq<System>, steps: seq<Step>) {
    Trace(states, steps, Next) && states[0] == System([], [], [], None, base, [], [])
  }

  lemma {:induction false} RunKeepsInv(base: nat, states: seq<System>, steps: seq<Step>, n: nat)
    requires IsRun(base, states, steps) && n <= |steps|
    ensures Inv(base, states[n])
  {
    if n > 0 {
      RunKeepsInv(base, states, steps, n - 1);
      assert StepAt(states, steps, Next, n - 1);
      NextKeepsInv(base, states[n - 1], steps[n - 1], states[n]);
    }
  }

  /**
   * In any run, whenever no group is under way, the log and the memtable hold the operations of
   * exactly the acknowledged calls, each once, in the order of the calls and numbered consecutively;
   * and the batch of every acknowledged sync call lies in one record that was synced.
   */
  lemma EachOnce(base: nat, states: seq<System>, steps: seq<Step>, n: nat)
    requires IsRun(base, states, steps) && n <= |steps| && states[n].leader.None?
    ensures var s := states[n];
      && s.done <= s.asked
      && LogEntries(s.log) == s.mem == Numbered(base + 1, OpsOf(s.done, |s.done|))
      && s.lastSequence == base + |OpsOf(s.done, |s.done|)|
      && SyncOk(s.log, base, s.done)
  {
    RunKeepsInv(base, states, steps, n);
    assert DoneOps(states[n]) + [] == DoneOps(states[n]);
  }

  /**
   * Even while a group is under way, every acknowledged call is in the log and in the memtable, and
   * on disk if it asked for that.
   */
  lemma AcknowledgedAreKept(base: nat, states: seq<System>, steps: seq<Step>, n: nat)
    requires IsRun(base, states, steps) && n <= |steps|
    ensures var s := states[n]; var k := |OpsOf(s.done, |s.done|)|;
      && s.done <= s.asked && k <= |LogEntries(s.log)| && k <= |s.mem|
      && LogEntries(s.log)[..k] == s.mem[..k] == Numbered(base + 1, OpsOf(s.done, |s.done|))
      && SyncOk(s.log, base, s.done)
  {
    RunKeepsInv(base, states, steps, n);
    var s := states[n];
    NumberedConcat(base + 1, DoneOps(s), LoggedAhead(s));
    NumberedConcat(base + 1, DoneOps(s), AppliedAhead(s));
  }

  // ----------------------------------------------------------- Write, step by step

  /** The state the writers share. A call of Write is cut where it takes or gives up the mutex. */
  class WriteQueue {
    var writers: seq<Request>
    var leader: Option<Leader>
    var lastSequence: nat
    var log: seq<Record>
    var mem: seq<(nat, Op)>
    ghost var asked: seq<Request>
    ghost var done: seq<Request>

    ghost function View(): System
      reads this
    {
      System(asked, writers, done, leader, lastSequence, log, mem)
    }

    method Enqueue(r: Request)
      modifies this
      ensures Next(old(View()), Step.Enqueue(r), View())
    {
      writers := writers + [r];
      asked := asked + [r];
    }

    /** The front writer, with room made for it, becomes the leader. */
    method Lead()
      requires writers != [] && leader.None?
      modifies this
      ensures leader.Some? && Next(old(View()), Step.Lead(leader.value.n), View())
    {
      if writers[0].batch.Some? {
        var ops, n := BuildBatchGroup(writers);
        leader := Some(Leader(n, ops, Built));
      } else {
        assert OpsOf(writers, 0) == [] && OpsOf(writers, 1) == OpsOf(writers, 0) + [];
        leader := Some(Leader(1, [], Applied));
      }
    }

    method AddRecord()
      requires InPhase(View(), Built)
      modifies this
      ensures Next(old(View()), Step.AddRecord, View())
    {
      log := log + [Record(lastSequence + 1, leader.value.ops, false)];
      leader := Some(leader.value.(phase := Logged));
    }

    method Sync()
      requires InPhase(View(), Logged) && writers != [] && log != []
      modifies this
      ensures Next(old(View()), Step.Sync, View())
    {
      if writers[0].sync {
        log := log[|log| - 1 := log[|log| - 1].(synced := true)];
      }
      leader := Some(leader.value.(phase := Synced));
    }

    /** Inserts the operations one at a time, each with the next sequence number. */
    method Apply()
      requires InPhase(View(), Synced)
      modifies this
      ensures Next(old(View()), Step.Apply, View())
    {
      var ops := leader.value.ops;
      var sequence := lastSequence + 1;
      for k := 0 to |ops|
        invariant sequence == lastSequence + 1 + k && leader == old(leader)
        invariant mem == old(mem) + Numbered(lastSequence + 1, ops)[..k]
        modifies `mem
      {
        mem := mem + [(sequence, ops[k])];
        sequence := sequence + 1;
      }
      assert Numbered(lastSequence + 1, ops)[..|ops|] == Numbered(lastSequence + 1, ops);
      leader := Some(leader.value.(phase := Applied));
    }

    /** Pops the writers of the group off the queue, up to the last one, and acknowledges them. */
    method Finish()
      requires InPhase(View(), Applied) && 1 <= leader.value.n <= |writers|
      modifies this
      ensures Next(old(View()), Step.Finish, View())
    {
      var n := leader.value.n;
      lastSequence := lastSequence + |leader.value.ops|;
      for k := 0 to n
        invariant writers == old(writers)[k..] && done == old(done) + old(writers)[..k]
        modifies `writers, `done
      {
        done := done + [writers[0]];
        writers := writers[1..];
      }
      leader := None;
    }
  }
}
