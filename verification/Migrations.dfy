// The migration runner of tools/migrate.py: any number of runners on one database, each of which may
// fail or die at any statement. A statement, or a whole transaction, is one step.
module Migrations {
  import opened Wrappers

  type Version = string
  type Checksum = string

  /** What is in a file: whether it runs outside a transaction, and how many statements it has. */
  datatype FileContent = FileContent(alone: bool, statements: nat)

  // The checksum of a file stands for its content; which content is left open.
  const CONTENTS: map<Checksum, FileContent>

  datatype Migration = Migration(version: Version, checksum: Checksum) {
    function Content(): FileContent {
      if checksum in CONTENTS then CONTENTS[checksum] else FileContent(false, 0)
    }

    predicate Alone() { Content().alone }
  }

  /** What happened in the database for good: a whole file in a transaction, or one statement outside any. */
  datatype Effect = Whole(migration: Migration) | Part(migration: Migration, statement: nat)

  // ---- plans

  predicate Distinct(plan: seq<Migration>) {
    forall a, b | 0 <= a < b < |plan| :: plan[a].version != plan[b].version
  }

  /** The files of a plan that are not recorded, in order. */
  function Pending(plan: seq<Migration>, applied: map<Version, Checksum>): seq<Migration> {
    if plan == [] then []
    else (if plan[0].version in applied then [] else [plan[0]]) + Pending(plan[1..], applied)
  }

  lemma {:induction false} PendingIs(plan: seq<Migration>, applied: map<Version, Checksum>)
    ensures forall m :: m in Pending(plan, applied) <==> m in plan && m.version !in applied
  {
    if plan != [] {
      PendingIs(plan[1..], applied);
      assert plan == [plan[0]] + plan[1..];
    }
  }

  lemma {:induction false} PendingDistinct(plan: seq<Migration>, applied: map<Version, Checksum>)
    requires Distinct(plan)
    ensures Distinct(Pending(plan, applied))
  {
    if plan != [] {
      var rest := Pending(plan[1..], applied);
      PendingDistinct(plan[1..], applied);
      PendingIs(plan[1..], applied);
      forall k | 0 <= k < |rest| ensures rest[k].version != plan[0].version {
        assert rest[k] in plan[1..];
        var n :| 0 <= n < |plan| - 1 && plan[1..][n] == rest[k];
        assert plan[n + 1] == rest[k];
      }
      if plan[0].version !in applied { NewFirst(plan[0], rest); }
    }
  }

  lemma NewFirst(m: Migration, rest: seq<Migration>)
    requires Distinct(rest) && forall k | 0 <= k < |rest| :: rest[k].version != m.version
    ensures Distinct([m] + rest)
  {
  }

  /** Files that changed after they were recorded. */
  predicate Changed(plan: seq<Migration>, applied: map<Version, Checksum>) {
    exists m | m in plan :: m.version in applied && applied[m.version] != m.checksum
  }

  /** Where the batch that starts at i ends: one file that runs alone, or all files up to the next such one. */
  function BatchEnd(todo: seq<Migration>, i: nat): (j: nat)
    requires i < |todo|
    ensures i < j <= |todo|
    ensures todo[i].Alone() ==> j == i + 1
    ensures !todo[i].Alone() ==> (forall k | i <= k < j :: !todo[k].Alone()) && (j < |todo| ==> todo[j].Alone())
    decreases |todo| - i
  {
    if todo[i].Alone() || i + 1 == |todo| || todo[i + 1].Alone() then i + 1 else BatchEnd(todo, i + 1)
  }

  /** A place where a batch may start or end. */
  predicate Boundary(todo: seq<Migration>, i: nat) {
    i == 0 || i == |todo| || (i < |todo| && (todo[i - 1].Alone() || todo[i].Alone()))
  }

  function Versions(files: seq<Migration>): seq<Version> {
    seq(|files|, k requires 0 <= k < |files| => files[k].version)
  }

  /** The table with the rows of some files added. */
  function Recorded(applied: map<Version, Checksum>, files: seq<Migration>): map<Version, Checksum> {
    if files == [] then applied
    else
      var n := |files| - 1;
      Recorded(applied, files[..n])[files[n].version := files[n].checksum]
  }

  predicate Lists(files: seq<Migration>, v: Version) { exists k | 0 <= k < |files| :: files[k].version == v }

  /** What Recorded holds for one version. */
  lemma {:induction false} RecordedAt(applied: map<Version, Checksum>, files: seq<Migration>, v: Version)
    ensures v in Recorded(applied, files) <==> v in applied || Lists(files, v)
    ensures v in applied && !Lists(files, v) ==> Recorded(applied, files)[v] == applied[v]
  {
    if files != [] {
      var n := |files| - 1;
      RecordedAt(applied, files[..n], v);
      assert Lists(files[..n], v) ==> Lists(files, v) by {
        if k :| 0 <= k < n && files[..n][k].version == v { assert files[k].version == v; }
      }
      assert Lists(files, v) ==> files[n].version == v || Lists(files[..n], v) by {
        if k :| 0 <= k < |files| && files[k].version == v { if k < n { assert files[..n][k].version == v; } }
      }
      assert files[n].version == v ==> Lists(files, v);
    }
  }

  lemma {:induction false} RecordedNew(applied: map<Version, Checksum>, files: seq<Migration>, k: nat)
    requires Distinct(files) && k < |files|
    ensures IsRecorded(Recorded(applied, files), files[k])
  {
    var n := |files| - 1;
    RecordedAt(applied, files, files[k].version);
    if k < n {
      RecordedNew(applied, files[..n], k);
      assert files[..n][k] == files[k] && files[k].version != files[n].version;
    }
  }

  function Wholes(files: seq<Migration>): seq<Effect> {
    seq(|files|, k requires 0 <= k < |files| => Whole(files[k]))
  }

  // ---- the steps of the runners

  datatype Phase =
    | Idle
    | Locked
    | Ready
    | Working(i: nat)
    | InTransaction(i: nat, j: nat, k: nat)
    | RunningAlone(i: nat, statement: nat)
    | Leaving(ok: bool)
    | Finished(ok: bool)
    | Dead

  /** One runner: its files, the records when it got the lock, what was pending when it looked, how much of that
      it recorded. */
  datatype Runner = Runner(
    plan: seq<Migration>, todo: seq<Migration>, phase: Phase, ran: seq<Version>, cut: nat, seen: map<Version, Checksum>)

  datatype State = State(
    lock: Option<int>, table: bool, applied: map<Version, Checksum>, effects: seq<Effect>, runners: map<int, Runner>)

  datatype Action =
    | TryLock
    | CreateTable(ok: bool)
    | Inspect(ok: bool)
    | BeginBatch
    | Execute(ok: bool)
    | Commit(ok: bool)
    | RunStatement(ok: bool, left: bool)
    | Record(ok: bool)
    | Finish
    | Unlock
    | Crash
    | Restart(plan: seq<Migration>)

  predicate Holds(p: Phase) { !(p.Idle? || p.Finished? || p.Dead?) }

  function Move(st: State, id: int, r: Runner): State { st.(runners := st.runners[id := r]) }

  /** One step of one runner; None when it cannot take that step now. */
  function Step(st: State, id: int, a: Action): Option<State> {
    if id !in st.runners then None
    else
      var r := st.runners[id];
      match (a, r.phase)
      case (TryLock, Idle) =>
        if st.lock.None? then Some(Move(st.(lock := Some(id)), id, r.(phase := Locked, seen := st.applied)))
        else Some(Move(st, id, r.(phase := Finished(false))))
      case (CreateTable(ok), Locked) =>
        if ok then Some(Move(st.(table := true), id, r.(phase := Ready)))
        else Some(Move(st, id, r.(phase := Leaving(false))))
      case (Inspect(ok), Ready) =>
        if ok && !Changed(r.plan, st.applied)
        then Some(Move(st, id, r.(todo := Pending(r.plan, st.applied), phase := Working(0))))
        else Some(Move(st, id, r.(phase := Leaving(false))))
      case (BeginBatch, Working(i)) =>
        if i >= |r.todo| then None
        else if r.todo[i].Alone() then Some(Move(st, id, r.(phase := RunningAlone(i, 0))))
        else Some(Move(st, id, r.(phase := InTransaction(i, BatchEnd(r.todo, i), i))))
      case (Execute(ok), InTransaction(i, j, k)) =>
        if k >= j then None
        else if ok then Some(Move(st, id, r.(phase := InTransaction(i, j, k + 1))))
        else Some(Move(st, id, r.(phase := Leaving(false))))
      case (Commit(ok), InTransaction(i, j, k)) =>
        if k != j || j > |r.todo| || i > j then None
        else if ok then
          var batch := r.todo[i..j];
          Some(Move(st.(applied := Recorded(st.applied, batch), effects := st.effects + Wholes(batch)), id,
                    r.(phase := Working(j), ran := r.ran + Versions(batch), cut := j)))
        else Some(Move(st, id, r.(phase := Leaving(false))))
      case (RunStatement(ok, left), RunningAlone(i, s)) =>
        if i >= |r.todo| || s >= r.todo[i].Content().statements then None
        else
          var st' := if ok || left then st.(effects := st.effects + [Part(r.todo[i], s)]) else st;
          Some(Move(st', id, r.(phase := if ok then RunningAlone(i, s + 1) else Leaving(false))))
      case (Record(ok), RunningAlone(i, s)) =>
        if i >= |r.todo| || s != r.todo[i].Content().statements then None
        else if ok then
          var m := r.todo[i];
          Some(Move(st.(applied := st.applied[m.version := m.checksum]), id,
                    r.(phase := Working(i + 1), ran := r.ran + [m.version], cut := i + 1)))
        else Some(Move(st, id, r.(phase := Leaving(false))))
      case (Finish, Working(i)) =>
        if i != |r.todo| then None else Some(Move(st, id, r.(phase := Leaving(true))))
      case (Unlock, Leaving(ok)) => Some(Move(st.(lock := None), id, r.(phase := Finished(ok))))
      case (Crash, _) =>
        if r.phase.Finished? || r.phase.Dead? then None
        else Some(Move(if Holds(r.phase) then st.(lock := None) else st, id, r.(phase := Dead)))
      case (Restart(plan), _) =>
        if (r.phase.Finished? || r.phase.Dead?) && Distinct(plan) then
          Some(Move(st, id, Runner(plan, [], Idle, [], 0, map[])))
        else None
      case _ => None
  }

  /** The file whose SQL a step sends to the database. */
  function Sends(st: State, id: int, a: Action): Option<Version> {
    if id !in st.runners then None
    else
      var r := st.runners[id];
      match (a, r.phase)
      case (Execute(_), InTransaction(_, j, k)) => if k < j && k < |r.todo| then Some(r.todo[k].version) else None
      case (RunStatement(_, _), RunningAlone(i, _)) => if i < |r.todo| then Some(r.todo[i].version) else None
      case _ => None
  }

  /** Steps taken one after the other, in any order between the runners. */
  function Run(st: State, trace: seq<(int, Action)>): Option<State>
    decreases |trace|
  {
    if trace == [] then Some(st)
    else match Step(st, trace[0].0, trace[0].1) case None => None case Some(next) => Run(next, trace[1..])
  }

  // ---- what every step keeps

  /** The work a runner has in hand while it holds the lock. */
  predicate InHand(applied: map<Version, Checksum>, r: Runner) {
    match r.phase
    case Working(i) => InHandFrom(applied, r, i)
    case InTransaction(i, j, k) =>
      && InHandFrom(applied, r, i) && i < |r.todo| && !r.todo[i].Alone() && j == BatchEnd(r.todo, i) && i <= k <= j
    case RunningAlone(i, s) =>
      InHandFrom(applied, r, i) && i < |r.todo| && r.todo[i].Alone() && s <= r.todo[i].Content().statements
    case Leaving(ok) => ok ==> AllRecorded(applied, r.plan)
    case Finished(ok) => ok ==> AllRecorded(applied, r.plan)
    case Dead => true
    case _ => r.cut == 0 && r.ran == [] && r.todo == []
  }

  predicate InHandFrom(applied: map<Version, Checksum>, r: Runner, i: nat) {
    && i == r.cut <= |r.todo|
    && Distinct(r.todo)
    && (forall k | i <= k < |r.todo| :: r.todo[k].version !in applied)
    && (forall m | m in r.plan :: IsRecorded(applied, m) || m in r.todo[i..])
    && (forall m | m in r.todo :: m in r.plan)
  }

  predicate IsRecorded(applied: map<Version, Checksum>, m: Migration) {
    m.version in applied && applied[m.version] == m.checksum
  }

  predicate AllRecorded(applied: map<Version, Checksum>, plan: seq<Migration>) {
    forall m | m in plan :: IsRecorded(applied, m)
  }

  /** What a run has recorded so far: a prefix of what was pending, cut between two batches. */
  predicate PrefixRan(r: Runner) {
    r.cut <= |r.todo| && Boundary(r.todo, r.cut) && r.ran == Versions(r.todo[..r.cut])
  }

  /** The effects of a transactional file are there once if it is recorded, and not at all if it is not. */
  ghost predicate Exact(applied: map<Version, Checksum>, effects: seq<Effect>) {
    forall m: Migration | !m.Alone() :: multiset(effects)[Whole(m)] == if IsRecorded(applied, m) then 1 else 0
  }

  predicate LockHeld(st: State) {
    && (st.lock.Some? ==> st.lock.value in st.runners)
    && forall id | id in st.runners :: Holds(st.runners[id].phase) <==> st.lock == Some(id)
  }

  ghost predicate Inv(st: State) {
    && LockHeld(st)
    && Exact(st.applied, st.effects)
    && forall id | id in st.runners ::
         Distinct(st.runners[id].plan) && PrefixRan(st.runners[id]) && InHand(st.applied, st.runners[id])
  }

  /** Any number of runners that have not started, on a database whose records tell the truth. */
  ghost predicate Start(st: State) {
    && st.lock.None?
    && Exact(st.applied, st.effects)
    && forall id | id in st.runners :: Distinct(st.runners[id].plan)
                                       && st.runners[id] == Runner(st.runners[id].plan, [], Idle, [], 0, map[])
  }

  /** Records are only added. */
  predicate Grows(a: map<Version, Checksum>, b: map<Version, Checksum>) {
    forall v | v in a :: v in b && b[v] == a[v]
  }

  lemma StartGood(st: State)
    requires Start(st)
    ensures Inv(st)
  {
    forall id | id in st.runners ensures PrefixRan(st.runners[id]) {
      assert Versions([]) == [];
    }
  }

  lemma PendingWork(plan: seq<Migration>, applied: map<Version, Checksum>, r: Runner)
    requires Distinct(plan) && r.plan == plan && !Changed(plan, applied)
    ensures InHandFrom(applied, r.(todo := Pending(plan, applied), cut := 0), 0)
  {
    var todo := Pending(plan, applied);
    PendingIs(plan, applied);
    PendingDistinct(plan, applied);
    assert todo[0..] == todo;
    forall k | 0 <= k < |todo| ensures todo[k].version !in applied { assert todo[k] in todo; }
  }

  lemma WholesCount(files: seq<Migration>, m: Migration)
    requires Distinct(files)
    ensures multiset(Wholes(files))[Whole(m)] == if m in files then 1 else 0
  {
    if files != [] {
      var n := |files| - 1;
      assert Wholes(files) == Wholes(files[..n]) + [Whole(files[n])];
      assert files == files[..n] + [files[n]];
      WholesCount(files[..n], m);
    }
  }

  /** A committed batch keeps the effects exact. */
  lemma CommitExact(applied: map<Version, Checksum>, effects: seq<Effect>, batch: seq<Migration>)
    requires Exact(applied, effects) && Distinct(batch)
    requires forall k | 0 <= k < |batch| :: batch[k].version !in applied
    ensures Exact(Recorded(applied, batch), effects + Wholes(batch))
  {
    hide Recorded;
    var after := Recorded(applied, batch);
    forall m: Migration | !m.Alone()
      ensures multiset(effects + Wholes(batch))[Whole(m)] == if IsRecorded(after, m) then 1 else 0
    {
      assert multiset(effects + Wholes(batch)) == multiset(effects) + multiset(Wholes(batch));
      WholesCount(batch, m);
      RecordedAt(applied, batch, m.version);
      if Lists(batch, m.version) {
        var k :| 0 <= k < |batch| && batch[k].version == m.version;
        RecordedNew(applied, batch, k);
        InBatch(batch, m, k);
      } else {
        assert m !in batch;
      }
    }
  }

  lemma InBatch(batch: seq<Migration>, m: Migration, k: nat)
    requires Distinct(batch) && k < |batch| && batch[k].version == m.version
    ensures m in batch <==> m.checksum == batch[k].checksum
  {
    if m in batch {
      var n :| 0 <= n < |batch| && batch[n] == m;
      assert n == k;
    }
    assert m.checksum == batch[k].checksum ==> m == batch[k];
  }

  lemma PartExact(applied: map<Version, Checksum>, effects: seq<Effect>, m: Migration, s: nat)
    requires Exact(applied, effects)
    ensures Exact(applied, effects + [Part(m, s)])
  {
    assert multiset(effects + [Part(m, s)]) == multiset(effects) + multiset{Part(m, s)};
  }

  /** Recording a file that runs alone adds no transactional effect and needs none. */
  lemma AloneExact(applied: map<Version, Checksum>, effects: seq<Effect>, m: Migration)
    requires Exact(applied, effects) && m.Alone() && m.version !in applied
    ensures Exact(applied[m.version := m.checksum], effects)
  {
    forall f: Migration | !f.Alone()
      ensures IsRecorded(applied[m.version := m.checksum], f) == IsRecorded(applied, f)
    {
      if f.version == m.version { assert f.checksum == m.checksum ==> f == m; }
    }
  }

  /** Work in hand after the batch i..j is recorded. */
  lemma WorkDone(applied: map<Version, Checksum>, r: Runner, i: nat, j: nat)
    requires InHandFrom(applied, r, i) && i < j <= |r.todo|
    ensures var after := Recorded(applied, r.todo[i..j]);
            Grows(applied, after) && InHandFrom(after, r.(cut := j), j)
  {
    hide Recorded;
    var batch := r.todo[i..j];
    var after := Recorded(applied, batch);
    assert Distinct(batch) by { assert forall k | 0 <= k < |batch| :: batch[k] == r.todo[i + k]; }
    forall v | v in applied ensures v in after && after[v] == applied[v] {
      RecordedAt(applied, batch, v);
      assert !Lists(batch, v) by { assert forall k | 0 <= k < |batch| :: batch[k] == r.todo[i + k]; }
    }
    forall k | j <= k < |r.todo| ensures r.todo[k].version !in after {
      RecordedAt(applied, batch, r.todo[k].version);
      assert forall n | 0 <= n < |batch| :: batch[n] == r.todo[i + n];
    }
    forall m | m in r.plan ensures IsRecorded(after, m) || m in r.todo[j..] {
      if IsRecorded(applied, m) {
        assert m.version in applied;
      } else {
        var k :| 0 <= k < |r.todo| - i && r.todo[i..][k] == m;
        if k < j - i {
          assert batch[k] == m;
          RecordedNew(applied, batch, k);
        } else {
          assert r.todo[j..][k - (j - i)] == m;
        }
      }
    }
  }

  lemma RecordedOne(applied: map<Version, Checksum>, m: Migration)
    ensures Recorded(applied, [m]) == applied[m.version := m.checksum]
  {
    assert [m][..0] == [];
  }

  lemma RanMore(r: Runner, i: nat, j: nat)
    requires PrefixRan(r) && r.cut == i < j <= |r.todo| && Boundary(r.todo, j)
    ensures PrefixRan(r.(ran := r.ran + Versions(r.todo[i..j]), cut := j))
  {
    assert r.todo[..j] == r.todo[..i] + r.todo[i..j];
  }

  /** A runner that does not hold the lock is not disturbed when records are added. */
  lemma OthersKeep(applied: map<Version, Checksum>, after: map<Version, Checksum>, r: Runner)
    requires InHand(applied, r) && !Holds(r.phase) && Grows(applied, after)
    ensures InHand(after, r)
  {
  }

  /** The runner that took a step, and the tables after it, are in order. */
  ghost predicate OwnKept(st: State, st': State, id: int) {
    && id in st'.runners
    && Grows(st.applied, st'.applied) && Exact(st'.applied, st'.effects)
    && st'.runners.Keys == st.runners.Keys
    && Distinct(st'.runners[id].plan) && PrefixRan(st'.runners[id]) && InHand(st'.applied, st'.runners[id])
  }

  lemma InspectOwn(st: State, id: int, ok: bool)
    requires Inv(st) && id in st.runners && st.runners[id].phase == Ready
    ensures OwnKept(st, Step(st, id, Inspect(ok)).value, id)
  {
    var r := st.runners[id];
    if ok && !Changed(r.plan, st.applied) {
      PendingWork(r.plan, st.applied, r);
      assert Versions([]) == [];
    }
  }

  lemma CommitOwn(st: State, id: int, ok: bool)
    requires Inv(st) && Step(st, id, Commit(ok)).Some?
    ensures OwnKept(st, Step(st, id, Commit(ok)).value, id)
  {
    hide Exact, LockHeld, Recorded, BatchEnd, Wholes, Distinct, Versions, Boundary;
    var r := st.runners[id];
    if ok {
      var i, j := r.phase.i, r.phase.j;
      assert r.cut == i;
      WorkDone(st.applied, r, i, j);
      NewBatch(st.applied, r, i, j);
      CommitExact(st.applied, st.effects, r.todo[i..j]);
      BatchBoundary(r.todo, i);
      RanMore(r, i, j);
    }
  }

  lemma NewBatch(applied: map<Version, Checksum>, r: Runner, i: nat, j: nat)
    requires InHandFrom(applied, r, i) && i <= j <= |r.todo|
    ensures Distinct(r.todo[i..j]) && forall k | 0 <= k < j - i :: r.todo[i..j][k].version !in applied
  {
    assert forall k | 0 <= k < j - i :: r.todo[i..j][k] == r.todo[i + k];
  }

  lemma BatchBoundary(todo: seq<Migration>, i: nat)
    requires i < |todo|
    ensures Boundary(todo, BatchEnd(todo, i))
  {
  }

  lemma RecordOwn(st: State, id: int, ok: bool)
    requires Inv(st) && Step(st, id, Record(ok)).Some?
    ensures OwnKept(st, Step(st, id, Record(ok)).value, id)
  {
    hide Exact, LockHeld, Recorded, BatchEnd, Distinct, Versions, Boundary;
    var r := st.runners[id];
    if ok {
      var i := r.phase.i;
      var m := r.todo[i];
      assert r.cut == i && r.todo[i..i + 1] == [m];
      WorkDone(st.applied, r, i, i + 1);
      RecordedOne(st.applied, m);
      AloneExact(st.applied, st.effects, m);
      AloneBoundary(r.todo, i);
      RanMore(r, i, i + 1);
      VersionsOne(m);
    }
  }

  lemma VersionsOne(m: Migration)
    ensures Versions([m]) == [m.version]
  {
  }

  lemma AloneBoundary(todo: seq<Migration>, i: nat)
    requires i < |todo| && todo[i].Alone()
    ensures Boundary(todo, i + 1)
  {
  }

  lemma RunStatementOwn(st: State, id: int, ok: bool, left: bool)
    requires Inv(st) && Step(st, id, RunStatement(ok, left)).Some?
    ensures OwnKept(st, Step(st, id, RunStatement(ok, left)).value, id)
  {
    hide Exact, LockHeld, Recorded, BatchEnd, Distinct, Versions, Boundary;
    var r := st.runners[id];
    PartExact(st.applied, st.effects, r.todo[r.phase.i], r.phase.statement);
  }

  /** The steps that change no table: what they keep of the runner's work. */
  lemma QuietOwn(st: State, id: int, a: Action)
    requires Inv(st) && Step(st, id, a).Some? && !a.Commit? && !a.Record? && !a.RunStatement? && !a.Inspect?
    ensures OwnKept(st, Step(st, id, a).value, id)
  {
    var r := st.runners[id];
    match a {
      case Restart(plan) => FreshOwn(st, id, plan);
      case Finish => FinishOwn(st, id);
      case _ => PhaseOwn(st, id, a);
    }
  }

  lemma FreshOwn(st: State, id: int, plan: seq<Migration>)
    requires Inv(st) && Step(st, id, Restart(plan)).Some?
    ensures OwnKept(st, Step(st, id, Restart(plan)).value, id)
  {
    hide Exact, LockHeld, Recorded, Pending, Distinct;
    assert Versions([]) == [];
  }

  lemma FinishOwn(st: State, id: int)
    requires Inv(st) && Step(st, id, Finish).Some?
    ensures OwnKept(st, Step(st, id, Finish).value, id)
  {
    hide Exact, LockHeld, Recorded, Pending, Distinct, Versions, Boundary, IsRecorded;
    var r := st.runners[id];
    assert r.todo[|r.todo|..] == [];
  }

  lemma PhaseOwn(st: State, id: int, a: Action)
    requires Inv(st) && Step(st, id, a).Some? && !a.Commit? && !a.Record? && !a.RunStatement? && !a.Inspect?
    requires !a.Restart? && !a.Finish?
    ensures OwnKept(st, Step(st, id, a).value, id)
  {
    hide Step, OwnKept;
    match a {
      case BeginBatch => BeginOwn(st, id);
      case Execute(ok) => ExecuteOwn(st, id, ok);
      case _ => DoorOwn(st, id, a);
    }
  }

  lemma BeginOwn(st: State, id: int)
    requires Inv(st) && Step(st, id, BeginBatch).Some?
    ensures OwnKept(st, Step(st, id, BeginBatch).value, id)
  {
    hide Exact, LockHeld, Recorded, Pending, Distinct, Versions, Boundary, IsRecorded, BatchEnd, AllRecorded;
  }

  lemma ExecuteOwn(st: State, id: int, ok: bool)
    requires Inv(st) && Step(st, id, Execute(ok)).Some?
    ensures OwnKept(st, Step(st, id, Execute(ok)).value, id)
  {
    hide Exact, LockHeld, Recorded, Pending, Distinct, Versions, Boundary, IsRecorded, BatchEnd, AllRecorded;
  }

  /** Taking the lock, making the table, letting go. */
  lemma DoorOwn(st: State, id: int, a: Action)
    requires Inv(st) && Step(st, id, a).Some? && (a.TryLock? || a.CreateTable? || a.Unlock? || a.Crash?)
    ensures OwnKept(st, Step(st, id, a).value, id)
  {
    hide Exact, LockHeld, Recorded, Pending, Distinct, Versions, Boundary, IsRecorded, BatchEnd, AllRecorded,
        InHandFrom;
  }

  /** What one step by the runner that takes it does to that runner and to the tables. */
  lemma StepOwn(st: State, id: int, a: Action)
    requires Inv(st) && Step(st, id, a).Some?
    ensures OwnKept(st, Step(st, id, a).value, id)
    ensures Sends(st, id, a).Some? ==> Sends(st, id, a).value !in st.applied
  {
    match a {
      case Inspect(ok) => StepPhase(st, id, a); InspectOwn(st, id, ok);
      case Commit(ok) => CommitOwn(st, id, ok);
      case Record(ok) => RecordOwn(st, id, ok);
      case RunStatement(ok, left) => RunStatementOwn(st, id, ok, left);
      case _ => QuietOwn(st, id, a);
    }
    SendsNew(st, id, a);
  }

  lemma StepPhase(st: State, id: int, a: Action)
    requires Step(st, id, a).Some? && a.Inspect?
    ensures id in st.runners && st.runners[id].phase == Ready
  {
    hide Pending, Changed;
  }

  /** Every step keeps the invariant, only adds records, and never sends a file that is recorded. */
  lemma {:induction false} StepKeeps(st: State, id: int, a: Action)
    requires Inv(st) && Step(st, id, a).Some?
    ensures Inv(Step(st, id, a).value) && Grows(st.applied, Step(st, id, a).value.applied)
    ensures Sends(st, id, a).Some? ==> Sends(st, id, a).value !in st.applied
  {
    hide Step, Exact, Recorded, Pending, BatchEnd, LockHeld;
    var st' := Step(st, id, a).value;
    StepOwn(st, id, a);
    StepOthers(st, id, a);
    forall o | o in st'.runners
      ensures Distinct(st'.runners[o].plan) && PrefixRan(st'.runners[o]) && InHand(st'.applied, st'.runners[o])
    {
      if o != id {
        var r := st.runners[o];
        assert st'.runners[o] == r;
        if Holds(r.phase) {
          LockAlone(st, id, o);
        } else {
          OthersKeep(st.applied, st'.applied, r);
        }
      }
    }
  }

  lemma LockAlone(st: State, id: int, o: int)
    requires LockHeld(st) && o in st.runners && o != id && Holds(st.runners[o].phase)
    ensures st.lock != Some(id)
  {
  }

  /** A step leaves the other runners alone; it changes the tables only with the lock held. */
  lemma StepOthers(st: State, id: int, a: Action)
    requires Inv(st) && Step(st, id, a).Some?
    ensures var st' := Step(st, id, a).value;
            && st'.runners.Keys == st.runners.Keys
            && (forall o | o in st.runners && o != id :: st'.runners[o] == st.runners[o])
            && (st'.applied != st.applied ==> st.lock == Some(id))
            && LockHeld(st')
  {
    hide LockHeld;
    StepRunners(st, id, a);
    StepApplied(st, id, a);
    StepLock(st, id, a);
  }

  lemma StepRunners(st: State, id: int, a: Action)
    requires Step(st, id, a).Some?
    ensures var st' := Step(st, id, a).value;
            id in st.runners && st'.runners == st.runners[id := st'.runners[id]]
  {
    hide Recorded, Pending, BatchEnd, Wholes, Versions, Changed, Distinct;
  }

  lemma StepApplied(st: State, id: int, a: Action)
    requires LockHeld(st) && Step(st, id, a).Some?
    ensures Step(st, id, a).value.applied != st.applied ==> st.lock == Some(id)
  {
    hide Recorded, Pending, BatchEnd, Wholes, Versions, Changed, Distinct;
  }

  /** Who holds the lock after a step. */
  lemma StepHolds(st: State, id: int, a: Action)
    requires Step(st, id, a).Some?
    ensures var st' := Step(st, id, a).value;
            && id in st.runners && id in st'.runners
            && var before, after := Holds(st.runners[id].phase), Holds(st'.runners[id].phase);
               st'.lock == if after && !before then Some(id) else if before && !after then None else st.lock
    ensures a.TryLock? && Holds(Step(st, id, a).value.runners[id].phase) ==> st.lock.None?
    ensures !a.TryLock? && Holds(Step(st, id, a).value.runners[id].phase) ==> Holds(st.runners[id].phase)
  {
    hide Recorded, Pending, BatchEnd, Wholes, Versions, Changed, Distinct, IsRecorded, AllRecorded, Boundary, Lists;
  }

  lemma StepLock(st: State, id: int, a: Action)
    requires LockHeld(st) && Step(st, id, a).Some?
    ensures LockHeld(Step(st, id, a).value)
  {
    hide Step, Holds;
    StepRunners(st, id, a);
    StepHolds(st, id, a);
  }

  lemma {:induction false} RunKeeps(st: State, trace: seq<(int, Action)>)
    requires Inv(st) && Run(st, trace).Some?
    ensures Inv(Run(st, trace).value) && Grows(st.applied, Run(st, trace).value.applied)
    decreases |trace|
  {
    hide Step, Inv, Grows;
    if trace != [] {
      StepKeeps(st, trace[0].0, trace[0].1);
      var next := Step(st, trace[0].0, trace[0].1).value;
      RunKeeps(next, trace[1..]);
      GrowsOn(st.applied, next.applied, Run(st, trace).value.applied);
    } else {
      GrowsSelf(st.applied);
    }
  }

  lemma GrowsOn(a: map<Version, Checksum>, b: map<Version, Checksum>, c: map<Version, Checksum>)
    requires Grows(a, b) && Grows(b, c)
    ensures Grows(a, c)
  {
  }

  lemma GrowsSelf(a: map<Version, Checksum>)
    ensures Grows(a, a)
  {
  }

  // ---- the guarantees over whole runs

  /** A recorded version is never executed again: whatever any number of runners did before and after it was
      recorded, with failures and crashes anywhere, no later step sends it to the database. */
  lemma NeverExecutedAgain(st: State, before: seq<(int, Action)>, after: seq<(int, Action)>, v: Version, id: int,
      a: Action)
    requires Start(st) && Run(st, before).Some? && v in Run(st, before).value.applied
    requires Run(Run(st, before).value, after).Some?
    ensures Sends(Run(Run(st, before).value, after).value, id, a) != Some(v)
  {
    hide Step, Inv, Run;
    StartGood(st);
    RunKeeps(st, before);
    var mid := Run(st, before).value;
    RunKeeps(mid, after);
    var end := Run(mid, after).value;
    assert v in end.applied;
    SendsNew(end, id, a);
  }

  lemma SendsNew(st: State, id: int, a: Action)
    requires Inv(st)
    ensures Sends(st, id, a).Some? ==> Sends(st, id, a).value !in st.applied
  {
  }

  /** The effects of a transactional file are present exactly when it is recorded, at every point of every run. */
  lemma EffectsExactlyWhenRecorded(st: State, trace: seq<(int, Action)>, m: Migration)
    requires Start(st) && Run(st, trace).Some? && !m.Alone()
    ensures var end := Run(st, trace).value;
            multiset(end.effects)[Whole(m)] == if IsRecorded(end.applied, m) then 1 else 0
  {
    hide Step, Run;
    StartGood(st);
    RunKeeps(st, trace);
  }

  // ---- what a run has done to the table

  lemma {:induction false} RecordedTwice(applied: map<Version, Checksum>, a: seq<Migration>, b: seq<Migration>)
    ensures Recorded(Recorded(applied, a), b) == Recorded(applied, a + b)
  {
    if b == [] {
      assert a + b == a;
    } else {
      var n := |b| - 1;
      RecordedTwice(applied, a, b[..n]);
      assert (a + b)[..|a + b| - 1] == a + b[..n];
    }
  }

  /** While a runner holds the lock the table is what it found, with the files it recorded so far and no others; and
      those files stay recorded ever after. */
  predicate TableRan(applied: map<Version, Checksum>, r: Runner) {
    && r.cut <= |r.todo|
    && (r.todo == [] || r.todo == Pending(r.plan, r.seen))
    && (Holds(r.phase) ==> applied == Recorded(r.seen, r.todo[..r.cut]))
    && Grows(Recorded(r.seen, r.todo[..r.cut]), applied)
  }

  ghost predicate TablesRan(st: State) { forall id | id in st.runners :: TableRan(st.applied, st.runners[id]) }

  lemma NothingRecorded(seen: map<Version, Checksum>)
    ensures Recorded(seen, []) == seen
  {
  }

  lemma StartTables(st: State)
    requires Start(st)
    ensures TablesRan(st)
  {
    NothingRecorded(map[]);
    hide Recorded;
    forall id | id in st.runners ensures TableRan(st.applied, st.runners[id]) {
      assert st.runners[id].todo[..st.runners[id].cut] == [];
    }
  }

  lemma StepTables(st: State, id: int, a: Action)
    requires Inv(st) && TablesRan(st) && Step(st, id, a).Some?
    ensures TablesRan(Step(st, id, a).value)
  {
    hide Step, Inv, TableRan, Grows;
    var st' := Step(st, id, a).value;
    StepKeeps(st, id, a);
    StepRunners(st, id, a);
    OwnTable(st, id, a);
    forall o | o in st'.runners ensures TableRan(st'.applied, st'.runners[o]) {
      if o != id {
        assert TableRan(st.applied, st.runners[o]);
        OtherTable(st, id, a, o);
      }
    }
  }

  lemma OtherTable(st: State, id: int, a: Action, o: int)
    requires Inv(st) && Step(st, id, a).Some? && o in st.runners && o != id && TableRan(st.applied, st.runners[o])
    requires Grows(st.applied, Step(st, id, a).value.applied)
    ensures TableRan(Step(st, id, a).value.applied, st.runners[o])
  {
    hide Step, Recorded, Exact, InHand, PrefixRan, Pending;
    StepApplied(st, id, a);
    if Holds(st.runners[o].phase) { LockAlone(st, id, o); }
  }

  lemma OwnTable(st: State, id: int, a: Action)
    requires Inv(st) && Step(st, id, a).Some? && TableRan(st.applied, st.runners[id])
    ensures var st' := Step(st, id, a).value; id in st'.runners && TableRan(st'.applied, st'.runners[id])
  {
    hide Inv, TableRan;
    match a {
      case Commit(ok) => CommitTable(st, id, ok);
      case Record(ok) => RecordTable(st, id, ok);
      case Inspect(ok) => InspectTable(st, id, ok);
      case _ => QuietTable(st, id, a);
    }
  }

  lemma CommitTable(st: State, id: int, ok: bool)
    requires Inv(st) && Step(st, id, Commit(ok)).Some? && TableRan(st.applied, st.runners[id])
    ensures var st' := Step(st, id, Commit(ok)).value; TableRan(st'.applied, st'.runners[id])
  {
    hide Exact, LockHeld, Recorded, BatchEnd, Wholes, Distinct, Versions, Boundary, Pending;
    var r := st.runners[id];
    if ok {
      var i, j := r.phase.i, r.phase.j;
      assert r.cut == i;
      RecordedTwice(r.seen, r.todo[..i], r.todo[i..j]);
      assert r.todo[..j] == r.todo[..i] + r.todo[i..j];
      GrowsSelf(Recorded(r.seen, r.todo[..j]));
    }
  }

  lemma RecordTable(st: State, id: int, ok: bool)
    requires Inv(st) && Step(st, id, Record(ok)).Some? && TableRan(st.applied, st.runners[id])
    ensures var st' := Step(st, id, Record(ok)).value; TableRan(st'.applied, st'.runners[id])
  {
    hide Exact, LockHeld, Recorded, BatchEnd, Wholes, Distinct, Versions, Boundary, Pending;
    var r := st.runners[id];
    if ok {
      var i := r.phase.i;
      assert r.cut == i && r.todo[i..i + 1] == [r.todo[i]];
      RecordedOne(st.applied, r.todo[i]);
      RecordedTwice(r.seen, r.todo[..i], r.todo[i..i + 1]);
      assert r.todo[..i + 1] == r.todo[..i] + r.todo[i..i + 1];
      GrowsSelf(Recorded(r.seen, r.todo[..i + 1]));
    }
  }

  lemma InspectTable(st: State, id: int, ok: bool)
    requires Inv(st) && Step(st, id, Inspect(ok)).Some? && TableRan(st.applied, st.runners[id])
    ensures var st' := Step(st, id, Inspect(ok)).value; TableRan(st'.applied, st'.runners[id])
  {
    hide Exact, LockHeld, Recorded, BatchEnd, Wholes, Distinct, Versions, Boundary, Pending;
    var r := st.runners[id];
    assert r.cut == 0;
    NothingRecorded(r.seen);
    assert r.todo[..0] == [] && Pending(r.plan, st.applied)[..0] == [];
  }

  lemma QuietTable(st: State, id: int, a: Action)
    requires Inv(st) && Step(st, id, a).Some? && TableRan(st.applied, st.runners[id])
    requires !a.Commit? && !a.Record? && !a.Inspect?
    ensures var st' := Step(st, id, a).value; id in st'.runners && TableRan(st'.applied, st'.runners[id])
  {
    hide Exact, Recorded, BatchEnd, Wholes, Distinct, Versions, Boundary, Pending, IsRecorded, InHandFrom;
    NothingRecorded(map[]);
    NothingRecorded(st.applied);
    var r := st.runners[id];
    assert r.todo[..0] == [];
    if a.TryLock? { LockedTable(st, id); }
  }

  lemma LockedTable(st: State, id: int)
    requires Inv(st) && Step(st, id, TryLock).Some? && TableRan(st.applied, st.runners[id])
    ensures var st' := Step(st, id, TryLock).value; TableRan(st'.applied, st'.runners[id])
  {
  }

  lemma {:induction false} RunTables(st: State, trace: seq<(int, Action)>)
    requires Inv(st) && TablesRan(st) && Run(st, trace).Some?
    ensures TablesRan(Run(st, trace).value)
    decreases |trace|
  {
    hide Step, Inv, TablesRan;
    if trace != [] {
      StepKeeps(st, trace[0].0, trace[0].1);
      StepTables(st, trace[0].0, trace[0].1);
      RunTables(Step(st, trace[0].0, trace[0].1).value, trace[1..]);
    }
  }

  lemma StaysRecorded(seen: map<Version, Checksum>, todo: seq<Migration>, cut: nat, applied: map<Version, Checksum>)
    requires Distinct(todo) && cut <= |todo| && Grows(Recorded(seen, todo[..cut]), applied)
    ensures forall k | 0 <= k < cut :: IsRecorded(applied, todo[k])
  {
    hide Recorded;
    forall k | 0 <= k < cut ensures IsRecorded(applied, todo[k]) { RecordedNew(seen, todo[..cut], k); }
  }

  /** However a run ends, and at every moment before, it has recorded a prefix of what was pending when it looked, cut
      between two batches: while it holds the lock the table is what it found with just those files, and they stay
      recorded ever after. If it reports no failure, its whole plan is recorded, then and ever after. */
  lemma EachRunRecordsAPrefix(st: State, trace: seq<(int, Action)>, id: int)
    requires Start(st) && Run(st, trace).Some? && id in Run(st, trace).value.runners
    ensures var end := Run(st, trace).value; var r := end.runners[id];
            && r.cut <= |r.todo| && Boundary(r.todo, r.cut) && r.ran == Versions(r.todo[..r.cut])
            && (r.todo == [] || r.todo == Pending(r.plan, r.seen))
            && (Holds(r.phase) ==> end.applied == Recorded(r.seen, r.todo[..r.cut]))
            && Grows(Recorded(r.seen, r.todo[..r.cut]), end.applied)
            && (forall k | 0 <= k < r.cut :: IsRecorded(end.applied, r.todo[k]))
            && (r.phase == Finished(true) ==> AllRecorded(end.applied, r.plan))
  {
    hide Step, Run, Exact, LockHeld, Pending, Recorded;
    StartGood(st);
    StartTables(st);
    RunKeeps(st, trace);
    RunTables(st, trace);
    var end := Run(st, trace).value;
    var r := end.runners[id];
    assert TableRan(end.applied, r);
    PendingDistinct(r.plan, r.seen);
    StaysRecorded(r.seen, r.todo, r.cut, end.applied);
  }

  // ---- files that run alone

  predicate AllParts(m: Migration, effects: seq<Effect>) {
    forall s | 0 <= s < m.Content().statements :: Part(m, s) in effects
  }

  /** What a runner has done of the files that run alone. */
  predicate AloneRan(effects: seq<Effect>, r: Runner) {
    && (r.phase.RunningAlone? ==>
          r.phase.i < |r.todo| && forall s | 0 <= s < r.phase.statement :: Part(r.todo[r.phase.i], s) in effects)
    && forall j | 0 <= j < r.cut && j < |r.todo| && r.todo[j].Alone() :: AllParts(r.todo[j], effects)
  }

  ghost predicate AllAloneRan(st: State) { forall id | id in st.runners :: AloneRan(st.effects, st.runners[id]) }

  lemma EffectsStay(st: State, id: int, a: Action)
    requires Step(st, id, a).Some?
    ensures st.effects <= Step(st, id, a).value.effects
  {
    hide Recorded, Pending, BatchEnd, Wholes, Versions, Changed, Distinct;
  }

  lemma AloneStays(effects: seq<Effect>, more: seq<Effect>, r: Runner)
    requires AloneRan(effects, r) && effects <= more
    ensures AloneRan(more, r)
  {
    assert forall e | e in effects :: e in more;
  }

  lemma OwnAlone(st: State, id: int, a: Action)
    requires Step(st, id, a).Some? && AloneRan(st.effects, st.runners[id])
    requires PrefixRan(st.runners[id]) && InHand(st.applied, st.runners[id])
    ensures var st' := Step(st, id, a).value; id in st'.runners && AloneRan(st'.effects, st'.runners[id])
  {
    if a.RunStatement? {
      StatementAlone(st, id, a);
    } else if a.Record? || a.Commit? {
      RecordAlone(st, id, a);
    } else {
      QuietAlone(st, id, a);
    }
  }

  lemma StatementAlone(st: State, id: int, a: Action)
    requires a.RunStatement?
    requires Step(st, id, a).Some? && AloneRan(st.effects, st.runners[id])
    requires PrefixRan(st.runners[id]) && InHand(st.applied, st.runners[id])
    ensures var st' := Step(st, id, a).value; id in st'.runners && AloneRan(st'.effects, st'.runners[id])
  {
    hide Recorded, Pending, BatchEnd, Wholes, Versions, Changed, Distinct, IsRecorded, AllRecorded, Boundary;
    EffectsStay(st, id, a);
    var st' := Step(st, id, a).value;
    assert forall e | e in st.effects :: e in st'.effects;
    assert a.ok ==> st'.effects[|st.effects|] in st'.effects;
  }

  lemma RecordAlone(st: State, id: int, a: Action)
    requires a.Record? || a.Commit?
    requires Step(st, id, a).Some? && AloneRan(st.effects, st.runners[id])
    requires PrefixRan(st.runners[id]) && InHand(st.applied, st.runners[id])
    ensures var st' := Step(st, id, a).value; id in st'.runners && AloneRan(st'.effects, st'.runners[id])
  {
    hide Recorded, Pending, Wholes, Versions, Changed, Distinct, IsRecorded, AllRecorded, Boundary;
    EffectsStay(st, id, a);
    var st' := Step(st, id, a).value;
    assert forall e | e in st.effects :: e in st'.effects;
  }

  lemma QuietAlone(st: State, id: int, a: Action)
    requires !a.RunStatement? && !a.Record? && !a.Commit?
    requires Step(st, id, a).Some? && AloneRan(st.effects, st.runners[id])
    requires PrefixRan(st.runners[id]) && InHand(st.applied, st.runners[id])
    ensures var st' := Step(st, id, a).value; id in st'.runners && AloneRan(st'.effects, st'.runners[id])
  {
    hide Recorded, Pending, BatchEnd, Wholes, Versions, Changed, Distinct, IsRecorded, AllRecorded, Boundary;
  }

  lemma StepAlone(st: State, id: int, a: Action)
    requires Inv(st) && AllAloneRan(st) && Step(st, id, a).Some?
    ensures AllAloneRan(Step(st, id, a).value)
  {
    hide Step, AloneRan, PrefixRan, InHand, Exact, LockHeld, Distinct;
    var st' := Step(st, id, a).value;
    StepRunners(st, id, a);
    EffectsStay(st, id, a);
    OwnAlone(st, id, a);
    forall o | o in st'.runners ensures AloneRan(st'.effects, st'.runners[o]) {
      if o != id { AloneStays(st.effects, st'.effects, st.runners[o]); }
    }
  }

  lemma {:induction false} RunAloneFiles(st: State, trace: seq<(int, Action)>)
    requires Inv(st) && AllAloneRan(st) && Run(st, trace).Some?
    ensures AllAloneRan(Run(st, trace).value)
    decreases |trace|
  {
    hide Step, Inv, AllAloneRan;
    if trace != [] {
      StepKeeps(st, trace[0].0, trace[0].1);
      StepAlone(st, trace[0].0, trace[0].1);
      RunAloneFiles(Step(st, trace[0].0, trace[0].1).value, trace[1..]);
    }
  }

  /** A file that runs alone is recorded by a runner only after every statement of it has taken effect. */
  lemma AloneIsWhole(st: State, trace: seq<(int, Action)>, id: int)
    requires Start(st) && Run(st, trace).Some? && id in Run(st, trace).value.runners
    ensures var end := Run(st, trace).value; var r := end.runners[id];
            r.cut <= |r.todo| && forall j | 0 <= j < r.cut && r.todo[j].Alone() ::
              forall s | 0 <= s < r.todo[j].Content().statements :: Part(r.todo[j], s) in end.effects
  {
    hide Step, Run, Exact, LockHeld, InHand;
    StartGood(st);
    RunKeeps(st, trace);
    RunAloneFiles(st, trace);
    var end := Run(st, trace).value;
    assert AloneRan(end.effects, end.runners[id]);
    forall j | 0 <= j < end.runners[id].cut && end.runners[id].todo[j].Alone()
      ensures AllParts(end.runners[id].todo[j], end.effects)
    {
    }
  }

  /** Of two pending files the earlier one of the plan comes first. */
  lemma {:induction false} EarlierPends(plan: seq<Migration>, applied: map<Version, Checksum>, cut: nat, a: nat, b: nat)
    requires Distinct(plan) && cut <= |Pending(plan, applied)| && a < b < |plan|
    requires plan[a].version !in applied && plan[b] in Pending(plan, applied)[..cut]
    ensures plan[a] in Pending(plan, applied)[..cut]
  {
    hide Pending, Distinct;
    var todo, more := Pending(plan, applied), plan[1..];
    var rest := Pending(more, applied);
    PendingNext(plan, applied);
    DistinctNext(plan, b);
    assert more[b - 1] == plan[b] && (a > 0 ==> more[a - 1] == plan[a]);
    if plan[0].version in applied {
      EarlierPends(more, applied, cut, a - 1, b - 1);
    } else {
      FrontOf(plan[0], rest, cut, plan[b]);
      if a > 0 { EarlierPends(more, applied, cut - 1, a - 1, b - 1); }
    }
  }

  lemma PendingNext(plan: seq<Migration>, applied: map<Version, Checksum>)
    requires plan != []
    ensures Pending(plan, applied)
            == if plan[0].version in applied then Pending(plan[1..], applied)
                else [plan[0]] + Pending(plan[1..], applied)
  {
    hide Pending;
    PendingNow(plan, applied);
    assert [] + Pending(plan[1..], applied) == Pending(plan[1..], applied);
  }

  lemma PendingNow(plan: seq<Migration>, applied: map<Version, Checksum>)
    requires plan != []
    ensures Pending(plan, applied)
            == (if plan[0].version in applied then [] else [plan[0]]) + Pending(plan[1..], applied)
  {
  }

  lemma DistinctNext(plan: seq<Migration>, b: nat)
    requires Distinct(plan) && 0 < b < |plan|
    ensures Distinct(plan[1..]) && plan[b] != plan[0]
  {
  }

  lemma FrontOf(m: Migration, rest: seq<Migration>, cut: nat, n: Migration)
    requires cut <= |[m] + rest| && n in ([m] + rest)[..cut] && n != m
    ensures cut > 0 && ([m] + rest)[..cut] == [m] + rest[..cut - 1] && n in rest[..cut - 1]
  {
    assert cut > 0 ==> ([m] + rest)[..cut] == [m] + rest[..cut - 1];
  }

  /** No run records a file before an earlier one of its plan: once it has, every earlier one is recorded, if not with
      the same checksum. */
  lemma NoneSkipped(st: State, trace: seq<(int, Action)>, id: int, a: nat, b: nat)
    requires Start(st) && Run(st, trace).Some? && id in Run(st, trace).value.runners
    requires var r := Run(st, trace).value.runners[id];
             r.cut <= |r.todo| && a < b < |r.plan| && r.plan[b] in r.todo[..r.cut]
    ensures var end := Run(st, trace).value; end.runners[id].plan[a].version in end.applied
  {
    hide Step, Run, Recorded, Pending, IsRecorded, AllRecorded, Boundary, Start;
    var end := Run(st, trace).value;
    var r := end.runners[id];
    EachRunRecordsAPrefix(st, trace, id);
    PlanDistinct(st, trace, id);
    var m := r.plan[a];
    if m.version in r.seen {
      RecordedAt(r.seen, r.todo[..r.cut], m.version);
    } else {
      EarlierPends(r.plan, r.seen, r.cut, a, b);
      ListsOne(r.todo[..r.cut], m);
      RecordedAt(r.seen, r.todo[..r.cut], m.version);
    }
  }

  lemma PlanDistinct(st: State, trace: seq<(int, Action)>, id: int)
    requires Start(st) && Run(st, trace).Some? && id in Run(st, trace).value.runners
    ensures Distinct(Run(st, trace).value.runners[id].plan)
  {
    hide Step, Run;
    StartGood(st);
    RunKeeps(st, trace);
  }

  /** The step with which a run lets go of the lock, well or not, leaves what it found with just its prefix added. */
  lemma WhatARunLeaves(st: State, trace: seq<(int, Action)>, id: int, a: Action)
    requires Start(st) && Run(st, trace).Some? && Step(Run(st, trace).value, id, a).Some?
    requires Holds(Run(st, trace).value.runners[id].phase)
             && !Holds(Step(Run(st, trace).value, id, a).value.runners[id].phase)
    ensures var end := Step(Run(st, trace).value, id, a).value; var r := end.runners[id];
            && r.cut <= |r.todo| && Boundary(r.todo, r.cut) && (r.todo == [] || r.todo == Pending(r.plan, r.seen))
            && end.applied == Recorded(r.seen, r.todo[..r.cut])
  {
    hide Run, Start, Step, Grows, IsRecorded, AllRecorded, Boundary, Recorded, Pending, Versions;
    var mid := Run(st, trace).value;
    StepRunners(mid, id, a);
    EachRunRecordsAPrefix(st, trace, id);
    Leaves(mid, id, a);
  }

  /** Letting go of the lock changes nothing else. */
  lemma Leaves(st: State, id: int, a: Action)
    requires id in st.runners && Step(st, id, a).Some?
    requires Holds(st.runners[id].phase) && !Holds(Step(st, id, a).value.runners[id].phase)
    ensures var st' := Step(st, id, a).value;
            && st'.applied == st.applied
            && st'.runners[id] == st.runners[id].(phase := st'.runners[id].phase)
  {
    hide Recorded, Pending, BatchEnd, Wholes, Versions, Changed, Distinct;
  }

  // ---- one plan for everybody

  /** All runners work from the same files, and nothing is recorded but what was before and what they record. */
  predicate OnePlan(st: State, first: map<Version, Checksum>, plan: seq<Migration>) {
    && (forall id | id in st.runners :: st.runners[id].plan == plan)
    && (forall v | v in st.applied :: FromPlan(v, st.applied[v], first, plan))
  }

  predicate FromPlan(v: Version, c: Checksum, first: map<Version, Checksum>, plan: seq<Migration>) {
    (v in first && first[v] == c) || exists m | m in plan :: m.version == v && m.checksum == c
  }

  predicate SamePlans(trace: seq<(int, Action)>, plan: seq<Migration>) {
    forall k | 0 <= k < |trace| :: trace[k].1.Restart? ==> trace[k].1.plan == plan
  }

  lemma StepOnePlan(st: State, id: int, a: Action, first: map<Version, Checksum>, plan: seq<Migration>)
    requires Inv(st) && OnePlan(st, first, plan) && Step(st, id, a).Some? && (a.Restart? ==> a.plan == plan)
    ensures OnePlan(Step(st, id, a).value, first, plan)
  {
    hide Step, Inv;
    var st' := Step(st, id, a).value;
    StepRunners(st, id, a);
    StepPlan(st, id, a);
    forall v | v in st'.applied ensures FromPlan(v, st'.applied[v], first, plan) {
      StepSource(st, id, a, v);
      if v in st.applied { assert FromPlan(v, st.applied[v], first, plan); }
    }
  }

  lemma StepPlan(st: State, id: int, a: Action)
    requires Step(st, id, a).Some?
    ensures id in st.runners && id in Step(st, id, a).value.runners
    ensures Step(st, id, a).value.runners[id].plan == if a.Restart? then a.plan else st.runners[id].plan
  {
    hide Recorded, Pending, BatchEnd, Wholes, Versions, Changed, Distinct;
  }

  /** Where a new record comes from. */
  lemma StepSource(st: State, id: int, a: Action, v: Version)
    requires Inv(st) && Step(st, id, a).Some? && v in Step(st, id, a).value.applied
    ensures (v in st.applied && Step(st, id, a).value.applied[v] == st.applied[v])
            || exists m | m in st.runners[id].plan :: m.version == v && m.checksum == Step(st, id, a).value.applied[v]
  {
    hide Exact, LockHeld, PrefixRan, Recorded;
    var r := st.runners[id];
    match (a, r.phase) {
      case (Commit(ok), InTransaction(i, j, k)) => if ok { BatchSource(st.applied, r, i, j, v); }
      case (Record(ok), RunningAlone(i, s)) => assert r.todo[i] in r.todo;
      case _ =>
    }
  }

  lemma BatchSource(applied: map<Version, Checksum>, r: Runner, i: nat, j: nat, v: Version)
    requires InHandFrom(applied, r, i) && i <= j <= |r.todo| && v in Recorded(applied, r.todo[i..j])
    ensures (v in applied && Recorded(applied, r.todo[i..j])[v] == applied[v])
            || exists m | m in r.plan :: m.version == v && m.checksum == Recorded(applied, r.todo[i..j])[v]
  {
    hide Recorded;
    var batch := r.todo[i..j];
    RecordedAt(applied, batch, v);
    if Lists(batch, v) {
      var n :| 0 <= n < |batch| && batch[n].version == v;
      assert Distinct(batch) by { assert forall k | 0 <= k < |batch| :: batch[k] == r.todo[i + k]; }
      RecordedNew(applied, batch, n);
      assert batch[n] == r.todo[i + n] && r.todo[i + n] in r.todo;
    }
  }

  lemma {:induction false} RunOnePlan(st: State, trace: seq<(int, Action)>, first: map<Version, Checksum>,
      plan: seq<Migration>)
    requires Inv(st) && OnePlan(st, first, plan) && Run(st, trace).Some? && SamePlans(trace, plan)
    ensures OnePlan(Run(st, trace).value, first, plan)
    decreases |trace|
  {
    hide Step, Inv, OnePlan, Grows;
    if trace != [] {
      StepKeeps(st, trace[0].0, trace[0].1);
      StepOnePlan(st, trace[0].0, trace[0].1, first, plan);
      RunOnePlan(Step(st, trace[0].0, trace[0].1).value, trace[1..], first, plan);
    }
  }

  /** Running again until a run reports no failure records exactly the plan: whatever was recorded before, as soon as
      any runner finishes well the table holds that and the pending files of the plan, and nothing else. */
  lemma RunUntilDone(st: State, trace: seq<(int, Action)>, plan: seq<Migration>, id: int)
    requires Start(st) && Distinct(plan)
    requires (forall o | o in st.runners :: st.runners[o].plan == plan) && SamePlans(trace, plan)
    requires Run(st, trace).Some? && id in Run(st, trace).value.runners
    requires Run(st, trace).value.runners[id].phase == Finished(true)
    ensures Run(st, trace).value.applied == Recorded(st.applied, Pending(plan, st.applied))
  {
    hide Step, Run, Exact, LockHeld, PrefixRan, Recorded, Pending;
    StartGood(st);
    RunKeeps(st, trace);
    assert OnePlan(st, st.applied, plan);
    RunOnePlan(st, trace, st.applied, plan);
    var end := Run(st, trace).value;
    assert end.runners[id].plan == plan && InHand(end.applied, end.runners[id]);
    assert AllRecorded(end.applied, plan);
    SameTable(st.applied, end.applied, plan);
  }

  lemma SameTable(first: map<Version, Checksum>, applied: map<Version, Checksum>, plan: seq<Migration>)
    requires Distinct(plan) && AllRecorded(applied, plan) && Grows(first, applied)
    requires forall v | v in applied :: FromPlan(v, applied[v], first, plan)
    ensures applied == Recorded(first, Pending(plan, first))
  {
    hide Recorded, Pending;
    var todo := Pending(plan, first);
    var all := Recorded(first, todo);
    PendingIs(plan, first);
    PendingDistinct(plan, first);
    forall v ensures v in applied <==> v in all {
      RecordedAt(first, todo, v);
      if v in applied && v !in first {
        assert FromPlan(v, applied[v], first, plan);
        var m :| m in plan && m.version == v;
        ListsOne(todo, m);
      }
      if Lists(todo, v) { ListedRecorded(todo, v, applied, plan); }
    }
    forall v | v in all ensures v in applied && all[v] == applied[v] {
      RecordedAt(first, todo, v);
      if Lists(todo, v) {
        var k :| 0 <= k < |todo| && todo[k].version == v;
        RecordedNew(first, todo, k);
        assert todo[k] in plan && IsRecorded(applied, todo[k]);
      }
    }
  }

  lemma ListsOne(todo: seq<Migration>, m: Migration)
    requires m in todo
    ensures Lists(todo, m.version)
  {
    var k :| 0 <= k < |todo| && todo[k] == m;
    assert todo[k].version == m.version;
  }

  lemma ListedRecorded(todo: seq<Migration>, v: Version, applied: map<Version, Checksum>, plan: seq<Migration>)
    requires Lists(todo, v) && AllRecorded(applied, plan) && forall m | m in todo :: m in plan
    ensures v in applied
  {
    var k :| 0 <= k < |todo| && todo[k].version == v;
    assert todo[k] in plan;
  }

  /** A look that finds nothing pending and nothing changed finds exactly a database on which the plan is recorded. */
  lemma NothingToDoExactly(plan: seq<Migration>, applied: map<Version, Checksum>)
    ensures Pending(plan, applied) == [] && !Changed(plan, applied) <==> AllRecorded(applied, plan)
  {
    hide Pending;
    var todo := Pending(plan, applied);
    PendingIs(plan, applied);
    if todo != [] { assert todo[0] in todo; }
  }

  /** Rows of versions that no file has, such as the dashboard writes, change nothing that a run goes by. */
  lemma {:induction false} OtherRowsUnread(
    plan: seq<Migration>, applied: map<Version, Checksum>, other: map<Version, Checksum>)
    requires forall m | m in plan :: m.version !in other
    ensures Pending(plan, applied + other) == Pending(plan, applied)
    ensures Changed(plan, applied + other) <==> Changed(plan, applied)
    ensures AllRecorded(applied + other, plan) <==> AllRecorded(applied, plan)
  {
    if plan != [] { OtherRowsUnread(plan[1..], applied, other); }
    hide Pending;
    assert forall m | m in plan :: m.version in applied + other <==> m.version in applied;
  }

  /** And what a run records leaves them as they are. */
  lemma {:induction false} OtherRowsStay(
    files: seq<Migration>, applied: map<Version, Checksum>, other: map<Version, Checksum>)
    requires forall m | m in files :: m.version !in other
    ensures Recorded(applied + other, files) == Recorded(applied, files) + other
  {
    if files != [] {
      var n := |files| - 1;
      OtherRowsStay(files[..n], applied, other);
      assert files[n] in files;
    }
  }

  // ---- one run, as it is written

  datatype Problem = Busy | FilesChanged | ApplyFailed(version: Version)

  /** One database as a run sees it; busy says that another session holds the lock. */
  class Database {
    var busy: bool
    var table: bool
    var applied: map<Version, Checksum>
    var effects: seq<Effect>

    constructor ()
      ensures !busy && !table && applied == map[] && effects == []
    {
      busy, table, applied, effects := false, false, map[], [];
    }
  }

  class Report {
    var pending: seq<Migration>
    var changed: bool
    var ran: seq<Version>
    var error: Option<Problem>

    constructor ()
      ensures ran == [] && error == None
    {
      pending, changed, ran, error := [], false, [], None;
    }
  }

  /** What the database has and what is waiting. */
  method LookAt(db: Database, plan: seq<Migration>, report: Report)
    modifies report`pending, report`changed
    ensures report.pending == Pending(plan, db.applied)
    ensures report.changed == Changed(plan, db.applied)
  {
    report.pending := Pending(plan, db.applied);
    report.changed := exists m | m in plan :: m.version in db.applied && db.applied[m.version] != m.checksum;
  }

  /** Run several files as one transaction; any failure undoes all of them. */
  method RunTogether(db: Database, group: seq<Migration>) returns (failed: Option<Version>)
    requires group != []
    modifies db`applied, db`effects
    ensures failed.None? ==>
              db.applied == Recorded(old(db.applied), group) && db.effects == old(db.effects) + Wholes(group)
    ensures failed.Some? ==> db.applied == old(db.applied) && db.effects == old(db.effects)
    ensures failed.Some? ==> exists k | 0 <= k < |group| :: group[k].version == failed.value
  {
    var records, done, current := db.applied, [], group[0].version;
    var k := 0;
    while k < |group|
      invariant 0 <= k <= |group|
      invariant records == Recorded(db.applied, group[..k]) && done == Wholes(group[..k])
      invariant exists n | 0 <= n < |group| :: group[n].version == current
    {
      current := group[k].version;
      assert group[..k + 1][..k] == group[..k];
      var sqlOk: bool := *;
      if !sqlOk { return Some(current); }
      done := done + [Whole(group[k])];
      var insertOk: bool := *;
      if !insertOk { return Some(current); }
      records := records[current := group[k].checksum];
      k := k + 1;
    }
    assert group[..|group|] == group;
    var commitOk: bool := *;
    if !commitOk { return Some(current); }
    db.applied, db.effects := records, db.effects + done;
    failed := None;
  }

  /** The effects of a file that runs alone, statement by statement. */
  ghost predicate OnlyParts(m: Migration, before: seq<Effect>, after: seq<Effect>) {
    && |before| <= |after| && after[..|before|] == before
    && forall k | |before| <= k < |after| :: after[k].Part? && after[k].migration == m
  }

  /** Run a file one statement at a time, outside a transaction. A failure may leave statements behind. */
  method RunAlone(db: Database, m: Migration) returns (failed: Option<Version>)
    modifies db`applied, db`effects
    ensures OnlyParts(m, old(db.effects), db.effects)
    ensures failed.None? ==> db.applied == old(db.applied)[m.version := m.checksum]
    ensures failed.None? ==> forall s | 0 <= s < m.Content().statements :: Part(m, s) in db.effects
    ensures failed.Some? ==> failed.value == m.version && db.applied == old(db.applied)
  {
    var s := 0;
    while s < m.Content().statements
      invariant s <= m.Content().statements
      invariant OnlyParts(m, old(db.effects), db.effects) && db.applied == old(db.applied)
      invariant forall t | 0 <= t < s :: Part(m, t) in db.effects
    {
      var ok: bool, left: bool := *, *;
      if ok || left {
        db.effects := db.effects + [Part(m, s)];
      }
      if !ok { return Some(m.version); }
      s := s + 1;
    }
    var indexesValid: bool := *;
    if !indexesValid { return Some(m.version); }
    var insertOk: bool := *;
    if !insertOk { return Some(m.version); }
    db.applied := db.applied[m.version := m.checksum];
    failed := None;
  }

  /** What a run that holds the lock leaves behind: the first cut files of todo are recorded, and no others. */
  ghost predicate RanUpTo(before: map<Version, Checksum>, after: map<Version, Checksum>, todo: seq<Migration>,
                          ran: seq<Version>, cut: nat)
  {
    cut <= |todo| && Boundary(todo, cut) && ran == Versions(todo[..cut]) && after == Recorded(before, todo[..cut])
  }

  /** One batch more. */
  lemma BatchRan(before: map<Version, Checksum>, after: map<Version, Checksum>, todo: seq<Migration>,
                 ran: seq<Version>, i: nat, j: nat)
    requires RanUpTo(before, after, todo, ran, i) && i <= j <= |todo| && Boundary(todo, j)
    ensures RanUpTo(before, Recorded(after, todo[i..j]), todo, ran + Versions(todo[i..j]), j)
  {
    RecordedTwice(before, todo[..i], todo[i..j]);
    assert todo[..j] == todo[..i] + todo[i..j];
  }

  /** The batches of one run: the loop over the pending files. */
  method RunBatches(db: Database, todo: seq<Migration>, report: Report) returns (ghost cut: nat)
    requires Distinct(todo) && (forall k | 0 <= k < |todo| :: todo[k].version !in db.applied)
    requires Exact(db.applied, db.effects) && report.ran == [] && report.error.None?
    modifies db`applied, db`effects, report`ran, report`error
    ensures RanUpTo(old(db.applied), db.applied, todo, report.ran, cut)
    ensures Exact(db.applied, db.effects)
    ensures report.error.Some? <==> cut < |todo|
    ensures report.error.Some? ==> report.error.value.ApplyFailed?
  {
    hide Recorded, Exact;
    var i := 0;
    cut := 0;
    RanNone(db.applied, todo);
    while i < |todo|
      invariant 0 <= i <= |todo| && cut == i
      invariant RanUpTo(old(db.applied), db.applied, todo, report.ran, i)
      invariant Exact(db.applied, db.effects)
      invariant report.error.None?
    {
      var j: nat;
      var failed: Option<Version>;
      BatchBoundary(todo, i);
      StillNew(old(db.applied), todo, i);
      ghost var applied, effects := db.applied, db.effects;
      if todo[i].Alone() {
        j := i + 1;
        failed := RunAlone(db, todo[i]);
        PartsExact(applied, effects, db.effects, todo[i]);
        if failed.None? {
          AloneExact(applied, db.effects, todo[i]);
          RecordedOne(applied, todo[i]);
          assert todo[i..j] == [todo[i]];
        }
      } else {
        j := i;
        while j < |todo| && !todo[j].Alone()
          invariant i <= j <= BatchEnd(todo, i)
          modifies {}
        {
          BatchEndAt(todo, i, j);
          j := j + 1;
        }
        BatchEndAt(todo, i, j);
        failed := RunTogether(db, todo[i..j]);
        if failed.None? { CommitExact(applied, effects, todo[i..j]); }
      }
      if failed.Some? {
        report.error := Some(ApplyFailed(failed.value));
        return;
      }
      assert j == BatchEnd(todo, i);
      BatchRan(old(db.applied), applied, todo, report.ran, i, j);
      report.ran := report.ran + Versions(todo[i..j]);
      i, cut := j, j;
    }
  }

  lemma RanNone(applied: map<Version, Checksum>, todo: seq<Migration>)
    ensures RanUpTo(applied, applied, todo, [], 0)
  {
    assert todo[..0] == [] && Versions([]) == [];
  }

  /** Where the inner loop of a batch stops. */
  lemma BatchEndAt(todo: seq<Migration>, i: nat, j: nat)
    requires i < |todo| && !todo[i].Alone() && i <= j <= BatchEnd(todo, i)
    ensures j < |todo| && !todo[j].Alone() ==> j < BatchEnd(todo, i)
    ensures (j == |todo| || todo[j].Alone()) ==> j == BatchEnd(todo, i)
  {
  }

  lemma StillNew(applied: map<Version, Checksum>, todo: seq<Migration>, i: nat)
    requires Distinct(todo) && i < |todo| && forall k | 0 <= k < |todo| :: todo[k].version !in applied
    ensures forall k | i <= k < |todo| :: todo[k].version !in Recorded(applied, todo[..i])
    ensures var j := BatchEnd(todo, i);
            Distinct(todo[i..j]) && forall k | 0 <= k < j - i :: todo[i..j][k].version !in Recorded(applied, todo[..i])
  {
    hide Recorded, BatchEnd;
    forall k | i <= k < |todo| ensures todo[k].version !in Recorded(applied, todo[..i]) {
      RecordedAt(applied, todo[..i], todo[k].version);
    }
    var j := BatchEnd(todo, i);
    assert forall k | 0 <= k < j - i :: todo[i..j][k] == todo[i + k];
  }

  lemma PartsExact(applied: map<Version, Checksum>, before: seq<Effect>, after: seq<Effect>, m: Migration)
    requires Exact(applied, before) && OnlyParts(m, before, after)
    ensures Exact(applied, after)
  {
    var parts := after[|before|..];
    assert after == before + parts;
    assert multiset(after) == multiset(before) + multiset(parts);
    forall f: Migration ensures Whole(f) !in parts {
      assert forall k | 0 <= k < |parts| :: parts[k] == after[|before| + k];
    }
  }

  /** One run on one database: under the lock, refused when a file changed, then batch after batch. */
  method ApplyTo(db: Database, plan: seq<Migration>, report: Report) returns (ghost cut: nat)
    requires Distinct(plan) && Exact(db.applied, db.effects) && report.ran == [] && report.error.None?
    modifies db, report
    ensures var todo := Pending(plan, old(db.applied));
            RanUpTo(old(db.applied), db.applied, todo, report.ran, cut)
    ensures Exact(db.applied, db.effects)
    ensures old(db.busy) ==> report.error == Some(Busy) && cut == 0
    ensures Changed(plan, old(db.applied)) ==> report.error.Some? && cut == 0
    ensures report.error.None? ==> AllRecorded(db.applied, plan) && report.pending == []
    ensures db.busy == old(db.busy)
  {
    hide Recorded, Exact, Pending;
    cut := 0;
    RanNone(db.applied, Pending(plan, db.applied));
    if db.busy {
      report.error := Some(Busy);
      return;
    }
    db.busy := true;
    var tableOk: bool := *;
    if tableOk {
      db.table := true;
      LookAt(db, plan, report);
      if report.changed {
        report.error := Some(FilesChanged);
      } else {
        PendingNew(plan, db.applied);
        ghost var before := db.applied;
        cut := RunBatches(db, report.pending, report);
        if cut == |Pending(plan, before)| { AllRan(plan, before, db.applied, report.ran, cut); }
      }
    } else {
      report.error := Some(ApplyFailed("schema_migrations"));
    }
    db.busy := false;
    LookAt(db, plan, report);
    if report.error.None? { NothingPending(plan, db.applied); }
  }

  lemma PendingNew(plan: seq<Migration>, applied: map<Version, Checksum>)
    requires Distinct(plan)
    ensures var todo := Pending(plan, applied);
            Distinct(todo) && forall k | 0 <= k < |todo| :: todo[k].version !in applied
  {
    var todo := Pending(plan, applied);
    PendingIs(plan, applied);
    PendingDistinct(plan, applied);
    assert forall k | 0 <= k < |todo| :: todo[k] in todo;
  }

  lemma AllRan(plan: seq<Migration>, before: map<Version, Checksum>, after: map<Version, Checksum>, ran: seq<Version>,
      cut: nat)
    requires Distinct(plan) && !Changed(plan, before)
    requires RanUpTo(before, after, Pending(plan, before), ran, cut) && cut == |Pending(plan, before)|
    ensures AllRecorded(after, plan)
  {
    hide Recorded;
    var todo := Pending(plan, before);
    assert todo[..cut] == todo;
    PendingNew(plan, before);
    PendingIs(plan, before);
    forall m | m in plan ensures IsRecorded(after, m) {
      RecordedAt(before, todo, m.version);
      if m in todo {
        var k :| 0 <= k < |todo| && todo[k] == m;
        RecordedNew(before, todo, k);
      } else {
        assert m.version in before;
        assert !Lists(todo, m.version) by { assert forall k | 0 <= k < |todo| :: todo[k].version !in before; }
      }
    }
  }

  lemma NothingPending(plan: seq<Migration>, applied: map<Version, Checksum>)
    requires AllRecorded(applied, plan)
    ensures Pending(plan, applied) == []
  {
    PendingIs(plan, applied);
    assert forall m :: m !in Pending(plan, applied);
  }
}
