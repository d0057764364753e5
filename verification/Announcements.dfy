// The announcement sender of app/services/announcements.py and the dashboard's steps in it: any number
// of runners, crashes, the sweep of stuck people, cancel, send now, and reports that come whenever they like.
module Announcements {

  type AnnId = int
  type UserId = int
  type RunnerId = int

  /** A row of announcement_recipients: at most one for a person and an announcement. */
  type RecId = (AnnId, UserId)

  datatype Status = Waiting | Sending | Kept | Sent | Emailed | Delivered | Read | GotIt | Failed

  datatype AnnStatus = Planned | Underway | Done | Cancelled

  datatype Announcement = Announcement(status: AnnStatus, sendAt: int)

  datatype Recipient = Recipient(status: Status, updated: int)

  const BATCH := 25
  const STUCK_SECONDS := 10 * 60

  /** The tables, the clock in seconds, and the people each runner has claimed and not yet dealt with. */
  datatype State = State(
    now: int, anns: map<AnnId, Announcement>, people: map<RecId, Recipient>, held: map<RunnerId, set<RecId>>)

  /** The order in which a status may only move forward. */
  const ORDER: seq<Status> := [Waiting, Sending, Kept, Sent, Emailed, Delivered, Read, GotIt]

  // ---- the statements, each as one step on the tables

  function Set(people: map<RecId, Recipient>, id: RecId, status: Status, now: int): map<RecId, Recipient> {
    if id in people then people[id := Recipient(status, now)] else people
  }

  function SetAll(people: map<RecId, Recipient>, ids: set<RecId>, status: Status, now: int): map<RecId, Recipient> {
    map id | id in people :: if id in ids then Recipient(status, now) else people[id]
  }

  /** The rows a starting announcement adds: one waiting row for each person who has none yet. */
  function Added(people: map<RecId, Recipient>, ann: AnnId, users: set<UserId>, now: int): map<RecId, Recipient> {
    people + map id | id in (set u | u in users :: (ann, u)) && id !in people :: Recipient(Waiting, now)
  }

  predicate Due(a: Announcement, now: int) { a.status == Planned && a.sendAt <= now }

  predicate Open(people: map<RecId, Recipient>, ann: AnnId) {
    exists id | id in people :: id.0 == ann && (people[id].status == Waiting || people[id].status == Sending)
  }

  predicate Stuck(r: Recipient, now: int) { r.status == Sending && r.updated < now - STUCK_SECONDS }

  function Swept(people: map<RecId, Recipient>, now: int): map<RecId, Recipient> {
    map id | id in people :: if Stuck(people[id], now) then Recipient(Failed, now) else people[id]
  }

  /** Where a status stands in the order; Failed does not stand in it. */
  function Rank(s: Status): int {
    match s
    case Waiting => 0 case Sending => 1 case Kept => 2 case Sent => 3 case Emailed => 4
    case Delivered => 5 case Read => 6 case GotIt => 7 case Failed => -1
  }

  /** A report moves a status forward only. */
  function Moved(was: Status, to: Status): Status {
    if was in ORDER && Rank(was) >= Rank(to) then was else to
  }

  datatype Report = Arrived | WasRead | TappedGotIt | WasClosed | NotDelivered | LateDelivery

  /** What a report from WhatsApp, a tap on Got it, or a late delivery makes of a status. */
  function Reported(was: Status, report: Report): Status {
    match report
    case Arrived => Moved(was, Delivered)
    case WasRead => Moved(was, Read)
    case TappedGotIt => Moved(was, GotIt)
    case WasClosed => if was == Sent || was == Delivered then Kept else was
    case NotDelivered => Failed
    case LateDelivery => if was == Kept then Sent else was
  }

  predicate OutcomeStatus(s: Status) { s == Failed || s == Emailed || s == Sent || s == Kept }

  datatype Action =
    | Plan(ann: AnnId, sendAt: int)
    | SendNow(ann: AnnId)
    | Cancel(ann: AnnId)
    | Start(ann: AnnId, users: set<UserId>)
    | Claim(runner: RunnerId, ann: AnnId, batch: set<RecId>)
    | Outcome(runner: RunnerId, id: RecId, status: Status)
    | OutcomeLost(runner: RunnerId, id: RecId)
    | Finish(ann: AnnId)
    | Sweep
    | Hear(id: RecId, report: Report)
    | Crash(runner: RunnerId)
    | Tick(seconds: nat)

  predicate MayClaim(people: map<RecId, Recipient>, ann: AnnId, batch: set<RecId>) {
    |batch| <= BATCH && forall id | id in batch :: id in people && id.0 == ann && people[id].status == Waiting
  }

  function Held(st: State, runner: RunnerId): set<RecId> {
    if runner in st.held then st.held[runner] else {}
  }

  /** Whether a step can be taken now. A step whose statement finds no row to change is taken and changes nothing. */
  predicate Enabled(st: State, a: Action) {
    match a
    case Plan(ann, _) => ann !in st.anns
    case Claim(_, ann, batch) => MayClaim(st.people, ann, batch)
    case Outcome(runner, id, status) => id in Held(st, runner) && OutcomeStatus(status)
    case OutcomeLost(runner, id) => id in Held(st, runner)
    case _ => true
  }

  function Step(st: State, a: Action): State
    requires Enabled(st, a)
  {
    match a
    case Plan(ann, sendAt) => st.(anns := st.anns[ann := Announcement(Planned, sendAt)])
    case SendNow(ann) =>
      if ann in st.anns && st.anns[ann].status == Planned
      then st.(anns := st.anns[ann := Announcement(Planned, st.now)]) else st
    case Cancel(ann) =>
      if ann in st.anns && st.anns[ann].status == Planned
      then st.(anns := st.anns[ann := st.anns[ann].(status := Cancelled)]) else st
    case Start(ann, users) =>
      if ann in st.anns && Due(st.anns[ann], st.now)
      then st.(people := Added(st.people, ann, users, st.now),
               anns := st.anns[ann := st.anns[ann].(status := Underway)])
      else st
    case Claim(runner, ann, batch) =>
      st.(people := SetAll(st.people, batch, Sending, st.now), held := st.held[runner := Held(st, runner) + batch])
    case Outcome(runner, id, status) =>
      st.(people := Set(st.people, id, status, st.now), held := st.held[runner := Held(st, runner) - {id}])
    case OutcomeLost(runner, id) => st.(held := st.held[runner := Held(st, runner) - {id}])
    case Finish(ann) =>
      if ann in st.anns && st.anns[ann].status == Underway && !Open(st.people, ann)
      then st.(anns := st.anns[ann := st.anns[ann].(status := Done)]) else st
    case Sweep => st.(people := Swept(st.people, st.now))
    case Hear(id, report) =>
      if id in st.people then st.(people := Set(st.people, id, Reported(st.people[id].status, report), st.now)) else st
    case Crash(runner) => st.(held := st.held - {runner})
    case Tick(seconds) => st.(now := st.now + seconds)
  }

  predicate CanRun(st: State, trace: seq<Action>)
    decreases |trace|
  {
    trace == [] || (Enabled(st, trace[0]) && CanRun(Step(st, trace[0]), trace[1..]))
  }

  function Run(st: State, trace: seq<Action>): State
    requires CanRun(st, trace)
    decreases |trace|
  {
    if trace == [] then st else Run(Step(st, trace[0]), trace[1..])
  }

  // ---- what every step keeps

  /** Somebody who no longer waits has been claimed. */
  predicate Claimed(s: Status) { s != Waiting }

  predicate Settled(s: Status) { s != Waiting && s != Sending }

  ghost predicate Inv(st: State) {
    && (forall id | id in st.people ::
          id.0 in st.anns && (st.anns[id.0].status == Underway || st.anns[id.0].status == Done))
    && (forall ann | ann in st.anns && st.anns[ann].status == Done :: !Open(st.people, ann))
    && HeldAreClaimed(st)
    && HeldByOne(st)
  }

  ghost predicate HeldAreClaimed(st: State) {
    forall r, id | r in st.held && id in st.held[r] :: id in st.people && Claimed(st.people[id].status)
  }

  ghost predicate HeldByOne(st: State) {
    forall r, o, id | r in st.held && o in st.held && id in st.held[r] && id in st.held[o] :: r == o
  }

  /** Between two states: nobody who was claimed waits again, nobody who was settled is open again, and an
      announcement that is done or cancelled stays so. */
  predicate Forward(a: State, b: State) {
    && (forall id | id in a.people :: PersonForward(a, b, id))
    && (forall ann | ann in a.anns :: AnnForward(a, b, ann))
  }

  predicate PersonForward(a: State, b: State, id: RecId)
    requires id in a.people
  {
    && id in b.people
    && (Claimed(a.people[id].status) ==> Claimed(b.people[id].status))
    && (Settled(a.people[id].status) ==> Settled(b.people[id].status))
  }

  predicate AnnForward(a: State, b: State, ann: AnnId)
    requires ann in a.anns
  {
    && ann in b.anns
    && (a.anns[ann].status == Done ==> b.anns[ann].status == Done)
    && (a.anns[ann].status == Cancelled ==> b.anns[ann].status == Cancelled)
  }

  lemma ReportedForward(was: Status, report: Report)
    ensures Claimed(was) ==> Claimed(Reported(was, report))
    ensures Settled(was) ==> Settled(Reported(was, report))
    ensures Reported(was, report) != was ==> Settled(Reported(was, report))
  {
  }

  lemma StepForward(st: State, a: Action)
    requires Inv(st) && Enabled(st, a)
    ensures Forward(st, Step(st, a))
  {
    hide Open, Step, Enabled, HeldAreClaimed, HeldByOne;
    forall id | id in st.people ensures PersonForward(st, Step(st, a), id) { PersonStep(st, a, id); }
    forall ann | ann in st.anns ensures AnnForward(st, Step(st, a), ann) { AnnStep(st, a, ann); }
  }

  lemma AnnStep(st: State, a: Action, ann: AnnId)
    requires Enabled(st, a) && ann in st.anns
    ensures AnnForward(st, Step(st, a), ann)
  {
    hide Open, Swept, Added, Reported, SetAll, Set, MayClaim, Held;
  }

  lemma PersonStep(st: State, a: Action, id: RecId)
    requires Inv(st) && Enabled(st, a) && id in st.people
    ensures PersonForward(st, Step(st, a), id)
  {
    hide Open, HeldByOne, Moved;
    if a.Hear? && a.id in st.people { ReportedForward(st.people[a.id].status, a.report); }
    hide Reported;
  }

  lemma {:induction false} StepKeeps(st: State, a: Action)
    requires Inv(st) && Enabled(st, a)
    ensures Inv(Step(st, a))
  {
    StepRows(st, a);
    StepHeld(st, a);
    StepDone(st, a);
  }

  lemma StepRows(st: State, a: Action)
    requires Inv(st) && Enabled(st, a)
    ensures var st' := Step(st, a);
            forall id | id in st'.people ::
              id.0 in st'.anns && (st'.anns[id.0].status == Underway || st'.anns[id.0].status == Done)
  {
    hide Open;
  }

  lemma StepHeld(st: State, a: Action)
    requires Inv(st) && Enabled(st, a)
    ensures HeldAreClaimed(Step(st, a)) && HeldByOne(Step(st, a))
  {
    hide Open;
    StepForward(st, a);
    StepHeldClaimed(st, a);
    StepHeldOnce(st, a);
  }

  lemma StepHeldClaimed(st: State, a: Action)
    requires Inv(st) && Enabled(st, a) && Forward(st, Step(st, a))
    ensures HeldAreClaimed(Step(st, a))
  {
    hide Open, HeldByOne;
  }

  lemma StepHeldOnce(st: State, a: Action)
    requires Inv(st) && Enabled(st, a)
    ensures HeldByOne(Step(st, a))
  {
    hide Open, Swept, Added, Reported, SetAll, Set, Due, OutcomeStatus, Settled;
  }

  lemma StepDone(st: State, a: Action)
    requires Inv(st) && Enabled(st, a)
    ensures var st' := Step(st, a);
            forall ann | ann in st'.anns && st'.anns[ann].status == Done :: !Open(st'.people, ann)
  {
    var st' := Step(st, a);
    StepForward(st, a);
    forall ann | ann in st'.anns && st'.anns[ann].status == Done
      ensures !Open(st'.people, ann)
    {
      if ann in st.anns && st.anns[ann].status == Done {
        forall id | id in st'.people && id.0 == ann ensures Settled(st'.people[id].status) {
          if id in st.people { assert Settled(st.people[id].status); } else { NewRows(st, a, id); }
        }
      } else {
        DoneNow(st, a, ann);
      }
    }
  }

  /** A new row belongs to an announcement that was planned. */
  lemma NewRows(st: State, a: Action, id: RecId)
    requires Enabled(st, a) && id in Step(st, a).people && id !in st.people
    ensures id.0 in st.anns && st.anns[id.0].status == Planned
  {
    hide Open;
  }

  lemma DoneNow(st: State, a: Action, ann: AnnId)
    requires Enabled(st, a) && ann in Step(st, a).anns && Step(st, a).anns[ann].status == Done
    requires !(ann in st.anns && st.anns[ann].status == Done)
    ensures Step(st, a).people == st.people && !Open(st.people, ann)
  {
    hide Open;
  }

  lemma {:induction false} RunKeeps(st: State, trace: seq<Action>)
    requires Inv(st) && CanRun(st, trace)
    ensures Inv(Run(st, trace)) && Forward(st, Run(st, trace))
    decreases |trace|
  {
    hide Step, Inv;
    if trace != [] {
      StepKeeps(st, trace[0]);
      StepForward(st, trace[0]);
      RunKeeps(Step(st, trace[0]), trace[1..]);
    }
  }

  // ---- the guarantees over whole runs

  /** An empty system, before anything is planned. */
  predicate Fresh(st: State) { st.anns == map[] && st.people == map[] && st.held == map[] }

  /** How many claims of a run included a person. */
  function Claims(trace: seq<Action>, id: RecId): nat
    decreases |trace|
  {
    if trace == [] then 0
    else (if trace[0].Claim? && id in trace[0].batch then 1 else 0) + Claims(trace[1..], id)
  }

  /** How many times a runner dealt with a person it had claimed. */
  function Attempts(trace: seq<Action>, id: RecId): nat
    decreases |trace|
  {
    if trace == [] then 0
    else (if (trace[0].Outcome? || trace[0].OutcomeLost?) && trace[0].id == id then 1 else 0) + Attempts(trace[1..], id)
  }

  predicate Somewhere(st: State, id: RecId) { exists r | r in st.held :: id in st.held[r] }

  /** From any good state on: a claimed person is not claimed again, and one nobody holds is not tried again
      unless claimed first. */
  lemma {:induction false} ClaimsLeft(st: State, trace: seq<Action>, id: RecId)
    requires Inv(st) && CanRun(st, trace)
    ensures Claims(trace, id) <= if id in st.people && Claimed(st.people[id].status) then 0 else 1
    ensures Attempts(trace, id) <= Claims(trace, id) + if Somewhere(st, id) then 1 else 0
    decreases |trace|
  {
    hide Inv;
    if trace != [] {
      var next := Step(st, trace[0]);
      StepKeeps(st, trace[0]);
      StepForward(st, trace[0]);
      ClaimsLeft(next, trace[1..], id);
      HeldAfter(st, trace[0], id);
      ClaimTakes(st, trace[0], id);
    }
  }

  lemma ClaimTakes(st: State, a: Action, id: RecId)
    requires Enabled(st, a)
    ensures a.Claim? && id in a.batch ==>
              id in st.people && st.people[id].status == Waiting
              && id in Step(st, a).people && Claimed(Step(st, a).people[id].status)
  {
  }

  /** Who is held after a step: a claim takes people in hand, dealing with one lets go of them. */
  lemma HeldAfter(st: State, a: Action, id: RecId)
    requires Inv(st) && Enabled(st, a)
    ensures Somewhere(Step(st, a), id) ==> Somewhere(st, id) || (a.Claim? && id in a.batch)
    ensures (a.Outcome? || a.OutcomeLost?) && a.id == id ==> Somewhere(st, id) && !Somewhere(Step(st, a), id)
  {
    hide Open;
    var st' := Step(st, a);
    if Somewhere(st', id) {
      var r :| r in st'.held && id in st'.held[r];
      if r in st.held && id in st.held[r] { assert Somewhere(st, id); }
    }
    if (a.Outcome? || a.OutcomeLost?) && a.id == id {
      assert a.runner in st.held && id in st.held[a.runner];
    }
  }

  /** Each recipient is claimed at most once, and tried at most once, whatever the runners do. */
  lemma ClaimedAtMostOnce(st: State, trace: seq<Action>, id: RecId)
    requires Fresh(st) && CanRun(st, trace)
    ensures Claims(trace, id) <= 1 && Attempts(trace, id) <= Claims(trace, id)
  {
    ClaimsLeft(st, trace, id);
  }

  /** A recipient who was claimed never waits again, and one who is settled is never waiting or sending again. */
  lemma NeverBack(st: State, before: seq<Action>, after: seq<Action>, id: RecId)
    requires Fresh(st) && CanRun(st, before) && CanRun(Run(st, before), after) && id in Run(st, before).people
    ensures var mid := Run(st, before); var end := Run(mid, after);
            && id in end.people
            && (Claimed(mid.people[id].status) ==> end.people[id].status != Waiting)
            && (Settled(mid.people[id].status) ==> end.people[id].status != Waiting && end.people[id].status != Sending)
  {
    RunKeeps(st, before);
    RunKeeps(Run(st, before), after);
  }

  /** A cancelled announcement has no recipients, then or ever after. */
  lemma CancelledHasNobody(st: State, before: seq<Action>, after: seq<Action>, ann: AnnId)
    requires Fresh(st) && CanRun(st, before) && CanRun(Run(st, before), after)
    requires ann in Run(st, before).anns && Run(st, before).anns[ann].status == Cancelled
    ensures var end := Run(Run(st, before), after);
            && ann in end.anns && end.anns[ann].status == Cancelled
            && forall id | id in end.people :: id.0 != ann
  {
    RunKeeps(st, before);
    RunKeeps(Run(st, before), after);
  }

  /** An announcement marked sent has nobody waiting or sending, then or ever after. */
  lemma SentIsComplete(st: State, before: seq<Action>, after: seq<Action>, ann: AnnId)
    requires Fresh(st) && CanRun(st, before) && CanRun(Run(st, before), after)
    requires ann in Run(st, before).anns && Run(st, before).anns[ann].status == Done
    ensures var end := Run(Run(st, before), after);
            && ann in end.anns && end.anns[ann].status == Done
            && forall id | id in end.people && id.0 == ann :: Settled(end.people[id].status)
  {
    RunKeeps(st, before);
    RunKeeps(Run(st, before), after);
    var end := Run(Run(st, before), after);
    assert !Open(end.people, ann);
  }

  /** A late report never undoes a later one: of the reports that move a status, none lowers its rank. */
  lemma ReportsOnlyMoveForward(was: Status, report: Report)
    requires report == Arrived || report == WasRead || report == TappedGotIt
    ensures was != Failed ==> Rank(Reported(was, report)) >= Rank(was)
    ensures Reported(was, report) == was || Rank(Reported(was, report)) > Rank(was)
  {
  }

  // ---- when a status is taken back

  /** After a step a person's status stands lower in the order than before. */
  predicate Falls(st: State, a: Action, id: RecId)
    requires Enabled(st, a) && id in st.people
  {
    id in Step(st, a).people && Rank(Step(st, a).people[id].status) < Rank(st.people[id].status)
  }

  /** What can take a status back: the sender's own note when it comes after more was known, word that it could not be
      delivered, word that WhatsApp was closed after all, and the sweep. */
  predicate TakesBack(st: State, a: Action, id: RecId)
    requires id in st.people
  {
    var was := st.people[id].status;
    match a
    case Outcome(_, who, status) => who == id && Rank(status) < Rank(was)
    case Hear(who, NotDelivered) => who == id && was != Failed
    case Hear(who, WasClosed) => who == id && (was == Sent || was == Delivered)
    case Sweep => Stuck(st.people[id], st.now)
    case _ => false
  }

  /** In every state that can be reached, a step takes somebody's status back exactly when it is one of those. */
  lemma StatusFallsExactly(st: State, a: Action, id: RecId)
    requires Inv(st) && Enabled(st, a) && id in st.people
    ensures Falls(st, a, id) <==> TakesBack(st, a, id)
  {
    hide Open, HeldByOne;
    if a.Hear? && a.id == id { ReportRank(st.people[id].status, a.report); }
    hide Reported, Moved;
  }

  lemma ReportRank(was: Status, report: Report)
    ensures Rank(Reported(was, report)) < Rank(was)
            <==> (report == NotDelivered && was != Failed) || (report == WasClosed && (was == Sent || was == Delivered))
  {
  }

  const FIRST := State(0, map[], map[], map[])
  const READ_EARLY: seq<Action> := [Plan(1, 0), Action.Start(1, {7}), Claim(3, 1, {(1, 7)}), Hear((1, 7), WasRead)]

  /** The sender's own note does come after a report: planned, started, claimed, sent, read, and then noted as only
      sent. */
  lemma OutcomeMayLowerAReport()
    ensures Fresh(FIRST) && CanRun(FIRST, READ_EARLY) && Run(FIRST, READ_EARLY) == Sample(Underway, Read, {(1, 7)})
    ensures Enabled(Sample(Underway, Read, {(1, 7)}), Outcome(3, (1, 7), Sent))
    ensures Falls(Sample(Underway, Read, {(1, 7)}), Outcome(3, (1, 7), Sent), (1, 7))
  {
    hide Step, Enabled, Falls;
    SampleSteps();
    SampleFalls();
    RunNothing(FIRST);
    var a, b, c, d := Plan(1, 0), Action.Start(1, {7}), Claim(3, 1, {(1, 7)}), Hear((1, 7), WasRead);
    RunMore(FIRST, [], a);
    assert [] + [a] == [a];
    RunMore(FIRST, [a], b);
    assert [a] + [b] == [a, b];
    RunMore(FIRST, [a, b], c);
    assert [a, b] + [c] == [a, b, c];
    RunMore(FIRST, [a, b, c], d);
    assert [a, b, c] + [d] == READ_EARLY;
  }

  lemma SampleFalls()
    ensures Enabled(Sample(Underway, Read, {(1, 7)}), Outcome(3, (1, 7), Sent))
    ensures Falls(Sample(Underway, Read, {(1, 7)}), Outcome(3, (1, 7), Sent), (1, 7))
  {
    SampleHear();
    hide Step, Enabled;
  }

  function Sample(started: AnnStatus, status: Status, hand: set<RecId>): State {
    State(0, map[1 := Announcement(started, 0)], map[(1, 7) := Recipient(status, 0)], map[3 := hand])
  }

  lemma SampleSteps()
    ensures var planned := State(0, map[1 := Announcement(Planned, 0)], map[], map[]);
            var waiting := State(0, map[1 := Announcement(Underway, 0)], map[(1, 7) := Recipient(Waiting, 0)], map[]);
            var sending, read := Sample(Underway, Sending, {(1, 7)}), Sample(Underway, Read, {(1, 7)});
            && Enabled(State(0, map[], map[], map[]), Plan(1, 0))
            && Step(State(0, map[], map[], map[]), Plan(1, 0)) == planned
            && Enabled(planned, Action.Start(1, {7})) && Step(planned, Action.Start(1, {7})) == waiting
            && Enabled(waiting, Claim(3, 1, {(1, 7)})) && Step(waiting, Claim(3, 1, {(1, 7)})) == sending
            && Enabled(sending, Hear((1, 7), WasRead)) && Step(sending, Hear((1, 7), WasRead)) == read
            && Enabled(read, Outcome(3, (1, 7), Sent))
            && Step(read, Outcome(3, (1, 7), Sent)) == Sample(Underway, Sent, {})
  {
    SampleStart();
    SampleClaim();
    SampleHear();
  }

  lemma SampleStart()
    ensures var planned := State(0, map[1 := Announcement(Planned, 0)], map[], map[]);
            Enabled(planned, Action.Start(1, {7}))
            && Step(planned, Action.Start(1, {7}))
               == State(0, map[1 := Announcement(Underway, 0)], map[(1, 7) := Recipient(Waiting, 0)], map[])
  {
    assert (set u: UserId | u in {7} :: (1, u)) == {(1, 7)};
  }

  lemma SampleClaim()
    ensures var waiting := State(0, map[1 := Announcement(Underway, 0)], map[(1, 7) := Recipient(Waiting, 0)], map[]);
            && Enabled(waiting, Claim(3, 1, {(1, 7)}))
            && Step(waiting, Claim(3, 1, {(1, 7)})) == Sample(Underway, Sending, {(1, 7)})
  {
  }

  lemma SampleHear()
    ensures var sending, read := Sample(Underway, Sending, {(1, 7)}), Sample(Underway, Read, {(1, 7)});
            && Enabled(sending, Hear((1, 7), WasRead)) && Step(sending, Hear((1, 7), WasRead)) == read
            && Enabled(read, Outcome(3, (1, 7), Sent))
            && Step(read, Outcome(3, (1, 7), Sent)) == Sample(Underway, Sent, {})
  {
    hide Added, Swept, SetAll, Open;
    var read := Sample(Underway, Read, {(1, 7)});
    assert Held(read, 3) - {(1, 7)} == {};
    assert Set(read.people, (1, 7), Sent, 0) == map[(1, 7) := Recipient(Sent, 0)];
  }

  lemma {:induction false} RunMore(st: State, trace: seq<Action>, a: Action)
    requires CanRun(st, trace) && Enabled(Run(st, trace), a)
    ensures CanRun(st, trace + [a]) && Run(st, trace + [a]) == Step(Run(st, trace), a)
    decreases |trace|
  {
    hide Step, Enabled;
    var more := trace + [a];
    if trace == [] {
      assert more == [a] && more[1..] == [];
    } else {
      RunMore(Step(st, trace[0]), trace[1..], a);
      assert more[0] == trace[0] && more[1..] == trace[1..] + [a];
    }
  }

  // ---- the runner, statement by statement

  function FirstWaiting(people: map<RecId, Recipient>, ann: AnnId, names: seq<UserId>, limit: nat): seq<RecId> {
    if names == [] || limit == 0 then []
    else if (ann, names[0]) in people && people[(ann, names[0])].status == Waiting
    then [(ann, names[0])] + FirstWaiting(people, ann, names[1..], limit - 1)
    else FirstWaiting(people, ann, names[1..], limit)
  }

  predicate Distinct<T(==)>(s: seq<T>) { forall i, j :: 0 <= i < j < |s| ==> s[i] != s[j] }

  function Elems<T>(s: seq<T>): set<T> { set x | x in s }

  /** Nobody is taken before somebody who waits and comes earlier by name. */
  lemma {:induction false} EarlierNamesFirst(people: map<RecId, Recipient>, ann: AnnId, names: seq<UserId>, limit: nat,
                                             a: nat, b: nat)
    requires Distinct(names) && a < b < |names| && (ann, names[b]) in FirstWaiting(people, ann, names, limit)
    requires (ann, names[a]) in people && people[(ann, names[a])].status == Waiting
    ensures (ann, names[a]) in FirstWaiting(people, ann, names, limit)
    decreases |names|
  {
    var more := names[1..];
    var here := (ann, names[0]);
    assert more[b - 1] == names[b] && (a > 0 ==> more[a - 1] == names[a]);
    assert names[b] != names[0];
    if a > 0 {
      if here in people && people[here].status == Waiting {
        EarlierNamesFirst(people, ann, more, limit - 1, a - 1, b - 1);
      } else {
        EarlierNamesFirst(people, ann, more, limit, a - 1, b - 1);
      }
    }
  }

  /** u comes before v by name. */
  predicate Earlier(names: seq<UserId>, u: UserId, v: UserId) {
    forall a, b | 0 <= a < |names| && 0 <= b < |names| && names[a] == u && names[b] == v :: a < b
  }

  predicate InOrder(batch: seq<RecId>, names: seq<UserId>) {
    forall i, j | 0 <= i < j < |batch| :: Earlier(names, batch[i].1, batch[j].1)
  }

  /** And a batch is in the order of the names. */
  lemma {:induction false} BatchInOrder(people: map<RecId, Recipient>, ann: AnnId, names: seq<UserId>, limit: nat)
    requires Distinct(names)
    ensures InOrder(FirstWaiting(people, ann, names, limit), names)
    decreases |names|
  {
    if names != [] && limit > 0 {
      var more := names[1..];
      var here := (ann, names[0]);
      var taken := here in people && people[here].status == Waiting;
      var rest := FirstWaiting(people, ann, more, if taken then limit - 1 else limit);
      BatchInOrder(people, ann, more, if taken then limit - 1 else limit);
      FirstWaitingIs(people, ann, more, if taken then limit - 1 else limit);
      OrderOn(names, here, rest);
    }
  }

  lemma OrderOn(names: seq<UserId>, here: RecId, rest: seq<RecId>)
    requires names != [] && Distinct(names) && here.1 == names[0] && InOrder(rest, names[1..])
    requires forall id | id in rest :: id.1 in names[1..]
    ensures InOrder([here] + rest, names) && InOrder(rest, names)
  {
    hide Earlier, Distinct;
    var all := [here] + rest;
    forall i, j | 0 <= i < j < |rest| ensures Earlier(names, rest[i].1, rest[j].1) {
      assert rest[i] in rest && rest[j] in rest;
      EarlierOn(names, rest[i].1, rest[j].1);
    }
    forall i, j | 0 <= i < j < |all| ensures Earlier(names, all[i].1, all[j].1) {
      assert all[j] == rest[j - 1] && rest[j - 1] in rest;
      if i == 0 { FirstIsEarlier(names, all[j].1); } else { assert all[i] == rest[i - 1]; }
    }
  }

  lemma FirstIsEarlier(names: seq<UserId>, v: UserId)
    requires names != [] && Distinct(names) && v in names[1..]
    ensures Earlier(names, names[0], v)
  {
    var k :| 0 <= k < |names[1..]| && names[1..][k] == v;
    assert names[k + 1] == v;
  }

  lemma EarlierOn(names: seq<UserId>, u: UserId, v: UserId)
    requires names != [] && Distinct(names) && u in names[1..] && v in names[1..] && Earlier(names[1..], u, v)
    ensures Earlier(names, u, v)
  {
    var more := names[1..];
    var i :| 0 <= i < |more| && more[i] == u;
    var j :| 0 <= j < |more| && more[j] == v;
    assert names[i + 1] == u && names[j + 1] == v;
  }

  lemma {:induction false} FirstWaitingIs(people: map<RecId, Recipient>, ann: AnnId, names: seq<UserId>, limit: nat)
    requires Distinct(names)
    ensures var batch := FirstWaiting(people, ann, names, limit);
            && Distinct(batch) && |batch| <= limit
            && (forall id | id in batch ::
                  id in people && id.0 == ann && id.1 in names && people[id].status == Waiting)
            && (|batch| < limit ==> forall u | u in names && (ann, u) in people ::
                  people[(ann, u)].status == Waiting ==> (ann, u) in batch)
  {
    if names != [] && limit > 0 {
      var here := (ann, names[0]);
      assert names == [names[0]] + names[1..];
      if here in people && people[here].status == Waiting {
        FirstWaitingIs(people, ann, names[1..], limit - 1);
      } else {
        FirstWaitingIs(people, ann, names[1..], limit);
      }
    }
  }

  lemma {:induction false} DistinctSize<T>(s: seq<T>)
    requires Distinct(s)
    ensures |Elems(s)| == |s|
  {
    if s != [] {
      DistinctSize(s[1..]);
      assert Elems(s) == {s[0]} + Elems(s[1..]);
    } else {
      assert Elems(s) == {};
    }
  }

  /** What one send comes to. Lost: neither the send nor the note of its failure got through. */
  datatype Fate = GoesOut | GoesByEmail | IsKept | Fails | Lost

  function AfterFate(f: Fate): Status {
    match f
    case GoesOut => Sent
    case GoesByEmail => Emailed
    case IsKept => Kept
    case Fails => Failed
    case Lost => Sending
  }

  /** What is noted of a send: sent or emailed when it went out, kept when it waits for the person, failed when it did
      not, and nothing new when even that could not be noted. */
  predicate Notes(f: Fate, s: Status) {
    && (s == Sent <==> f == GoesOut) && (s == Emailed <==> f == GoesByEmail) && (s == Kept <==> f == IsKept)
    && (s == Failed <==> f == Fails) && (s == Sending <==> f == Lost)
  }

  lemma WorkedNotes(people: map<RecId, Recipient>, done: set<RecId>, fate: UserId -> Fate, now: int)
    ensures var after := Worked(people, done, fate, now);
            forall id | id in done && id in people :: Notes(fate(id.1), after[id].status)
  {
  }

  function FateStep(runner: RunnerId, id: RecId, f: Fate): Action {
    if f.Lost? then OutcomeLost(runner, id) else Outcome(runner, id, AfterFate(f))
  }

  /** The rows after the people in `done` were claimed and met their fates. */
  function Worked(people: map<RecId, Recipient>, done: set<RecId>, fate: UserId -> Fate,
      now: int): map<RecId, Recipient> {
    map id | id in people :: if id in done then Recipient(AfterFate(fate(id.1)), now) else people[id]
  }

  lemma AddedOne(people: map<RecId, Recipient>, ann: AnnId, users: set<UserId>, u: UserId, now: int)
    ensures var was := Added(people, ann, users, now);
            Added(people, ann, users + {u}, now)
            == if (ann, u) in was then was else was[(ann, u) := Recipient(Waiting, now)]
  {
  }

  lemma WorkedMore(people: map<RecId, Recipient>, done: set<RecId>, more: set<RecId>, fate: UserId -> Fate, now: int)
    ensures Worked(SetAll(Worked(people, done, fate, now), more, Sending, now), more, fate, now)
            == Worked(people, done + more, fate, now)
  {
  }

  lemma WorkedOne(people: map<RecId, Recipient>, done: set<RecId>, id: RecId, fate: UserId -> Fate, now: int)
    requires id in people && people[id] == Recipient(Sending, now) && id !in done
    ensures var was := Worked(people, done, fate, now);
            Worked(people, done + {id}, fate, now)
            == if fate(id.1).Lost? then was else Set(was, id, AfterFate(fate(id.1)), now)
  {
  }

  /** Everyone an announcement has a row for is in the list of names. */
  predicate Listed(people: map<RecId, Recipient>, ann: AnnId, names: seq<UserId>) {
    forall id | id in people && id.0 == ann :: id.1 in names
  }

  predicate NoneWaits(people: map<RecId, Recipient>, ann: AnnId) {
    forall id | id in people && id.0 == ann :: people[id].status != Waiting
  }

  /** The people who were waiting and no longer are. */
  function Reached(before: map<RecId, Recipient>, after: map<RecId, Recipient>): set<RecId> {
    set id | id in before && before[id].status == Waiting && id in after && after[id].status != Waiting
  }

  class Tables {
    var now: int
    var anns: map<AnnId, Announcement>
    var people: map<RecId, Recipient>
    ghost var held: map<RunnerId, set<RecId>>

    ghost function Whole(): State
      reads this
    {
      State(now, anns, people, held)
    }

    method Start(ann: AnnId, audience: seq<UserId>) returns (started: bool)
      modifies this
      ensures started == (ann in old(anns) && Due(old(anns)[ann], old(now)))
      ensures Whole() == Step(old(Whole()), Action.Start(ann, Elems(audience)))
    {
      if ann !in anns || !Due(anns[ann], now) { return false; }
      for i := 0 to |audience|
        invariant anns == old(anns) && now == old(now) && held == old(held)
        invariant people == Added(old(people), ann, Elems(audience[..i]), now)
      {
        assert audience[..i + 1] == audience[..i] + [audience[i]];
        assert Elems(audience[..i + 1]) == Elems(audience[..i]) + {audience[i]};
        AddedOne(old(people), ann, Elems(audience[..i]), audience[i], now);
        if (ann, audience[i]) !in people {
          people := people[(ann, audience[i]) := Recipient(Waiting, now)];
        }
      }
      assert audience[..|audience|] == audience;
      anns := anns[ann := anns[ann].(status := Underway)];
      return true;
    }

    method ClaimBatch(runner: RunnerId, ann: AnnId, names: seq<UserId>) returns (batch: seq<RecId>)
      requires Distinct(names)
      modifies this
      ensures batch == FirstWaiting(old(people), ann, names, BATCH) && Distinct(batch)
      ensures MayClaim(old(people), ann, Elems(batch))
      ensures Whole() == Step(old(Whole()), Claim(runner, ann, Elems(batch)))
    {
      batch := FirstWaiting(people, ann, names, BATCH);
      FirstWaitingIs(people, ann, names, BATCH);
      DistinctSize(batch);
      people := SetAll(people, Elems(batch), Sending, now);
      held := held[runner := Held(old(Whole()), runner) + Elems(batch)];
    }

    method SendOne(runner: RunnerId, id: RecId, fate: Fate)
      requires id in Held(Whole(), runner)
      modifies this
      ensures Whole() == Step(old(Whole()), FateStep(runner, id, fate))
    {
      if !fate.Lost? { people := Set(people, id, AfterFate(fate), now); }
      held := held[runner := Held(old(Whole()), runner) - {id}];
    }

    method FinishIfDone(ann: AnnId)
      modifies this
      ensures Whole() == Step(old(Whole()), Finish(ann))
    {
      if ann in anns && anns[ann].status == Underway && !Open(people, ann) {
        anns := anns[ann := anns[ann].(status := Done)];
      }
    }

    /** Send to everyone of a claimed batch. */
    method SendAll(runner: RunnerId, batch: seq<RecId>, fate: UserId -> Fate) returns (ghost trace: seq<Action>)
      requires Distinct(batch) && Elems(batch) <= Held(Whole(), runner)
      requires forall id | id in batch :: id in people && people[id] == Recipient(Sending, now)
      modifies this
      ensures CanRun(old(Whole()), trace) && Whole() == Run(old(Whole()), trace)
      ensures now == old(now) && anns == old(anns)
      ensures people == Worked(old(people), Elems(batch), fate, now)
    {
      hide Run, CanRun, Worked;
      ghost var first := Whole();
      trace := [];
      RunNothing(first);
      NoneWorked(people, fate, now);
      assert Elems(batch[..0]) == {};
      for k := 0 to |batch|
        invariant CanRun(first, trace) && Whole() == Run(first, trace)
        invariant now == old(now) && anns == old(anns)
        invariant forall j | k <= j < |batch| :: batch[j] in Held(Whole(), runner)
        invariant people == Worked(old(people), Elems(batch[..k]), fate, now)
      {
        ghost var id, done := batch[k], Elems(batch[..k]);
        ElemsMore(batch, k);
        WorkedOne(old(people), done, id, fate, now);
        SendOne(runner, batch[k], fate(batch[k].1));
        RunMore(first, trace, FateStep(runner, batch[k], fate(batch[k].1)));
        trace := trace + [FateStep(runner, batch[k], fate(batch[k].1))];
      }
      assert batch[..|batch|] == batch;
    }

    /** One go at an announcement: start it when due, then claim and send at most `turns` batches, then mark it
        sent if nobody is left. Everything it does is a run of the steps above. */
    method RunOne(runner: RunnerId, ann: AnnId, audience: seq<UserId>, names: seq<UserId>, fate: UserId -> Fate,
        turns: nat)
      returns (tried: nat, ghost trace: seq<Action>)
      requires Distinct(names) && forall u | u in audience :: u in names
      requires Listed(people, ann, names)
      modifies this
      ensures CanRun(old(Whole()), trace) && Whole() == Run(old(Whole()), trace)
      ensures now == old(now)
      ensures var was := Step(old(Whole()), Action.Start(ann, Elems(audience)));
              if ann !in was.anns || was.anns[ann].status != Underway then Whole() == was && tried == 0
              else
                && tried == |Reached(was.people, people)| <= turns * BATCH
                && people == Worked(was.people, Reached(was.people, people), fate, now)
                && (forall id | id in Reached(was.people, people) :: id.0 == ann)
                && (tried < turns * BATCH ==> NoneWaits(people, ann))
                && anns == was.anns[ann :=
                     Announcement(if Open(people, ann) then Underway else Done, was.anns[ann].sendAt)]
    {
      hide Run, CanRun, Worked, Reached, Distinct, NoneWaits, Added, Due, Listed;
      ghost var first := Whole();
      RunNothing(first);
      var _ := Start(ann, audience);
      ghost var was := Whole();
      RunMore(first, [], Action.Start(ann, Elems(audience)));
      assert [] + [Action.Start(ann, Elems(audience))] == [Action.Start(ann, Elems(audience))];
      StartLists(first, ann, audience, names);
      trace := [Action.Start(ann, Elems(audience))];
      tried := 0;
      if ann !in anns || anns[ann].status != Underway { return; }
      ghost var more;
      tried, more := SendWaiting(runner, ann, names, fate, turns);
      RunJoin(first, trace, more);
      trace := trace + more;
      FinishIfDone(ann);
      RunMore(first, trace, Finish(ann));
      trace := trace + [Finish(ann)];
    }

    /** Claim and send, a batch at a time, until nobody waits or the turns are up. */
    method SendWaiting(runner: RunnerId, ann: AnnId, names: seq<UserId>, fate: UserId -> Fate, turns: nat)
      returns (tried: nat, ghost trace: seq<Action>)
      requires Distinct(names)
      requires Listed(people, ann, names)
      modifies this
      ensures CanRun(old(Whole()), trace) && Whole() == Run(old(Whole()), trace)
      ensures now == old(now) && anns == old(anns)
      ensures tried == |Reached(old(people), people)| <= turns * BATCH
      ensures people == Worked(old(people), Reached(old(people), people), fate, now)
      ensures forall id | id in Reached(old(people), people) :: id.0 == ann
      ensures forall id | id in Reached(old(people), people) && id in old(people) && id in people ::
                Notes(fate(id.1), people[id].status)
      ensures tried < turns * BATCH ==> NoneWaits(people, ann)
    {
      hide Run, CanRun, Worked, Notes, Reached, Step, Distinct, NoneWaits, Listed, WaitedFor;
      ghost var first := Whole();
      ghost var done: set<RecId> := {};
      trace := [];
      RunNothing(first);
      NoneWorked(people, fate, now);
      tried := 0;
      var turn := 0;
      NobodyYet(people, ann);
      while turn < turns
        invariant turn <= turns
        invariant CanRun(first, trace) && Whole() == Run(first, trace)
        invariant now == first.now && anns == first.anns
        invariant WaitedFor(first.people, ann, done)
        invariant people == Worked(first.people, done, fate, now)
        invariant tried == |done| <= turn * BATCH
        invariant tried < turn * BATCH ==> NoneWaits(people, ann)
      {
        ghost var before := people;
        var batch := ClaimBatch(runner, ann, names);
        ghost var a := Claim(runner, ann, Elems(batch));
        ClaimWhole(Run(first, trace), runner, ann, Elems(batch));
        RunMore(first, trace, a);
        trace := trace + [a];
        BatchOf(first.people, done, fate, now, ann, names, batch);
        BatchMarked(before, batch, now);
        if batch == [] { break; }
        assert people == SetAll(before, Elems(batch), Sending, now);
        ghost var more := SendAll(runner, batch, fate);
        RunJoin(first, trace, more);
        trace := trace + more;
        WorkedMore(first.people, done, Elems(batch), fate, now);
        done := done + Elems(batch);
        tried := tried + |batch|;
        turn := turn + 1;
      }
      ReachedIs(first.people, ann, done, fate, now);
      WorkedNotes(first.people, done, fate, now);
    }
  }

  /** The people in `done` waited for this announcement. */
  predicate WaitedFor(people: map<RecId, Recipient>, ann: AnnId, done: set<RecId>) {
    forall id | id in done :: id in people && id.0 == ann && people[id].status == Waiting
  }

  lemma StartLists(st: State, ann: AnnId, audience: seq<UserId>, names: seq<UserId>)
    requires Listed(st.people, ann, names) && forall u | u in audience :: u in names
    ensures Listed(Step(st, Action.Start(ann, Elems(audience))).people, ann, names)
  {
  }

  lemma RunNothing(st: State)
    ensures CanRun(st, []) && Run(st, []) == st
  {
  }

  lemma NoneWorked(people: map<RecId, Recipient>, fate: UserId -> Fate, now: int)
    ensures Worked(people, {}, fate, now) == people
  {
  }

  lemma ElemsMore<T>(s: seq<T>, k: nat)
    requires k < |s|
    ensures Elems(s[..k + 1]) == Elems(s[..k]) + {s[k]}
    ensures Distinct(s) ==> s[k] !in Elems(s[..k])
  {
    assert s[..k + 1] == s[..k] + [s[k]];
  }

  lemma ClaimWhole(st: State, runner: RunnerId, ann: AnnId, batch: set<RecId>)
    requires MayClaim(st.people, ann, batch)
    ensures Enabled(st, Claim(runner, ann, batch))
    ensures var st' := Step(st, Claim(runner, ann, batch));
            && st'.now == st.now && st'.anns == st.anns && st'.people == SetAll(st.people, batch, Sending, st.now)
            && batch <= Held(st', runner)
  {
  }

  lemma NobodyYet(people: map<RecId, Recipient>, ann: AnnId)
    ensures WaitedFor(people, ann, {})
  {
  }

  lemma ReachedIs(people: map<RecId, Recipient>, ann: AnnId, done: set<RecId>, fate: UserId -> Fate, now: int)
    requires WaitedFor(people, ann, done)
    ensures Reached(people, Worked(people, done, fate, now)) == done
    ensures forall id | id in done :: id.0 == ann
  {
  }

  /** What the next batch holds: people who waited and are not done yet, and all of them if it is not full. */
  lemma BatchOf(people: map<RecId, Recipient>, done: set<RecId>, fate: UserId -> Fate, now: int,
                ann: AnnId, names: seq<UserId>, batch: seq<RecId>)
    requires Distinct(names) && Listed(people, ann, names) && WaitedFor(people, ann, done)
    requires batch == FirstWaiting(Worked(people, done, fate, now), ann, names, BATCH)
    ensures Distinct(batch) && |batch| == |Elems(batch)| <= BATCH
    ensures done !! Elems(batch) && |done + Elems(batch)| == |done| + |batch|
    ensures WaitedFor(people, ann, done + Elems(batch))
    ensures batch == [] ==> done + Elems(batch) == done
    ensures NoneWaits(Worked(people, done, fate, now), ann) ==> batch == []
    ensures |batch| < BATCH ==> NoneWaits(Worked(people, done + Elems(batch), fate, now), ann)
  {
    var was := Worked(people, done, fate, now);
    FirstWaitingIs(was, ann, names, BATCH);
    DistinctSize(batch);
    if batch != [] { assert batch[0] in Elems(batch); }
    hide Distinct, FirstWaiting, NoneWaits, Listed, WaitedFor;
    BatchIs(people, done, fate, now, ann, names, Elems(batch));
  }

  lemma BatchIs(people: map<RecId, Recipient>, done: set<RecId>, fate: UserId -> Fate, now: int,
                ann: AnnId, names: seq<UserId>, batch: set<RecId>)
    requires Listed(people, ann, names) && WaitedFor(people, ann, done)
    requires forall id | id in batch ::
               id in people && id.0 == ann && Worked(people, done, fate, now)[id].status == Waiting
    ensures done !! batch && WaitedFor(people, ann, done + batch)
    ensures batch != {} ==> !NoneWaits(Worked(people, done, fate, now), ann)
    ensures (forall u | u in names && (ann, u) in people ::
               Worked(people, done, fate, now)[(ann, u)].status == Waiting ==> (ann, u) in batch)
            ==> NoneWaits(Worked(people, done + batch, fate, now), ann)
  {
    if batch != {} { var id :| id in batch; }
    if forall u | u in names && (ann, u) in people ::
         Worked(people, done, fate, now)[(ann, u)].status == Waiting ==> (ann, u) in batch
    {
      forall id | id in people && id.0 == ann && id !in done + batch ensures people[id].status != Waiting {
        assert id.1 in names && id == (ann, id.1);
        assert Worked(people, done, fate, now)[(ann, id.1)] == people[id];
      }
    }
  }

  lemma BatchMarked(people: map<RecId, Recipient>, batch: seq<RecId>, now: int)
    requires forall id | id in batch :: id in people
    ensures var after := SetAll(people, Elems(batch), Sending, now);
            && (forall id | id in batch :: id in after && after[id] == Recipient(Sending, now))
            && (batch == [] ==> after == people)
  {
  }

  lemma {:induction false} RunJoin(st: State, trace: seq<Action>, more: seq<Action>)
    requires CanRun(st, trace) && CanRun(Run(st, trace), more)
    ensures CanRun(st, trace + more) && Run(st, trace + more) == Run(Run(st, trace), more)
    decreases |trace|
  {
    hide Step, Enabled;
    if trace == [] {
      assert trace + more == more;
    } else {
      RunJoin(Step(st, trace[0]), trace[1..], more);
      assert (trace + more)[0] == trace[0] && (trace + more)[1..] == trace[1..] + more;
    }
  }

  /** What hearing of a message does, status by status: delivered and read and a tap each only to somebody not yet so
      far, a closed chat only to somebody sent or delivered, a late delivery only to somebody kept. */
  lemma ReportsExactly(was: Status)
    ensures Reported(was, Arrived) == if was in {Delivered, Read, GotIt} then was else Delivered
    ensures Reported(was, WasRead) == if was in {Read, GotIt} then was else Read
    ensures Reported(was, TappedGotIt) == GotIt
    ensures Reported(was, WasClosed) == if was in {Sent, Delivered} then Kept else was
    ensures Reported(was, NotDelivered) == Failed
    ensures Reported(was, LateDelivery) == if was == Kept then Sent else was
    ensures Rank(Waiting) < Rank(Sending) < Rank(Kept) < Rank(Sent) < Rank(Emailed) < Rank(Delivered) < Rank(Read)
    ensures Rank(Read) < Rank(GotIt) && Rank(Failed) < Rank(Waiting)
  {
  }

  /** A sweep fails exactly those who have been sending for more than ten minutes, and changes nobody else. */
  lemma SweepExactly(st: State, id: RecId)
    requires id in st.people
    ensures var next := Step(st, Sweep).people;
            id in next && (if st.people[id].status == Sending && st.now - st.people[id].updated > 600
                           then next[id].status == Failed else next[id] == st.people[id])
  {
  }

  // ---- not before its time

  predicate Started(a: Announcement) { a.status == Underway || a.status == Done }

  /** An announcement that has started is not to be sent later. */
  ghost predicate OnTime(st: State) {
    forall ann | ann in st.anns && Started(st.anns[ann]) :: st.anns[ann].sendAt <= st.now
  }

  lemma StepOnTime(st: State, a: Action)
    requires OnTime(st) && Enabled(st, a)
    ensures OnTime(Step(st, a))
  {
    hide Open, Swept, Added, Reported, SetAll, Set, MayClaim, Held;
  }

  lemma {:induction false} RunOnTime(st: State, trace: seq<Action>)
    requires OnTime(st) && CanRun(st, trace)
    ensures OnTime(Run(st, trace))
    decreases |trace|
  {
    hide OnTime, Step, Enabled;
    if trace != [] {
      StepOnTime(st, trace[0]);
      RunOnTime(Step(st, trace[0]), trace[1..]);
    }
  }

  lemma InvStarted(st: State, id: RecId)
    requires Inv(st) && OnTime(st) && id in st.people
    ensures id.0 in st.anns && st.anns[id.0].sendAt <= st.now
  {
    hide HeldAreClaimed, HeldByOne, Open;
    var ann := id.0;
    assert Started(st.anns[ann]);
  }

  /** Nobody is a recipient before the time the announcement is for. */
  lemma NobodyBeforeTime(st: State, trace: seq<Action>)
    requires Fresh(st) && CanRun(st, trace)
    ensures var end := Run(st, trace);
            forall id | id in end.people :: id.0 in end.anns && end.anns[id.0].sendAt <= end.now
  {
    hide Step, Enabled, Run;
    RunKeeps(st, trace);
    RunOnTime(st, trace);
    var end := Run(st, trace);
    forall id | id in end.people ensures id.0 in end.anns && end.anns[id.0].sendAt <= end.now {
      InvStarted(end, id);
    }
  }

  /** Starting takes effect exactly when the announcement is planned and its time has come, and then for everyone. */
  lemma StartsExactlyWhenDue(st: State, ann: AnnId, users: set<UserId>)
    requires ann in st.anns && st.anns[ann].status == Planned
    ensures var next := Step(st, Action.Start(ann, users));
            && (next.anns[ann].status == Underway <==> st.anns[ann].sendAt <= st.now)
            && (st.anns[ann].sendAt <= st.now ==> forall u | u in users :: (ann, u) in next.people)
            && (st.anns[ann].sendAt > st.now ==> next == st)
  {
    forall u | u in users ensures (ann, u) in (set v | v in users :: (ann, v)) {}
  }

  /** Sending now makes a planned announcement due at once, and does nothing to any other. */
  lemma SendNowIsDue(st: State, ann: AnnId)
    requires ann in st.anns
    ensures var next := Step(st, SendNow(ann));
            if st.anns[ann].status == Planned
            then next.anns[ann].status == Planned && next.anns[ann].sendAt <= next.now else next == st
  {
  }
}
