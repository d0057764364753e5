// Approval chains of app/executor/workflow_executor.py: a request climbs its queue of levels, one decision at a
// time, and its action runs when the last level has approved; in answer mode the first answer decides.
module Approvals {

  type UserId = string
  type RowId = nat
  type RequestId = nat

  datatype User = User(id: UserId, role: string, mayApprove: bool)

  /** What a request carries through all its levels: who asked, the roles to ask in turn, and whether there is an
      action to run. */
  datatype Request = Request(requester: UserId, queue: seq<string>, hasAction: bool)

  datatype Status = Pending | Approved | Rejected

  /** A row of pending_approvals. */
  datatype Row = Row(request: RequestId, index: nat, role: string, status: Status)

  datatype Decision = Decision(request: RequestId, index: nat, who: UserId, approved: bool)

  datatype State = State(
    requests: seq<Request>, rows: seq<Row>, decisions: seq<Decision>, runs: seq<RequestId>)

  /** What was tapped. Only the first two are ever passed on by the webhook. */
  datatype Action = Approve | Reject | Other

  datatype Reply = NotFound | NotAllowed | OwnRequest | Turned | Escalated | NothingToRun | Ran

  datatype Outcome = Outcome(state: State, reply: Reply)

  /** A request that needs approval: its first level's row. */
  function Ask(st: State, r: Request, role: string): State {
    st.(requests := st.requests + [r], rows := st.rows + [Row(|st.requests|, 0, role, Pending)])
  }

  predicate Allowed(u: User, row: Row) { u.role == row.role || u.mayApprove }

  function RoleName(role: string): string { if role == "" then "approver" else role }

  /** One tap, handled whole. */
  function Tap(st: State, at: RowId, action: Action, u: User): Outcome
    requires at < |st.rows| ==> st.rows[at].request < |st.requests|
  {
    if at >= |st.rows| || st.rows[at].status != Pending then Outcome(st, NotFound)
    else
      var row := st.rows[at];
      var r := st.requests[row.request];
      if !Allowed(u, row) then Outcome(st, NotAllowed)
      else if r.requester == u.id then Outcome(st, OwnRequest)
      else
        var yes := action == Approve;
        var decided := st.(rows := st.rows[at := row.(status := if yes then Approved else Rejected)],
                           decisions := st.decisions + [Decision(row.request, row.index, u.id, yes)]);
        if action == Reject then Outcome(decided, Turned)
        else if row.index + 1 < |r.queue| then
          Outcome(decided.(rows := decided.rows
              + [Row(row.request, row.index + 1, RoleName(r.queue[row.index + 1]), Pending)]),
                  Escalated)
        else if !r.hasAction then Outcome(decided, NothingToRun)
        else Outcome(decided.(runs := decided.runs + [row.request]), Ran)
  }

  class Desk {
    var requests: seq<Request>
    var rows: seq<Row>
    var decisions: seq<Decision>
    var runs: seq<RequestId>

    function Whole(): State
      reads this
    {
      State(requests, rows, decisions, runs)
    }

    method HandleTap(at: RowId, action: Action, u: User) returns (reply: Reply)
      requires at < |rows| ==> rows[at].request < |requests|
      modifies this
      ensures Outcome(Whole(), reply) == Tap(old(Whole()), at, action, u)
    {
      if at >= |rows| || rows[at].status != Pending { return NotFound; }
      var row := rows[at];
      var r := requests[row.request];
      if u.role != row.role && !u.mayApprove { return NotAllowed; }
      if r.requester == u.id { return OwnRequest; }
      var status := if action == Approve then Approved else Rejected;
      rows := rows[at := row.(status := status)];
      decisions := decisions + [Decision(row.request, row.index, u.id, action == Approve)];
      if action == Reject { return Turned; }
      var next := row.index + 1;
      if next < |r.queue| {
        rows := rows + [Row(row.request, next, RoleName(r.queue[next]), Pending)];
        return Escalated;
      }
      if !r.hasAction { return NothingToRun; }
      runs := runs + [row.request];
      return Ran;
    }
  }

  // ---- runs of steps

  datatype Step = Asked(request: Request, role: string) | Tapped(at: RowId, action: Action, user: User)

  /** A request is only made with somebody to ask, and the webhook passes on no other taps. */
  predicate Fits(s: Step) {
    match s case Asked(r, _) => r.queue != [] case Tapped(_, action, _) => action != Other
  }

  predicate Rooted(st: State) { forall i | 0 <= i < |st.rows| :: st.rows[i].request < |st.requests| }

  function Next(st: State, s: Step): State
    requires Rooted(st)
  {
    match s case Asked(r, role) => Ask(st, r, role) case Tapped(at, action, u) => Tap(st, at, action, u).state
  }

  lemma NextRooted(st: State, s: Step)
    requires Rooted(st)
    ensures Rooted(Next(st, s))
  {
  }

  function Run(st: State, steps: seq<Step>): State
    requires Rooted(st)
    decreases |steps|
  {
    if steps == [] then st
    else
      NextRooted(st, steps[0]);
      Run(Next(st, steps[0]), steps[1..])
  }

  // ---- one request

  /** The decisions on a request, in the order they were taken. */
  function Of(decisions: seq<Decision>, id: RequestId): seq<Decision> {
    if decisions == [] then []
    else Of(decisions[..|decisions| - 1], id)
         + if decisions[|decisions| - 1].request == id then [decisions[|decisions| - 1]] else []
  }

  function RunsOf(runs: seq<RequestId>, id: RequestId): nat {
    if runs == [] then 0 else RunsOf(runs[..|runs| - 1], id) + if runs[|runs| - 1] == id then 1 else 0
  }

  predicate Stopped(ds: seq<Decision>) { ds != [] && !ds[|ds| - 1].approved }

  /** The decisions are on the levels in order, by others than the requester; all but the last approve. */
  predicate Climbed(r: Request, ds: seq<Decision>) {
    && |ds| <= |r.queue|
    && (forall k | 0 <= k < |ds| :: ds[k].index == k && ds[k].who != r.requester)
    && (forall k | 0 <= k < |ds| - 1 :: ds[k].approved)
  }

  /** Whether every level of a request has approved. */
  predicate Cleared(r: Request, ds: seq<Decision>) { |ds| == |r.queue| && !Stopped(ds) }

  /** A row waits for the next decision while the request is neither turned down nor cleared, and only one does. */
  ghost predicate WaitsFor(st: State, id: RequestId, ds: seq<Decision>)
    requires id < |st.requests|
  {
    && (forall i | 0 <= i < |st.rows| && st.rows[i].request == id && st.rows[i].status == Pending ::
          st.rows[i].index == |ds| < |st.requests[id].queue| && !Stopped(ds))
    && (forall i, j | 0 <= i < |st.rows| && 0 <= j < |st.rows| && st.rows[i].request == st.rows[j].request == id
                      && st.rows[i].status == st.rows[j].status == Pending :: i == j)
  }

  ghost predicate Good(st: State, id: RequestId)
    requires id < |st.requests|
  {
    var r, ds := st.requests[id], Of(st.decisions, id);
    && r.queue != [] && Climbed(r, ds) && WaitsFor(st, id, ds)
    && RunsOf(st.runs, id) == if Cleared(r, ds) && r.hasAction then 1 else 0
  }

  /** No row, decision or run of a request that was not made. */
  predicate NothingOf(st: State, id: RequestId) {
    && (forall i | 0 <= i < |st.rows| :: st.rows[i].request != id)
    && Of(st.decisions, id) == [] && RunsOf(st.runs, id) == 0
  }

  ghost predicate AllGood(st: State) {
    && Rooted(st)
    && (forall id | 0 <= id < |st.requests| :: Good(st, id))
    && (forall id: nat | id >= |st.requests| :: NothingOf(st, id))
  }

  lemma AskKeeps(st: State, r: Request, role: string)
    requires AllGood(st) && r.queue != []
    ensures AllGood(Ask(st, r, role))
  {
    var next := Ask(st, r, role);
    forall id | 0 <= id < |next.requests| ensures Good(next, id) {
      if id < |st.requests| { assert Good(st, id); } else { assert NothingOf(st, id); }
    }
    forall id: nat | id >= |next.requests| ensures NothingOf(next, id) { assert NothingOf(st, id); }
  }

  /** What one tap that decides does to the row, the decisions and the runs of its request. */
  lemma DecidesKeeps(st: State, at: RowId, action: Action, u: User)
    requires AllGood(st) && action != Other && at < |st.rows|
    requires Tap(st, at, action, u).reply in {Turned, Escalated, NothingToRun, Ran}
    ensures Good(Tap(st, at, action, u).state, st.rows[at].request)
  {
    var row := st.rows[at];
    var id := row.request;
    var next := Tap(st, at, action, u).state;
    assert Good(st, id);
    var r, ds := st.requests[id], Of(st.decisions, id);
    var d := Decision(id, row.index, u.id, action == Approve);
    assert next.decisions[..|st.decisions|] == st.decisions;
    assert Of(next.decisions, id) == ds + [d];
    assert next.runs == st.runs || next.runs[..|st.runs|] == st.runs;
    assert Climbed(r, ds + [d]);
    assert next.rows[at].status != Pending;
    hide Of, RunsOf;
    WaitsNext(st, next, at, id, ds, d);
  }

  lemma WaitsNext(st: State, next: State, at: RowId, id: RequestId, ds: seq<Decision>, d: Decision)
    requires id < |st.requests| && next.requests == st.requests && WaitsFor(st, id, ds)
    requires at < |st.rows| && st.rows[at].request == id && st.rows[at].status == Pending && st.rows[at].index == |ds|
    requires |st.rows| <= |next.rows| && next.rows[at].status != Pending
    requires forall i | 0 <= i < |st.rows| && i != at :: next.rows[i] == st.rows[i]
    requires if d.approved && |ds| + 1 < |st.requests[id].queue|
             then |next.rows| == |st.rows| + 1 && next.rows[|st.rows|].index == |ds| + 1
             else |next.rows| == |st.rows|
    ensures WaitsFor(next, id, ds + [d])
  {
  }

  lemma OthersSame(st: State, at: RowId, action: Action, u: User, id: RequestId)
    requires Rooted(st) && at < |st.rows| && id != st.rows[at].request
    ensures var next := Tap(st, at, action, u).state;
            && next.requests == st.requests && |st.rows| <= |next.rows|
            && (forall i | 0 <= i < |next.rows| && next.rows[i].request == id ::
                i < |st.rows| && next.rows[i] == st.rows[i])
            && Of(next.decisions, id) == Of(st.decisions, id) && RunsOf(next.runs, id) == RunsOf(st.runs, id)
  {
    hide Of, RunsOf;
    var row := st.rows[at];
    OfMore(st.decisions, Decision(row.request, row.index, u.id, action == Approve), id);
    RunsMore(st.runs, row.request, id);
  }

  lemma OthersKeep(st: State, at: RowId, action: Action, u: User, id: RequestId)
    requires AllGood(st) && at < |st.rows| && id != st.rows[at].request
    ensures var next := Tap(st, at, action, u).state;
            && |next.requests| == |st.requests|
            && (id < |st.requests| ==> Good(next, id))
            && (id >= |st.requests| ==> NothingOf(next, id))
  {
    hide Of, RunsOf, Climbed, Cleared, Tap;
    var next := Tap(st, at, action, u).state;
    OthersSame(st, at, action, u, id);
    if id < |st.requests| {
      assert Good(st, id);
      WaitsSame(st, next, id, Of(st.decisions, id));
    } else {
      assert NothingOf(st, id);
    }
  }

  lemma WaitsSame(st: State, next: State, id: RequestId, ds: seq<Decision>)
    requires id < |st.requests| && next.requests == st.requests && WaitsFor(st, id, ds)
    requires |st.rows| <= |next.rows|
    requires forall i | 0 <= i < |next.rows| && next.rows[i].request == id ::
             i < |st.rows| && next.rows[i] == st.rows[i]
    ensures WaitsFor(next, id, ds)
  {
  }

  lemma TapKeeps(st: State, at: RowId, action: Action, u: User)
    requires AllGood(st) && action != Other
    ensures AllGood(Tap(st, at, action, u).state)
  {
    var out := Tap(st, at, action, u);
    if out.reply in {Turned, Escalated, NothingToRun, Ran} {
      NextRooted(st, Tapped(at, action, u));
      DecidesKeeps(st, at, action, u);
      forall id | 0 <= id < |out.state.requests| ensures Good(out.state, id) {
        if id != st.rows[at].request { OthersKeep(st, at, action, u, id); }
      }
      forall id: nat | id >= |out.state.requests| ensures NothingOf(out.state, id) {
        OthersKeep(st, at, action, u, id);
      }
    } else {
      assert out.state == st;
    }
  }

  predicate AllFit(steps: seq<Step>) { forall s | s in steps :: Fits(s) }

  lemma {:induction false} AlwaysGood(st: State, steps: seq<Step>)
    requires AllGood(st) && AllFit(steps)
    ensures AllGood(Run(st, steps))
    decreases |steps|
  {
    if steps != [] {
      assert Fits(steps[0]);
      match steps[0] {
        case Asked(r, role) => AskKeeps(st, r, role);
        case Tapped(at, action, u) => TapKeeps(st, at, action, u);
      }
      hide AllGood, Ask, Tap;
      AlwaysGood(Next(st, steps[0]), steps[1..]);
    }
  }

  const EMPTY := State([], [], [], [])

  lemma EmptyGood()
    ensures AllGood(EMPTY)
  {
  }

  /** Over every sequence of requests and taps: a request's action runs at most once, and when it has run every
      level of its queue had approved, one decision each, in order, none by the requester. */
  lemma RunsOnceAfterEveryLevel(steps: seq<Step>, id: RequestId)
    requires AllFit(steps) && id < |Run(EMPTY, steps).requests|
    ensures var st := Run(EMPTY, steps); var r, ds := st.requests[id], Of(st.decisions, id);
            && RunsOf(st.runs, id) <= 1
            && (RunsOf(st.runs, id) == 1 <==> r.hasAction && |ds| == |r.queue| && forall d | d in ds :: d.approved)
            && |ds| <= |r.queue|
            && forall k | 0 <= k < |ds| :: ds[k].index == k && ds[k].who != r.requester
  {
    EmptyGood();
    AlwaysGood(EMPTY, steps);
    var st := Run(EMPTY, steps);
    assert Good(st, id);
    var ds := Of(st.decisions, id);
    hide Of, RunsOf, WaitsFor;
    if !Stopped(ds) {
      forall d | d in ds ensures d.approved {
        var k :| 0 <= k < |ds| && ds[k] == d;
        assert k == |ds| - 1 || k < |ds| - 1;
      }
    } else {
      assert ds[|ds| - 1] in ds;
    }
  }

  /** A rejection ends the chain: after it nothing more is decided on the request, and its action never runs. */
  lemma {:induction false} RejectionEnds(st: State, steps: seq<Step>, id: RequestId)
    requires AllGood(st) && AllFit(steps) && id < |st.requests|
    requires exists d | d in Of(st.decisions, id) :: !d.approved
    ensures var end := Run(st, steps);
            id < |end.requests| && Of(end.decisions, id) == Of(st.decisions, id) && RunsOf(end.runs, id) == 0
    decreases |steps|
  {
    var ds := Of(st.decisions, id);
    RejectedIsLast(st, id);
    if steps != [] {
      var s := steps[0];
      assert Fits(s);
      var next := Next(st, s);
      match s {
        case Asked(r, role) => AskKeeps(st, r, role);
        case Tapped(at, action, u) =>
          TapKeeps(st, at, action, u);
          StoppedStays(st, at, action, u, id);
      }
      assert Of(next.decisions, id) == ds;
      hide AllGood, Ask, Tap, Of, Next;
      RejectionEnds(next, steps[1..], id);
    }
  }

  lemma RejectedIsLast(st: State, id: RequestId)
    requires AllGood(st) && id < |st.requests| && exists d | d in Of(st.decisions, id) :: !d.approved
    ensures Stopped(Of(st.decisions, id)) && RunsOf(st.runs, id) == 0
  {
    assert Good(st, id);
    var ds := Of(st.decisions, id);
    var d :| d in ds && !d.approved;
    var k :| 0 <= k < |ds| && ds[k] == d;
  }

  lemma StoppedStays(st: State, at: RowId, action: Action, u: User, id: RequestId)
    requires AllGood(st) && id < |st.requests| && Stopped(Of(st.decisions, id))
    ensures Of(Tap(st, at, action, u).state.decisions, id) == Of(st.decisions, id)
  {
    var next := Tap(st, at, action, u).state;
    assert Good(st, id);
    assert next.decisions == st.decisions || next.decisions[..|st.decisions|] == st.decisions;
  }

  const MANAGER := User("manager", "manager", true)

  /** The webhook passes on no other taps, and must not: with any other one a level is marked rejected, the request
      climbs on, and its action runs although not every level approved. */
  lemma OtherTapRunsAnyway()
    ensures var request := Request("asker", ["manager", "head"], true);
            var st := Run(EMPTY, [Asked(request, "manager"), Tapped(0, Other, MANAGER), Tapped(1, Approve, MANAGER)]);
            && st.rows[..] == [Row(0, 0, "manager", Rejected), Row(0, 1, "head", Approved)]
            && Of(st.decisions, 0) == [Decision(0, 0, "manager", false), Decision(0, 1, "manager", true)]
            && RunsOf(st.runs, 0) == 1
  {
    OtherSteps();
    hide Next;
    var request := Request("asker", ["manager", "head"], true);
    var a, b, c := Asked(request, "manager"), Tapped(0, Other, MANAGER), Tapped(1, Approve, MANAGER);
    assert [c][1..] == [] && [b, c][1..] == [c] && [a, b, c][1..] == [b, c];
    var one, two := Decision(0, 0, "manager", false), Decision(0, 1, "manager", true);
    var ran := State([request], [Row(0, 0, "manager", Rejected), Row(0, 1, "head", Approved)], [one, two], [0]);
    assert Run(Next(Next(EMPTY, a), b), [c]) == ran;
    assert Run(Next(EMPTY, a), [b, c]) == ran;
    assert Run(EMPTY, [a, b, c]) == ran;
    OfMore([], one, 0);
    OfMore([one], two, 0);
    assert [] + [one] == [one] && [one] + [two] == [one, two];
    RunsMore([], 0, 0);
    assert [] + [0] == [0];
  }

  lemma OtherSteps()
    ensures var request := Request("asker", ["manager", "head"], true);
            var asked := State([request], [Row(0, 0, "manager", Pending)], [], []);
            var one, two := Decision(0, 0, "manager", false), Decision(0, 1, "manager", true);
            var climbed := State([request], [Row(0, 0, "manager", Rejected), Row(0, 1, "head", Pending)], [one], []);
            && Next(EMPTY, Asked(request, "manager")) == asked
            && Next(asked, Tapped(0, Other, MANAGER)) == climbed
            && Next(climbed, Tapped(1, Approve, MANAGER))
               == State([request], [Row(0, 0, "manager", Rejected), Row(0, 1, "head", Approved)], [one, two], [0])
  {
  }

  lemma OfMore(ds: seq<Decision>, d: Decision, id: RequestId)
    ensures Of(ds + [d], id) == Of(ds, id) + if d.request == id then [d] else []
  {
    assert (ds + [d])[..|ds|] == ds;
  }

  lemma RunsMore(runs: seq<RequestId>, r: RequestId, id: RequestId)
    ensures RunsOf(runs + [r], id) == RunsOf(runs, id) + if r == id then 1 else 0
  {
    assert (runs + [r])[..|runs|] == runs;
  }

  // ---- answer mode: looking and deciding are two steps, so that taps may interleave

  datatype Answer = Answer(row: RowId, word: Action, who: UserId)

  /** A question put to some people: Nobody until answered. */
  datatype Question = Question(approvers: set<UserId>, requester: UserId, answered: bool)

  /** The questions, the taps that found theirs still open, and the answers that carried a flow on. */
  datatype Board = Board(questions: seq<Question>, looking: map<nat, Answer>, answers: seq<Answer>)

  datatype Move =
    | Put(question: Question)
    | Look(tap: nat, row: RowId, word: Action, who: UserId)
    | Decide(tap: nat)

  function Moved(b: Board, m: Move): Board {
    match m
    case Put(q) => b.(questions := b.questions + [q.(answered := false)])
    case Look(tap, row, word, who) =>
      if row < |b.questions| && !b.questions[row].answered && who in b.questions[row].approvers
         && who != b.questions[row].requester
      then b.(looking := b.looking[tap := Answer(row, word, who)]) else b
    case Decide(tap) =>
      if tap !in b.looking then b
      else
        var a := b.looking[tap];
        var rest := b.(looking := b.looking - {tap});
        if a.row < |b.questions| && !b.questions[a.row].answered
        then rest.(questions := b.questions[a.row := b.questions[a.row].(answered := true)], answers := b.answers + [a])
        else rest
  }

  function Moves(b: Board, ms: seq<Move>): Board
    decreases |ms|
  {
    if ms == [] then b else Moves(Moved(b, ms[0]), ms[1..])
  }

  predicate BoardGood(b: Board) {
    && (forall t | t in b.looking :: Proper(b, b.looking[t]))
    && (forall a | a in b.answers :: Proper(b, a) && b.questions[a.row].answered)
    && (forall i, j | 0 <= i < j < |b.answers| :: b.answers[i].row != b.answers[j].row)
    && (forall q | 0 <= q < |b.questions| && b.questions[q].answered ::
          exists i :: 0 <= i < |b.answers| && b.answers[i].row == q)
  }

  predicate Proper(b: Board, a: Answer) {
    a.row < |b.questions| && a.who in b.questions[a.row].approvers && a.who != b.questions[a.row].requester
  }

  lemma MoveKeeps(b: Board, m: Move)
    requires BoardGood(b)
    ensures BoardGood(Moved(b, m))
  {
    var c := Moved(b, m);
    if m.Decide? && c.answers != b.answers {
      var a := b.looking[m.tap];
      assert c.answers[|b.answers|] == a;
      forall q | 0 <= q < |c.questions| && c.questions[q].answered
        ensures exists i :: 0 <= i < |c.answers| && c.answers[i].row == q
      {
        if q != a.row {
          var i :| 0 <= i < |b.answers| && b.answers[i].row == q;
          assert c.answers[i].row == q;
        }
      }
    }
  }

  /** However the taps interleave, a question is answered at most once, by one of the people it was put to and not
      by the one who asked, and it counts as answered exactly when that answer is recorded. */
  lemma {:induction false} FirstAnswerDecides(b: Board, ms: seq<Move>)
    requires BoardGood(b)
    ensures BoardGood(Moves(b, ms))
    decreases |ms|
  {
    hide BoardGood, Moved;
    if ms != [] {
      MoveKeeps(b, ms[0]);
      FirstAnswerDecides(Moved(b, ms[0]), ms[1..]);
    }
  }

  // ---- who decides

  /** A tap on a row, by somebody with the role it asks for or with leave to approve anything, and what it says. */
  predicate DecidedBy(s: Step, at: RowId, row: Row, d: Decision) {
    && s.Tapped? && s.at == at && s.user.id == d.who && (s.user.role == row.role || s.user.mayApprove)
    && row.request == d.request && row.index == d.index && (d.approved <==> s.action == Approve)
  }

  ghost predicate Decided(steps: seq<Step>, rows: seq<Row>, d: Decision) {
    exists k, at :: 0 <= k < |steps| && 0 <= at < |rows| && DecidedBy(steps[k], at, rows[at], d)
  }

  /** Rows are only added, and keep what they ask. */
  predicate RowsStay(a: seq<Row>, b: seq<Row>) {
    |a| <= |b| && forall i | 0 <= i < |a| ::
      b[i].request == a[i].request && b[i].index == a[i].index && b[i].role == a[i].role
  }

  lemma StepDecides(st: State, s: Step)
    requires Rooted(st)
    ensures RowsStay(st.rows, Next(st, s).rows)
    ensures forall d | d in Next(st, s).decisions :: d in st.decisions
              || (s.Tapped? && s.at < |st.rows| && DecidedBy(s, s.at, st.rows[s.at], d))
  {
  }

  lemma {:induction false} RowsStayAlways(st: State, steps: seq<Step>)
    requires Rooted(st)
    ensures RowsStay(st.rows, Run(st, steps).rows)
    decreases |steps|
  {
    hide Next;
    if steps != [] {
      NextRooted(st, steps[0]);
      StepDecides(st, steps[0]);
      RowsStayAlways(Next(st, steps[0]), steps[1..]);
    }
  }

  /** Whatever is decided in a run is decided by a tap on the row of that level, by somebody with the role the row asks
      for or with leave to approve anything. */
  lemma {:induction false} OnlyApproversDecide(st: State, steps: seq<Step>)
    requires Rooted(st)
    ensures var end := Run(st, steps);
            forall d | d in end.decisions :: d in st.decisions || Decided(steps, end.rows, d)
    decreases |steps|
  {
    hide Next, RowsStay, DecidedBy;
    if steps != [] {
      var s, more := steps[0], steps[1..];
      NextRooted(st, s);
      var next := Next(st, s);
      StepDecides(st, s);
      OnlyApproversDecide(next, more);
      RowsStayAlways(next, more);
      var end := Run(st, steps);
      forall d | d in end.decisions && d !in st.decisions ensures Decided(steps, end.rows, d) {
        if d in next.decisions {
          DecidedNow(steps, st.rows, next.rows, end.rows, d);
        } else {
          DecidedLater(steps, end.rows, d);
        }
      }
    }
  }

  lemma DecidedNow(steps: seq<Step>, a: seq<Row>, b: seq<Row>, c: seq<Row>, d: Decision)
    requires RowsStay(a, b) && RowsStay(b, c)
    requires steps != [] && steps[0].Tapped? && steps[0].at < |a| && DecidedBy(steps[0], steps[0].at, a[steps[0].at], d)
    ensures Decided(steps, c, d)
  {
    assert DecidedBy(steps[0], steps[0].at, c[steps[0].at], d);
  }

  lemma DecidedLater(steps: seq<Step>, rows: seq<Row>, d: Decision)
    requires steps != [] && Decided(steps[1..], rows, d)
    ensures Decided(steps, rows, d)
  {
    hide DecidedBy;
    var k, at :| 0 <= k < |steps[1..]| && 0 <= at < |rows| && DecidedBy(steps[1..][k], at, rows[at], d);
    assert DecidedBy(steps[k + 1], at, rows[at], d);
  }

  /** Each level after the first is put to the role the queue names for it. */
  ghost predicate AsksInTurn(st: State) {
    Rooted(st) && forall i | 0 <= i < |st.rows| && st.rows[i].index > 0 ::
      var queue := st.requests[st.rows[i].request].queue;
      st.rows[i].index < |queue|
      && st.rows[i].role == if queue[st.rows[i].index] == "" then "approver" else queue[st.rows[i].index]
  }

  lemma StepAsks(st: State, s: Step)
    requires AsksInTurn(st)
    ensures AsksInTurn(Next(st, s))
  {
    NextRooted(st, s);
    if s.Tapped? { TapAsks(st, s.at, s.action, s.user); }
  }

  lemma TapAsks(st: State, at: RowId, action: Action, u: User)
    requires AsksInTurn(st)
    ensures AsksInTurn(Tap(st, at, action, u).state)
  {
    hide Allowed;
    var next := Tap(st, at, action, u).state;
    forall i | 0 <= i < |next.rows|
      ensures i < |st.rows| ==> next.rows[i].(status := Pending) == st.rows[i].(status := Pending)
    {
    }
  }

  lemma {:induction false} LevelsAskInTurn(st: State, steps: seq<Step>)
    requires AsksInTurn(st)
    ensures AsksInTurn(Run(st, steps))
    decreases |steps|
  {
    hide AsksInTurn, Next;
    if steps != [] {
      RootedHere(st);
      NextRooted(st, steps[0]);
      StepAsks(st, steps[0]);
      LevelsAskInTurn(Next(st, steps[0]), steps[1..]);
    }
  }

  lemma RootedHere(st: State)
    ensures AsksInTurn(st) ==> Rooted(st)
  {
  }

  /** A tap decides exactly when its row waits for a decision, the one who taps has the row's role or leave to approve
      anything, and did not ask; whatever it does not decide it leaves as it was. */
  lemma DecidesExactly(st: State, at: RowId, action: Action, u: User)
    requires Rooted(st)
    ensures var next := Tap(st, at, action, u).state;
            var may := at < |st.rows| && st.rows[at].status == Pending && (u.role == st.rows[at].role || u.mayApprove)
                       && st.requests[st.rows[at].request].requester != u.id;
            && (may ==> next.decisions
                        == st.decisions + [Decision(st.rows[at].request, st.rows[at].index, u.id, action == Approve)]
                        && next.rows[at].status == if action == Approve then Approved else Rejected)
            && (!may ==> next == st)
  {
  }

  /** A tap that found its question open carries the flow on exactly when the question is still open, and then the
      question is answered; and somebody may look exactly when they were asked, did not ask, and it is open. */
  lemma AnswersExactly(b: Board, tap: nat, row: RowId, word: Action, who: UserId)
    ensures tap in b.looking ==>
              var a := b.looking[tap]; var next := Moved(b, Decide(tap));
              if a.row < |b.questions| && !b.questions[a.row].answered
              then next.answers == b.answers + [a] && next.questions[a.row].answered
              else next.answers == b.answers && next.questions == b.questions
    ensures var next := Moved(b, Look(tap, row, word, who));
            if row < |b.questions| && !b.questions[row].answered && who in b.questions[row].approvers
               && who != b.questions[row].requester
            then tap in next.looking && next.looking[tap] == Answer(row, word, who) else next == b
  {
  }
}
