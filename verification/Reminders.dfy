// The reminders of app/scheduler/jobs.py: each case is told about once, a case that cannot be told is tried on
// later passes and given up after a number of them, and a rate limit stops a pass without counting against anyone.
module Reminders {

  /** What counters are kept by: the database, the table and the column that marks a case, and the case's row. The
      organisation a row belongs to is no part of it. */
  type Pass = string
  type RowId = int
  type Org = string
  datatype Case = Case(pass: Pass, row: RowId)

  /** What one send comes to. */
  datatype Send = Reached | Unreached | Limited

  /** The phones found; an empty text is a person without one. */
  datatype People = People(assignee: Maybe, complainant: Maybe)
  datatype Maybe = Nobody | Somebody(phone: string)

  /** Which of the two messages the pass has. */
  datatype Templates = Templates(assignee: bool, complainant: bool)

  /** What happens when a case's turn comes: the people looked up (or an error), what a send to each would come
      to, and whether the row can be marked. */
  datatype Attempt = Attempt(people: LookedUp, toAssignee: Send, toComplainant: Send, markable: bool)
  datatype LookedUp = LookupFailed | Found(people: People)

  datatype State = State(failures: map<Case, nat>, marked: set<Case>)

  /** What a pass does, in order. */
  datatype Event =
    | Told(about: Case)
    | Failed(about: Case)
    | GaveUp(about: Case)
    | Marked(about: Case)
    | NotMarked(about: Case)

  datatype Role = Assignee | Complainant

  /** Who is to be told: both, but one person only once. */
  function Targets(t: Templates, p: People): seq<Role> {
    (if p.assignee.Somebody? && p.assignee.phone != "" && t.assignee then [Assignee] else []) +
    (if p.complainant.Somebody? && p.complainant.phone != "" && t.complainant
        && !(p.assignee.Somebody? && p.assignee.phone == p.complainant.phone)
     then [Complainant] else [])
  }

  function SendTo(a: Attempt, r: Role): Send { if r == Assignee then a.toAssignee else a.toComplainant }

  datatype Tried = Tried(sentAny: bool, failed: bool, paused: bool)

  /** Sending to each in turn; a rate limit stops it. */
  function SendAll(a: Attempt, targets: seq<Role>, so: Tried): Tried
    decreases |targets|
  {
    if targets == [] then so
    else match SendTo(a, targets[0])
         case Reached => SendAll(a, targets[1..], so.(sentAny := true))
         case Unreached => SendAll(a, targets[1..], so.(failed := true))
         case Limited => so.(paused := true)
  }

  function TryCase(t: Templates, a: Attempt): Tried {
    match a.people
    case LookupFailed => Tried(false, true, false)
    case Found(people) => SendAll(a, Targets(t, people), Tried(false, false, false))
  }

  function CountOf(failures: map<Case, nat>, c: Case): nat { if c in failures then failures[c] else 0 }

  /** The state and the events after one case, and whether the pass stops there. */
  datatype Handled = Handled(state: State, events: seq<Event>, stop: bool)

  function Handle(st: State, c: Case, t: Templates, a: Attempt, limit: int): Handled {
    var tried := TryCase(t, a);
    var count := CountOf(st.failures, c) + 1;
    if tried.paused && !tried.sentAny then Handled(st, [], true)
    else
      var counted := tried.failed && !tried.sentAny && !tried.paused;
      if counted && count < limit then Handled(st.(failures := st.failures[c := count]), [Failed(c)], false)
      else
        Handled(
          State(st.failures - {c}, if a.markable then st.marked + {c} else st.marked),
          (if tried.sentAny then [Told(c)] else if counted then [GaveUp(c)] else [])
          + [if a.markable then Marked(c) else NotMarked(c)],
          tried.paused)
  }

  /** Counters of this pass whose case is no longer due are dropped. */
  function DropStale(failures: map<Case, nat>, pass: Pass, due: seq<RowId>): map<Case, nat> {
    map c | c in failures && !(c.pass == pass && c.row !in due) :: failures[c]
  }

  /** A pass is made for one organisation and reads only its cases. */
  datatype Input = Input(
    org: Org, pass: Pass, due: seq<RowId>, templates: Templates, attempts: seq<Attempt>, limit: int)

  datatype After = After(state: State, events: seq<Event>)

  function Cases(st: State, i: Input, from: nat): After
    requires from <= |i.due| == |i.attempts|
    decreases |i.due| - from
  {
    if from == |i.due| then After(st, [])
    else
      var h := Handle(st, Case(i.pass, i.due[from]), i.templates, i.attempts[from], i.limit);
      if h.stop then After(h.state, h.events)
      else
        var rest := Cases(h.state, i, from + 1);
        After(rest.state, h.events + rest.events)
  }

  /** The rows a pass reads are different ones, none of them marked. */
  predicate Fits(st: State, i: Input) {
    && |i.due| == |i.attempts|
    && (forall a, b | 0 <= a < b < |i.due| :: i.due[a] != i.due[b])
    && (forall r | r in i.due :: Case(i.pass, r) !in st.marked)
  }

  function RunPass(st: State, i: Input): After
    requires |i.due| == |i.attempts|
  {
    Cases(st.(failures := DropStale(st.failures, i.pass, i.due)), i, 0)
  }

  lemma CaseNext(st: State, i: Input, from: nat)
    requires |i.due| == |i.attempts|
    ensures from < |i.due| ==>
              var h := Handle(st, Case(i.pass, i.due[from]), i.templates, i.attempts[from], i.limit);
              if h.stop then Cases(st, i, from) == After(h.state, h.events)
              else
                var rest := Cases(h.state, i, from + 1);
                Cases(st, i, from) == After(rest.state, h.events + rest.events)
    ensures from == |i.due| ==> Cases(st, i, from) == After(st, [])
  {
    hide Handle;
  }

  class Job {
    var failures: map<Case, nat>
    var marked: set<Case>

    function Whole(): State
      reads this
    {
      State(failures, marked)
    }

    /** A scheduler that starts has no counters; what is marked is in the database. */
    constructor (marked: set<Case>)
      ensures Whole() == State(map[], marked)
    {
      failures, this.marked := map[], marked;
    }

    /** One pass over the due cases, stopping early when a rate limit is met. */
    method Pass(i: Input) returns (ghost events: seq<Event>)
      requires Fits(Whole(), i)
      modifies this
      ensures After(Whole(), events) == RunPass(old(Whole()), i)
    {
      hide Cases, Handle;
      failures := DropStale(failures, i.pass, i.due);
      events := [];
      for from := 0 to |i.due|
        invariant var rest := Cases(Whole(), i, from);
                  After(rest.state, events + rest.events) == RunPass(old(Whole()), i)
      {
        CaseNext(Whole(), i, from);
        var stop, more := Remind(i, Case(i.pass, i.due[from]), i.attempts[from]);
        events := events + more;
        if stop { return; }
      }
      CaseNext(Whole(), i, |i.due|);
    }

    /** One case's turn. */
    method Remind(i: Input, c: Case, a: Attempt) returns (stop: bool, ghost events: seq<Event>)
      modifies this
      ensures Handled(Whole(), events, stop) == Handle(old(Whole()), c, i.templates, a, i.limit)
    {
      hide TryCase;
      events := Handle(Whole(), c, i.templates, a, i.limit).events;
      var tried := Try(i.templates, a);
      if tried.paused && !tried.sentAny { return true, events; }
      if tried.failed && !tried.sentAny && !tried.paused {
        var count := CountOf(failures, c) + 1;
        if count < i.limit {
          failures := failures[c := count];
          return false, events;
        }
      }
      failures := failures - {c};
      if a.markable { marked := marked + {c}; }
      return tried.paused, events;
    }
  }

  method Try(t: Templates, a: Attempt) returns (tried: Tried)
    ensures tried == TryCase(t, a)
  {
    var sentAny, failed, paused := false, false, false;
    var targets: seq<Role> := [];
    match a.people {
      case LookupFailed => failed := true;
      case Found(people) => targets := Targets(t, people);
    }
    for k := 0 to |targets|
      invariant SendAll(a, targets[k..], Tried(sentAny, failed, paused)) == TryCase(t, a)
    {
      assert targets[k..][0] == targets[k] && targets[k..][1..] == targets[k + 1..];
      match SendTo(a, targets[k]) {
        case Reached => sentAny := true;
        case Unreached => failed := true;
        case Limited => return Tried(sentAny, failed, true);
      }
    }
    return Tried(sentAny, failed, paused);
  }

  // ---- what one case's turn touches

  /** Nothing about a case is changed or said. */
  predicate Untouched(c: Case, a: State, b: State, events: seq<Event>) {
    && CountOf(b.failures, c) == CountOf(a.failures, c) && (c in b.failures <==> c in a.failures)
    && (c in b.marked <==> c in a.marked)
    && forall e | e in events :: e.about != c
  }

  lemma HandleTouchesOne(st: State, c: Case, t: Templates, a: Attempt, limit: int, d: Case)
    requires d != c
    ensures var h := Handle(st, c, t, a, limit); Untouched(d, st, h.state, h.events)
  {
    hide TryCase;
  }

  predicate IsCase(i: Input, c: Case, from: nat) {
    c.pass == i.pass && exists k :: from <= k < |i.due| && i.due[k] == c.row
  }

  predicate DistinctRows(i: Input) { forall a, b | 0 <= a < b < |i.due| :: i.due[a] != i.due[b] }

  lemma {:induction false} OthersUntouched(st: State, i: Input, from: nat, c: Case)
    requires from <= |i.due| == |i.attempts| && !IsCase(i, c, from)
    ensures var out := Cases(st, i, from); Untouched(c, st, out.state, out.events)
    decreases |i.due| - from
  {
    if from < |i.due| {
      var d := Case(i.pass, i.due[from]);
      var h := Handle(st, d, i.templates, i.attempts[from], i.limit);
      assert d != c;
      HandleTouchesOne(st, d, i.templates, i.attempts[from], i.limit, c);
      hide Handle;
      if !h.stop { OthersUntouched(h.state, i, from + 1, c); }
    }
  }

  /** A rate limit met before anyone on a case is reached leaves that case and all later ones as they were. */
  lemma {:induction false} LimitLeavesAlone(st: State, i: Input, from: nat, k: nat, j: nat)
    requires |i.due| == |i.attempts| && DistinctRows(i) && from <= k <= j < |i.due|
    requires var tried := TryCase(i.templates, i.attempts[k]); tried.paused && !tried.sentAny
    ensures var out := Cases(st, i, from); Untouched(Case(i.pass, i.due[j]), st, out.state, out.events)
    decreases k - from
  {
    hide TryCase;
    var d := Case(i.pass, i.due[from]);
    var h := Handle(st, d, i.templates, i.attempts[from], i.limit);
    if from < k {
      HandleTouchesOne(st, d, i.templates, i.attempts[from], i.limit, Case(i.pass, i.due[j]));
      hide Handle;
      if !h.stop { LimitLeavesAlone(h.state, i, from + 1, k, j); }
    }
  }

  // ---- runs of passes

  /** The counters are in memory and start from nothing when the scheduler does. */
  datatype Step = Pass(i: Input) | Restart

  predicate CanDo(st: State, s: Step) { s.Pass? ==> Fits(st, s.i) }

  function Do(st: State, s: Step): After
    requires CanDo(st, s)
  {
    match s
    case Pass(i) => RunPass(st, i)
    case Restart => After(State(map[], st.marked), [])
  }

  predicate CanRun(st: State, run: seq<Step>)
    decreases |run|
  {
    run == [] || (CanDo(st, run[0]) && CanRun(Do(st, run[0]).state, run[1..]))
  }

  function Run(st: State, run: seq<Step>): After
    requires CanRun(st, run)
    decreases |run|
  {
    if run == [] then After(st, [])
    else
      var first := Do(st, run[0]);
      var rest := Run(first.state, run[1..]);
      After(rest.state, first.events + rest.events)
  }

  // ---- counters

  predicate InRange(failures: map<Case, nat>, limit: int) { forall c | c in failures :: 1 <= failures[c] < limit }

  predicate Apart(st: State) { forall c | c in st.failures :: c !in st.marked }

  lemma {:induction false} CasesInRange(st: State, i: Input, from: nat, limit: int)
    requires from <= |i.due| == |i.attempts| && InRange(st.failures, limit) && i.limit <= limit
    ensures InRange(Cases(st, i, from).state.failures, limit)
    decreases |i.due| - from
  {
    hide TryCase;
    if from < |i.due| {
      var h := Handle(st, Case(i.pass, i.due[from]), i.templates, i.attempts[from], i.limit);
      assert InRange(h.state.failures, limit);
      if !h.stop { CasesInRange(h.state, i, from + 1, limit); }
    }
  }

  predicate NotYetMarked(st: State, i: Input, from: nat)
  {
    forall k | from <= k < |i.due| :: Case(i.pass, i.due[k]) !in st.marked
  }

  lemma {:induction false} CasesApart(st: State, i: Input, from: nat)
    requires from <= |i.due| == |i.attempts| && DistinctRows(i) && Apart(st) && NotYetMarked(st, i, from)
    ensures Apart(Cases(st, i, from).state)
    decreases |i.due| - from
  {
    hide TryCase;
    if from < |i.due| {
      var h := Handle(st, Case(i.pass, i.due[from]), i.templates, i.attempts[from], i.limit);
      assert Apart(h.state) && NotYetMarked(h.state, i, from + 1);
      hide Handle;
      if !h.stop { CasesApart(h.state, i, from + 1); }
    }
  }

  /** A pass reads only rows of its organisation. */
  predicate ReadsOwn(i: Input, owner: Case -> Org) { forall r | r in i.due :: owner(Case(i.pass, r)) == i.org }

  /** After a pass, the counters kept by its database, table and column are of cases of its organisation that were
      due: those of every other organisation are gone, though nothing else of their cases is touched. Whatever is kept
      by another database, table or column is untouched, and no counted case is marked. */
  lemma PassCounters(st: State, i: Input, owner: Case -> Org, limit: int)
    requires Fits(st, i) && ReadsOwn(i, owner) && Apart(st) && InRange(st.failures, limit) && i.limit <= limit
    ensures var out := RunPass(st, i).state; var events := RunPass(st, i).events;
            && InRange(out.failures, limit) && Apart(out)
            && (forall c | c in out.failures && c.pass == i.pass :: c.row in i.due && owner(c) == i.org)
            && (forall c: Case | c.pass == i.pass && owner(c) != i.org ::
                  c !in out.failures && Untouched(c, st.(failures := st.failures - {c}), out, events))
            && (forall c: Case | c.pass != i.pass :: Untouched(c, st, out, events))
  {
    PassInRange(st, i, limit);
    hide RunPass, InRange, Apart;
    var out := RunPass(st, i);
    forall c | c in out.state.failures && c.pass == i.pass ensures c.row in i.due && owner(c) == i.org {
      if c.row !in i.due { NotDueDropped(st, i, c); }
    }
    forall c: Case | c.pass == i.pass && owner(c) != i.org
      ensures c !in out.state.failures && Untouched(c, st.(failures := st.failures - {c}), out.state, out.events)
    {
      NotDueDropped(st, i, c);
    }
    forall c: Case | c.pass != i.pass ensures Untouched(c, st, out.state, out.events) {
      OtherPass(st, i, c);
    }
  }

  /** A pass in which a case is not due takes its counter away, and nothing else. */
  lemma NotDueDropped(st: State, i: Input, c: Case)
    requires |i.due| == |i.attempts| && c.pass == i.pass && c.row !in i.due
    ensures var out := RunPass(st, i);
            c !in out.state.failures && Untouched(c, st.(failures := st.failures - {c}), out.state, out.events)
  {
    OthersUntouched(st.(failures := DropStale(st.failures, i.pass, i.due)), i, 0, c);
  }

  lemma OtherPass(st: State, i: Input, c: Case)
    requires |i.due| == |i.attempts| && c.pass != i.pass
    ensures var out := RunPass(st, i); Untouched(c, st, out.state, out.events)
  {
    OthersUntouched(st.(failures := DropStale(st.failures, i.pass, i.due)), i, 0, c);
  }

  lemma PassInRange(st: State, i: Input, limit: int)
    requires Fits(st, i) && Apart(st) && InRange(st.failures, limit) && i.limit <= limit
    ensures InRange(RunPass(st, i).state.failures, limit) && Apart(RunPass(st, i).state)
  {
    var dropped := st.(failures := DropStale(st.failures, i.pass, i.due));
    CasesInRange(dropped, i, 0, limit);
    CasesApart(dropped, i, 0);
  }

  /** Stored counters stay between 1 and the limit minus 1, whatever the sends come to. */
  lemma {:induction false} CountersStayInRange(st: State, run: seq<Step>, limit: int)
    requires CanRun(st, run) && Apart(st) && InRange(st.failures, limit)
    requires forall s | s in run && s.Pass? :: s.i.limit <= limit
    ensures InRange(Run(st, run).state.failures, limit) && Apart(Run(st, run).state)
    decreases |run|
  {
    if run != [] {
      if run[0].Pass? { PassInRange(st, run[0].i, limit); }
      var next := Do(st, run[0]).state;
      assert InRange(next.failures, limit) && Apart(next);
      hide Do, InRange, Apart;
      CountersStayInRange(next, run[1..], limit);
    }
  }

  // ---- told once

  function Times(events: seq<Event>, e: Event): nat {
    if events == [] then 0 else (if events[0] == e then 1 else 0) + Times(events[1..], e)
  }

  lemma {:induction false} TimesJoin(a: seq<Event>, b: seq<Event>, e: Event)
    ensures Times(a + b, e) == Times(a, e) + Times(b, e)
  {
    if a == [] {
      assert a + b == b;
    } else {
      assert (a + b)[0] == a[0] && (a + b)[1..] == a[1..] + b;
      TimesJoin(a[1..], b, e);
    }
  }

  lemma {:induction false} TimesNone(events: seq<Event>, e: Event)
    requires forall x | x in events :: x.about != e.about
    ensures Times(events, e) == 0
  {
    if events != [] {
      assert events[0] in events;
      TimesNone(events[1..], e);
    }
  }

  /** A case told is marked, or could not be. */
  predicate ToldOnce(c: Case, a: State, b: State, events: seq<Event>) {
    && (c in a.marked ==> c in b.marked && Times(events, Told(c)) == 0)
    && Times(events, Told(c)) <= Times(events, NotMarked(c)) + if c in b.marked && c !in a.marked then 1 else 0
  }

  lemma HandleToldOnce(st: State, c: Case, t: Templates, a: Attempt, limit: int)
    requires c !in st.marked
    ensures var h := Handle(st, c, t, a, limit); ToldOnce(c, st, h.state, h.events)
  {
    hide TryCase;
    var h := Handle(st, c, t, a, limit);
    var tried := TryCase(t, a);
    var mark := if a.markable then Marked(c) else NotMarked(c);
    var first: seq<Event> :=
      if tried.sentAny then [Told(c)] else if tried.failed && !tried.paused then [GaveUp(c)] else [];
    assert h.events == [] || h.events == [Failed(c)] || h.events == first + [mark];
    TimesJoin(first, [mark], Told(c));
    TimesJoin(first, [mark], NotMarked(c));
    assert Times([mark], Told(c)) == 0 && Times([mark], NotMarked(c)) == if a.markable then 0 else 1;
    assert Times([Failed(c)], Told(c)) == 0 && Times([Failed(c)], NotMarked(c)) == 0;
    assert Times(first, NotMarked(c)) == 0 && Times(first, Told(c)) == if tried.sentAny then 1 else 0;
  }

  lemma UntouchedToldOnce(c: Case, a: State, b: State, events: seq<Event>)
    requires Untouched(c, a, b, events)
    ensures ToldOnce(c, a, b, events)
  {
    TimesNone(events, Told(c));
  }

  lemma ToldOnceJoin(c: Case, a: State, b: State, d: State, e: seq<Event>, f: seq<Event>)
    requires ToldOnce(c, a, b, e) && ToldOnce(c, b, d, f)
    ensures ToldOnce(c, a, d, e + f)
  {
    TimesJoin(e, f, Told(c));
    TimesJoin(e, f, NotMarked(c));
  }

  lemma {:induction false} CasesToldOnce(st: State, i: Input, from: nat, c: Case)
    requires from <= |i.due| == |i.attempts| && DistinctRows(i) && NotYetMarked(st, i, from)
    ensures var out := Cases(st, i, from); ToldOnce(c, st, out.state, out.events)
    decreases |i.due| - from
  {
    if from < |i.due| {
      var d := Case(i.pass, i.due[from]);
      var h := Handle(st, d, i.templates, i.attempts[from], i.limit);
      assert d !in st.marked && NotYetMarked(h.state, i, from + 1);
      if d == c {
        HandleToldOnce(st, d, i.templates, i.attempts[from], i.limit);
      } else {
        HandleTouchesOne(st, d, i.templates, i.attempts[from], i.limit, c);
        UntouchedToldOnce(c, st, h.state, h.events);
      }
      hide Handle, ToldOnce, NotYetMarked;
      if !h.stop {
        CasesToldOnce(h.state, i, from + 1, c);
        var rest := Cases(h.state, i, from + 1);
        ToldOnceJoin(c, st, h.state, rest.state, h.events, rest.events);
      }
    } else {
      UntouchedToldOnce(c, st, st, []);
    }
  }

  lemma StepToldOnce(st: State, s: Step, c: Case)
    requires CanDo(st, s)
    ensures var out := Do(st, s); ToldOnce(c, st, out.state, out.events)
  {
    if s.Pass? { CasesToldOnce(st.(failures := DropStale(st.failures, s.i.pass, s.i.due)), s.i, 0, c); }
  }

  /** A marked case is never told again, and a case is told again at most as often as marking it failed. */
  lemma {:induction false} NeverToldAgain(st: State, run: seq<Step>, c: Case)
    requires CanRun(st, run)
    ensures var out := Run(st, run);
            && (c in st.marked ==> c in out.state.marked && Times(out.events, Told(c)) == 0)
            && Times(out.events, Told(c)) <= 1 + Times(out.events, NotMarked(c))
    ensures ToldOnce(c, st, Run(st, run).state, Run(st, run).events)
    decreases |run|
  {
    if run == [] {
      UntouchedToldOnce(c, st, st, []);
    } else {
      StepToldOnce(st, run[0], c);
      hide Do, ToldOnce;
      var first := Do(st, run[0]);
      NeverToldAgain(first.state, run[1..], c);
      var rest := Run(first.state, run[1..]);
      ToldOnceJoin(c, st, first.state, rest.state, first.events, rest.events);
    }
  }

  // ---- given up after the limit

  /** A turn in which nobody on the case was reached and no rate limit was met. */
  predicate InVain(t: Templates, a: Attempt) {
    var tried := TryCase(t, a);
    tried.failed && !tried.sentAny && !tried.paused
  }

  /** Whether a case is due in a pass. */
  predicate Due(s: Step, c: Case) { s.Pass? && s.i.pass == c.pass && c.row in s.i.due }

  /** If the case is due and its turn comes, nobody is reached. */
  predicate OnlyInVain(s: Step, c: Case, limit: int) {
    Due(s, c) ==>
      && s.i.limit == limit
      && forall k | 0 <= k < |s.i.due| && s.i.due[k] == c.row ::
          k < |s.i.attempts| && InVain(s.i.templates, s.i.attempts[k])
  }

  predicate Paused(i: Input, k: nat)
    requires k < |i.attempts|
  {
    TryCase(i.templates, i.attempts[k]).paused
  }

  /** The turn of a due case comes unless a rate limit ends the pass before it. */
  predicate TurnComes(s: Step, c: Case) {
    && Due(s, c) && |s.i.due| == |s.i.attempts|
    && exists k :: 0 <= k < |s.i.due| && s.i.due[k] == c.row && forall j | 0 <= j < k :: !Paused(s.i, j)
  }

  function Turns(run: seq<Step>, c: Case): nat {
    if run == [] then 0 else (if TurnComes(run[0], c) then 1 else 0) + Turns(run[1..], c)
  }

  /** A step that takes the case's counter away without its turn: the scheduler starts again, or a pass with the same
      database, table and column is made in which the case is not due. */
  predicate PassesBy(s: Step, c: Case) { s.Restart? || (s.i.pass == c.pass && c.row !in s.i.due) }

  function Tries(events: seq<Event>, c: Case): nat { Times(events, Failed(c)) + Times(events, GaveUp(c)) }

  /** Every try is counted, was one of `limit` that ended in a give-up, or was lost. */
  predicate Balance(c: Case, limit: int, lost: nat, a: State, b: State, events: seq<Event>) {
    && CountOf(b.failures, c) < limit
    && CountOf(a.failures, c) + Tries(events, c) == Times(events, GaveUp(c)) * limit + CountOf(b.failures, c) + lost
    && Times(events, Told(c)) == 0
  }

  /** Tries and give-ups keep step: every `limit` tries, one give-up. */
  predicate InStep(c: Case, limit: int, a: State, b: State, events: seq<Event>) { Balance(c, limit, 0, a, b, events) }

  lemma UntouchedInStep(c: Case, limit: int, a: State, b: State, events: seq<Event>)
    requires Untouched(c, a, b, events) && CountOf(a.failures, c) < limit
    ensures Balance(c, limit, 0, a, b, events) && Tries(events, c) == 0
  {
    TimesNone(events, Told(c));
    TimesNone(events, Failed(c));
    TimesNone(events, GaveUp(c));
  }

  lemma Distribute(a: int, b: int, limit: int)
    ensures (a + b) * limit == a * limit + b * limit
  {
  }

  lemma BalanceJoin(c: Case, limit: int, l: nat, m: nat, a: State, b: State, d: State, e: seq<Event>, f: seq<Event>)
    requires Balance(c, limit, l, a, b, e) && Balance(c, limit, m, b, d, f)
    ensures Balance(c, limit, l + m, a, d, e + f) && Tries(e + f, c) == Tries(e, c) + Tries(f, c)
  {
    TimesJoin(e, f, Told(c));
    TimesJoin(e, f, Failed(c));
    TimesJoin(e, f, GaveUp(c));
    Distribute(Times(e, GaveUp(c)), Times(f, GaveUp(c)), limit);
    hide Times, CountOf;
  }

  lemma HandleInStep(st: State, c: Case, t: Templates, a: Attempt, limit: int)
    requires InVain(t, a) && CountOf(st.failures, c) < limit
    ensures var h := Handle(st, c, t, a, limit); Balance(c, limit, 0, st, h.state, h.events) && Tries(h.events, c) == 1
  {
    var h := Handle(st, c, t, a, limit);
    var mark := if a.markable then Marked(c) else NotMarked(c);
    assert Times([mark], Told(c)) == Times([mark], Failed(c)) == Times([mark], GaveUp(c)) == 0;
    assert Times([GaveUp(c)], GaveUp(c)) == 1 && Times([GaveUp(c)], Failed(c)) == Times([GaveUp(c)], Told(c)) == 0;
    TimesJoin([GaveUp(c)], [mark], Told(c));
    TimesJoin([GaveUp(c)], [mark], Failed(c));
    TimesJoin([GaveUp(c)], [mark], GaveUp(c));
    assert Times([Failed(c)], Failed(c)) == 1 && Times([Failed(c)], GaveUp(c)) == Times([Failed(c)], Told(c)) == 0;
    if CountOf(st.failures, c) + 1 < limit {
      assert h.events == [Failed(c)];
    } else {
      assert h.events == [GaveUp(c)] + [mark];
    }
  }

  lemma HandleStops(st: State, c: Case, t: Templates, a: Attempt, limit: int)
    ensures Handle(st, c, t, a, limit).stop <==> TryCase(t, a).paused
  {
    hide TryCase;
  }

  /** Somebody else's turn. */
  lemma OtherTurn(st: State, i: Input, from: nat, c: Case)
    requires from < |i.due| == |i.attempts| && Case(i.pass, i.due[from]) != c && CountOf(st.failures, c) < i.limit
    ensures var h := Handle(st, Case(i.pass, i.due[from]), i.templates, i.attempts[from], i.limit);
            && Balance(c, i.limit, 0, st, h.state, h.events) && Tries(h.events, c) == 0
            && CountOf(h.state.failures, c) == CountOf(st.failures, c)
  {
    hide Handle, Balance, Tries, CountOf;
    HandleTouchesOne(st, Case(i.pass, i.due[from]), i.templates, i.attempts[from], i.limit, c);
    var h := Handle(st, Case(i.pass, i.due[from]), i.templates, i.attempts[from], i.limit);
    UntouchedInStep(c, i.limit, st, h.state, h.events);
  }

  lemma OtherTurns(st: State, i: Input, from: nat, c: Case)
    requires from <= |i.due| == |i.attempts| && !IsCase(i, c, from) && CountOf(st.failures, c) < i.limit
    ensures var out := Cases(st, i, from);
            Balance(c, i.limit, 0, st, out.state, out.events) && Tries(out.events, c) == 0
  {
    hide Cases, IsCase, Balance, Tries, CountOf;
    OthersUntouched(st, i, from, c);
    var out := Cases(st, i, from);
    UntouchedInStep(c, i.limit, st, out.state, out.events);
  }

  /** A due case's turn, among the turns of others. */
  lemma {:induction false} CasesInStep(st: State, i: Input, from: nat, k: nat, c: Case)
    requires |i.due| == |i.attempts| && DistinctRows(i) && from <= k < |i.due|
    requires c == Case(i.pass, i.due[k]) && InVain(i.templates, i.attempts[k]) && CountOf(st.failures, c) < i.limit
    ensures var out := Cases(st, i, from);
            && Balance(c, i.limit, 0, st, out.state, out.events)
            && Tries(out.events, c) == if forall j | from <= j < k :: !Paused(i, j) then 1 else 0
    decreases k - from
  {
    hide TryCase, Handle, Tries, Balance, CountOf, Cases;
    var d := Case(i.pass, i.due[from]);
    var h := Handle(st, d, i.templates, i.attempts[from], i.limit);
    HandleStops(st, d, i.templates, i.attempts[from], i.limit);
    CaseNext(st, i, from);
    if from == k {
      HandleInStep(st, d, i.templates, i.attempts[from], i.limit);
      OtherTurns(h.state, i, from + 1, c);
    } else {
      assert d != c;
      OtherTurn(st, i, from, c);
      if !h.stop { CasesInStep(h.state, i, from + 1, k, c); }
      assert h.stop <==> Paused(i, from);
    }
    if !h.stop {
      var rest := Cases(h.state, i, from + 1);
      BalanceJoin(c, i.limit, 0, 0, st, h.state, rest.state, h.events, rest.events);
    }
  }

  function LostIn(st: State, s: Step, c: Case): nat { if PassesBy(s, c) then CountOf(st.failures, c) else 0 }

  /** The tries whose count was taken away. */
  function Lost(st: State, run: seq<Step>, c: Case): nat
    requires CanRun(st, run)
    decreases |run|
  {
    if run == [] then 0 else LostIn(st, run[0], c) + Lost(Do(st, run[0]).state, run[1..], c)
  }

  lemma DueInStep(st: State, s: Step, c: Case, limit: int)
    requires CanDo(st, s) && Due(s, c) && OnlyInVain(s, c, limit) && CountOf(st.failures, c) < limit
    ensures var out := Do(st, s);
            Balance(c, limit, 0, st, out.state, out.events) && Tries(out.events, c) == if TurnComes(s, c) then 1 else 0
  {
    hide InVain, Cases, Tries, Paused;
    var i := s.i;
    var dropped := st.(failures := DropStale(st.failures, i.pass, i.due));
    var k :| 0 <= k < |i.due| && i.due[k] == c.row;
    assert CountOf(dropped.failures, c) == CountOf(st.failures, c);
    CasesInStep(dropped, i, 0, k, c);
    if TurnComes(s, c) {
      var m :| 0 <= m < |i.due| && i.due[m] == c.row && forall j | 0 <= j < m :: !Paused(i, j);
      assert m == k;
    }
  }

  lemma PassedBy(st: State, s: Step, c: Case, limit: int)
    requires CanDo(st, s) && PassesBy(s, c) && CountOf(st.failures, c) < limit
    ensures var out := Do(st, s);
            && Balance(c, limit, CountOf(st.failures, c), st, out.state, out.events) && Tries(out.events, c) == 0
            && CountOf(out.state.failures, c) == 0
  {
    hide RunPass, Times;
    var out := Do(st, s);
    if s.Pass? { NotDueDropped(st, s.i, c); }
    UntouchedInStep(c, limit, st.(failures := st.failures - {c}), out.state, out.events);
  }

  lemma StepBalance(st: State, s: Step, c: Case, limit: int)
    requires CanDo(st, s) && OnlyInVain(s, c, limit) && CountOf(st.failures, c) < limit
    ensures var out := Do(st, s);
            && Balance(c, limit, LostIn(st, s, c), st, out.state, out.events)
            && Tries(out.events, c) == if TurnComes(s, c) then 1 else 0
  {
    hide RunPass, Balance, Tries, OnlyInVain, Untouched, CountOf, Fits;
    if Due(s, c) {
      DueInStep(st, s, c, limit);
    } else if PassesBy(s, c) {
      PassedBy(st, s, c, limit);
    } else {
      FitsSizes(st, s.i);
      OtherPass(st, s.i, c);
      var out := Do(st, s);
      UntouchedInStep(c, limit, st, out.state, out.events);
    }
  }

  lemma FitsSizes(st: State, i: Input)
    requires Fits(st, i)
    ensures |i.due| == |i.attempts|
  {
  }

  /** However a run goes, every turn of a case that is never reached is accounted for. */
  lemma {:induction false} EveryTurnCounts(st: State, run: seq<Step>, c: Case, limit: int)
    requires CanRun(st, run) && CountOf(st.failures, c) < limit
    requires forall s | s in run :: OnlyInVain(s, c, limit)
    ensures var out := Run(st, run);
            Balance(c, limit, Lost(st, run, c), st, out.state, out.events) && Tries(out.events, c) == Turns(run, c)
    decreases |run|
  {
    hide Do, OnlyInVain, TurnComes, LostIn, Tries, CanDo;
    if run == [] {
      UntouchedInStep(c, limit, st, st, []);
    } else {
      var first := Do(st, run[0]);
      StepBalance(st, run[0], c, limit);
      EveryTurnCounts(first.state, run[1..], c, limit);
      var rest := Run(first.state, run[1..]);
      hide Balance, Turns;
      TurnsNext(run, c);
      BalanceJoin(c, limit, LostIn(st, run[0], c), Lost(first.state, run[1..], c), st, first.state, rest.state,
                  first.events, rest.events);
    }
  }

  lemma TurnsNext(run: seq<Step>, c: Case)
    requires run != []
    ensures Turns(run, c) == (if TurnComes(run[0], c) then 1 else 0) + Turns(run[1..], c)
  {
    hide TurnComes;
  }

  /** After every `limit` turns, and no others, the counter is where it started: whenever a step passes the case by,
      the turns so far, with n before them, are a multiple of the limit. */
  predicate Even(n: nat, run: seq<Step>, c: Case, limit: int)
    requires limit > 0
  {
    forall k | 0 <= k < |run| && PassesBy(run[k], c) :: (n + Turns(run[..k], c)) % limit == 0
  }

  lemma EvenNext(n: nat, run: seq<Step>, c: Case, limit: int)
    requires limit > 0 && run != []
    ensures Even(n, run, c, limit)
            <==> (PassesBy(run[0], c) ==> n % limit == 0)
                 && Even(n + (if TurnComes(run[0], c) then 1 else 0), run[1..], c, limit)
  {
    hide PassesBy, TurnComes, Turns;
    var m := n + (if TurnComes(run[0], c) then 1 else 0);
    NoTurns(run[..0], c);
    forall k | 0 < k <= |run|
      ensures n + Turns(run[..k], c) == m + Turns(run[1..][..k - 1], c)
    {
      TurnsNext(run[..k], c);
      assert run[..k][1..] == run[1..][..k - 1] && run[..k][0] == run[0];
    }
    if Even(n, run, c, limit) {
      assert PassesBy(run[0], c) ==> (n + Turns(run[..0], c)) % limit == 0;
      forall k | 0 <= k < |run[1..]| && PassesBy(run[1..][k], c) ensures (m + Turns(run[1..][..k], c)) % limit == 0 {
        assert run[1..][k] == run[k + 1];
        assert n + Turns(run[..k + 1], c) == m + Turns(run[1..][..k], c);
      }
    }
    if (PassesBy(run[0], c) ==> n % limit == 0) && Even(m, run[1..], c, limit) {
      forall k | 0 <= k < |run| && PassesBy(run[k], c) ensures (n + Turns(run[..k], c)) % limit == 0 {
        if k > 0 {
          assert run[1..][k - 1] == run[k];
          assert n + Turns(run[..k], c) == m + Turns(run[1..][..k - 1], c);
        }
      }
    }
  }

  lemma NoTurns(run: seq<Step>, c: Case)
    requires run == []
    ensures Turns(run, c) == 0
  {
  }

  lemma CountIsRest(a: nat, tries: nat, gave: nat, b: nat, limit: int, n: nat)
    requires 0 <= a < limit && b < limit && a + tries == gave * limit + b && n % limit == a
    ensures (n + tries) % limit == b
  {
    var q := n / limit;
    assert n + tries == (q + gave) * limit + b;
    RestIs(q + gave, b, limit);
  }

  lemma RestIs(q: int, b: nat, limit: int)
    requires b < limit
    ensures (q * limit + b) % limit == b
  {
    var t := q * limit + b;
    var p := t / limit;
    if p < q { Multiples(p, q, limit); }
    if q < p { Multiples(q, p, limit); }
  }

  lemma Multiples(a: int, b: int, size: int)
    requires a < b && size > 0
    ensures a * size + size <= b * size
  {
    assert b * size == (a + 1) * size + (b - a - 1) * size;
  }

  /** No try is lost exactly when the case is only passed by after whole rounds of the limit. */
  lemma {:induction false} NoneLostExactly(st: State, run: seq<Step>, c: Case, limit: int, n: nat)
    requires CanRun(st, run) && CountOf(st.failures, c) < limit && n % limit == CountOf(st.failures, c)
    requires forall s | s in run :: OnlyInVain(s, c, limit)
    ensures Lost(st, run, c) == 0 <==> Even(n, run, c, limit)
    decreases |run|
  {
    hide Do, OnlyInVain, TurnComes, PassesBy, CanDo, Even, Tries;
    if run == [] {
      NothingIsEven(n, run, c, limit);
    } else {
      var s := run[0];
      var first := Do(st, s);
      StepBalance(st, s, c, limit);
      EvenNext(n, run, c, limit);
      if LostIn(st, s, c) == 0 {
        CountIsRest(CountOf(st.failures, c), Tries(first.events, c), Times(first.events, GaveUp(c)),
                    CountOf(first.state.failures, c), limit, n);
        NoneLostExactly(first.state, run[1..], c, limit, n + if TurnComes(s, c) then 1 else 0);
      }
    }
  }

  lemma NothingIsEven(n: nat, run: seq<Step>, c: Case, limit: int)
    requires limit > 0 && run == []
    ensures Even(n, run, c, limit)
  {
  }

  /** For a case that is never reached when its turn comes, give-ups keep step with the limit exactly when it is passed
      by, if at all, only after whole rounds: between two such steps its turns are a multiple of the limit. With a
      limit of 1 they always are. */
  lemma {:induction false} GivenUpExactly(st: State, run: seq<Step>, c: Case, limit: int)
    requires CanRun(st, run) && CountOf(st.failures, c) < limit
    requires forall s | s in run :: OnlyInVain(s, c, limit)
    ensures InStep(c, limit, st, Run(st, run).state, Run(st, run).events)
            <==> Even(CountOf(st.failures, c), run, c, limit)
    ensures limit == 1 ==> InStep(c, limit, st, Run(st, run).state, Run(st, run).events)
    ensures Tries(Run(st, run).events, c) == Turns(run, c)
  {
    hide Run, OnlyInVain, Lost, PassesBy, Turns, Tries, Times, CountOf;
    EveryTurnCounts(st, run, c, limit);
    SmallRest(CountOf(st.failures, c), limit);
    NoneLostExactly(st, run, c, limit, CountOf(st.failures, c));
  }

  lemma SmallRest(n: nat, limit: int)
    requires n < limit
    ensures n % limit == n
  {
  }

  // ---- the passes of several organisations

  /** The scheduler starts again, or makes a pass for another organisation on the same database, table and column. */
  predicate Interrupts(s: Step, c: Case, org: Org) { s.Restart? || (s.i.pass == c.pass && s.i.org != org) }

  /** A case that is due in every pass of its own organisation and never reached when its turn comes is given up after
      exactly the limit of counted failures, each time, if and only if a start of the scheduler or a pass of another
      organisation on the same database, table and column comes only when its turns are a multiple of the limit. */
  lemma {:induction false} GivenUpAfterTheLimit(st: State, run: seq<Step>, owner: Case -> Org, c: Case, limit: int)
    requires CanRun(st, run) && CountOf(st.failures, c) < limit
    requires forall s | s in run && s.Pass? :: ReadsOwn(s.i, owner)
    requires forall s | s in run && s.Pass? && s.i.pass == c.pass && s.i.org == owner(c) ::
             Due(s, c) && OnlyInVain(s, c, limit)
    ensures InStep(c, limit, st, Run(st, run).state, Run(st, run).events)
            <==> forall k | 0 <= k < |run| && Interrupts(run[k], c, owner(c)) ::
                   (CountOf(st.failures, c) + Turns(run[..k], c)) % limit == 0
  {
    hide CanRun, Run, InStep, Turns, InVain, CountOf;
    forall s | s in run ensures OnlyInVain(s, c, limit) && (Interrupts(s, c, owner(c)) <==> PassesBy(s, c)) {
      OwnOrOther(s, owner, c, limit);
    }
    hide OnlyInVain, PassesBy, Interrupts, ReadsOwn, Due;
    assert forall k | 0 <= k < |run| :: run[k] in run;
    GivenUpExactly(st, run, c, limit);
  }

  lemma OwnOrOther(s: Step, owner: Case -> Org, c: Case, limit: int)
    requires s.Pass? ==> ReadsOwn(s.i, owner)
    requires s.Pass? && s.i.pass == c.pass && s.i.org == owner(c) ==> Due(s, c) && OnlyInVain(s, c, limit)
    ensures OnlyInVain(s, c, limit) && (Interrupts(s, c, owner(c)) <==> PassesBy(s, c))
  {
    hide InVain;
    if s.Pass? && s.i.pass == c.pass && c.row in s.i.due { assert owner(Case(s.i.pass, c.row)) == s.i.org; }
  }

  const EMPTY := State(map[], {})

  /** One organisation has one case and cannot look up its people; the other has none due. */
  function OneDue(limit: int): Step {
    Pass(Input("first", "cases", [1], Templates(true, true), [Attempt(LookupFailed, Reached, Reached, true)], limit))
  }

  function NoneDue(limit: int): Step { Pass(Input("second", "cases", [], Templates(true, true), [], limit)) }

  function Alternating(n: nat, limit: int): (run: seq<Step>)
    ensures |run| == 2 * n
  {
    if n == 0 then [] else [OneDue(limit), NoneDue(limit)] + Alternating(n - 1, limit)
  }

  function Repeated(e: Event, n: nat): seq<Event> { seq(n, k requires 0 <= k < n => e) }

  lemma OneRound(limit: int)
    requires limit > 1
    ensures var c := Case("cases", 1);
            && CanDo(EMPTY, OneDue(limit)) && CanDo(State(map[c := 1], {}), NoneDue(limit))
            && Do(EMPTY, OneDue(limit)) == After(State(map[c := 1], {}), [Failed(c)])
            && Do(State(map[c := 1], {}), NoneDue(limit)) == After(EMPTY, [])
  {
    var c := Case("cases", 1);
    var i := OneDue(limit).i;
    var start := State(DropStale(EMPTY.failures, i.pass, i.due), {});
    assert start == EMPTY;
    CaseNext(EMPTY, i, 0);
    CaseNext(State(map[c := 1], {}), i, 1);
    assert Handle(EMPTY, c, i.templates, i.attempts[0], limit) == Handled(State(map[c := 1], {}), [Failed(c)], false);
    assert [Failed(c)] + [] == [Failed(c)];
    var one := State(map[c := 1], {});
    assert DropStale(one.failures, "cases", []) == map[];
    CaseNext(EMPTY, NoneDue(limit).i, 0);
  }

  /** Where the two take turns, the case is due in each pass of its own organisation and never reached, and however
      long it goes on it is never given up. */
  lemma {:induction false} NeverGivenUp(n: nat, limit: int)
    requires limit > 1
    ensures CanRun(EMPTY, Alternating(n, limit))
    ensures Run(EMPTY, Alternating(n, limit)) == After(EMPTY, Repeated(Failed(Case("cases", 1)), n))
  {
    hide Do, OneDue, NoneDue, CanDo;
    if n > 0 {
      var run := Alternating(n, limit);
      OneRound(limit);
      NeverGivenUp(n - 1, limit);
      assert run[1..][0] == NoneDue(limit) && run[1..][1..] == Alternating(n - 1, limit);
      var c := Case("cases", 1);
      assert [Failed(c)] + ([] + Repeated(Failed(c), n - 1)) == Repeated(Failed(c), n);
    }
  }

  // ---- who is told

  /** With both messages, everyone of a case with a phone is told, and one phone only once. */
  lemma EachPhoneOnce(p: People)
    ensures var ts := Targets(Templates(true, true), p);
            && (Assignee in ts <==> p.assignee.Somebody? && p.assignee.phone != "")
            && (p.complainant.Somebody? && p.complainant.phone != "" ==>
                  Complainant in ts || (p.assignee == p.complainant && Assignee in ts))
            && (Assignee in ts && Complainant in ts ==> p.assignee != p.complainant)
  {
  }

  /** Whether a message goes to the complainant's phone, in either role. */
  predicate ComplainantTold(t: Templates, p: People) {
    Complainant in Targets(t, p) || (p.assignee == p.complainant && Assignee in Targets(t, p))
  }

  /** A complainant with a phone, in a pass with a message for complainants, is told exactly unless they are also the
      assignee and there is no message for assignees. */
  lemma ComplainantToldExactly(t: Templates, p: People)
    requires t.complainant && p.complainant.Somebody? && p.complainant.phone != ""
    ensures ComplainantTold(t, p) <==> !(p.assignee == p.complainant && !t.assignee)
  {
  }

  lemma {:induction false} SomethingCame(a: Attempt, targets: seq<Role>, so: Tried)
    ensures var tried := SendAll(a, targets, so);
            && (so.sentAny ==> tried.sentAny) && (so.failed ==> tried.failed) && (so.paused ==> tried.paused)
            && (if targets == [] then tried == so else tried.sentAny || tried.failed || tried.paused)
    decreases |targets|
  {
    if targets != [] {
      match SendTo(a, targets[0]) {
        case Reached => SomethingCame(a, targets[1..], so.(sentAny := true));
        case Unreached => SomethingCame(a, targets[1..], so.(failed := true));
        case Limited =>
      }
    }
  }

  /** A case is marked with nobody told and nobody given up exactly when its people are found and there is nobody
      among them to tell. */
  lemma MarkedSilentlyExactly(st: State, c: Case, t: Templates, a: Attempt, limit: int)
    ensures Handle(st, c, t, a, limit).events == [Marked(c)]
            <==> a.markable && a.people.Found? && Targets(t, a.people.people) == []
  {
    if a.people.Found? { SomethingCame(a, Targets(t, a.people.people), Tried(false, false, false)); }
    hide SendAll, Targets;
    var h := Handle(st, c, t, a, limit);
    if |h.events| == 1 {
      assert h.events[0] == Failed(c) || h.events[0] == if a.markable then Marked(c) else NotMarked(c);
      assert h.events == [h.events[0]];
    }
  }

  /** A case whose complainant is its assignee, with the complainant's message: it is marked either way, and with
      nobody told exactly when the pass has no message for assignees. */
  lemma SelfAssignedExactly(st: State, c: Case, t: Templates, a: Attempt, phone: string, limit: int)
    requires t.complainant && phone != "" && a.people == Found(People(Somebody(phone), Somebody(phone)))
    requires a.toAssignee == Reached && a.markable
    ensures var h := Handle(st, c, t, a, limit);
            && c in h.state.marked && !h.stop
            && h.events == if t.assignee then [Told(c), Marked(c)] else [Marked(c)]
  {
    var targets := Targets(t, a.people.people);
    assert targets == if t.assignee then [Assignee] else [];
    assert [Assignee][1..] == [];
    assert TryCase(t, a) == Tried(t.assignee, false, false);
  }

  // ---- what the sends come to

  /** Somebody among those before the first rate limit, or among all when there is none. */
  ghost predicate Met(a: Attempt, targets: seq<Role>, s: Send) {
    exists k :: MetAt(a, targets, s, k)
  }

  lemma MetFirst(a: Attempt, targets: seq<Role>, s: Send)
    requires targets != []
    ensures Met(a, targets, s)
            <==> SendTo(a, targets[0]) == s || (SendTo(a, targets[0]) != Limited && Met(a, targets[1..], s))
  {
    if Met(a, targets, s) { MetLater(a, targets, s); }
    if SendTo(a, targets[0]) == s { assert MetAt(a, targets, s, 0); }
    if SendTo(a, targets[0]) != Limited && Met(a, targets[1..], s) {
      var k :| MetAt(a, targets[1..], s, k);
      MetShift(a, targets, s, k);
      assert MetAt(a, targets, s, k + 1);
    }
  }

  predicate MetAt(a: Attempt, targets: seq<Role>, s: Send, k: int) {
    0 <= k < |targets| && SendTo(a, targets[k]) == s && forall j | 0 <= j < k :: SendTo(a, targets[j]) != Limited
  }

  lemma MetShift(a: Attempt, targets: seq<Role>, s: Send, k: int)
    requires targets != [] && k >= 0
    ensures MetAt(a, targets, s, k + 1) <==> SendTo(a, targets[0]) != Limited && MetAt(a, targets[1..], s, k)
  {
    var more := targets[1..];
    assert forall j | 0 <= j < |more| :: more[j] == targets[j + 1];
    if SendTo(a, targets[0]) != Limited && MetAt(a, more, s, k) {
      forall j | 0 <= j < k + 1 ensures SendTo(a, targets[j]) != Limited {
        if j > 0 { assert more[j - 1] == targets[j]; }
      }
    }
  }

  lemma MetLater(a: Attempt, targets: seq<Role>, s: Send)
    requires targets != [] && Met(a, targets, s)
    ensures SendTo(a, targets[0]) == s || (SendTo(a, targets[0]) != Limited && Met(a, targets[1..], s))
  {
    var k :| MetAt(a, targets, s, k);
    if k > 0 {
      MetShift(a, targets, s, k - 1);
      assert MetAt(a, targets[1..], s, k - 1);
    }
  }

  lemma {:induction false} SendAllIs(a: Attempt, targets: seq<Role>, so: Tried)
    ensures var tried := SendAll(a, targets, so);
            && (tried.sentAny <==> so.sentAny || Met(a, targets, Reached))
            && (tried.failed <==> so.failed || Met(a, targets, Unreached))
            && (tried.paused <==> so.paused || Met(a, targets, Limited))
    decreases |targets|
  {
    hide Met;
    if targets == [] {
      NobodyMet(a, targets);
    } else {
      MetFirst(a, targets, Reached);
      MetFirst(a, targets, Unreached);
      MetFirst(a, targets, Limited);
      match SendTo(a, targets[0]) {
        case Reached => SendAllIs(a, targets[1..], so.(sentAny := true));
        case Unreached => SendAllIs(a, targets[1..], so.(failed := true));
        case Limited =>
      }
    }
  }

  lemma NobodyMet(a: Attempt, targets: seq<Role>)
    requires targets == []
    ensures forall s :: !Met(a, targets, s)
  {
  }

  /** A case's turn tells somebody exactly when a send reaches somebody before any rate limit; it fails exactly when the
      people cannot be looked up or a send fails before any; and it is paused exactly when a rate limit is met. */
  lemma TurnExactly(t: Templates, a: Attempt)
    ensures var tried := TryCase(t, a);
            match a.people
            case LookupFailed => tried == Tried(false, true, false)
            case Found(people) =>
              var targets := Targets(t, people);
              && (tried.sentAny <==> Met(a, targets, Reached))
              && (tried.failed <==> Met(a, targets, Unreached))
              && (tried.paused <==> Met(a, targets, Limited))
  {
    hide Met;
    if a.people.Found? { SendAllIs(a, Targets(t, a.people.people), Tried(false, false, false)); }
  }

  /** A due case whose turn comes is told exactly when its turn tells somebody, and marked, if it can be, unless nobody
      was told and it is to be tried again. */
  lemma HandledExactly(st: State, c: Case, t: Templates, a: Attempt, limit: int)
    ensures var h := Handle(st, c, t, a, limit); var tried := TryCase(t, a);
            var again := !tried.sentAny && (tried.paused || (tried.failed && CountOf(st.failures, c) + 1 < limit));
            && (Told(c) in h.events <==> tried.sentAny)
            && (h.state.marked == if !again && a.markable then st.marked + {c} else st.marked)
            && (Failed(c) in h.events <==> again && !tried.paused)
            && (h.stop <==> tried.paused)
  {
    hide TryCase;
  }
}
