// Wrong passwords in app/admin_panel/auth_routes.py and app/admin_panel/auth.py: a sign-in first looks whether the
// account is locked, then checks the password, and only then, in a transaction of its own, counts what came of it.
// Any number of sign-ins may be between their look and their count.
module Lockout {

  /** Seconds on a clock that never goes back. */
  type Time = real

  /** One sign-in request. */
  type Id = nat

  const WRONG_TRIES := 5
  const LOCK: Time := 900.0

  datatype Moment = Open | Until(at: Time)

  /** The columns of an account that count wrong tries. */
  datatype Lock = Lock(tries: nat, until: Moment)

  predicate Locked(l: Lock, now: Time) { l.until.Until? && l.until.at > now }

  /** A failure is counted whether the account is locked or not, and takes a lock away unless it makes one. */
  function Failed(l: Lock, now: Time): Lock {
    if l.tries + 1 >= WRONG_TRIES then Lock(0, Until(now + LOCK)) else Lock(l.tries + 1, Open)
  }

  /** The account, and the sign-ins that found it open and are checking their password. */
  datatype State = State(lock: Lock, hand: set<Id>)

  datatype Action = Look(id: Id) | Count(id: Id, right: bool) | NewPassword
  datatype Step = Step(action: Action, at: Time)

  function Next(st: State, s: Step): State {
    match s.action
    case Look(id) => if Locked(st.lock, s.at) then st else st.(hand := st.hand + {id})
    case Count(id, right) =>
      if id !in st.hand then st
      else State(if right then Lock(0, Open) else Failed(st.lock, s.at), st.hand - {id})
    case NewPassword => st.(lock := Lock(0, Open))
  }

  class Account {
    var tries: nat
    var until: Moment
    ghost var hand: set<Id>

    ghost function Whole(): State
      reads this
    {
      State(Lock(tries, until), hand)
    }

    /** The row as a sign-in first reads it. */
    method LookAt(id: Id, now: Time) returns (refused: bool)
      modifies this`hand
      ensures Whole() == Next(old(Whole()), Step(Look(id), now))
      ensures refused == Locked(old(Whole()).lock, now)
    {
      refused := until.Until? && until.at > now;
      hand := if refused then hand else hand + {id};
    }

    method RegisterFailure(id: Id, now: Time) returns (locked: bool)
      requires id in hand
      modifies this
      ensures Whole() == Next(old(Whole()), Step(Count(id, false), now))
      ensures locked == Locked(Whole().lock, now)
    {
      hand := hand - {id};
      tries := tries + 1;
      locked := tries >= WRONG_TRIES;
      if locked { tries, until := 0, Until(now + LOCK); } else { until := Open; }
    }

    method NoteSignedIn(id: Id, now: Time)
      requires id in hand
      modifies this
      ensures Whole() == Next(old(Whole()), Step(Count(id, true), now))
    {
      hand := hand - {id};
      tries, until := 0, Open;
    }
  }

  // ---- runs

  predicate From(now: Time, run: seq<Step>)
    decreases |run|
  {
    run == [] || (now <= run[0].at && From(run[0].at, run[1..]))
  }

  /** A wrong password is counted. */
  predicate Fails(st: State, s: Step) { s.action.Count? && !s.action.right && s.action.id in st.hand }

  /** A failure that locks the account. */
  predicate Locks(st: State, s: Step) { Fails(st, s) && st.lock.tries + 1 >= WRONG_TRIES }

  /** The count starts again: the right password, or a new one. */
  predicate Clears(st: State, s: Step) {
    s.action.NewPassword? || (s.action.Count? && s.action.right && s.action.id in st.hand)
  }

  /** What was: the last failure that locked the account, if the count did not start again since, and the sign-ins
      that had looked before it. */
  datatype Past = Past(locking: Moment, early: set<Id>)

  function Later(p: Past, st: State, s: Step): Past {
    if Clears(st, s) then Past(Open, {})
    else if Locks(st, s) then Past(Until(s.at), st.hand - {s.action.id})
    else if s.action.Look? && !Locked(st.lock, s.at) then p.(early := p.early - {s.action.id})
    else p
  }

  predicate WithinLock(p: Past, now: Time) { p.locking.Until? && now < p.locking.at + 900.0 }

  /** The promise: once a failure has locked the account, no wrong password is counted for fifteen minutes. */
  predicate KeptLocked(st: State, p: Past, run: seq<Step>)
    decreases |run|
  {
    run == []
    || (!(Fails(st, run[0]) && WithinLock(p, run[0].at))
        && KeptLocked(Next(st, run[0]), Later(p, st, run[0]), run[1..]))
  }

  /** No sign-in that looked before the account was locked is counted as a failure within the lock. */
  predicate NoneLate(st: State, p: Past, run: seq<Step>)
    decreases |run|
  {
    run == []
    || (!(Fails(st, run[0]) && WithinLock(p, run[0].at) && run[0].action.id in p.early)
        && NoneLate(Next(st, run[0]), Later(p, st, run[0]), run[1..]))
  }

  /** How the columns follow from what was. */
  predicate Tied(st: State, p: Past, now: Time) {
    && (p.locking.Open? ==> st.lock.until.Open?)
    && (WithinLock(p, now) ==> st.lock.until == Until(p.locking.at + LOCK) && st.hand <= p.early)
  }

  lemma StepTied(st: State, p: Past, s: Step, now: Time)
    requires Tied(st, p, now) && now <= s.at && !(Fails(st, s) && WithinLock(p, s.at))
    ensures Tied(Next(st, s), Later(p, st, s), s.at)
  {
  }

  /** The promise is kept exactly when no such late failure is counted. */
  lemma {:induction false} LockHoldsExactly(st: State, p: Past, run: seq<Step>, now: Time)
    requires Tied(st, p, now) && From(now, run)
    ensures KeptLocked(st, p, run) <==> NoneLate(st, p, run)
    decreases |run|
  {
    if run != [] {
      var s := run[0];
      if !(Fails(st, s) && WithinLock(p, s.at)) {
        StepTied(st, p, s, now);
        LockHoldsExactly(Next(st, s), Later(p, st, s), run[1..], s.at);
      }
    }
  }

  const NOTHING := Past(Open, {})

  // ---- how fast passwords can be tried

  /** The times of the failures counted, up to where the count starts again. */
  function FailedAt(st: State, run: seq<Step>): seq<Time>
    decreases |run|
  {
    if run == [] || Clears(st, run[0]) then []
    else (if Fails(st, run[0]) then [run[0].at] else []) + FailedAt(Next(st, run[0]), run[1..])
  }

  predicate NotBefore(now: Time, w: seq<Time>) { forall i | 0 <= i < |w| :: now <= w[i] }

  lemma {:induction false} FailedNotBefore(st: State, run: seq<Step>, now: Time)
    requires From(now, run)
    ensures NotBefore(now, FailedAt(st, run))
    decreases |run|
  {
    if run != [] { FailedNotBefore(Next(st, run[0]), run[1..], run[0].at); }
  }

  /** While the lock is kept, the next failure comes when it is over. */
  lemma {:induction false} FailedAfterLock(st: State, p: Past, run: seq<Step>, now: Time)
    requires From(now, run) && KeptLocked(st, p, run) && p.locking.Until?
    ensures NotBefore(p.locking.at + LOCK, FailedAt(st, run))
    decreases |run|
  {
    if run != [] && !Clears(st, run[0]) {
      if Fails(st, run[0]) {
        FailedNotBefore(Next(st, run[0]), run[1..], run[0].at);
      } else {
        FailedAfterLock(Next(st, run[0]), Later(p, st, run[0]), run[1..], run[0].at);
      }
    }
  }

  /** Of any WRONG_TRIES + 1 in a row the last comes at least LOCK after the first, with some counted before. */
  ghost predicate Spaced(tries: nat, w: seq<Time>) {
    && (forall i, j | 0 <= i && j == i + WRONG_TRIES && j < |w| :: w[j] - w[i] >= LOCK)
    && (forall j | 0 <= j && WRONG_TRIES - tries <= j < |w| :: w[j] - w[0] >= LOCK)
  }

  lemma SpacedMore(tries: nat, at: Time, w: seq<Time>)
    requires tries < WRONG_TRIES && NotBefore(at, w)
    requires if tries + 1 >= WRONG_TRIES then Spaced(0, w) && NotBefore(at + LOCK, w) else Spaced(tries + 1, w)
    ensures Spaced(tries, [at] + w)
  {
    var all := [at] + w;
    assert forall k | 0 < k < |all| :: all[k] == w[k - 1];
    forall j | 0 <= j && WRONG_TRIES - tries <= j < |all| ensures all[j] - all[0] >= LOCK {
      assert all[j] == w[j - 1];
      if tries + 1 < WRONG_TRIES { assert w[j - 1] - w[0] >= LOCK; }
    }
    forall i, j | 0 <= i && j == i + WRONG_TRIES && j < |all| ensures all[j] - all[i] >= LOCK {
      if i > 0 { assert all[j] == w[j - 1] && all[i] == w[i - 1]; }
    }
  }

  /** With no late failure, of any six wrong passwords in a row the last comes at least fifteen minutes after the
      first. */
  lemma {:induction false} GuessesAreSpaced(st: State, p: Past, run: seq<Step>, now: Time)
    requires From(now, run) && st.lock.tries < WRONG_TRIES && KeptLocked(st, p, run)
    ensures Spaced(st.lock.tries, FailedAt(st, run))
    decreases |run|
  {
    if run != [] && !Clears(st, run[0]) {
      var s := run[0];
      var next, rest := Next(st, s), FailedAt(Next(st, s), run[1..]);
      GuessesAreSpaced(next, Later(p, st, s), run[1..], s.at);
      if Fails(st, s) {
        FailedNotBefore(next, run[1..], s.at);
        if Locks(st, s) { FailedAfterLock(next, Later(p, st, s), run[1..], s.at); }
        SpacedMore(st.lock.tries, s.at, rest);
      } else {
        assert [] + rest == rest;
      }
    }
  }

  /** From an account with a clean count: no late failure, and so spaced. */
  lemma SpacedFromClean(run: seq<Step>, now: Time)
    requires From(now, run) && NoneLate(State(Lock(0, Open), {}), NOTHING, run)
    ensures Spaced(0, FailedAt(State(Lock(0, Open), {}), run))
  {
    var st := State(Lock(0, Open), {});
    LockHoldsExactly(st, NOTHING, run, now);
    GuessesAreSpaced(st, NOTHING, run, now);
  }

  // ---- one sign-in at a time, and six at once

  /** Nobody looks while another sign-in is between its look and its count. */
  predicate OneAtATime(st: State, run: seq<Step>)
    decreases |run|
  {
    run == [] || ((run[0].action.Look? ==> st.hand <= {run[0].action.id}) && OneAtATime(Next(st, run[0]), run[1..]))
  }

  lemma {:induction false} OneAtATimeIsEnough(st: State, p: Past, run: seq<Step>)
    requires OneAtATime(st, run) && p.early == {} && |st.hand| <= 1
    ensures NoneLate(st, p, run)
    decreases |run|
  {
    if run != [] {
      var s := run[0];
      var next := Next(st, s);
      if s.action.Look? {
        assert st.hand + {s.action.id} == {s.action.id};
      } else if s.action.Count? && s.action.id in st.hand {
        OneLess(st.hand, s.action.id);
      }
      OneAtATimeIsEnough(next, Later(p, st, s), run[1..]);
    }
  }

  lemma OneLess(hand: set<Id>, id: Id)
    requires id in hand && |hand| <= 1
    ensures hand - {id} == {}
  {
    assert |hand - {id}| == |hand| - 1;
  }

  /** Sign-ins i to n - 1 look at once, and then they are counted wrong at once. */
  function Looks(i: nat, n: nat): seq<Step>
    requires i <= n
    decreases n - i
  {
    if i == n then [] else [Step(Look(i), 0.0)] + Looks(i + 1, n)
  }

  function Counts(i: nat, n: nat): seq<Step>
    requires i <= n
    decreases n - i
  {
    if i == n then [] else [Step(Count(i, false), 0.0)] + Counts(i + 1, n)
  }

  function Ids(i: nat, n: nat): set<Id>
    decreases if i < n then n - i else 0
  {
    if i < n then {i} + Ids(i + 1, n) else {}
  }

  lemma {:induction false} IdsAre(i: nat, n: nat)
    ensures forall k :: k in Ids(i, n) <==> i <= k < n
    decreases if i < n then n - i else 0
  {
    if i < n { IdsAre(i + 1, n); }
  }

  function Zeros(n: nat): seq<Time> { seq(n, k => 0.0) }

  function After(st: State, run: seq<Step>): State
    decreases |run|
  {
    if run == [] then st else After(Next(st, run[0]), run[1..])
  }

  lemma {:induction false} LooksTogether(l: Lock, i: nat, n: nat, rest: seq<Step>)
    requires i <= n && !Locked(l, 0.0)
    ensures FailedAt(State(l, Ids(0, i)), Looks(i, n) + rest) == FailedAt(State(l, Ids(0, n)), rest)
    ensures After(State(l, Ids(0, i)), Looks(i, n) + rest) == After(State(l, Ids(0, n)), rest)
    decreases n - i
  {
    if i == n {
      assert Looks(i, n) + rest == rest;
    } else {
      var run := Looks(i, n) + rest;
      assert run[0] == Step(Look(i), 0.0) && run[1..] == Looks(i + 1, n) + rest;
      IdsAre(0, i);
      IdsAre(0, i + 1);
      assert Ids(0, i) + {i} == Ids(0, i + 1);
      LooksTogether(l, i + 1, n, rest);
      assert [] + FailedAt(State(l, Ids(0, i + 1)), run[1..]) == FailedAt(State(l, Ids(0, i + 1)), run[1..]);
    }
  }

  /** The columns after some failures counted at 0, from a clean count. */
  function LockAfter(k: nat): Lock {
    Lock(k % WRONG_TRIES, if k > 0 && k % WRONG_TRIES == 0 then Until(LOCK) else Open)
  }

  lemma FailedOnce(k: nat)
    ensures Failed(LockAfter(k), 0.0) == LockAfter(k + 1)
  {
  }

  lemma {:induction false} CountsTogether(i: nat, n: nat)
    requires i <= n
    ensures FailedAt(State(LockAfter(i), Ids(i, n)), Counts(i, n)) == Zeros(n - i)
    ensures After(State(LockAfter(i), Ids(i, n)), Counts(i, n)) == State(LockAfter(n), {})
    decreases n - i
  {
    hide LockAfter, Failed;
    if i == n {
      assert Ids(i, n) == {};
    } else {
      var run := Counts(i, n);
      assert run[0] == Step(Count(i, false), 0.0) && run[1..] == Counts(i + 1, n);
      IdsAre(i + 1, n);
      assert Ids(i, n) - {i} == Ids(i + 1, n);
      FailedOnce(i);
      CountsTogether(i + 1, n);
      assert [0.0] + Zeros(n - i - 1) == Zeros(n - i);
    }
  }

  /** Any number of wrong passwords can be counted at one moment, when they are sent together; and after six the
      account that the fifth locked is open. */
  lemma AllAtOnce(n: nat)
    ensures var st := State(Lock(0, Open), {}); var run := Looks(0, n) + Counts(0, n);
            FailedAt(st, run) == Zeros(n) && After(st, run).lock == LockAfter(n)
    ensures LockAfter(6) == Lock(1, Open) && !Spaced(0, Zeros(6))
  {
    assert Ids(0, 0) == {};
    LooksTogether(Lock(0, Open), 0, n, Counts(0, n));
    CountsTogether(0, n);
    assert Zeros(6)[5] - Zeros(6)[0] < LOCK;
  }
}
