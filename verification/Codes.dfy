// Emailed codes in app/admin_panel/auth.py: a code can be guessed at only a few times, and codes come a minute apart.
module Codes {

  type Time = real
  type Hash = string

  const TRIES := 5
  const WAIT: Time := 60.0
  const LIFE: Time := 600.0
  const DAY: Time := 86400.0

  /** The one row there is for an account and a kind of code; asking for a code replaces it. */
  datatype Row = Row(hash: Hash, created: Time, expires: Time, tries: nat, used: bool)
  datatype Slot = NoRow | HasRow(row: Row)

  datatype Verdict = Right | Wrong | Expired | Missing | TooMany

  /** Seconds still to wait, rounded to the nearest whole number with halves up, as the database rounds. */
  function Wait(slot: Slot, now: Time): int {
    if slot.NoRow? then 0
    else
      var left := WAIT - (now - slot.row.created);
      if left <= 0.0 then 0 else (left + 0.5).Floor
  }

  function Issue(slot: Slot, hash: Hash, now: Time): (out: (Slot, bool)) {
    if Wait(slot, now) != 0 then (slot, false) else (HasRow(Row(hash, now, now + LIFE, 0, false)), true)
  }

  function Check(slot: Slot, hash: Hash, consume: bool, now: Time): (Slot, Verdict) {
    if slot.NoRow? || slot.row.used then (slot, Missing)
    else if slot.row.expires <= now then (slot, Expired)
    else if slot.row.tries >= TRIES then (slot, TooMany)
    else if slot.row.hash == hash then (if consume then HasRow(slot.row.(used := true)) else slot, Right)
    else (HasRow(slot.row.(tries := slot.row.tries + 1)), Wrong)
  }

  /** The nightly tidying takes rows that ended more than a day ago. */
  function Tidied(slot: Slot, now: Time): Slot {
    if slot.HasRow? && slot.row.expires < now - DAY then NoRow else slot
  }

  class CodeTable {
    var slot: Slot

    method IssueCode(hash: Hash, now: Time) returns (issued: bool)
      modifies this
      ensures (slot, issued) == Issue(old(slot), hash, now)
    {
      var wait := Wait(slot, now);
      if wait != 0 { return false; }
      slot := NoRow;
      slot := HasRow(Row(hash, now, now + LIFE, 0, false));
      return true;
    }

    method CheckCode(hash: Hash, consume: bool, now: Time) returns (verdict: Verdict)
      modifies this
      ensures (slot, verdict) == Check(old(slot), hash, consume, now)
    {
      if slot.NoRow? || slot.row.used { return Missing; }
      if slot.row.expires <= now { return Expired; }
      if slot.row.tries >= TRIES { return TooMany; }
      if slot.row.hash == hash {
        if consume { slot := HasRow(slot.row.(used := true)); }
        return Right;
      }
      slot := HasRow(slot.row.(tries := slot.row.tries + 1));
      return Wrong;
    }
  }

  // ---- runs

  datatype Action = Ask(hash: Hash) | Guess(hash: Hash, consume: bool) | Tidy
  datatype Step = Step(action: Action, at: Time)

  function Next(slot: Slot, s: Step): Slot {
    match s.action
    case Ask(hash) => Issue(slot, hash, s.at).0
    case Guess(hash, consume) => Check(slot, hash, consume, s.at).0
    case Tidy => Tidied(slot, s.at)
  }

  function Run(slot: Slot, run: seq<Step>): Slot
    decreases |run|
  {
    if run == [] then slot else Run(Next(slot, run[0]), run[1..])
  }

  predicate From(now: Time, run: seq<Step>)
    decreases |run|
  {
    run == [] || (now <= run[0].at && From(run[0].at, run[1..]))
  }

  predicate Issues(slot: Slot, s: Step) { s.action.Ask? && Issue(slot, s.action.hash, s.at).1 }

  function VerdictOf(slot: Slot, s: Step): Verdict
    requires s.action.Guess?
  {
    Check(slot, s.action.hash, s.action.consume, s.at).1
  }

  /** Guesses answered wrong, and codes used up, up to the next code issued. */
  function WrongGuesses(slot: Slot, run: seq<Step>): nat
    decreases |run|
  {
    if run == [] || Issues(slot, run[0]) then 0
    else (if run[0].action.Guess? && VerdictOf(slot, run[0]) == Wrong then 1 else 0)
         + WrongGuesses(Next(slot, run[0]), run[1..])
  }

  function UsedUp(slot: Slot, run: seq<Step>): nat
    decreases |run|
  {
    if run == [] || Issues(slot, run[0]) then 0
    else (if run[0].action.Guess? && run[0].action.consume && VerdictOf(slot, run[0]) == Right then 1 else 0)
         + UsedUp(Next(slot, run[0]), run[1..])
  }

  function Left(slot: Slot): nat { if slot.NoRow? || slot.row.tries >= TRIES then 0 else TRIES - slot.row.tries }

  /** Until another code is issued, a code is answered wrong at most TRIES times and used up at most once. */
  lemma {:induction false} FewGuessesPerCode(slot: Slot, run: seq<Step>)
    ensures WrongGuesses(slot, run) <= Left(slot)
    ensures UsedUp(slot, run) <= if slot.HasRow? && !slot.row.used then 1 else 0
    decreases |run|
  {
    if run != [] && !Issues(slot, run[0]) {
      FewGuessesPerCode(Next(slot, run[0]), run[1..]);
    }
  }

  /** No code is issued in a run. */
  predicate NoneIssued(slot: Slot, run: seq<Step>)
    decreases |run|
  {
    run == [] || (!Issues(slot, run[0]) && NoneIssued(Next(slot, run[0]), run[1..]))
  }

  predicate Before(run: seq<Step>, now: Time) { forall k | 0 <= k < |run| :: run[k].at <= now }

  lemma {:induction false} GoneStaysGone(run: seq<Step>)
    requires NoneIssued(NoRow, run)
    ensures Run(NoRow, run) == NoRow
    decreases |run|
  {
    if run != [] { GoneStaysGone(run[1..]); }
  }

  /** From a row on, with no new code issued, whatever is guessed and tidied in between. */
  lemma {:induction false} RightFrom(row: Row, since: seq<Step>, hash: Hash, now: Time)
    requires NoneIssued(HasRow(row), since) && Before(since, now)
    ensures Check(Run(HasRow(row), since), hash, true, now).1 == Right
            <==> hash == row.hash && now < row.expires && !row.used && UsedUp(HasRow(row), since) == 0
                 && row.tries + WrongGuesses(HasRow(row), since) < TRIES
    decreases |since|
  {
    if since != [] {
      var next := Next(HasRow(row), since[0]);
      assert since[0].at <= now;
      match next {
        case NoRow => GoneStaysGone(since[1..]);
        case HasRow(after) =>
          RightFrom(after, since[1..], hash, now);
          FewGuessesPerCode(next, since[1..]);
      }
    }
  }

  /** Since a code was issued, a guess is right exactly when it is that code, less than ten minutes later, after
      fewer than five wrong guesses, and before it was used up. */
  lemma RightExactly(slot: Slot, asked: Step, since: seq<Step>, hash: Hash, now: Time)
    requires Issues(slot, asked) && NoneIssued(Next(slot, asked), since) && Before(since, now)
    ensures var issued := Next(slot, asked);
            Check(Run(issued, since), hash, true, now).1 == Right
            <==> hash == asked.action.hash && now < asked.at + LIFE
                 && WrongGuesses(issued, since) < TRIES && UsedUp(issued, since) == 0
  {
    RightFrom(Next(slot, asked).row, since, hash, now);
  }

  /** When the last code was made, if one ever was. */
  datatype Made = Never | Last(at: Time)

  /** The times at which codes were issued. */
  function IssuedAt(slot: Slot, run: seq<Step>): seq<Time>
    decreases |run|
  {
    if run == [] then []
    else (if Issues(slot, run[0]) then [run[0].at] else []) + IssuedAt(Next(slot, run[0]), run[1..])
  }

  predicate Consistent(slot: Slot, made: Made, now: Time) {
    && (slot.HasRow? ==> made == Last(slot.row.created) && slot.row.expires == slot.row.created + LIFE)
    && (slot.NoRow? && made.Last? ==> made.at + LIFE + DAY < now)
  }

  predicate Spaced(made: Made, times: seq<Time>) {
    && (made.Last? && times != [] ==> times[0] - made.at > WAIT - 0.5)
    && forall i, j | 0 <= i && j == i + 1 < |times| :: times[j] - times[i] > WAIT - 0.5
  }

  lemma SpacedMore(made: Made, at: Time, times: seq<Time>)
    requires (made.Last? ==> at - made.at > WAIT - 0.5) && Spaced(Last(at), times)
    ensures Spaced(made, [at] + times)
  {
    var all := [at] + times;
    forall i, j | 0 <= i && j == i + 1 < |all| ensures all[j] - all[i] > WAIT - 0.5 {
      assert all[j] == times[i];
      if i > 0 { assert all[i] == times[i - 1]; }
    }
  }

  lemma IssueWaits(slot: Slot, s: Step, made: Made, now: Time)
    requires Consistent(slot, made, now) && now <= s.at && Issues(slot, s)
    ensures made.Last? ==> s.at - made.at > WAIT - 0.5
    ensures Consistent(Next(slot, s), Last(s.at), s.at)
  {
  }

  lemma OtherConsistent(slot: Slot, s: Step, made: Made, now: Time)
    requires Consistent(slot, made, now) && now <= s.at && !Issues(slot, s)
    ensures Consistent(Next(slot, s), made, s.at)
  {
  }

  /** Two codes for the same person are more than 59.5 seconds apart, also when the table is tidied in between. */
  lemma {:induction false} CodesAreApart(slot: Slot, run: seq<Step>, made: Made, now: Time)
    requires Consistent(slot, made, now) && From(now, run)
    ensures Spaced(made, IssuedAt(slot, run))
    decreases |run|
  {
    hide Consistent, Issues, Next, Spaced;
    if run == [] {
      SpacedNone(made);
    } else {
      var s := run[0];
      var next := Next(slot, s);
      if Issues(slot, s) {
        IssueWaits(slot, s, made, now);
        CodesAreApart(next, run[1..], Last(s.at), s.at);
        SpacedMore(made, s.at, IssuedAt(next, run[1..]));
      } else {
        OtherConsistent(slot, s, made, now);
        CodesAreApart(next, run[1..], made, s.at);
        assert [] + IssuedAt(next, run[1..]) == IssuedAt(next, run[1..]);
      }
    }
  }

  lemma SpacedNone(made: Made)
    ensures Spaced(made, [])
  {
  }

  /** Tidying changes an answer exactly for a code that was not used and ended more than a day before: then "expired"
      becomes "missing". It never shortens a wait. */
  lemma TidySoftens(slot: Slot, hash: Hash, consume: bool, now: Time, later: Time)
    requires now <= later
    ensures var before, after := Check(slot, hash, consume, later).1, Check(Tidied(slot, now), hash, consume, later).1;
            && (after != before <==> slot.HasRow? && !slot.row.used && slot.row.expires < now - DAY)
            && (after != before ==> before == Expired && after == Missing)
    ensures slot.HasRow? && slot.row.expires == slot.row.created + LIFE
            ==> Wait(Tidied(slot, now), later) == Wait(slot, later)
  {
  }

  /** A code asked for at 0 and guessed at after two days: whether the night came in between shows. */
  lemma TidyShows(hash: Hash)
    ensures var slot := Issue(NoRow, hash, 0.0).0; var later := 2.0 * DAY;
            && Check(slot, hash, true, later).1 == Expired
            && Check(Tidied(slot, later), hash, true, later).1 == Missing
  {
  }

  // ---- every answer

  /** A code is issued exactly when none is there or the last is more than 59.5 seconds old, as the wait rounds. */
  lemma IssuedExactly(slot: Slot, hash: Hash, now: Time)
    ensures Issue(slot, hash, now).1 <==> slot.NoRow? || now - slot.row.created > 59.5
    ensures Issue(slot, hash, now).1 ==> Issue(slot, hash, now).0 == HasRow(Row(hash, now, now + LIFE, 0, false))
    ensures !Issue(slot, hash, now).1 ==> Issue(slot, hash, now).0 == slot
  {
    if slot.HasRow? {
      var left := WAIT - (now - slot.row.created);
      if left > 0.0 { RoundsUp(left); }
    }
  }

  lemma RoundsUp(left: real)
    requires left > 0.0
    ensures (left + 0.5).Floor == 0 <==> left < 0.5
  {
  }

  /** Nothing but its own use and tidying takes a code's row away: over a run with no other code issued, the row is the
      one made, with a try more for each wrong guess, or it is gone. */
  lemma {:induction false} RowAfter(row: Row, since: seq<Step>, now: Time)
    requires NoneIssued(HasRow(row), since) && Before(since, now)
    ensures var end := Run(HasRow(row), since);
            end.HasRow? ==> end.row == row.(tries := row.tries + WrongGuesses(HasRow(row), since),
                                            used := row.used || UsedUp(HasRow(row), since) > 0)
    ensures Run(HasRow(row), since).NoRow? ==> row.expires <= now
    decreases |since|
  {
    if since != [] {
      var next := Next(HasRow(row), since[0]);
      if next.HasRow? { RowAfter(next.row, since[1..], now); } else { GoneStaysGone(since[1..]); }
    }
  }

  /** Since a code was issued, a guess is answered "missing" only when it was used or its time is over, "expired" only
      when its time is over, "too many" exactly for a code in its time, not used, after five wrong guesses, and "wrong"
      exactly for another code in its time, not used, after fewer. */
  lemma VerdictExactly(slot: Slot, asked: Step, since: seq<Step>, hash: Hash, now: Time)
    requires Issues(slot, asked) && NoneIssued(Next(slot, asked), since) && Before(since, now)
    ensures var issued := Next(slot, asked); var verdict := Check(Run(issued, since), hash, true, now).1;
            var end := asked.at + 600.0; var used, wrong := UsedUp(issued, since) > 0, WrongGuesses(issued, since);
            && (verdict == Missing ==> used || now >= end)
            && (verdict == Expired ==> now >= end)
            && (verdict == TooMany <==> now < end && !used && wrong >= 5)
            && (verdict == Wrong <==> now < end && !used && wrong < 5 && hash != asked.action.hash)
            && (now >= end ==> verdict in {Missing, Expired})
            && (now < end && used ==> verdict == Missing)
  {
    RowAfter(Next(slot, asked).row, since, now);
  }
}
