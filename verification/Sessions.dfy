// Signed-in sessions of app/admin_panel/auth.py: when each was last used is written only now and then, a session
// ends when it is too old or too long unused, and the nightly tidying removes the ones that ended.
module Sessions {

  type Token = string
  type AccountId = int

  /** Seconds on a clock that never goes back. */
  type Time = real

  const TOUCH: Time := 60.0
  const DAY: Time := 86400.0
  const LIFE: Time := 7.0 * DAY

  datatype Level = Admin | Super

  function IdleLimit(level: Level): Time { if level == Admin then 12.0 * 3600.0 else 4.0 * 3600.0 }

  datatype Session = Session(account: AccountId, expires: Time, lastUsed: Time)

  datatype Account = Account(level: Level, active: bool)

  type Sessions = map<Token, Session>

  // ---- the operations

  function Start(sessions: Sessions, token: Token, account: AccountId, now: Time): Sessions {
    sessions[token := Session(account, now + LIFE, now)]
  }

  /** Whether a session answers: not past its end, its account active, and not idle for too long. */
  predicate Answers(s: Session, accounts: map<AccountId, Account>, now: Time) {
    && s.expires > now
    && s.account in accounts && accounts[s.account].active
    && now - s.lastUsed <= IdleLimit(accounts[s.account].level)
  }

  predicate Asked(sessions: Sessions, accounts: map<AccountId, Account>, token: Token, now: Time) {
    token in sessions && Answers(sessions[token], accounts, now)
  }

  function AfterAsked(sessions: Sessions, accounts: map<AccountId, Account>, token: Token, now: Time): Sessions {
    if Asked(sessions, accounts, token, now) && now - sessions[token].lastUsed > TOUCH
    then sessions[token := sessions[token].(lastUsed := now)] else sessions
  }

  /** What can never be used again. */
  predicate Over(s: Session, now: Time) { s.expires < now - DAY || s.lastUsed < now - 2.0 * DAY }

  function Tidied(sessions: Sessions, now: Time): Sessions {
    map t | t in sessions && !Over(sessions[t], now) :: sessions[t]
  }

  function Without(sessions: Sessions, account: AccountId): Sessions {
    map t | t in sessions && sessions[t].account != account :: sessions[t]
  }

  class Keys {
    var sessions: Sessions

    method StartSession(token: Token, account: AccountId, now: Time)
      modifies this
      ensures sessions == Start(old(sessions), token, account, now)
    {
      sessions := sessions[token := Session(account, now + LIFE, now)];
    }

    method AccountForSession(token: Token, accounts: map<AccountId, Account>, now: Time) returns (found: set<AccountId>)
      modifies this
      ensures sessions == AfterAsked(old(sessions), accounts, token, now)
      ensures found == if Asked(old(sessions), accounts, token, now) then {old(sessions)[token].account} else {}
    {
      if token !in sessions { return {}; }
      var s := sessions[token];
      if s.expires <= now || s.account !in accounts || !accounts[s.account].active { return {}; }
      if now - s.lastUsed > IdleLimit(accounts[s.account].level) { return {}; }
      if now - s.lastUsed > TOUCH { sessions := sessions[token := s.(lastUsed := now)]; }
      return {s.account};
    }

    method EndSession(token: Token)
      modifies this
      ensures sessions == old(sessions) - {token}
    {
      sessions := sessions - {token};
    }

    method EndSessions(account: AccountId) returns (ended: nat)
      modifies this
      ensures sessions == Without(old(sessions), account)
      ensures ended == |set t | t in old(sessions) && old(sessions)[t].account == account|
    {
      ended := |set t | t in sessions && sessions[t].account == account|;
      sessions := Without(sessions, account);
    }

    method TidyKeys(now: Time)
      modifies this
      ensures sessions == Tidied(old(sessions), now)
    {
      sessions := Tidied(sessions, now);
    }
  }

  // ---- runs

  datatype Action =
    | SignIn(token: Token, account: AccountId)
    | Ask(token: Token)
    | SignOut(token: Token)
    | SignOutAll(account: AccountId)
    | Tidy

  /** A step at a time, with the accounts as they are then: they may change in any way between steps. */
  datatype Step = Step(action: Action, at: Time, accounts: map<AccountId, Account>)

  function Next(sessions: Sessions, s: Step): Sessions {
    match s.action
    case SignIn(token, account) => Start(sessions, token, account, s.at)
    case Ask(token) => AfterAsked(sessions, s.accounts, token, s.at)
    case SignOut(token) => sessions - {token}
    case SignOutAll(account) => Without(sessions, account)
    case Tidy => Tidied(sessions, s.at)
  }

  /** What a step answers; only asking is answered. */
  predicate Reply(sessions: Sessions, s: Step) { s.action.Ask? && Asked(sessions, s.accounts, s.action.token, s.at) }

  function Run(sessions: Sessions, run: seq<Step>): Sessions
    decreases |run|
  {
    if run == [] then sessions else Run(Next(sessions, run[0]), run[1..])
  }

  function Replies(sessions: Sessions, run: seq<Step>): seq<bool>
    decreases |run|
  {
    if run == [] then [] else [Reply(sessions, run[0])] + Replies(Next(sessions, run[0]), run[1..])
  }

  /** Steps come in the order of the clock, from `now` on. */
  predicate From(now: Time, run: seq<Step>)
    decreases |run|
  {
    run == [] || (now <= run[0].at && From(run[0].at, run[1..]))
  }

  // ---- tidying changes no answer

  /** The same sessions, but for some in `a` that are over. */
  predicate SameButOver(a: Sessions, b: Sessions, now: Time) {
    && (forall t | t in b :: t in a && a[t] == b[t])
    && (forall t | t in a && t !in b :: Over(a[t], now))
  }

  /** A sign-in makes a token nobody had: it does not meet one that is over. */
  predicate NewTokens(sessions: Sessions, run: seq<Step>)
    decreases |run|
  {
    run == [] || ((run[0].action.SignIn? ==> run[0].action.token !in sessions)
        && NewTokens(Next(sessions, run[0]), run[1..]))
  }

  lemma OverNeverAnswers(s: Session, accounts: map<AccountId, Account>, now: Time, later: Time)
    requires Over(s, now) && now <= later
    ensures !Answers(s, accounts, later) && Over(s, later)
  {
  }

  lemma StepSame(a: Sessions, b: Sessions, now: Time, s: Step)
    requires SameButOver(a, b, now) && now <= s.at && (s.action.SignIn? ==> s.action.token !in a)
    ensures Reply(a, s) == Reply(b, s) && SameButOver(Next(a, s), Next(b, s), s.at)
  {
    forall t | t in a && t !in b ensures !Answers(a[t], s.accounts, s.at) && Over(a[t], s.at) {
      OverNeverAnswers(a[t], s.accounts, now, s.at);
    }
    hide Answers, Over;
  }

  lemma {:induction false} RunSame(a: Sessions, b: Sessions, now: Time, run: seq<Step>)
    requires SameButOver(a, b, now) && From(now, run) && NewTokens(a, run)
    ensures Replies(a, run) == Replies(b, run)
    decreases |run|
  {
    if run != [] {
      StepSame(a, b, now, run[0]);
      hide SameButOver, Reply, Next;
      RunSame(Next(a, run[0]), Next(b, run[0]), run[0].at, run[1..]);
    }
  }

  /** Tidying never changes a later answer, whatever happens afterwards. */
  lemma TidyChangesNoAnswer(sessions: Sessions, now: Time, run: seq<Step>)
    requires From(now, run) && NewTokens(sessions, run)
    ensures Replies(sessions, run) == Replies(Tidied(sessions, now), run)
  {
    RunSame(sessions, Tidied(sessions, now), now, run);
  }

  // ---- when a session was really last used

  /** The last time a token was let through, or signed in; the start for one that never was. */
  function TrueUse(sessions: Sessions, run: seq<Step>, token: Token, used: Time): Time
    decreases |run|
  {
    if run == [] then used
    else
      var s := run[0];
      TrueUse(Next(sessions, s), run[1..], token,
              if (s.action.SignIn? || Reply(sessions, s)) && s.action.token == token then s.at else used)
  }

  /** What is written is never later than the last true use, and at most a minute earlier. */
  predicate Close(sessions: Sessions, token: Token, used: Time) {
    token in sessions ==> sessions[token].lastUsed <= used <= sessions[token].lastUsed + TOUCH
  }

  lemma StepClose(sessions: Sessions, s: Step, token: Token, used: Time)
    requires Close(sessions, token, used)
    ensures Close(Next(sessions, s), token,
                  if (s.action.SignIn? || Reply(sessions, s)) && s.action.token == token then s.at else used)
    requires token in sessions ==> sessions[token].lastUsed <= s.at
  {
  }

  predicate UsedBefore(sessions: Sessions, now: Time) { forall t | t in sessions :: sessions[t].lastUsed <= now }

  lemma StepUsed(sessions: Sessions, s: Step, now: Time)
    requires UsedBefore(sessions, now) && now <= s.at
    ensures UsedBefore(Next(sessions, s), s.at)
  {
  }

  lemma {:induction false} StoredUseIsClose(sessions: Sessions, run: seq<Step>, token: Token, used: Time, now: Time)
    requires Close(sessions, token, used) && UsedBefore(sessions, now) && From(now, run)
    ensures Close(Run(sessions, run), token, TrueUse(sessions, run, token, used))
    decreases |run|
  {
    if run != [] {
      StepClose(sessions, run[0], token, used);
      StepUsed(sessions, run[0], now);
      hide Close, UsedBefore, Next, Reply;
      StoredUseIsClose(
        Next(sessions, run[0]), run[1..], token,
        if (run[0].action.SignIn? || Reply(sessions, run[0])) && run[0].action.token == token then run[0].at else used,
        run[0].at);
    }
  }

  /** From an empty table, before a session's end and while its account is active: not used for the idle limit, which
      is twelve hours for an admin and four for a super admin, less a minute it is still let through,
          not used for longer than the limit it is not. */
  lemma GapsDecide(run: seq<Step>, token: Token, s: Step, used: Time)
    requires From(0.0, run) && token in Run(map[], run) && s.action == Ask(token)
    requires var session := Run(map[], run)[token];
             s.at < session.expires && session.account in s.accounts && s.accounts[session.account].active
    ensures var sessions := Run(map[], run);
            var gap := s.at - TrueUse(map[], run, token, used);
            var limit := if s.accounts[sessions[token].account].level == Admin then 43200.0 else 14400.0;
            && (gap <= limit - 60.0 ==> Reply(sessions, s))
            && (gap > limit ==> !Reply(sessions, s))
  {
    StoredUseIsClose(map[], run, token, used, 0.0);
  }

  // ---- whose a session is, and for how long

  /** Nobody signs in with this token. */
  predicate NotAgain(run: seq<Step>, token: Token) {
    forall s | s in run && s.action.SignIn? :: s.action.token != token
  }

  lemma {:induction false} StaysWhose(sessions: Sessions, run: seq<Step>, token: Token)
    requires NotAgain(run, token)
    ensures var end := Run(sessions, run);
            token in end ==> token in sessions && end[token].account == sessions[token].account
                             && end[token].expires == sessions[token].expires
    decreases |run|
  {
    if run != [] {
      assert run[0] in run;
      assert run == [run[0]] + run[1..];
      StaysWhose(Next(sessions, run[0]), run[1..], token);
    }
  }

  /** Whatever happens after a sign-in, its session is let through only for the account that signed in, while that is
      active, and within seven days; and once it was ended it is never let through again. */
  lemma OnlyItsAccount(sessions: Sessions, token: Token, account: AccountId, start: Time, run: seq<Step>, s: Step)
    requires NotAgain(run, token) && s.action == Ask(token)
    ensures var end := Run(Start(sessions, token, account, start), run);
            Reply(end, s) ==>
              end[token].account == account && account in s.accounts && s.accounts[account].active
              && s.at < start + 604800.0
    ensures token !in sessions ==> !Reply(Run(sessions, run), s)
    ensures !Reply(Run(sessions - {token}, run), s)
    ensures forall t | t in Without(sessions, account) :: Without(sessions, account)[t].account != account
  {
    StaysWhose(Start(sessions, token, account, start), run, token);
    StaysWhose(sessions, run, token);
    StaysWhose(sessions - {token}, run, token);
  }
}
