// What super admins do with sign-in accounts (app/admin_panel/auth_accounts.py), and the sign-in steps that start
// sessions and make accounts active (app/admin_panel/auth_routes.py). Each call is one step. An account is known
// by its email, which is unique and never changes.
module Accounts {

  type Email = string
  type Org = string
  type Token = string
  type Secret = string

  datatype Level = Admin | Super
  datatype Status = Invited | Active | Off
  datatype Password = NoPassword | Stored(secret: Secret)

  datatype Account = Account(level: Level, orgs: seq<Org>, status: Status, password: Password)

  type Accounts = map<Email, Account>
  type Sessions = map<Token, Email>

  datatype State = State(accounts: Accounts, sessions: Sessions)

  /** What a call answers. */
  datatype Reply =
    | Done | Created | NotFound | IsSuper | HasAccess | HadNoAccess | OwnAccount | LastSuper | NeedsOrganisation
    | WrongPassword | SwitchedOff | BadCode

  datatype Outcome = Outcome(state: State, reply: Reply)

  function Without(orgs: seq<Org>, org: Org): seq<Org> {
    if orgs == [] then [] else (if orgs[0] == org then [] else [orgs[0]]) + Without(orgs[1..], org)
  }

  function Ended(sessions: Sessions, email: Email): Sessions {
    map t | t in sessions && sessions[t] != email :: sessions[t]
  }

  /** The status of an account that is switched on. */
  function On(a: Account): Status { if a.password.Stored? then Active else Invited }

  predicate OtherSuper(accounts: Accounts, email: Email) {
    exists e | e in accounts :: e != email && accounts[e].level == Super && accounts[e].status == Active
  }

  function Put(st: State, email: Email, a: Account): State { st.(accounts := st.accounts[email := a]) }

  // ---- the calls, as functions of the tables

  function GiveAccess(st: State, org: Org, email: Email): Outcome {
    if email !in st.accounts then Outcome(Put(st, email, Account(Admin, [org], Invited, NoPassword)), Created)
    else
      var a := st.accounts[email];
      if a.level == Super then Outcome(st, IsSuper)
      else if org in a.orgs && a.status != Off then Outcome(st, HasAccess)
      else
        Outcome(Put(st, email, a.(orgs := if org in a.orgs then a.orgs else a.orgs + [org],
                                  status := if a.status == Off then On(a) else a.status)), Done)
  }

  function TakeAccess(st: State, org: Org, email: Email): Outcome {
    if email !in st.accounts then Outcome(st, NotFound)
    else
      var a := st.accounts[email];
      var orgs := Without(a.orgs, org);
      if a.level == Super then Outcome(st, IsSuper)
      else if |orgs| == |a.orgs| then Outcome(st, HadNoAccess)
      else
        var status := if orgs == [] then Off else a.status;
        var after := Put(st, email, a.(orgs := orgs, status := status));
        Outcome(if status == Off && a.status != Off then after.(sessions := Ended(st.sessions, email)) else after, Done)
  }

  function Switch(st: State, email: Email, on: bool, who: Email): Outcome {
    if email !in st.accounts then Outcome(st, NotFound)
    else
      var a := st.accounts[email];
      if !on && email == who then Outcome(st, OwnAccount)
      else if !on && a.level == Super && a.status == Active && !OtherSuper(st.accounts, email)
      then Outcome(st, LastSuper)
      else if on && a.level == Admin && a.orgs == [] then Outcome(st, NeedsOrganisation)
      else if on then Outcome(Put(st, email, a.(status := On(a))), Done)
      else Outcome(Put(st, email, a.(status := Off)).(sessions := Ended(st.sessions, email)), Done)
  }

  function AddSuper(st: State, email: Email): Outcome {
    if email !in st.accounts then Outcome(Put(st, email, Account(Super, [], Invited, NoPassword)), Created)
    else if st.accounts[email].level == Super then Outcome(st, IsSuper)
    else Outcome(Put(st, email, st.accounts[email].(level := Super, orgs := [])), Done)
  }

  function SetPassword(st: State, email: Email, secret: Secret): State {
    if email !in st.accounts then st.(sessions := Ended(st.sessions, email))
    else
      var a := st.accounts[email];
      Put(st, email, a.(password := Stored(secret), status := if a.status == Off then Off else Active))
      .(sessions := Ended(st.sessions, email))
  }

  function SignIn(st: State, email: Email, secret: Secret, token: Token): Outcome {
    if email !in st.accounts || st.accounts[email].password != Stored(secret) then Outcome(st, WrongPassword)
    else if st.accounts[email].status != Active then Outcome(st, SwitchedOff)
    else Outcome(st.(sessions := st.sessions[token := email]), Done)
  }

  function SignUp(st: State, email: Email, codeRight: bool, secret: Secret, token: Token): Outcome {
    if email !in st.accounts || st.accounts[email].status != Invited || !codeRight then Outcome(st, BadCode)
    else
      var after := SetPassword(st, email, secret);
      Outcome(after.(sessions := after.sessions[token := email]), Done)
  }

  function Forgot(st: State, email: Email, codeRight: bool, secret: Secret): Outcome {
    if email !in st.accounts || st.accounts[email].status != Active || !codeRight then Outcome(st, BadCode)
    else Outcome(SetPassword(st, email, secret), Done)
  }

  function SignOutEverywhere(st: State, email: Email): Outcome {
    if email !in st.accounts then Outcome(st, NotFound)
    else Outcome(st.(sessions := Ended(st.sessions, email)), Done)
  }

  // ---- the calls, statement by statement

  class Tables {
    var accounts: Accounts
    var sessions: Sessions

    function Whole(): State
      reads this
    {
      State(accounts, sessions)
    }

    method GiveAccessTo(org: Org, email: Email) returns (reply: Reply)
      modifies this
      ensures Outcome(Whole(), reply) == GiveAccess(old(Whole()), org, email)
    {
      if email !in accounts {
        accounts := accounts[email := Account(Admin, [org], Invited, NoPassword)];
        return Created;
      }
      var a := accounts[email];
      if a.level == Super { return IsSuper; }
      var orgs, status := a.orgs, a.status;
      if org in orgs && status != Off { return HasAccess; }
      if org !in orgs { orgs := orgs + [org]; }
      if status == Off { status := On(a); }
      accounts := accounts[email := a.(orgs := orgs, status := status)];
      return Done;
    }

    method TakeAccessFrom(org: Org, email: Email) returns (reply: Reply)
      modifies this
      ensures Outcome(Whole(), reply) == TakeAccess(old(Whole()), org, email)
    {
      if email !in accounts { return NotFound; }
      var a := accounts[email];
      if a.level == Super { return IsSuper; }
      var orgs := OthersOf(a.orgs, org);
      if |orgs| == |a.orgs| { return HadNoAccess; }
      var status := if orgs == [] then Off else a.status;
      accounts := accounts[email := a.(orgs := orgs, status := status)];
      if status == Off && a.status != Off { sessions := Ended(sessions, email); }
      return Done;
    }

    method SwitchAccount(email: Email, on: bool, who: Email) returns (reply: Reply)
      modifies this
      ensures Outcome(Whole(), reply) == Switch(old(Whole()), email, on, who)
    {
      if email !in accounts { return NotFound; }
      var a := accounts[email];
      var status;
      if !on {
        if email == who { return OwnAccount; }
        if a.level == Super && a.status == Active && !OtherSuper(accounts, email) { return LastSuper; }
        status := Off;
      } else {
        if a.level == Admin && a.orgs == [] { return NeedsOrganisation; }
        status := On(a);
      }
      accounts := accounts[email := a.(status := status)];
      if status == Off { sessions := Ended(sessions, email); }
      return Done;
    }

    method MakeSuper(email: Email) returns (reply: Reply)
      modifies this
      ensures Outcome(Whole(), reply) == AddSuper(old(Whole()), email)
    {
      if email !in accounts {
        accounts := accounts[email := Account(Super, [], Invited, NoPassword)];
        return Created;
      }
      if accounts[email].level == Super { return IsSuper; }
      accounts := accounts[email := accounts[email].(level := Super, orgs := [])];
      return Done;
    }

    method SavePassword(email: Email, secret: Secret)
      modifies this
      ensures Whole() == SetPassword(old(Whole()), email, secret)
    {
      if email in accounts {
        var a := accounts[email];
        accounts := accounts[email :=
            a.(password := Stored(secret), status := if a.status == Off then Off else Active)];
      }
      sessions := Ended(sessions, email);
    }

    method SignInWith(email: Email, secret: Secret, token: Token) returns (reply: Reply)
      modifies this
      ensures Outcome(Whole(), reply) == SignIn(old(Whole()), email, secret, token)
    {
      if email !in accounts || accounts[email].password != Stored(secret) { return WrongPassword; }
      if accounts[email].status != Active { return SwitchedOff; }
      sessions := sessions[token := email];
      return Done;
    }

    method SignUpWith(email: Email, codeRight: bool, secret: Secret, token: Token) returns (reply: Reply)
      modifies this
      ensures Outcome(Whole(), reply) == SignUp(old(Whole()), email, codeRight, secret, token)
    {
      if email !in accounts || accounts[email].status != Invited || !codeRight { return BadCode; }
      SavePassword(email, secret);
      sessions := sessions[token := email];
      return Done;
    }
  }

  method OthersOf(orgs: seq<Org>, org: Org) returns (others: seq<Org>)
    ensures others == Without(orgs, org)
  {
    hide Without;
    others := [];
    WithoutNext(orgs, org, 0);
    for k := 0 to |orgs|
      invariant others + Without(orgs[k..], org) == Without(orgs, org)
    {
      WithoutNext(orgs, org, k);
      if orgs[k] != org { others := others + [orgs[k]]; }
    }
    WithoutNext(orgs, org, |orgs|);
  }

  lemma WithoutNext(orgs: seq<Org>, org: Org, k: nat)
    requires k <= |orgs|
    ensures orgs[0..] == orgs
    ensures if k == |orgs| then Without(orgs[k..], org) == []
            else Without(orgs[k..], org) == (if orgs[k] == org then [] else [orgs[k]]) + Without(orgs[k + 1..], org)
  {
    if k < |orgs| { assert orgs[k..][0] == orgs[k] && orgs[k..][1..] == orgs[k + 1..]; }
  }

  // ---- runs

  datatype Call =
    | Give(org: Org, email: Email)
    | Take(org: Org, email: Email)
    | Turn(email: Email, on: bool, who: Email)
    | NewSuper(email: Email)
    | In(email: Email, secret: Secret, token: Token)
    | Up(email: Email, codeRight: bool, secret: Secret, token: Token)
    | Reset(email: Email, codeRight: bool, secret: Secret)
    | OutEverywhere(email: Email)
    | EndOne(token: Token)

  function Next(st: State, c: Call): State {
    match c
    case Give(org, email) => GiveAccess(st, org, email).state
    case Take(org, email) => TakeAccess(st, org, email).state
    case Turn(email, on, who) => Switch(st, email, on, who).state
    case NewSuper(email) => AddSuper(st, email).state
    case In(email, secret, token) => SignIn(st, email, secret, token).state
    case Up(email, codeRight, secret, token) => SignUp(st, email, codeRight, secret, token).state
    case Reset(email, codeRight, secret) => Forgot(st, email, codeRight, secret).state
    case OutEverywhere(email) => SignOutEverywhere(st, email).state
    case EndOne(token) => st.(sessions := st.sessions - {token})
  }

  function Run(st: State, calls: seq<Call>): State
    decreases |calls|
  {
    if calls == [] then st else Run(Next(st, calls[0]), calls[1..])
  }

  // ---- what always holds

  predicate SomeSuper(accounts: Accounts) {
    exists e | e in accounts :: accounts[e].level == Super && accounts[e].status == Active
  }

  /** An account is as the database itself would ask. */
  predicate Proper(a: Account) {
    && (a.status == Active ==> a.password.Stored?)
    && (a.level == Admin && a.status != Off ==> a.orgs != [])
    && (a.level == Super ==> a.orgs == [])
  }

  predicate Good(st: State) {
    && SomeSuper(st.accounts)
    && (forall e | e in st.accounts :: Proper(st.accounts[e]))
    && (forall t | t in st.sessions :: st.sessions[t] in st.accounts && st.accounts[st.sessions[t]].status == Active)
  }

  /** Changing one account keeps the rest good: it must end proper, with its sessions gone unless it is active,
      and another super admin active unless it is one itself. */
  lemma PutKeeps(st: State, email: Email, a: Account, sessions: Sessions)
    requires Good(st) && Proper(a)
    requires forall t | t in sessions :: sessions[t] == email || (t in st.sessions && st.sessions[t] == sessions[t])
    requires a.status == Active || forall t | t in sessions :: sessions[t] != email
    requires (a.level == Super && a.status == Active) || OtherSuper(st.accounts, email)
    ensures Good(State(st.accounts[email := a], sessions))
  {
    var next := st.accounts[email := a];
    if a.level == Super && a.status == Active {
      assert next[email] == a;
    } else {
      var e :| e in st.accounts && e != email && st.accounts[e].level == Super && st.accounts[e].status == Active;
      assert next[e] == st.accounts[e];
    }
  }

  lemma SuperElsewhere(st: State, email: Email)
    requires Good(st) && (email in st.accounts
             ==> st.accounts[email].level != Super || st.accounts[email].status != Active)
    ensures OtherSuper(st.accounts, email)
  {
  }

  lemma EndedIs(st: State, email: Email)
    ensures forall t | t in Ended(st.sessions, email) ::
            t in st.sessions && Ended(st.sessions, email)[t] == st.sessions[t] != email
  {
  }

  lemma NoSessions(st: State, email: Email)
    requires Good(st) && (email !in st.accounts || st.accounts[email].status != Active)
    ensures forall t | t in st.sessions :: st.sessions[t] != email
  {
  }

  lemma GiveKeeps(st: State, org: Org, email: Email)
    requires Good(st)
    ensures Good(GiveAccess(st, org, email).state)
  {
    if email !in st.accounts {
      SuperElsewhere(st, email);
      NoSessions(st, email);
      PutKeeps(st, email, Account(Admin, [org], Invited, NoPassword), st.sessions);
    } else if st.accounts[email].level == Admin {
      var a := st.accounts[email];
      SuperElsewhere(st, email);
      if a.status != Active { NoSessions(st, email); }
      PutKeeps(st, email, a.(orgs := if org in a.orgs then a.orgs else a.orgs + [org],
                             status := if a.status == Off then On(a) else a.status), st.sessions);
    }
  }

  lemma TakeKeeps(st: State, org: Org, email: Email)
    requires Good(st)
    ensures Good(TakeAccess(st, org, email).state)
  {
    if email in st.accounts && st.accounts[email].level == Admin {
      var a := st.accounts[email];
      var orgs := Without(a.orgs, org);
      SuperElsewhere(st, email);
      EndedIs(st, email);
      if a.status != Active { NoSessions(st, email); }
      var status := if orgs == [] then Off else a.status;
      PutKeeps(st, email, a.(orgs := orgs, status := status),
               if status == Off && a.status != Off then Ended(st.sessions, email) else st.sessions);
    }
  }

  lemma SwitchKeeps(st: State, email: Email, on: bool, who: Email)
    requires Good(st)
    ensures Good(Switch(st, email, on, who).state)
  {
    var out := Switch(st, email, on, who);
    if out.reply == Done {
      var a := st.accounts[email];
      EndedIs(st, email);
      if a.level == Admin || a.status != Active { SuperElsewhere(st, email); }
      if a.status != Active { NoSessions(st, email); }
      PutKeeps(st, email, a.(status := if on then On(a) else Off),
               if on then st.sessions else Ended(st.sessions, email));
    }
  }

  lemma SuperKeeps(st: State, email: Email)
    requires Good(st)
    ensures Good(AddSuper(st, email).state)
  {
    if email !in st.accounts {
      SuperElsewhere(st, email);
      NoSessions(st, email);
      PutKeeps(st, email, Account(Super, [], Invited, NoPassword), st.sessions);
    } else if st.accounts[email].level == Admin {
      SuperElsewhere(st, email);
      if st.accounts[email].status != Active { NoSessions(st, email); }
      PutKeeps(st, email, st.accounts[email].(level := Super, orgs := []), st.sessions);
    }
  }

  lemma PasswordKeeps(st: State, email: Email, secret: Secret)
    requires Good(st)
    ensures Good(SetPassword(st, email, secret))
  {
    EndedIs(st, email);
    if email in st.accounts {
      var a := st.accounts[email];
      if a.level == Admin || a.status == Off { SuperElsewhere(st, email); }
      PutKeeps(st, email, a.(password := Stored(secret), status := if a.status == Off then Off else Active),
               Ended(st.sessions, email));
    }
  }

  lemma UpKeeps(st: State, email: Email, codeRight: bool, secret: Secret, token: Token)
    requires Good(st)
    ensures Good(SignUp(st, email, codeRight, secret, token).state)
  {
    PasswordKeeps(st, email, secret);
  }

  /** Every call keeps the state good. */
  lemma CallKeeps(st: State, c: Call)
    requires Good(st)
    ensures Good(Next(st, c))
  {
    hide Good, GiveAccess, TakeAccess, Switch, AddSuper, SetPassword, SignUp;
    match c {
      case Give(org, email) => GiveKeeps(st, org, email);
      case Take(org, email) => TakeKeeps(st, org, email);
      case Turn(email, on, who) => SwitchKeeps(st, email, on, who);
      case NewSuper(email) => SuperKeeps(st, email);
      case Up(email, codeRight, secret, token) => UpKeeps(st, email, codeRight, secret, token);
      case Reset(email, codeRight, secret) => PasswordKeeps(st, email, secret);
      case In(_, _, _) => SessionsKeep(st, c);
      case OutEverywhere(_) => SessionsKeep(st, c);
      case EndOne(_) => SessionsKeep(st, c);
    }
  }

  lemma SessionsKeep(st: State, c: Call)
    requires Good(st) && (c.In? || c.OutEverywhere? || c.EndOne?)
    ensures Good(Next(st, c))
  {
  }

  /** Over every run from a good state: some super admin is active, every active account has a password, every
      admin that is not off has an organisation, and every session belongs to an active account. */
  lemma {:induction false} AlwaysGood(st: State, calls: seq<Call>)
    requires Good(st)
    ensures Good(Run(st, calls))
    decreases |calls|
  {
    hide Good, Next;
    if calls != [] {
      CallKeeps(st, calls[0]);
      AlwaysGood(Next(st, calls[0]), calls[1..]);
    }
  }

  /** Whoever signs out everywhere, is switched off or chooses a new password has no session left from before. */
  lemma OldSessionsEnd(st: State, email: Email, secret: Secret, token: Token)
    requires Good(st) && token in st.sessions && st.sessions[token] == email
    ensures token !in SetPassword(st, email, secret).sessions
    ensures token !in SignOutEverywhere(st, email).state.sessions
    ensures forall who :: Switch(st, email, false, who).reply == Done ==>
              token !in Switch(st, email, false, who).state.sessions
    ensures forall org :: TakeAccess(st, org, email).state.accounts[email].status == Off
                          ==> token !in TakeAccess(st, org, email).state.sessions
  {
  }

  /** Switching an account off is refused exactly when it is one's own, or nobody could sign in as super admin
      without it. */
  lemma SwitchOffRefusedExactly(st: State, email: Email, who: Email)
    requires Good(st) && email in st.accounts
    ensures Switch(st, email, false, who).reply != Done
            <==> email == who || !SomeSuper(st.accounts[email := st.accounts[email].(status := Off)])
  {
    var a := st.accounts[email];
    var after := st.accounts[email := a.(status := Off)];
    if a.level == Admin || a.status != Active { SuperElsewhere(st, email); }
    if OtherSuper(st.accounts, email) {
      var e :| e in st.accounts && e != email && st.accounts[e].level == Super && st.accounts[e].status == Active;
      assert after[e] == st.accounts[e];
    }
    if SomeSuper(after) {
      var e :| e in after && after[e].level == Super && after[e].status == Active;
      assert e != email && st.accounts[e] == after[e];
    }
  }

  /** Taking an organisation away and giving it back restores what an account may open, its order aside, and
      leaves an account that had only that one as it was, but signed out. */
  lemma GiveBack(st: State, org: Org, email: Email)
    requires Good(st) && email in st.accounts && st.accounts[email].orgs == [org] && st.accounts[email].status != Off
    requires st.accounts[email].status == Active || st.accounts[email].password.NoPassword?
    ensures var taken := TakeAccess(st, org, email);
            var given := GiveAccess(taken.state, org, email);
            && taken.reply == Done && taken.state.accounts[email].status == Off
            && given.reply == Done && given.state.accounts[email] == st.accounts[email]
            && given.state.sessions == Ended(st.sessions, email)
  {
    assert [org][1..] == [];
    assert Without([org], org) == [];
    NoSessionsEnded(st, email);
  }

  lemma NoSessionsEnded(st: State, email: Email)
    ensures Ended(Ended(st.sessions, email), email) == Ended(st.sessions, email)
  {
  }

  // ---- what a call may change, and when a session may start

  /** An account that is there stays; it becomes a super admin's, wins or loses an organisation or has another password
      only by the call that is for that. */
  lemma ChangesAreCalledFor(st: State, c: Call, e: Email)
    requires e in st.accounts
    ensures e in Next(st, c).accounts
    ensures var a, b := st.accounts[e], Next(st, c).accounts[e];
            && (b.level != a.level ==> c == NewSuper(e))
            && (forall o | o in a.orgs && o !in b.orgs :: c == Take(o, e) || c == NewSuper(e))
            && (forall o | o in b.orgs && o !in a.orgs :: c == Give(o, e))
            && (b.password != a.password ==>
                  (c.Up? || c.Reset?) && c.email == e && c.codeRight && b.password == Stored(c.secret))
            && (a.status == Off && b.status != Off ==> (c.Give? || (c.Turn? && c.on)) && c.email == e)
            && (a.status != Off && b.status == Off ==> (c.Take? || (c.Turn? && !c.on)) && c.email == e)
            && (a.status == Invited && b.status == Active ==> (c.Up? || (c.Turn? && c.on)) && c.email == e)
  {
    if c.Take? { WithoutIs(st.accounts[e].orgs, c.org); }
  }

  lemma {:induction false} WithoutIs(orgs: seq<Org>, org: Org)
    ensures forall o :: o in Without(orgs, org) <==> o in orgs && o != org
  {
    if orgs != [] {
      WithoutIs(orgs[1..], org);
      assert orgs == [orgs[0]] + orgs[1..];
    }
  }

  /** A call that may start a session with a token: signing in to an active account with its password, or signing up
      with the right code. */
  predicate MayOpen(st: State, c: Call, token: Token, email: Email) {
    && email in st.accounts
    && match c
       case In(who, secret, t) =>
         who == email && t == token && st.accounts[email].status == Active
             && st.accounts[email].password == Stored(secret)
       case Up(who, codeRight, _, t) => who == email && t == token && codeRight && st.accounts[email].status == Invited
       case _ => false
  }

  /** A call starts a session exactly when it may. */
  lemma OpensExactly(st: State, c: Call, token: Token, email: Email)
    requires token !in st.sessions
    ensures token in Next(st, c).sessions && Next(st, c).sessions[token] == email <==> MayOpen(st, c, token, email)
  {
  }

  ghost predicate OpenedIn(st: State, calls: seq<Call>, token: Token)
    decreases |calls|
  {
    calls != [] && ((exists e :: MayOpen(st, calls[0], token, e)) || OpenedIn(Next(st, calls[0]), calls[1..], token))
  }

  /** Every session there is in the end and was not before was started by such a call. */
  lemma {:induction false} SessionsAreOpened(st: State, calls: seq<Call>, token: Token)
    requires token !in st.sessions && token in Run(st, calls).sessions
    ensures OpenedIn(st, calls, token)
    decreases |calls|
  {
    hide Next, MayOpen;
    if calls != [] {
      var next := Next(st, calls[0]);
      if token in next.sessions {
        OpensExactly(st, calls[0], token, next.sessions[token]);
      } else {
        SessionsAreOpened(next, calls[1..], token);
      }
    }
  }

  /** What a call that answers Done or Created has done. */
  lemma CallsTakeEffect(st: State, c: Call)
    ensures c.Give? && GiveAccess(st, c.org, c.email).reply in {Done, Created} ==>
              var a := Next(st, c).accounts[c.email]; c.org in a.orgs && a.status != Off && a.level == Admin
    ensures c.Take? && TakeAccess(st, c.org, c.email).reply == Done ==>
              var a := Next(st, c).accounts[c.email]; c.org !in a.orgs && (a.orgs == [] ==> a.status == Off)
    ensures c.Turn? && Switch(st, c.email, c.on, c.who).reply == Done ==>
              var a := Next(st, c).accounts[c.email];
              if c.on then a.status == (if a.password.Stored? then Active else Invited)
              else a.status == Off && forall t | t in Next(st, c).sessions :: Next(st, c).sessions[t] != c.email
    ensures c.NewSuper? ==> c.email in Next(st, c).accounts && Next(st, c).accounts[c.email].level == Super
    ensures c.Up? && SignUp(st, c.email, c.codeRight, c.secret, c.token).reply == Done ==>
              var a := Next(st, c).accounts[c.email]; a.password == Stored(c.secret) && a.status == Active
    ensures c.Reset? && Forgot(st, c.email, c.codeRight, c.secret).reply == Done ==>
              Next(st, c).accounts[c.email].password == Stored(c.secret)
  {
    if c.Take? && c.email in st.accounts { WithoutIs(st.accounts[c.email].orgs, c.org); }
  }
}
