// A file imported and saved is a file with nothing left to import: planning the same lines again finds every
// person, and lists no change for anyone, except in the one case that is stated.
module ImportFixpoint {
  import opened Wrappers
  import opened ImportGroups
  import opened ImportPlan
  import opened ImportCommit
  import opened ImportFlats

  /** An import: who asks, the tables, the lines, and what was chosen on the screen. */
  datatype Job = Job(ctx: Context, db: Db, entries: seq<Entry>, choice: Choice)

  function Groups(j: Job): seq<Group> { Sorted(j.ctx.reading, j.entries).groups }

  function Lines(j: Job, i: nat): (es: seq<Entry>)
    requires i < |Groups(j)|
    ensures es != []
  {
    SortedFromFile(j.ctx.reading, j.entries);
    LinesOf(j.entries, Groups(j)[i])
  }

  lemma LinesIn(j: Job, i: nat)
    requires i < |Groups(j)|
    ensures |Lines(j, i)| == |Groups(j)[i].lines|
    ensures forall p | 0 <= p < |Lines(j, i)| ::
            Groups(j)[i].lines[p] < |j.entries| && Lines(j, i)[p] == j.entries[Groups(j)[i].lines[p]]
    ensures forall e | e in Lines(j, i) :: e in j.entries
  {
    SortedFromFile(j.ctx.reading, j.entries);
    var g := Groups(j)[i];
    assert g in Groups(j);
    forall p | 0 <= p < |g.lines| ensures g.lines[p] < |j.entries| { assert g.lines[p] in g.lines; }
    forall e | e in Lines(j, i) ensures e in j.entries {
      var p :| 0 <= p < |Lines(j, i)| && Lines(j, i)[p] == e;
    }
  }

  /** Who is primary where when the first `i` people are planned. */
  function Taken(j: Job, i: nat): map<Flat, int>
    requires Sound(j.db) && i <= |Groups(j)|
    decreases i, 0
  {
    if i == 0 then map[] else PlannedAt(j, i - 1).taken
  }

  function PlannedAt(j: Job, i: nat): Planned
    requires Sound(j.db) && i < |Groups(j)|
    decreases i, 1
  {
    PlanPerson(j.ctx, j.db, Groups(j)[i], Lines(j, i), Taken(j, i))
  }

  function P(j: Job, i: nat): Person
    requires Sound(j.db) && i < |Groups(j)|
  {
    PlannedAt(j, i).person
  }

  lemma {:induction false} PlanSplit(j: Job, k: nat)
    requires Sound(j.db) && k <= |Groups(j)|
    requires FromFile(j.entries, Groups(j)) && FromFile(j.entries, Groups(j)[k..])
    ensures Plan(j.ctx, j.db, j.entries)
            == seq(k, i requires 0 <= i < k => P(j, i))
               + PlanPeople(j.ctx, j.db, j.entries, Groups(j)[k..], Taken(j, k))
  {
    hide PlanPerson, PlanPeople, Plan, Sorted, Sound, P, PlannedAt, Lines, FromFile, Taken;
    if k == 0 {
      NobodyPlanned(j);
    } else {
      FirstPeople(j, k - 1);
      TailFromFile(j.entries, Groups(j), k - 1);
      PlanSplit(j, k - 1);
      NextPlanned(j, k - 1);
    }
  }

  lemma NobodyPlanned(j: Job)
    requires Sound(j.db) && FromFile(j.entries, Groups(j)) && FromFile(j.entries, Groups(j)[0..])
    ensures Plan(j.ctx, j.db, j.entries) == [] + PlanPeople(j.ctx, j.db, j.entries, Groups(j)[0..], Taken(j, 0))
  {
    hide PlanPerson, PlanPeople, Sorted, Sound, FromFile;
    assert Groups(j)[0..] == Groups(j);
  }

  lemma NextPlanned(j: Job, k: nat)
    requires Sound(j.db) && k < |Groups(j)| && FromFile(j.entries, Groups(j))
    requires FromFile(j.entries, Groups(j)[k..]) && FromFile(j.entries, Groups(j)[k + 1..])
    ensures PlanPeople(j.ctx, j.db, j.entries, Groups(j)[k..], Taken(j, k))
            == [P(j, k)] + PlanPeople(j.ctx, j.db, j.entries, Groups(j)[k + 1..], Taken(j, k + 1))
  {
    hide PlanPerson, PlanPeople, Sorted, Sound;
    assert Groups(j)[k] in Groups(j);
    PeopleNext(j.ctx, j.db, j.entries, Groups(j), k, Taken(j, k));
  }

  lemma FirstPeople(j: Job, k: nat)
    requires Sound(j.db) && k < |Groups(j)|
    ensures seq(k, i requires 0 <= i < k => P(j, i)) + [P(j, k)] == seq(k + 1, i requires 0 <= i < k + 1 => P(j, i))
  {
    hide P, Sorted, Sound;
  }

  /** The plan, person by person. */
  lemma PlanIs(j: Job)
    requires Sound(j.db)
    ensures var plan := Plan(j.ctx, j.db, j.entries);
            |plan| == |Groups(j)| && forall i | 0 <= i < |plan| :: plan[i] == P(j, i)
  {
    SortedFromFile(j.ctx.reading, j.entries);
    var n := |Groups(j)|;
    TailFromFile(j.entries, Groups(j), n);
    PlanSplit(j, n);
  }

  // ---- what is asked of an import

  /** The person whose i-th plan this is will be saved whole: nothing is left for anyone to pick, everything is
      ticked, the database takes it, and a new person gets a role, the planned one if there is one. */
  predicate SavedWhole(choice: Choice, p: Person) {
    && p.status != Refused && NoPick(p.changes)
    && (forall c | c in p.changes :: Picks(choice, p.key, c))
    && p.key !in choice.refused
    && (p.found.None? ==>
          && RoleFor(choice, p).Some? && RoleFor(choice, p).value in choice.valid
          && (p.role.Some? ==> RoleFor(choice, p) == p.role))
  }

  ghost predicate Ready(j: Job) {
    && Sound(j.db) && DistinctLines(j.entries)
    && (forall i | 0 <= i < |Groups(j)| :: SavedWhole(j.choice, P(j, i)))
    && (forall i, k | 0 <= i < k < |Groups(j)| :: P(j, i).found.Some? ==> P(j, i).found != P(j, k).found)
  }

  // ---- one person of the plan

  function Start(j: Job, i: nat): Flats
    requires Sound(j.db) && i < |Groups(j)| && !WhoIs(j.db, Groups(j)[i]).Clash()
  {
    var u := WhoIs(j.db, Groups(j)[i]).Found();
    Flats({}, Taken(j, i), if u.Some? then OwnChanges(j.ctx, j.db, Groups(j)[i], Lines(j, i), u.value) else [AddPerson])
  }

  lemma PersonIs(j: Job, i: nat)
    requires Sound(j.db) && i < |Groups(j)| && P(j, i).status != Refused
    ensures var p, g, es := P(j, i), Groups(j)[i], Lines(j, i);
            && !WhoIs(j.db, g).Clash()
            && p.key == es[0].line && p.name == g.name && p.email == g.email && p.phone == g.phone
            && p.found == WhoIs(j.db, g).Found()
            && (p.found.Some? ==> p.found.value in j.db.users)
            && (p.found.None? ==> |g.name| >= 2 && p.role == NewRole(j.ctx, es))
            && p.changes == FlatsOf(j.ctx, j.db.homes, p.found, p.key, Start(j, i), es).changes
            && Taken(j, i + 1) == FlatsOf(j.ctx, j.db.homes, p.found, p.key, Start(j, i), es).taken
  {
  }

  lemma ChangesAre(j: Job, i: nat)
    requires Sound(j.db) && DistinctLines(j.entries) && i < |Groups(j)| && P(j, i).status != Refused
    ensures var p := P(j, i);
            && OnceEach(p.changes) && Located(j.ctx, j.entries, p.changes) && ProperHomes(p.changes)
            && (AddPerson in p.changes <==> p.found.None?)
            && !WhoIs(j.db, Groups(j)[i]).Clash()
            && Start(j, i).changes <= p.changes && OnlyFlats(p.changes[|Start(j, i).changes|..])
            && (forall c | c in Start(j, i).changes :: !c.SetHome? && !c.PickRelation?)
  {
    hide FlatsOf, Start, P, OnceEach, Located, ProperHomes, Sound, Sorted, DistinctLines, OnlyFlats, Lines, WhoIs;
    PersonIs(j, i);
    var p, es := P(j, i), Lines(j, i);
    var own := Start(j, i).changes;
    StartChanges(j, i);
    ChangesTidy(j, i);
    FlatsAddFlats(j.ctx, j.db.homes, p.found, p.key, Start(j, i), es);
    AddedOnlyFirst(own, p.changes);
  }

  lemma AddedOnlyFirst(own: seq<Change>, cs: seq<Change>)
    requires own <= cs && OnlyFlats(cs[|own|..])
    ensures AddPerson in cs <==> AddPerson in own
  {
    assert cs == own + cs[|own|..];
  }

  lemma ChangesTidy(j: Job, i: nat)
    requires Sound(j.db) && DistinctLines(j.entries) && i < |Groups(j)| && P(j, i).status != Refused
    ensures var p := P(j, i); OnceEach(p.changes) && Located(j.ctx, j.entries, p.changes) && ProperHomes(p.changes)
  {
    hide FlatsOf, Start, P, OnceEach, Located, ProperHomes, Sound, Sorted, Lines, WhoIs;
    PersonIs(j, i);
    var p, es := P(j, i), Lines(j, i);
    StartChanges(j, i);
    LinesIn(j, i);
    FlatsTidy(j.ctx, j.db.homes, p.found, p.key, Start(j, i), es, es);
    LinesFound(j.ctx, j.entries, es, p.changes);
  }

  lemma StartChanges(j: Job, i: nat)
    requires Sound(j.db) && i < |Groups(j)| && P(j, i).status != Refused && !WhoIs(j.db, Groups(j)[i]).Clash()
    ensures var own := Start(j, i).changes;
            && (forall c | c in own :: !c.SetHome? && !c.PickRelation?)
            && (AddPerson in own <==> P(j, i).found.None?)
            && Tidy(j.ctx, Lines(j, i), Start(j, i))
  {
    PersonIs(j, i);
    hide P, FlatsOf, PlannedAt, ColumnChanges, Tidy;
    var p, es, g := P(j, i), Lines(j, i), Groups(j)[i];
    if p.found.Some? {
      var user := j.db.users[p.found.value];
      ColumnKinds(user, g, j.ctx.samePerson(g.name, user.name),
                  Get(EmailIndex(j.db.users), g.email) in {None, p.found},
                  Get(PhoneIndex(j.db.users), g.phone) in {None, p.found},
                  AskedRole(j.ctx, es), Mine(j.ctx, user));
    }
    hide OwnChanges, WhoIs;
    StartTidy(j.ctx, es, Start(j, i));
  }

  // ---- saving one person

  /** The tables before the i-th person is saved. */
  function State(j: Job, i: nat): Db
    requires Sound(j.db) && i <= |Groups(j)|
  {
    if i == 0 then j.db else CommitPerson(j.ctx, j.entries, j.choice, State(j, i - 1), P(j, i - 1)).db
  }

  lemma {:induction false} StateIs(j: Job, i: nat)
    requires Sound(j.db) && i <= |Groups(j)| && |Plan(j.ctx, j.db, j.entries)| == |Groups(j)|
    requires forall k | 0 <= k < |Groups(j)| :: Plan(j.ctx, j.db, j.entries)[k] == P(j, k)
    ensures After(j.ctx, j.entries, j.choice, j.db, Plan(j.ctx, j.db, j.entries), i) == State(j, i)
  {
    hide Plan, P, CommitPerson, Sound, Sorted;
    if i > 0 { StateIs(j, i - 1); }
  }

  /** The id the i-th person has once saved. */
  function Uid(j: Job, i: nat): UserId
    requires Sound(j.db) && i < |Groups(j)|
  {
    OrElse(P(j, i).found, State(j, i).next)
  }

  /** The user the i-th person is once saved. */
  function Final(j: Job, i: nat): User
    requires Sound(j.db) && i < |Groups(j)|
  {
    var g := Groups(j)[i];
    var p := P(j, i);
    if p.found.Some? && p.found.value in j.db.users then FinalUser(j.ctx, j.db.users[p.found.value], g, Lines(j, i))
    else User(g.name, g.email, g.phone, RoleFor(j.choice, p))
  }

  lemma {:induction false} AllPicked(choice: Choice, key: int, cs: seq<Change>)
    requires forall c | c in cs :: Picks(choice, key, c)
    ensures Picked(choice, key, cs) == cs
  {
    if cs != [] {
      assert cs == [cs[0]] + cs[1..];
      AllPicked(choice, key, cs[1..]);
    }
  }

  lemma SavingNew(j: Job, i: nat, db: Db)
    requires Ready(j) && i < |Groups(j)| && P(j, i).found.None?
    ensures CommitPerson(j.ctx, j.entries, j.choice, db, P(j, i)).db
            == Db(db.users[db.next := Final(j, i)],
                PutHomes(j.ctx, j.entries, db.homes, db.next, P(j, i).changes), db.next + 1)
  {
    var p := P(j, i);
    assert SavedWhole(j.choice, p);
    PersonIs(j, i);
    ChangesAre(j, i);
    AllPicked(j.choice, p.key, p.changes);
    hide P, PutHomes, Picks, Sound, Ready, Sorted, Start, OwnChanges, Wants;
  }

  lemma CommitFound(ctx: Context, entries: seq<Entry>, choice: Choice, db: Db, p: Person)
    requires SavedWhole(choice, p) && p.found.Some? && p.found.value in db.users && AddPerson !in p.changes
    ensures var u := p.found.value;
            CommitPerson(ctx, entries, choice, db, p).db
            == Db(db.users[u := SetColumns(db.users[u], p.changes)],
                PutHomes(ctx, entries, db.homes, u, p.changes), db.next)
  {
    AllPicked(choice, p.key, p.changes);
    if p.changes == [] { assert SetColumns(db.users[p.found.value], []) == db.users[p.found.value]; }
  }

  lemma ColumnsAll(j: Job, i: nat)
    requires Ready(j) && i < |Groups(j)| && P(j, i).found.Some?
    ensures P(j, i).found.value in j.db.users
    ensures SetColumns(j.db.users[P(j, i).found.value], P(j, i).changes) == Final(j, i)
  {
    hide Picks, Sorted, Start, OwnChanges, FinalUser, WhoIs, Lines, SetColumns, OnlyFlats, FlatsOf, Sound,
        OnceEach, Located, ProperHomes;
    SavedHere(j, i);
    var p := P(j, i);
    PersonIs(j, i);
    ChangesAre(j, i);
    var u := p.found.value;
    StartFound(j, i, u);
    ColumnsSaved(j.ctx, j.db, Groups(j)[i], Lines(j, i), u);
    var own := Start(j, i).changes;
    ColumnsJoin(j.db.users[u], own, p.changes[|own|..]);
    assert own + p.changes[|own|..] == p.changes;
  }

  lemma SavedHere(j: Job, i: nat)
    requires Ready(j) && i < |Groups(j)|
    ensures Sound(j.db) && DistinctLines(j.entries) && SavedWhole(j.choice, P(j, i)) && P(j, i).status != Refused
  {
    hide P, Sorted, Sound, Picks;
    assert SavedWhole(j.choice, P(j, i));
  }

  lemma StartFound(j: Job, i: nat, u: UserId)
    requires Sound(j.db) && i < |Groups(j)| && !WhoIs(j.db, Groups(j)[i]).Clash()
             && WhoIs(j.db, Groups(j)[i]).Found() == Some(u)
    requires u in j.db.users
    ensures Start(j, i).changes == OwnChanges(j.ctx, j.db, Groups(j)[i], Lines(j, i), u)
  {
    hide Sorted, OwnChanges, WhoIs, Lines, Sound;
  }

  lemma SavingFound(j: Job, i: nat, db: Db)
    requires Ready(j) && i < |Groups(j)| && P(j, i).found.Some?
    requires var u := P(j, i).found.value; u in j.db.users && u in db.users && db.users[u] == j.db.users[u]
    ensures var u := P(j, i).found.value;
            CommitPerson(j.ctx, j.entries, j.choice, db, P(j, i)).db
            == Db(db.users[u := Final(j, i)], PutHomes(j.ctx, j.entries, db.homes, u, P(j, i).changes), db.next)
  {
    ChangesAre(j, i);
    ColumnsAll(j, i);
    assert SavedWhole(j.choice, P(j, i));
    hide P, CommitPerson, PutHomes, Final, Ready, SavedWhole, SetColumns, Sorted, Sound;
    CommitFound(j.ctx, j.entries, j.choice, db, P(j, i));
  }

  // ---- the people after the first k are saved

  predicate IsAmong(j: Job, k: nat, x: UserId)
    requires Sound(j.db) && k <= |Groups(j)|
  {
    exists i | 0 <= i < k :: Uid(j, i) == x
  }

  ghost predicate UsersAt(j: Job, k: nat)
    requires Sound(j.db) && k <= |Groups(j)|
  {
    var db := State(j, k);
    && j.db.next <= db.next
    && (forall x | x in db.users :: x < db.next)
    && (forall x | x in j.db.users :: x in db.users)
    && (forall i | 0 <= i < k :: Uid(j, i) in db.users && db.users[Uid(j, i)] == Final(j, i))
    && (forall i, m | 0 <= i < m < k :: Uid(j, i) != Uid(j, m))
    && (forall x | x in db.users && !IsAmong(j, k, x) :: x in j.db.users && db.users[x] == j.db.users[x])
  }

  /** Nobody saved before has the id the k-th person gets. */
  lemma UidFresh(j: Job, k: nat, i: nat)
    requires Ready(j) && i < k < |Groups(j)| && UsersAt(j, k) && UsersAt(j, i)
    ensures Uid(j, i) != Uid(j, k)
    ensures P(j, k).found.Some? ==> P(j, k).found.value in j.db.users
  {
    assert SavedWhole(j.choice, P(j, i)) && SavedWhole(j.choice, P(j, k));
    PersonIs(j, i);
    PersonIs(j, k);
    assert Uid(j, i) in State(j, k).users;
    hide P, State, SavedWhole, FlatsOf, Start, WhoIs, Groups, Lines;
  }

  /** What saving the k-th person does to the tables. */
  ghost predicate Saves(j: Job, k: nat)
    requires Sound(j.db) && k < |Groups(j)|
  {
    var u, db, next := Uid(j, k), State(j, k), State(j, k + 1);
    && next.users == db.users[u := Final(j, k)]
    && next.homes == PutHomes(j.ctx, j.entries, db.homes, u, P(j, k).changes)
    && db.next <= next.next && u < next.next
  }

  lemma SavesOne(j: Job, k: nat)
    requires Ready(j) && k < |Groups(j)| && UsersAt(j, k) && !IsAmong(j, k, Uid(j, k))
    ensures Saves(j, k)
  {
    var db := State(j, k);
    assert SavedWhole(j.choice, P(j, k));
    PersonIs(j, k);
    hide P, SavedWhole, FlatsOf, Start, WhoIs, Groups, Lines, Ready, Final, PutHomes, CommitPerson, Sorted, IsAmong;
    if P(j, k).found.Some? {
      assert Uid(j, k) in db.users && Uid(j, k) < db.next;
      SavingFound(j, k, db);
    } else {
      SavingNew(j, k, db);
    }
  }

  lemma UsersStep(j: Job, k: nat)
    requires Ready(j) && k < |Groups(j)| && forall i | 0 <= i <= k :: UsersAt(j, i)
    ensures UsersAt(j, k + 1) && Saves(j, k)
  {
    hide P, State, SavedWhole, Groups, Lines, Sound, Final, PutHomes, Uid, Sorted, IsAmong, Ready;
    SavedHere(j, k);
    forall i | 0 <= i < k ensures Uid(j, i) != Uid(j, k) {
      assert UsersAt(j, i) && UsersAt(j, k);
      UidFresh(j, k, i);
    }
    assert UsersAt(j, k);
    AmongMeans(j, k);
    SavesOne(j, k);
    forall x | x in State(j, k + 1).users && !IsAmong(j, k + 1, x)
      ensures x in j.db.users && State(j, k + 1).users[x] == j.db.users[x]
    {
      NotAmong(j, k, x);
    }
  }

  lemma AmongMeans(j: Job, k: nat)
    requires Sound(j.db) && k < |Groups(j)| && forall i | 0 <= i < k :: Uid(j, i) != Uid(j, k)
    ensures !IsAmong(j, k, Uid(j, k))
  {
  }

  lemma NotAmong(j: Job, k: nat, x: UserId)
    requires Sound(j.db) && k < |Groups(j)| && !IsAmong(j, k + 1, x)
    ensures !IsAmong(j, k, x) && Uid(j, k) != x
  {
  }

  lemma UsersFirst(j: Job)
    requires Sound(j.db)
    ensures UsersAt(j, 0)
  {
  }

  lemma {:induction false} UsersAlways(j: Job, k: nat)
    requires Ready(j) && k <= |Groups(j)|
    ensures forall i | 0 <= i <= k :: UsersAt(j, i)
    ensures forall i | 0 <= i < k :: Saves(j, i)
  {
    hide UsersAt, Saves, Sound, SavedWhole, P, Sorted;
    if k == 0 {
      UsersFirst(j);
    } else {
      UsersAlways(j, k - 1);
      UsersStep(j, k - 1);
    }
  }

  // ---- who is who when all are saved

  function End(j: Job): Db
    requires Sound(j.db)
  {
    State(j, |Groups(j)|)
  }

  function Contact(user: User, phone: bool): string { if phone then user.phone else user.email }

  function GroupContact(g: Group, phone: bool): string { if phone then g.phone else g.email }

  /** Whoever had the number or the email a person in the file has is who that person was found to be. */
  lemma FoundHolder(j: Job, i: nat, y: UserId, phone: bool)
    requires Ready(j) && i < |Groups(j)| && y in j.db.users
    requires GroupContact(Groups(j)[i], phone) != ""
    requires Contact(j.db.users[y], phone) == GroupContact(Groups(j)[i], phone)
    ensures P(j, i).found == Some(y)
  {
    assert SavedWhole(j.choice, P(j, i));
    PersonIs(j, i);
  }

  /** A number or email in the end is one from the file, or an old one of somebody the file gives none. */
  ghost predicate Holds(j: Job, x: UserId, text: string, phone: bool)
    requires Sound(j.db)
  {
    || (exists i | 0 <= i < |Groups(j)| :: Uid(j, i) == x && GroupContact(Groups(j)[i], phone) == text)
    || (x in j.db.users && Contact(j.db.users[x], phone) == text)
  }

  lemma EndHolds(j: Job, x: UserId, phone: bool)
    requires Ready(j) && x in End(j).users && Contact(End(j).users[x], phone) != ""
    ensures Holds(j, x, Contact(End(j).users[x], phone), phone)
  {
    hide P, State, SavedWhole, Lines, Sound, PutHomes, WhoIs, Sorted, Final, Uid;
    var n := |Groups(j)|;
    UsersAlways(j, n);
    assert UsersAt(j, n);
    if IsAmong(j, n, x) {
      var i :| 0 <= i < n && Uid(j, i) == x;
      assert End(j).users[x] == Final(j, i);
      FinalHolds(j, i, phone);
    }
  }

  lemma FinalHolds(j: Job, i: nat, phone: bool)
    requires Ready(j) && i < |Groups(j)|
    ensures var text := Contact(Final(j, i), phone); text != "" ==> Holds(j, Uid(j, i), text, phone)
  {
    hide P, State, SavedWhole, Lines, Sound, WhoIs, Sorted, FlatsOf, Start;
    SavedHere(j, i);
    PersonIs(j, i);
    assert GroupContact(Groups(j)[i], phone) == Contact(Final(j, i), phone)
        ==> Holds(j, Uid(j, i), Contact(Final(j, i), phone), phone);
  }

  lemma HoldersAgree(j: Job, x: UserId, y: UserId, text: string, phone: bool)
    requires Ready(j) && text != "" && Holds(j, x, text, phone) && Holds(j, y, text, phone)
    ensures x == y
  {
    hide P, State, SavedWhole, Lines, PutHomes, WhoIs;
    if i :| 0 <= i < |Groups(j)| && Uid(j, i) == x && GroupContact(Groups(j)[i], phone) == text {
      if k :| 0 <= k < |Groups(j)| && Uid(j, k) == y && GroupContact(Groups(j)[k], phone) == text {
        if i != k { PeopleAreApart(j.ctx.reading, j.entries, i, k); }
      } else {
        FoundHolder(j, i, y, phone);
      }
    } else if k :| 0 <= k < |Groups(j)| && Uid(j, k) == y && GroupContact(Groups(j)[k], phone) == text {
      FoundHolder(j, k, x, phone);
    }
  }

  /** Saving keeps numbers and emails apart, so that the plan can be worked out again. */
  lemma EndSound(j: Job)
    requires Ready(j)
    ensures Sound(End(j))
  {
    var n := |Groups(j)|;
    UsersAlways(j, n);
    assert UsersAt(j, n);
    var users := End(j).users;
    forall x, y | x in users && y in users && users[x].phone != "" && users[x].phone == users[y].phone ensures x == y {
      EndHolds(j, x, true);
      EndHolds(j, y, true);
      HoldersAgree(j, x, y, users[x].phone, true);
    }
    forall x, y | x in users && y in users && users[x].email != "" && users[x].email == users[y].email ensures x == y {
      EndHolds(j, x, false);
      EndHolds(j, y, false);
      HoldersAgree(j, x, y, users[x].email, false);
    }
  }

  // ---- the flats when all are saved

  function WantsOf(j: Job, i: nat): set<Wanted>
    requires Sound(j.db) && i < |Groups(j)| && !WhoIs(j.db, Groups(j)[i]).Clash()
  {
    Wants(j.ctx, j.db.homes, P(j, i).found, P(j, i).key, Start(j, i), Lines(j, i))
  }

  lemma KeysApart(j: Job, i: nat, m: nat)
    requires Ready(j) && i < |Groups(j)| && m < |Groups(j)| && i != m
    ensures P(j, i).key != P(j, m).key
  {
    assert SavedWhole(j.choice, P(j, i)) && SavedWhole(j.choice, P(j, m));
    PersonIs(j, i);
    PersonIs(j, m);
    LinesIn(j, i);
    LinesIn(j, m);
    SortedIsGood(j.ctx.reading, j.entries);
    var s := Sorted(j.ctx.reading, j.entries);
    hide P, Sorted, SavedWhole;
    var a, b := Groups(j)[i].lines[0], Groups(j)[m].lines[0];
    assert In(s, i, a) && In(s, m, b);
    assert a != b;
  }

  lemma TakenNext(j: Job, k: nat, flat: Flat)
    requires Ready(j) && k < |Groups(j)| && flat in Taken(j, k)
    ensures flat in Taken(j, k + 1) && Taken(j, k + 1)[flat] == Taken(j, k)[flat]
  {
    assert SavedWhole(j.choice, P(j, k));
    PersonIs(j, k);
    var p := P(j, k);
    hide P, Sorted, SavedWhole, Sound, Taken, FlatsOf;
    TakenStays(j.ctx, j.db.homes, p.found, p.key, Start(j, k), Lines(j, k), flat);
  }

  /** A flat taken while the first `a` people are planned stays taken by the same person. */
  lemma {:induction false} TakenKept(j: Job, a: nat, b: nat, flat: Flat)
    requires Ready(j) && a <= b <= |Groups(j)| && flat in Taken(j, a)
    ensures flat in Taken(j, b) && Taken(j, b)[flat] == Taken(j, a)[flat]
    decreases b
  {
    hide P, Sorted, SavedWhole, Sound, Taken;
    if a < b {
      TakenKept(j, a, b - 1, flat);
      TakenNext(j, b - 1, flat);
    }
  }

  lemma PrimaryTaken(j: Job, i: nat, w: Wanted)
    requires Ready(j) && i < |Groups(j)| && !WhoIs(j.db, Groups(j)[i]).Clash() && w in WantsOf(j, i) && w.home.primary
    ensures var t := Taken(j, |Groups(j)|); w.flat in t && t[w.flat] == P(j, i).key
  {
    assert SavedWhole(j.choice, P(j, i));
    PersonIs(j, i);
    var p := P(j, i);
    hide P, Sorted, SavedWhole, Sound, Taken;
    PrimaryTakes(j.ctx, j.db.homes, p.found, p.key, Start(j, i), Lines(j, i), w);
    TakenKept(j, i + 1, |Groups(j)|, w.flat);
  }

  /** Nobody else in the file becomes primary member where somebody is wanted as one. */
  lemma {:induction false} PrimaryAlone(j: Job, i: nat, w: Wanted, m: nat, c: Change)
    requires Ready(j) && i < |Groups(j)| && !WhoIs(j.db, Groups(j)[i]).Clash() && w in WantsOf(j, i) && w.home.primary
    requires m < |Groups(j)| && m != i && c in P(j, m).changes && c.SetHome? && c.flat == w.flat
    ensures !c.home.primary
  {
    assert SavedWhole(j.choice, P(j, m));
    PersonIs(j, m);
    ChangesAre(j, m);
    var p := P(j, m);
    KeysApart(j, i, m);
    PrimaryTaken(j, i, w);
    hide P, Sorted, SavedWhole, Sound, Taken, Start;
    ListedWanted(j.ctx, j.db.homes, p.found, p.key, Start(j, m), Lines(j, m), c);
    if c.home.primary { PrimaryTaken(j, m, Wanted(c.flat, c.home)); }
  }

  /** Saving somebody else leaves a home that is as wanted. */
  lemma WantStays(j: Job, i: nat, w: Wanted, m: nat, v: UserId)
    requires Ready(j) && i < |Groups(j)| && !WhoIs(j.db, Groups(j)[i]).Clash() && w in WantsOf(j, i)
    requires m < |Groups(j)| && m != i && Saves(j, m) && Uid(j, m) != v
    requires Get(State(j, m).homes, (v, w.flat)) == Some(w.home)
    ensures Get(State(j, m + 1).homes, (v, w.flat)) == Some(w.home)
  {
    assert SavedWhole(j.choice, P(j, m));
    ChangesAre(j, m);
    hide Sorted, SavedWhole, Sound, Taken, Start, Lines, P, WantsOf, State, Uid, WhoIs;
    forall c | c in P(j, m).changes && c.SetHome? && c.flat == w.flat && w.home.primary ensures !c.home.primary {
      PrimaryAlone(j, i, w, m, c);
    }
    PutOthers(j.ctx, j.entries, State(j, m).homes, Uid(j, m), P(j, m).changes, v, w.flat);
  }

  lemma {:induction false} WantBefore(j: Job, i: nat, w: Wanted, m: nat)
    requires Ready(j) && m <= i < |Groups(j)| && !WhoIs(j.db, Groups(j)[i]).Clash() && w in WantsOf(j, i)
    requires P(j, i).found.Some? && Get(j.db.homes, (P(j, i).found.value, w.flat)) == Some(w.home)
    requires (forall k | 0 <= k < |Groups(j)| :: Saves(j, k)) && forall k | 0 <= k < i :: Uid(j, k) != Uid(j, i)
    ensures Get(State(j, m).homes, (P(j, i).found.value, w.flat)) == Some(w.home)
    decreases m
  {
    hide Sorted, SavedWhole, Sound, Taken, Start, Lines, P, WantsOf, WhoIs, CommitPerson, Saves;
    if m > 0 {
      WantBefore(j, i, w, m - 1);
      WantStays(j, i, w, m - 1, P(j, i).found.value);
    }
  }

  lemma WantNow(j: Job, i: nat, w: Wanted)
    requires Ready(j) && i < |Groups(j)| && !WhoIs(j.db, Groups(j)[i]).Clash() && w in WantsOf(j, i)
    requires (forall k | 0 <= k < |Groups(j)| :: Saves(j, k)) && forall k | 0 <= k < i :: Uid(j, k) != Uid(j, i)
    ensures Get(State(j, i + 1).homes, (Uid(j, i), w.flat)) == Some(w.home)
  {
    assert SavedWhole(j.choice, P(j, i));
    PersonIs(j, i);
    ChangesAre(j, i);
    assert Saves(j, i);
    var p := P(j, i);
    WantsListed(j.ctx, j.db.homes, p.found, p.key, Start(j, i), Lines(j, i), w);
    PutOwn(j.ctx, j.entries, State(j, i).homes, Uid(j, i), p.changes, w.flat);
    if HaveHome(j.db.homes, p.found, w.flat) == Some(w.home) { WantBefore(j, i, w, i); }
  }

  lemma {:induction false} WantAfter(j: Job, i: nat, w: Wanted, m: nat)
    requires Ready(j) && i < m <= |Groups(j)| && !WhoIs(j.db, Groups(j)[i]).Clash() && w in WantsOf(j, i)
    requires (forall k | 0 <= k < |Groups(j)| :: Saves(j, k))
    requires forall k | 0 <= k < |Groups(j)| && k != i :: Uid(j, k) != Uid(j, i)
    ensures Get(State(j, m).homes, (Uid(j, i), w.flat)) == Some(w.home)
    decreases m
  {
    hide Sorted, SavedWhole, Sound, Taken, Start, Lines, P, WantsOf, WhoIs, CommitPerson, Saves, Uid, State;
    if m == i + 1 {
      WantNow(j, i, w);
    } else {
      WantAfter(j, i, w, m - 1);
      WantStays(j, i, w, m - 1, Uid(j, i));
    }
  }

  /** Everything the file wants of flats is saved in the end. */
  lemma {:induction false} AllWantsSaved(j: Job, i: nat)
    requires Ready(j) && i < |Groups(j)|
    ensures !WhoIs(j.db, Groups(j)[i]).Clash()
    ensures forall w | w in WantsOf(j, i) :: Get(End(j).homes, (Uid(j, i), w.flat)) == Some(w.home)
  {
    assert SavedWhole(j.choice, P(j, i));
    PersonIs(j, i);
    var n := |Groups(j)|;
    UsersAlways(j, n);
    assert UsersAt(j, n);
    hide Sorted, SavedWhole, Sound, Taken, Start, Lines, P, WantsOf, WhoIs, CommitPerson, Saves, Uid, State;
    forall w | w in WantsOf(j, i) ensures Get(End(j).homes, (Uid(j, i), w.flat)) == Some(w.home) {
      WantAfter(j, i, w, n);
    }
  }

  // ---- planning again

  function Again(j: Job): Job
    requires Sound(j.db)
  {
    j.(db := End(j))
  }

  /** The one thing that can be left: a role the file asks for was not given, since the person's email was the
      email of the one who asked, and then the file gave that person another email. */
  predicate OwnEmailGone(j: Job, i: nat)
    requires Sound(j.db) && i < |Groups(j)|
  {
    var p, g := P(j, i), Groups(j)[i];
    && p.found.Some? && p.found.value in j.db.users
    && var user := j.db.users[p.found.value];
       var asked := AskedRole(j.ctx, Lines(j, i));
       && Mine(j.ctx, user) && asked.Some? && asked != user.role
       && g.email != "" && g.email != user.email
  }

  function LeftOver(j: Job, i: nat): seq<Change>
    requires Sound(j.db) && i < |Groups(j)|
  {
    var asked := AskedRole(j.ctx, Lines(j, i));
    if OwnEmailGone(j, i) && asked.Some? then [SetRole(asked.value)] else []
  }

  /** Everyone of the file is found again. */
  lemma FoundAgain(j: Job, i: nat)
    requires Ready(j) && i < |Groups(j)| && Sound(End(j))
    ensures Uid(j, i) in End(j).users && End(j).users[Uid(j, i)] == Final(j, i)
    ensures !WhoIs(End(j), Groups(j)[i]).Clash() && WhoIs(End(j), Groups(j)[i]).Found() == Some(Uid(j, i))
  {
    hide P, Sorted, SavedWhole, Final, State, Uid, Lines, WhoIs;
    var n := |Groups(j)|;
    var g := Groups(j)[i];
    UsersAlways(j, n);
    assert UsersAt(j, n);
    PeopleHaveContact(j.ctx.reading, j.entries);
    assert g.phone != "" || g.email != "";
    FinalIs(j, i);
    var u := Uid(j, i);
    FoundBy(End(j), g, u);
  }

  lemma FoundBy(db: Db, g: Group, u: UserId)
    requires Sound(db) && u in db.users && (g.phone != "" || g.email != "")
    requires (g.phone != "" ==> db.users[u].phone == g.phone) && (g.email != "" ==> db.users[u].email == g.email)
    ensures !WhoIs(db, g).Clash() && WhoIs(db, g).Found() == Some(u)
  {
    assert g.phone != "" ==> g.phone in PhoneIndex(db.users) && PhoneIndex(db.users)[g.phone] == u;
    assert g.email != "" ==> g.email in EmailIndex(db.users) && EmailIndex(db.users)[g.email] == u;
  }

  /** The columns of a person saved ask for nothing more, but for that one thing. */
  lemma ColumnsAgain(j: Job, i: nat)
    requires Ready(j) && i < |Groups(j)| && Sound(End(j))
    requires Uid(j, i) in End(j).users && End(j).users[Uid(j, i)] == Final(j, i)
    ensures OwnChanges(j.ctx, End(j), Groups(j)[i], Lines(j, i), Uid(j, i)) == LeftOver(j, i)
  {
    hide P, Sorted, SavedWhole, Ready, State, Uid, Lines, PhoneIndex, EmailIndex, AskedRole, WhoIs, Sound, Start,
        Final, OwnEmailGone;
    var g, es := Groups(j)[i], Lines(j, i);
    SavedHere(j, i);
    FinalIs(j, i);
    if P(j, i).found.Some? { GoneIs(j, i); } else { NotGone(j, i); }
  }

  /** What somebody saved is called, and which role there is unless it is withheld. */
  lemma FinalIs(j: Job, i: nat)
    requires Ready(j) && i < |Groups(j)|
    ensures var user, g, asked := Final(j, i), Groups(j)[i], AskedRole(j.ctx, Lines(j, i));
            && (g.name != "" ==> user.name == g.name)
            && (g.email != "" ==> user.email == g.email)
            && (g.phone != "" ==> user.phone == g.phone)
            && (P(j, i).found.None? && asked.Some? ==> user.role == asked)
            && (P(j, i).found.Some? ==>
                  && P(j, i).found.value in j.db.users
                  && var was := j.db.users[P(j, i).found.value];
                     && user.email == (if g.email == "" then was.email else g.email)
                     && user.role == if asked.Some? && !Mine(j.ctx, was) then asked else was.role)
  {
    hide P, Sorted, AskedRole, WhoIs, Lines, FlatsOf, Start, Sound, Ready;
    SavedHere(j, i);
    PersonIs(j, i);
  }

  lemma GoneIs(j: Job, i: nat)
    requires Sound(j.db) && i < |Groups(j)| && P(j, i).found.Some? && P(j, i).found.value in j.db.users
    ensures var was, g, asked := j.db.users[P(j, i).found.value], Groups(j)[i], AskedRole(j.ctx, Lines(j, i));
            OwnEmailGone(j, i)
            <==> Mine(j.ctx, was) && asked.Some? && asked != was.role && g.email != "" && g.email != was.email
  {
    hide P, Sorted, AskedRole, Lines, Sound, Mine;
  }

  lemma NotGone(j: Job, i: nat)
    requires Sound(j.db) && i < |Groups(j)| && P(j, i).found.None?
    ensures !OwnEmailGone(j, i)
  {
    hide P, Sorted, AskedRole, Lines, Sound, Mine;
  }

  lemma PersonAgain(j: Job, i: nat)
    requires Ready(j) && i < |Groups(j)| && Sound(End(j)) && Taken(Again(j), i) == Taken(j, i)
    ensures P(Again(j), i).found == Some(Uid(j, i))
    ensures P(Again(j), i).changes == LeftOver(j, i)
    ensures Taken(Again(j), i + 1) == Taken(j, i + 1)
  {
    var k := Again(j);
    var p, u := P(j, i), Uid(j, i);
    assert SavedWhole(j.choice, p);
    PersonIs(j, i);
    FoundAgain(j, i);
    ColumnsAgain(j, i);
    AllWantsSaved(j, i);
    var es := Lines(j, i);
    var own := OwnChanges(j.ctx, End(j), Groups(j)[i], es, u);
    FlatsAgain(j.ctx, j.db.homes, p.found, End(j).homes, u, p.key, Start(j, i), Flats({}, Taken(j, i), own), es);
    hide Sorted, SavedWhole, Ready, State, Uid, PhoneIndex, EmailIndex, AskedRole, WhoIs, Sound, Start,
        OwnChanges, FlatsOf, LeftOver;
    assert PlannedAt(k, i) == PlanPerson(j.ctx, End(j), Groups(j)[i], es, Taken(j, i));
  }

  lemma {:induction false} EveryoneAgain(j: Job, n: nat)
    requires Ready(j) && n <= |Groups(j)| && Sound(End(j))
    ensures Taken(Again(j), n) == Taken(j, n)
    ensures forall i | 0 <= i < n :: P(Again(j), i).found == Some(Uid(j, i)) && P(Again(j), i).changes == LeftOver(j, i)
  {
    hide P, Sorted, SavedWhole, State, Uid, Sound, Taken, LeftOver;
    if n > 0 {
      EveryoneAgain(j, n - 1);
      PersonAgain(j, n - 1);
    } else {
      NobodyTaken(j);
    }
  }

  lemma NobodyTaken(j: Job)
    requires Sound(j.db) && Sound(End(j))
    ensures Taken(j, 0) == Taken(Again(j), 0)
  {
  }

  /** A plan to be saved whole: nobody is refused, no two people of the file are one saved user, every change is
      ticked and can be, and the database takes it all. */
  predicate CleanPlan(choice: Choice, plan: seq<Person>) {
    && (forall i | 0 <= i < |plan| :: SavedWhole(choice, plan[i]))
    && (forall i, k | 0 <= i < k < |plan| :: plan[i].found.Some? ==> plan[i].found != plan[k].found)
  }

  /** Saving a clean plan and planning the same lines again finds everyone, and lists nothing but the roles that
      were withheld as the asker's own from people whose email the file then changed. */
  lemma ImportIsAFixpoint(ctx: Context, db: Db, entries: seq<Entry>, picks: map<int, string>, choice: Choice)
    requires Sound(db) && DistinctLines(WithRelations(entries, picks))
    requires CleanPlan(choice, Plan(ctx, db, WithRelations(entries, picks)))
    ensures var es := WithRelations(entries, picks);
            var saved := Committed(ctx, db, entries, picks, choice);
            var j := Job(ctx, db, es, choice);
            && Sound(saved)
            && var again := Plan(ctx, saved, es);
               && |again| == |Plan(ctx, db, es)| == |Groups(j)|
               && (forall i | 0 <= i < |again| ::
                   again[i].found == Some(Uid(j, i)) && again[i].changes == LeftOver(j, i))
               && ((forall i | 0 <= i < |again| :: again[i].changes == [])
                   <==> forall i | 0 <= i < |again| :: !OwnEmailGone(j, i))
  {
    var es := WithRelations(entries, picks);
    var j := Job(ctx, db, es, choice);
    var n := |Groups(j)|;
    PlanIs(j);
    StateIs(j, n);
    hide Plan, P, Sorted, SavedWhole, State, Uid, Sound, Taken, OwnEmailGone;
    EndSound(j);
    EveryoneAgain(j, n);
    PlanIs(Again(j));
    LeftOverIs(j);
  }

  lemma LeftOverIs(j: Job)
    requires Sound(j.db)
    ensures forall i | 0 <= i < |Groups(j)| :: LeftOver(j, i) == [] <==> !OwnEmailGone(j, i)
  {
  }

  // ---- the case that is left over does happen

  const SAMPLE_CONTEXT := Context(
    Reading(true, (t: string) => t, (t: string) => true, (t: string) => t), false, map["staff" := 2], map[],
    (t: string) => t, (t: string) => t == "", (t: string) => None, (w: string, f: string) => (w, f),
    (a: string, b: string) => true, false, "a@x.in")

  const SAMPLE_LINE := Entry(2, "Asha", "b@x.in", "+911", "staff", "", "", "", "", "")

  const SAMPLE_DB := Db(map[0 := User("Asha", "a@x.in", "+911", Some(1))], map[], 1)

  const TICK_ALL := Choice({}, {}, map[], {}, {})

  lemma FoundNothing(keys: seq<Key>)
    ensures Found(map[], keys) == []
  {
  }

  lemma SampleSorted()
    ensures Sorted(SAMPLE_CONTEXT.reading, [SAMPLE_LINE]).groups == [Group([0], "+911", "b@x.in", "Asha")]
  {
    var r := SAMPLE_CONTEXT.reading;
    assert [SAMPLE_LINE][..0] == [];
    assert Keys(r, SAMPLE_LINE) == [Number("+911"), Mail("b@x.in")];
    FoundNothing(Keys(r, SAMPLE_LINE));
    assert Judge(r, map[], SAMPLE_LINE) == StartNew;
    assert [SAMPLE_LINE][0] == SAMPLE_LINE;
    assert Sorted(r, []) == Sorting([], map[], []);
    assert Sorted(r, [SAMPLE_LINE]) == Place(r, Sorted(r, []), 0, SAMPLE_LINE);
    assert Grown(r, NOBODY, 0, SAMPLE_LINE) == Group([0], "+911", "b@x.in", "Asha");
  }

  lemma SampleColumns(g: Group)
    requires g == Group([0], "+911", "b@x.in", "Asha")
    ensures Sound(SAMPLE_DB) && AskedRole(SAMPLE_CONTEXT, [SAMPLE_LINE]) == Some(2)
    ensures !WhoIs(SAMPLE_DB, g).Clash() && WhoIs(SAMPLE_DB, g).Found() == Some(0)
    ensures OwnChanges(SAMPLE_CONTEXT, SAMPLE_DB, g, [SAMPLE_LINE], 0) == [SetEmail("b@x.in")]
  {
    hide AskedRole, WhoIs;
    SampleRole();
    SampleWho(SAMPLE_DB, User("Asha", "a@x.in", "+911", Some(1)), g);
  }

  /** The one user there is, known by number and not by email. */
  lemma SampleWho(db: Db, user: User, g: Group)
    requires db.users == map[0 := user] && db.next == 1
    requires user.phone == g.phone != "" && g.email != "" && user.email != g.email
    ensures Sound(db) && !WhoIs(db, g).Clash() && WhoIs(db, g).Found() == Some(0)
    ensures g.email !in EmailIndex(db.users)
  {
    assert db.users[0] == user;
    assert g.phone in PhoneIndex(db.users) && PhoneIndex(db.users)[g.phone] == 0;
  }

  lemma SampleRole()
    ensures AskedRole(SAMPLE_CONTEXT, [SAMPLE_LINE]) == Some(2)
  {
    assert seq(1, p requires 0 <= p < 1 => [SAMPLE_LINE][p].roleText) == ["staff"];
  }

  lemma SamplePlan(j: Job)
    requires j == Job(SAMPLE_CONTEXT, SAMPLE_DB, [SAMPLE_LINE], TICK_ALL)
    requires Groups(j) == [Group([0], "+911", "b@x.in", "Asha")]
    ensures Sound(j.db) && Lines(j, 0) == [SAMPLE_LINE] && AskedRole(j.ctx, [SAMPLE_LINE]) == Some(2)
    ensures P(j, 0).found == Some(0) && P(j, 0).status == Update && P(j, 0).changes == [SetEmail("b@x.in")]
  {
    hide AskedRole, Lines, Sorted, OwnChanges, PhoneIndex, EmailIndex, Sound, WhoIs, FlatsOf;
    SampleColumns(Groups(j)[0]);
    LinesIn(j, 0);
    assert Lines(j, 0) == [SAMPLE_LINE];
    SampleFlats(Flats({}, map[], [SetEmail("b@x.in")]));
  }

  lemma SampleFlats(f: Flats)
    ensures FlatsOf(SAMPLE_CONTEXT, map[], Some(0), 2, f, [SAMPLE_LINE]) == f
  {
    assert FlatStep(SAMPLE_CONTEXT, map[], Some(0), 2, f, SAMPLE_LINE) == f;
    assert [SAMPLE_LINE][1..] == [];
  }

  lemma SampleGone(j: Job)
    requires j == Job(SAMPLE_CONTEXT, SAMPLE_DB, [SAMPLE_LINE], TICK_ALL)
    requires Groups(j) == [Group([0], "+911", "b@x.in", "Asha")]
    ensures Sound(j.db) && SavedWhole(j.choice, P(j, 0)) && OwnEmailGone(j, 0) && LeftOver(j, 0) == [SetRole(2)]
  {
    SamplePlan(j);
    hide P, Sorted, Sound, AskedRole, Lines, WhoIs;
  }

  /** An admin's own line, matched by number, with a new email and another role: the role is withheld the first
      time and asked for the second time. */
  lemma {:induction false} OwnEmailCanGo()
    ensures Sound(SAMPLE_DB)
    ensures var saved := Committed(SAMPLE_CONTEXT, SAMPLE_DB, [SAMPLE_LINE], map[], TICK_ALL);
            && |Plan(SAMPLE_CONTEXT, SAMPLE_DB, [SAMPLE_LINE])| == 1
            && Plan(SAMPLE_CONTEXT, SAMPLE_DB, [SAMPLE_LINE])[0].changes == [SetEmail("b@x.in")]
            && Sound(saved)
            && |Plan(SAMPLE_CONTEXT, saved, [SAMPLE_LINE])| == 1
            && Plan(SAMPLE_CONTEXT, saved, [SAMPLE_LINE])[0].changes == [SetRole(2)]
  {
    var es := [SAMPLE_LINE];
    assert WithRelations(es, map[]) == es;
    var j := Job(SAMPLE_CONTEXT, SAMPLE_DB, es, TICK_ALL);
    SampleSorted();
    SamplePlan(j);
    hide Plan, P, Sorted, Sound, AskedRole, Lines, Uid, Committed;
    PlanIs(j);
    SampleGone(j);
    ImportIsAFixpoint(SAMPLE_CONTEXT, SAMPLE_DB, es, map[], TICK_ALL);
  }

  // ---- what a plan says of a person

  /** Every home in a person's plan is as one of the person's lines says, and the status tells a new person, one with
      nothing to change, one with something to look at, and one whose changes are all ticked. */
  lemma PersonSays(j: Job, i: nat)
    requires Sound(j.db) && DistinctLines(j.entries) && i < |Groups(j)| && P(j, i).status != Refused
    ensures var p := P(j, i);
            && (forall c | c in p.changes :: Said(j.ctx, j.db.homes, p.found, Lines(j, i), c))
            && (p.status == New <==> p.found.None?)
            && (p.status == Same <==> p.found.Some? && p.changes == [])
            && (p.status == Check <==>
                  p.found.Some? && exists c :: c in p.changes && (c.PickRelation? || (c.SetName? && !c.likely)))
            && (p.found.Some? ==>
                  var user := j.db.users[p.found.value]; var asked := AskedRole(j.ctx, Lines(j, i));
                  (exists c :: c in p.changes && c.SetRole?)
                  <==> asked.Some? && asked != user.role
                       && (j.ctx.isSuper || j.ctx.account == "" || user.email != j.ctx.account))
  {
    hide FlatsOf, Start, Said, WhoIs, Lines, Sorted, Sound, DistinctLines;
    PersonIs(j, i);
    ChangesAre(j, i);
    var p, es := P(j, i), Lines(j, i);
    HomesAreSaid(j.ctx, j.db.homes, p.found, p.key, Start(j, i), es, es);
    forall c | c in Start(j, i).changes ensures Said(j.ctx, j.db.homes, p.found, es, c) {
      NoHomeSaid(j.ctx, j.db.homes, p.found, es, c);
    }
    StatusIs(j, i);
    if p.found.Some? {
      RoleListed(j, i);
      RolesFirst(Start(j, i).changes, p.changes);
    }
  }

  lemma RoleListed(j: Job, i: nat)
    requires Sound(j.db) && i < |Groups(j)| && P(j, i).status != Refused && P(j, i).found.Some?
    requires P(j, i).found.value in j.db.users && !WhoIs(j.db, Groups(j)[i]).Clash()
    ensures var user := j.db.users[P(j, i).found.value]; var asked := AskedRole(j.ctx, Lines(j, i));
            (exists c :: c in Start(j, i).changes && c.SetRole?)
            <==> asked.Some? && asked != user.role
                 && (j.ctx.isSuper || j.ctx.account == "" || user.email != j.ctx.account)
  {
    hide P, FlatsOf, WhoIs, Lines, Sorted, AskedRole, EmailIndex, PhoneIndex;
    PersonIs(j, i);
    var u := P(j, i).found.value;
    var user, g, asked := j.db.users[u], Groups(j)[i], AskedRole(j.ctx, Lines(j, i));
    StartFound(j, i, u);
    RoleColumn(user, g, j.ctx.samePerson(g.name, user.name), Get(EmailIndex(j.db.users), g.email) in {None, Some(u)},
               Get(PhoneIndex(j.db.users), g.phone) in {None, Some(u)}, asked, Mine(j.ctx, user));
  }

  lemma RoleColumn(user: User, g: Group, alike: bool, emailFree: bool, phoneFree: bool, asked: Option<RoleId>,
      mine: bool)
    ensures var cs := ColumnChanges(user, g, alike, emailFree, phoneFree, asked, mine);
            (exists c :: c in cs && c.SetRole?) <==> asked.Some? && asked != user.role && !mine
  {
    var cs := ColumnChanges(user, g, alike, emailFree, phoneFree, asked, mine);
    if asked.Some? && asked != user.role && !mine {
      assert cs[|cs| - 1] == SetRole(asked.value);
      assert SetRole(asked.value) in cs;
    }
  }

  lemma RolesFirst(own: seq<Change>, cs: seq<Change>)
    requires own <= cs && OnlyFlats(cs[|own|..])
    ensures (exists c :: c in cs && c.SetRole?) <==> exists c :: c in own && c.SetRole?
  {
    assert cs == own + cs[|own|..];
  }

  lemma NoHomeSaid(ctx: Context, homes: Homes, u: Option<UserId>, es: seq<Entry>, c: Change)
    requires !c.SetHome?
    ensures Said(ctx, homes, u, es, c)
  {
  }

  lemma StatusIs(j: Job, i: nat)
    requires Sound(j.db) && i < |Groups(j)| && P(j, i).status != Refused
    ensures var p := P(j, i); p.status == StatusOf(p.found.Some?, p.changes)
  {
    hide FlatsOf, WhoIs, OwnChanges, Sorted, Sound, Lines, NewRole, StatusOf;
  }

  /** What a plan says of somebody found, column by column: the texts of the lines where they give another, the name
      with whether it is likely the same person's. */
  lemma ColumnsSay(j: Job, i: nat)
    requires Sound(j.db) && DistinctLines(j.entries) && i < |Groups(j)| && P(j, i).status != Refused
             && P(j, i).found.Some?
    ensures P(j, i).found.value in j.db.users
    ensures var p, g := P(j, i), Groups(j)[i]; var user := j.db.users[p.found.value];
            && (forall c | c in p.changes && c.SetName? ::
                  c.name == g.name != user.name && c.likely == j.ctx.samePerson(g.name, user.name))
            && (forall c | c in p.changes && c.SetEmail? :: c.email == g.email != user.email)
            && (forall c | c in p.changes && c.SetPhone? :: c.phone == g.phone != user.phone)
            && (forall c | c in p.changes && c.SetRole? :: AskedRole(j.ctx, Lines(j, i)) == Some(c.role) != user.role)
  {
    hide P, FlatsOf, WhoIs, Lines, Sorted, AskedRole, EmailIndex, PhoneIndex, DistinctLines, Start, OwnChanges;
    PersonIs(j, i);
    ChangesAre(j, i);
    var p, g := P(j, i), Groups(j)[i];
    var u := p.found.value;
    var own := Start(j, i).changes;
    StartFound(j, i, u);
    OwnSays(j.ctx, j.db, g, Lines(j, i), u);
    ColumnsFirst(own, p.changes);
  }

  lemma ColumnsFirst(own: seq<Change>, cs: seq<Change>)
    requires own <= cs && OnlyFlats(cs[|own|..])
    ensures forall c | c in cs && !c.SetHome? && !c.PickRelation? :: c in own
  {
    assert cs == own + cs[|own|..];
  }

  lemma OwnSays(ctx: Context, db: Db, g: Group, es: seq<Entry>, u: UserId)
    requires Sound(db) && u in db.users
    ensures var user, own := db.users[u], OwnChanges(ctx, db, g, es, u);
            && (forall c | c in own && c.SetName? ::
                  c.name == g.name != user.name && c.likely == ctx.samePerson(g.name, user.name))
            && (forall c | c in own && c.SetEmail? :: c.email == g.email != user.email)
            && (forall c | c in own && c.SetPhone? :: c.phone == g.phone != user.phone)
            && (forall c | c in own && c.SetRole? :: AskedRole(ctx, es) == Some(c.role) != user.role)
  {
    hide AskedRole, EmailIndex, PhoneIndex;
  }
}
