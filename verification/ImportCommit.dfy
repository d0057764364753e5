// commit in app/admin_panel/people_import.py: the chosen part of a plan is saved, person by person.
module ImportCommit {
  import opened Wrappers
  import opened ImportGroups
  import opened ImportPlan

  /** What marks a change on the screen: the person's key, and the rest of the change's id. */
  type Id = (int, string)

  /** What came back from the screen, the roles there are, and whom the database will refuse. */
  datatype Choice = Choice(skip: set<Id>, use: set<Id>, roles: map<int, RoleId>, valid: set<RoleId>, refused: set<int>)

  datatype Outcome = Added | Updated | LeftOut | Untouched

  datatype Saved = Saved(db: Db, outcome: Outcome)

  function FlatName(flat: Flat): string { if flat.0 != "" then flat.0 + "-" + flat.1 else flat.1 }

  function IdOf(key: int, c: Change): Id {
    (key,
     match c
     case SetName(_, _) => "name"
     case SetEmail(_) => "email"
     case SetPhone(_) => "phone"
     case SetRole(_) => "role"
     case AddPerson => "new"
     case SetHome(_, flat, _) => "flat:" + FlatName(flat)
     case PickRelation(_, flat) => "flat:" + FlatName(flat))
  }

  predicate Picks(choice: Choice, key: int, c: Change) {
    !c.PickRelation? && IdOf(key, c) !in choice.skip && (Ticked(c) || IdOf(key, c) in choice.use)
  }

  function Picked(choice: Choice, key: int, changes: seq<Change>): seq<Change> {
    if changes == [] then []
    else (if Picks(choice, key, changes[0]) then [changes[0]] else []) + Picked(choice, key, changes[1..])
  }

  /** The relation picked on the screen goes into its line. */
  function WithRelations(entries: seq<Entry>, picks: map<int, string>): seq<Entry> {
    seq(|entries|, i requires 0 <= i < |entries| =>
      if entries[i].line in picks then entries[i].(relationText := picks[entries[i].line]) else entries[i])
  }

  /** The place of the first entry with a line number. */
  function EntryAt(entries: seq<Entry>, line: int): (at: nat)
    ensures at <= |entries|
  {
    if entries == [] then 0 else if entries[0].line == line then 0 else 1 + EntryAt(entries[1..], line)
  }

  /** Nobody else is the primary member of a flat any more. */
  function Cleared(homes: map<(UserId, Flat), Home>, flat: Flat, except: UserId): map<(UserId, Flat), Home> {
    map h | h in homes :: if h.1 == flat && h.0 != except then homes[h].(primary := false) else homes[h]
  }

  function PutHome(homes: map<(UserId, Flat), Home>, u: UserId, flat: Flat, home: Home): map<(UserId, Flat), Home> {
    (if home.primary then Cleared(homes, flat, u) else homes)[(u, flat) := home]
  }

  /** Save the flats among some changes. */
  function PutHomes(ctx: Context, entries: seq<Entry>, homes: map<(UserId, Flat), Home>, u: UserId, cs: seq<Change>)
    : map<(UserId, Flat), Home>
    decreases |cs|
  {
    if cs == [] then homes
    else if cs[0].SetHome? && EntryAt(entries, cs[0].line) < |entries| then
      var e := entries[EntryAt(entries, cs[0].line)];
      PutHomes(ctx, entries, PutHome(homes, u, ctx.flatParts(e.wing, e.flat), cs[0].home), u, cs[1..])
    else PutHomes(ctx, entries, homes, u, cs[1..])
  }

  function SetColumn(user: User, c: Change): User {
    match c
    case SetName(name, _) => user.(name := name)
    case SetEmail(email) => user.(email := email)
    case SetPhone(phone) => user.(phone := phone)
    case SetRole(role) => user.(role := Some(role))
    case _ => user
  }

  function SetColumns(user: User, cs: seq<Change>): User
    decreases |cs|
  {
    if cs == [] then user else SetColumns(SetColumn(user, cs[0]), cs[1..])
  }

  function RoleFor(choice: Choice, p: Person): Option<RoleId> {
    if p.key in choice.roles then Some(choice.roles[p.key]) else p.role
  }

  /** What becomes of one person of the plan. */
  function OutcomeOf(choice: Choice, p: Person): Outcome {
    var picked := Picked(choice, p.key, p.changes);
    if p.status == Refused then LeftOut
    else if (p.found.None? && AddPerson !in picked) || picked == [] then Untouched
    else if AddPerson in picked && (RoleFor(choice, p).None? || RoleFor(choice, p).value !in choice.valid) then LeftOut
    else if p.key in choice.refused then LeftOut
    else if AddPerson in picked then Added
    else Updated
  }

  function CommitPerson(ctx: Context, entries: seq<Entry>, choice: Choice, db: Db, p: Person): Saved {
    var picked := Picked(choice, p.key, p.changes);
    match OutcomeOf(choice, p)
    case Added =>
      Saved(Db(db.users[db.next := User(p.name, p.email, p.phone, RoleFor(choice, p))],
               PutHomes(ctx, entries, db.homes, db.next, picked), db.next + 1), Added)
    case Updated =>
      var u := p.found.value;
      Saved(db.(users := if u in db.users then db.users[u := SetColumns(db.users[u], picked)] else db.users,
                homes := PutHomes(ctx, entries, db.homes, u, picked)), Updated)
    case other => Saved(db, other)
  }

  /** The tables after the first `k` people of a plan. */
  function After(ctx: Context, entries: seq<Entry>, choice: Choice, db: Db, people: seq<Person>, k: nat): Db
    requires k <= |people|
  {
    if k == 0 then db
    else CommitPerson(ctx, entries, choice, After(ctx, entries, choice, db, people, k - 1), people[k - 1]).db
  }

  /** The tables after a whole commit: the plan is worked out again from the tables as they are now. */
  function Committed(ctx: Context, db: Db, entries: seq<Entry>, picks: map<int, string>, choice: Choice): Db
    requires Sound(db)
  {
    var es := WithRelations(entries, picks);
    var people := Plan(ctx, db, es);
    After(ctx, es, choice, db, people, |people|)
  }

  /** The keys of the people of one outcome, in order. */
  function With(choice: Choice, people: seq<Person>, o: Outcome): seq<int> {
    if people == [] then []
    else (if OutcomeOf(choice, people[0]) == o then [people[0].key] else []) + With(choice, people[1..], o)
  }

  lemma {:induction false} WithMore(choice: Choice, people: seq<Person>, p: Person, o: Outcome)
    ensures With(choice, people + [p], o) == With(choice, people, o) + if OutcomeOf(choice, p) == o then [p.key] else []
  {
    hide OutcomeOf;
    if people == [] {
      assert [p][1..] == [];
    } else {
      WithMore(choice, people[1..], p, o);
      assert (people + [p])[1..] == people[1..] + [p];
    }
  }

  lemma NobodyWith(choice: Choice, people: seq<Person>)
    ensures forall o :: With(choice, people[..0], o) == []
  {
  }

  lemma NextWith(choice: Choice, people: seq<Person>, k: nat)
    requires k < |people|
    ensures forall o :: With(choice, people[..k + 1], o)
                     == With(choice, people[..k], o) + if OutcomeOf(choice, people[k]) == o then [people[k].key] else []
  {
    hide With, OutcomeOf;
    assert people[..k + 1] == people[..k] + [people[k]];
    forall o ensures With(choice, people[..k + 1], o)
                  == With(choice, people[..k], o) + if OutcomeOf(choice, people[k]) == o then [people[k].key] else []
    {
      WithMore(choice, people[..k], people[k], o);
    }
  }

  class Tables {
    var users: map<UserId, User>
    var homes: map<(UserId, Flat), Home>
    var next: UserId

    function Whole(): Db
      reads this
    {
      Db(users, homes, next)
    }

    method Commit(ctx: Context, entries: seq<Entry>, picks: map<int, string>, choice: Choice)
      returns (added: seq<int>, updated: seq<int>, left: seq<int>)
      requires Sound(Whole())
      modifies this
      ensures Whole() == Committed(ctx, old(Whole()), entries, picks, choice)
      ensures var people := Plan(ctx, old(Whole()), WithRelations(entries, picks));
              added == With(choice, people, Added) && updated == With(choice, people, Updated)
              && left == With(choice, people, LeftOut)
    {
      hide Plan, CommitPerson, OutcomeOf, WithRelations, With, Sound;
      var es := WithRelations(entries, picks);
      var people, _ := BuildPlan(ctx, Whole(), es);
      added, updated, left := [], [], [];
      NobodyWith(choice, people);
      for k := 0 to |people|
        invariant Whole() == After(ctx, es, choice, old(Whole()), people, k)
        invariant added == With(choice, people[..k], Added)
        invariant updated == With(choice, people[..k], Updated)
        invariant left == With(choice, people[..k], LeftOut)
      {
        NextWith(choice, people, k);
        var o := SaveOne(ctx, es, choice, people[k]);
        if o == Added { added := added + [people[k].key]; }
        if o == Updated { updated := updated + [people[k].key]; }
        if o == LeftOut { left := left + [people[k].key]; }
      }
      assert people[..|people|] == people;
    }

    /** One person, all or nothing. */
    method SaveOne(ctx: Context, entries: seq<Entry>, choice: Choice, p: Person) returns (o: Outcome)
      modifies this
      ensures Whole() == CommitPerson(ctx, entries, choice, old(Whole()), p).db
      ensures o == OutcomeOf(choice, p)
    {
      hide Picks, PutHomes, SetColumns;
      var picked := PickFrom(choice, p);
      if p.status == Refused { return LeftOut; }
      var adds := AddPerson in picked;
      if (p.found.None? && !adds) || picked == [] { return Untouched; }
      var role := RoleFor(choice, p);
      if adds && (role.None? || role.value !in choice.valid) { return LeftOut; }
      if p.key in choice.refused { return LeftOut; }
      var uid: UserId;
      if adds {
        uid := next;
        users := users[uid := User(p.name, p.email, p.phone, role)];
        next := next + 1;
      } else {
        uid := p.found.value;
        if uid in users {
          var user := ColumnsSet(users[uid], picked);
          users := users[uid := user];
        }
      }
      SaveHomes(ctx, entries, uid, picked);
      return if adds then Added else Updated;
    }

    method SaveHomes(ctx: Context, entries: seq<Entry>, uid: UserId, cs: seq<Change>)
      modifies this`homes
      ensures homes == PutHomes(ctx, entries, old(homes), uid, cs)
    {
      for i := 0 to |cs|
        invariant PutHomes(ctx, entries, homes, uid, cs[i..]) == PutHomes(ctx, entries, old(homes), uid, cs)
      {
        assert cs[i..][0] == cs[i] && cs[i..][1..] == cs[i + 1..];
        if cs[i].SetHome? {
          var at := EntryAt(entries, cs[i].line);
          if at < |entries| {
            var flat := ctx.flatParts(entries[at].wing, entries[at].flat);
            if cs[i].home.primary { homes := Cleared(homes, flat, uid); }
            homes := homes[(uid, flat) := cs[i].home];
          }
        }
      }
    }
  }

  method PickFrom(choice: Choice, p: Person) returns (picked: seq<Change>)
    ensures picked == Picked(choice, p.key, p.changes)
  {
    hide Picks, Picked;
    picked := [];
    assert p.changes[0..] == p.changes;
    for i := 0 to |p.changes|
      invariant picked + Picked(choice, p.key, p.changes[i..]) == Picked(choice, p.key, p.changes)
    {
      PickedNext(choice, p.key, p.changes, i);
      if Picks(choice, p.key, p.changes[i]) { picked := picked + [p.changes[i]]; }
    }
    assert p.changes[|p.changes|..] == [];
    PickedNone(choice, p.key);
  }

  lemma PickedNext(choice: Choice, key: int, cs: seq<Change>, i: nat)
    requires i < |cs|
    ensures Picked(choice, key, cs[i..])
            == (if Picks(choice, key, cs[i]) then [cs[i]] else []) + Picked(choice, key, cs[i + 1..])
  {
    hide Picks;
    assert cs[i..][0] == cs[i] && cs[i..][1..] == cs[i + 1..];
  }

  lemma PickedNone(choice: Choice, key: int)
    ensures Picked(choice, key, []) == []
  {
  }

  method ColumnsSet(before: User, cs: seq<Change>) returns (user: User)
    ensures user == SetColumns(before, cs)
  {
    user := before;
    for i := 0 to |cs|
      invariant SetColumns(user, cs[i..]) == SetColumns(before, cs)
    {
      assert cs[i..][0] == cs[i] && cs[i..][1..] == cs[i + 1..];
      user := SetColumn(user, cs[i]);
    }
  }

  // ---- at most one primary member in a flat, never a tenant

  predicate OnePrimary(homes: map<(UserId, Flat), Home>) {
    forall h, k | h in homes && k in homes && h.1 == k.1 && homes[h].primary && homes[k].primary :: h == k
  }

  predicate NoTenantPrimary(homes: map<(UserId, Flat), Home>) {
    forall h | h in homes && homes[h].primary :: !TenantSide(homes[h].relation)
  }

  predicate ProperHomes(cs: seq<Change>) {
    forall c | c in cs && c.SetHome? && c.home.primary :: !TenantSide(c.home.relation)
  }

  lemma {:induction false} PutHomesKeeps(ctx: Context, entries: seq<Entry>, homes: map<(UserId, Flat), Home>,
      u: UserId, cs: seq<Change>)
    requires OnePrimary(homes) && NoTenantPrimary(homes) && ProperHomes(cs)
    ensures OnePrimary(PutHomes(ctx, entries, homes, u, cs)) && NoTenantPrimary(PutHomes(ctx, entries, homes, u, cs))
    decreases |cs|
  {
    if cs != [] {
      var next := homes;
      if cs[0].SetHome? && EntryAt(entries, cs[0].line) < |entries| {
        var e := entries[EntryAt(entries, cs[0].line)];
        next := PutHome(homes, u, ctx.flatParts(e.wing, e.flat), cs[0].home);
      }
      hide PutHome;
      PutHomesKeeps(ctx, entries, next, u, cs[1..]);
    }
  }
}
