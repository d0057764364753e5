// What a commit saves of a plan: the changes that were kept on the screen, and nothing else.
module ImportChoice {
  import opened Wrappers
  import opened ImportGroups
  import opened ImportPlan
  import opened ImportCommit
  import opened ImportFlats
  import opened ImportFixpoint

  /** A change is kept when its box was not cleared, and was ticked from the start or by hand. A name that is not
      likely to be the same person's is not ticked from the start; a flat without a relation can not be kept. */
  predicate Kept(choice: Choice, key: int, c: Change) {
    match c
    case SetName(_, likely) => (key, "name") !in choice.skip && (likely || (key, "name") in choice.use)
    case SetEmail(_) => (key, "email") !in choice.skip
    case SetPhone(_) => (key, "phone") !in choice.skip
    case SetRole(_) => (key, "role") !in choice.skip
    case AddPerson => (key, "new") !in choice.skip
    case SetHome(_, flat, _) => (key, "flat:" + (if flat.0 == "" then "" else flat.0 + "-") + flat.1) !in choice.skip
    case PickRelation(_, _) => false
  }

  lemma KeptIs(choice: Choice, key: int, c: Change)
    ensures Picks(choice, key, c) <==> Kept(choice, key, c)
  {
    if c.SetHome? && c.flat.0 == "" { assert "flat:" + "" + c.flat.1 == "flat:" + c.flat.1; }
    if c.SetHome? && c.flat.0 != "" {
      assert "flat:" + (c.flat.0 + "-") + c.flat.1 == "flat:" + (c.flat.0 + "-" + c.flat.1);
    }
  }

  lemma {:induction false} PickedAreKept(choice: Choice, key: int, cs: seq<Change>)
    ensures forall c :: c in Picked(choice, key, cs) <==> c in cs && Kept(choice, key, c)
    ensures OnceEach(cs) ==> OnceEach(Picked(choice, key, cs))
    ensures OneOfEach(cs) ==> OneOfEach(Picked(choice, key, cs))
  {
    hide Picks, Kept;
    if cs != [] {
      var more := Picked(choice, key, cs[1..]);
      PickedAreKept(choice, key, cs[1..]);
      KeptIs(choice, key, cs[0]);
      assert cs == [cs[0]] + cs[1..];
      OnceMore(cs[0], cs[1..], more);
    }
  }

  /** At most one change of each column. */
  predicate OneOfEach(cs: seq<Change>) {
    forall i, j | 0 <= i < j < |cs| :: !SameColumn(cs[i], cs[j])
  }

  predicate SameColumn(a: Change, b: Change) {
    (a.SetName? && b.SetName?) || (a.SetEmail? && b.SetEmail?) || (a.SetPhone? && b.SetPhone?)
        || (a.SetRole? && b.SetRole?)
  }

  lemma OnceMore(c: Change, cs: seq<Change>, some: seq<Change>)
    requires forall d | d in some :: d in cs
    ensures OnceEach([c] + cs) && OnceEach(some) ==> OnceEach([c] + some)
    ensures OneOfEach([c] + cs) && OneOfEach(some) ==> OneOfEach([c] + some)
    ensures OnceEach([c] + cs) ==> OnceEach(cs)
    ensures OneOfEach([c] + cs) ==> OneOfEach(cs)
  {
    hide SameColumn;
    var all, part := [c] + cs, [c] + some;
    assert forall k | 0 <= k < |cs| :: cs[k] == all[k + 1];
    assert forall k | 0 < k < |part| :: part[k] == some[k - 1];
    if OneOfEach(all) && OneOfEach(some) {
      forall i, j | 0 <= i < j < |part| ensures !SameColumn(part[i], part[j]) {
        if i == 0 {
          var k := PlaceIn(c, cs, some[j - 1]);
          assert all[0] == part[0] && all[k] == part[j];
        } else {
          assert part[i] == some[i - 1] && part[j] == some[j - 1];
        }
      }
    }
    if OnceEach(all) && OnceEach(some) {
      forall i, j | 0 <= i < j < |part| && part[i].SetHome? && part[j].SetHome? ensures part[i].flat != part[j].flat {
        if i == 0 {
          var k := PlaceIn(c, cs, some[j - 1]);
          assert all[0] == part[0] && all[k] == part[j];
        } else {
          assert part[i] == some[i - 1] && part[j] == some[j - 1];
        }
      }
    }
  }

  lemma PlaceIn(c: Change, cs: seq<Change>, d: Change) returns (k: nat)
    requires d in cs
    ensures 0 < k < |[c] + cs| && ([c] + cs)[k] == d
  {
    var j :| 0 <= j < |cs| && cs[j] == d;
    k := j + 1;
  }

  // ---- one person's columns

  /** What is saved of the columns, change by change. */
  ghost predicate ColumnsFrom(before: User, after: User, cs: set<Change>) {
    && (after.name == before.name || exists c | c in cs :: c.SetName? && c.name == after.name)
    && (after.email == before.email || exists c | c in cs :: c.SetEmail? && c.email == after.email)
    && (after.phone == before.phone || exists c | c in cs :: c.SetPhone? && c.phone == after.phone)
    && (after.role == before.role || exists c | c in cs :: c.SetRole? && Some(c.role) == after.role)
  }

  /** A change shows in the columns. */
  predicate Shows(user: User, c: Change) {
    match c
    case SetName(name, _) => user.name == name
    case SetEmail(email) => user.email == email
    case SetPhone(phone) => user.phone == phone
    case SetRole(role) => user.role == Some(role)
    case _ => true
  }

  lemma {:induction false} ColumnsSet(user: User, cs: seq<Change>)
    ensures ColumnsFrom(user, SetColumns(user, cs), set c | c in cs)
    ensures OneOfEach(cs) ==> forall c | c in cs :: Shows(SetColumns(user, cs), c)
    decreases |cs|
  {
    if cs != [] {
      var c, more := cs[0], cs[1..];
      var mid := SetColumn(user, c);
      ColumnsSet(mid, more);
      assert cs == [c] + more && c in cs;
      OnceMore(c, more, []);
      OneStep(user, mid, SetColumns(mid, more), c, more);
      if OneOfEach(cs) { FirstShows(user, c, more); }
    }
  }

  lemma OneStep(user: User, mid: User, after: User, c: Change, more: seq<Change>)
    requires mid == SetColumn(user, c) && ColumnsFrom(mid, after, set d | d in more)
    ensures ColumnsFrom(user, after, set d | d in [c] + more)
  {
    var all := set d | d in [c] + more;
    assert c in all && forall d | d in more :: d in all;
  }

  /** The first change is not overwritten by the others. */
  lemma {:induction false} FirstShows(user: User, c: Change, more: seq<Change>)
    requires OneOfEach([c] + more)
    ensures Shows(SetColumns(SetColumn(user, c), more), c)
  {
    var all := [c] + more;
    forall d | d in more ensures !SameColumn(c, d) {
      var k :| 0 <= k < |more| && more[k] == d;
      assert all[0] == c && all[k + 1] == d;
    }
    StaysShown(SetColumn(user, c), c, more);
  }

  lemma {:induction false} StaysShown(user: User, c: Change, more: seq<Change>)
    requires Shows(user, c) && forall d | d in more :: !SameColumn(c, d)
    ensures Shows(SetColumns(user, more), c)
    decreases |more|
  {
    if more != [] {
      assert more[0] in more;
      StaysShown(SetColumn(user, more[0]), c, more[1..]);
    }
  }

  // ---- one person

  /** How a person of a plan is made up. */
  ghost predicate Fit(ctx: Context, db: Db, entries: seq<Entry>, p: Person) {
    && (p.found.Some? ==> p.found.value in db.users && AddPerson !in p.changes)
    && (p.status == Refused ==> p.changes == [])
    && OneOfEach(p.changes) && OnceEach(p.changes) && Located(ctx, entries, p.changes)
  }

  /** With nothing kept nothing is written: a new person is not added, and nobody's row or home is touched. */
  lemma NothingKept(ctx: Context, entries: seq<Entry>, choice: Choice, db: Db, p: Person)
    requires forall c | c in p.changes :: !Kept(choice, p.key, c)
    ensures CommitPerson(ctx, entries, choice, db, p).db == db
  {
    hide Kept, Picks;
    PickedAreKept(choice, p.key, p.changes);
    NoneIn(Picked(choice, p.key, p.changes));
  }

  lemma NoneIn(cs: seq<Change>)
    ensures (forall c :: c !in cs) ==> cs == []
  {
    assert cs != [] ==> cs[0] in cs;
  }

  ghost predicate Keeps(choice: Choice, p: Person, c: Change) { c in p.changes && Kept(choice, p.key, c) }

  /** A new person needs a role there is, the one picked on the screen or else the planned one, and must not be refused
      by the database. */
  predicate MayBeAdded(choice: Choice, p: Person) {
    && p.key !in choice.refused
    && if p.key in choice.roles then choice.roles[p.key] in choice.valid
       else p.role.Some? && p.role.value in choice.valid
  }

  /** Of somebody the database refuses nothing is saved. */
  lemma RefusedIsUntouched(ctx: Context, entries: seq<Entry>, choice: Choice, db: Db, p: Person)
    requires p.key in choice.refused
    ensures CommitPerson(ctx, entries, choice, db, p).db == db
  {
    hide Picked;
  }

  /** The database's own ids are below the next one. */
  predicate Numbered(db: Db) { forall u | u in db.users :: u < db.next }

  /** What saving one person does to the users. */
  ghost predicate UsersStep(choice: Choice, p: Person, before: Db, after: Db) {
    && Numbered(after) && before.next <= after.next
    && (forall u | u in before.users :: u in after.users)
    && (forall u | u in before.users && p.found != Some(u) :: after.users[u] == before.users[u])
    && (forall u | u in before.users && p.found == Some(u) ::
          ColumnsFrom(before.users[u], after.users[u], set c | c in p.changes && Kept(choice, p.key, c)))
    && (forall u | u in after.users && u !in before.users ::
          && p.found.None? && Keeps(choice, p, AddPerson) && MayBeAdded(choice, p)
          && u == before.next && after.users[u] == User(p.name, p.email, p.phone, RoleFor(choice, p)))
  }

  lemma UsersStepped(ctx: Context, entries: seq<Entry>, choice: Choice, db: Db, p: Person)
    requires Numbered(db) && (p.found.Some? ==> AddPerson !in p.changes)
    ensures UsersStep(choice, p, db, CommitPerson(ctx, entries, choice, db, p).db)
  {
    hide Kept, Picks, PutHomes, SetColumns;
    var picked := Picked(choice, p.key, p.changes);
    PickedAreKept(choice, p.key, p.changes);
    assert (set c | c in picked) == set c | c in p.changes && Kept(choice, p.key, c);
    if p.found.Some? && p.found.value in db.users { ColumnsSet(db.users[p.found.value], picked); }
  }

  // ---- one person's homes

  /** Saving one person's homes leaves other people's, but for the primary member where this one becomes it. */
  lemma {:induction false} PutElse(ctx: Context, entries: seq<Entry>, homes: Homes, u: UserId, cs: seq<Change>,
      v: UserId, flat: Flat)
    requires Located(ctx, entries, cs) && v != u
    ensures var before, after := Get(homes, (v, flat)), Get(PutHomes(ctx, entries, homes, u, cs), (v, flat));
            after == before
            || (before.Some? && before.value.primary && after == Some(before.value.(primary := false))
                && exists c :: c in cs && c.SetHome? && c.flat == flat && c.home.primary)
    decreases |cs|
  {
    if cs != [] {
      var next := homes;
      var c := cs[0];
      assert c in cs;
      assert cs == [c] + cs[1..];
      if c.SetHome? { next := PutHome(homes, u, c.flat, c.home); }
      PutElse(ctx, entries, next, u, cs[1..], v, flat);
    }
  }

  /** What saving one person does to a home of somebody. */
  ghost predicate HomeStep(choice: Choice, p: Person, mine: bool, flat: Flat, before: Option<Home>,
      after: Option<Home>) {
    || after == before
    || (mine && exists c :: Keeps(choice, p, c) && c.SetHome? && c.flat == flat && after == Some(c.home))
    || (!mine && before.Some? && before.value.primary && after == Some(before.value.(primary := false))
        && exists c :: Keeps(choice, p, c) && c.SetHome? && c.flat == flat && c.home.primary)
  }

  lemma KeptPart(ctx: Context, entries: seq<Entry>, choice: Choice, p: Person)
    requires OneOfEach(p.changes) && OnceEach(p.changes) && Located(ctx, entries, p.changes)
    ensures var picked := Picked(choice, p.key, p.changes);
            && OneOfEach(picked) && OnceEach(picked) && Located(ctx, entries, picked)
            && forall c :: c in picked <==> Keeps(choice, p, c)
  {
    hide Kept, Picks, OneOfEach, OnceEach;
    PickedAreKept(choice, p.key, p.changes);
  }

  /** The id a person is saved under. */
  function SavedAs(p: Person, db: Db): UserId { OrElse(p.found, db.next) }

  lemma HomesStepped(ctx: Context, entries: seq<Entry>, choice: Choice, db: Db, p: Person, u: UserId, flat: Flat)
    requires OneOfEach(p.changes) && OnceEach(p.changes) && Located(ctx, entries, p.changes)
    requires p.found.Some? ==> AddPerson !in p.changes
    ensures HomeStep(choice, p, SavedAs(p, db) == u, flat, Get(db.homes, (u, flat)),
                     Get(CommitPerson(ctx, entries, choice, db, p).db.homes, (u, flat)))
  {
    hide Kept, Picks, PutHomes, SetColumns, RoleFor, OneOfEach, OnceEach, Located;
    var picked := Picked(choice, p.key, p.changes);
    KeptPart(ctx, entries, choice, p);
    var to := SavedAs(p, db);
    if u == to {
      PutOwn(ctx, entries, db.homes, to, picked, flat);
    } else {
      PutElse(ctx, entries, db.homes, to, picked, u, flat);
    }
  }

  /** Whatever is kept of a person who is found, and not refused, is as it says once that person is saved. */
  lemma FoundSaved(ctx: Context, entries: seq<Entry>, choice: Choice, db: Db, p: Person, c: Change)
    requires Fit(ctx, db, entries, p) && p.found.Some? && p.key !in choice.refused && Keeps(choice, p, c)
    ensures var out := CommitPerson(ctx, entries, choice, db, p).db; var u := p.found.value;
            && u in out.users && Shows(out.users[u], c)
            && (c.SetHome? ==> Get(out.homes, (u, c.flat)) == Some(c.home))
  {
    hide Kept, Picks, PutHomes, SetColumns, RoleFor, OneOfEach, OnceEach, Located, Shows;
    var picked := Picked(choice, p.key, p.changes);
    KeptPart(ctx, entries, choice, p);
    assert c in picked;
    ColumnsSet(db.users[p.found.value], picked);
    if c.SetHome? { PutOwn(ctx, entries, db.homes, p.found.value, picked, c.flat); }
  }

  /** A new person who is kept, has a role there is and is not refused is added, with every home that is kept. */
  lemma NewSaved(ctx: Context, entries: seq<Entry>, choice: Choice, db: Db, p: Person)
    requires p.found.None? && p.status != Refused && p.key !in choice.refused && Keeps(choice, p, AddPerson)
    requires OneOfEach(p.changes) && OnceEach(p.changes) && Located(ctx, entries, p.changes)
    requires RoleFor(choice, p).Some? && RoleFor(choice, p).value in choice.valid
    ensures var out := CommitPerson(ctx, entries, choice, db, p).db; var u := db.next;
            && out.users == db.users[u := User(p.name, p.email, p.phone, RoleFor(choice, p))]
            && forall c | Keeps(choice, p, c) && c.SetHome? :: Get(out.homes, (u, c.flat)) == Some(c.home)
  {
    hide Kept, Picks, PutHomes, SetColumns, RoleFor, OneOfEach, OnceEach, Located;
    var picked := Picked(choice, p.key, p.changes);
    KeptPart(ctx, entries, choice, p);
    assert AddPerson in picked;
    var out := CommitPerson(ctx, entries, choice, db, p).db;
    forall c | Keeps(choice, p, c) && c.SetHome? ensures Get(out.homes, (db.next, c.flat)) == Some(c.home) {
      assert c in picked;
      PutOwn(ctx, entries, db.homes, db.next, picked, c.flat);
    }
  }

  // ---- a whole commit

  ghost predicate AllFit(ctx: Context, db: Db, entries: seq<Entry>, people: seq<Person>) {
    forall i | 0 <= i < |people| :: Fit(ctx, db, entries, people[i])
  }

  /** A change that one of the first k people of the plan is listed with as this user, and that is kept. */
  ghost predicate From(choice: Choice, people: seq<Person>, k: nat, u: UserId, c: Change) {
    exists i :: 0 <= i < k && i < |people| && people[i].found == Some(u) && Keeps(choice, people[i], c)
  }

  ghost predicate ColumnsBy(choice: Choice, people: seq<Person>, k: nat, u: UserId, before: User, after: User) {
    && (after.name == before.name || exists c :: From(choice, people, k, u, c) && c.SetName? && c.name == after.name)
    && (after.email == before.email || exists c ::
        From(choice, people, k, u, c) && c.SetEmail? && c.email == after.email)
    && (after.phone == before.phone || exists c ::
        From(choice, people, k, u, c) && c.SetPhone? && c.phone == after.phone)
    && (after.role == before.role || exists c ::
        From(choice, people, k, u, c) && c.SetRole? && Some(c.role) == after.role)
  }

  ghost predicate NewBy(choice: Choice, people: seq<Person>, k: nat, user: User) {
    exists i :: 0 <= i < k && i < |people| && people[i].found.None? && Keeps(choice, people[i], AddPerson)
      && MayBeAdded(choice, people[i])
      && user == User(people[i].name, people[i].email, people[i].phone, RoleFor(choice, people[i]))
  }

  ghost predicate UsersBy(choice: Choice, people: seq<Person>, k: nat, before: Db, after: Db) {
    && Numbered(after) && before.next <= after.next
    && (forall u | u in before.users ::
        u in after.users && ColumnsBy(choice, people, k, u, before.users[u], after.users[u]))
    && (forall u | u in after.users && u !in before.users ::
        u >= before.next && NewBy(choice, people, k, after.users[u]))
  }

  lemma ColumnsOn(choice: Choice, people: seq<Person>, k: nat, u: UserId, before: User, mid: User, after: User)
    requires k < |people| && ColumnsBy(choice, people, k, u, before, mid)
    requires if people[k].found == Some(u)
             then ColumnsFrom(mid, after, set c | c in people[k].changes && Kept(choice, people[k].key, c))
             else after == mid
    ensures ColumnsBy(choice, people, k + 1, u, before, after)
  {
    hide Kept;
    forall c | From(choice, people, k, u, c) ensures From(choice, people, k + 1, u, c) {}
    forall c | people[k].found == Some(u) && Keeps(choice, people[k], c) ensures From(choice, people, k + 1, u, c) {}
  }

  lemma UsersOn(choice: Choice, people: seq<Person>, k: nat, before: Db, mid: Db, after: Db)
    requires k < |people| && UsersBy(choice, people, k, before, mid) && UsersStep(choice, people[k], mid, after)
    requires people[k].found.Some? ==> people[k].found.value in before.users
    requires Numbered(before)
    ensures UsersBy(choice, people, k + 1, before, after)
  {
    hide ColumnsBy, ColumnsFrom, Keeps, Kept;
    forall u | u in before.users
        ensures u in after.users && ColumnsBy(choice, people, k + 1, u, before.users[u], after.users[u]) {
      ColumnsOn(choice, people, k, u, before.users[u], mid.users[u], after.users[u]);
    }
    forall u | u in after.users && u !in before.users
        ensures u >= before.next && NewBy(choice, people, k + 1, after.users[u]) {
      if u in mid.users {
        NewLater(choice, people, k, mid.users[u]);
      }
    }
  }

  lemma NewLater(choice: Choice, people: seq<Person>, k: nat, user: User)
    requires NewBy(choice, people, k, user)
    ensures NewBy(choice, people, k + 1, user)
  {
  }

  lemma {:induction false} UsersAfter(ctx: Context, entries: seq<Entry>, choice: Choice, db: Db, people: seq<Person>,
      k: nat)
    requires k <= |people| && Numbered(db) && AllFit(ctx, db, entries, people)
    ensures UsersBy(choice, people, k, db, After(ctx, entries, choice, db, people, k))
  {
    hide CommitPerson, UsersStep, UsersBy, AllFit;
    if k > 0 {
      var p := people[k - 1];
      FitHere(ctx, db, entries, people, k - 1);
      UsersAfter(ctx, entries, choice, db, people, k - 1);
      var mid := After(ctx, entries, choice, db, people, k - 1);
      UsersNumbered(choice, people, k - 1, db, mid);
      UsersStepped(ctx, entries, choice, mid, p);
      UsersOn(choice, people, k - 1, db, mid, After(ctx, entries, choice, db, people, k));
    } else {
      UsersStart(choice, people, db);
    }
  }

  lemma FitHere(ctx: Context, db: Db, entries: seq<Entry>, people: seq<Person>, k: nat)
    requires AllFit(ctx, db, entries, people) && k < |people|
    ensures var p := people[k];
            && (p.found.Some? ==> p.found.value in db.users && AddPerson !in p.changes)
            && OneOfEach(p.changes) && OnceEach(p.changes) && Located(ctx, entries, p.changes)
  {
    hide OneOfEach, OnceEach, Located;
  }

  lemma UsersNumbered(choice: Choice, people: seq<Person>, k: nat, before: Db, after: Db)
    requires UsersBy(choice, people, k, before, after)
    ensures Numbered(after) && before.next <= after.next && forall u | u in before.users :: u in after.users
  {
    hide ColumnsBy, NewBy;
  }

  lemma UsersStart(choice: Choice, people: seq<Person>, db: Db)
    requires Numbered(db)
    ensures UsersBy(choice, people, 0, db, db)
  {
  }

  /** A home of somebody there before: as it was, or as a kept change says, but for the primary member where somebody
      else's kept change makes them that. */
  ghost predicate HomeBy(choice: Choice, people: seq<Person>, k: nat, u: UserId, flat: Flat,
                         before: Option<Home>, after: Option<Home>) {
    exists base :: Given(choice, people, k, u, flat, before, base) && EndsAs(choice, people, k, u, flat, base, after)
  }

  ghost predicate Given(choice: Choice, people: seq<Person>, k: nat, u: UserId, flat: Flat,
                        before: Option<Home>, base: Option<Home>) {
    base == before || exists c :: From(choice, people, k, u, c) && c.SetHome? && c.flat == flat && base == Some(c.home)
  }

  ghost predicate EndsAs(choice: Choice, people: seq<Person>, k: nat, u: UserId, flat: Flat,
                         base: Option<Home>, after: Option<Home>) {
    || after == base
    || (base.Some? && base.value.primary && after == Some(base.value.(primary := false))
        && ElsePrimary(choice, people, k, u, flat))
  }

  ghost predicate ElsePrimary(choice: Choice, people: seq<Person>, k: nat, u: UserId, flat: Flat) {
    exists i, c :: 0 <= i < k && i < |people| && people[i].found != Some(u) && Keeps(choice, people[i], c)
      && c.SetHome? && c.flat == flat && c.home.primary
  }

  lemma HomeStart(choice: Choice, people: seq<Person>, u: UserId, flat: Flat, home: Option<Home>)
    ensures HomeBy(choice, people, 0, u, flat, home, home)
  {
    assert Given(choice, people, 0, u, flat, home, home) && EndsAs(choice, people, 0, u, flat, home, home);
  }

  lemma HomeOn(choice: Choice, people: seq<Person>, k: nat, u: UserId, flat: Flat,
               before: Option<Home>, mid: Option<Home>, after: Option<Home>)
    requires k < |people| && HomeBy(choice, people, k, u, flat, before, mid)
    requires HomeStep(choice, people[k], people[k].found == Some(u), flat, mid, after)
    ensures HomeBy(choice, people, k + 1, u, flat, before, after)
  {
    hide Given, EndsAs;
    var base :| Given(choice, people, k, u, flat, before, base) && EndsAs(choice, people, k, u, flat, base, mid);
    if after != mid && people[k].found == Some(u) {
      GivenNow(choice, people, k, u, flat, before, mid, after);
    } else {
      GivenOn(choice, people, k, u, flat, before, base);
      EndsOn(choice, people, k, u, flat, base, mid, after);
    }
  }

  lemma GivenNow(choice: Choice, people: seq<Person>, k: nat, u: UserId, flat: Flat,
                 before: Option<Home>, mid: Option<Home>, after: Option<Home>)
    requires k < |people| && people[k].found == Some(u) && after != mid
             && HomeStep(choice, people[k], true, flat, mid, after)
    ensures Given(choice, people, k + 1, u, flat, before, after) && EndsAs(choice, people, k + 1, u, flat, after, after)
  {
    hide Keeps;
    var c :| Keeps(choice, people[k], c) && c.SetHome? && c.flat == flat && after == Some(c.home);
    assert From(choice, people, k + 1, u, c);
  }

  lemma GivenOn(choice: Choice, people: seq<Person>, k: nat, u: UserId, flat: Flat, before: Option<Home>,
      base: Option<Home>)
    requires Given(choice, people, k, u, flat, before, base)
    ensures Given(choice, people, k + 1, u, flat, before, base)
  {
    hide Keeps;
    forall c | From(choice, people, k, u, c) ensures From(choice, people, k + 1, u, c) {}
  }

  lemma EndsOn(choice: Choice, people: seq<Person>, k: nat, u: UserId, flat: Flat,
               base: Option<Home>, mid: Option<Home>, after: Option<Home>)
    requires k < |people| && EndsAs(choice, people, k, u, flat, base, mid)
    requires after == mid || (people[k].found != Some(u) && HomeStep(choice, people[k], false, flat, mid, after))
    ensures EndsAs(choice, people, k + 1, u, flat, base, after)
  {
    hide Keeps;
    assert ElsePrimary(choice, people, k, u, flat) ==> ElsePrimary(choice, people, k + 1, u, flat);
  }

  lemma {:induction false} HomesAfter(ctx: Context, entries: seq<Entry>, choice: Choice, db: Db, people: seq<Person>,
      k: nat,
                                      u: UserId, flat: Flat)
    requires k <= |people| && Numbered(db) && AllFit(ctx, db, entries, people) && u in db.users
    ensures HomeBy(choice, people, k, u, flat, Get(db.homes, (u, flat)),
                   Get(After(ctx, entries, choice, db, people, k).homes, (u, flat)))
  {
    hide CommitPerson, HomeStep, HomeBy, AllFit, UsersBy, OneOfEach, OnceEach, Located;
    if k == 0 {
      HomeStart(choice, people, u, flat, Get(db.homes, (u, flat)));
    } else {
      var p := people[k - 1];
      FitHere(ctx, db, entries, people, k - 1);
      UsersAfter(ctx, entries, choice, db, people, k - 1);
      var mid := After(ctx, entries, choice, db, people, k - 1);
      UsersNumbered(choice, people, k - 1, db, mid);
      HomesAfter(ctx, entries, choice, db, people, k - 1, u, flat);
      HomesStepped(ctx, entries, choice, mid, p, u, flat);
      assert SavedAs(p, mid) == u <==> p.found == Some(u);
      HomeOn(choice, people, k - 1, u, flat, Get(db.homes, (u, flat)), Get(mid.homes, (u, flat)),
             Get(After(ctx, entries, choice, db, people, k).homes, (u, flat)));
    }
  }

  // ---- everyone of a plan

  lemma OwnOnce(user: User, g: Group, alike: bool, emailFree: bool, phoneFree: bool, asked: Option<RoleId>, mine: bool)
    ensures OneOfEach(ColumnChanges(user, g, alike, emailFree, phoneFree, asked, mine))
  {
    var name := if g.name != "" && g.name != user.name then [SetName(g.name, alike)] else [];
    var email := if g.email != "" && g.email != user.email && emailFree then [SetEmail(g.email)] else [];
    var phone := if g.phone != "" && g.phone != user.phone && phoneFree then [SetPhone(g.phone)] else [];
    var role := if asked.Some? && asked != user.role && !mine then [SetRole(asked.value)] else [];
    FourOnce(name, email, phone, role);
  }

  lemma FourOnce(a: seq<Change>, b: seq<Change>, c: seq<Change>, d: seq<Change>)
    requires |a| <= 1 && |b| <= 1 && |c| <= 1 && |d| <= 1
    requires (forall x | x in a :: x.SetName?) && (forall x | x in b :: x.SetEmail?)
    requires (forall x | x in c :: x.SetPhone?) && (forall x | x in d :: x.SetRole?)
    ensures OneOfEach(a + b + c + d)
  {
    hide OneOfEach;
    Single(a);
    Single(b);
    Single(c);
    Single(d);
    Apart(a, b);
    Apart(a + b, c);
    Apart(a + b + c, d);
  }

  lemma Single(cs: seq<Change>)
    requires |cs| <= 1
    ensures OneOfEach(cs)
  {
  }

  lemma Apart(a: seq<Change>, b: seq<Change>)
    requires OneOfEach(a) && OneOfEach(b) && forall c, d | c in a && d in b :: !SameColumn(c, d)
    ensures OneOfEach(a + b)
  {
    hide SameColumn;
    var all := a + b;
    forall i, j | 0 <= i < j < |all| ensures !SameColumn(all[i], all[j]) {
      if j < |a| { assert all[i] == a[i] && all[j] == a[j]; }
      else if i < |a| { assert all[i] == a[i] && all[j] == b[j - |a|]; }
      else { assert all[i] == b[i - |a|] && all[j] == b[j - |a|]; }
    }
  }

  lemma OwnChangesOnce(ctx: Context, db: Db, g: Group, es: seq<Entry>, u: UserId)
    requires Sound(db) && u in db.users
    ensures OneOfEach(OwnChanges(ctx, db, g, es, u))
  {
    hide ColumnChanges, AskedRole, OneOfEach;
    var user := db.users[u];
    OwnOnce(user, g, ctx.samePerson(g.name, user.name),
            Get(EmailIndex(db.users), g.email) in {None, Some(u)},
                Get(PhoneIndex(db.users), g.phone) in {None, Some(u)},
            AskedRole(ctx, es), Mine(ctx, user));
  }

  lemma StartOnce(j: Job, i: nat)
    requires Sound(j.db) && i < |Groups(j)| && P(j, i).status != Refused && !WhoIs(j.db, Groups(j)[i]).Clash()
    ensures OneOfEach(Start(j, i).changes)
  {
    hide P, WhoIs, OwnChanges, Sound, Sorted, Lines, FlatsOf;
    PersonIs(j, i);
    var u := WhoIs(j.db, Groups(j)[i]).Found();
    if u.Some? { OwnChangesOnce(j.ctx, j.db, Groups(j)[i], Lines(j, i), u.value); }
  }

  lemma WholeOnce(own: seq<Change>, cs: seq<Change>)
    requires own <= cs && OneOfEach(own) && OnlyFlats(cs[|own|..])
    ensures OneOfEach(cs)
  {
    var more := cs[|own|..];
    assert cs == own + more;
    forall i, j | 0 <= i < j < |more| ensures !SameColumn(more[i], more[j]) { assert more[i] in more; }
    Apart(own, more);
  }

  lemma RefusedIs(ctx: Context, db: Db, g: Group, es: seq<Entry>, taken: map<Flat, int>)
    requires Sound(db) && es != []
    ensures var p := PlanPerson(ctx, db, g, es, taken).person; p.status == Refused ==> p.changes == [] && p.found.None?
  {
    hide WhoIs, FlatsOf, OwnChanges, NewRole, Sound;
  }

  lemma PersonFits(j: Job, i: nat)
    requires Sound(j.db) && DistinctLines(j.entries) && i < |Groups(j)|
    ensures Fit(j.ctx, j.db, j.entries, P(j, i))
  {
    hide PlanPerson, Sorted, Lines, WhoIs, Start, FlatsOf, Sound, DistinctLines, OneOfEach, OnceEach, Located,
        OnlyFlats, ProperHomes;
    if P(j, i).status == Refused {
      RefusedIs(j.ctx, j.db, Groups(j)[i], Lines(j, i), Taken(j, i));
      NoneFit(j.ctx, j.entries, P(j, i).changes);
    } else {
      PersonIs(j, i);
      ChangesAre(j, i);
      StartOnce(j, i);
      WholeOnce(Start(j, i).changes, P(j, i).changes);
    }
  }

  lemma NoneFit(ctx: Context, entries: seq<Entry>, cs: seq<Change>)
    requires cs == []
    ensures OneOfEach(cs) && OnceEach(cs) && Located(ctx, entries, cs)
  {
  }

  lemma PlanFits(ctx: Context, db: Db, entries: seq<Entry>, choice: Choice)
    requires Sound(db) && DistinctLines(entries)
    ensures AllFit(ctx, db, entries, Plan(ctx, db, entries))
  {
    hide Fit, P, Plan, Sorted, DistinctLines, Sound;
    var j := Job(ctx, db, entries, choice);
    PlanIs(j);
    forall i | 0 <= i < |Plan(ctx, db, entries)| ensures Fit(ctx, db, entries, Plan(ctx, db, entries)[i]) {
      PersonFits(j, i);
    }
  }

  // ---- what is kept is saved, and nothing else

  lemma SoundNumbered(db: Db)
    requires Sound(db)
    ensures Numbered(db)
  {
  }

  /** Nothing but kept changes is saved: a column or a home of somebody there before is as it was or as a change says
      that is listed for them and kept, except that somebody else's kept change may take the primary member away; and
      everybody new is a person of the plan whose adding is kept. */
  lemma OnlyKeptIsSaved(ctx: Context, db: Db, entries: seq<Entry>, picks: map<int, string>, choice: Choice)
    requires Sound(db) && DistinctLines(WithRelations(entries, picks))
    ensures var es := WithRelations(entries, picks); var people := Plan(ctx, db, es);
            var saved := Committed(ctx, db, entries, picks, choice);
            && UsersBy(choice, people, |people|, db, saved)
            && forall u, flat | u in db.users ::
                 HomeBy(choice, people, |people|, u, flat, Get(db.homes, (u, flat)), Get(saved.homes, (u, flat)))
  {
    hide Sound, DistinctLines, WithRelations, Plan, AllFit, UsersBy, HomeBy, After;
    var es := WithRelations(entries, picks);
    var people := Plan(ctx, db, es);
    PlanFits(ctx, db, es, choice);
    SoundNumbered(db);
    UsersAfter(ctx, es, choice, db, people, |people|);
    var saved := Committed(ctx, db, entries, picks, choice);
    forall u, flat | u in db.users
      ensures HomeBy(choice, people, |people|, u, flat, Get(db.homes, (u, flat)), Get(saved.homes, (u, flat)))
    {
      HomesAfter(ctx, es, choice, db, people, |people|, u, flat);
    }
  }

  /** A home somebody was given stays, but for the primary member. */
  ghost predicate Stays(home: Option<Home>, later: Option<Home>) {
    later == home || (home.Some? && home.value.primary && later == Some(home.value.(primary := false)))
  }

  lemma {:induction false} StaysSaved(ctx: Context, entries: seq<Entry>, choice: Choice, db: Db, people: seq<Person>,
                                      k: nat, m: nat, u: UserId)
    requires k <= m <= |people| && Numbered(db) && AllFit(ctx, db, entries, people)
    requires u in After(ctx, entries, choice, db, people, k).users
             && u < After(ctx, entries, choice, db, people, k).next
    requires forall i | k <= i < m :: people[i].found != Some(u)
    ensures var first, last := After(ctx, entries, choice, db, people, k), After(ctx, entries, choice, db, people, m);
            && u < last.next && u in last.users && last.users[u] == first.users[u]
            && forall flat :: Stays(Get(first.homes, (u, flat)), Get(last.homes, (u, flat)))
    decreases m
  {
    hide CommitPerson, HomeStep, AllFit, UsersBy, OneOfEach, OnceEach, Located, Keeps;
    if k < m {
      StaysSaved(ctx, entries, choice, db, people, k, m - 1, u);
      var p := people[m - 1];
      FitHere(ctx, db, entries, people, m - 1);
      UsersAfter(ctx, entries, choice, db, people, m - 1);
      var first, mid := After(ctx, entries, choice, db, people, k), After(ctx, entries, choice, db, people, m - 1);
      UsersNumbered(choice, people, m - 1, db, mid);
      UsersStepped(ctx, entries, choice, mid, p);
      var last := After(ctx, entries, choice, db, people, m);
      forall flat ensures Stays(Get(first.homes, (u, flat)), Get(last.homes, (u, flat))) {
        assert Stays(Get(first.homes, (u, flat)), Get(mid.homes, (u, flat)));
        HomesStepped(ctx, entries, choice, mid, p, u, flat);
        OthersStep(choice, p, flat, Get(first.homes, (u, flat)), Get(mid.homes, (u, flat)), Get(last.homes, (u, flat)));
      }
    }
  }

  lemma OthersStep(choice: Choice, p: Person, flat: Flat, home: Option<Home>, mid: Option<Home>, later: Option<Home>)
    requires Stays(home, mid) && HomeStep(choice, p, false, flat, mid, later)
    ensures Stays(home, later)
  {
  }

  /** Every change that is kept is saved: of somebody found who is not refused, and whom no later line changes again. */
  lemma KeptIsSaved(ctx: Context, db: Db, entries: seq<Entry>, picks: map<int, string>, choice: Choice, k: nat,
      c: Change)
    requires Sound(db) && DistinctLines(WithRelations(entries, picks))
    requires var people := Plan(ctx, db, WithRelations(entries, picks));
             && k < |people| && people[k].found.Some? && people[k].key !in choice.refused && Keeps(choice, people[k], c)
             && forall m | k < m < |people| :: people[m].found != people[k].found
    ensures var u := Plan(ctx, db, WithRelations(entries, picks))[k].found.value;
            var saved := Committed(ctx, db, entries, picks, choice);
            && u in saved.users && Shows(saved.users[u], c)
            && (c.SetHome? ==> Stays(Some(c.home), Get(saved.homes, (u, c.flat))))
  {
    hide Sound, DistinctLines, WithRelations, Plan, AllFit, UsersBy, CommitPerson, Keeps, Shows, Stays, Fit;
    var es := WithRelations(entries, picks);
    var people := Plan(ctx, db, es);
    PlanFits(ctx, db, es, choice);
    SoundNumbered(db);
    var mid := After(ctx, es, choice, db, people, k);
    UsersAfter(ctx, es, choice, db, people, k);
    UsersNumbered(choice, people, k, db, mid);
    FitHere(ctx, db, es, people, k);
    FitStill(ctx, db, mid, es, people, k);
    FoundSaved(ctx, es, choice, mid, people[k], c);
    UsersAfter(ctx, es, choice, db, people, k + 1);
    UsersNumbered(choice, people, k + 1, db, After(ctx, es, choice, db, people, k + 1));
    StaysSaved(ctx, es, choice, db, people, k + 1, |people|, people[k].found.value);
  }

  lemma FitStill(ctx: Context, db: Db, mid: Db, entries: seq<Entry>, people: seq<Person>, k: nat)
    requires AllFit(ctx, db, entries, people) && k < |people| && forall u | u in db.users :: u in mid.users
    ensures Fit(ctx, mid, entries, people[k])
  {
    hide OneOfEach, OnceEach, Located;
    assert Fit(ctx, db, entries, people[k]);
  }

  /** Every new person who is kept, has a role there is and is not refused is there in the end, with every home that is
      kept. */
  lemma NewIsAdded(ctx: Context, db: Db, entries: seq<Entry>, picks: map<int, string>, choice: Choice,
      k: nat) returns (u: UserId)
    requires Sound(db) && DistinctLines(WithRelations(entries, picks))
    requires var people := Plan(ctx, db, WithRelations(entries, picks));
             && k < |people| && people[k].found.None? && people[k].key !in choice.refused
             && Keeps(choice, people[k], AddPerson)
             && RoleFor(choice, people[k]).Some? && RoleFor(choice, people[k]).value in choice.valid
    ensures var p := Plan(ctx, db, WithRelations(entries, picks))[k];
            var saved := Committed(ctx, db, entries, picks, choice);
            && u !in db.users && u in saved.users
            && saved.users[u] == User(p.name, p.email, p.phone,
                                      if p.key in choice.roles then Some(choice.roles[p.key]) else p.role)
            && forall c | Keeps(choice, p, c) && c.SetHome? :: Stays(Some(c.home), Get(saved.homes, (u, c.flat)))
  {
    hide Sound, DistinctLines, WithRelations, Plan, AllFit, UsersBy, CommitPerson, Keeps, Stays, RoleFor,
        OneOfEach, OnceEach, Located;
    var es := WithRelations(entries, picks);
    var people := Plan(ctx, db, es);
    var p := people[k];
    PlanFits(ctx, db, es, choice);
    SoundNumbered(db);
    var mid := After(ctx, es, choice, db, people, k);
    UsersAfter(ctx, es, choice, db, people, k);
    UsersNumbered(choice, people, k, db, mid);
    FitHere(ctx, db, es, people, k);
    NotRefused(ctx, db, es, people, k, choice);
    u := mid.next;
    NewSaved(ctx, es, choice, mid, p);
    var next := After(ctx, es, choice, db, people, k + 1);
    UsersAfter(ctx, es, choice, db, people, k + 1);
    UsersNumbered(choice, people, k + 1, db, next);
    forall i | k + 1 <= i < |people| ensures people[i].found != Some(u) { FitHere(ctx, db, es, people, i); }
    StaysSaved(ctx, es, choice, db, people, k + 1, |people|, u);
    RoleIs(choice, p);
  }

  lemma RoleIs(choice: Choice, p: Person)
    ensures RoleFor(choice, p) == if p.key in choice.roles then Some(choice.roles[p.key]) else p.role
  {
  }

  lemma NotRefused(ctx: Context, db: Db, entries: seq<Entry>, people: seq<Person>, k: nat, choice: Choice)
    requires AllFit(ctx, db, entries, people) && k < |people| && Keeps(choice, people[k], AddPerson)
    ensures people[k].status != Refused
  {
    assert Fit(ctx, db, entries, people[k]);
  }

  /** What the three lists say of a person is so: one added is a new user, one updated was found and has a kept change,
      and of one left out nothing is saved, nor of one in none of them. */
  lemma ListsAreRight(ctx: Context, entries: seq<Entry>, choice: Choice, db: Db, p: Person)
    requires p.found.Some? ==> AddPerson !in p.changes
    requires p.status == Refused ==> p.changes == []
    ensures var out := CommitPerson(ctx, entries, choice, db, p).db;
            match OutcomeOf(choice, p)
            case Added => p.found.None? && db.next in out.users && out.next == db.next + 1
            case Updated => p.found.Some? && (exists c :: Keeps(choice, p, c)) && out.next == db.next
            case LeftOut =>
              out == db && (p.status == Refused || p.key in choice.refused
                            || RoleFor(choice, p).None? || RoleFor(choice, p).value !in choice.valid)
            case Untouched =>
              out == db && ((forall c :: !Keeps(choice, p, c)) || (p.found.None? && !Keeps(choice, p, AddPerson)))
  {
    hide Picks, Kept, PutHomes, SetColumns;
    PickedAreKept(choice, p.key, p.changes);
    var picked := Picked(choice, p.key, p.changes);
    forall c ensures Keeps(choice, p, c) <==> c in picked {}
    assert picked != [] ==> picked[0] in picked;
  }

  /** A relation picked on the screen is read as if its line had said it, and nothing else of any line is changed. */
  lemma PickedRelationIsRead(ctx: Context, entries: seq<Entry>, picks: map<int, string>, i: nat)
    requires i < |entries|
    ensures var e, f := entries[i], WithRelations(entries, picks)[i];
            && |WithRelations(entries, picks)| == |entries|
            && (e.line !in picks ==> f == e)
            && (e.line in picks ==> f.(relationText := e.relationText) == e)
            && (e.line in picks && !ctx.blank(picks[e.line]) && ctx.key(picks[e.line]) in Words(ctx) ==>
                  RelationOf(ctx, f.relationText) == Some(Words(ctx)[ctx.key(picks[e.line])]))
  {
  }
}
