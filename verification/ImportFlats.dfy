// The flats of one person in an import: what the lines want, what the plan lists, what saving it leaves, and
// that the same lines then want exactly what is saved.
module ImportFlats {
  import opened Wrappers
  import opened ImportGroups
  import opened ImportPlan
  import opened ImportCommit

  datatype Wanted = Wanted(flat: Flat, home: Home)

  type Homes = map<(UserId, Flat), Home>

  /** The homes the lines of one person want, saved already or not. */
  function Wants(ctx: Context, homes: Homes, u: Option<UserId>, key: int, f: Flats, es: seq<Entry>): set<Wanted>
    decreases |es|
  {
    if es == [] then {}
    else
      var w := WishOf(ctx, homes, u, key, f, es[0]);
      (if w.Want? then {Wanted(w.flat, w.home)} else {})
      + Wants(ctx, homes, u, key, FlatStep(ctx, homes, u, key, f, es[0]), es[1..])
  }

  predicate NoPick(cs: seq<Change>) { forall c | c in cs :: !c.PickRelation? }

  /** A change of a flat belongs to a line of its own flat. */
  predicate FromLine(ctx: Context, es: seq<Entry>, c: Change) {
    c.SetHome? ==> exists e | e in es :: e.line == c.line && ctx.flatParts(e.wing, e.flat) == c.flat
  }

  predicate Sets(cs: seq<Change>, flat: Flat) { exists c | c in cs :: c.SetHome? && c.flat == flat }

  predicate OnceEach(cs: seq<Change>) {
    forall i, j | 0 <= i < j < |cs| && cs[i].SetHome? && cs[j].SetHome? :: cs[i].flat != cs[j].flat
  }

  /** What is true of the changes so far, and stays true line by line. */
  predicate Tidy(ctx: Context, all: seq<Entry>, f: Flats) {
    && OnceEach(f.changes)
    && (forall c | c in f.changes && c.SetHome? :: c.flat in f.seen)
    && (forall c | c in f.changes :: FromLine(ctx, all, c))
    && ProperHomes(f.changes)
  }

  lemma StepTidy(ctx: Context, homes: Homes, u: Option<UserId>, key: int, f: Flats, e: Entry, all: seq<Entry>)
    requires Tidy(ctx, all, f) && e in all
    ensures Tidy(ctx, all, FlatStep(ctx, homes, u, key, f, e))
    ensures f.changes <= FlatStep(ctx, homes, u, key, f, e).changes
  {
  }

  lemma {:induction false} FlatsTidy(ctx: Context, homes: Homes, u: Option<UserId>, key: int, f: Flats,
      es: seq<Entry>, all: seq<Entry>)
    requires Tidy(ctx, all, f) && forall e | e in es :: e in all
    ensures Tidy(ctx, all, FlatsOf(ctx, homes, u, key, f, es))
    ensures f.changes <= FlatsOf(ctx, homes, u, key, f, es).changes
    decreases |es|
  {
    if es != [] {
      hide Tidy, FlatStep;
      StepTidy(ctx, homes, u, key, f, es[0], all);
      FlatsTidy(ctx, homes, u, key, FlatStep(ctx, homes, u, key, f, es[0]), es[1..], all);
    }
  }

  // ---- wants and changes

  /** A flat wanted is new among the flats seen, and is listed as a change exactly when it is not saved so already. */
  lemma {:induction false} WantsListed(ctx: Context, homes: Homes, u: Option<UserId>, key: int, f: Flats,
      es: seq<Entry>, w: Wanted)
    requires w in Wants(ctx, homes, u, key, f, es)
    requires forall c | c in f.changes && c.SetHome? :: c.flat in f.seen
    ensures w.flat !in f.seen
    ensures var cs := FlatsOf(ctx, homes, u, key, f, es).changes;
            if HaveHome(homes, u, w.flat) == Some(w.home) then !Sets(cs, w.flat)
            else exists c | c in cs :: c.SetHome? && c.flat == w.flat && c.home == w.home
    decreases |es|
  {
    var next := FlatStep(ctx, homes, u, key, f, es[0]);
    var wish := WishOf(ctx, homes, u, key, f, es[0]);
    if wish.Want? && w == Wanted(wish.flat, wish.home) {
      SeenStay(ctx, homes, u, key, next, es[1..], w.flat);
      var cs := FlatsOf(ctx, homes, u, key, f, es).changes;
      if HaveHome(homes, u, w.flat) != Some(w.home) {
        var c := SetHome(es[0].line, w.flat, w.home);
        assert next.changes[|f.changes|] == c && cs[|f.changes|] == c;
        assert c in cs;
      }
    } else {
      WantsListed(ctx, homes, u, key, next, es[1..], w);
    }
  }

  /** What was listed stays listed, and a flat seen is listed no more. */
  lemma {:induction false} SeenStay(ctx: Context, homes: Homes, u: Option<UserId>, key: int, f: Flats, es: seq<Entry>,
      flat: Flat)
    requires flat in f.seen
    ensures var cs := FlatsOf(ctx, homes, u, key, f, es).changes;
            && f.changes <= cs
            && (forall c | c in cs && c.SetHome? && c.flat == flat :: c in f.changes)
    decreases |es|
  {
    if es != [] {
      SeenStay(ctx, homes, u, key, FlatStep(ctx, homes, u, key, f, es[0]), es[1..], flat);
    }
  }

  /** Every change of a flat is a wanted one. */
  lemma {:induction false} ListedWanted(ctx: Context, homes: Homes, u: Option<UserId>, key: int, f: Flats,
      es: seq<Entry>, c: Change)
    requires c in FlatsOf(ctx, homes, u, key, f, es).changes && c.SetHome? && c !in f.changes
    ensures Wanted(c.flat, c.home) in Wants(ctx, homes, u, key, f, es)
    decreases |es|
  {
    if es != [] {
      var next := FlatStep(ctx, homes, u, key, f, es[0]);
      if c !in next.changes { ListedWanted(ctx, homes, u, key, next, es[1..], c); }
    }
  }

  // ---- who is primary where

  /** A place taken stays with whoever has it. */
  lemma {:induction false} TakenStays(ctx: Context, homes: Homes, u: Option<UserId>, key: int, f: Flats,
      es: seq<Entry>, flat: Flat)
    requires flat in f.taken
    ensures var t := FlatsOf(ctx, homes, u, key, f, es).taken; flat in t && t[flat] == f.taken[flat]
    decreases |es|
  {
    if es != [] { TakenStays(ctx, homes, u, key, FlatStep(ctx, homes, u, key, f, es[0]), es[1..], flat); }
  }

  lemma {:induction false} PrimaryTakes(ctx: Context, homes: Homes, u: Option<UserId>, key: int, f: Flats,
      es: seq<Entry>, w: Wanted)
    requires w in Wants(ctx, homes, u, key, f, es) && w.home.primary
    ensures var t := FlatsOf(ctx, homes, u, key, f, es).taken; w.flat in t && t[w.flat] == key
    decreases |es|
  {
    var next := FlatStep(ctx, homes, u, key, f, es[0]);
    var wish := WishOf(ctx, homes, u, key, f, es[0]);
    if wish.Want? && w == Wanted(wish.flat, wish.home) {
      TakenStays(ctx, homes, u, key, next, es[1..], w.flat);
    } else {
      PrimaryTakes(ctx, homes, u, key, next, es[1..], w);
    }
  }

  // ---- asking again

  /** One line asks again for what it got. */
  lemma WishAgain(ctx: Context, homes: Homes, u: Option<UserId>, homes2: Homes, v: UserId, key: int, f: Flats,
      f2: Flats, e: Entry)
    requires f2.seen == f.seen && f2.taken == f.taken
    requires !WishOf(ctx, homes, u, key, f, e).Unknown?
    requires WishOf(ctx, homes, u, key, f, e).Want? ==>
               var w := WishOf(ctx, homes, u, key, f, e); Get(homes2, (v, w.flat)) == Some(w.home)
    ensures WishOf(ctx, homes2, Some(v), key, f2, e) == WishOf(ctx, homes, u, key, f, e)
  {
  }

  /** Once everything wanted is saved, the same lines want the same and list nothing. */
  lemma {:induction false} FlatsAgain(ctx: Context, homes: Homes, u: Option<UserId>, homes2: Homes, v: UserId, key: int,
                                      f: Flats, f2: Flats, es: seq<Entry>)
    requires f2.seen == f.seen && f2.taken == f.taken
    requires NoPick(FlatsOf(ctx, homes, u, key, f, es).changes)
    requires forall w | w in Wants(ctx, homes, u, key, f, es) :: Get(homes2, (v, w.flat)) == Some(w.home)
    ensures FlatsOf(ctx, homes2, Some(v), key, f2, es).changes == f2.changes
    ensures FlatsOf(ctx, homes2, Some(v), key, f2, es).taken == FlatsOf(ctx, homes, u, key, f, es).taken
    decreases |es|
  {
    if es != [] {
      var next := FlatStep(ctx, homes, u, key, f, es[0]);
      var wish := WishOf(ctx, homes, u, key, f, es[0]);
      if wish.Unknown? { UnknownPicks(ctx, homes, u, key, f, es); }
      if wish.Want? { assert Wanted(wish.flat, wish.home) in Wants(ctx, homes, u, key, f, es); }
      WishAgain(ctx, homes, u, homes2, v, key, f, f2, es[0]);
      var next2 := FlatStep(ctx, homes2, Some(v), key, f2, es[0]);
      hide WishOf;
      FlatsAgain(ctx, homes, u, homes2, v, key, next, next2, es[1..]);
    }
  }

  lemma UnknownPicks(ctx: Context, homes: Homes, u: Option<UserId>, key: int, f: Flats, es: seq<Entry>)
    requires es != [] && WishOf(ctx, homes, u, key, f, es[0]).Unknown?
    ensures !NoPick(FlatsOf(ctx, homes, u, key, f, es).changes)
  {
    var next := FlatStep(ctx, homes, u, key, f, es[0]);
    ChangesGrow(ctx, homes, u, key, next, es[1..]);
    assert next.changes[|f.changes|].PickRelation?;
    assert FlatsOf(ctx, homes, u, key, f, es).changes[|f.changes|] == next.changes[|f.changes|];
  }

  lemma {:induction false} ChangesGrow(ctx: Context, homes: Homes, u: Option<UserId>, key: int, f: Flats,
      es: seq<Entry>)
    ensures f.changes <= FlatsOf(ctx, homes, u, key, f, es).changes
    decreases |es|
  {
    if es != [] { ChangesGrow(ctx, homes, u, key, FlatStep(ctx, homes, u, key, f, es[0]), es[1..]); }
  }

  // ---- what saving the flats of one person leaves

  predicate DistinctLines(entries: seq<Entry>) {
    forall i, j | 0 <= i < j < |entries| :: entries[i].line != entries[j].line
  }

  lemma {:induction false} EntryAtIs(entries: seq<Entry>, e: Entry)
    requires DistinctLines(entries) && e in entries
    ensures EntryAt(entries, e.line) < |entries| && entries[EntryAt(entries, e.line)] == e
  {
    if entries[0] != e {
      assert e in entries[1..];
      var k :| 0 <= k < |entries| && entries[k] == e;
      assert entries[0].line != entries[k].line;
      EntryAtIs(entries[1..], e);
    }
  }

  /** Every change of a flat finds its own line, and so its own flat, again. */
  predicate Located(ctx: Context, entries: seq<Entry>, cs: seq<Change>) {
    forall c | c in cs && c.SetHome? ::
      && EntryAt(entries, c.line) < |entries|
      && ctx.flatParts(entries[EntryAt(entries, c.line)].wing, entries[EntryAt(entries, c.line)].flat) == c.flat
  }

  lemma LinesFound(ctx: Context, entries: seq<Entry>, es: seq<Entry>, cs: seq<Change>)
    requires DistinctLines(entries) && (forall e | e in es :: e in entries)
             && forall c | c in cs :: FromLine(ctx, es, c)
    ensures Located(ctx, entries, cs)
  {
    forall c | c in cs && c.SetHome?
      ensures EntryAt(entries, c.line) < |entries|
              && ctx.flatParts(entries[EntryAt(entries, c.line)].wing, entries[EntryAt(entries, c.line)].flat) == c.flat
    {
      assert FromLine(ctx, es, c);
      var e :| e in es && e.line == c.line && ctx.flatParts(e.wing, e.flat) == c.flat;
      EntryAtIs(entries, e);
    }
  }

  /** A home of the person saved: the one its change asks for, and else the one there was. */
  lemma {:induction false} PutOwn(ctx: Context, entries: seq<Entry>, homes: Homes, u: UserId, cs: seq<Change>,
      flat: Flat)
    requires Located(ctx, entries, cs) && OnceEach(cs)
    ensures var out := PutHomes(ctx, entries, homes, u, cs);
            && (!Sets(cs, flat) ==> Get(out, (u, flat)) == Get(homes, (u, flat)))
            && (forall c | c in cs && c.SetHome? && c.flat == flat :: Get(out, (u, flat)) == Some(c.home))
    decreases |cs|
  {
    if cs != [] {
      var next := homes;
      var c := cs[0];
      assert c in cs;
      assert cs == [c] + cs[1..];
      if c.SetHome? { next := PutHome(homes, u, c.flat, c.home); }
      PutOwn(ctx, entries, next, u, cs[1..], flat);
      if c.SetHome? && c.flat == flat { assert Get(next, (u, flat)) == Some(c.home); }
    }
  }

  /** A home of somebody else stays, unless it was primary in a flat where this person becomes primary. */
  lemma {:induction false} PutOthers(ctx: Context, entries: seq<Entry>, homes: Homes, u: UserId, cs: seq<Change>,
      v: UserId, flat: Flat)
    requires Located(ctx, entries, cs) && v != u && (v, flat) in homes
    requires homes[(v, flat)].primary ==> forall c | c in cs && c.SetHome? && c.flat == flat :: !c.home.primary
    ensures Get(PutHomes(ctx, entries, homes, u, cs), (v, flat)) == Get(homes, (v, flat))
    decreases |cs|
  {
    if cs != [] {
      var next := homes;
      var c := cs[0];
      assert c in cs;
      assert cs == [c] + cs[1..];
      if c.SetHome? { next := PutHome(homes, u, c.flat, c.home); }
      PutOthers(ctx, entries, next, u, cs[1..], v, flat);
    }
  }

  // ---- the person's own columns

  predicate OnlyFlats(cs: seq<Change>) { forall c | c in cs :: c.SetHome? || c.PickRelation? }

  lemma {:induction false} FlatsAddFlats(ctx: Context, homes: Homes, u: Option<UserId>, key: int, f: Flats,
      es: seq<Entry>)
    ensures var cs := FlatsOf(ctx, homes, u, key, f, es).changes;
            f.changes <= cs && OnlyFlats(cs[|f.changes|..])
    decreases |es|
  {
    if es != [] {
      hide FlatStep;
      var next := FlatStep(ctx, homes, u, key, f, es[0]);
      var cs := FlatsOf(ctx, homes, u, key, f, es).changes;
      StepAddsFlats(ctx, homes, u, key, f, es[0]);
      FlatsAddFlats(ctx, homes, u, key, next, es[1..]);
      var mid := next.changes[|f.changes|..];
      assert cs[|f.changes|..] == mid + cs[|next.changes|..];
    }
  }

  lemma StepAddsFlats(ctx: Context, homes: Homes, u: Option<UserId>, key: int, f: Flats, e: Entry)
    ensures var cs := FlatStep(ctx, homes, u, key, f, e).changes; f.changes <= cs && OnlyFlats(cs[|f.changes|..])
  {
    hide WishOf;
  }

  lemma {:induction false} ColumnsJoin(user: User, a: seq<Change>, b: seq<Change>)
    requires OnlyFlats(b)
    ensures SetColumns(user, a + b) == SetColumns(user, a)
    decreases |a|, |b|
  {
    if a != [] {
      assert (a + b)[0] == a[0] && (a + b)[1..] == a[1..] + b;
      ColumnsJoin(SetColumn(user, a[0]), a[1..], b);
    } else if b != [] {
      assert a + b == b && b[0] in b;
      ColumnsJoin(user, [], b[1..]);
      assert [] + b[1..] == b[1..];
    }
  }

  /** The columns of somebody found, once everything is saved. */
  function FinalUser(ctx: Context, user: User, g: Group, es: seq<Entry>): User {
    var asked := AskedRole(ctx, es);
    User(Or(g.name, user.name), Or(g.email, user.email), Or(g.phone, user.phone),
         if asked.Some? && !Mine(ctx, user) then asked else user.role)
  }

  lemma ColumnsSaved(ctx: Context, db: Db, g: Group, es: seq<Entry>, u: UserId)
    requires Sound(db) && u in db.users && !WhoIs(db, g).Clash() && WhoIs(db, g).Found() == Some(u)
    ensures SetColumns(db.users[u], OwnChanges(ctx, db, g, es, u)) == FinalUser(ctx, db.users[u], g, es)
  {
    var user := db.users[u];
    var asked := AskedRole(ctx, es);
    assert g.email != "" ==> Get(EmailIndex(db.users), g.email) in {None, Some(u)};
    assert g.phone != "" ==> Get(PhoneIndex(db.users), g.phone) in {None, Some(u)};
    hide AskedRole, EmailIndex, PhoneIndex, WhoIs, Sound, SetColumns, ColumnChanges;
    ColumnsOne(user, g, ctx.samePerson(g.name, user.name),
               Get(EmailIndex(db.users), g.email) in {None, Some(u)},
               Get(PhoneIndex(db.users), g.phone) in {None, Some(u)},
               asked, Mine(ctx, user));
  }

  lemma ColumnsOne(user: User, g: Group, alike: bool, emailFree: bool, phoneFree: bool, asked: Option<RoleId>,
      mine: bool)
    requires g.email != "" ==> emailFree
    requires g.phone != "" ==> phoneFree
    ensures SetColumns(user, ColumnChanges(user, g, alike, emailFree, phoneFree, asked, mine))
            == User(Or(g.name, user.name), Or(g.email, user.email), Or(g.phone, user.phone),
                    if asked.Some? && !mine then asked else user.role)
  {
    var name := if g.name != "" && g.name != user.name then [SetName(g.name, alike)] else [];
    var email := if g.email != "" && g.email != user.email then [SetEmail(g.email)] else [];
    var phone := if g.phone != "" && g.phone != user.phone then [SetPhone(g.phone)] else [];
    var role := if asked.Some? && asked != user.role && !mine then [SetRole(asked.value)] else [];
    ColumnsFour(user, name, email, phone, role);
  }

  lemma ColumnsFour(user: User, a: seq<Change>, b: seq<Change>, c: seq<Change>, d: seq<Change>)
    requires |a| <= 1 && |b| <= 1 && |c| <= 1 && |d| <= 1
    ensures SetColumns(user, a + b + c + d) == SetColumns(SetColumns(SetColumns(SetColumns(user, a), b), c), d)
  {
    ColumnsApp(user, a + b + c, d);
    ColumnsApp(user, a + b, c);
    ColumnsApp(user, a, b);
  }

  lemma {:induction false} ColumnsApp(user: User, a: seq<Change>, b: seq<Change>)
    ensures SetColumns(user, a + b) == SetColumns(SetColumns(user, a), b)
    decreases |a|
  {
    if a != [] {
      assert (a + b)[0] == a[0] && (a + b)[1..] == a[1..] + b;
      ColumnsApp(SetColumn(user, a[0]), a[1..], b);
    } else {
      assert a + b == b;
    }
  }

  lemma ColumnKinds(user: User, g: Group, alike: bool, emailFree: bool, phoneFree: bool, asked: Option<RoleId>,
      mine: bool)
    ensures forall c | c in ColumnChanges(user, g, alike, emailFree, phoneFree, asked, mine) ::
              !c.SetHome? && !c.PickRelation? && !c.AddPerson?
  {
  }

  /** Before any flat is looked at. */
  lemma StartTidy(ctx: Context, all: seq<Entry>, f: Flats)
    requires forall c | c in f.changes :: !c.SetHome?
    ensures Tidy(ctx, all, f)
  {
    forall i | 0 <= i < |f.changes| ensures !f.changes[i].SetHome? { assert f.changes[i] in f.changes; }
  }

  // ---- any part of a plan that is saved

  lemma {:induction false} PickedAreSome(choice: Choice, key: int, cs: seq<Change>)
    ensures forall c | c in Picked(choice, key, cs) :: c in cs
  {
    if cs != [] {
      PickedAreSome(choice, key, cs[1..]);
    }
  }

  lemma PersonIsProper(ctx: Context, db: Db, g: Group, es: seq<Entry>, taken: map<Flat, int>)
    requires Sound(db) && es != []
    ensures ProperHomes(PlanPerson(ctx, db, g, es, taken).person.changes)
  {
    var who := WhoIs(db, g);
    var u := who.Found();
    if !who.Clash() && (u.Some? || |g.name| >= 2) {
      if u.Some? {
        var user := db.users[u.value];
        ColumnKinds(user, g, ctx.samePerson(g.name, user.name), Get(EmailIndex(db.users), g.email) in {None, u},
                    Get(PhoneIndex(db.users), g.phone) in {None, u}, AskedRole(ctx, es), Mine(ctx, user));
      }
      var own := if u.Some? then OwnChanges(ctx, db, g, es, u.value) else [AddPerson];
      hide OwnChanges, WhoIs, Sound, FlatsOf, AskedRole, NewRole;
      StartTidy(ctx, es, Flats({}, taken, own));
      FlatsTidy(ctx, db.homes, u, es[0].line, Flats({}, taken, own), es, es);
    }
  }

  predicate AllProper(people: seq<Person>) { forall p | p in people :: ProperHomes(p.changes) }

  lemma {:induction false} PeopleAreProper(ctx: Context, db: Db, entries: seq<Entry>, groups: seq<Group>,
      taken: map<Flat, int>)
    requires Sound(db) && FromFile(entries, groups)
    ensures AllProper(PlanPeople(ctx, db, entries, groups, taken))
    decreases |groups|
  {
    hide Sound, PlanPerson;
    if groups != [] {
      var es := LinesOf(entries, groups[0]);
      PersonIsProper(ctx, db, groups[0], es, taken);
      PeopleAreProper(ctx, db, entries, groups[1..], PlanPerson(ctx, db, groups[0], es, taken).taken);
    }
  }

  lemma CommitKeepsOne(ctx: Context, entries: seq<Entry>, choice: Choice, db: Db, p: Person)
    requires OnePrimary(db.homes) && NoTenantPrimary(db.homes) && ProperHomes(p.changes)
    ensures var homes := CommitPerson(ctx, entries, choice, db, p).db.homes; OnePrimary(homes) && NoTenantPrimary(homes)
  {
    var picked := Picked(choice, p.key, p.changes);
    PickedAreSome(choice, p.key, p.changes);
    PutHomesKeeps(ctx, entries, db.homes, db.next, picked);
    if p.found.Some? { PutHomesKeeps(ctx, entries, db.homes, p.found.value, picked); }
  }

  lemma {:induction false} AfterKeeps(ctx: Context, entries: seq<Entry>, choice: Choice, db: Db, people: seq<Person>,
      k: nat)
    requires k <= |people| && OnePrimary(db.homes) && NoTenantPrimary(db.homes)
    requires forall p | p in people :: ProperHomes(p.changes)
    ensures var homes := After(ctx, entries, choice, db, people, k).homes; OnePrimary(homes) && NoTenantPrimary(homes)
  {
    hide OnePrimary, NoTenantPrimary, CommitPerson;
    if k > 0 {
      AfterKeeps(ctx, entries, choice, db, people, k - 1);
      CommitKeepsOne(ctx, entries, choice, After(ctx, entries, choice, db, people, k - 1), people[k - 1]);
    }
  }

  /** Whatever is ticked and whoever is refused, a commit leaves at most one primary member in a flat, and never a
      tenant. */
  lemma {:induction false} CommitKeepsFlats(ctx: Context, db: Db, entries: seq<Entry>, picks: map<int, string>,
      choice: Choice)
    requires Sound(db) && OnePrimary(db.homes) && NoTenantPrimary(db.homes)
    ensures var homes := Committed(ctx, db, entries, picks, choice).homes; OnePrimary(homes) && NoTenantPrimary(homes)
  {
    var es := WithRelations(entries, picks);
    SortedFromFile(ctx.reading, es);
    PeopleAreProper(ctx, db, es, Sorted(ctx.reading, es).groups, map[]);
    var people := Plan(ctx, db, es);
    AfterKeeps(ctx, es, choice, db, people, |people|);
  }

  // ---- what the lines say of homes and roles

  /** A home as a line and what is saved of it say: the relation in the line's words, or the one there is; primary only
      if the line says so, or says nothing and it is so, and never on the tenant's side; living there if the line says
      so, and where it says nothing as it is, or yes for a new home. */
  predicate LineSays(ctx: Context, e: Entry, have: Option<Home>, home: Home) {
    && (RelationOf(ctx, e.relationText).Some? ==> home.relation == RelationOf(ctx, e.relationText).value)
    && (RelationOf(ctx, e.relationText).None? ==> have.Some? && home.relation == have.value.relation)
    && (home.primary ==> home.relation !in {"tenant", "tenant_family"})
    && (home.primary ==> ctx.yesNo(e.primaryText) == Some(true)
                         || (ctx.yesNo(e.primaryText).None? && have.Some? && have.value.primary))
    && (match ctx.yesNo(e.livesText)
        case Some(lives) => home.lives == lives
        case None => if have.Some? then home.lives == have.value.lives else home.lives)
    && have != Some(home)
  }

  ghost predicate Said(ctx: Context, homes: Homes, u: Option<UserId>, es: seq<Entry>, c: Change) {
    c.SetHome? ==> exists e ::
      e in es && e.line == c.line && ctx.flatParts(e.wing, e.flat) == c.flat
      && LineSays(ctx, e, if u.Some? then Get(homes, (u.value, c.flat)) else None, c.home)
  }

  lemma StepSaid(ctx: Context, homes: Homes, u: Option<UserId>, key: int, f: Flats, e: Entry, es: seq<Entry>)
    requires e in es
    ensures forall c | c in FlatStep(ctx, homes, u, key, f, e).changes :: c in f.changes || Said(ctx, homes, u, es, c)
  {
    hide RelationOf;
  }

  /** Every home a plan sets is as one of the person's lines says. */
  lemma {:induction false} HomesAreSaid(ctx: Context, homes: Homes, u: Option<UserId>, key: int, f: Flats,
      es: seq<Entry>, all: seq<Entry>)
    requires forall e | e in es :: e in all
    ensures forall c | c in FlatsOf(ctx, homes, u, key, f, es).changes :: c in f.changes || Said(ctx, homes, u, all, c)
    decreases |es|
  {
    hide FlatStep, Said;
    if es != [] {
      StepSaid(ctx, homes, u, key, f, es[0], all);
      HomesAreSaid(ctx, homes, u, key, FlatStep(ctx, homes, u, key, f, es[0]), es[1..], all);
    }
  }

  /** A new person for whom no line names a role has the role of the side of the first relation that a line names:
      the tenant's for a tenant and a tenant's family, the owner's for an owner, a co-owner and an owner's family. */
  lemma {:induction false} NewRoleIs(ctx: Context, es: seq<Entry>, k: nat)
    requires AskedRole(ctx, es).None? && k < |es| && ctx.key(es[k].relationText) in Words(ctx)
    requires forall j | 0 <= j < k :: ctx.key(es[j].relationText) !in Words(ctx)
    ensures var rel := Words(ctx)[ctx.key(es[k].relationText)];
            && (rel in {"tenant", "tenant_family"} ==> NewRole(ctx, es) == Get(ctx.roles, "tenant"))
            && (rel in {"owner", "co_owner", "owner_family"} ==> NewRole(ctx, es) == Get(ctx.roles, "owner"))
            && (Side(rel) == Some("tenant") <==> TenantSide(rel))
  {
    hide AskedRole;
    FirstRelationIs(ctx, es, k);
  }

  lemma {:induction false} FirstRelationIs(ctx: Context, es: seq<Entry>, k: nat)
    requires k < |es| && ctx.key(es[k].relationText) in Words(ctx)
    requires forall j | 0 <= j < k :: ctx.key(es[j].relationText) !in Words(ctx)
    ensures FirstRelation(ctx, es) == Some(Words(ctx)[ctx.key(es[k].relationText)])
    decreases k
  {
    if k > 0 {
      assert ctx.key(es[0].relationText) !in Words(ctx);
      FirstRelationIs(ctx, es[1..], k - 1);
    }
  }

  /** A line with a flat not seen before, whose relation is known or saved, lists the home it asks for unless that is
      what is saved; the person is primary there exactly when the line or what is saved asks for it, the relation is
      not on the tenant's side, and nobody higher up in the file is. */
  lemma LineLists(ctx: Context, homes: Homes, u: Option<UserId>, key: int, f: Flats, e: Entry)
    requires ctx.flatsOn && !ctx.blank(e.flat) && ctx.flatParts(e.wing, e.flat) !in f.seen
    requires var flat := ctx.flatParts(e.wing, e.flat);
             RelationOf(ctx, e.relationText).Some? || HaveHome(homes, u, flat).Some?
    ensures var flat := ctx.flatParts(e.wing, e.flat); var have := HaveHome(homes, u, flat);
            var next := FlatStep(ctx, homes, u, key, f, e);
            exists home ::
              && (next.changes == if have == Some(home) then f.changes else f.changes + [SetHome(e.line, flat, home)])
              && (have != Some(home) ==> LineSays(ctx, e, have, home))
              && (home.primary <==>
                    && (ctx.yesNo(e.primaryText) == Some(true)
                        || (ctx.yesNo(e.primaryText).None? && have.Some? && have.value.primary))
                    && home.relation !in {"tenant", "tenant_family"}
                    && (flat in f.taken ==> f.taken[flat] == key))
              && (home.primary ==> flat in next.taken && next.taken[flat] == key)
  {
    hide RelationOf;
    var home := WishOf(ctx, homes, u, key, f, e).home;
    assert home.relation in {"tenant", "tenant_family"} <==> TenantSide(home.relation);
  }
}
