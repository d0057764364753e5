// The second part of build_plan in app/admin_panel/people_import.py: what saving the lines of a file would
// change, person by person.
module ImportPlan {
  import opened Wrappers
  import opened ImportGroups

  type UserId = nat
  type RoleId = int
  type Relation = string

  /** Wing and flat number, the way they are saved; no wing is the empty text. */
  type Flat = (string, string)

  datatype User = User(name: string, email: string, phone: string, role: Option<RoleId>)

  /** A residents row: how a person is linked to a flat. */
  datatype Home = Home(relation: Relation, primary: bool, lives: bool)

  /** The tables of one organisation. Emails stand as the plan reads them, in small letters. */
  datatype Db = Db(users: map<UserId, User>, homes: map<(UserId, Flat), Home>, next: UserId)

  /** Who is asking, and how words in the file are understood. */
  datatype Context = Context(
    reading: Reading, flatsOn: bool, roles: map<string, RoleId>, relations: map<string, Relation>,
    key: string -> string, blank: string -> bool, yesNo: string -> Option<bool>,
    flatParts: (string, string) -> Flat, samePerson: (string, string) -> bool,
    isSuper: bool, account: string)

  datatype Change =
    | SetName(name: string, likely: bool)
    | SetEmail(email: string)
    | SetPhone(phone: string)
    | SetRole(role: RoleId)
    | AddPerson
    | SetHome(line: int, flat: Flat, home: Home)
    | PickRelation(line: int, flat: Flat)

  datatype Status = New | Same | Update | Check | Refused

  datatype Person = Person(
    key: int, lines: seq<nat>, name: string, email: string, phone: string,
    found: Option<UserId>, status: Status, changes: seq<Change>, role: Option<RoleId>)

  // ---- who a person is

  predicate UniquePhones(users: map<UserId, User>) {
    forall u, v | u in users && v in users && users[u].phone != "" && users[u].phone == users[v].phone :: u == v
  }

  predicate UniqueEmails(users: map<UserId, User>) {
    forall u, v | u in users && v in users && users[u].email != "" && users[u].email == users[v].email :: u == v
  }

  /** What the database itself sees to: no two people with one number or one email, and new ids are new. */
  predicate Sound(db: Db) {
    UniquePhones(db.users) && UniqueEmails(db.users) && forall u | u in db.users :: u < db.next
  }

  function PhoneIndex(users: map<UserId, User>): map<string, UserId>
    requires UniquePhones(users)
  {
    map u | u in users && users[u].phone != "" :: users[u].phone := u
  }

  function EmailIndex(users: map<UserId, User>): map<string, UserId>
    requires UniqueEmails(users)
  {
    map u | u in users && users[u].email != "" :: users[u].email := u
  }

  function Get<K, V>(m: map<K, V>, k: K): Option<V> { if k in m then Some(m[k]) else None }

  datatype Who = Who(phone: Option<UserId>, email: Option<UserId>) {
    predicate Clash() { phone.Some? && email.Some? && phone != email }
    function Found(): Option<UserId> { if phone.Some? then phone else email }
  }

  function WhoIs(db: Db, g: Group): Who
    requires Sound(db)
  {
    Who(if g.phone != "" then Get(PhoneIndex(db.users), g.phone) else None,
        if g.email != "" then Get(EmailIndex(db.users), g.email) else None)
  }

  // ---- the person's own columns

  /** The role the first line that names one asks for, if there is such a role. */
  function AskedRole(ctx: Context, es: seq<Entry>): Option<RoleId> {
    var text := First(seq(|es|, p requires 0 <= p < |es| => es[p].roleText));
    if text == "" then None else Get(ctx.roles, ctx.key(text))
  }

  function Side(rel: Relation): Option<string> {
    if rel in {"owner", "co_owner", "owner_family"} then Some("owner")
    else if rel in {"tenant", "tenant_family"} then Some("tenant")
    else None
  }

  predicate TenantSide(rel: Relation) { rel == "tenant" || rel == "tenant_family" }

  /** The words for relations; none are read where flats are not kept. */
  function Words(ctx: Context): map<string, Relation> { if ctx.flatsOn then ctx.relations else map[] }

  /** The first relation that any line names in words we know. */
  function FirstRelation(ctx: Context, es: seq<Entry>): Option<Relation> {
    if es == [] then None
    else if ctx.key(es[0].relationText) in Words(ctx) then Some(Words(ctx)[ctx.key(es[0].relationText)])
    else FirstRelation(ctx, es[1..])
  }

  /** The role a new person gets. */
  function NewRole(ctx: Context, es: seq<Entry>): Option<RoleId> {
    if AskedRole(ctx, es).Some? then AskedRole(ctx, es)
    else match FirstRelation(ctx, es)
         case None => None
         case Some(rel) => match Side(rel) case None => None case Some(side) => Get(ctx.roles, side)
  }

  predicate Mine(ctx: Context, user: User) { !ctx.isSuper && ctx.account != "" && user.email == ctx.account }

  /** The changes to the columns of somebody already saved. */
  function OwnChanges(ctx: Context, db: Db, g: Group, es: seq<Entry>, u: UserId): seq<Change>
    requires Sound(db) && u in db.users
  {
    var user := db.users[u];
    ColumnChanges(user, g, ctx.samePerson(g.name, user.name),
                  Get(EmailIndex(db.users), g.email) in {None, Some(u)},
                  Get(PhoneIndex(db.users), g.phone) in {None, Some(u)},
                  AskedRole(ctx, es), Mine(ctx, user))
  }

  /** The same, when it is known whether the names are alike, the email and number free, and the account one's own. */
  function ColumnChanges(user: User, g: Group, alike: bool, emailFree: bool, phoneFree: bool, asked: Option<RoleId>,
      mine: bool)
    : seq<Change>
  {
    (if g.name != "" && g.name != user.name then [SetName(g.name, alike)] else []) +
    (if g.email != "" && g.email != user.email && emailFree then [SetEmail(g.email)] else []) +
    (if g.phone != "" && g.phone != user.phone && phoneFree then [SetPhone(g.phone)] else []) +
    (if asked.Some? && asked != user.role && !mine then [SetRole(asked.value)] else [])
  }

  // ---- the flats

  /** Flats of this person already listed, who in this file is primary where, and the changes so far. */
  datatype Flats = Flats(seen: set<Flat>, taken: map<Flat, int>, changes: seq<Change>)

  datatype Wish = Nothing | Unknown(flat: Flat) | Want(flat: Flat, home: Home)

  function HaveHome(homes: map<(UserId, Flat), Home>, u: Option<UserId>, flat: Flat): Option<Home> {
    if u.Some? then Get(homes, (u.value, flat)) else None
  }

  function RelationOf(ctx: Context, text: string): Option<Relation> {
    if ctx.blank(text) then None else Get(Words(ctx), ctx.key(text))
  }

  function OrElse<T>(a: Option<T>, b: T): T { if a.Some? then a.value else b }

  /** Whether the line and what is saved make this person the primary member, before anyone else is looked at. */
  function AsksPrimary(ctx: Context, have: Option<Home>, e: Entry, rel: Relation): bool {
    OrElse(ctx.yesNo(e.primaryText), have.Some? && have.value.primary) && !TenantSide(rel)
  }

  /** What a line wants of a flat. */
  function WishOf(ctx: Context, homes: map<(UserId, Flat), Home>, u: Option<UserId>, key: int, f: Flats,
      e: Entry): Wish {
    if ctx.blank(e.flat) || !ctx.flatsOn then Nothing
    else
      var flat := ctx.flatParts(e.wing, e.flat);
      var have := HaveHome(homes, u, flat);
      var rel := RelationOf(ctx, e.relationText);
      if flat in f.seen then Nothing
      else if rel.None? && have.None? then Unknown(flat)
      else
        var relation := if rel.Some? then rel.value else have.value.relation;
        var primary := AsksPrimary(ctx, have, e, relation) && !(flat in f.taken && f.taken[flat] != key);
        Want(flat, Home(relation, primary, OrElse(ctx.yesNo(e.livesText), have.None? || have.value.lives)))
  }

  function FlatStep(ctx: Context, homes: map<(UserId, Flat), Home>, u: Option<UserId>, key: int, f: Flats,
      e: Entry): Flats {
    match WishOf(ctx, homes, u, key, f, e)
    case Nothing => f
    case Unknown(flat) => f.(seen := f.seen + {flat}, changes := f.changes + [PickRelation(e.line, flat)])
    case Want(flat, home) =>
      Flats(f.seen + {flat},
            if home.primary then f.taken[flat := key] else f.taken,
            if HaveHome(homes, u, flat) == Some(home) then f.changes else f.changes + [SetHome(e.line, flat, home)])
  }

  function FlatsOf(ctx: Context, homes: map<(UserId, Flat), Home>, u: Option<UserId>, key: int, f: Flats,
      es: seq<Entry>): Flats
    decreases |es|
  {
    if es == [] then f else FlatsOf(ctx, homes, u, key, FlatStep(ctx, homes, u, key, f, es[0]), es[1..])
  }

  // ---- the plan

  predicate Ticked(c: Change) { !(c.SetName? && !c.likely) && !c.PickRelation? }

  function StatusOf(found: bool, changes: seq<Change>): Status {
    if !found then New
    else if exists c | c in changes :: !Ticked(c) then Check
    else if changes != [] then Update
    else Same
  }

  datatype Planned = Planned(person: Person, taken: map<Flat, int>)

  function LinesOf(entries: seq<Entry>, g: Group): (es: seq<Entry>)
    requires forall i | i in g.lines :: i < |entries|
  {
    seq(|g.lines|, p requires 0 <= p < |g.lines| => assert g.lines[p] in g.lines; entries[g.lines[p]])
  }

  function PlanPerson(ctx: Context, db: Db, g: Group, es: seq<Entry>, taken: map<Flat, int>): Planned
    requires Sound(db) && es != []
  {
    var key := es[0].line;
    var who := WhoIs(db, g);
    var blank := Person(key, g.lines, g.name, g.email, g.phone, None, Refused, [], None);
    if who.Clash() then Planned(blank, taken)
    else if who.Found().None? && |g.name| < 2 then Planned(blank, taken)
    else
      var u := who.Found();
      var own := if u.Some? then OwnChanges(ctx, db, g, es, u.value) else [AddPerson];
      var f := FlatsOf(ctx, db.homes, u, key, Flats({}, taken, own), es);
      Planned(
        blank.(found := u, status := StatusOf(u.Some?, f.changes), changes := f.changes,
               role := if u.Some? then None else NewRole(ctx, es)),
        f.taken)
  }

  ghost predicate FromFile(entries: seq<Entry>, groups: seq<Group>) {
    forall g | g in groups :: g.lines != [] && forall i | i in g.lines :: i < |entries|
  }

  /** The people of the groups, in order; who is primary where is handed on from each to the next. */
  function PlanPeople(ctx: Context, db: Db, entries: seq<Entry>, groups: seq<Group>, taken: map<Flat, int>): seq<Person>
    requires Sound(db) && FromFile(entries, groups)
    decreases |groups|
  {
    if groups == [] then []
    else
      var p := PlanPerson(ctx, db, groups[0], LinesOf(entries, groups[0]), taken);
      [p.person] + PlanPeople(ctx, db, entries, groups[1..], p.taken)
  }

  lemma SortedFromFile(r: Reading, entries: seq<Entry>)
    ensures FromFile(entries, Sorted(r, entries).groups)
  {
    SortedIsGood(r, entries);
    var s := Sorted(r, entries);
    forall g | g in s.groups ensures g.lines != [] && forall i | i in g.lines :: i < |entries| {
      var k :| 0 <= k < |s.groups| && s.groups[k] == g;
      forall i | i in g.lines ensures i < |entries| { assert In(s, k, i); }
    }
  }

  function Plan(ctx: Context, db: Db, entries: seq<Entry>): seq<Person>
    requires Sound(db)
  {
    SortedFromFile(ctx.reading, entries);
    PlanPeople(ctx, db, entries, Sorted(ctx.reading, entries).groups, map[])
  }

  // ---- the same, step by step

  method PlanFlats(ctx: Context, homes: map<(UserId, Flat), Home>, u: Option<UserId>, key: int, es: seq<Entry>,
                   taken0: map<Flat, int>, changes0: seq<Change>)
    returns (taken: map<Flat, int>, changes: seq<Change>)
    ensures var f := FlatsOf(ctx, homes, u, key, Flats({}, taken0, changes0), es);
            taken == f.taken && changes == f.changes
  {
    hide WishOf;
    var seen: set<Flat> := {};
    taken, changes := taken0, changes0;
    for i := 0 to |es|
      invariant FlatsOf(ctx, homes, u, key, Flats(seen, taken, changes), es[i..])
                == FlatsOf(ctx, homes, u, key, Flats({}, taken0, changes0), es)
    {
      assert es[i..][0] == es[i] && es[i..][1..] == es[i + 1..];
      seen, taken, changes := PlanFlat(ctx, homes, u, key, es[i], seen, taken, changes);
    }
  }

  method PlanFlat(ctx: Context, homes: map<(UserId, Flat), Home>, u: Option<UserId>, key: int, e: Entry,
                  seen0: set<Flat>, taken0: map<Flat, int>, changes0: seq<Change>)
    returns (seen: set<Flat>, taken: map<Flat, int>, changes: seq<Change>)
    ensures Flats(seen, taken, changes) == FlatStep(ctx, homes, u, key, Flats(seen0, taken0, changes0), e)
  {
    seen, taken, changes := seen0, taken0, changes0;
    if ctx.blank(e.flat) || !ctx.flatsOn { return; }
    var flat := ctx.flatParts(e.wing, e.flat);
    if flat in seen { return; }
    seen := seen + {flat};
    var have := HaveHome(homes, u, flat);
    var rel := RelationOf(ctx, e.relationText);
    if rel.None? && have.None? {
      changes := changes + [PickRelation(e.line, flat)];
      return;
    }
    var relation := if rel.Some? then rel.value else have.value.relation;
    var primary, lives: bool;
    match ctx.yesNo(e.primaryText) {
      case Some(said) => primary := said;
      case None => primary := have.Some? && have.value.primary;
    }
    match ctx.yesNo(e.livesText) {
      case Some(said) => lives := said;
      case None => lives := have.None? || have.value.lives;
    }
    if primary && TenantSide(relation) { primary := false; }
    if primary {
      if flat in taken && taken[flat] != key { primary := false; }
      else { taken := taken[flat := key]; }
    }
    var home := Home(relation, primary, lives);
    if have != Some(home) { changes := changes + [SetHome(e.line, flat, home)]; }
  }

  lemma TailFromFile(entries: seq<Entry>, groups: seq<Group>, g: nat)
    requires FromFile(entries, groups) && g <= |groups|
    ensures FromFile(entries, groups[g..]) && groups[0..] == groups
    ensures g < |groups| ==> groups[g].lines != [] && forall i | i in groups[g].lines :: i < |entries|
  {
  }

  lemma PeopleNext(ctx: Context, db: Db, entries: seq<Entry>, groups: seq<Group>, g: nat, taken: map<Flat, int>)
    requires Sound(db) && g < |groups| && FromFile(entries, groups[g..]) && FromFile(entries, groups[g + 1..])
    requires groups[g].lines != [] && forall i | i in groups[g].lines :: i < |entries|
    ensures var p := PlanPerson(ctx, db, groups[g], LinesOf(entries, groups[g]), taken);
            PlanPeople(ctx, db, entries, groups[g..], taken)
            == [p.person] + PlanPeople(ctx, db, entries, groups[g + 1..], p.taken)
  {
    assert groups[g..][0] == groups[g] && groups[g..][1..] == groups[g + 1..];
  }

  lemma PeopleEnd(ctx: Context, db: Db, entries: seq<Entry>, groups: seq<Group>, taken: map<Flat, int>)
    requires Sound(db) && FromFile(entries, groups[|groups|..])
    ensures PlanPeople(ctx, db, entries, groups[|groups|..], taken) == []
  {
  }

  /** build_plan: the people of a file with their changes, and the lines left out. */
  method BuildPlan(ctx: Context, db: Db, entries: seq<Entry>) returns (people: seq<Person>, skipped: seq<Skip>)
    requires Sound(db)
    ensures people == Plan(ctx, db, entries)
    ensures skipped == Sorted(ctx.reading, entries).skipped
  {
    hide PlanPerson, Sorted, Leads, Sound, PlanPeople, FromFile;
    var groups, _, left := SortLines(ctx.reading, entries);
    skipped := left;
    SortedFromFile(ctx.reading, entries);
    TailFromFile(entries, groups, 0);
    people := [];
    var taken: map<Flat, int> := map[];
    for g := 0 to |groups|
      invariant FromFile(entries, groups[g..])
      invariant people + PlanPeople(ctx, db, entries, groups[g..], taken) == Plan(ctx, db, entries)
    {
      TailFromFile(entries, groups, g);
      TailFromFile(entries, groups, g + 1);
      PeopleNext(ctx, db, entries, groups, g, taken);
      var p;
      p, taken := PlanOne(ctx, db, groups[g], LinesOf(entries, groups[g]), taken);
      people := people + [p];
    }
    PeopleEnd(ctx, db, entries, groups, taken);
  }

  method PlanOne(ctx: Context, db: Db, g: Group, es: seq<Entry>, taken0: map<Flat, int>)
    returns (p: Person, taken: map<Flat, int>)
    requires Sound(db) && es != []
    ensures Planned(p, taken) == PlanPerson(ctx, db, g, es, taken0)
  {
    hide FlatsOf, Sound;
    p := Person(es[0].line, g.lines, g.name, g.email, g.phone, None, Refused, [], None);
    taken := taken0;
    var who := WhoIs(db, g);
    if who.Clash() { return; }
    var u := who.Found();
    var changes: seq<Change> := [];
    var role := None;
    if u.Some? {
      changes := OwnChanges(ctx, db, g, es, u.value);
    } else {
      if |g.name| < 2 { return; }
      role := NewRole(ctx, es);
      changes := [AddPerson];
    }
    taken, changes := PlanFlats(ctx, db.homes, u, es[0].line, es, taken, changes);
    p := p.(found := u, status := StatusOf(u.Some?, changes), changes := changes, role := role);
  }
}
