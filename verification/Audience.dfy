// Who gets an announcement, and why the others do not: audience and left_out of app/services/announcements.py.
module Audience {

  type UserId = string
  type RoleId = string

  /** A home in use, as the ticks look at it. */
  datatype Home = Home(wing: string, relation: string, primary: bool, here: bool)

  /** Somebody active. */
  datatype Person = Person(id: UserId, role: RoleId, homes: seq<Home>)

  datatype Primary = Any | Only | Not

  datatype Filters = Filters(
    byFlat: bool, here: bool, away: bool, relations: set<string>, primary: Primary, wings: set<string>,
    roles: set<RoleId>)

  /** What clean_filters lets through. */
  predicate Clean(f: Filters) {
    if f.byFlat then (f.here || f.away) && f.relations != {} else f.roles != {}
  }

  /** The kinds of tick; a question can be put to some of them only. */
  datatype Tick = Role | Lives | Relation | PrimaryMember | Wing

  const ALL: set<Tick> := {Role, Lives, Relation, PrimaryMember, Wing}

  predicate Passes(f: Filters, tick: Tick, h: Home) {
    match tick
    case Role => true
    case Lives => if h.here then f.here else f.away
    case Relation => h.relation in f.relations
    case PrimaryMember => f.primary == Any || (f.primary == Only <==> h.primary)
    case Wing => f.wings == {} || h.wing in f.wings
  }

  /** Whether some ticks alone reach a person: by role, and through one home that passes them all. */
  predicate Reached(f: Filters, ticks: set<Tick>, p: Person) {
    if !f.byFlat then p.role in f.roles
    else
      && (Role in ticks && f.roles != {} ==> p.role in f.roles)
      && exists h | h in p.homes :: forall t | t in ticks :: Passes(f, t, h)
  }

  datatype Why =
    | RoleNotPicked | NoFlat | OtherWing | LivesOtherwise | RelationNotTicked | NotPrimary | IsPrimary | NotTogether

  /** The reason given, branch by branch. */
  function WhyNot(f: Filters, p: Person): Why {
    if (f.roles != {} && p.role !in f.roles) || !f.byFlat then RoleNotPicked
    else if p.homes == [] then NoFlat
    else if f.wings != {} && !(exists h | h in p.homes :: h.wing in f.wings) then OtherWing
    else if !(exists h | h in p.homes :: if h.here then f.here else f.away) then LivesOtherwise
    else if !(exists h | h in p.homes :: h.relation in f.relations) then RelationNotTicked
    else if f.primary == Only then NotPrimary
    else if f.primary == Not then IsPrimary
    else NotTogether
  }

  // ---- what the fields say, each for itself

  /** One home that meets every field. */
  predicate Meets(f: Filters, h: Home) {
    && (h.here ==> f.here) && (!h.here ==> f.away) && h.relation in f.relations
    && (f.primary == Only ==> h.primary) && (f.primary == Not ==> !h.primary)
    && (f.wings == {} || h.wing in f.wings)
  }

  /** By role, whoever has a picked one; by flat, whoever has one home that meets every field, and one of the picked
      roles if any is picked. */
  predicate Gets(f: Filters, p: Person) {
    if f.byFlat then (f.roles == {} || p.role in f.roles) && exists h | h in p.homes :: Meets(f, h)
    else p.role in f.roles
  }

  /** What each reason says of somebody who is left out. */
  predicate Tells(why: Why, f: Filters, p: Person) {
    match why
    case RoleNotPicked => p.role !in f.roles && (f.byFlat ==> f.roles != {})
    case NoFlat => f.byFlat && p.homes == []
    case OtherWing => f.byFlat && p.homes != [] && f.wings != {} && forall h | h in p.homes :: h.wing !in f.wings
    case LivesOtherwise => f.byFlat && p.homes != [] && forall h | h in p.homes ::
        (h.here && !f.here) || (!h.here && !f.away)
    case RelationNotTicked => f.byFlat && p.homes != [] && forall h | h in p.homes :: h.relation !in f.relations
    case NotPrimary => f.byFlat && f.primary == Only && EachHasAHome(f, p)
    case IsPrimary => f.byFlat && f.primary == Not && EachHasAHome(f, p)
    case NotTogether => f.byFlat && f.primary == Any && EachHasAHome(f, p)
  }

  /** Each of the other ticks is met by some home. */
  predicate EachHasAHome(f: Filters, p: Person) {
    && (exists h | h in p.homes :: f.wings == {} || h.wing in f.wings)
    && (exists h | h in p.homes :: if h.here then f.here else f.away)
    && (exists h | h in p.homes :: h.relation in f.relations)
  }

  lemma GetsIs(f: Filters, p: Person)
    ensures Reached(f, ALL, p) <==> Gets(f, p)
  {
    forall h | h in p.homes ensures (forall t | t in ALL :: Passes(f, t, h)) <==> Meets(f, h) {
      if forall t | t in ALL :: Passes(f, t, h) {
        assert Passes(f, Lives, h) && Passes(f, Relation, h) && Passes(f, PrimaryMember, h) && Passes(f, Wing, h);
      }
    }
  }

  lemma TellsIs(f: Filters, p: Person)
    requires !Gets(f, p)
    ensures Tells(WhyNot(f, p), f, p)
  {
    if p.homes != [] { assert p.homes[0] in p.homes; }
  }

  /** Ticking more never loses anyone: another role when roles are what counts, living here or away, a relation, and a
      wing or a role where some are picked. */
  lemma TickingMoreKeeps(f: Filters, g: Filters, p: Person)
    requires g.byFlat == f.byFlat && g.primary == f.primary
    requires (f.here ==> g.here) && (f.away ==> g.away) && f.relations <= g.relations
    requires if f.wings == {} then g.wings == {} else f.wings <= g.wings
    requires if f.roles == {} then f.byFlat ==> g.roles == {} else f.roles <= g.roles
    requires Reached(f, ALL, p)
    ensures Reached(g, ALL, p)
  {
    GetsIs(f, p);
    GetsIs(g, p);
    if f.byFlat {
      var h :| h in p.homes && Meets(f, h);
      assert Meets(g, h);
    }
  }

  method Choose(f: Filters, people: seq<Person>) returns (chosen: set<UserId>)
    ensures forall u :: u in chosen <==> exists p | p in people :: p.id == u && Reached(f, ALL, p)
    ensures forall u :: u in chosen <==> exists p | p in people :: p.id == u && Gets(f, p)
  {
    hide Reached, Gets;
    forall p ensures Reached(f, ALL, p) <==> Gets(f, p) { GetsIs(f, p); }
    chosen := {};
    for i := 0 to |people|
      invariant forall u :: u in chosen <==> exists j | 0 <= j < i :: people[j].id == u && Reached(f, ALL, people[j])
    {
      if Reached(f, ALL, people[i]) { chosen := chosen + {people[i].id}; }
    }
  }

  predicate DistinctIds(people: seq<Person>) { forall i, j | 0 <= i < j < |people| :: people[i].id != people[j].id }

  /** Everyone is chosen or on the list of those left out, never both, and the list says why, in order. */
  method LeftOut(f: Filters, people: seq<Person>) returns (chosen: set<UserId>, left: seq<(UserId, Why)>)
    requires DistinctIds(people)
    ensures forall p | p in people :: p.id in chosen <==> Reached(f, ALL, p)
    ensures forall p | p in people :: p.id in chosen <==> Gets(f, p)
    ensures forall l | l in left :: exists p | p in people :: p.id == l.0 && !Gets(f, p) && Tells(l.1, f, p)
    ensures forall p | p in people :: p.id !in chosen <==> (p.id, WhyNot(f, p)) in left
    ensures forall l | l in left :: exists p | p in people :: l == (p.id, WhyNot(f, p)) && !Reached(f, ALL, p)
  {
    chosen := Choose(f, people);
    left := [];
    forall p | p in people ensures p.id in chosen <==> Reached(f, ALL, p) {
      if q :| q in people && q.id == p.id && Reached(f, ALL, q) { assert q == p; }
    }
    forall p ensures Reached(f, ALL, p) <==> Gets(f, p) { GetsIs(f, p); }
    forall p | !Gets(f, p) ensures Tells(WhyNot(f, p), f, p) { TellsIs(f, p); }
    hide Reached, WhyNot, Gets, Tells;
    for i := 0 to |people|
      invariant forall j | 0 <= j < i :: people[j].id !in chosen ==> (people[j].id, WhyNot(f, people[j])) in left
      invariant forall l | l in left :: exists j | 0 <= j < i ::
                l == (people[j].id, WhyNot(f, people[j])) && people[j].id !in chosen
    {
      if people[i].id !in chosen { left := left + [(people[i].id, WhyNot(f, people[i]))]; }
    }
  }

  /** Which tick a reason points at. */
  function Blamed(why: Why): set<Tick> {
    match why
    case RoleNotPicked => {Role}
    case NoFlat => {}
    case OtherWing => {Wing}
    case LivesOtherwise => {Lives}
    case RelationNotTicked => {Relation}
    case NotPrimary => {PrimaryMember}
    case IsPrimary => {PrimaryMember}
    case NotTogether => ALL
  }

  /** A reason is right when the ticks it points at are enough to leave the person out, and the last one only
      when each tick alone would reach the person. */
  ghost predicate Right(f: Filters, p: Person) {
    && !Reached(f, Blamed(WhyNot(f, p)), p)
    && (WhyNot(f, p) == NotTogether ==> forall t :: Reached(f, {t}, p))
  }

  lemma AloneIs(f: Filters, t: Tick, p: Person)
    requires f.byFlat
    ensures Reached(f, {t}, p)
            <==> (t == Role && f.roles != {} ==> p.role in f.roles) && exists h | h in p.homes :: Passes(f, t, h)
  {
    forall h ensures (forall s | s in {t} :: Passes(f, s, h)) <==> Passes(f, t, h) { assert t in {t}; }
  }

  lemma PrimaryAlone(f: Filters, p: Person)
    requires f.byFlat && f.primary != Any
    ensures Reached(f, {PrimaryMember}, p) <==> exists h | h in p.homes :: h.primary == (f.primary == Only)
  {
    AloneIs(f, PrimaryMember, p);
    if h :| h in p.homes && h.primary == (f.primary == Only) { assert Passes(f, PrimaryMember, h); }
  }

  /** The reason given is right, except for the two about the primary member: those are right exactly when no home
      of the person passes that tick. */
  lemma ReasonsAreRight(f: Filters, p: Person)
    requires Clean(f) && !Reached(f, ALL, p)
    ensures WhyNot(f, p) !in {NotPrimary, IsPrimary} ==> Right(f, p)
    ensures WhyNot(f, p) == NotPrimary ==> (Right(f, p) <==> forall h | h in p.homes :: !h.primary)
    ensures WhyNot(f, p) == IsPrimary ==> (Right(f, p) <==> forall h | h in p.homes :: h.primary)
  {
    var why := WhyNot(f, p);
    if f.byFlat {
      forall t ensures Reached(f, {t}, p)
                       <==> (t == Role && f.roles != {} ==> p.role in f.roles)
                            && exists h | h in p.homes :: Passes(f, t, h)
      {
        AloneIs(f, t, p);
      }
      if f.primary != Any { PrimaryAlone(f, p); }
      if why == NotTogether { EachAlone(f, p); }
    }
  }

  lemma EachAlone(f: Filters, p: Person)
    requires f.byFlat && Clean(f) && WhyNot(f, p) == NotTogether
    ensures forall t :: Reached(f, {t}, p)
  {
    forall t ensures Reached(f, {t}, p) {
      AloneIs(f, t, p);
      assert p.homes[0] in p.homes;
      match t {
        case Role => assert Passes(f, Role, p.homes[0]);
        case PrimaryMember => assert Passes(f, PrimaryMember, p.homes[0]);
        case Lives =>
          var h :| h in p.homes && if h.here then f.here else f.away;
          assert Passes(f, Lives, h);
        case Relation =>
          var h :| h in p.homes && h.relation in f.relations;
          assert Passes(f, Relation, h);
        case Wing =>
          var h := p.homes[0];
          if f.wings != {} { h :| h in p.homes && h.wing in f.wings; }
          assert Passes(f, Wing, h);
      }
    }
  }

  /** Somebody who is the primary member of a flat in another wing is told "not the primary member". */
  lemma PrimaryReasonCanBeWrong()
    ensures exists f, p :: Clean(f) && !Reached(f, ALL, p) && WhyNot(f, p) == NotPrimary && !Right(f, p)
  {
    var f := Filters(true, true, true, {"owner"}, Only, {"A"}, {});
    var a, b := Home("A", "owner", false, true), Home("B", "owner", true, true);
    var p := Person("u", "r", [a, b]);
    assert !Passes(f, PrimaryMember, a) && !Passes(f, Wing, b);
    assert a in p.homes && b in p.homes;
    assert PrimaryMember in ALL && Wing in ALL;
    assert !Reached(f, ALL, p);
    assert b.primary;
    ReasonsAreRight(f, p);
  }
}
