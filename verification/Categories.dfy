// The walk inside list_categories of app/admin_panel/routing.py: the tree of categories as one list, each with its
// depth and the number of cases in it and everything under it.
module Categories {

  type Id = string

  datatype Parent = Top | Under(id: Id)

  datatype Cases = Cases(total: nat, open: nat)

  /** A line of the list. */
  datatype Row = Row(id: Id, depth: nat, cases: Cases, children: nat)

  type Parents = map<Id, Parent>
  type Children = map<Parent, seq<Id>>

  function Kids(kids: Children, p: Parent): seq<Id> { if p in kids then kids[p] else [] }

  predicate Distinct(s: seq<Id>) { forall i, j | 0 <= i < j < |s| :: s[i] != s[j] }

  predicate Placed(parents: Parents, kids: Children, c: Id)
    requires c in parents
  {
    c in Kids(kids, parents[c])
  }

  /** The lists of children are the parent links turned round, in some order. */
  ghost predicate Turned(parents: Parents, kids: Children) {
    && (forall p :: Distinct(Kids(kids, p)))
    && (forall p, c | c in Kids(kids, p) :: c in parents && parents[c] == p)
    && (forall c {:trigger Placed(parents, kids, c)} | c in parents :: Placed(parents, kids, c))
  }

  predicate DepthRight(parents: Parents, depth: map<Id, nat>, c: Id)
    requires c in parents && depth.Keys == parents.Keys
  {
    match parents[c] case Top => depth[c] == 0 case Under(p) => p in parents && depth[c] == depth[p] + 1
  }

  /** A number for every category: 0 at the top, one more than its parent's below. There is one exactly when the
      parent links form a forest. */
  predicate Depths(parents: Parents, depth: map<Id, nat>) {
    && depth.Keys == parents.Keys
    && (forall c {:trigger DepthRight(parents, depth, c)} | c in parents :: DepthRight(parents, depth, c))
  }

  /** Everything the walk reads, with a bound on the depths. */
  datatype Tree = Tree(parents: Parents, kids: Children, own: map<Id, Cases>, depth: map<Id, nat>, height: nat)

  ghost predicate Valid(t: Tree) {
    && Turned(t.parents, t.kids) && Depths(t.parents, t.depth)
    && forall c | c in t.depth :: t.depth[c] < t.height
  }

  function Own(t: Tree, c: Id): Cases { if c in t.own then t.own[c] else Cases(0, 0) }

  function Plus(a: Cases, b: Cases): Cases { Cases(a.total + b.total, a.open + b.open) }

  /** The categories at one place in the tree: all of one depth. */
  predicate Level(t: Tree, ids: seq<Id>, d: nat) { forall c | c in ids :: c in t.depth && t.depth[c] == d }

  lemma KidsLevel(t: Tree, c: Id)
    requires Valid(t) && c in t.depth
    ensures Level(t, Kids(t.kids, Under(c)), t.depth[c] + 1) && t.depth[c] < t.height
  {
    forall k | k in Kids(t.kids, Under(c)) ensures k in t.depth && t.depth[k] == t.depth[c] + 1 {
      assert t.parents[k] == Under(c) && DepthRight(t.parents, t.depth, k);
    }
  }

  // ---- the list, as a function

  function KidsOf(t: Tree, c: Id): (ids: seq<Id>)
    requires Valid(t) && c in t.depth
    ensures Level(t, ids, t.depth[c] + 1) && t.depth[c] < t.height
  {
    KidsLevel(t, c);
    Kids(t.kids, Under(c))
  }

  function Subtree(t: Tree, c: Id, d: nat): seq<Row>
    requires Valid(t) && c in t.depth && t.depth[c] == d
    decreases t.height - d, 0
  {
    [Row(c, d, Held(t, c, d), |KidsOf(t, c)|)] + Listed(t, KidsOf(t, c), d + 1)
  }

  function Listed(t: Tree, ids: seq<Id>, d: nat): seq<Row>
    requires Valid(t) && Level(t, ids, d)
    decreases t.height - d, 1 + |ids|
  {
    if ids == [] then [] else Subtree(t, ids[0], d) + Listed(t, ids[1..], d)
  }

  /** What a category and all under it hold. */
  function Held(t: Tree, c: Id, d: nat): Cases
    requires Valid(t) && c in t.depth && t.depth[c] == d
    decreases t.height - d, 0
  {
    Plus(Own(t, c), Total(t, KidsOf(t, c), d + 1))
  }

  /** What the categories of a list and all under them hold. */
  function Total(t: Tree, ids: seq<Id>, d: nat): Cases
    requires Valid(t) && Level(t, ids, d)
    decreases t.height - d, 1 + |ids|
  {
    if ids == [] then Cases(0, 0) else Plus(Held(t, ids[0], d), Total(t, ids[1..], d))
  }

  lemma Next(t: Tree, ids: seq<Id>, i: nat, d: nat)
    requires Valid(t) && Level(t, ids, d) && i < |ids|
    ensures Level(t, ids[i..], d) && Level(t, ids[i + 1..], d) && ids[i] in t.depth && t.depth[ids[i]] == d
    ensures Listed(t, ids[i..], d) == Subtree(t, ids[i], d) + Listed(t, ids[i + 1..], d)
    ensures Total(t, ids[i..], d) == Plus(Held(t, ids[i], d), Total(t, ids[i + 1..], d))
  {
    hide Valid, Subtree, Held;
    assert ids[i..][0] == ids[i] && ids[i..][1..] == ids[i + 1..];
  }

  // ---- the walk itself

  class Lister {
    var ordered: seq<Row>

    constructor ()
      ensures ordered == []
    {
      ordered := [];
    }

    method Walk(t: Tree, parent: Parent, d: nat) returns (total: nat, open: nat)
      requires Valid(t) && Level(t, Kids(t.kids, parent), d)
      modifies this
      ensures ordered == old(ordered) + Listed(t, Kids(t.kids, parent), d)
      ensures Cases(total, open) == Total(t, Kids(t.kids, parent), d)
      decreases t.height - d
    {
      hide Valid, Level, Listed, Subtree, Total, Held;
      total, open := 0, 0;
      var ids := Kids(t.kids, parent);
      assert ids[0..] == ids;
      for i := 0 to |ids|
        invariant Level(t, ids[i..], d)
        invariant ordered + Listed(t, ids[i..], d) == old(ordered) + Listed(t, ids, d)
        invariant total + Total(t, ids[i..], d).total == Total(t, ids, d).total
        invariant open + Total(t, ids[i..], d).open == Total(t, ids, d).open
      {
        Next(t, ids, i, d);
        var c := ids[i];
        SubtreeIs(t, c, d);
        ghost var before := ordered;
        var idx := |ordered|;
        ordered := ordered + [Row(c, d, Cases(0, 0), 0)];
        var subTotal, subOpen := Walk(t, Under(c), d + 1);
        var row := Row(c, d, Cases(Own(t, c).total + subTotal, Own(t, c).open + subOpen), |Kids(t.kids, Under(c))|);
        ordered := ordered[idx := row];
        assert ordered == before + Subtree(t, c, d);
        total := total + row.cases.total;
        open := open + row.cases.open;
      }
      assert ids[|ids|..] == [];
      NothingBelow(t, d);
    }
  }

  lemma SubtreeIs(t: Tree, c: Id, d: nat)
    requires Valid(t) && c in t.depth && t.depth[c] == d
    ensures d < t.height && Level(t, Kids(t.kids, Under(c)), d + 1)
    ensures Held(t, c, d) == Plus(Own(t, c), Total(t, Kids(t.kids, Under(c)), d + 1))
    ensures Subtree(t, c, d) == [Row(c, d, Held(t, c, d), |Kids(t.kids, Under(c))|)]
            + Listed(t, Kids(t.kids, Under(c)), d + 1)
  {
    hide Valid, Level, Listed, Total, Own, Plus;
    KidsLevel(t, c);
    KidsOfIs(t, c);
    SubtreeRows(t, c, d);
  }

  lemma KidsOfIs(t: Tree, c: Id)
    requires Valid(t) && c in t.depth
    ensures KidsOf(t, c) == Kids(t.kids, Under(c))
  {
  }

  lemma SubtreeRows(t: Tree, c: Id, d: nat)
    requires Valid(t) && c in t.depth && t.depth[c] == d
    ensures Subtree(t, c, d) == [Row(c, d, Held(t, c, d), |KidsOf(t, c)|)] + Listed(t, KidsOf(t, c), d + 1)
  {
    hide Valid, Level, Listed, Total, Held, KidsOf;
  }

  lemma NothingBelow(t: Tree, d: nat)
    requires Valid(t)
    ensures Level(t, [], d) && Listed(t, [], d) == [] && Total(t, [], d) == Cases(0, 0)
  {
  }

  // ---- which categories are listed

  /** How often a category is listed. */
  function Times(rows: seq<Row>, c: Id): nat {
    if rows == [] then 0 else (if rows[0].id == c then 1 else 0) + Times(rows[1..], c)
  }

  lemma {:induction false} TimesJoin(a: seq<Row>, b: seq<Row>, c: Id)
    ensures Times(a + b, c) == Times(a, c) + Times(b, c)
  {
    if a == [] {
      assert a + b == b;
    } else {
      assert (a + b)[0] == a[0] && (a + b)[1..] == a[1..] + b;
      TimesJoin(a[1..], b, c);
    }
  }

  /** The ancestor a category has at some depth, itself at its own. */
  function AncestorAt(t: Tree, c: Id, d: nat): Id
    requires Valid(t) && c in t.depth && d <= t.depth[c]
    decreases t.depth[c]
  {
    assert DepthRight(t.parents, t.depth, c);
    if t.depth[c] == d then c else AncestorAt(t, t.parents[c].id, d)
  }

  lemma {:induction false} AncestorIs(t: Tree, c: Id, d: nat)
    requires Valid(t) && c in t.depth && d <= t.depth[c]
    ensures var a := AncestorAt(t, c, d); a in t.depth && t.depth[a] == d
    ensures d < t.depth[c] ==>
              var b := AncestorAt(t, c, d + 1); b in t.parents && t.parents[b] == Under(AncestorAt(t, c, d))
    decreases t.depth[c]
  {
    assert DepthRight(t.parents, t.depth, c);
    if d < t.depth[c] {
      AncestorIs(t, t.parents[c].id, d);
      if d + 1 < t.depth[c] { AncestorIs(t, t.parents[c].id, d + 1); }
    }
  }

  /** c is x or below it. */
  predicate IsUnder(t: Tree, c: Id, x: Id)
    requires Valid(t)
  {
    c in t.depth && x in t.depth && t.depth[x] <= t.depth[c] && AncestorAt(t, c, t.depth[x]) == x
  }

  /** c or an ancestor of it is among the ids, all of depth d. */
  predicate IsBelow(t: Tree, c: Id, ids: seq<Id>, d: nat)
    requires Valid(t) && c in t.depth
  {
    d <= t.depth[c] && AncestorAt(t, c, d) in ids
  }

  lemma KidsDistinct(t: Tree, p: Parent)
    requires Valid(t)
    ensures Distinct(Kids(t.kids, p))
  {
  }

  /** Below a category and not it: below one of its children. */
  lemma BelowKids(t: Tree, c: Id, x: Id)
    requires Valid(t) && c in t.depth && x in t.depth
    ensures IsUnder(t, c, x) <==> c == x || IsBelow(t, c, Kids(t.kids, Under(x)), t.depth[x] + 1)
  {
    var d := t.depth[x];
    if d == t.depth[c] { assert AncestorAt(t, c, d) == c; }
    hide Valid, AncestorAt, Kids;
    if d < t.depth[c] {
      AncestorIs(t, c, d);
      KidsAre(t, AncestorAt(t, c, d + 1), Under(x));
    }
  }

  lemma KidsAre(t: Tree, a: Id, p: Parent)
    requires Valid(t)
    ensures a in Kids(t.kids, p) <==> a in t.parents && t.parents[a] == p
  {
    if a in t.parents { assert Placed(t.parents, t.kids, a); }
  }

  /** A list apart from its first: still of one depth and distinct. */
  lemma Tail(t: Tree, ids: seq<Id>, d: nat)
    requires Level(t, ids, d) && ids != []
    ensures Level(t, ids[1..], d)
    ensures Distinct(ids) ==> Distinct(ids[1..]) && ids[0] !in ids[1..]
    ensures forall a :: a in ids <==> a == ids[0] || a in ids[1..]
  {
    assert ids == [ids[0]] + ids[1..];
  }

  lemma {:induction false} ListedTimes(t: Tree, ids: seq<Id>, d: nat, c: Id)
    requires Valid(t) && Level(t, ids, d) && Distinct(ids) && c in t.depth && d <= t.height
    ensures Times(Listed(t, ids, d), c) == if IsBelow(t, c, ids, d) then 1 else 0
    decreases t.height - d, |ids|
  {
    hide Valid, Listed, Subtree, Held, Total, AncestorAt, Level, Distinct, Times;
    if ids == [] {
      NothingBelow(t, d);
      NoTimes(c);
    } else {
      assert ids[0..] == ids;
      Next(t, ids, 0, d);
      SubtreeIs(t, ids[0], d);
      Tail(t, ids, d);
      KidsDistinct(t, Under(ids[0]));
      ListedTimes(t, Kids(t.kids, Under(ids[0])), d + 1, c);
      SubtreeFrom(t, ids[0], d, c);
      ListedTimes(t, ids[1..], d, c);
      TimesJoin(Subtree(t, ids[0], d), Listed(t, ids[1..], d), c);
    }
  }

  /** From the children's lists to the whole subtree. */
  lemma SubtreeFrom(t: Tree, x: Id, d: nat, c: Id)
    requires Valid(t) && x in t.depth && t.depth[x] == d && c in t.depth && Level(t, Kids(t.kids, Under(x)), d + 1)
    requires Times(Listed(t, Kids(t.kids, Under(x)), d + 1), c)
             == if IsBelow(t, c, Kids(t.kids, Under(x)), d + 1) then 1 else 0
    ensures Times(Subtree(t, x, d), c) == if IsUnder(t, c, x) then 1 else 0
  {
    hide Valid, Listed, Subtree, Held, Total, AncestorAt, Level, Distinct, IsUnder, IsBelow;
    BelowKids(t, c, x);
    SubtreeIs(t, x, d);
    NotItsOwnChild(t, c, x);
    var kids := Kids(t.kids, Under(x));
    var row := Row(x, d, Held(t, x, d), |kids|);
    TimesJoin([row], Listed(t, kids, d + 1), c);
    assert Times([row], c) == if x == c then 1 else 0;
  }

  lemma NotItsOwnChild(t: Tree, c: Id, x: Id)
    requires Valid(t) && c in t.depth && x in t.depth
    ensures c == x ==> !IsBelow(t, c, Kids(t.kids, Under(x)), t.depth[x] + 1)
  {
  }

  lemma SubtreeTimes(t: Tree, x: Id, d: nat, c: Id)
    requires Valid(t) && x in t.depth && t.depth[x] == d && c in t.depth
    ensures Times(Subtree(t, x, d), c) == if IsUnder(t, c, x) then 1 else 0
  {
    hide Valid, Listed, Subtree, Held, Total, AncestorAt, Level, Distinct, IsUnder, IsBelow, Times;
    SubtreeIs(t, x, d);
    KidsDistinct(t, Under(x));
    ListedTimes(t, Kids(t.kids, Under(x)), d + 1, c);
    SubtreeFrom(t, x, d, c);
  }

  lemma NoTimes(c: Id)
    ensures Times([], c) == 0
  {
  }

  lemma RootsLevel(t: Tree)
    requires Valid(t)
    ensures Level(t, Kids(t.kids, Top), 0)
  {
    forall c | c in Kids(t.kids, Top) ensures c in t.depth && t.depth[c] == 0 {
      assert t.parents[c] == Top && DepthRight(t.parents, t.depth, c);
    }
  }

  lemma RootAbove(t: Tree, c: Id)
    requires Valid(t) && c in t.depth
    ensures IsBelow(t, c, Kids(t.kids, Top), 0)
  {
    AncestorIs(t, c, 0);
    var a := AncestorAt(t, c, 0);
    assert DepthRight(t.parents, t.depth, a) && Placed(t.parents, t.kids, a);
  }

  /** The whole list. */
  function Rows(t: Tree): seq<Row>
    requires Valid(t)
  {
    RootsLevel(t);
    Listed(t, Kids(t.kids, Top), 0)
  }

  /** Every category is listed exactly once. */
  lemma EachListedOnce(t: Tree, c: Id)
    requires Valid(t) && c in t.parents
    ensures Times(Rows(t), c) == 1
  {
    RootsLevel(t);
    RootAbove(t, c);
    KidsDistinct(t, Top);
    hide Valid, Listed, Level, Distinct;
    ListedTimes(t, Kids(t.kids, Top), 0, c);
  }

  // ---- what a line says

  /** The categories above one, from its parent up. */
  function Ancestors(t: Tree, c: Id): seq<Id>
    requires Valid(t) && c in t.depth
    decreases t.depth[c]
  {
    assert DepthRight(t.parents, t.depth, c);
    match t.parents[c] case Top => [] case Under(p) => [p] + Ancestors(t, p)
  }

  lemma {:induction false} DepthCounts(t: Tree, c: Id)
    requires Valid(t) && c in t.depth
    ensures |Ancestors(t, c)| == t.depth[c]
    decreases t.depth[c]
  {
    assert DepthRight(t.parents, t.depth, c);
    if t.parents[c].Under? { DepthCounts(t, t.parents[c].id); }
  }

  ghost predicate RowRight(t: Tree, r: Row)
    requires Valid(t)
  {
    && r.id in t.depth && r.depth == t.depth[r.id] && r.children == |Kids(t.kids, Under(r.id))|
    && r.cases == Held(t, r.id, r.depth)
  }

  ghost predicate RowsRight(t: Tree, rows: seq<Row>)
    requires Valid(t)
  {
    forall r | r in rows :: RowRight(t, r)
  }

  lemma {:induction false} ListedRight(t: Tree, ids: seq<Id>, d: nat)
    requires Valid(t) && Level(t, ids, d) && d <= t.height
    ensures RowsRight(t, Listed(t, ids, d))
    decreases t.height - d, |ids|
  {
    hide Valid, Listed, Subtree, Held, Total, RowRight, RowsRight, Level;
    if ids == [] {
      NothingBelow(t, d);
      RightJoin(t, [], []);
    } else {
      assert ids[0..] == ids;
      Next(t, ids, 0, d);
      SubtreeIs(t, ids[0], d);
      Tail(t, ids, d);
      var kids := Kids(t.kids, Under(ids[0]));
      ListedRight(t, kids, d + 1);
      FirstRight(t, ids[0], d);
      ListedRight(t, ids[1..], d);
      RightJoin(t, [Row(ids[0], d, Held(t, ids[0], d), |kids|)], Listed(t, kids, d + 1));
      RightJoin(t, Subtree(t, ids[0], d), Listed(t, ids[1..], d));
    }
  }

  lemma FirstRight(t: Tree, x: Id, d: nat)
    requires Valid(t) && x in t.depth && t.depth[x] == d
    ensures RowsRight(t, [Row(x, d, Held(t, x, d), |Kids(t.kids, Under(x))|)])
  {
  }

  lemma RightJoin(t: Tree, a: seq<Row>, b: seq<Row>)
    requires Valid(t)
    ensures RowsRight(t, [])
    ensures RowsRight(t, a) && RowsRight(t, b) ==> RowsRight(t, a + b)
  {
    hide Valid, RowRight;
  }

  function SumOwn(t: Tree, rows: seq<Row>): Cases {
    if rows == [] then Cases(0, 0) else Plus(Own(t, rows[0].id), SumOwn(t, rows[1..]))
  }

  lemma {:induction false} SumJoin(t: Tree, a: seq<Row>, b: seq<Row>)
    ensures SumOwn(t, a + b) == Plus(SumOwn(t, a), SumOwn(t, b))
  {
    hide Own;
    if a == [] {
      assert a + b == b;
    } else {
      var own, rest := Own(t, a[0].id), a[1..];
      assert (a + b)[0] == a[0] && (a + b)[1..] == rest + b;
      SumJoin(t, rest, b);
      PlusThree(own, SumOwn(t, rest), SumOwn(t, b));
      hide Plus;
      assert SumOwn(t, a) == Plus(own, SumOwn(t, rest));
    }
  }

  lemma PlusThree(a: Cases, b: Cases, c: Cases)
    ensures Plus(a, Plus(b, c)) == Plus(Plus(a, b), c)
  {
  }

  lemma {:induction false} SubtreeSum(t: Tree, x: Id, d: nat)
    requires Valid(t) && x in t.depth && t.depth[x] == d
    ensures Held(t, x, d) == SumOwn(t, Subtree(t, x, d))
    decreases t.height - d, 0
  {
    hide Valid, Level, Listed, Subtree, Held, Total;
    SubtreeIs(t, x, d);
    var kids := Kids(t.kids, Under(x));
    ListedSum(t, kids, d + 1);
    var row := Row(x, d, Held(t, x, d), |kids|);
    SumJoin(t, [row], Listed(t, kids, d + 1));
    assert [row][1..] == [];
    assert SumOwn(t, [row]) == Plus(Own(t, x), Cases(0, 0));
  }

  lemma {:induction false} ListedSum(t: Tree, ids: seq<Id>, d: nat)
    requires Valid(t) && Level(t, ids, d) && d <= t.height
    ensures Total(t, ids, d) == SumOwn(t, Listed(t, ids, d))
    decreases t.height - d, 1 + |ids|
  {
    hide Valid, Listed, Subtree, Held, Total, Level, Plus;
    if ids == [] {
      NothingBelow(t, d);
    } else {
      assert ids[0..] == ids;
      Next(t, ids, 0, d);
      SubtreeIs(t, ids[0], d);
      Tail(t, ids, d);
      SubtreeSum(t, ids[0], d);
      ListedSum(t, ids[1..], d);
      SumJoin(t, Subtree(t, ids[0], d), Listed(t, ids[1..], d));
    }
  }

  // ---- subtrees stay together

  lemma {:induction false} BlockOf(t: Tree, ids: seq<Id>, d: nat, c: Id) returns (before: seq<Row>, after: seq<Row>)
    requires Valid(t) && Level(t, ids, d) && c in t.depth && IsBelow(t, c, ids, d) && d <= t.height
    ensures Listed(t, ids, d) == before + Subtree(t, c, t.depth[c]) + after
    decreases t.height - d, |ids|
  {
    hide Valid, Listed, Subtree, Held, Total, AncestorAt;
    var x := ids[0];
    assert ids[0..] == ids && ids == [x] + ids[1..];
    Next(t, ids, 0, d);
    SubtreeIs(t, x, d);
    BelowKids(t, c, x);
    var rest := Listed(t, ids[1..], d);
    if c == x {
      before, after := [], rest;
    } else if AncestorAt(t, c, d) == x {
      var kids := Kids(t.kids, Under(x));
      var b, a := BlockOf(t, kids, d + 1, c);
      var row := Row(x, d, Held(t, x, d), |kids|);
      before, after := [row] + b, a + rest;
      assert [row] + (b + Subtree(t, c, t.depth[c]) + a) + rest == before + Subtree(t, c, t.depth[c]) + after;
    } else {
      var b, a := BlockOf(t, ids[1..], d, c);
      before, after := Subtree(t, x, d) + b, a;
      assert Subtree(t, x, d) + (b + Subtree(t, c, t.depth[c]) + a) == before + Subtree(t, c, t.depth[c]) + after;
    }
  }

  /** In the list, a category is followed by all that is under it and nothing else, and none of that is elsewhere;
      its line says how deep it is and what it and everything under it hold. */
  lemma {:induction false} SubtreesTogether(t: Tree, c: Id) returns (before: seq<Row>, block: seq<Row>, after: seq<Row>)
    requires Valid(t) && c in t.parents
    ensures Rows(t) == before + block + after && block != [] && block[0].id == c
    ensures forall x | x in t.parents :: Times(block, x) == if IsUnder(t, x, c) then 1 else 0
    ensures forall x | x in t.parents && IsUnder(t, x, c) :: Times(before, x) == 0 && Times(after, x) == 0
    ensures block[0].depth == |Ancestors(t, c)| && block[0].cases == SumOwn(t, block)
  {
    assert c in t.depth;
    RootsLevel(t);
    RootAbove(t, c);
    before, after := BlockOf(t, Kids(t.kids, Top), 0, c);
    var d := t.depth[c];
    block := Subtree(t, c, d);
    SubtreeIs(t, c, d);
    SubtreeSum(t, c, d);
    DepthCounts(t, c);
    forall x | x in t.parents
      ensures Times(block, x) == if IsUnder(t, x, c) then 1 else 0
      ensures IsUnder(t, x, c) ==> Times(before, x) == 0 && Times(after, x) == 0
    {
      assert x in t.depth;
      hide Valid, Listed, Subtree, Held, Total, IsUnder, Times, Rows;
      SubtreeTimes(t, c, d, x);
      EachListedOnce(t, x);
      TimesJoin(before + block, after, x);
      TimesJoin(before, block, x);
    }
  }

  // ---- all categorised cases

  ghost function SumOver(t: Tree, ids: set<Id>): Cases
    decreases ids
  {
    if ids == {} then Cases(0, 0)
    else
      var c :| c in ids;
      Plus(Own(t, c), SumOver(t, ids - {c}))
  }

  lemma {:induction false} SumWithout(t: Tree, ids: set<Id>, c: Id)
    requires c in ids
    ensures SumOver(t, ids) == Plus(Own(t, c), SumOver(t, ids - {c}))
    decreases ids
  {
    hide Own;
    var x :| x in ids && SumOver(t, ids) == Plus(Own(t, x), SumOver(t, ids - {x}));
    if x != c {
      var rest := ids - {x} - {c};
      assert rest == ids - {c} - {x};
      SumWithout(t, ids - {x}, c);
      SumWithout(t, ids - {c}, x);
      PlusThree(Own(t, x), Own(t, c), SumOver(t, rest));
      PlusThree(Own(t, c), Own(t, x), SumOver(t, rest));
    }
  }

  /** A list with every one of some categories once, and no other, sums up to what they hold. */
  lemma {:induction false} SumOfList(t: Tree, rows: seq<Row>, ids: set<Id>)
    requires forall c :: Times(rows, c) == if c in ids then 1 else 0
    ensures SumOwn(t, rows) == SumOver(t, ids)
    decreases |rows|
  {
    if rows == [] {
      forall c ensures c !in ids { assert Times(rows, c) == 0; }
      assert ids == {};
    } else {
      var c := rows[0].id;
      assert Times(rows, c) == 1 + Times(rows[1..], c);
      forall x ensures Times(rows[1..], x) == if x in ids - {c} then 1 else 0 {
        assert Times(rows, x) == (if c == x then 1 else 0) + Times(rows[1..], x);
      }
      SumOfList(t, rows[1..], ids - {c});
      SumWithout(t, ids, c);
    }
  }

  lemma {:induction false} OnlyRows(rows: seq<Row>, c: Id)
    requires forall r | r in rows :: r.id != c
    ensures Times(rows, c) == 0
  {
    if rows != [] { OnlyRows(rows[1..], c); }
  }

  /** Every line is of a category, with its depth, and the totals at the top add up to all categorised cases. */
  lemma TotalsAddUp(t: Tree)
    requires Valid(t)
    ensures RowsRight(t, Rows(t))
    ensures Level(t, Kids(t.kids, Top), 0) && Total(t, Kids(t.kids, Top), 0) == SumOver(t, t.parents.Keys)
  {
    RootsLevel(t);
    ListedRight(t, Kids(t.kids, Top), 0);
    ListedSum(t, Kids(t.kids, Top), 0);
    assert t.depth.Keys == t.parents.Keys;
    forall c ensures Times(Rows(t), c) == if c in t.parents.Keys then 1 else 0 {
      if c in t.parents {
        EachListedOnce(t, c);
      } else {
        forall r | r in Rows(t) ensures r.id != c { assert RowRight(t, r); }
        OnlyRows(Rows(t), c);
      }
    }
    SumOfList(t, Rows(t), t.parents.Keys);
  }

  /** A sum over categories counts each one's own cases, none for one without a count, and nothing else. */
  lemma SumCountsCases(t: Tree, ids: set<Id>, c: Id)
    requires c in ids
    ensures SumOver(t, {}) == Cases(0, 0)
    ensures var own := if c in t.own then t.own[c] else Cases(0, 0); var rest := SumOver(t, ids - {c});
            SumOver(t, ids) == Cases(own.total + rest.total, own.open + rest.open)
  {
    SumWithout(t, ids, c);
  }
}
