// Flows that start after other flows: the worklist _descendants and the can_follow list of app/admin_panel/triggers.py,
// and the loop check chain_problem of app/services/flow_triggers.py that set_after goes by.
module FlowChains {
  import opened Wrappers

  type Flow = string

  /** Which flow each flow starts after; a flow has at most one. */
  type Links = map<Flow, Flow>

  /** The flow k steps up from one. */
  function Climb(after: Links, x: Flow, k: nat): Option<Flow>
    decreases k
  {
    if k == 0 then Some(x)
    else if x in after then Climb(after, after[x], k - 1)
    else None
  }

  /** Whether x starts, directly or through others, after y. */
  ghost predicate Up(after: Links, x: Flow, y: Flow) { exists k: nat | k > 0 :: Climb(after, x, k) == Some(y) }

  ghost predicate Meets(after: Links, x: Flow, y: Flow) { exists k: nat :: Climb(after, x, k) == Some(y) }

  ghost predicate Acyclic(after: Links) { forall x :: !Up(after, x, x) }

  lemma {:induction false} ClimbJoin(after: Links, x: Flow, j: nat, k: nat)
    requires Climb(after, x, j).Some?
    ensures Climb(after, x, j + k) == Climb(after, Climb(after, x, j).value, k)
    decreases j
  {
    if j > 0 { ClimbJoin(after, after[x], j - 1, k); }
  }

  lemma ClimbOne(after: Links, x: Flow, k: nat)
    ensures Climb(after, x, k + 1)
            == match Climb(after, x, k) case None => None case Some(y) => if y in after then Some(after[y]) else None
  {
    if Climb(after, x, k).Some? { ClimbJoin(after, x, k, 1); } else { ClimbNone(after, x, k); }
  }

  lemma {:induction false} ClimbNone(after: Links, x: Flow, k: nat)
    requires Climb(after, x, k).None?
    ensures Climb(after, x, k + 1).None?
    decreases k
  {
    if k > 0 && x in after { ClimbNone(after, after[x], k - 1); }
  }

  lemma {:induction false} ClimbDefined(after: Links, x: Flow, j: nat, k: nat)
    requires j <= k && Climb(after, x, k).Some?
    ensures Climb(after, x, j).Some?
    decreases k
  {
    if j < k {
      if Climb(after, x, k - 1).None? { ClimbNone(after, x, k - 1); }
      ClimbDefined(after, x, j, k - 1);
    }
  }

  // ---- the flows that run after one

  datatype Link = Link(flow: Flow, after: Flow)

  predicate Lists(rows: seq<Link>, after: Links) {
    && (forall r | r in rows :: r.flow in after && after[r.flow] == r.after)
    && (forall x | x in after :: Link(x, after[x]) in rows)
  }

  /** Whatever starts after a flow that is done with is found. */
  ghost predicate Closed(after: Links, w: Flow, found: set<Flow>, todo: seq<Flow>) {
    forall x | x in after && (after[x] in found || after[x] == w) && after[x] !in todo :: x in found
  }

  lemma UpOne(after: Links, x: Flow, y: Flow)
    requires x in after && (after[x] == y || Up(after, after[x], y))
    ensures Up(after, x, y)
  {
    if after[x] == y {
      assert Climb(after, x, 1) == Some(y);
    } else {
      var k: nat :| k > 0 && Climb(after, after[x], k) == Some(y);
      assert Climb(after, x, k + 1) == Some(y);
    }
  }

  lemma {:induction false} ClosedHasAll(after: Links, w: Flow, found: set<Flow>, x: Flow, k: nat)
    requires Closed(after, w, found, []) && k > 0 && Climb(after, x, k) == Some(w)
    ensures x in found
    decreases k
  {
    if k > 1 { ClosedHasAll(after, w, found, after[x], k - 1); }
  }

  method Descendants(rows: seq<Link>, ghost after: Links, w: Flow) returns (found: set<Flow>)
    requires Lists(rows, after)
    ensures forall x :: x in found <==> Up(after, x, w)
  {
    hide Up, Climb, Closed;
    StartClosed(after, w);
    found := {};
    var todo := [w];
    while todo != []
      invariant found <= after.Keys && forall x | x in found :: Up(after, x, w)
      invariant forall y | y in todo :: y == w || y in found
      invariant Closed(after, w, found, todo)
      decreases |after.Keys - found|, |todo|
    {
      var here := todo[|todo| - 1];
      ghost var rest := todo[..|todo| - 1];
      ghost var before := found;
      assert todo == rest + [here];
      todo := todo[..|todo| - 1];
      assert rest + [here] == todo + [here];
      found, todo := Followers(rows, after, w, here, found, todo);
      if found != before { FewerLeft(after.Keys, before, found); }
    }
    forall x ensures x in found <==> Up(after, x, w) { ClosedIsAll(after, w, found, x); }
  }

  lemma StartClosed(after: Links, w: Flow)
    ensures Closed(after, w, {}, [w])
  {
  }

  lemma ClosedIsAll(after: Links, w: Flow, found: set<Flow>, x: Flow)
    requires Closed(after, w, found, []) && forall y | y in found :: Up(after, y, w)
    ensures x in found <==> Up(after, x, w)
  {
    if Up(after, x, w) {
      var k: nat :| k > 0 && Climb(after, x, k) == Some(w);
      ClosedHasAll(after, w, found, x, k);
    }
  }

  lemma FewerLeft(all: set<Flow>, before: set<Flow>, found: set<Flow>)
    requires before < found <= all
    ensures |all - found| < |all - before|
  {
    var x :| x in found && x !in before;
    assert all - found < all - before;
    SmallerSet(all - found, all - before);
  }

  lemma {:induction false} SmallerSet(a: set<Flow>, b: set<Flow>)
    requires a < b
    ensures |a| < |b|
    decreases a
  {
    if a != {} {
      var x :| x in a;
      SmallerSet(a - {x}, b - {x});
    }
  }

  /** Everything that starts right after `here` and is not found yet is found, and is to be looked at in its turn. */
  method Followers(rows: seq<Link>, ghost after: Links, w: Flow, here: Flow, found0: set<Flow>, todo0: seq<Flow>)
    returns (found: set<Flow>, todo: seq<Flow>)
    requires Lists(rows, after)
    requires found0 <= after.Keys && (here == w || here in found0)
    requires forall x | x in found0 :: Up(after, x, w)
    requires forall y | y in todo0 :: y == w || y in found0
    requires Closed(after, w, found0, todo0 + [here])
    ensures found0 <= found <= after.Keys && (found == found0 ==> todo == todo0)
    ensures forall x | x in found :: Up(after, x, w)
    ensures forall y | y in todo :: y == w || y in found
    ensures Closed(after, w, found, todo)
  {
    hide Up;
    found, todo := found0, todo0;
    for i := 0 to |rows|
      invariant found0 <= found <= after.Keys && (found == found0 ==> todo == todo0)
      invariant forall x | x in found :: Up(after, x, w)
      invariant forall y | y in todo :: y == w || y in found
      invariant forall y | y in todo0 || (y in found && y !in found0) :: y in todo
      invariant forall j | 0 <= j < i && rows[j].after == here :: rows[j].flow in found
    {
      if rows[i].after == here && rows[i].flow !in found {
        UpOne(after, rows[i].flow, w);
        found := found + {rows[i].flow};
        todo := todo + [rows[i].flow];
      }
    }
    forall x | x in after && (after[x] in found || after[x] == w) && after[x] !in todo ensures x in found {
      assert Link(x, after[x]) in rows;
    }
  }

  // ---- which flows a flow could follow

  datatype Info = Info(id: Flow, block: bool)

  /** can_follow: every other flow that does not already follow this one and is not a building block. */
  method CanFollow(flows: seq<Info>, rows: seq<Link>, ghost after: Links, w: Flow) returns (ids: seq<Flow>)
    requires Lists(rows, after) && Acyclic(after)
    ensures forall a ::
              a in ids <==> (exists f | f in flows :: f.id == a && !f.block) && a != w && Acyclic(after[w := a])
  {
    var skip := Descendants(rows, after, w);
    ids := [];
    for i := 0 to |flows|
      invariant forall a ::
        a in ids <==> (exists j | 0 <= j < i :: flows[j].id == a && !flows[j].block) && a != w && a !in skip
    {
      if flows[i].id != w && flows[i].id !in skip && !flows[i].block { ids := ids + [flows[i].id]; }
    }
    hide Acyclic, Up;
    forall a | a != w ensures Acyclic(after[w := a]) <==> a !in skip { NewLinkIsFine(after, w, a); }
  }

  lemma {:induction false} ClimbSame(after: Links, w: Flow, a: Flow, x: Flow, k: nat)
    requires forall j | 0 <= j < k :: Climb(after, x, j) != Some(w)
    ensures Climb(after[w := a], x, k) == Climb(after, x, k)
    decreases k
  {
    if k > 0 {
      assert Climb(after, x, 0) == Some(x);
      if x in after {
        forall j | 0 <= j < k - 1 ensures Climb(after, after[x], j) != Some(w) {
          assert Climb(after, x, j + 1) != Some(w);
        }
        ClimbSame(after, w, a, after[x], k - 1);
      }
    }
  }

  /** The first time a climb meets a flow. */
  lemma {:induction false} FirstMeeting(after: Links, x: Flow, w: Flow, k: nat) returns (m: nat)
    requires Climb(after, x, k) == Some(w)
    ensures m <= k && Climb(after, x, m) == Some(w) && forall j | 0 <= j < m :: Climb(after, x, j) != Some(w)
    decreases k
  {
    if j :| 0 <= j < k && Climb(after, x, j) == Some(w) { m := FirstMeeting(after, x, w, j); } else { m := k; }
  }

  /** The climb up from a flow that is linked anew is the climb of the old links, until it meets that flow. */
  lemma UpSame(after: Links, w: Flow, a: Flow)
    ensures Meets(after[w := a], a, w) <==> Meets(after, a, w)
  {
    var linked := after[w := a];
    if k: nat :| Climb(linked, a, k) == Some(w) {
      var m := FirstMeeting(linked, a, w, k);
      if w in after {
        assert linked[w := after[w]] == after;
        ClimbSame(linked, w, after[w], a, m);
      } else {
        ClimbLess(linked, w, a, m);
        assert linked - {w} == after;
      }
    }
    if k: nat :| Climb(after, a, k) == Some(w) {
      var m := FirstMeeting(after, a, w, k);
      ClimbSame(after, w, a, a, m);
    }
  }

  lemma {:induction false} ClimbLess(after: Links, w: Flow, x: Flow, k: nat)
    requires forall j | 0 <= j < k :: Climb(after, x, j) != Some(w)
    ensures Climb(after - {w}, x, k) == Climb(after, x, k)
    decreases k
  {
    if k > 0 {
      assert Climb(after, x, 0) == Some(x);
      if x in after {
        forall j | 0 <= j < k - 1 ensures Climb(after, after[x], j) != Some(w) {
          assert Climb(after, x, j + 1) != Some(w);
        }
        ClimbLess(after, w, after[x], k - 1);
      }
    }
  }

  /** A loop through the new link is a climb from its upper end back to its lower one. */
  lemma LoopThrough(after: Links, w: Flow, a: Flow, x: Flow)
    requires Acyclic(after) && Up(after[w := a], x, x)
    ensures Meets(after[w := a], a, w)
  {
    var linked := after[w := a];
    var k: nat :| k > 0 && Climb(linked, x, k) == Some(x);
    if j :| 0 <= j < k && Climb(linked, x, j) == Some(w) {
      ClimbJoin(linked, x, j, k - j);
      ClimbJoin(linked, x, k, j);
      ClimbJoin(linked, x, j, k);
      assert Climb(linked, w, k) == Some(w);
      assert Climb(linked, a, k - 1) == Some(w);
    } else {
      if w in after {
        assert linked[w := after[w]] == after;
        ClimbSame(linked, w, after[w], x, k);
      } else {
        ClimbLess(linked, w, x, k);
        assert linked - {w} == after;
      }
      assert Up(after, x, x);
    }
  }

  lemma MeetsIsUp(after: Links, a: Flow, w: Flow)
    requires a != w
    ensures Meets(after, a, w) <==> Up(after, a, w)
  {
    if k: nat :| Climb(after, a, k) == Some(w) { assert k > 0; }
  }

  /** Linking w after a keeps the links free of loops exactly when a does not already follow w. */
  lemma NewLinkIsFine(after: Links, w: Flow, a: Flow)
    requires Acyclic(after) && a != w
    ensures Acyclic(after[w := a]) <==> !Up(after, a, w)
  {
    var linked := after[w := a];
    UpSame(after, w, a);
    MeetsIsUp(after, a, w);
    if Up(after, a, w) {
      var k: nat :| Climb(linked, a, k) == Some(w);
      assert Climb(linked, w, k + 1) == Some(w);
      assert Up(linked, w, w);
    } else {
      forall x ensures !Up(linked, x, x) {
        if Up(linked, x, x) { LoopThrough(after, w, a, x); }
      }
    }
  }

  // ---- the check that set_after goes by

  /** chain_problem: climbing from the flow to follow, does one come to the flow that is to follow it? */
  method ChainProblem(after: Links, w: Flow, a: Flow) returns (loop: bool)
    ensures loop <==> a == w || Up(after, a, w)
  {
    if w == a { return true; }
    var links := after - {w};
    var seen: seq<Flow> := [];
    var here := a;
    while here in links && here !in seen
      invariant Climb(links, a, |seen|) == Some(here)
      invariant forall j | 0 <= j < |seen| :: Climb(links, a, j) == Some(seen[j]) && seen[j] in links
      invariant here != w
      invariant forall i, j | 0 <= i < j < |seen| :: seen[i] != seen[j]
      decreases |links| - |seen|
    {
      seen := seen + [here];
      SeenIsSmall(seen, links.Keys);
      ClimbOne(links, a, |seen| - 1);
      here := links[here];
      if here == w {
        WithoutIsUp(after, w, a, |seen|);
        return true;
      }
    }
    Trapped(links, a, w, seen, here);
    NeverUp(after, w, a);
    return false;
  }

  lemma {:induction false} SeenIsSmall(seen: seq<Flow>, keys: set<Flow>)
    requires (forall i, j | 0 <= i < j < |seen| :: seen[i] != seen[j]) && forall x | x in seen :: x in keys
    ensures |seen| <= |keys|
  {
    if seen != [] {
      var n := |seen| - 1;
      assert seen[n] in keys;
      SeenIsSmall(seen[..n], keys - {seen[n]});
    }
  }

  lemma {:induction false} WithoutIsUp(after: Links, w: Flow, a: Flow, k: nat)
    requires Climb(after - {w}, a, k) == Some(w) && a != w
    ensures Up(after, a, w)
  {
    ClimbMore(after, w, a, k);
    assert k > 0 && Climb(after, a, k) == Some(w);
  }

  lemma {:induction false} ClimbMore(after: Links, w: Flow, a: Flow, k: nat)
    requires Climb(after - {w}, a, k).Some?
    ensures Climb(after, a, k) == Climb(after - {w}, a, k)
    decreases k
  {
    if k > 0 { ClimbMore(after, w, after[a], k - 1); }
  }

  /** A climb that ends, or comes to a flow seen before, never meets a flow it has not met. */
  lemma Trapped(links: Links, a: Flow, w: Flow, seen: seq<Flow>, here: Flow)
    requires Climb(links, a, |seen|) == Some(here) && (here !in links || here in seen) && here != w && w !in links
    requires forall j | 0 <= j < |seen| :: Climb(links, a, j) == Some(seen[j]) && seen[j] in links
    ensures forall k: nat :: Climb(links, a, k) != Some(w)
  {
    forall k: nat ensures Climb(links, a, k) != Some(w) { StaysIn(links, a, w, seen, here, k); }
  }

  lemma {:induction false} StaysIn(links: Links, a: Flow, w: Flow, seen: seq<Flow>, here: Flow, k: nat)
    requires Climb(links, a, |seen|) == Some(here) && (here !in links || here in seen) && here != w && w !in links
    requires forall j | 0 <= j < |seen| :: Climb(links, a, j) == Some(seen[j]) && seen[j] in links
    ensures Climb(links, a, k).None? || Climb(links, a, k).value in seen || Climb(links, a, k).value == here
    ensures Climb(links, a, k) != Some(w)
  {
    if k > 0 {
      StaysIn(links, a, w, seen, here, k - 1);
      ClimbOne(links, a, k - 1);
      var before := Climb(links, a, k - 1);
      if before.Some? && before.value in seen {
        var j :| 0 <= j < |seen| && seen[j] == before.value;
        ClimbOne(links, a, j);
      }
    } else {
      assert Climb(links, a, 0) == Some(a);
      if seen != [] { assert Climb(links, a, 0) == Some(seen[0]); }
    }
  }

  lemma NeverUp(after: Links, w: Flow, a: Flow)
    requires forall k: nat :: Climb(after - {w}, a, k) != Some(w)
    ensures !Up(after, a, w)
  {
    if Up(after, a, w) {
      var k: nat :| k > 0 && Climb(after, a, k) == Some(w);
      var m := FirstMeeting(after, a, w, k);
      ClimbLess(after, w, a, m);
    }
  }

  // ---- links over time

  lemma FewerUps(after: Links, w: Flow, x: Flow, y: Flow)
    requires Up(after - {w}, x, y)
    ensures Up(after, x, y)
  {
    var k: nat :| k > 0 && Climb(after - {w}, x, k) == Some(y);
    ClimbMore(after, w, x, k);
  }

  class Chains {
    var after: Links

    /** set_after: refused when the flow is not fit to start by itself, when the flow to follow never finishes by
        itself, or when it would go round. Here no other request comes between the check and the insert. */
    method SetAfter(w: Flow, a: Flow, fit: bool, block: bool) returns (ok: bool)
      modifies this
      ensures ok <==> fit && !block && a != w && !Up(old(after), a, w)
      ensures after == if ok then old(after)[w := a] else old(after)
      ensures Acyclic(old(after)) ==> Acyclic(after)
      ensures Acyclic(old(after)) ==> (ok <==> fit && !block && a != w && Acyclic(old(after)[w := a]))
      ensures fit && !block ==>
                State(after, map[]) == Next(Next(State(old(after), map[]), Check(0, Link(w, a))), Insert(0))
    {
      hide Up, Acyclic;
      var loop := ChainProblem(after, w, a);
      if Acyclic(after) && a != w { NewLinkIsFine(after, w, a); }
      if !fit || block || loop { return false; }
      assert (map[0 := Link(w, a)] - {0}) == map[];
      after := after[w := a];
      return true;
    }

    /** remove_after, and set_schedule, which replaces what a flow follows. */
    method RemoveAfter(w: Flow)
      modifies this
      ensures after == old(after) - {w}
      ensures Acyclic(old(after)) ==> Acyclic(after)
    {
      ghost var before := after;
      after := after - {w};
      forall x | Acyclic(before) ensures !Up(after, x, x) {
        if Up(after, x, x) { FewerUps(before, w, x, x); }
      }
    }
  }

  // ---- several requests at once

  type Id = nat

  /** The links, and the requests that have been checked and are about to insert theirs. */
  datatype State = State(after: Links, hand: map<Id, Link>)

  datatype Step = Check(id: Id, link: Link) | Insert(id: Id) | Remove(flow: Flow)

  /** What the check asks. */
  ghost predicate Fine(after: Links, link: Link) { link.after != link.flow && !Up(after, link.after, link.flow) }

  ghost function Next(st: State, s: Step): State {
    match s
    case Check(id, link) => if Fine(st.after, link) then st.(hand := st.hand[id := link]) else st
    case Insert(id) =>
      if id in st.hand then State(st.after[st.hand[id].flow := st.hand[id].after], st.hand - {id}) else st
    case Remove(flow) => st.(after := st.after - {flow})
  }

  /** At no moment of a run do the links go round. */
  ghost predicate NeverRound(st: State, run: seq<Step>)
    decreases |run|
  {
    Acyclic(st.after) && (run != [] ==> NeverRound(Next(st, run[0]), run[1..]))
  }

  /** Every link inserted would still pass the check. */
  ghost predicate NoneLate(st: State, run: seq<Step>)
    decreases |run|
  {
    run != [] ==>
      && (run[0].Insert? && run[0].id in st.hand ==> Fine(st.after, st.hand[run[0].id]))
      && NoneLate(Next(st, run[0]), run[1..])
  }

  lemma OwnLoop(after: Links, w: Flow)
    ensures !Acyclic(after[w := w])
  {
    assert Climb(after[w := w], w, 1) == Some(w);
    assert Up(after[w := w], w, w);
  }

  lemma StepRound(st: State, s: Step)
    requires Acyclic(st.after)
    ensures Acyclic(Next(st, s).after) <==> (s.Insert? && s.id in st.hand ==> Fine(st.after, st.hand[s.id]))
  {
    hide Up, Acyclic;
    match s {
      case Check(_, _) =>
      case Insert(id) =>
        if id in st.hand {
          var l := st.hand[id];
          if l.flow == l.after { OwnLoop(st.after, l.flow); } else { NewLinkIsFine(st.after, l.flow, l.after); }
        }
      case Remove(flow) => RemovedIsFine(st.after, flow);
    }
  }

  lemma RemovedIsFine(after: Links, w: Flow)
    requires Acyclic(after)
    ensures Acyclic(after - {w})
  {
    forall x ensures !Up(after - {w}, x, x) {
      if Up(after - {w}, x, x) { FewerUps(after, w, x, x); }
    }
  }

  /** However requests interleave, the links never go round exactly when no link is inserted that the check, made
      again at that moment, would refuse. */
  lemma {:induction false} NeverRoundExactly(st: State, run: seq<Step>)
    requires Acyclic(st.after)
    ensures NeverRound(st, run) <==> NoneLate(st, run)
    decreases |run|
  {
    hide Acyclic, Fine, Next;
    if run != [] {
      StepRound(st, run[0]);
      if Acyclic(Next(st, run[0]).after) {
        NeverRoundExactly(Next(st, run[0]), run[1..]);
      } else {
        assert !NeverRound(Next(st, run[0]), run[1..]);
      }
    }
  }

  /** When a link is inserted no other request is between its check and its insert. */
  ghost predicate OneAtATime(st: State, run: seq<Step>)
    decreases |run|
  {
    run != [] ==>
      && (run[0].Insert? && run[0].id in st.hand ==> st.hand.Keys == {run[0].id})
      && OneAtATime(Next(st, run[0]), run[1..])
  }

  /** That is enough, whatever links are removed in between. */
  lemma {:induction false} OneAtATimeIsEnough(st: State, run: seq<Step>)
    requires OneAtATime(st, run) && forall id | id in st.hand :: Fine(st.after, st.hand[id])
    ensures NoneLate(st, run)
    decreases |run|
  {
    if run != [] {
      var next := Next(st, run[0]);
      forall id | id in next.hand ensures Fine(next.after, next.hand[id]) { StaysFine(st, run[0], id); }
      hide Fine, Next;
      OneAtATimeIsEnough(next, run[1..]);
    }
  }

  lemma StaysFine(st: State, s: Step, id: Id)
    requires forall o | o in st.hand :: Fine(st.after, st.hand[o])
    requires s.Insert? && s.id in st.hand ==> st.hand.Keys == {s.id}
    requires id in Next(st, s).hand
    ensures Fine(Next(st, s).after, Next(st, s).hand[id])
  {
    hide Up;
    if s.Remove? {
      var l := st.hand[id];
      if Up(st.after - {s.flow}, l.after, l.flow) { FewerUps(st.after, s.flow, l.after, l.flow); }
    }
  }

  /** Two flows set after each other at once: both checks pass, and both links are inserted. */
  lemma BothAtOnce(x: Flow, y: Flow)
    requires x != y
    ensures var run := [Check(0, Link(x, y)), Check(1, Link(y, x)), Insert(0), Insert(1)];
            var st := State(map[], map[]);
            && Next(Next(Next(Next(st, run[0]), run[1]), run[2]), run[3]) == State(map[x := y, y := x], map[])
            && !Acyclic(map[x := y, y := x]) && !NeverRound(st, run)
  {
    var run := [Check(0, Link(x, y)), Check(1, Link(y, x)), Insert(0), Insert(1)];
    var st := State(map[], map[]);
    NothingUp(x, y);
    NothingUp(y, x);
    var both: Links := map[x := y, y := x];
    assert Climb(both, y, 1) == Some(x) && Climb(both, x, 2) == Climb(both, y, 1);
    assert Up(both, x, x);
    hide Up, Acyclic;
    var one := Next(st, run[0]);
    var two := Next(one, run[1]);
    var three := Next(two, run[2]);
    assert two == State(map[], map[0 := Link(x, y), 1 := Link(y, x)]);
    assert three == State(map[x := y], map[1 := Link(y, x)]);
    var four := Next(three, run[3]);
    assert four == State(both, map[]);
    assert !NeverRound(four, run[4..]);
    assert run[1..][1..] == run[2..] && run[2..][1..] == run[3..] && run[3..][1..] == run[4..];
    assert !NeverRound(three, run[3..]);
    assert !NeverRound(two, run[2..]);
    assert !NeverRound(one, run[1..]);
  }

  lemma NothingUp(x: Flow, y: Flow)
    ensures !Up(map[], x, y)
  {
    forall k: nat | k > 0 ensures Climb(map[], x, k) == None {}
  }
}
