// The first part of build_plan in app/admin_panel/people_import.py: the lines of a file become people, one
// person for all the lines that share a number or an email.
module ImportGroups {

  /** One line of the file. An empty text stands for a missing one. */
  datatype Entry = Entry(
    line: int, name: string, email: string, phone: string, roleText: string, wing: string, flat: string,
    relationText: string, primaryText: string, livesText: string)

  /** How texts are read: whether numbers count, the tidy form of an email and a name, and which emails look right. */
  datatype Reading = Reading(byNumber: bool, email: string -> string, emailOk: string -> bool, name: string -> string)

  datatype Key = Number(text: string) | Mail(text: string)

  datatype Reason = BadEmail | NoContact | TwoPeople

  datatype Skip = Skip(at: nat, reason: Reason)

  /** A person in the file: the places of the lines, and the first number, email and name among them. */
  datatype Group = Group(lines: seq<nat>, phone: string, email: string, name: string)

  datatype Sorting = Sorting(groups: seq<Group>, index: map<Key, nat>, skipped: seq<Skip>)

  datatype Verdict = LeaveOut(reason: Reason) | Join(g: nat) | StartNew

  function Phone(r: Reading, e: Entry): string { if r.byNumber then e.phone else "" }

  function Email(r: Reading, e: Entry): string { r.email(e.email) }

  function Keys(r: Reading, e: Entry): seq<Key> {
    (if Phone(r, e) != "" then [Number(Phone(r, e))] else []) + (if Email(r, e) != "" then [Mail(Email(r, e))] else [])
  }

  /** The people already found who have one of the keys. */
  function Found(index: map<Key, nat>, keys: seq<Key>): seq<nat> {
    if keys == [] then []
    else (if keys[0] in index then [index[keys[0]]] else []) + Found(index, keys[1..])
  }

  function Judge(r: Reading, index: map<Key, nat>, e: Entry): Verdict {
    var found := Found(index, Keys(r, e));
    if Email(r, e) != "" && !r.emailOk(Email(r, e)) then LeaveOut(BadEmail)
    else if Phone(r, e) == "" && Email(r, e) == "" then LeaveOut(NoContact)
    else if |found| > 1 && found[0] != found[1] then LeaveOut(TwoPeople)
    else if found == [] then StartNew
    else Join(found[0])
  }

  function Or(a: string, b: string): string { if a != "" then a else b }

  function Grown(r: Reading, g: Group, at: nat, e: Entry): Group {
    Group(g.lines + [at], Or(g.phone, Phone(r, e)), Or(g.email, Email(r, e)), Or(g.name, r.name(e.name)))
  }

  const NOBODY := Group([], "", "", "")

  function SetKeys(index: map<Key, nat>, keys: seq<Key>, g: nat): map<Key, nat>
    decreases |keys|
  {
    if keys == [] then index else SetKeys(index[keys[0] := g], keys[1..], g)
  }

  /** The index leads to people who are there. */
  predicate Leads(s: Sorting) { forall k | k in s.index :: s.index[k] < |s.groups| }

  lemma {:induction false} FoundIs(index: map<Key, nat>, keys: seq<Key>)
    ensures forall g | g in Found(index, keys) :: exists k | k in keys :: k in index && index[k] == g
    ensures forall k | k in keys && k in index :: index[k] in Found(index, keys)
    ensures |Found(index, keys)| <= |keys|
  {
    if keys != [] {
      FoundIs(index, keys[1..]);
      assert keys == [keys[0]] + keys[1..];
    }
  }

  lemma {:induction false} SetKeysIs(index: map<Key, nat>, keys: seq<Key>, g: nat)
    ensures forall k :: k in SetKeys(index, keys, g) <==> k in index || k in keys
    ensures forall k | k in SetKeys(index, keys, g) ::
              SetKeys(index, keys, g)[k] == if k in keys then g else index[k]
    decreases |keys|
  {
    if keys != [] {
      SetKeysIs(index[keys[0] := g], keys[1..], g);
      assert keys == [keys[0]] + keys[1..];
    }
  }

  lemma JudgeLeads(r: Reading, s: Sorting, e: Entry)
    requires Leads(s)
    ensures Judge(r, s.index, e).Join? ==> Judge(r, s.index, e).g < |s.groups|
  {
    var found := Found(s.index, Keys(r, e));
    FoundIs(s.index, Keys(r, e));
    if found != [] { assert found[0] in found; }
  }

  function Place(r: Reading, s: Sorting, at: nat, e: Entry): (out: Sorting)
    requires Leads(s)
    ensures Leads(out)
  {
    JudgeLeads(r, s, e);
    match Judge(r, s.index, e)
    case LeaveOut(reason) => s.(skipped := s.skipped + [Skip(at, reason)])
    case StartNew =>
      SetKeysIs(s.index, Keys(r, e), |s.groups|);
      Sorting(s.groups + [Grown(r, NOBODY, at, e)], SetKeys(s.index, Keys(r, e), |s.groups|), s.skipped)
    case Join(g) =>
      SetKeysIs(s.index, Keys(r, e), g);
      Sorting(s.groups[g := Grown(r, s.groups[g], at, e)], SetKeys(s.index, Keys(r, e), g), s.skipped)
  }

  function Sorted(r: Reading, entries: seq<Entry>): (s: Sorting)
    ensures Leads(s)
    decreases |entries|
  {
    if entries == [] then Sorting([], map[], [])
    else
      var n := |entries| - 1;
      Place(r, Sorted(r, entries[..n]), n, entries[n])
  }

  method SortLines(r: Reading, entries: seq<Entry>) returns (groups: seq<Group>, index: map<Key, nat>,
      skipped: seq<Skip>)
    ensures Sorting(groups, index, skipped) == Sorted(r, entries)
  {
    hide Keys, Found, SetKeys;
    groups, index, skipped := [], map[], [];
    for at := 0 to |entries|
      invariant Sorting(groups, index, skipped) == Sorted(r, entries[..at])
    {
      var e := entries[at];
      var email, phone := Email(r, e), Phone(r, e);
      ghost var before := Sorting(groups, index, skipped);
      assert entries[..at + 1][..at] == entries[..at];
      if email != "" && !r.emailOk(email) {
        skipped := skipped + [Skip(at, BadEmail)];
        continue;
      }
      if phone == "" && email == "" {
        skipped := skipped + [Skip(at, NoContact)];
        continue;
      }
      var keys := Keys(r, e);
      var found := FoundIn(index, keys);
      JudgeLeads(r, before, e);
      if |found| > 1 && found[0] != found[1] {
        skipped := skipped + [Skip(at, TwoPeople)];
        continue;
      }
      var g: nat;
      if found != [] {
        g := found[0];
      } else {
        g := |groups|;
        groups := groups + [NOBODY];
      }
      var it := groups[g];
      if it.phone == "" { it := it.(phone := phone); }
      if it.email == "" { it := it.(email := email); }
      if it.name == "" { it := it.(name := r.name(e.name)); }
      groups := groups[g := it.(lines := it.lines + [at])];
      index := Point(index, keys, g);
    }
    assert entries[..|entries|] == entries;
  }

  method FoundIn(index: map<Key, nat>, keys: seq<Key>) returns (found: seq<nat>)
    ensures found == Found(index, keys)
  {
    hide Found;
    found := [];
    assert keys[0..] == keys;
    for k := 0 to |keys|
      invariant found + Found(index, keys[k..]) == Found(index, keys)
    {
      FoundNext(index, keys, k);
      if keys[k] in index { found := found + [index[keys[k]]]; }
    }
    FoundLast(index, keys);
  }

  lemma FoundNext(index: map<Key, nat>, keys: seq<Key>, k: nat)
    requires k < |keys|
    ensures Found(index, keys[k..])
            == (if keys[k] in index then [index[keys[k]]] else []) + Found(index, keys[k + 1..])
  {
    assert keys[k..][1..] == keys[k + 1..];
  }

  lemma FoundLast(index: map<Key, nat>, keys: seq<Key>)
    ensures Found(index, keys[|keys|..]) == []
  {
  }

  method Point(index: map<Key, nat>, keys: seq<Key>, g: nat) returns (out: map<Key, nat>)
    ensures out == SetKeys(index, keys, g)
  {
    out := index;
    for k := 0 to |keys|
      invariant SetKeys(out, keys[k..], g) == SetKeys(index, keys, g)
    {
      out := out[keys[k] := g];
      assert keys[k..][1..] == keys[k + 1..];
    }
  }

  // ---- what a sorting is

  predicate In(s: Sorting, g: nat, i: nat) { g < |s.groups| && i in s.groups[g].lines }

  predicate Skipped(s: Sorting, i: nat) { exists j :: 0 <= j < |s.skipped| && s.skipped[j].at == i }

  predicate Kept(s: Sorting, i: nat) { exists g | 0 <= g < |s.groups| :: In(s, g, i) }

  predicate Rising(lines: seq<nat>) { forall i, j :: 0 <= i < j < |lines| ==> lines[i] < lines[j] }

  /** Every line is in exactly one place, once. */
  ghost predicate Partition(s: Sorting, n: nat) {
    && (forall i | 0 <= i < n :: Kept(s, i) <==> !Skipped(s, i))
    && (forall g: nat, h: nat, i: nat | In(s, g, i) && In(s, h, i) :: g == h)
    && (forall g | 0 <= g < |s.groups| :: s.groups[g].lines != [] && Rising(s.groups[g].lines))
    && (forall g: nat, i: nat | In(s, g, i) :: i < n)
    && (forall j | 0 <= j < |s.skipped| :: s.skipped[j].at < n)
    && (forall i, j | 0 <= i < j < |s.skipped| :: s.skipped[i].at < s.skipped[j].at)
  }

  predicate HasKey(r: Reading, entries: seq<Entry>, i: nat, k: Key) { i < |entries| && k in Keys(r, entries[i]) }

  /** The index says exactly whose each key is. */
  ghost predicate Indexed(r: Reading, entries: seq<Entry>, s: Sorting) {
    && (forall g: nat, i: nat, k | In(s, g, i) && HasKey(r, entries, i, k) :: k in s.index && s.index[k] == g)
    && (forall k | k in s.index :: exists i: nat :: In(s, s.index[k], i) && HasKey(r, entries, i, k))
  }

  predicate Share(r: Reading, entries: seq<Entry>, i: nat, j: nat) {
    i < |entries| && j < |entries| && exists k | k in Keys(r, entries[i]) :: k in Keys(r, entries[j])
  }

  /** A chain of kept lines in which each shares a number or an email with the next. */
  predicate Chain(r: Reading, entries: seq<Entry>, s: Sorting, path: seq<nat>) {
    && path != []
    && (forall p | 0 <= p < |path| :: Kept(s, path[p]))
    && (forall p | 0 <= p < |path| - 1 :: Share(r, entries, path[p], path[p + 1]))
  }

  ghost predicate Linked(r: Reading, entries: seq<Entry>, s: Sorting, i: nat, j: nat) {
    exists path :: Chain(r, entries, s, path) && path[0] == i && path[|path| - 1] == j
  }

  ghost predicate AllLinked(r: Reading, entries: seq<Entry>, s: Sorting) {
    forall g: nat, i: nat, j: nat | In(s, g, i) && In(s, g, j) :: Linked(r, entries, s, i, j)
  }

  // ---- links

  lemma LinkShare(r: Reading, entries: seq<Entry>, s: Sorting, i: nat, j: nat)
    requires Kept(s, i) && Kept(s, j) && Share(r, entries, i, j)
    ensures Linked(r, entries, s, i, j)
  {
    assert Chain(r, entries, s, [i, j]);
  }

  lemma LinkBack(r: Reading, entries: seq<Entry>, s: Sorting, i: nat, j: nat)
    requires Linked(r, entries, s, i, j)
    ensures Linked(r, entries, s, j, i)
  {
    hide Kept, Share;
    var path :| Chain(r, entries, s, path) && path[0] == i && path[|path| - 1] == j;
    var n := |path|;
    var back := seq(n, p requires 0 <= p < n => path[n - 1 - p]);
    forall p | 0 <= p < n - 1 ensures Share(r, entries, back[p], back[p + 1]) {
      assert back[p] == path[n - 2 - p + 1] && back[p + 1] == path[n - 2 - p];
      ShareBack(r, entries, path[n - 2 - p], path[n - 2 - p + 1]);
    }
    assert Chain(r, entries, s, back);
  }

  lemma ShareBack(r: Reading, entries: seq<Entry>, i: nat, j: nat)
    requires Share(r, entries, i, j)
    ensures Share(r, entries, j, i)
  {
  }

  lemma LinkJoin(r: Reading, entries: seq<Entry>, s: Sorting, i: nat, j: nat, k: nat)
    requires Linked(r, entries, s, i, j) && Linked(r, entries, s, j, k)
    ensures Linked(r, entries, s, i, k)
  {
    hide Kept, Share;
    var a :| Chain(r, entries, s, a) && a[0] == i && a[|a| - 1] == j;
    var b :| Chain(r, entries, s, b) && b[0] == j && b[|b| - 1] == k;
    var path := a + b[1..];
    forall p | 0 <= p < |path| - 1 ensures Share(r, entries, path[p], path[p + 1]) {
      if p == |a| - 1 { assert path[p] == b[0] && path[p + 1] == b[1]; }
      if p >= |a| { assert path[p] == b[p - |a| + 1] && path[p + 1] == b[p - |a| + 2]; }
    }
    assert Chain(r, entries, s, path);
  }

  /** More lines and more kept ones break no link. */
  lemma LinkStays(r: Reading, entries: seq<Entry>, s: Sorting, more: seq<Entry>, t: Sorting, i: nat, j: nat)
    requires Linked(r, entries, s, i, j)
    requires entries <= more && forall p: nat | Kept(s, p) :: Kept(t, p)
    ensures Linked(r, more, t, i, j)
  {
    hide Kept;
    var path :| Chain(r, entries, s, path) && path[0] == i && path[|path| - 1] == j;
    assert Chain(r, more, t, path);
  }

  // ---- what placing one line does

  /** The person a line goes to, when it is kept. */
  function Target(r: Reading, s: Sorting, e: Entry): nat {
    match Judge(r, s.index, e) case Join(g) => g case _ => |s.groups|
  }

  lemma PlacedIn(r: Reading, s: Sorting, at: nat, e: Entry)
    requires Leads(s)
    ensures var t := Place(r, s, at, e); var v := Judge(r, s.index, e);
            && |s.groups| <= |t.groups|
            && (forall g: nat, i: nat ::
                  In(t, g, i) <==> In(s, g, i) || (!v.LeaveOut? && i == at && g == Target(r, s, e)))
  {
    JudgeLeads(r, s, e);
  }

  lemma PlacedKept(r: Reading, s: Sorting, at: nat, e: Entry)
    requires Leads(s)
    ensures var t := Place(r, s, at, e); var v := Judge(r, s.index, e);
            && (forall i: nat :: Kept(t, i) <==> Kept(s, i) || (!v.LeaveOut? && i == at))
            && (forall i: nat :: Skipped(t, i) <==> Skipped(s, i) || (v.LeaveOut? && i == at))
  {
    PlacedIn(r, s, at, e);
    JudgeLeads(r, s, e);
    hide In;
    var t, v := Place(r, s, at, e), Judge(r, s.index, e);
    forall i: nat | Kept(s, i) ensures Kept(t, i) { var g :| 0 <= g < |s.groups| && In(s, g, i); assert In(t, g, i); }
    if !v.LeaveOut? { assert In(t, Target(r, s, e), at); }
    if v.LeaveOut? { assert t.skipped[|s.skipped|].at == at; }
    forall i: nat | Skipped(s, i) ensures Skipped(t, i) {
      var j :| 0 <= j < |s.skipped| && s.skipped[j].at == i;
      assert t.skipped[j] == s.skipped[j];
    }
  }

  lemma PlacedPartition(r: Reading, s: Sorting, at: nat, e: Entry)
    requires Leads(s) && Partition(s, at)
    ensures Partition(Place(r, s, at, e), at + 1)
  {
    PlacedIn(r, s, at, e);
    PlacedKept(r, s, at, e);
    JudgeLeads(r, s, e);
    var t := Place(r, s, at, e);
    assert !Kept(s, at) && !Skipped(s, at);
    forall g | 0 <= g < |t.groups| ensures t.groups[g].lines != [] && Rising(t.groups[g].lines) {
      if g < |s.groups| {
        forall k | 0 <= k < |s.groups[g].lines| ensures s.groups[g].lines[k] < at {
          assert In(s, g, s.groups[g].lines[k]);
        }
      }
    }
    hide In, Kept, Skipped, Rising, Place;
    assert forall i | 0 <= i < at + 1 :: Kept(t, i) <==> !Skipped(t, i);
    PlacedOnce(r, s, at, e);
    PlacedSkips(r, s, at, e);
  }

  lemma PlacedOnce(r: Reading, s: Sorting, at: nat, e: Entry)
    requires Leads(s) && Partition(s, at)
    ensures var t := Place(r, s, at, e);
            && (forall g: nat, h: nat, i: nat | In(t, g, i) && In(t, h, i) :: g == h)
            && (forall g: nat, i: nat | In(t, g, i) :: i < at + 1)
  {
    PlacedIn(r, s, at, e);
    hide In, Place, Judge, Target;
  }

  lemma PlacedSkips(r: Reading, s: Sorting, at: nat, e: Entry)
    requires Leads(s) && Partition(s, at)
    ensures var t := Place(r, s, at, e);
            && (forall j | 0 <= j < |t.skipped| :: t.skipped[j].at < at + 1)
            && (forall i, j | 0 <= i < j < |t.skipped| :: t.skipped[i].at < t.skipped[j].at)
  {
    hide Judge;
  }

  /** A line that is kept brings no key of somebody else. */
  lemma KeysAgree(r: Reading, s: Sorting, e: Entry)
    requires Leads(s) && !Judge(r, s.index, e).LeaveOut?
    ensures forall k | k in Keys(r, e) && k in s.index :: s.index[k] == Target(r, s, e)
    ensures Judge(r, s.index, e).Join? ==> exists k :: k in Keys(r, e) && k in s.index
    ensures Keys(r, e) != []
  {
    var keys := Keys(r, e);
    var found := Found(s.index, keys);
    FoundIs(s.index, keys);
    if Judge(r, s.index, e).Join? { assert found[0] in found; }
  }

  lemma PlacedIndex(r: Reading, s: Sorting, at: nat, e: Entry)
    requires Leads(s)
    ensures var t := Place(r, s, at, e); var v := Judge(r, s.index, e);
            if v.LeaveOut? then t.index == s.index
            else
              && (forall k :: k in t.index <==> k in s.index || k in Keys(r, e))
              && (forall k | k in t.index :: t.index[k] == if k in Keys(r, e) then Target(r, s, e) else s.index[k])
  {
    SetKeysIs(s.index, Keys(r, e), Target(r, s, e));
    hide SetKeys, Keys;
  }

  lemma PlacedIndexed(r: Reading, entries: seq<Entry>, s: Sorting, e: Entry)
    requires Leads(s) && Partition(s, |entries|) && Indexed(r, entries, s)
    ensures Indexed(r, entries + [e], Place(r, s, |entries|, e))
  {
    hide In, Place, Judge, Target, Keys, Leads, HasKey;
    var all := entries + [e];
    var t := Place(r, s, |entries|, e);
    forall g: nat, i: nat, k | In(t, g, i) && HasKey(r, all, i, k) ensures k in t.index && t.index[k] == g {
      PlacedOwned(r, entries, s, e, g, i, k);
    }
    forall k | k in t.index ensures exists i: nat :: In(t, t.index[k], i) && HasKey(r, all, i, k) {
      var _ := PlacedOwner(r, entries, s, e, k);
    }
  }

  lemma InBefore(s: Sorting, n: nat, g: nat, i: nat)
    requires Partition(s, n) && In(s, g, i)
    ensures i < n
  {
  }

  lemma PlacedOwned(r: Reading, entries: seq<Entry>, s: Sorting, e: Entry, g: nat, i: nat, k: Key)
    requires Leads(s) && Partition(s, |entries|) && Indexed(r, entries, s)
    requires In(Place(r, s, |entries|, e), g, i) && HasKey(r, entries + [e], i, k)
    ensures var t := Place(r, s, |entries|, e); k in t.index && t.index[k] == g
  {
    hide In, Place, Judge, Target, Keys, Leads, Partition;
    var at := |entries|;
    PlacedIn(r, s, at, e);
    PlacedIndex(r, s, at, e);
    if !Judge(r, s.index, e).LeaveOut? { KeysAgree(r, s, e); }
    if In(s, g, i) {
      InBefore(s, at, g, i);
      assert HasKey(r, entries, i, k);
    }
  }

  lemma PlacedOwner(r: Reading, entries: seq<Entry>, s: Sorting, e: Entry, k: Key) returns (i: nat)
    requires Leads(s) && Partition(s, |entries|) && Indexed(r, entries, s)
    requires k in Place(r, s, |entries|, e).index
    ensures In(Place(r, s, |entries|, e), Place(r, s, |entries|, e).index[k], i) && HasKey(r, entries + [e], i, k)
  {
    hide In, Place, Judge, Target, Keys, Leads, Partition;
    var at := |entries|;
    PlacedIn(r, s, at, e);
    PlacedIndex(r, s, at, e);
    if !Judge(r, s.index, e).LeaveOut? { KeysAgree(r, s, e); }
    if k in s.index {
      i :| In(s, s.index[k], i) && HasKey(r, entries, i, k);
      assert HasKey(r, entries + [e], i, k);
    } else {
      i := at;
    }
  }

  lemma PlacedLinked(r: Reading, entries: seq<Entry>, s: Sorting, e: Entry)
    requires Leads(s) && Partition(s, |entries|) && Indexed(r, entries, s) && AllLinked(r, entries, s)
    ensures AllLinked(r, entries + [e], Place(r, s, |entries|, e))
  {
    var at := |entries|;
    var all := entries + [e];
    var t := Place(r, s, at, e);
    PlacedIn(r, s, at, e);
    PlacedKept(r, s, at, e);
    forall g: nat, i: nat, j: nat | In(t, g, i) && In(t, g, j) ensures Linked(r, all, t, i, j) {
      if i < at && j < at {
        LinkStays(r, entries, s, all, t, i, j);
      } else if i == at {
        LastLinked(r, entries, s, e, g, j);
      } else {
        LastLinked(r, entries, s, e, g, i);
        LinkBack(r, all, t, j, i);
      }
    }
  }

  lemma SharedKey(r: Reading, entries: seq<Entry>, i: nat, j: nat, k: Key)
    requires HasKey(r, entries, i, k) && HasKey(r, entries, j, k)
    ensures Share(r, entries, i, j)
  {
  }

  lemma SameLinked(r: Reading, entries: seq<Entry>, s: Sorting, g: nat, i: nat, j: nat)
    requires AllLinked(r, entries, s) && In(s, g, i) && In(s, g, j)
    ensures Linked(r, entries, s, i, j)
  {
  }

  lemma LastLinked(r: Reading, entries: seq<Entry>, s: Sorting, e: Entry, g: nat, j: nat)
    requires Leads(s) && Partition(s, |entries|) && Indexed(r, entries, s) && AllLinked(r, entries, s)
    requires In(Place(r, s, |entries|, e), g, |entries|) && In(Place(r, s, |entries|, e), g, j)
    ensures Linked(r, entries + [e], Place(r, s, |entries|, e), |entries|, j)
  {
    hide Linked, Chain, Share, AllLinked;
    var at := |entries|;
    var all := entries + [e];
    var t := Place(r, s, at, e);
    PlacedIn(r, s, at, e);
    PlacedKept(r, s, at, e);
    KeysAgree(r, s, e);
    assert all[at] == e;
    assert g == Target(r, s, e);
    var k: Key;
    var i: nat;
    if j == at {
      k, i := Keys(r, e)[0], at;
    } else {
      assert In(s, g, j) && Judge(r, s.index, e).Join?;
      k :| k in Keys(r, e) && k in s.index;
      i :| In(s, s.index[k], i) && HasKey(r, entries, i, k);
      assert all[i] == entries[i];
    }
    assert i < |all| && k in Keys(r, all[at]) && k in Keys(r, all[i]);
    hide In, Place, Judge, Target, Keys, Leads, Indexed, Partition;
    SharedKey(r, all, at, i, k);
    LinkShare(r, all, t, at, i);
    if j != at {
      SameLinked(r, entries, s, g, i, j);
      LinkStays(r, entries, s, all, t, i, j);
      LinkJoin(r, all, t, at, i, j);
    }
  }

  // ---- what the sorting of a whole file is

  ghost predicate Good(r: Reading, entries: seq<Entry>, s: Sorting) {
    Leads(s) && Partition(s, |entries|) && Indexed(r, entries, s) && AllLinked(r, entries, s)
  }

  lemma {:induction false} SortedIsGood(r: Reading, entries: seq<Entry>)
    ensures Good(r, entries, Sorted(r, entries))
    decreases |entries|
  {
    if entries != [] {
      var n := |entries| - 1;
      var s := Sorted(r, entries[..n]);
      SortedIsGood(r, entries[..n]);
      PlacedPartition(r, s, n, entries[n]);
      PlacedIndexed(r, entries[..n], s, entries[n]);
      PlacedLinked(r, entries[..n], s, entries[n]);
      assert entries[..n] + [entries[n]] == entries;
    }
  }

  /** Every line ends up in exactly one place: left out, or among the lines of one person. */
  lemma EveryLineOnce(r: Reading, entries: seq<Entry>, i: nat)
    requires i < |entries|
    ensures var s := Sorted(r, entries);
            && (Kept(s, i) <==> !Skipped(s, i))
            && (forall g: nat, h: nat | In(s, g, i) && In(s, h, i) :: g == h)
  {
    SortedIsGood(r, entries);
  }

  lemma ChainStep(r: Reading, entries: seq<Entry>, s: Sorting, path: seq<nat>)
    requires Chain(r, entries, s, path) && |path| > 1
    ensures Share(r, entries, path[0], path[1]) && Kept(s, path[1]) && Chain(r, entries, s, path[1..])
  {
  }

  lemma KeptWhere(s: Sorting, i: nat) returns (g: nat)
    requires Kept(s, i)
    ensures In(s, g, i)
  {
    g :| g < |s.groups| && In(s, g, i);
  }

  lemma OneOwner(r: Reading, entries: seq<Entry>, s: Sorting, g: nat, h: nat, i: nat, j: nat, k: Key)
    requires Indexed(r, entries, s) && In(s, g, i) && In(s, h, j) && HasKey(r, entries, i, k)
             && HasKey(r, entries, j, k)
    ensures g == h
  {
  }

  lemma {:induction false} AlongAChain(r: Reading, entries: seq<Entry>, s: Sorting, path: seq<nat>, g: nat)
    requires Indexed(r, entries, s) && Chain(r, entries, s, path) && In(s, g, path[0])
    ensures In(s, g, path[|path| - 1])
    decreases |path|
  {
    if |path| > 1 {
      hide Chain, Kept, Indexed;
      ChainStep(r, entries, s, path);
      var h := KeptWhere(s, path[1]);
      var k :| k in Keys(r, entries[path[0]]) && k in Keys(r, entries[path[1]]);
      assert HasKey(r, entries, path[0], k) && HasKey(r, entries, path[1], k);
      OneOwner(r, entries, s, g, h, path[0], path[1], k);
      AlongAChain(r, entries, s, path[1..], g);
    }
  }

  /** Two kept lines are the same person exactly when a chain of kept lines sharing a number or an email links them. */
  lemma SamePersonExactlyWhenLinked(r: Reading, entries: seq<Entry>, i: nat, j: nat)
    requires Kept(Sorted(r, entries), i) && Kept(Sorted(r, entries), j)
    ensures var s := Sorted(r, entries);
            (exists g: nat :: In(s, g, i) && In(s, g, j)) <==> Linked(r, entries, s, i, j)
  {
    var s := Sorted(r, entries);
    SortedIsGood(r, entries);
    if Linked(r, entries, s, i, j) {
      var path :| Chain(r, entries, s, path) && path[0] == i && path[|path| - 1] == j;
      var g :| 0 <= g < |s.groups| && In(s, g, i);
      AlongAChain(r, entries, s, path, g);
      assert In(s, g, i) && In(s, g, j);
    }
  }

  // ---- the number, email and name of a person

  /** The first text that is not empty. */
  function First(texts: seq<string>): string {
    if texts == [] then "" else Or(texts[0], First(texts[1..]))
  }

  lemma {:induction false} FirstMore(texts: seq<string>, more: string)
    ensures First(texts + [more]) == Or(First(texts), more)
  {
    if texts != [] {
      assert (texts + [more])[1..] == texts[1..] + [more];
      FirstMore(texts[1..], more);
    }
  }

  function TextsOf(entries: seq<Entry>, lines: seq<nat>, text: Entry -> string): seq<string> {
    seq(|lines|, p requires 0 <= p < |lines| => if lines[p] < |entries| then text(entries[lines[p]]) else "")
  }

  lemma TextsMore(entries: seq<Entry>, e: Entry, lines: seq<nat>, text: Entry -> string)
    requires forall i | i in lines :: i < |entries|
    ensures TextsOf(entries + [e], lines, text) == TextsOf(entries, lines, text)
    ensures TextsOf(entries + [e], lines + [|entries|], text) == TextsOf(entries, lines, text) + [text(e)]
  {
    assert forall p | 0 <= p < |lines| :: lines[p] in lines;
  }

  predicate FirstOnes(r: Reading, entries: seq<Entry>, g: Group) {
    && g.phone == First(TextsOf(entries, g.lines, (e: Entry) => Phone(r, e)))
    && g.email == First(TextsOf(entries, g.lines, (e: Entry) => Email(r, e)))
    && g.name == First(TextsOf(entries, g.lines, (e: Entry) => r.name(e.name)))
  }

  lemma GrownFirst(r: Reading, entries: seq<Entry>, g: Group, e: Entry)
    requires FirstOnes(r, entries, g) && forall i | i in g.lines :: i < |entries|
    ensures FirstOnes(r, entries + [e], g)
    ensures FirstOnes(r, entries + [e], Grown(r, g, |entries|, e))
  {
    var phone, email, name := (e: Entry) => Phone(r, e), (e: Entry) => Email(r, e), (e: Entry) => r.name(e.name);
    TextsMore(entries, e, g.lines, phone);
    TextsMore(entries, e, g.lines, email);
    TextsMore(entries, e, g.lines, name);
    FirstMore(TextsOf(entries, g.lines, phone), phone(e));
    FirstMore(TextsOf(entries, g.lines, email), email(e));
    FirstMore(TextsOf(entries, g.lines, name), name(e));
  }

  predicate AllFirst(r: Reading, entries: seq<Entry>, groups: seq<Group>) {
    forall g | 0 <= g < |groups| :: FirstOnes(r, entries, groups[g])
  }

  /** Every person has the first number, email and name of the lines. */
  lemma {:induction false} PeopleHaveFirstTexts(r: Reading, entries: seq<Entry>)
    ensures AllFirst(r, entries, Sorted(r, entries).groups)
    decreases |entries|
  {
    if entries != [] {
      var n := |entries| - 1;
      var s := Sorted(r, entries[..n]);
      hide AllFirst, Good, Place, Leads;
      PeopleHaveFirstTexts(r, entries[..n]);
      SortedIsGood(r, entries[..n]);
      assert entries[..n] + [entries[n]] == entries;
      AllFirstPlaced(r, entries[..n], s, entries[n]);
    } else {
      assert AllFirst(r, [], Sorted(r, []).groups);
    }
  }

  lemma AllFirstPlaced(r: Reading, entries: seq<Entry>, s: Sorting, e: Entry)
    requires Good(r, entries, s) && AllFirst(r, entries, s.groups)
    ensures AllFirst(r, entries + [e], Place(r, s, |entries|, e).groups)
  {
    assert Leads(s);
    hide FirstOnes, Good, Place, Leads;
    var t := Place(r, s, |entries|, e);
    forall g | 0 <= g < |t.groups| ensures FirstOnes(r, entries + [e], t.groups[g]) {
      FirstPlaced(r, entries, s, e, g);
    }
  }

  lemma PlacedGroup(r: Reading, s: Sorting, at: nat, e: Entry, g: nat)
    requires Leads(s) && g < |Place(r, s, at, e).groups|
    ensures var was := if g < |s.groups| then s.groups[g] else NOBODY;
            Place(r, s, at, e).groups[g] in {was, Grown(r, was, at, e)}
  {
    JudgeLeads(r, s, e);
  }

  lemma NobodyFirst(r: Reading, entries: seq<Entry>)
    ensures FirstOnes(r, entries, NOBODY)
  {
  }

  lemma FirstPlaced(r: Reading, entries: seq<Entry>, s: Sorting, e: Entry, g: nat)
    requires Good(r, entries, s) && AllFirst(r, entries, s.groups) && g < |Place(r, s, |entries|, e).groups|
    ensures FirstOnes(r, entries + [e], Place(r, s, |entries|, e).groups[g])
  {
    hide FirstOnes, Indexed, AllLinked, Partition, Grown, Place, Leads, Kept;
    var was := if g < |s.groups| then s.groups[g] else NOBODY;
    PlacedGroup(r, s, |entries|, e, g);
    NobodyFirst(r, entries);
    forall i | i in was.lines ensures i < |entries| {
      assert In(s, g, i);
      InBefore(s, |entries|, g, i);
    }
    GrownFirst(r, entries, was, e);
  }

  predicate Owns(index: map<Key, nat>, g: Group, at: nat) {
    && (g.phone != "" ==> Number(g.phone) in index && index[Number(g.phone)] == at)
    && (g.email != "" ==> Mail(g.email) in index && index[Mail(g.email)] == at)
  }

  predicate AllOwn(s: Sorting) { forall g | 0 <= g < |s.groups| :: Owns(s.index, s.groups[g], g) }

  lemma OwnsPlaced(r: Reading, s: Sorting, at: nat, e: Entry, g: nat)
    requires Leads(s) && g < |Place(r, s, at, e).groups|
    requires AllOwn(s)
    ensures var t := Place(r, s, at, e); Owns(t.index, t.groups[g], g)
  {
    PlacedIndex(r, s, at, e);
    JudgeLeads(r, s, e);
    if !Judge(r, s.index, e).LeaveOut? { KeysAgree(r, s, e); }
    assert Phone(r, e) != "" ==> Number(Phone(r, e)) in Keys(r, e);
    assert Email(r, e) != "" ==> Mail(Email(r, e)) in Keys(r, e);
    hide Keys, SetKeys, Found;
    if g < |s.groups| { assert Owns(s.index, s.groups[g], g); }
  }

  lemma {:induction false} PeopleOwnTheirKeys(r: Reading, entries: seq<Entry>)
    ensures AllOwn(Sorted(r, entries))
    decreases |entries|
  {
    if entries != [] {
      var n := |entries| - 1;
      var s, t := Sorted(r, entries[..n]), Sorted(r, entries);
      PeopleOwnTheirKeys(r, entries[..n]);
      hide Owns, Place, Leads;
      forall g | 0 <= g < |t.groups| ensures Owns(t.index, t.groups[g], g) {
        OwnsPlaced(r, s, n, entries[n], g);
      }
    }
  }

  /** No two people in the file have the same number, and no two the same email. */
  lemma PeopleAreApart(r: Reading, entries: seq<Entry>, g: nat, h: nat)
    requires g < |Sorted(r, entries).groups| && h < |Sorted(r, entries).groups| && g != h
    ensures var a, b := Sorted(r, entries).groups[g], Sorted(r, entries).groups[h];
            && (a.phone != "" ==> a.phone != b.phone)
            && (a.email != "" ==> a.email != b.email)
  {
    PeopleOwnTheirKeys(r, entries);
    var s := Sorted(r, entries);
    assert Owns(s.index, s.groups[g], g) && Owns(s.index, s.groups[h], h);
  }

  predicate AllReachable(s: Sorting) {
    forall g | 0 <= g < |s.groups| :: s.groups[g].phone != "" || s.groups[g].email != ""
  }

  /** Every person has a number or an email. */
  lemma {:induction false} PeopleHaveContact(r: Reading, entries: seq<Entry>)
    ensures AllReachable(Sorted(r, entries))
    decreases |entries|
  {
    if entries != [] {
      var n := |entries| - 1;
      var s := Sorted(r, entries[..n]);
      PeopleHaveContact(r, entries[..n]);
      JudgeLeads(r, s, entries[n]);
      if !Judge(r, s.index, entries[n]).LeaveOut? { KeysAgree(r, s, entries[n]); }
      hide Judge, SetKeys;
    }
  }

  // ---- which lines are left out

  /** Two different people higher up have the line's number and its email. */
  ghost predicate BelongsToTwo(r: Reading, earlier: seq<Entry>, e: Entry) {
    var s := Sorted(r, earlier);
    exists g: nat, h: nat, j: nat, k: nat ::
      && In(s, g, j) && In(s, h, k) && g != h
      && HasKey(r, earlier, j, Number(Phone(r, e))) && HasKey(r, earlier, k, Mail(Email(r, e)))
  }

  lemma FoundTwo(r: Reading, index: map<Key, nat>, e: Entry)
    ensures var found := Found(index, Keys(r, e));
            |found| > 1 && found[0] != found[1]
            <==> Phone(r, e) != "" && Email(r, e) != "" && Number(Phone(r, e)) in index && Mail(Email(r, e)) in index
                 && index[Number(Phone(r, e))] != index[Mail(Email(r, e))]
  {
    var keys := Keys(r, e);
    FoundNone(index);
    if |keys| == 2 {
      assert keys[1..] == [keys[1]] && keys[1..][1..] == [];
    } else if |keys| == 1 {
      assert keys[1..] == [];
    }
  }

  lemma FoundNone(index: map<Key, nat>)
    ensures Found(index, []) == []
  {
  }

  lemma TwoIs(r: Reading, earlier: seq<Entry>, e: Entry)
    ensures var index := Sorted(r, earlier).index;
            Phone(r, e) != "" && Email(r, e) != "" ==>
              ((Number(Phone(r, e)) in index && Mail(Email(r, e)) in index
                && index[Number(Phone(r, e))] != index[Mail(Email(r, e))])
               <==> BelongsToTwo(r, earlier, e))
  {
    hide Sorted, Partition, AllLinked;
    SortedIsGood(r, earlier);
    var s := Sorted(r, earlier);
    var p, m := Number(Phone(r, e)), Mail(Email(r, e));
    if p in s.index && m in s.index && s.index[p] != s.index[m] {
      var j: nat :| In(s, s.index[p], j) && HasKey(r, earlier, j, p);
      var k: nat :| In(s, s.index[m], k) && HasKey(r, earlier, k, m);
    }
  }

  lemma JudgedOut(r: Reading, earlier: seq<Entry>, e: Entry)
    ensures Judge(r, Sorted(r, earlier).index, e).LeaveOut?
            <==> || (Email(r, e) != "" && !r.emailOk(Email(r, e)))
                 || (Phone(r, e) == "" && Email(r, e) == "")
                 || (Phone(r, e) != "" && Email(r, e) != "" && BelongsToTwo(r, earlier, e))
  {
    hide Found, Keys, BelongsToTwo, Sorted;
    var index := Sorted(r, earlier).index;
    FoundTwo(r, index, e);
    TwoIs(r, earlier, e);
  }

  lemma {:induction false} SkipStays(r: Reading, entries: seq<Entry>, i: nat)
    requires i < |entries|
    ensures Skipped(Sorted(r, entries), i) <==> Judge(r, Sorted(r, entries[..i]).index, entries[i]).LeaveOut?
    decreases |entries|
  {
    hide Judge, Sorted, Skipped;
    var n := |entries| - 1;
    SortedNext(r, entries);
    SortedIsGood(r, entries[..n]);
    var s := Sorted(r, entries[..n]);
    SkippedNext(r, s, n, entries[n], i);
    if i < n {
      SkipStays(r, entries[..n], i);
      assert entries[..n][..i] == entries[..i];
    } else {
      NotSkippedYet(s, n);
    }
  }

  lemma SortedNext(r: Reading, entries: seq<Entry>)
    requires entries != []
    ensures var n := |entries| - 1; Sorted(r, entries) == Place(r, Sorted(r, entries[..n]), n, entries[n])
  {
    hide Place;
  }

  lemma SkippedNext(r: Reading, s: Sorting, at: nat, e: Entry, i: nat)
    requires Leads(s)
    ensures Skipped(Place(r, s, at, e), i) <==> Skipped(s, i) || (i == at && Judge(r, s.index, e).LeaveOut?)
  {
    hide Judge;
    var t := Place(r, s, at, e);
    if j :| 0 <= j < |s.skipped| && s.skipped[j].at == i { assert t.skipped[j].at == i; }
    if Judge(r, s.index, e).LeaveOut? { assert t.skipped[|s.skipped|].at == at; }
  }

  lemma NotSkippedYet(s: Sorting, n: nat)
    requires Partition(s, n)
    ensures !Skipped(s, n)
  {
  }

  /** A line is left out exactly when its email does not look right, it has neither a number nor an email, or its number
      and its email belong to two different people higher up. */
  lemma LeftOutExactly(r: Reading, entries: seq<Entry>, i: nat)
    requires i < |entries|
    ensures var e := entries[i];
            Skipped(Sorted(r, entries), i)
            <==> || (Email(r, e) != "" && !r.emailOk(Email(r, e)))
                 || (Phone(r, e) == "" && Email(r, e) == "")
                 || (Phone(r, e) != "" && Email(r, e) != "" && BelongsToTwo(r, entries[..i], e))
  {
    hide Sorted, Judge, Skipped, BelongsToTwo;
    SkipStays(r, entries, i);
    JudgedOut(r, entries[..i], entries[i]);
  }
}
