// The sliding-window limiter of app/admin_panel/auth.py: at most `limit` hits per `seconds` for each key, kept in
// memory, with old keys thrown away when there are many.
module Window {

  type Key = string

  /** Seconds on a clock that never goes back. */
  type Time = real

  const MANY_KEYS := 5000

  datatype Limits = Limits(limit: nat, seconds: Time)

  type Hits = map<Key, seq<Time>>

  /** With more keys than MANY_KEYS, those whose last hit is `seconds` old or more are thrown away. */
  function Prune(w: Limits, hits: Hits, now: Time): Hits {
    if |hits| > MANY_KEYS
    then map k | k in hits && hits[k] != [] && now - hits[k][|hits[k]| - 1] < w.seconds :: hits[k]
    else hits
  }

  /** A queue without the hits older than `seconds`. */
  function Recent(w: Limits, queue: seq<Time>, now: Time): seq<Time> {
    if queue != [] && now - queue[0] > w.seconds then Recent(w, queue[1..], now) else queue
  }

  function Queue(hits: Hits, k: Key): seq<Time> { if k in hits then hits[k] else [] }

  datatype Answer = Answer(hits: Hits, ok: bool)

  function Allow(w: Limits, hits: Hits, k: Key, now: Time): Answer {
    var kept := Prune(w, hits, now);
    var queue := Recent(w, Queue(kept, k), now);
    if |queue| >= w.limit then Answer(kept[k := queue], false) else Answer(kept[k := queue + [now]], true)
  }

  class Limiter {
    const limits: Limits
    var hits: Hits

    constructor (limits: Limits)
      ensures this.limits == limits && hits == map[]
    {
      this.limits := limits;
      hits := map[];
    }

    method AllowHit(k: Key, now: Time) returns (ok: bool)
      modifies this
      ensures Answer(hits, ok) == Allow(limits, old(hits), k, now)
    {
      if |hits| > MANY_KEYS {
        hits := map x | x in hits && hits[x] != [] && now - hits[x][|hits[x]| - 1] < limits.seconds :: hits[x];
      }
      var queue := Queue(hits, k);
      while queue != [] && now - queue[0] > limits.seconds
        invariant Recent(limits, queue, now) == Recent(limits, Queue(hits, k), now)
        decreases |queue|
      {
        queue := queue[1..];
      }
      if |queue| >= limits.limit {
        hits := hits[k := queue];
        return false;
      }
      hits := hits[k := queue + [now]];
      return true;
    }
  }

  // ---- any sequence of calls

  datatype Call = Call(key: Key, at: Time)

  predicate Clocked(calls: seq<Call>) { forall i, j | 0 <= i < j < |calls| :: calls[i].at <= calls[j].at }

  /** The table after some calls. */
  function After(w: Limits, calls: seq<Call>): Hits {
    if calls == [] then map[]
    else
      var c := calls[|calls| - 1];
      Allow(w, After(w, calls[..|calls| - 1]), c.key, c.at).hits
  }

  predicate Accepts(w: Limits, calls: seq<Call>, i: nat)
    requires i < |calls|
  {
    Allow(w, After(w, calls[..i]), calls[i].key, calls[i].at).ok
  }

  /** The times at which a key's calls were let through. */
  function Accepted(w: Limits, calls: seq<Call>, k: Key): seq<Time> {
    if calls == [] then []
    else
      var n := |calls| - 1;
      Accepted(w, calls[..n], k) + if calls[n].key == k && Accepts(w, calls, n) then [calls[n].at] else []
  }

  predicate Rising(s: seq<Time>) { forall i, j | 0 <= i < j < |s| :: s[i] <= s[j] }

  /** The queue is the end of what was let through; what came before it is `seconds` old or more. */
  ghost predicate Remembers(w: Limits, queue: seq<Time>, accepted: seq<Time>, now: Time) {
    && |queue| <= |accepted| && |queue| <= w.limit
    && queue == accepted[|accepted| - |queue|..]
    && (forall i | 0 <= i < |accepted| - |queue| :: now - accepted[i] >= w.seconds)
  }

  /** Of any limit + 1 hits in a row, the last is at least `seconds` after the first. */
  ghost predicate Spaced(w: Limits, accepted: seq<Time>) {
    forall i, j | 0 <= i && j < |accepted| && j == i + w.limit :: accepted[j] - accepted[i] >= w.seconds
  }

  lemma {:induction false} RecentIs(w: Limits, queue: seq<Time>, accepted: seq<Time>, now: Time)
    requires Remembers(w, queue, accepted, now) && Rising(accepted)
    ensures Remembers(w, Recent(w, queue, now), accepted, now)
    ensures forall i | 0 <= i < |Recent(w, queue, now)| :: now - Recent(w, queue, now)[i] <= w.seconds
    decreases |queue|
  {
    if queue != [] && now - queue[0] > w.seconds {
      assert queue[0] == accepted[|accepted| - |queue|];
      RecentIs(w, queue[1..], accepted, now);
    } else if queue != [] {
      var from := |accepted| - |queue|;
      forall i | 0 <= i < |queue| ensures now - queue[i] <= w.seconds {
        assert queue[0] == accepted[from] && queue[i] == accepted[from + i];
      }
    }
  }

  predicate UpTo(s: seq<Time>, now: Time) { forall i | 0 <= i < |s| :: s[i] <= now }

  ghost predicate Good(w: Limits, calls: seq<Call>, k: Key, now: Time) {
    && Remembers(w, Queue(After(w, calls), k), Accepted(w, calls, k), now)
    && Rising(Accepted(w, calls, k)) && Spaced(w, Accepted(w, calls, k))
    && UpTo(Accepted(w, calls, k), now)
  }

  lemma PruneKeeps(w: Limits, hits: Hits, k: Key, accepted: seq<Time>, now: Time)
    requires Remembers(w, Queue(hits, k), accepted, now) && Rising(accepted)
    ensures Remembers(w, Queue(Prune(w, hits, now), k), accepted, now)
  {
    var queue := Queue(hits, k);
    if queue != [] && Queue(Prune(w, hits, now), k) == [] {
      var from := |accepted| - |queue|;
      assert queue[|queue| - 1] == accepted[|accepted| - 1];
    }
  }

  /** What one call does to the queue of a key and to what was let through. */
  lemma CallIs(w: Limits, calls: seq<Call>, k: Key)
    requires calls != []
    ensures var n := |calls| - 1; var c := calls[n];
            var hits := After(w, calls[..n]);
            var kept := Queue(Prune(w, hits, c.at), k);
            var queue := Recent(w, kept, c.at);
            var accepted := Accepted(w, calls[..n], k);
            if c.key != k then Queue(After(w, calls), k) == kept && Accepted(w, calls, k) == accepted
            else if |queue| >= w.limit then
              Queue(After(w, calls), k) == queue && Accepted(w, calls, k) == accepted && !Accepts(w, calls, n)
            else
              Queue(After(w, calls), k) == queue + [c.at] && Accepted(w, calls, k) == accepted + [c.at]
                  && Accepts(w, calls, n)
  {
    hide Prune, Recent;
  }

  /** One more call keeps everything true, for the key called and for every other. */
  lemma CallKeeps(w: Limits, calls: seq<Call>, k: Key, before: Time)
    requires calls != [] && before <= calls[|calls| - 1].at && Good(w, calls[..|calls| - 1], k, before)
    ensures Good(w, calls, k, calls[|calls| - 1].at)
  {
    hide Prune, Recent, After, Accepted, Accepts, Rising, Spaced;
    var n := |calls| - 1;
    var c, hits, accepted := calls[n], After(w, calls[..n]), Accepted(w, calls[..n], k);
    var now := c.at;
    CallIs(w, calls, k);
    StillRemembers(w, Queue(hits, k), accepted, before, now);
    hide Remembers;
    PruneKeeps(w, hits, k, accepted, now);
    var kept := Queue(Prune(w, hits, now), k);
    if c.key == k {
      RecentIs(w, kept, accepted, now);
      var queue := Recent(w, kept, now);
      if |queue| < w.limit { OneMore(w, queue, accepted, now); }
    }
  }

  lemma StillRemembers(w: Limits, queue: seq<Time>, accepted: seq<Time>, before: Time, now: Time)
    requires Remembers(w, queue, accepted, before) && before <= now
    ensures Remembers(w, queue, accepted, now)
  {
  }

  lemma OneMore(w: Limits, queue: seq<Time>, accepted: seq<Time>, now: Time)
    requires Remembers(w, queue, accepted, now) && |queue| < w.limit && Rising(accepted) && Spaced(w, accepted)
    requires UpTo(accepted, now)
    ensures Remembers(w, queue + [now], accepted + [now], now)
    ensures Rising(accepted + [now]) && Spaced(w, accepted + [now]) && UpTo(accepted + [now], now)
  {
  }

  lemma {:induction false} AlwaysGood(w: Limits, calls: seq<Call>, k: Key, now: Time)
    requires Clocked(calls) && (calls != [] ==> now == calls[|calls| - 1].at)
    ensures Good(w, calls, k, now)
    decreases |calls|
  {
    if calls != [] {
      var n := |calls| - 1;
      var before := if n == 0 then now else calls[n - 1].at;
      AlwaysGood(w, calls[..n], k, before);
      CallKeeps(w, calls, k, before);
    }
  }

  /** How many of the times lie in the half-open interval that begins at `from` and is `seconds` long. */
  function Within(w: Limits, times: seq<Time>, from: Time): nat {
    if times == [] then 0
    else Within(w, times[..|times| - 1], from)
         + if from <= times[|times| - 1] < from + w.seconds then 1 else 0
  }

  lemma {:induction false} WithinFew(w: Limits, times: seq<Time>, from: Time)
    requires Rising(times) && Spaced(w, times)
    ensures Within(w, times, from) <= w.limit
    decreases |times|
  {
    if |times| > 0 {
      var n := |times| - 1;
      if from <= times[n] < from + w.seconds {
        LastRun(w, times, from);
      } else {
        WithinFew(w, times[..n], from);
      }
    }
  }

  /** When the last time is inside, the times inside are a run at the end, and it is at most `limit` long. */
  lemma LastRun(w: Limits, times: seq<Time>, from: Time)
    requires Rising(times) && Spaced(w, times) && times != []
    requires from <= times[|times| - 1] < from + w.seconds
    ensures Within(w, times, from) <= w.limit
  {
    var n := |times|;
    if n > w.limit {
      assert times[n - 1] - times[n - 1 - w.limit] >= w.seconds;
      EarlyOut(w, times, from, n - w.limit);
    }
    WithinLength(w, times, from);
  }

  lemma WithinLength(w: Limits, times: seq<Time>, from: Time)
    ensures Within(w, times, from) <= |times|
  {
  }

  lemma {:induction false} EarlyOut(w: Limits, times: seq<Time>, from: Time, k: nat)
    requires Rising(times) && 0 < k <= |times| && times[k - 1] < from
    ensures Within(w, times, from) <= |times| - k
    decreases |times|
  {
    if |times| > k { EarlyOut(w, times[..|times| - 1], from, k); }
    else { AllOut(w, times, from); }
  }

  lemma {:induction false} AllOut(w: Limits, times: seq<Time>, from: Time)
    requires forall i | 0 <= i < |times| :: times[i] < from
    ensures Within(w, times, from) == 0
  {
    if times != [] { AllOut(w, times[..|times| - 1], from); }
  }

  /** Any half-open interval of `seconds` holds at most `limit` accepted hits of a key, and no queue is longer. */
  lemma AtMostLimitPerInterval(w: Limits, calls: seq<Call>, k: Key, from: Time)
    requires Clocked(calls)
    ensures Within(w, Accepted(w, calls, k), from) <= w.limit
    ensures |Queue(After(w, calls), k)| <= w.limit
  {
    AlwaysGood(w, calls, k, if calls == [] then 0.0 else calls[|calls| - 1].at);
    WithinFew(w, Accepted(w, calls, k), from);
  }

  /** A call is refused only when the key's last `limit` accepted hits are all no older than `seconds`. */
  lemma RefusedOnlyWhenFull(w: Limits, calls: seq<Call>, i: nat)
    requires Clocked(calls) && i < |calls| && !Accepts(w, calls, i)
    ensures var accepted := Accepted(w, calls[..i], calls[i].key);
            |accepted| >= w.limit
            && forall j | |accepted| - w.limit <= j < |accepted| :: calls[i].at - accepted[j] <= w.seconds
  {
    hide Prune, Recent, After, Accepted, Rising, Spaced, Remembers, Accepts;
    var k, now, before := calls[i].key, calls[i].at, calls[..i];
    var last := if i == 0 then now else calls[i - 1].at;
    assert calls[..i + 1][..i] == before;
    CallIs(w, calls[..i + 1], k);
    AcceptsSame(w, calls, i);
    AlwaysGood(w, before, k, last);
    var hits, accepted := After(w, before), Accepted(w, before, k);
    StillRemembers(w, Queue(hits, k), accepted, last, now);
    PruneKeeps(w, hits, k, accepted, now);
    RecentIs(w, Queue(Prune(w, hits, now), k), accepted, now);
    FullQueue(w, Recent(w, Queue(Prune(w, hits, now), k), now), accepted, now);
  }

  lemma AcceptsSame(w: Limits, calls: seq<Call>, i: nat)
    requires i < |calls|
    ensures Accepts(w, calls[..i + 1], i) == Accepts(w, calls, i)
  {
    assert calls[..i + 1][..i] == calls[..i];
  }

  lemma FullQueue(w: Limits, queue: seq<Time>, accepted: seq<Time>, now: Time)
    requires Remembers(w, queue, accepted, now) && |queue| >= w.limit
    requires forall i | 0 <= i < |queue| :: now - queue[i] <= w.seconds
    ensures |accepted| >= w.limit
    ensures forall j | |accepted| - w.limit <= j < |accepted| :: now - accepted[j] <= w.seconds
  {
    var from := |accepted| - |queue|;
    forall j | from <= j < |accepted| ensures now - accepted[j] <= w.seconds { assert queue[j - from] == accepted[j]; }
  }

  /** The table never has so many keys that some are thrown away. */
  ghost predicate FewKeys(w: Limits, calls: seq<Call>) {
    forall j | 0 <= j <= |calls| :: |After(w, calls[..j])| <= MANY_KEYS
  }

  /** What a key's queue no longer holds is more than `seconds` old. */
  ghost predicate Forgotten(w: Limits, queue: seq<Time>, accepted: seq<Time>, now: Time) {
    |queue| <= |accepted| && queue == accepted[|accepted| - |queue|..]
    && forall i | 0 <= i < |accepted| - |queue| :: now - accepted[i] > w.seconds
  }

  lemma {:induction false} RecentForgets(w: Limits, queue: seq<Time>, accepted: seq<Time>, now: Time)
    requires Forgotten(w, queue, accepted, now)
    ensures Forgotten(w, Recent(w, queue, now), accepted, now)
    decreases |queue|
  {
    if queue != [] && now - queue[0] > w.seconds {
      assert queue[0] == accepted[|accepted| - |queue|];
      RecentForgets(w, queue[1..], accepted, now);
    }
  }

  lemma ForgottenStill(w: Limits, queue: seq<Time>, accepted: seq<Time>, before: Time, now: Time)
    requires Forgotten(w, queue, accepted, before) && before <= now
    ensures Forgotten(w, queue, accepted, now) && Forgotten(w, queue + [now], accepted + [now], now)
  {
  }

  lemma FewBefore(w: Limits, calls: seq<Call>, n: nat)
    requires FewKeys(w, calls) && n <= |calls|
    ensures FewKeys(w, calls[..n]) && |After(w, calls[..n])| <= MANY_KEYS
  {
    forall j | 0 <= j <= n ensures |After(w, calls[..n][..j])| <= MANY_KEYS { assert calls[..n][..j] == calls[..j]; }
  }

  lemma {:induction false} ForgetsOld(w: Limits, calls: seq<Call>, k: Key, now: Time)
    requires Clocked(calls) && FewKeys(w, calls) && (calls != [] ==> calls[|calls| - 1].at <= now)
    ensures Forgotten(w, Queue(After(w, calls), k), Accepted(w, calls, k), now)
    decreases |calls|
  {
    hide FewKeys, After, Accepted, Accepts, Recent;
    if calls == [] {
      NothingAccepted(w, k);
    } else {
      var n := |calls| - 1;
      var c := calls[n];
      FewBefore(w, calls, n);
      ForgetsOld(w, calls[..n], k, c.at);
      CallIs(w, calls, k);
      var kept, accepted := Queue(After(w, calls[..n]), k), Accepted(w, calls[..n], k);
      assert Queue(Prune(w, After(w, calls[..n]), c.at), k) == kept;
      RecentForgets(w, kept, accepted, c.at);
      ForgottenStill(w, Recent(w, kept, c.at), accepted, c.at, c.at);
      ForgottenStill(w, Queue(After(w, calls), k), Accepted(w, calls, k), c.at, now);
    }
  }

  lemma NothingAccepted(w: Limits, k: Key)
    ensures Queue(After(w, []), k) == [] && Accepted(w, [], k) == []
  {
  }

  /** While there are few keys, a call is refused exactly when the key has `limit` accepted hits no older than
      `seconds`. */
  lemma RefusedExactly(w: Limits, calls: seq<Call>, i: nat)
    requires Clocked(calls) && FewKeys(w, calls) && i < |calls|
    ensures var accepted := Accepted(w, calls[..i], calls[i].key);
            !Accepts(w, calls, i)
            <==> |accepted| >= w.limit
                 && forall j | |accepted| - w.limit <= j < |accepted| :: calls[i].at - accepted[j] <= w.seconds
  {
    var accepted := Accepted(w, calls[..i], calls[i].key);
    if !Accepts(w, calls, i) {
      RefusedOnlyWhenFull(w, calls, i);
    } else {
      RoomLeft(w, calls, i);
    }
  }

  lemma RoomLeft(w: Limits, calls: seq<Call>, i: nat)
    requires Clocked(calls) && FewKeys(w, calls) && i < |calls| && Accepts(w, calls, i)
    ensures var accepted := Accepted(w, calls[..i], calls[i].key);
            |accepted| >= w.limit ==>
              exists j :: |accepted| - w.limit <= j < |accepted| && calls[i].at - accepted[j] > w.seconds
  {
    hide FewKeys, After, Accepted, Accepts, Recent;
    var k, now, before := calls[i].key, calls[i].at, calls[..i];
    FewBefore(w, calls, i);
    ForgetsOld(w, before, k, now);
    AcceptsSame(w, calls, i);
    assert calls[..i + 1][..i] == before;
    CallIs(w, calls[..i + 1], k);
    var kept, accepted := Queue(After(w, before), k), Accepted(w, before, k);
    assert Queue(Prune(w, After(w, before), now), k) == kept;
    RecentForgets(w, kept, accepted, now);
    var queue := Recent(w, kept, now);
    assert |queue| < w.limit;
    if |accepted| >= w.limit {
      var j := |accepted| - w.limit;
      assert now - accepted[j] > w.seconds;
    }
  }
}
