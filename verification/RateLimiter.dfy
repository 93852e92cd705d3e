/** The sliding-window rate limiter: a pruned queue of hits per actor. Times are seconds. */
module RateLimits {
  const WINDOW := 60.0

  ghost predicate Ascending(s: seq<real>) {
    forall i, j :: 0 <= i <= j < |s| ==> s[i] <= s[j]
  }

  /** The hits in (t - 60, t]. */
  function InWindow(s: seq<real>, t: real): seq<real> {
    if s == [] then []
    else
      var front, last := InWindow(s[..|s| - 1], t), s[|s| - 1];
      if t - WINDOW < last <= t then front + [last] else front
  }

  /** Hit number i and hit number i - limit are at least a window apart. */
  ghost predicate Spaced(s: seq<real>, limit: nat) {
    forall i :: limit <= i < |s| ==> s[i - limit] <= s[i] - WINDOW
  }

  lemma {:induction false} WindowOfRun(s: seq<real>, cut: nat, t: real)
    requires Ascending(s) && cut <= |s|
    requires forall i :: 0 <= i < cut ==> s[i] <= t - WINDOW
    requires forall i :: cut <= i < |s| ==> t - WINDOW < s[i] <= t
    ensures InWindow(s, t) == s[cut..]
  {
    if cut < |s| {
      var front := s[..|s| - 1];
      WindowOfRun(front, cut, t);
      assert s[cut..] == front[cut..] + [s[|s| - 1]];
    } else if s != [] {
      WindowOfRun(s[..|s| - 1], |s| - 1, t);
    }
  }

  /** In a spaced history no window, wherever it ends, holds more than the limit. */
  lemma {:induction false} NoWindowHoldsMore(s: seq<real>, limit: nat, t: real)
    requires Ascending(s) && Spaced(s, limit)
    ensures |InWindow(s, t)| <= limit
  {
    if s != [] {
      var n, front := |s| - 1, s[..|s| - 1];
      if s[n] > t || s[n] <= t - WINDOW {
        NoWindowHoldsMore(front, limit, t);
      } else {
        var cut := Cut(s, t);
        WindowOfRun(s, cut, t);
        if n >= limit {
          assert s[n - limit] <= s[n] - WINDOW;
        }
      }
    }
  }

  lemma {:induction false} Cut(s: seq<real>, t: real) returns (cut: nat)
    requires Ascending(s)
    ensures cut <= |s|
    ensures forall i :: 0 <= i < cut ==> s[i] <= t - WINDOW
    ensures forall i :: cut <= i < |s| ==> t - WINDOW < s[i]
  {
    if s == [] || s[|s| - 1] <= t - WINDOW {
      cut := |s|;
    } else {
      cut := Cut(s[..|s| - 1], t);
    }
  }

  /** The queue is the end of the history; what was dropped has left the window. */
  ghost predicate Remembers(all: seq<real>, queue: seq<real>, limit: nat, clock: real) {
    && Ascending(all) && Spaced(all, limit)
    && (forall i :: 0 <= i < |all| ==> all[i] <= clock)
    && |queue| <= |all| && queue == all[|all| - |queue|..]
    && (forall i :: 0 <= i < |all| - |queue| ==> all[i] <= clock - WINDOW)
  }

  /** The queue once everything that left the window by now has been dropped. */
  ghost predicate Pruned(queue: seq<real>, now: real) {
    queue == [] || queue[0] > now - WINDOW
  }

  lemma PrunedIsWindow(all: seq<real>, queue: seq<real>, limit: nat, now: real)
    requires Remembers(all, queue, limit, now) && Pruned(queue, now)
    ensures InWindow(all, now) == queue
  {
    var cut := |all| - |queue|;
    assert queue != [] ==> queue[0] == all[cut];
    WindowOfRun(all, cut, now);
  }

  lemma TimeKeeps(all: seq<real>, queue: seq<real>, limit: nat, clock: real, now: real)
    requires Remembers(all, queue, limit, clock) && clock <= now
    ensures Remembers(all, queue, limit, now)
  {}

  lemma DropKeeps(all: seq<real>, queue: seq<real>, limit: nat, now: real)
    requires Remembers(all, queue, limit, now) && queue != [] && queue[0] <= now - WINDOW
    ensures Remembers(all, queue[1..], limit, now)
  {
    assert queue[0] == all[|all| - |queue|];
  }

  /** With fewer than `limit` hits after the old ones, the new hit is a window away from the one `limit` before. */
  lemma AcceptSpaces(all: seq<real>, cut: nat, limit: nat, now: real)
    requires Ascending(all) && Spaced(all, limit) && cut <= |all| < cut + limit
    requires forall i :: 0 <= i < |all| ==> all[i] <= now
    requires forall i :: 0 <= i < cut ==> all[i] <= now - WINDOW
    ensures Ascending(all + [now]) && Spaced(all + [now], limit)
  {
    var all' := all + [now];
    forall i | limit <= i < |all'| ensures all'[i - limit] <= all'[i] - WINDOW {
      if i == |all| {
        assert all[i - limit] <= now - WINDOW;
      } else {
        assert all[i - limit] <= all[i] - WINDOW;
      }
    }
  }

  lemma AcceptKeeps(all: seq<real>, queue: seq<real>, limit: nat, now: real)
    requires Remembers(all, queue, limit, now) && Pruned(queue, now) && |queue| < limit
    ensures Remembers(all + [now], queue + [now], limit, now) && Pruned(queue + [now], now)
  {
    hide Ascending, Spaced;
    var all', cut := all + [now], |all| - |queue|;
    AcceptSpaces(all, cut, limit, now);
    assert all'[cut..] == all[cut..] + [now];
    assert |all'| - |queue + [now]| == cut;
    assert forall i :: 0 <= i < cut ==> all'[i] == all[i];
    assert queue != [] ==> (queue + [now])[0] == queue[0];
  }

  function Of(table: map<string, seq<real>>, actor: string): seq<real> {
    if actor in table then table[actor] else []
  }

  ghost predicate AllRemembered(
    accepted: map<string, seq<real>>, hits: map<string, seq<real>>, limit: nat, clock: real)
  {
    forall actor :: Remembers(Of(accepted, actor), Of(hits, actor), limit, clock)
  }

  lemma OneActorMoves(
    accepted: map<string, seq<real>>, hits: map<string, seq<real>>, limit: nat, clock: real,
    now: real, actor: string, all: seq<real>, queue: seq<real>)
    requires AllRemembered(accepted, hits, limit, clock) && clock <= now && Remembers(all, queue, limit, now)
    ensures AllRemembered(accepted[actor := all], hits[actor := queue], limit, now)
  {
    hide Remembers;
    var accepted', hits' := accepted[actor := all], hits[actor := queue];
    forall other ensures Remembers(Of(accepted', other), Of(hits', other), limit, now) {
      TimeKeeps(Of(accepted, other), Of(hits, other), limit, clock, now);
    }
  }

  /** For every instant, at most `limit` hits lie in the minute before it. */
  ghost predicate NeverMore(all: seq<real>, limit: nat) {
    forall t: real :: |InWindow(all, t)| <= limit
  }

  lemma RememberedIsSpaced(all: seq<real>, queue: seq<real>, limit: nat, clock: real)
    requires Remembers(all, queue, limit, clock)
    ensures NeverMore(all, limit)
  {
    forall t: real ensures |InWindow(all, t)| <= limit {
      NoWindowHoldsMore(all, limit, t);
    }
  }

  lemma ActorIsRemembered(
    accepted: map<string, seq<real>>, hits: map<string, seq<real>>, limit: nat, clock: real, actor: string)
    requires AllRemembered(accepted, hits, limit, clock)
    ensures Remembers(Of(accepted, actor), Of(hits, actor), limit, clock)
  {}

  class RateLimiter {
    const perMinute: int
    var hits: map<string, seq<real>>
    ghost var accepted: map<string, seq<real>>   // every accepted hit, ever
    ghost var clock: real                        // the latest time seen

    ghost function Accepted(actor: string): seq<real>
      reads this
    {
      Of(accepted, actor)
    }

    ghost function Queue(actor: string): seq<real>
      reads this
    {
      Of(hits, actor)
    }

    ghost function Limit(): nat
      reads this
    {
      if perMinute < 0 then 0 else perMinute
    }

    ghost predicate Valid()
      reads this
    {
      AllRemembered(accepted, hits, Limit(), clock)
    }

    constructor (perMinute: int, ghost start: real)
      ensures Valid() && this.perMinute == perMinute && clock == start
      ensures forall actor :: Accepted(actor) == []
    {
      this.perMinute := perMinute;
      hits := map[];
      accepted := map[];
      clock := start;
    }

    /**
     One request. It is refused exactly when the accepted hits of this actor in the
     last minute have reached the limit; afterwards the queue is exactly those hits,
     and no other actor is affected.
     */
    method Check(actor: string, now: real) returns (ok: bool)
      requires Valid() && clock <= now
      modifies this
      ensures Valid() && clock == now
      ensures ok <==> |InWindow(old(Accepted(actor)), now)| < perMinute
      ensures Accepted(actor) == old(Accepted(actor)) + if ok then [now] else []
      ensures Queue(actor) == InWindow(Accepted(actor), now)
      ensures forall other :: other != actor ==>
                Accepted(other) == old(Accepted(other)) && Queue(other) == old(Queue(other))
      ensures NeverMore(Accepted(actor), Limit())
    {
      hide Remembers, InWindow, NeverMore, AllRemembered;
      ActorIsRemembered(accepted, hits, Limit(), clock, actor);
      ghost var all, limit := Accepted(actor), Limit();
      TimeKeeps(all, Queue(actor), limit, clock, now);
      var queue := Of(hits, actor);
      while queue != [] && queue[0] <= now - WINDOW
        invariant Remembers(all, queue, limit, now)
        decreases |queue|
        modifies {}
      {
        DropKeeps(all, queue, limit, now);
        queue := queue[1..];
      }
      PrunedIsWindow(all, queue, limit, now);
      ok := |queue| < perMinute;
      if ok {
        AcceptKeeps(all, queue, limit, now);
        queue := queue + [now];
        all := all + [now];
        PrunedIsWindow(all, queue, limit, now);
      }
      OneActorMoves(accepted, hits, limit, clock, now, actor, all, queue);
      RememberedIsSpaced(all, queue, limit, now);
      hits := hits[actor := queue];
      accepted := accepted[actor := all];
      clock := now;
    }
  }
}
