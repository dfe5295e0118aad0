/** The bounded memory of webhook deliveries (internal/web/handlers_hooks.go). */
module Deliveries {
  import opened Common

  /** The last `n` elements, or all of them when there are fewer. */
  function Recent(s: seq<string>, n: nat): seq<string> {
    if |s| <= n then s else s[|s| - n..]
  }

  /** The ids taken as new, out of the ids offered, by the rule itself: an id is new unless it is one
      of the last `max` taken. */
  function Accepted(offered: seq<string>, max: nat): seq<string> {
    if offered == [] then []
    else
      var before := Accepted(offered[..|offered| - 1], max);
      if Last(offered) in Recent(before, max) then before else before + [Last(offered)]
  }

  /** No position repeats one of the `max` positions before it. */
  predicate Spaced(s: seq<string>, max: nat) {
    forall i, j | 0 <= i < j < |s| && j <= i + max :: s[i] != s[j]
  }

  lemma {:induction false} AcceptedSpaced(offered: seq<string>, max: nat)
    ensures Spaced(Accepted(offered, max), max)
  {
    if offered != [] {
      AcceptedSpaced(offered[..|offered| - 1], max);
      var before := Accepted(offered[..|offered| - 1], max);
      var now := Accepted(offered, max);
      if now != before {
        forall i | 0 <= i < |before| && |before| <= i + max ensures before[i] != Last(offered) {
          assert before[i] in Recent(before, max) by {
            if |before| > max { assert before[i] == Recent(before, max)[i - (|before| - max)]; }
          }
        }
      }
    }
  }

  lemma {:induction false} AsManyAsPlaces(s: seq<string>)
    requires NoRepeats(s)
    ensures |NamesOf(s)| == |s|
  {
    if s != [] {
      var init := s[..|s| - 1];
      AsManyAsPlaces(init);
      OneMoreName(init, Last(s));
      assert s == init + [Last(s)];
    }
  }

  lemma SmallerSet(a: set<string>, b: set<string>)
    requires a <= b
    ensures |a| <= |b|
  {
    assert b == a + (b - a);
  }

  /** Between two acceptances of one id at least `max` other ids were accepted. */
  lemma ReplaysAreFarApart(offered: seq<string>, max: nat, i: nat, j: nat)
    requires i < j < |Accepted(offered, max)|
    requires Accepted(offered, max)[i] == Accepted(offered, max)[j]
    ensures |NamesOf(Accepted(offered, max)[i + 1..j]) - {Accepted(offered, max)[i]}| >= max
  {
    var s := Accepted(offered, max);
    AcceptedSpaced(offered, max);
    assert j > i + max;
    var window := s[j - max..j];
    assert NoRepeats(window) by {
      forall a, b | 0 <= a < b < max ensures window[a] != window[b] {
        assert window[a] == s[j - max + a] && window[b] == s[j - max + b];
      }
    }
    AsManyAsPlaces(window);
    forall id | id in NamesOf(window) ensures id in NamesOf(s[i + 1..j]) - {s[i]} {
      var a :| 0 <= a < max && window[a] == id;
      assert id == s[j - max + a] != s[j];
      assert s[i + 1..j][j - max + a - (i + 1)] == id;
    }
    SmallerSet(NamesOf(window), NamesOf(s[i + 1..j]) - {s[i]});
  }

  /** The window after one more acceptance: its oldest id goes once it is full. */
  lemma NextWindow(taken: seq<string>, id: string, max: nat)
    ensures var w := Recent(taken, max) + [id];
            Recent(taken + [id], max) == if |w| > max then w[1..] else w
  {
  }

  lemma DroppedFirst(s: seq<string>)
    requires s != [] && NoRepeats(s)
    ensures NamesOf(s[1..]) == NamesOf(s) - {s[0]} && NoRepeats(s[1..])
  {
    forall d | d in NamesOf(s) - {s[0]} ensures d in NamesOf(s[1..]) {
      var k :| 0 <= k < |s| && s[k] == d;
      assert s[1..][k - 1] == d;
    }
  }

  /** What the set and the queue hold together: the last `max` accepted ids, each once. */
  ghost predicate Holds(seen: map<string, bool>, order: seq<string>, taken: seq<string>, max: nat) {
    && order == Recent(taken, max)
    && NoRepeats(order)
    && seen.Keys == NamesOf(order)
    && forall id | id in seen :: seen[id]
  }

  lemma HoldsNext(seen: map<string, bool>, order: seq<string>, taken: seq<string>, max: nat, id: string)
    requires Holds(seen, order, taken, max) && id !in seen
    ensures var queue := order + [id];
            if |queue| > max then Holds(seen[id := true] - {queue[0]}, queue[1..], taken + [id], max)
            else Holds(seen[id := true], queue, taken + [id], max)
  {
    NextWindow(taken, id, max);
    OneMoreName(order, id);
    DroppedFirst(order + [id]);
  }

  class DeliveryCache {
    var seen: map<string, bool>
    var order: seq<string>
    const max: nat
    /** Every id ever offered. */
    ghost var offered: seq<string>

    ghost predicate Valid() reads this {
      Holds(seen, order, Accepted(offered, max), max)
    }

    constructor (max: nat)
      ensures Valid() && this.max == max && offered == []
    {
      this.max := max;
      seen, order, offered := map[], [], [];
    }

    /** An id is a duplicate exactly when it is among the last `max` accepted ones. */
    method Remember(id: string) returns (duplicate: bool)
      requires Valid()
      modifies this
      ensures Valid() && offered == old(offered) + [id]
      ensures duplicate <==> id in Recent(Accepted(old(offered), max), max)
      ensures Accepted(offered, max) == Accepted(old(offered), max) + if duplicate then [] else [id]
    {
      ghost var taken := Accepted(offered, max);
      offered := offered + [id];
      assert offered[..|offered| - 1] == old(offered);
      if id in seen && seen[id] {
        return true;
      }
      HoldsNext(seen, order, taken, max, id);
      seen := seen[id := true];
      order := order + [id];
      if |order| > max {
        seen := seen - {order[0]};
        order := order[1..];
      }
      return false;
    }
  }
}
