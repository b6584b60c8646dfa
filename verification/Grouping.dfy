// The single-pass grouping of one company's purchases, sorted by date, into
// windows anchored at each group's first date.
module Grouping {
  import opened Domain
  import opened Ordering

  type Group = seq<Transaction>

  /** Dates never decrease. */
  ghost predicate Sorted(s: Group) {
    s == [] || ((forall t | t in s :: s[0].transactionDate <= t.transactionDate) && Sorted(s[1..]))
  }

  lemma {:induction false} SortedByDate(s: Group)
    requires SortedBy(s, TransactionDate)
    ensures Sorted(s)
  {
    if s != [] {
      forall t | t in s
        ensures s[0].transactionDate <= t.transactionDate
      {
        var i :| 0 <= i < |s| && s[i] == t;
        assert TransactionDate(s[0]) <= TransactionDate(s[i]);
      }
      SortedByDate(s[1..]);
    }
  }

  /** A sorted list splits into sorted parts, none of the first later than any of the second. */
  lemma {:induction false} SortedSplit(g: Group, rest: Group)
    requires Sorted(g + rest)
    ensures Sorted(g) && Sorted(rest)
    ensures forall t, u | t in g && u in rest :: t.transactionDate <= u.transactionDate
  {
    if g == [] {
      assert g + rest == rest;
    } else {
      assert (g + rest)[1..] == g[1..] + rest;
      SortedSplit(g[1..], rest);
    }
  }

  lemma {:induction false} SortedJoin(g: Group, rest: Group)
    requires Sorted(g) && Sorted(rest)
    requires forall t, u | t in g && u in rest :: t.transactionDate <= u.transactionDate
    ensures Sorted(g + rest)
  {
    if g == [] {
      assert g + rest == rest;
    } else {
      assert (g + rest)[1..] == g[1..] + rest;
      SortedJoin(g[1..], rest);
    }
  }

  /** How many leading elements are dated on or before `limit`. */
  function PrefixUpTo(s: Group, limit: Day): (n: nat)
    ensures n <= |s|
    ensures forall t | t in s[..n] :: t.transactionDate <= limit
    ensures n < |s| ==> s[n].transactionDate > limit
  {
    if s == [] || s[0].transactionDate > limit then 0
    else
      var n := PrefixUpTo(s[1..], limit);
      assert s[..n + 1] == [s[0]] + s[1..][..n];
      n + 1
  }

  /** The size of the first group; the first element belongs to it whatever the window. */
  function FirstGroupSize(s: Group, window: int): (n: nat)
    requires s != []
    ensures 1 <= n <= |s|
  {
    1 + PrefixUpTo(s[1..], s[0].transactionDate + window)
  }

  function Groups(s: Group, window: int): seq<Group>
    decreases |s|
  {
    if s == [] then []
    else
      var n := FirstGroupSize(s, window);
      [s[..n]] + Groups(s[n..], window)
  }

  function Flatten<T>(ss: seq<seq<T>>): seq<T> {
    if ss == [] then [] else ss[0] + Flatten(ss[1..])
  }

  ghost predicate WithinWindow(g: Group, window: int) {
    forall t, u | t in g && u in g :: u.transactionDate - t.transactionDate <= window
  }

  ghost predicate StartsBeyond(g: Group, h: Group, window: int) {
    g != [] && h != [] && h[0].transactionDate > g[0].transactionDate + window
  }

  ghost predicate StartsApart(gs: seq<Group>, window: int) {
    forall i, j | 0 <= i < j < |gs| :: StartsBeyond(gs[i], gs[j], window)
  }

  /** What a greedy anchored partition of s is, without saying how to compute it: consecutive
      runs of s, each within one window, each starting beyond the window of every earlier start. */
  ghost predicate IsGreedyPartition(gs: seq<Group>, s: Group, window: nat) {
    && Flatten(gs) == s
    && (forall g | g in gs :: g != [] && WithinWindow(g, window))
    && StartsApart(gs, window)
  }

  /** In a sorted list, the first group is exactly what lies within the window of the first date. */
  lemma FirstGroup(s: Group, window: nat) returns (g: Group, rest: Group)
    requires Sorted(s) && s != []
    ensures s == g + rest && g != [] && g[0] == s[0]
    ensures Sorted(g) && Sorted(rest)
    ensures forall t | t in g :: s[0].transactionDate <= t.transactionDate <= s[0].transactionDate + window
    ensures forall t | t in rest :: t.transactionDate > s[0].transactionDate + window
    ensures |g| == FirstGroupSize(s, window)
    ensures Groups(s, window) == [g] + Groups(rest, window)
  {
    var n := FirstGroupSize(s, window);
    g, rest := s[..n], s[n..];
    assert s == g + rest;
    SortedSplit(g, rest);
    assert g == [s[0]] + s[1..][..n - 1];
    if n < |s| {
      assert s[1..][n - 1] == s[n];
    }
  }

  lemma {:induction false} CutSize(g: Group, rest: Group, limit: Day)
    requires forall t | t in g :: t.transactionDate <= limit
    requires rest != [] ==> rest[0].transactionDate > limit
    ensures PrefixUpTo(g + rest, limit) == |g|
  {
    if g != [] {
      CutSize(g[1..], rest, limit);
      assert (g + rest)[1..] == g[1..] + rest;
    } else {
      assert g + rest == rest;
    }
  }

  /** Any cut with the same two bounds is the one the first group makes. */
  lemma CutIsUnique(s: Group, g: Group, rest: Group, window: int)
    requires s == g + rest && g != []
    requires forall t | t in g[1..] :: t.transactionDate <= s[0].transactionDate + window
    requires rest != [] ==> rest[0].transactionDate > s[0].transactionDate + window
    ensures Groups(s, window) == [g] + Groups(rest, window)
  {
    hide PrefixUpTo;
    CutSize(g[1..], rest, s[0].transactionDate + window);
    assert s[1..] == g[1..] + rest;
    assert FirstGroupSize(s, window) == |g|;
    GroupsUnfold(s, g, rest, window);
  }

  lemma GroupsUnfold(s: Group, g: Group, rest: Group, window: int)
    requires s == g + rest && g != [] && |g| == FirstGroupSize(s, window)
    ensures Groups(s, window) == [g] + Groups(rest, window)
  {
    hide FirstGroupSize;
    assert s[..|g|] == g && s[|g|..] == rest;
  }

  lemma PartsCons(g: Group, gs: seq<Group>, rest: Group)
    requires g != [] && Flatten(gs) == rest
    requires forall h | h in gs :: h != [] && forall t | t in h :: t in rest
    ensures Flatten([g] + gs) == g + rest
    ensures forall h | h in [g] + gs :: h != [] && forall t | t in h :: t in g + rest
  {
    assert ([g] + gs)[1..] == gs;
  }

  /** Every group is a non-empty part of the list. */
  lemma {:induction false} GroupsAreParts(s: Group, window: int)
    ensures Flatten(Groups(s, window)) == s
    ensures forall g | g in Groups(s, window) :: g != [] && forall t | t in g :: t in s
    decreases |s|
  {
    hide PrefixUpTo;
    if s != [] {
      var n := FirstGroupSize(s, window);
      var g, rest := s[..n], s[n..];
      assert s == g + rest;
      GroupsAreParts(rest, window);
      GroupsUnfold(s, g, rest, window);
      PartsCons(g, Groups(rest, window), rest);
    }
  }

  /** The loop's groups form a greedy partition. */
  lemma {:induction false} GroupsAreGreedy(s: Group, window: nat)
    requires Sorted(s)
    ensures IsGreedyPartition(Groups(s, window), s, window)
    decreases |s|
  {
    GroupsAreParts(s, window);
    if s != [] {
      var g, rest := FirstGroup(s, window);
      GroupsAreParts(rest, window);
      GroupsAreGreedy(rest, window);
      StartsApartCons(g, Groups(rest, window), window);
    }
  }

  lemma StartsApartCons(g: Group, gs: seq<Group>, window: nat)
    requires StartsApart(gs, window)
    requires forall h | h in gs :: StartsBeyond(g, h, window)
    ensures StartsApart([g] + gs, window)
  {
    var all := [g] + gs;
    forall i, j | 0 <= i < j < |all|
      ensures StartsBeyond(all[i], all[j], window)
    {
      assert all[j] == gs[j - 1];
      assert i > 0 ==> all[i] == gs[i - 1];
    }
  }

  /** Only one list of groups is a greedy partition, so the two descriptions agree. */
  lemma {:induction false} GreedyPartitionIsUnique(gs: seq<Group>, s: Group, window: nat)
    requires Sorted(s)
    ensures IsGreedyPartition(gs, s, window) <==> gs == Groups(s, window)
    decreases |gs|
  {
    hide Sorted, FirstGroupSize, WithinWindow, StartsApart;
    GroupsAreGreedy(s, window);
    if IsGreedyPartition(gs, s, window) && gs != [] {
      var g, rest := gs[0], gs[1..];
      var tail := Flatten(rest);
      assert s == g + tail;
      TailIsGreedy(gs, s, window);
      if rest != [] {
        assert tail[0] == rest[0][0] == gs[1][0];
      }
      SortedSplit(g, tail);
      CutIsUnique(s, g, tail, window);
      GreedyPartitionIsUnique(rest, tail, window);
      assert gs == [g] + rest;
    }
  }

  lemma TailIsGreedy(gs: seq<Group>, s: Group, window: nat)
    requires IsGreedyPartition(gs, s, window) && gs != []
    ensures IsGreedyPartition(gs[1..], Flatten(gs[1..]), window)
    ensures gs[0] in gs && gs[0] != []
    ensures forall t | t in gs[0] :: t.transactionDate <= gs[0][0].transactionDate + window
    ensures |gs| > 1 ==> gs[1] in gs && gs[1] != [] && gs[1][0].transactionDate > gs[0][0].transactionDate + window
  {
    var rest := gs[1..];
    assert gs[0] in gs && gs[0] != [];
    forall i, j | 0 <= i < j < |rest|
      ensures StartsBeyond(rest[i], rest[j], window)
    {
      assert rest[i] == gs[i + 1] && rest[j] == gs[j + 1];
    }
    var first := gs[0][0];
    assert first in gs[0];
  }

  // ---------- Optimality ----------

  /** Purchases assigned to one part lie within one window. */
  ghost predicate PartsFit(s: Group, window: int, part: Transaction -> int) {
    forall t, u | t in s && u in s && part(t) == part(u) :: u.transactionDate - t.transactionDate <= window
  }

  ghost function PartsOf(s: Group, part: Transaction -> int): set<int> {
    set t | t in s :: part(t)
  }

  lemma FirstPartIsNotReused(s: Group, g: Group, rest: Group, window: nat, part: Transaction -> int)
    requires s == g + rest && g != [] && PartsFit(s, window, part)
    requires forall t | t in rest :: t.transactionDate > s[0].transactionDate + window
    ensures PartsFit(rest, window, part)
    ensures PartsOf(rest, part) + {part(s[0])} <= PartsOf(s, part)
    ensures part(s[0]) !in PartsOf(rest, part)
  {
    assert s[0] in s;
  }

  /** No assignment of parts, each spanning at most the window, uses fewer parts. */
  lemma {:induction false} GreedyIsOptimal(s: Group, window: nat, part: Transaction -> int)
    requires Sorted(s) && PartsFit(s, window, part)
    ensures |Groups(s, window)| <= |PartsOf(s, part)|
    decreases |s|
  {
    if s != [] {
      var g, rest := FirstGroup(s, window);
      FirstPartIsNotReused(s, g, rest, window, part);
      GreedyIsOptimal(rest, window, part);
      SubsetSize(PartsOf(rest, part) + {part(s[0])}, PartsOf(s, part));
    }
  }

  lemma SubsetSize<T>(a: set<T>, b: set<T>)
    requires a <= b
    ensures |a| <= |b|
  {
    assert b == a + (b - a);
  }

  /** The start of the group in which a purchase dated d falls. */
  function Anchor(s: Group, window: int, d: Day): Day
    requires s != []
    decreases |s|
  {
    var n := FirstGroupSize(s, window);
    if n == |s| || d < s[n].transactionDate then s[0].transactionDate else Anchor(s[n..], window, d)
  }

  lemma AnchorStep(s: Group, window: nat, g: Group, rest: Group, d: Day)
    requires s == g + rest && s != [] && |g| == FirstGroupSize(s, window)
    ensures Anchor(s, window, d) ==
      if rest == [] || d < rest[0].transactionDate then s[0].transactionDate else Anchor(rest, window, d)
  {
    assert rest == s[|g|..];
  }

  lemma {:induction false} AnchorIsLater(s: Group, window: nat, d: Day)
    requires Sorted(s) && s != []
    ensures Anchor(s, window, d) >= s[0].transactionDate
    decreases |s|
  {
    var g, rest := FirstGroup(s, window);
    AnchorStep(s, window, g, rest, d);
    if rest != [] && d >= rest[0].transactionDate {
      AnchorIsLater(rest, window, d);
    }
  }

  /** Membership by date alone: a purchase lies in the group that starts at its anchor. */
  lemma {:induction false} GroupByAnchor(s: Group, window: nat, t: Transaction, i: nat)
    requires Sorted(s) && t in s && i < |Groups(s, window)|
    ensures Groups(s, window)[i] != []
    ensures t in Groups(s, window)[i] <==>
      Anchor(s, window, t.transactionDate) == Groups(s, window)[i][0].transactionDate
    decreases |s|
  {
    var g, rest := FirstGroup(s, window);
    var gs := Groups(rest, window);
    GroupsAreParts(rest, window);
    AnchorStep(s, window, g, rest, t.transactionDate);
    SortedSplit(g, rest);
    if t in rest {
      if i > 0 {
        GroupByAnchor(rest, window, t, i - 1);
      } else {
        AnchorIsLater(rest, window, t.transactionDate);
      }
    } else if i > 0 {
      assert gs[i - 1] in gs && gs[i - 1][0] in gs[i - 1];
    }
  }

  /** A later purchase shares the group of an earlier one iff its group starts no later than it. */
  lemma {:induction false} SharedAnchor(s: Group, window: nat, t: Transaction, u: Transaction)
    requires Sorted(s) && t in s && u in s && t.transactionDate <= u.transactionDate
    ensures Anchor(s, window, t.transactionDate) == Anchor(s, window, u.transactionDate) <==>
      Anchor(s, window, u.transactionDate) <= t.transactionDate
    decreases |s|
  {
    var g, rest := FirstGroup(s, window);
    SortedSplit(g, rest);
    AnchorStep(s, window, g, rest, t.transactionDate);
    AnchorStep(s, window, g, rest, u.transactionDate);
    if rest != [] && u.transactionDate >= rest[0].transactionDate {
      AnchorIsLater(rest, window, u.transactionDate);
      if t.transactionDate >= rest[0].transactionDate {
        assert t !in g ==> t in rest;
        SharedAnchor(rest, window, t, u);
      }
    }
  }

  lemma FlattenIndex<T>(ss: seq<seq<T>>, x: T) returns (i: nat)
    requires x in Flatten(ss)
    ensures i < |ss| && x in ss[i]
  {
    if x in ss[0] {
      i := 0;
    } else {
      i := FlattenIndex(ss[1..], x);
      i := i + 1;
    }
  }

  function AnchorSet(s: Group, window: int): set<Day>
    requires s != []
  {
    set t | t in s :: Anchor(s, window, t.transactionDate)
  }

  /** There are no more anchors than groups ... */
  lemma {:induction false} AnchorsCountGroups(s: Group, window: nat)
    requires Sorted(s) && s != []
    ensures |AnchorSet(s, window)| <= |Groups(s, window)|
  {
    GroupsAreParts(s, window);
    var gs := Groups(s, window);
    forall a | a in AnchorSet(s, window)
      ensures a in StartsOf(gs)
    {
      var t :| t in s && Anchor(s, window, t.transactionDate) == a;
      var i := FlattenIndex(gs, t);
      GroupByAnchor(s, window, t, i);
      StartIsIn(gs, i);
    }
    SubsetSize(AnchorSet(s, window), StartsOf(gs));
    StartsAtMost(gs);
  }

  /** ... and purchases with the same anchor lie within one window. */
  lemma SameAnchor(s: Group, window: nat, t: Transaction, u: Transaction)
    requires Sorted(s) && t in s && u in s
    requires Anchor(s, window, t.transactionDate) == Anchor(s, window, u.transactionDate)
    ensures u.transactionDate - t.transactionDate <= window
  {
    GroupsAreGreedy(s, window);
    var gs := Groups(s, window);
    var i := FlattenIndex(gs, t);
    GroupByAnchor(s, window, t, i);
    GroupByAnchor(s, window, u, i);
    assert gs[i] in gs;
  }

  function StartsOf(gs: seq<Group>): set<Day>
  {
    if gs == [] then {}
    else StartsOf(gs[1..]) + if gs[0] == [] then {} else {gs[0][0].transactionDate}
  }

  lemma StartIsIn(gs: seq<Group>, i: nat)
    requires i < |gs| && gs[i] != []
    ensures gs[i][0].transactionDate in StartsOf(gs)
  {
    if i > 0 { StartIsIn(gs[1..], i - 1); }
  }

  lemma StartsAtMost(gs: seq<Group>)
    ensures |StartsOf(gs)| <= |gs|
  {}

  /** Widening the window never yields more groups. */
  lemma WideningNeverSplits(s: Group, narrow: nat, wide: nat)
    requires Sorted(s) && narrow <= wide
    ensures |Groups(s, wide)| <= |Groups(s, narrow)|
  {
    if s != [] {
      var part := (t: Transaction) => Anchor(s, narrow, t.transactionDate);
      forall t, u | t in s && u in s && part(t) == part(u)
        ensures u.transactionDate - t.transactionDate <= wide
      {
        SameAnchor(s, narrow, t, u);
      }
      GreedyIsOptimal(s, wide, part);
      AnchorsCountGroups(s, narrow);
      assert PartsOf(s, part) == AnchorSet(s, narrow);
    }
  }

  // ---------- Coverage ----------

  /** A non-empty set of purchases dated within one window, the one that starts on day lo. */
  ghost predicate LiesInWindow(span: set<Transaction>, lo: Day, window: int) {
    span != {} && forall t | t in span :: lo <= t.transactionDate <= lo + window
  }

  /** Whatever lies within one window meets at most two groups. */
  lemma {:induction false} SpanMeetsTwoGroups(s: Group, window: nat, span: set<Transaction>, lo: Day)
    returns (g1: Group, g2: Group)
    requires Sorted(s) && LiesInWindow(span, lo, window) && forall t | t in span :: t in s
    ensures g1 in Groups(s, window) && g2 in Groups(s, window)
    ensures forall t | t in span :: t in g1 || t in g2
    decreases |s|
  {
    var any :| any in span;
    assert any in s;
    var g, rest := FirstGroup(s, window);
    if exists first :: first in span && first in g {
      g1 := g;
      g2 := SpanFromFirst(g, rest, window, span, lo);
    } else {
      g1, g2 := SpanMeetsTwoGroups(rest, window, span, lo);
    }
  }

  lemma SpanFromFirst(g: Group, rest: Group, window: nat, span: set<Transaction>, lo: Day) returns (h: Group)
    requires Sorted(rest) && LiesInWindow(span, lo, window) && forall t | t in span :: t in g + rest
    requires forall t | t in g && rest != [] :: t.transactionDate < rest[0].transactionDate
    requires exists first :: first in span && first in g
    ensures h in [g] + Groups(rest, window)
    ensures forall t | t in span :: t in g || t in h
  {
    if rest == [] {
      h := g;
    } else {
      var first :| first in span && first in g;
      var tail;
      h, tail := FirstGroup(rest, window);
    }
  }

  // ---------- Growth ----------

  /** Later purchases only lengthen the last group or open new ones. */
  lemma {:induction false} GroupsGrow(s: Group, later: Group, window: nat, i: nat)
    requires Sorted(s + later) && i < |Groups(s, window)|
    ensures i < |Groups(s + later, window)|
    ensures Groups(s, window)[i] <= Groups(s + later, window)[i]
    ensures forall t | t in Groups(s + later, window)[i] :: t in Groups(s, window)[i] || t in later
    decreases |s|
  {
    SortedSplit(s, later);
    var g, rest := FirstGroup(s, window);
    if rest != [] {
      GrowthBeyondFirst(g, rest, later, window);
      if i > 0 {
        GroupsGrow(rest, later, window, i - 1);
      }
    } else {
      GrowthOfFirst(s, later, window);
    }
  }

  lemma GrowthBeyondFirst(g: Group, rest: Group, later: Group, window: nat)
    requires Sorted(g + rest + later) && g != [] && rest != []
    requires forall t | t in g :: t.transactionDate <= g[0].transactionDate + window
    requires forall t | t in rest :: t.transactionDate > g[0].transactionDate + window
    ensures Sorted(rest + later)
    ensures Groups(g + rest + later, window) == [g] + Groups(rest + later, window)
  {
    assert g + rest + later == g + (rest + later);
    SortedSplit(g, rest + later);
    assert rest[0] in rest;
    CutIsUnique(g + (rest + later), g, rest + later, window);
  }

  lemma GrowthOfFirst(s: Group, later: Group, window: nat)
    requires s != []
    requires forall t | t in s :: t.transactionDate <= s[0].transactionDate + window
    ensures Groups(s + later, window) != []
    ensures s <= Groups(s + later, window)[0]
    ensures forall t | t in Groups(s + later, window)[0] :: t in s || t in later
  {
    var k := PrefixUpTo(later, s[0].transactionDate + window);
    assert s + later == (s + later[..k]) + later[k..];
    CutIsUnique(s + later, s + later[..k], later[k..], window);
  }

  // ---------- Order independence ----------

  /** Two sorted lists of the same purchases have the same groups, up to the order of equal dates. */
  lemma {:induction false} GroupsIgnoreTies(s: Group, r: Group, window: nat, i: nat)
    requires Sorted(s) && Sorted(r) && multiset(s) == multiset(r)
    ensures |Groups(s, window)| == |Groups(r, window)|
    ensures i < |Groups(s, window)| ==> multiset(Groups(s, window)[i]) == multiset(Groups(r, window)[i])
    decreases |s|
  {
    SameElements(s, r);
    if s != [] {
      var g, rest, h, tail := FirstGroupsAgree(s, r, window);
      GroupsIgnoreTies(rest, tail, window, if i == 0 then 0 else i - 1);
    }
  }

  lemma FirstGroupsAgree(s: Group, r: Group, window: nat) returns (g: Group, rest: Group, h: Group, tail: Group)
    requires Sorted(s) && Sorted(r) && s != [] && r != []
    requires multiset(s) == multiset(r)
    ensures Groups(s, window) == [g] + Groups(rest, window) && Groups(r, window) == [h] + Groups(tail, window)
    ensures multiset(g) == multiset(h) && multiset(rest) == multiset(tail)
    ensures Sorted(rest) && Sorted(tail) && |rest| < |s|
  {
    hide Sorted, Groups, FirstGroupSize;
    SameElements(s, r);
    g, rest := FirstGroup(s, window);
    h, tail := FirstGroup(r, window);
    SameFirstDate(s, r);
    CutsAgree(g, rest, h, tail, s[0].transactionDate + window);
  }

  lemma SameFirstDate(s: Group, r: Group)
    requires Sorted(s) && Sorted(r) && s != [] && r != []
    requires forall t :: t in s <==> t in r
    ensures s[0].transactionDate == r[0].transactionDate
  {
    assert s[0] in r && r[0] in s;
  }

  lemma CutsAgree(g: Group, rest: Group, h: Group, tail: Group, limit: Day)
    requires multiset(g + rest) == multiset(h + tail)
    requires forall t | t in g || t in h :: t.transactionDate <= limit
    requires forall t | t in rest || t in tail :: t.transactionDate > limit
    ensures multiset(g) == multiset(h) && multiset(rest) == multiset(tail)
  {
    CutCounts(g, rest, limit);
    CutCounts(h, tail, limit);
  }

  lemma CutCounts(g: Group, rest: Group, limit: Day)
    requires forall t | t in g :: t.transactionDate <= limit
    requires forall t | t in rest :: t.transactionDate > limit
    ensures forall x :: multiset(g)[x] == if x.transactionDate <= limit then multiset(g + rest)[x] else 0
    ensures forall x :: multiset(rest)[x] == if x.transactionDate <= limit then 0 else multiset(g + rest)[x]
  {
    forall x
      ensures multiset(g)[x] == if x.transactionDate <= limit then multiset(g + rest)[x] else 0
      ensures multiset(rest)[x] == if x.transactionDate <= limit then 0 else multiset(g + rest)[x]
    {
      assert x in multiset(g) <==> x in g;
      assert x in multiset(rest) <==> x in rest;
    }
  }
}
