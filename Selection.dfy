/**
 * Tournament selection of `CreateNewGeneration`: the birds are dealt at
 * random, round-robin and without replacement into `parentCount` groups,
 * and each group's winner is its first member with the highest score.
 */
module Selection {
  import opened Random

  /** `temp` before the deal: 0, 1, ..., n-1. */
  function Range(n: nat): (r: seq<nat>)
    ensures |r| == n && forall i :: 0 <= i < n ==> r[i] == i
  {
    seq(n, i => i)
  }

  function EmptyGroups(p: nat): (r: seq<seq<nat>>)
    ensures |r| == p && forall g :: 0 <= g < p ==> r[g] == []
  {
    seq(p, _ => [])
  }

  /**
   * The dealing loop from a given state: draw `rand() % |temp|`, move that
   * element of `temp` to the end of the current group, go to the next
   * group. Returns the groups and the number of draws made so far.
   */
  function Deal(temp: seq<nat>, groups: seq<seq<nat>>, current: nat, stream: Stream, pos: nat): (r: (seq<seq<nat>>, nat))
    requires current < |groups|
    ensures |r.0| == |groups|
    decreases |temp|
  {
    if |temp| == 0 then (groups, pos)
    else
      var pick := stream(pos) % |temp|;
      Deal(temp[..pick] + temp[pick + 1..], groups[current := groups[current] + [temp[pick]]],
           (current + 1) % |groups|, stream, pos + 1)
  }

  /** All members of all groups, with multiplicity. */
  function Members(groups: seq<seq<nat>>): multiset<nat>
  {
    if |groups| == 0 then multiset{} else Members(groups[..|groups| - 1]) + multiset(groups[|groups| - 1])
  }

  /**
   * The shape round-robin dealing keeps: the groups before `current` have
   * one member more than `current`'s group, the others as many.
   */
  predicate Balanced(groups: seq<seq<nat>>, current: nat)
  {
    current < |groups| &&
    forall g :: 0 <= g < |groups| ==> |groups[g]| == |groups[current]| + (if g < current then 1 else 0)
  }

  /** No two groups differ in size by more than one. */
  predicate NearlyEqual(groups: seq<seq<nat>>)
  {
    forall g, h :: 0 <= g < |groups| && 0 <= h < |groups| ==> |groups[g]| <= |groups[h]| + 1
  }

  lemma {:induction false} MembersUpdate(groups: seq<seq<nat>>, c: nat, x: nat)
    requires c < |groups|
    ensures Members(groups[c := groups[c] + [x]]) == Members(groups) + multiset{x}
    decreases |groups|
  {
    var last := |groups| - 1;
    var updated := groups[c := groups[c] + [x]];
    var rest, tail := Members(groups[..last]), multiset(groups[last]);
    var rest', tail' := Members(updated[..last]), multiset(updated[last]);
    assert Members(updated) == rest' + tail';
    assert Members(groups) == rest + tail;
    if c < last {
      assert updated[..last] == groups[..last][c := groups[c] + [x]];
      MembersUpdate(groups[..last], c, x);
      assert rest' == rest + multiset{x} && tail' == tail;
    } else {
      assert updated[..last] == groups[..last];
      assert rest' == rest && tail' == tail + multiset{x};
    }
  }

  lemma {:induction false} MembersContain(groups: seq<seq<nat>>, g: nat, x: nat)
    requires g < |groups| && x in groups[g]
    ensures x in Members(groups)
    decreases |groups|
  {
    var last := |groups| - 1;
    if g < last { MembersContain(groups[..last], g, x); }
  }

  lemma {:induction false} MembersOfEmpty(p: nat)
    ensures Members(EmptyGroups(p)) == multiset{}
  {
    if p > 0 {
      assert EmptyGroups(p)[..p - 1] == EmptyGroups(p - 1);
      MembersOfEmpty(p - 1);
    }
  }

  lemma {:induction false} RangeOnce(n: nat)
    ensures forall i: nat :: multiset(Range(n))[i] == if i < n then 1 else 0
  {
    if n > 0 {
      assert Range(n) == Range(n - 1) + [n - 1];
      RangeOnce(n - 1);
    }
  }

  /** One step of the deal: what the recursion does with the element drawn. */
  lemma DealStep(temp: seq<nat>, groups: seq<seq<nat>>, current: nat, stream: Stream, pos: nat)
    requires current < |groups| && |temp| > 0
    ensures var pick := stream(pos) % |temp|;
      multiset(temp) == multiset(temp[..pick] + temp[pick + 1..]) + multiset{temp[pick]} &&
      Deal(temp, groups, current, stream, pos)
        == Deal(temp[..pick] + temp[pick + 1..], groups[current := groups[current] + [temp[pick]]],
                (current + 1) % |groups|, stream, pos + 1)
  {
    var pick := stream(pos) % |temp|;
    assert temp == temp[..pick] + [temp[pick]] + temp[pick + 1..];
  }

  /** The deal makes one draw per element of `temp`. */
  lemma {:induction false} DealDraws(temp: seq<nat>, groups: seq<seq<nat>>, current: nat, stream: Stream, pos: nat)
    requires current < |groups|
    ensures Deal(temp, groups, current, stream, pos).1 == pos + |temp|
    decreases |temp|
  {
    if |temp| > 0 {
      var pick := stream(pos) % |temp|;
      DealStep(temp, groups, current, stream, pos);
      DealDraws(temp[..pick] + temp[pick + 1..], groups[current := groups[current] + [temp[pick]]],
                (current + 1) % |groups|, stream, pos + 1);
    }
  }

  /** Every element of `temp` ends up in exactly one group. */
  lemma {:induction false} DealMembers(temp: seq<nat>, groups: seq<seq<nat>>, current: nat, stream: Stream, pos: nat)
    requires current < |groups|
    ensures Members(Deal(temp, groups, current, stream, pos).0) == Members(groups) + multiset(temp)
    decreases |temp|
  {
    if |temp| > 0 {
      var pick := stream(pos) % |temp|;
      var temp', groups' := temp[..pick] + temp[pick + 1..], groups[current := groups[current] + [temp[pick]]];
      DealStep(temp, groups, current, stream, pos);
      MembersUpdate(groups, current, temp[pick]);
      DealMembers(temp', groups', (current + 1) % |groups|, stream, pos + 1);
      assert Members(groups') + multiset(temp') == Members(groups) + multiset(temp);
    }
  }

  /** Giving one member to the current group and moving on keeps the round-robin shape. */
  lemma BalancedStep(groups: seq<seq<nat>>, current: nat, x: nat)
    requires Balanced(groups, current)
    ensures Balanced(groups[current := groups[current] + [x]], (current + 1) % |groups|)
  {
    var next := groups[current := groups[current] + [x]];
    if current + 1 < |groups| {
      assert (current + 1) % |groups| == current + 1;
    } else {
      assert (current + 1) % |groups| == 0;
    }
  }

  /** The round-robin shape survives the whole deal, and no group shrinks. */
  lemma {:induction false} DealBalanced(temp: seq<nat>, groups: seq<seq<nat>>, current: nat, stream: Stream, pos: nat)
    requires Balanced(groups, current)
    ensures exists c :: Balanced(Deal(temp, groups, current, stream, pos).0, c)
    ensures forall g :: 0 <= g < |groups| ==> |groups[g]| <= |Deal(temp, groups, current, stream, pos).0[g]|
    decreases |temp|
  {
    if |temp| == 0 {
      assert Balanced(Deal(temp, groups, current, stream, pos).0, current);
    } else {
      var pick := stream(pos) % |temp|;
      DealStep(temp, groups, current, stream, pos);
      BalancedStep(groups, current, temp[pick]);
      DealBalanced(temp[..pick] + temp[pick + 1..], groups[current := groups[current] + [temp[pick]]],
                   (current + 1) % |groups|, stream, pos + 1);
    }
  }

  /** When `temp` reaches every group from `current` on, no group is left empty. */
  lemma {:induction false} DealFills(temp: seq<nat>, groups: seq<seq<nat>>, current: nat, stream: Stream, pos: nat)
    requires Balanced(groups, current)
    requires |temp| >= |groups| - current || forall g :: 0 <= g < |groups| ==> |groups[g]| >= 1
    ensures forall g :: 0 <= g < |groups| ==> |Deal(temp, groups, current, stream, pos).0[g]| >= 1
    decreases |temp|
  {
    if |temp| > 0 {
      var pick := stream(pos) % |temp|;
      var next := groups[current := groups[current] + [temp[pick]]];
      DealStep(temp, groups, current, stream, pos);
      BalancedStep(groups, current, temp[pick]);
      if current + 1 == |groups| {
        assert forall g :: 0 <= g < |next| ==> |next[g]| >= 1;
      }
      DealFills(temp[..pick] + temp[pick + 1..], next, (current + 1) % |groups|, stream, pos + 1);
    } else {
      DealBalanced(temp, groups, current, stream, pos);
    }
  }

  /**
   * Dealing the `birdCount` birds into `parentCount` empty groups: each
   * bird lands in exactly one group once, sizes differ by at most one, no
   * group is empty when there are at least as many birds as groups, and
   * exactly `birdCount` draws are made.
   */
  lemma DealPartitions(birdCount: nat, parentCount: nat, stream: Stream, pos: nat)
    requires parentCount >= 1
    ensures var r := Deal(Range(birdCount), EmptyGroups(parentCount), 0, stream, pos);
      |r.0| == parentCount && r.1 == pos + birdCount &&
      (forall i: nat :: Members(r.0)[i] == if i < birdCount then 1 else 0) &&
      (forall g, x :: 0 <= g < parentCount && x in r.0[g] ==> x < birdCount) &&
      NearlyEqual(r.0) &&
      (birdCount >= parentCount ==> forall g :: 0 <= g < parentCount ==> |r.0[g]| >= 1)
  {
    var temp, empty := Range(birdCount), EmptyGroups(parentCount);
    var r := Deal(temp, empty, 0, stream, pos);
    DealMembers(temp, empty, 0, stream, pos);
    DealDraws(temp, empty, 0, stream, pos);
    assert Balanced(empty, 0);
    DealBalanced(temp, empty, 0, stream, pos);
    var c :| Balanced(r.0, c);
    if birdCount >= parentCount {
      DealFills(temp, empty, 0, stream, pos);
    }
    MembersOfEmpty(parentCount);
    assert Members(r.0) == multiset(temp);
    RangeOnce(birdCount);
    forall g, x | 0 <= g < parentCount && x in r.0[g] ensures x < birdCount {
      MembersContain(r.0, g, x);
    }
  }

  /** The dealing loop of `CreateNewGeneration`, with the groups and `temp` it builds first. */
  method Partition(birdCount: nat, parentCount: nat, stream: Stream, pos: nat) returns (groups: seq<seq<nat>>, next: nat)
    requires parentCount >= 1
    ensures (groups, next) == Deal(Range(birdCount), EmptyGroups(parentCount), 0, stream, pos)
    ensures |groups| == parentCount && next == pos + birdCount
    ensures forall i: nat :: Members(groups)[i] == if i < birdCount then 1 else 0
    ensures forall g, x :: 0 <= g < parentCount && x in groups[g] ==> x < birdCount
    ensures NearlyEqual(groups)
    ensures birdCount >= parentCount ==> forall g :: 0 <= g < parentCount ==> |groups[g]| >= 1
  {
    groups := [];
    var i := 0;
    while i < parentCount
      invariant 0 <= i <= parentCount && groups == EmptyGroups(i)
    {
      groups := groups + [[]];
      i := i + 1;
    }
    var temp: seq<nat> := [];
    i := 0;
    while i < birdCount
      invariant 0 <= i <= birdCount && temp == Range(i)
    {
      temp := temp + [i];
      i := i + 1;
    }
    var currentGroup: nat := 0;
    next := pos;
    while |temp| > 0
      invariant currentGroup < |groups| == parentCount
      invariant Deal(temp, groups, currentGroup, stream, next) == Deal(Range(birdCount), EmptyGroups(parentCount), 0, stream, pos)
      decreases |temp|
    {
      var random := stream(next) % |temp|;
      next := next + 1;
      groups := groups[currentGroup := groups[currentGroup] + [temp[random]]];
      temp := temp[..random] + temp[random + 1..];
      currentGroup := (currentGroup + 1) % parentCount;
    }
    DealPartitions(birdCount, parentCount, stream, pos);
  }

  // ---------------------------------------------------------------------
  // The winner of one group.

  predicate InTable(group: seq<nat>, scores: seq<int>)
  {
    forall i :: 0 <= i < |group| ==> group[i] < |scores|
  }

  /**
   * The comparison loop: start with the first member; a later member
   * replaces the current winner only with a strictly greater score.
   */
  function WinnerOf(group: seq<nat>, scores: seq<int>): (w: nat)
    requires |group| > 0 && InTable(group, scores)
    ensures w in group
    decreases |group|
  {
    if |group| == 1 then group[0]
    else
      var best := WinnerOf(group[..|group| - 1], scores);
      if scores[group[|group| - 1]] > scores[best] then group[|group| - 1] else best
  }

  /** The winner's score is at least every member's score. */
  lemma {:induction false} WinnerIsMaximum(group: seq<nat>, scores: seq<int>)
    requires |group| > 0 && InTable(group, scores)
    ensures forall j :: 0 <= j < |group| ==> scores[group[j]] <= scores[WinnerOf(group, scores)]
    decreases |group|
  {
    if |group| > 1 {
      var last := |group| - 1;
      WinnerIsMaximum(group[..last], scores);
      assert forall j :: 0 <= j < last ==> group[j] == group[..last][j];
    }
  }

  /**
   * On a tie the member that comes first wins: the winner sits at a
   * position before which every member scores strictly less.
   */
  lemma {:induction false} WinnerComesFirst(group: seq<nat>, scores: seq<int>)
    requires |group| > 0 && InTable(group, scores)
    ensures exists k ::
      && 0 <= k < |group|
      && group[k] == WinnerOf(group, scores)
      && forall j :: 0 <= j < k ==> scores[group[j]] < scores[group[k]]
    decreases |group|
  {
    if |group| == 1 {
      assert group[0] == WinnerOf(group, scores);
    } else {
      var last := |group| - 1;
      var prefix := group[..last];
      var best := WinnerOf(prefix, scores);
      if scores[group[last]] > scores[best] {
        WinnerIsMaximum(prefix, scores);
        assert forall j :: 0 <= j < last ==> group[j] == prefix[j];
        assert group[last] == WinnerOf(group, scores);
      } else {
        WinnerComesFirst(prefix, scores);
        var k :| 0 <= k < |prefix| && prefix[k] == best &&
          forall j :: 0 <= j < k ==> scores[prefix[j]] < scores[prefix[k]];
        assert forall j :: 0 <= j <= k ==> group[j] == prefix[j];
        assert group[k] == WinnerOf(group, scores);
      }
    }
  }

  /** The tournament loop of one group. */
  method RunTournament(group: seq<nat>, scores: seq<int>) returns (max: nat)
    requires |group| > 0 && InTable(group, scores)
    ensures max == WinnerOf(group, scores)
  {
    max := group[0];
    var i := 1;
    while i < |group|
      invariant 1 <= i <= |group|
      invariant max == WinnerOf(group[..i], scores)
    {
      assert group[..i + 1][..i] == group[..i];
      var current := group[i];
      if scores[current] > scores[max] {
        max := current;
      }
      i := i + 1;
    }
    assert group[..i] == group;
  }
}
