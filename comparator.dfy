/**
  The ordering of the roster by position (src/main/java/FPLManager/model/PlayerPositionComparator.java)
  and the result of sorting with it stably, as `Collections.sort` does.
 */
module PositionComparator {
  import opened Players

  /** `getClass().getSimpleName()` of a Player: the subclass name, or "" for an anonymous subclass. */
  function SimpleName(p: Position): string {
    match p
    case Goalkeeper => "Goalkeeper"
    case Defender => "Defender"
    case Midfielder => "Midfielder"
    case Forward => "Forward"
    case Unknown => ""
  }

  /** `getPositionOrder`: 1 to 4 for the four position classes, 5 for any other class name. */
  function PositionOrder(position: string): (r: int)
    ensures 1 <= r <= 5
    ensures r == 1 <==> position == "Goalkeeper"
    ensures r == 2 <==> position == "Defender"
    ensures r == 3 <==> position == "Midfielder"
    ensures r == 4 <==> position == "Forward"
  {
    if position == "Goalkeeper" then 1
    else if position == "Defender" then 2
    else if position == "Midfielder" then 3
    else if position == "Forward" then 4
    else 5
  }

  /** The sort key of a player. */
  function Rank(p: Player): int {
    PositionOrder(SimpleName(p.position))
  }

  /** The rank follows Goalkeeper < Defender < Midfielder < Forward < anything else. */
  lemma RankByPosition(p: Player)
    ensures p.position == Goalkeeper ==> Rank(p) == 1
    ensures p.position == Defender ==> Rank(p) == 2
    ensures p.position == Midfielder ==> Rank(p) == 3
    ensures p.position == Forward ==> Rank(p) == 4
    ensures p.position == Unknown ==> Rank(p) == 5
  {
  }

  /** `Integer.compare`: -1, 0 or 1. */
  function IntegerCompare(x: int, y: int): int {
    if x < y then -1 else if x == y then 0 else 1
  }

  /** `compare(player1, player2)`: the sign of the difference of the two ranks. */
  function Compare(p1: Player, p2: Player): (r: int)
    ensures r == -1 || r == 0 || r == 1
    ensures r < 0 <==> Rank(p1) < Rank(p2)
    ensures r == 0 <==> Rank(p1) == Rank(p2)
    ensures r > 0 <==> Rank(p1) > Rank(p2)
  {
    IntegerCompare(Rank(p1), Rank(p2))
  }

  /** Swapping the arguments negates the result. */
  lemma CompareAntisymmetric(a: Player, b: Player)
    ensures Compare(a, b) == -Compare(b, a)
  {
  }

  /** The order is transitive, for "at most" and for "less than". */
  lemma CompareTransitive(a: Player, b: Player, c: Player)
    ensures Compare(a, b) <= 0 && Compare(b, c) <= 0 ==> Compare(a, c) <= 0
    ensures Compare(a, b) < 0 && Compare(b, c) < 0 ==> Compare(a, c) < 0
  {
  }

  /** Equal players under the comparator compare alike to everything else. */
  lemma CompareConsistent(a: Player, b: Player, c: Player)
    requires Compare(a, b) == 0
    ensures Compare(a, c) == Compare(b, c)
  {
  }

  // ----- the stable sort -----

  /** No player is ordered after a later one. */
  ghost predicate SortedByPosition(ps: seq<Player>) {
    forall i, j :: 0 <= i < j < |ps| ==> Compare(ps[i], ps[j]) <= 0
  }

  /** The players of rank `k`, in their original order. */
  function WithRank(ps: seq<Player>, k: int): (r: seq<Player>)
    ensures |r| <= |ps|
    ensures forall i :: 0 <= i < |r| ==> Rank(r[i]) == k
  {
    if ps == [] then []
    else if Rank(ps[0]) == k then [ps[0]] + WithRank(ps[1..], k)
    else WithRank(ps[1..], k)
  }

  /** The players of rank `k` or more, in their original order. */
  function RankAtLeast(ps: seq<Player>, k: int): seq<Player> {
    if ps == [] then []
    else if Rank(ps[0]) >= k then [ps[0]] + RankAtLeast(ps[1..], k)
    else RankAtLeast(ps[1..], k)
  }

  /** The groups of rank `k` to 5, one after the other. */
  function Groups(ps: seq<Player>, k: int): seq<Player>
    decreases 6 - k
  {
    if k > 5 then [] else WithRank(ps, k) + Groups(ps, k + 1)
  }

  /**
    The list `Collections.sort(list, new PlayerPositionComparator())` leaves: the
    goalkeepers, then the defenders, the midfielders, the forwards and any other
    players, each group in its original order.
   */
  function SortByPosition(ps: seq<Player>): seq<Player> {
    Groups(ps, 1)
  }

  lemma {:induction false} WithRankAppend(a: seq<Player>, b: seq<Player>, k: int)
    ensures WithRank(a + b, k) == WithRank(a, k) + WithRank(b, k)
  {
    if a != [] {
      assert (a + b)[1..] == a[1..] + b;
      WithRankAppend(a[1..], b, k);
    } else {
      assert a + b == b;
    }
  }

  lemma {:induction false} WithRankOfWithRank(ps: seq<Player>, j: int, k: int)
    ensures WithRank(WithRank(ps, j), k) == if j == k then WithRank(ps, k) else []
  {
    if ps != [] {
      WithRankOfWithRank(ps[1..], j, k);
      if Rank(ps[0]) == j {
        assert WithRank(ps, j)[1..] == WithRank(ps[1..], j);
      }
    }
  }

  /** Picking one rank out of the groups from rank `lo` on finds the original players of that rank, or none. */
  lemma {:induction false} WithRankOfGroups(ps: seq<Player>, lo: int, k: int)
    ensures WithRank(Groups(ps, lo), k) == if lo <= k <= 5 then WithRank(ps, k) else []
    decreases 6 - lo
  {
    if lo <= 5 {
      WithRankAppend(WithRank(ps, lo), Groups(ps, lo + 1), k);
      WithRankOfWithRank(ps, lo, k);
      WithRankOfGroups(ps, lo + 1, k);
    }
  }

  /** Stability: for every rank, the sorted list holds exactly the players of that rank, in their original order. */
  lemma SortByPositionStable(ps: seq<Player>, k: int)
    ensures WithRank(SortByPosition(ps), k) == WithRank(ps, k)
  {
    WithRankOfGroups(ps, 1, k);
    if !(1 <= k <= 5) {
      WithRankNone(ps, k);
    }
  }

  lemma {:induction false} WithRankNone(ps: seq<Player>, k: int)
    requires !(1 <= k <= 5)
    ensures WithRank(ps, k) == []
  {
    if ps != [] {
      WithRankNone(ps[1..], k);
    }
  }

  lemma {:induction false} RankAtLeastSplit(ps: seq<Player>, k: int)
    ensures multiset(RankAtLeast(ps, k)) == multiset(WithRank(ps, k)) + multiset(RankAtLeast(ps, k + 1))
  {
    if ps != [] {
      RankAtLeastSplit(ps[1..], k);
    }
  }

  lemma {:induction false} GroupsMultiset(ps: seq<Player>, lo: int)
    requires 1 <= lo
    ensures multiset(Groups(ps, lo)) == multiset(RankAtLeast(ps, lo))
    decreases 6 - lo
  {
    if lo > 5 {
      RankAtLeastEmpty(ps, lo);
    } else {
      GroupsMultiset(ps, lo + 1);
      RankAtLeastSplit(ps, lo);
    }
  }

  lemma {:induction false} RankAtLeastEmpty(ps: seq<Player>, k: int)
    requires k > 5
    ensures RankAtLeast(ps, k) == []
  {
    if ps != [] {
      RankAtLeastEmpty(ps[1..], k);
    }
  }

  lemma {:induction false} RankAtLeastAll(ps: seq<Player>, k: int)
    requires k <= 1
    ensures RankAtLeast(ps, k) == ps
  {
    if ps != [] {
      RankAtLeastAll(ps[1..], k);
    }
  }

  /** The sorted list is a permutation of the input: nothing is added, dropped or duplicated. */
  lemma SortByPositionPermutation(ps: seq<Player>)
    ensures multiset(SortByPosition(ps)) == multiset(ps)
  {
    GroupsMultiset(ps, 1);
    RankAtLeastAll(ps, 1);
  }

  lemma {:induction false} GroupsSorted(ps: seq<Player>, lo: int)
    ensures SortedByPosition(Groups(ps, lo))
    ensures forall i :: 0 <= i < |Groups(ps, lo)| ==> lo <= Rank(Groups(ps, lo)[i])
    decreases 6 - lo
  {
    if lo <= 5 {
      GroupsSorted(ps, lo + 1);
      var a, b := WithRank(ps, lo), Groups(ps, lo + 1);
      assert Groups(ps, lo) == a + b;
      forall i, j | 0 <= i < j < |a + b|
        ensures Compare((a + b)[i], (a + b)[j]) <= 0
      {
        if j < |a| {
          assert Rank(a[i]) == lo && Rank(a[j]) == lo;
        } else if i < |a| {
          assert Rank(a[i]) == lo && lo + 1 <= Rank(b[j - |a|]);
        } else {
          assert (a + b)[i] == b[i - |a|] && (a + b)[j] == b[j - |a|];
        }
      }
    }
  }

  /** The sorted list is ordered by the comparator. */
  lemma SortByPositionSorted(ps: seq<Player>)
    ensures SortedByPosition(SortByPosition(ps))
  {
    GroupsSorted(ps, 1);
  }

  lemma {:induction false} SortedRankAtLeast(s: seq<Player>, k: int)
    requires SortedByPosition(s)
    ensures RankAtLeast(s, k) == WithRank(s, k) + RankAtLeast(s, k + 1)
  {
    if s != [] {
      var t := s[1..];
      assert SortedByPosition(t) by {
        forall i, j | 0 <= i < j < |t| ensures Compare(t[i], t[j]) <= 0 {
          assert t[i] == s[i + 1] && t[j] == s[j + 1];
        }
      }
      SortedRankAtLeast(t, k);
      if Rank(s[0]) > k {
        assert forall i :: 0 <= i < |t| ==> Compare(s[0], t[i]) <= 0 by {
          forall i | 0 <= i < |t| ensures Compare(s[0], t[i]) <= 0 {
            assert t[i] == s[i + 1];
          }
        }
        WithRankAbove(t, k, Rank(s[0]));
      }
    }
  }

  lemma {:induction false} WithRankAbove(t: seq<Player>, k: int, floor: int)
    requires k < floor
    requires forall i :: 0 <= i < |t| ==> floor <= Rank(t[i])
    ensures WithRank(t, k) == []
  {
    if t != [] {
      WithRankAbove(t[1..], k, floor);
    }
  }

  lemma {:induction false} SortedIsGroups(s: seq<Player>, lo: int)
    requires SortedByPosition(s)
    requires 1 <= lo
    ensures Groups(s, lo) == RankAtLeast(s, lo)
    decreases 6 - lo
  {
    if lo > 5 {
      RankAtLeastEmpty(s, lo);
    } else {
      SortedIsGroups(s, lo + 1);
      SortedRankAtLeast(s, lo);
    }
  }

  /**
    The sorted list is the only list that is ordered by the comparator and keeps every
    rank's players in their original order; so it is what any stable sort returns.
   */
  lemma SortByPositionUnique(ps: seq<Player>, out: seq<Player>)
    requires SortedByPosition(out)
    requires forall k :: 1 <= k <= 5 ==> WithRank(out, k) == WithRank(ps, k)
    ensures out == SortByPosition(ps)
  {
    SortedIsGroups(out, 1);
    RankAtLeastAll(out, 1);
    GroupsAgree(out, ps, 1);
  }

  lemma {:induction false} GroupsAgree(a: seq<Player>, b: seq<Player>, lo: int)
    requires forall k :: 1 <= k <= 5 ==> WithRank(a, k) == WithRank(b, k)
    requires 1 <= lo
    ensures Groups(a, lo) == Groups(b, lo)
    decreases 6 - lo
  {
    if lo <= 5 {
      GroupsAgree(a, b, lo + 1);
    }
  }
}
