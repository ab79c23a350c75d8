/**
 * The leaderboard panel (src/App.tsx:148-158): a sorted copy of the players,
 * lowest total first, each with its rank and, below the leader, the distance
 * to the leader's total. The table itself (`players`, whose order gives the
 * grid columns) is only read, never reordered.
 */
module Leaderboard {
  import opened Wrappers
  import opened Players

  predicate SortedByTotal(ps: seq<Player>) {
    forall i, j :: 0 <= i < j < |ps| ==> ps[i].total <= ps[j].total
  }

  /** Puts `p` in front of the first entry whose total is not below its own. */
  function Insert(p: Player, sorted: seq<Player>): (r: seq<Player>)
    ensures |r| == |sorted| + 1
    ensures forall i :: 0 <= i < |r| ==> r[i] == p || r[i] in sorted
    ensures multiset(r) == multiset(sorted) + multiset{p}
  {
    if sorted == [] || p.total <= sorted[0].total then [p] + sorted
    else
      assert sorted == [sorted[0]] + sorted[1..];
      [sorted[0]] + Insert(p, sorted[1..])
  }

  lemma {:induction false} InsertSorted(p: Player, sorted: seq<Player>)
    requires SortedByTotal(sorted)
    ensures SortedByTotal(Insert(p, sorted))
  {
    if sorted != [] && p.total > sorted[0].total {
      var rest := Insert(p, sorted[1..]);
      InsertSorted(p, sorted[1..]);
      assert forall i :: 0 <= i < |rest| ==> sorted[0].total <= rest[i].total;
    }
  }

  /**
   * `players.slice().sort((a, b) => a.total - b.total)`: ascending by total,
   * and stable, as `Array.prototype.sort` is. Each player is inserted in
   * front of the players after it that tie with it.
   */
  function SortByTotal(ps: seq<Player>): (r: seq<Player>)
    ensures |r| == |ps|
    ensures SortedByTotal(r)
    ensures multiset(r) == multiset(ps)
  {
    if ps == [] then []
    else
      assert ps == [ps[0]] + ps[1..];
      InsertSorted(ps[0], SortByTotal(ps[1..]));
      Insert(ps[0], SortByTotal(ps[1..]))
  }

  /** The players with total `k`, in the order they appear in `ps`. */
  function WithTotal(ps: seq<Player>, k: int): seq<Player> {
    if ps == [] then []
    else (if ps[0].total == k then [ps[0]] else []) + WithTotal(ps[1..], k)
  }

  lemma {:induction false} InsertWithTotal(p: Player, sorted: seq<Player>, k: int)
    ensures WithTotal(Insert(p, sorted), k) == (if p.total == k then [p] else []) + WithTotal(sorted, k)
  {
    var r := Insert(p, sorted);
    if sorted == [] || p.total <= sorted[0].total {
      assert r[0] == p && r[1..] == sorted;
    } else {
      var rest := Insert(p, sorted[1..]);
      assert r[0] == sorted[0] && r[1..] == rest;
      InsertWithTotal(p, sorted[1..], k);
      var head := if sorted[0].total == k then [sorted[0]] else [];
      assert WithTotal(r, k) == head + WithTotal(rest, k);
      assert WithTotal(sorted, k) == head + WithTotal(sorted[1..], k);
    }
  }

  /** Stability: among players with equal totals the leaderboard keeps the table's order. */
  lemma {:induction false} SortIsStable(ps: seq<Player>, k: int)
    ensures WithTotal(SortByTotal(ps), k) == WithTotal(ps, k)
  {
    if ps != [] {
      InsertWithTotal(ps[0], SortByTotal(ps[1..]), k);
      SortIsStable(ps[1..], k);
    }
  }

  lemma {:induction false} WithTotalMembers(ps: seq<Player>, k: int)
    ensures forall x :: x in WithTotal(ps, k) <==> x in ps && x.total == k
  {
    if ps != [] {
      WithTotalMembers(ps[1..], k);
      assert ps == [ps[0]] + ps[1..];
    }
  }

  lemma WithTotalOfSortedHead(ps: seq<Player>)
    requires ps != [] && SortedByTotal(ps)
    ensures WithTotal(ps, ps[0].total) == [ps[0]] + WithTotal(ps[1..], ps[0].total)
  {
  }

  /**
   * Sorted by total and stable pins the leaderboard down completely: any
   * ordering of the players with both properties is `SortByTotal`'s.
   */
  lemma SortedAndStableIsUnique(ps: seq<Player>, r: seq<Player>)
    requires SortedByTotal(r)
    requires forall k :: WithTotal(r, k) == WithTotal(ps, k)
    ensures r == SortByTotal(ps)
  {
    var s := SortByTotal(ps);
    forall k ensures WithTotal(r, k) == WithTotal(s, k) {
      SortIsStable(ps, k);
    }
    SameGroupsSame(r, s);
  }

  lemma {:induction false} SameGroupsSame(a: seq<Player>, b: seq<Player>)
    requires SortedByTotal(a) && SortedByTotal(b)
    requires forall k :: WithTotal(a, k) == WithTotal(b, k)
    ensures a == b
  {
    if a == [] || b == [] {
      var c := if a == [] then b else a;
      if c != [] {
        WithTotalMembers(a, c[0].total);
        WithTotalMembers(b, c[0].total);
        assert false;
      }
    } else {
      WithTotalMembers(a, b[0].total);
      WithTotalMembers(b, b[0].total);
      WithTotalMembers(a, a[0].total);
      WithTotalMembers(b, a[0].total);
      assert b[0] in WithTotal(b, b[0].total);
      assert a[0] in WithTotal(a, a[0].total);
      assert a[0].total == b[0].total;
      var m := a[0].total;
      WithTotalOfSortedHead(a);
      WithTotalOfSortedHead(b);
      assert WithTotal(a, m) == WithTotal(b, m);
      assert a[0] == WithTotal(a, m)[0] == WithTotal(b, m)[0] == b[0];
      forall k ensures WithTotal(a[1..], k) == WithTotal(b[1..], k) {
        var head := if a[0].total == k then [a[0]] else [];
        assert WithTotal(a, k) == head + WithTotal(a[1..], k);
        assert WithTotal(b, k) == head + WithTotal(b[1..], k);
        assert WithTotal(a[1..], k) == WithTotal(a, k)[|head|..];
        assert WithTotal(b[1..], k) == WithTotal(b, k)[|head|..];
      }
      SameGroupsSame(a[1..], b[1..]);
      assert a == [a[0]] + a[1..] && b == [b[0]] + b[1..];
    }
  }

  /** The leader's total, `sorted[0].total`, is the smallest total in the table. */
  function LeaderTotal(ps: seq<Player>): (t: int)
    requires ps != []
    ensures forall i :: 0 <= i < |ps| ==> t <= ps[i].total
    ensures exists i :: 0 <= i < |ps| && ps[i].total == t
  {
    var sorted := SortByTotal(ps);
    assert sorted[0] in multiset(ps);
    forall i | 0 <= i < |ps| ensures sorted[0].total <= ps[i].total {
      assert ps[i] in multiset(sorted);
    }
    sorted[0].total
  }

  /** One line of the panel: `i + 1.`, the name, the total and, below the leader, `(+gap)`. */
  datatype Standing = Standing(rank: nat, name: string, total: int, gap: Option<int>)

  /** The gap printed at position `i` of the sorted list: `(sorted[0].total - player.total) * -1`. */
  function Gap(sorted: seq<Player>, i: nat): (gap: Option<int>)
    requires i < |sorted|
    ensures gap.None? <==> i == 0
    ensures i != 0 ==> gap == Some(sorted[i].total - sorted[0].total)
  {
    if i != 0 then Some((sorted[0].total - sorted[i].total) * -1) else None
  }

  function Standings(ps: seq<Player>): (rows: seq<Standing>)
    ensures |rows| == |ps|
    ensures forall i :: 0 <= i < |rows| ==>
              rows[i].rank == i + 1 &&
              rows[i].name == SortByTotal(ps)[i].name && rows[i].total == SortByTotal(ps)[i].total
    ensures forall i :: 0 <= i < |rows| ==> (rows[i].gap.None? <==> i == 0)
    ensures forall i, j :: 0 <= i < j < |rows| ==> rows[i].total <= rows[j].total
    ensures forall i :: 0 < i < |rows| ==>
              rows[i].gap == Some(rows[i].total - LeaderTotal(ps)) && rows[i].gap.value >= 0
  {
    var sorted := SortByTotal(ps);
    seq(|sorted|, i requires 0 <= i < |sorted| =>
      Standing(i + 1, sorted[i].name, sorted[i].total, Gap(sorted, i)))
  }
}
