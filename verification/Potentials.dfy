/**
  The theory behind the Hungarian algorithm with potentials: feasible potentials, tight
  assignments, the alternating tree grown in one phase, and weak duality.

  As in the solver, rows and columns count from 1; column 0 is where the row being added waits,
  and row 0 means "no row". `p[j]` is the row assigned to column j.
 */
module Potentials {
  import opened Sums

  type Matrix = seq<seq<real>>

  /** The smallest reduced cost seen for a column; `Infinite` before the first. */
  datatype Slack = Infinite | Finite(value: real)

  ghost predicate Square(a: Matrix, n: nat) {
    |a| == n && forall r :: 0 <= r < n ==> |a[r]| == n
  }

  /** The entry of row r and column j, counted from 1; 0 outside the matrix. */
  ghost function At(a: Matrix, r: int, j: int): real {
    if 1 <= r <= |a| && 1 <= j <= |a[r - 1]| then a[r - 1][j - 1] else 0.0
  }

  /** No entry of the first `rows` rows is below the sum of its potentials. */
  ghost predicate Feasible(a: Matrix, n: nat, rows: int, u: seq<real>, v: seq<real>)
  {
    && |u| == |v| == n + 1 && rows <= n
    && forall r, j :: 1 <= r <= rows && 1 <= j <= n ==> u[r] + v[j] <= At(a, r, j)
  }

  /** Every assigned pair, outside column `hole`, has an entry equal to the sum of its potentials. */
  ghost predicate Tight(a: Matrix, n: nat, u: seq<real>, v: seq<real>, p: seq<int>, hole: int)
  {
    && |u| == |v| == |p| == n + 1
    && forall j :: 1 <= j <= n && j != hole && p[j] != 0 ==>
         1 <= p[j] <= n && u[p[j]] + v[j] == At(a, p[j], j)
  }

  /** Apart from column `hole`, `p` holds rows 1..i once each, and `col` says where. */
  ghost predicate Placed(n: nat, i: int, p: seq<int>, col: seq<int>, hole: int) {
    && |p| == |col| == n + 1
    && (forall j :: 0 <= j <= n ==> 0 <= p[j] <= i)
    && (forall r :: 1 <= r <= i && r <= n ==> 0 <= col[r] <= n && col[r] != hole && p[col[r]] == r)
    && (forall j :: 0 <= j <= n && j != hole && p[j] != 0 ==> p[j] <= n && col[p[j]] == j)
  }

  /** Rows 1..i are assigned to distinct columns by a feasible, tight assignment. */
  ghost predicate PhaseDone(a: Matrix, n: nat, i: nat, u: seq<real>, v: seq<real>, p: seq<int>, col: seq<int>) {
    && Square(a, n) && i <= n
    && Placed(n, i, p, col, 0) && Feasible(a, n, i, u, v) && Tight(a, n, u, v, p, 0)
  }

  /** The columns of `order` are columns 0..n holding rows. */
  ghost predicate Holders(n: nat, p: seq<int>, order: seq<int>) {
    |p| == n + 1 && forall k :: 0 <= k < |order| ==> 0 <= order[k] <= n && 1 <= p[order[k]] <= n
  }

  /** An edge of the alternating tree: column j is reached from column w, whose row makes it tight. */
  ghost predicate TreeEdge(a: Matrix, n: nat, u: seq<real>, v: seq<real>, p: seq<int>, w: int, j: int)
    requires |u| == |v| == |p| == n + 1
  {
    && 0 <= w <= n && 1 <= j <= n && 1 <= p[w] <= n
    && u[p[w]] + v[j] == At(a, p[w], j)
  }

  /** `order` lists the used columns as they were scanned; `parent` the position each was reached from. */
  datatype Tree = Tree(order: seq<int>, parent: seq<int>)

  /** The state of the search of one phase, just before column `j0` is scanned. */
  datatype Search = Search(u: seq<real>, v: seq<real>, p: seq<int>, col: seq<int>,
                           way: seq<int>, slack: seq<Slack>, tree: Tree, j0: int)

  /** What holds while phase i searches. */
  ghost predicate Searching(a: Matrix, n: nat, i: nat, s: Search) {
    && Square(a, n) && 1 <= i <= n && |s.way| == |s.slack| == n + 1
    && Placed(n, i, s.p, s.col, -1) && s.p[0] == i
    && Tight(a, n, s.u, s.v, s.p, 0)
    && Feasible(a, n, if s.tree.order == [] then i - 1 else i, s.u, s.v)
    && IsTree(a, n, s.u, s.v, s.p, s.way, s.tree)
    && 0 <= s.j0 <= n && s.j0 !in s.tree.order && (s.tree.order == [] <==> s.j0 == 0)
    && (s.tree.order == [] ==> forall j :: 1 <= j <= n ==> s.slack[j].Infinite?)
    && (s.tree.order != [] ==>
         && s.way[s.j0] in s.tree.order
         && TreeEdge(a, n, s.u, s.v, s.p, s.way[s.j0], s.j0)
         && SlackOf(a, n, s.u, s.v, s.p, s.way, s.slack, s.tree))
  }

  ghost predicate IsTree(a: Matrix, n: nat, u: seq<real>, v: seq<real>, p: seq<int>, way: seq<int>, tree: Tree)
    requires |u| == |v| == |p| == |way| == n + 1
  {
    var order, parent := tree.order, tree.parent;
    && |order| == |parent| && Distinct(order)
    && Holders(n, p, order)
    && (order != [] ==> order[0] == 0)
    && (forall k :: 1 <= k < |order| ==> 0 <= parent[k] < k && way[order[k]] == order[parent[k]])
    && (forall k :: 1 <= k < |order| ==> TreeEdge(a, n, u, v, p, way[order[k]], order[k]))
  }

  /** The slack of every column outside the tree is its smallest reduced cost over the rows of the tree. */
  ghost predicate SlackOf(a: Matrix, n: nat, u: seq<real>, v: seq<real>, p: seq<int>, way: seq<int>,
                          slack: seq<Slack>, tree: Tree)
    requires |u| == |v| == |p| == |way| == |slack| == n + 1
    requires Holders(n, p, tree.order)
  {
    forall j :: 1 <= j <= n && j !in tree.order ==>
      && slack[j].Finite? && way[j] in tree.order
      && slack[j].value == At(a, p[way[j]], j) - u[p[way[j]]] - v[j]
      && forall k :: 0 <= k < |tree.order| ==>
           slack[j].value <= At(a, p[tree.order[k]], j) - u[p[tree.order[k]]] - v[j]
  }

  /** One column scan: column j0 offers its row to every unused column. */
  ghost predicate Relaxed(a: Matrix, n: nat, i0: int, j0: int, u: seq<real>, v: seq<real>, used: set<int>,
                          way: seq<int>, slack: seq<Slack>, way': seq<int>, slack': seq<Slack>)
    requires |u| > i0 >= 0
  {
    && |u| == |v| == |way| == |slack| == |way'| == |slack'| == n + 1
    && forall j :: 1 <= j <= n ==>
         var reduced := At(a, i0, j) - u[i0] - v[j];
         if j !in used && (slack[j].Infinite? || reduced < slack[j].value)
         then slack'[j] == Finite(reduced) && way'[j] == j0
         else slack'[j] == slack[j] && way'[j] == way[j]
  }

  /** `j1` is an unused column of least slack `delta`, if there is an unused column at all. */
  ghost predicate Nearest(n: nat, used: set<int>, slack: seq<Slack>, delta: Slack, j1: int) {
    && |slack| == n + 1
    && (delta.Infinite? ==> forall j :: 1 <= j <= n && slack[j].Finite? ==> j in used)
    && (delta.Finite? ==>
         && 1 <= j1 <= n && j1 !in used && slack[j1] == delta
         && forall j :: 1 <= j <= n && j !in used && slack[j].Finite? ==> slack[j].value >= delta.value)
  }

  /** Potentials and slacks after the tree has been moved by `d`. */
  ghost predicate Shifted(n: nat, i: int, d: real, used: set<int>, col: seq<int>, u: seq<real>, v: seq<real>,
                          slack: seq<Slack>, u': seq<real>, v': seq<real>, slack': seq<Slack>)
    requires |col| == n + 1 && i <= n
  {
    && |u| == |v| == |slack| == |u'| == |v'| == |slack'| == n + 1
    && (forall r :: 1 <= r <= i ==> u'[r] == if col[r] in used then u[r] + d else u[r])
    && (forall j :: 1 <= j <= n ==> v'[j] == if j in used then v[j] - d else v[j])
    && (forall j :: 1 <= j <= n && j !in used && slack[j].Finite? ==> slack'[j] == Finite(slack[j].value - d))
  }

  ghost function Elements(s: seq<int>): set<int> {
    set x | x in s
  }

  /** While row i waits in column 0, some column is free. */
  lemma FreeColumn(n: nat, i: nat, p: seq<int>, col: seq<int>)
    requires 1 <= i <= n && Placed(n, i, p, col, -1) && p[0] == i
    ensures exists j :: 1 <= j <= n && p[j] == 0
  {
    if forall j :: 1 <= j <= n ==> p[j] != 0 {
      var rows := seq(n, k requires 0 <= k < n => p[k + 1] - 1);
      forall k | 0 <= k < n ensures 0 <= rows[k] < i - 1 && col[rows[k] + 1] == k + 1 {
        assert p[k + 1] != 0 && col[p[0]] == 0;
      }
      Pigeonhole(rows, i - 1);
    }
  }

  /** Columns holding different rows of 1..i are at most i. */
  lemma TreeSpan(n: nat, i: nat, p: seq<int>, col: seq<int>, order: seq<int>)
    requires 1 <= i <= n && Placed(n, i, p, col, -1) && Distinct(order)
    requires forall k :: 0 <= k < |order| ==> 0 <= order[k] <= n && 1 <= p[order[k]] <= n
    ensures |order| <= i
  {
    var rows := seq(|order|, k requires 0 <= k < |order| => p[order[k]] - 1);
    forall k | 0 <= k < |order| ensures 0 <= rows[k] < i && col[rows[k] + 1] == order[k] {
      assert p[order[k]] != 0;
    }
    Pigeonhole(rows, i);
  }

  /** The search starts with row i waiting in column 0 and an empty tree. */
  lemma SearchStarts(a: Matrix, n: nat, i: nat, u: seq<real>, v: seq<real>, p: seq<int>, col: seq<int>,
                     way: seq<int>, slack: seq<Slack>)
    returns (s: Search)
    requires 1 <= i <= n && PhaseDone(a, n, i - 1, u, v, p, col) && |way| == |slack| == n + 1
    requires forall j :: 1 <= j <= n ==> slack[j].Infinite?
    ensures |p| == n + 1 && s.u == u && s.v == v && s.p == p[0 := i] && s.way == way && s.slack == slack
    ensures s.tree.order == [] && s.j0 == 0 && Searching(a, n, i, s)
  {
    s := Search(u, v, p[0 := i], col[i := 0], way, slack, Tree([], []), 0);
  }

  /** Before the first phase nothing is assigned, and any matrix will do. */
  lemma NothingPlaced(a: Matrix, n: nat)
    requires Square(a, n)
    ensures PhaseDone(a, n, 0, seq(n + 1, _ => 0.0), seq(n + 1, _ => 0.0), seq(n + 1, _ => 0), seq(n + 1, _ => 0))
  {
  }

  /** A search stays within the matrix, and its tree spans at most i columns. */
  lemma SearchBounds(a: Matrix, n: nat, i: nat, s: Search)
    requires Searching(a, n, i, s)
    ensures |s.tree.order| <= i <= n
    ensures |s.p| == n + 1 && 0 <= s.j0 <= n && 0 <= s.p[s.j0] <= n
  {
    TreeSpan(n, i, s.p, s.col, s.tree.order);
  }

  /** After a scan every unused column has a finite slack, attained in the grown tree and nowhere undercut. */
  lemma ScannedSlack(a: Matrix, n: nat, u: seq<real>, v: seq<real>, p: seq<int>, tree: Tree, j0: int,
                     way: seq<int>, slack: seq<Slack>, way1: seq<int>, slack1: seq<Slack>, grown: Tree)
    requires |u| == |v| == |p| == |way| == |slack| == n + 1
    requires grown.order == tree.order + [j0]
    requires Holders(n, p, tree.order) && Holders(n, p, grown.order)
    requires tree.order == [] ==> forall j :: 1 <= j <= n ==> slack[j].Infinite?
    requires tree.order != [] ==> SlackOf(a, n, u, v, p, way, slack, tree)
    requires 0 <= j0 <= n && 1 <= p[j0] <= n
    requires Relaxed(a, n, p[j0], j0, u, v, Elements(grown.order), way, slack, way1, slack1)
    ensures SlackOf(a, n, u, v, p, way1, slack1, grown)
  {
    hide At;
    var order := grown.order;
    forall j | 1 <= j <= n && j !in order
      ensures slack1[j].Finite? && way1[j] in order
      ensures slack1[j].value == At(a, p[way1[j]], j) - u[p[way1[j]]] - v[j]
      ensures forall k :: 0 <= k < |order| ==>
        slack1[j].value <= At(a, p[order[k]], j) - u[p[order[k]]] - v[j]
    {
      assert j !in tree.order && j !in Elements(order) && j0 == order[|order| - 1];
    }
  }

  /** From the second round on the shift is not negative. */
  lemma ShiftSign(a: Matrix, n: nat, i: nat, u: seq<real>, v: seq<real>, p: seq<int>, way: seq<int>,
                  slack: seq<Slack>, grown: Tree, d: real, j1: int)
    requires |u| == |v| == |way| == |slack| == n + 1 && Holders(n, p, grown.order)
    requires forall j :: 0 <= j <= n ==> 0 <= p[j] <= i
    requires Feasible(a, n, i, u, v) && SlackOf(a, n, u, v, p, way, slack, grown)
    requires Nearest(n, Elements(grown.order), slack, Finite(d), j1)
    ensures d >= 0.0
  {
    hide At;
    assert j1 !in grown.order && slack[j1].value == d;
  }

  /** The shift keeps tightness and feasibility, and makes the new row feasible from the first round on. */
  lemma ShiftKeepsPotentials(a: Matrix, n: nat, i: nat, u: seq<real>, v: seq<real>, p: seq<int>, col: seq<int>,
                             way: seq<int>, slack: seq<Slack>, grown: Tree, d: real, j1: int,
                             u': seq<real>, v': seq<real>, slack': seq<Slack>)
    requires |u| == |v| == |way| == |slack| == n + 1 && 1 <= i <= n
    requires Placed(n, i, p, col, -1) && p[0] == i && Holders(n, p, grown.order) && 0 in grown.order
    requires Tight(a, n, u, v, p, 0) && Feasible(a, n, i - 1, u, v)
    requires grown.order != [0] ==> Feasible(a, n, i, u, v)
    requires SlackOf(a, n, u, v, p, way, slack, grown)
    requires Nearest(n, Elements(grown.order), slack, Finite(d), j1)
    requires Shifted(n, i, d, Elements(grown.order), col, u, v, slack, u', v', slack')
    ensures Tight(a, n, u', v', p, 0) && Feasible(a, n, i, u', v')
  {
    hide At;
    var order, used := grown.order, Elements(grown.order);
    forall r, j | 1 <= r <= i && 1 <= j <= n
      ensures u'[r] + v'[j] <= At(a, r, j)
    {
      if col[r] in used {
        var k :| 0 <= k < |order| && order[k] == col[r];
        if j !in used {
          assert slack[j].value <= At(a, p[order[k]], j) - u[p[order[k]]] - v[j];
        } else {
          assert order != [0];
        }
      } else {
        assert r != i;
        if j in used {
          ShiftSign(a, n, i, u, v, p, way, slack, grown, d, j1);
        }
      }
    }
  }

  /** The shift keeps an edge between two columns of the tree tight. */
  lemma ShiftKeepsEdge(a: Matrix, n: nat, i: nat, u: seq<real>, v: seq<real>, p: seq<int>, col: seq<int>,
                       used: set<int>, d: real, slack: seq<Slack>,
                       u': seq<real>, v': seq<real>, slack': seq<Slack>, w: int, j: int)
    requires |u| == |v| == n + 1 && i <= n && Placed(n, i, p, col, -1)
    requires Shifted(n, i, d, used, col, u, v, slack, u', v', slack')
    requires TreeEdge(a, n, u, v, p, w, j) && w in used && j in used
    ensures TreeEdge(a, n, u', v', p, w, j)
  {
    assert col[p[w]] == w;
  }

  /** The shift moves all slacks along, and makes the edge to the nearest column tight. */
  lemma ShiftKeepsSlack(a: Matrix, n: nat, i: nat, u: seq<real>, v: seq<real>, p: seq<int>, col: seq<int>,
                        way: seq<int>, slack: seq<Slack>, grown: Tree, d: real, j1: int,
                        u': seq<real>, v': seq<real>, slack': seq<Slack>)
    requires |u| == |v| == |way| == |slack| == n + 1 && 1 <= i <= n
    requires Placed(n, i, p, col, -1) && Holders(n, p, grown.order)
    requires SlackOf(a, n, u, v, p, way, slack, grown)
    requires Nearest(n, Elements(grown.order), slack, Finite(d), j1)
    requires Shifted(n, i, d, Elements(grown.order), col, u, v, slack, u', v', slack')
    ensures SlackOf(a, n, u', v', p, way, slack', grown)
    ensures way[j1] in grown.order && TreeEdge(a, n, u', v', p, way[j1], j1)
  {
    hide At;
    var order := grown.order;
    forall k | 0 <= k < |order|
      ensures u'[p[order[k]]] == u[p[order[k]]] + d
    {
      assert col[p[order[k]]] == order[k];
    }
    forall j | 1 <= j <= n && j !in order
      ensures slack'[j].Finite? && way[j] in order
      ensures slack'[j].value == At(a, p[way[j]], j) - u'[p[way[j]]] - v'[j]
      ensures forall k :: 0 <= k < |order| ==>
        slack'[j].value <= At(a, p[order[k]], j) - u'[p[order[k]]] - v'[j]
    {
      assert j !in Elements(order) && way[j] in order;
    }
  }

  /** The tree grows by column j0 and keeps its edges. */
  lemma TreeGrows(a: Matrix, n: nat, i: nat, s: Search, used: set<int>, d: real, slack1: seq<Slack>,
      way1: seq<int>, t: Search)
    requires 1 <= i <= n && |s.way| == |s.u| == |s.v| == |way1| == n + 1 && Placed(n, i, s.p, s.col, -1)
    requires IsTree(a, n, s.u, s.v, s.p, s.way, s.tree) && 0 <= s.j0 <= n && 1 <= s.p[s.j0] <= n
    requires s.j0 !in s.tree.order && (s.tree.order == [] <==> s.j0 == 0)
    requires s.tree.order != [] ==> TreeEdge(a, n, s.u, s.v, s.p, s.way[s.j0], s.j0)
    requires Grown(s, t.tree)
    requires used == Elements(t.tree.order) && t.p == s.p
    requires forall j :: 0 <= j <= n && j in used ==> way1[j] == s.way[j]
    requires Shifted(n, i, d, used, s.col, s.u, s.v, slack1, t.u, t.v, t.slack)
    ensures IsTree(a, n, t.u, t.v, t.p, way1, t.tree)
  {
    hide At;
    var order, parent := t.tree.order, t.tree.parent;
    forall k | 1 <= k < |order|
      ensures 0 <= parent[k] < k && way1[order[k]] == order[parent[k]]
      ensures TreeEdge(a, n, t.u, t.v, t.p, way1[order[k]], order[k])
    {
      assert k < |s.tree.order| ==> order[k] == s.tree.order[k] && parent[k] == s.tree.parent[k];
      assert order[k] in used && order[parent[k]] in used;
      ShiftKeepsEdge(a, n, i, s.u, s.v, s.p, s.col, used, d, slack1, t.u, t.v, t.slack, s.way[order[k]], order[k]);
    }
  }

  /** The tree with the current column added. */
  lemma GrowTree(a: Matrix, n: nat, i: nat, s: Search) returns (grown: Tree)
    requires Searching(a, n, i, s) && 1 <= s.p[s.j0] <= n
    ensures Grown(s, grown) && 0 in grown.order && grown.order == s.tree.order + [s.j0]
    ensures 1 <= i <= n && Placed(n, i, s.p, s.col, -1) && s.p[0] == i
    ensures forall j :: j in grown.order ==> 0 <= j <= n && s.p[j] != 0
  {
    var k := 0;
    if s.tree.order != [] {
      k :| 0 <= k < |s.tree.order| && s.tree.order[k] == s.way[s.j0];
    }
    grown := Tree(s.tree.order + [s.j0], s.tree.parent + [k]);
    assert grown.order[0] == 0;
  }

  ghost predicate Grown(s: Search, grown: Tree)
    requires |s.way| > s.j0 >= 0
  {
    && grown.order == s.tree.order + [s.j0] && |grown.parent| == |grown.order|
    && grown.parent[..|s.tree.order|] == s.tree.parent
    && (s.tree.order != [] ==>
         var k := grown.parent[|s.tree.order|];
         0 <= k < |s.tree.order| && s.tree.order[k] == s.way[s.j0])
  }

  /** State s after its column has been scanned, giving `way1` and `slack1`, and moved by `d`. */
  ghost predicate Round(a: Matrix, n: nat, i: nat, s: Search, slack1: seq<Slack>, d: real, t: Search) {
    && Searching(a, n, i, s) && 1 <= s.p[s.j0] <= n
    && t.p == s.p && t.col == s.col
    && Grown(s, t.tree)
    && Relaxed(a, n, s.p[s.j0], s.j0, s.u, s.v, Elements(t.tree.order), s.way, s.slack, t.way, slack1)
    && t.way[0] == s.way[0]
    && Nearest(n, Elements(t.tree.order), slack1, Finite(d), t.j0)
    && Shifted(n, i, d, Elements(t.tree.order), s.col, s.u, s.v, slack1, t.u, t.v, t.slack)
  }

  /** The columns of the grown tree and the next column are where they should be. */
  lemma RoundBounds(a: Matrix, n: nat, i: nat, s: Search, slack1: seq<Slack>, d: real, t: Search)
    requires Round(a, n, i, s, slack1, d, t)
    ensures Holders(n, s.p, s.tree.order) && Holders(n, s.p, t.tree.order) && t.tree.order[0] == 0
    ensures 1 <= t.j0 <= n && t.j0 !in t.tree.order
  {
    hide At;
    hide Placed, Tight, Feasible, SlackOf, TreeEdge, Relaxed, Shifted;
    assert t.j0 !in Elements(t.tree.order);
  }

  /** One round of the search, scan then shift, leads to the next state of the search. */
  lemma SearchRound(a: Matrix, n: nat, i: nat, s: Search, slack1: seq<Slack>, d: real, t: Search)
    requires Round(a, n, i, s, slack1, d, t)
    ensures Searching(a, n, i, t)
  {
    hide At;
    RoundBounds(a, n, i, s, slack1, d, t);
    hide Nearest, Placed, SlackOf, TreeEdge, Holders, IsTree;
    var order, used := t.tree.order, Elements(t.tree.order);
    assert |s.u| == |s.v| == |s.p| == |t.way| == |slack1| == |t.u| == |t.v| == |t.slack| == n + 1;
    assert forall j :: 0 <= j <= n && j in used ==> t.way[j] == s.way[j];
    assert Feasible(a, n, i - 1, s.u, s.v) && (order != [0] ==> Feasible(a, n, i, s.u, s.v));
    hide Feasible, Tight, Relaxed, Shifted;
    TreeGrows(a, n, i, s, used, d, slack1, t.way, t);
    ScannedSlack(a, n, s.u, s.v, s.p, s.tree, s.j0, s.way, s.slack, t.way, slack1, t.tree);
    ShiftKeepsPotentials(a, n, i, s.u, s.v, s.p, s.col, t.way, slack1, t.tree, d, t.j0, t.u, t.v, t.slack);
    ShiftKeepsSlack(a, n, i, s.u, s.v, s.p, s.col, t.way, slack1, t.tree, d, t.j0, t.u, t.v, t.slack);
  }

  // ---------- augmenting ----------

  /**
    The walk back along `way`: column `hole` is to be overwritten. Row p0 is the assignment before
    the walk; up to position m of the tree, where the next column stands, nothing has changed yet.
   */
  ghost predicate Walking(a: Matrix, n: nat, i: nat, u: seq<real>, v: seq<real>, p0: seq<int>, way: seq<int>,
                          tree: Tree, p: seq<int>, col: seq<int>, hole: int, m: int)
  {
    && |u| == |v| == |way| == |p0| == n + 1 && 1 <= i <= n && 0 <= hole <= n
    && IsTree(a, n, u, v, p0, way, tree)
    && Placed(n, i, p, col, hole) && Tight(a, n, u, v, p, hole)
    && (hole != 0 ==>
         && 0 <= m < |tree.order| && way[hole] == tree.order[m]
         && TreeEdge(a, n, u, v, p0, way[hole], hole)
         && forall k :: 0 <= k <= m ==> tree.order[k] != hole && p[tree.order[k]] == p0[tree.order[k]])
  }

  /** A search that has reached a free column can start to walk back. */
  lemma WalkStarts(a: Matrix, n: nat, i: nat, s: Search) returns (m: int)
    requires Searching(a, n, i, s) && s.p[s.j0] == 0
    ensures Walking(a, n, i, s.u, s.v, s.p, s.way, s.tree, s.p, s.col, s.j0, m)
    ensures 0 <= m < |s.tree.order| && 0 <= s.j0 <= n && |s.way| == |s.p| == n + 1
    ensures Square(a, n) && Feasible(a, n, i, s.u, s.v)
  {
    m :| 0 <= m < |s.tree.order| && s.tree.order[m] == s.way[s.j0];
  }

  /** One step of the walk: the hole takes the row of its predecessor, which becomes the hole. */
  lemma WalkStep(a: Matrix, n: nat, i: nat, u: seq<real>, v: seq<real>, p0: seq<int>, way: seq<int>, tree: Tree,
                 p: seq<int>, col: seq<int>, hole: int, m: int)
    returns (m': int)
    requires Walking(a, n, i, u, v, p0, way, tree, p, col, hole, m) && hole != 0
    ensures |p| == |col| == n + 1
    ensures var j1 := way[hole];
      0 <= j1 <= n && 1 <= p[j1] <= n &&
      Walking(a, n, i, u, v, p0, way, tree, p[hole := p[j1]], col[p[j1] := hole], j1, m')
    ensures -1 <= m' < m && (way[hole] != 0 ==> m' >= 0)
  {
    m' := if m == 0 then -1 else tree.parent[m];
    var j1 := way[hole];
    assert j1 == tree.order[m] && col[p[j1]] == j1;
    assert m == 0 ==> j1 == 0;
    assert m > 0 ==> j1 != 0;
  }

  /** When the hole is column 0 again, the phase is done. */
  lemma WalkEnds(a: Matrix, n: nat, i: nat, u: seq<real>, v: seq<real>, p0: seq<int>, way: seq<int>, tree: Tree,
                 p: seq<int>, col: seq<int>, m: int)
    requires Walking(a, n, i, u, v, p0, way, tree, p, col, 0, m)
    requires Square(a, n) && Feasible(a, n, i, u, v)
    ensures PhaseDone(a, n, i, u, v, p, col)
  {
  }

  // ---------- weak duality ----------

  /** What column c pays when row s[c] is assigned to it; here both count from 0. */
  ghost function Picked(a: Matrix, n: nat, s: seq<int>): (e: seq<real>)
    requires Square(a, n) && Permutation(n, s)
  {
    seq(n, c requires 0 <= c < n => a[s[c]][c])
  }

  /** The assignment, counted from 0. */
  ghost function Rows(n: nat, p: seq<int>): (s: seq<int>)
    requires |p| == n + 1
  {
    seq(n, c requires 0 <= c < n => p[c + 1] - 1)
  }

  /** Once all n rows are placed, every column has one. */
  lemma AllPlaced(n: nat, p: seq<int>, col: seq<int>)
    requires Placed(n, n, p, col, 0)
    ensures Permutation(n, Rows(n, p))
  {
    var cols := Rows(n, col);
    forall r, q | 0 <= r < q < n ensures cols[r] != cols[q] {
      assert p[col[r + 1]] == r + 1 && p[col[q + 1]] == q + 1;
    }
    forall j | 1 <= j <= n ensures p[j] != 0 && col[p[j]] == j {
      PermutationOnto(n, cols, j - 1);
      var r :| 0 <= r < n && cols[r] == j - 1;
      assert p[col[r + 1]] == r + 1;
    }
  }

  /** Feasible potentials bound every permutation from below; a tight one attains the bound. */
  lemma WeakDuality(a: Matrix, n: nat, u: seq<real>, v: seq<real>, s: seq<int>)
    requires Square(a, n) && Feasible(a, n, n, u, v) && Permutation(n, s)
    ensures Sum(u[1..]) + Sum(v[1..]) <= Sum(Picked(a, n, s))
    ensures (forall c :: 0 <= c < n ==> u[s[c] + 1] + v[c + 1] == a[s[c]][c]) ==>
      Sum(u[1..]) + Sum(v[1..]) == Sum(Picked(a, n, s))
  {
    var reordered := Reorder(u[1..], s);
    var bound := seq(n, c requires 0 <= c < n => reordered[c] + v[1..][c]);
    SumReorder(u[1..], s);
    SumAdd(reordered, v[1..], bound);
    forall c | 0 <= c < n ensures bound[c] <= Picked(a, n, s)[c] {
      assert u[s[c] + 1] + v[c + 1] <= At(a, s[c] + 1, c + 1);
    }
    SumBelow(bound, Picked(a, n, s));
    if forall c :: 0 <= c < n ==> u[s[c] + 1] + v[c + 1] == a[s[c]][c] {
      assert bound == Picked(a, n, s);
    }
  }

  /** When the last phase is done, the assignment is a cheapest permutation. */
  lemma LastPhaseIsOptimal(a: Matrix, n: nat, u: seq<real>, v: seq<real>, p: seq<int>, col: seq<int>)
    requires PhaseDone(a, n, n, u, v, p, col)
    ensures Permutation(n, Rows(n, p))
    ensures forall t :: Permutation(n, t) ==> Sum(Picked(a, n, Rows(n, p))) <= Sum(Picked(a, n, t))
  {
    AllPlaced(n, p, col);
    var s := Rows(n, p);
    forall c | 0 <= c < n ensures u[s[c] + 1] + v[c + 1] == a[s[c]][c] {
      assert p[c + 1] == s[c] + 1 && u[p[c + 1]] + v[c + 1] == At(a, p[c + 1], c + 1);
    }
    WeakDuality(a, n, u, v, s);
    forall t | Permutation(n, t)
      ensures Sum(Picked(a, n, s)) <= Sum(Picked(a, n, t))
    {
      WeakDuality(a, n, u, v, t);
    }
  }
}
