/**
 * The maximum bipartite matching used by gmock's unordered matchers: one
 * depth-first search per left node over the residual graph, flipping the links
 * along the first augmenting path found.
 */
module BipartiteMatching {
  import opened Ranges

  /** static_cast<size_t>(-1): the node carries no flow. */
  const UNUSED: int := -1

  /** The graph: which element (left) is accepted by which matcher (right). */
  datatype MatchMatrix = MatchMatrix(lhsSize: nat, rhsSize: nat, matched: set<(int, int)>) {
    predicate HasEdge(ilhs: int, irhs: int) {
      (ilhs, irhs) in matched
    }
  }

  // ------------------------------------------------------------------------
  // Matchings
  // ------------------------------------------------------------------------

  ghost predicate IsMatching(g: MatchMatrix, m: set<(int, int)>) {
    && (forall e <- m :: 0 <= e.0 < g.lhsSize && 0 <= e.1 < g.rhsSize && g.HasEdge(e.0, e.1))
    && (forall e <- m, f <- m :: e.0 == f.0 || e.1 == f.1 ==> e == f)
  }

  ghost predicate CoversRight(g: MatchMatrix, m: set<(int, int)>) {
    forall r :: 0 <= r < g.rhsSize ==> HasPartner(m, r)
  }

  ghost predicate HasPartner(m: set<(int, int)>, r: int) {
    exists e <- m :: e.1 == r
  }

  // ------------------------------------------------------------------------
  // Links
  // ------------------------------------------------------------------------

  /**
   * left and right are mutually referent along edges of g. `hole` is a right
   * node whose back link is stale (UNUSED when there is none).
   */
  ghost predicate Linked(g: MatchMatrix, left: seq<int>, right: seq<int>, hole: int) {
    && |left| == g.lhsSize && |right| == g.rhsSize
    && (forall l :: 0 <= l < |left| ==>
          left[l] == UNUSED
          || (0 <= left[l] < |right| && g.HasEdge(l, left[l]) && right[left[l]] == l))
    && (forall r :: 0 <= r < |right| ==>
          right[r] == UNUSED
          || (0 <= right[r] < |left| && (r != hole ==> left[right[r]] == r)))
  }

  /** The links of the used nodes among the first n left nodes, in node order. */
  ghost function Flow(left: seq<int>, n: nat): seq<(int, int)>
    requires n <= |left|
  {
    if n == 0 then []
    else Flow(left, n - 1) + if left[n - 1] == UNUSED then [] else [(n - 1, left[n - 1])]
  }

  ghost function Edges(pairs: seq<(int, int)>): set<(int, int)> {
    set e <- pairs
  }

  ghost function Rights(m: set<(int, int)>): set<int> {
    set e <- m :: e.1
  }

  ghost function Unseen(seen: seq<bool>): set<int> {
    set r | 0 <= r < |seen| && !seen[r]
  }

  /**
   * p lists the right nodes of a path of the residual graph from left node l to
   * the sink that repeats no node and avoids the seen ones.
   */
  ghost predicate Augmenting(g: MatchMatrix, right: seq<int>, seen: seq<bool>, l: int, p: seq<int>)
    decreases |p|
  {
    && |right| == |seen|
    && p != [] && 0 <= p[0] < |seen| && !seen[p[0]] && g.HasEdge(l, p[0])
    && if right[p[0]] == UNUSED
       then |p| == 1
       else Augmenting(g, right, seen[p[0] := true], right[p[0]], p[1..])
  }

  /** The links after pushing one unit of flow from l along p. */
  ghost function Pushed(left: seq<int>, right: seq<int>, l: int, p: seq<int>): (links: (seq<int>, seq<int>))
    requires 0 <= l < |left|
    requires p != [] && forall k :: 0 <= k < |p| ==> 0 <= p[k] < |right|
    requires forall r :: 0 <= r < |right| ==> right[r] == UNUSED || 0 <= right[r] < |left|
    ensures |links.0| == |left| && |links.1| == |right|
    decreases |p|
  {
    var (left', right') :=
      if right[p[0]] == UNUSED || |p| == 1 then (left, right)
      else Pushed(left, right, right[p[0]], p[1..]);
    (left'[l := p[0]], right'[p[0] := l])
  }

  ghost predicate CanAugment(g: MatchMatrix, right: seq<int>, seen: seq<bool>, l: int) {
    exists p :: Augmenting(g, right, seen, l, p)
  }

  /** (left', right') is (left, right) with one unit of flow pushed from l along the augmenting path p. */
  ghost predicate PushedAlong(
    g: MatchMatrix, left: seq<int>, right: seq<int>, seen: seq<bool>, l: int,
    p: seq<int>, left': seq<int>, right': seq<int>)
  {
    && 0 <= l < |left|
    && Augmenting(g, right, seen, l, p)
    && (forall k :: 0 <= k < |p| ==> 0 <= p[k] < |right|)
    && (forall r :: 0 <= r < |right| ==> right[r] == UNUSED || 0 <= right[r] < |left|)
    && (left', right') == Pushed(left, right, l, p)
  }

  /** No search that starts at l can add anything to `after`: it is closed under residual edges. */
  ghost predicate Exhausted(g: MatchMatrix, right: seq<int>, before: seq<bool>, after: seq<bool>, l: int) {
    && |right| == |before| == |after| == g.rhsSize
    && (forall r :: 0 <= r < g.rhsSize && g.HasEdge(l, r) ==> after[r])
    && ClosedSince(g, right, before, after)
  }

  ghost predicate ClosedSince(g: MatchMatrix, right: seq<int>, before: seq<bool>, after: seq<bool>)
    requires |right| == |before| == |after| == g.rhsSize
  {
    forall r :: 0 <= r < g.rhsSize && after[r] && !before[r] ==>
      right[r] != UNUSED && forall r' :: 0 <= r' < g.rhsSize && g.HasEdge(right[r], r') ==> after[r']
  }

  lemma {:induction false} AugmentingInRange(g: MatchMatrix, right: seq<int>, seen: seq<bool>, l: int, p: seq<int>)
    requires Augmenting(g, right, seen, l, p)
    ensures forall k :: 0 <= k < |p| ==> 0 <= p[k] < |right| && !seen[p[k]]
    decreases |p|
  {
    if right[p[0]] != UNUSED {
      AugmentingInRange(g, right, seen[p[0] := true], right[p[0]], p[1..]);
      assert forall k :: 0 < k < |p| ==> p[k] == p[1..][k - 1];
    }
  }

  lemma {:induction false} AugmentingMonotone(
    g: MatchMatrix, right: seq<int>, seen: seq<bool>, seen': seq<bool>, l: int, p: seq<int>)
    requires |seen| == |seen'| && forall r :: 0 <= r < |seen| && seen[r] ==> seen'[r]
    requires Augmenting(g, right, seen', l, p)
    ensures Augmenting(g, right, seen, l, p)
    decreases |p|
  {
    if right[p[0]] != UNUSED {
      AugmentingMonotone(g, right, seen[p[0] := true], seen'[p[0] := true], right[p[0]], p[1..]);
    }
  }

  /** A failed search is a proof that no augmenting path leaves l. */
  lemma {:induction false} ExhaustedHasNoPath(
    g: MatchMatrix, right: seq<int>, before: seq<bool>, avoid: seq<bool>, after: seq<bool>, l: int, p: seq<int>)
    requires Exhausted(g, right, before, after, l)
    requires |avoid| == |before| && forall r :: 0 <= r < |before| && before[r] ==> avoid[r]
    ensures !Augmenting(g, right, avoid, l, p)
    decreases |p|
  {
    if Augmenting(g, right, avoid, l, p) {
      var r := p[0];
      assert after[r] && !before[r];
      ExhaustedHasNoPath(g, right, before, avoid[r := true], after, right[r], p[1..]);
    }
  }

  // ------------------------------------------------------------------------
  // One augmentation
  // ------------------------------------------------------------------------

  /** Linking l to r repairs the stale back link of r and leaves l's former partner stale. */
  lemma LinkRepairs(g: MatchMatrix, left: seq<int>, right: seq<int>, l: int, r: int)
    requires Linked(g, left, right, r)
    requires 0 <= l < |left| && 0 <= r < |right| && g.HasEdge(l, r)
    requires forall i :: 0 <= i < |left| ==> left[i] != r
    ensures Linked(g, left[l := r], right[r := l], left[l])
  {
  }

  /**
   * What pushing flow from l does to the links: mutual reference holds except
   * at l's former partner, only l turns from unused to used, and left nodes whose
   * partner was already seen keep it.
   */
  ghost predicate Relinked(
    g: MatchMatrix, left: seq<int>, right: seq<int>, seen: seq<bool>, l: int, left': seq<int>, right': seq<int>)
    requires |left| == |left'| && |right| == |seen| && 0 <= l < |left|
    requires forall i :: 0 <= i < |left| ==> left[i] == UNUSED || 0 <= left[i] < |right|
  {
    && Linked(g, left', right', left[l])
    && (forall i :: 0 <= i < |left| ==> (left'[i] == UNUSED <==> left[i] == UNUSED && i != l))
    && (forall i :: 0 <= i < |left| && i != l && left[i] != UNUSED && seen[left[i]] ==> left'[i] == left[i])
  }

  lemma RelinkedStep(
    g: MatchMatrix, left: seq<int>, right: seq<int>, seen: seq<bool>, l: int, r: int,
    left1: seq<int>, right1: seq<int>)
    requires Linked(g, left, right, UNUSED) && |seen| == |right| && |left1| == |left|
    requires 0 <= l < |left| && (left[l] == UNUSED || seen[left[l]])
    requires 0 <= r < |right| && !seen[r] && g.HasEdge(l, r)
    requires 0 <= right[r] < |left|
    requires Relinked(g, left, right, seen[r := true], right[r], left1, right1)
    requires left1[right[r]] != r && right1[r] == right[r]
    ensures Relinked(g, left, right, seen, l, left1[l := r], right1[r := l])
  {
    assert left[right[r]] == r && l != right[r];
    assert left1[l] == left[l];
    LinkRepairs(g, left1, right1, l, r);
  }

  lemma {:induction false} PushedLinks(
    g: MatchMatrix, left: seq<int>, right: seq<int>, seen: seq<bool>, l: int, p: seq<int>)
    requires Linked(g, left, right, UNUSED)
    requires 0 <= l < |left| && Augmenting(g, right, seen, l, p)
    requires left[l] == UNUSED || seen[left[l]]
    requires forall k :: 0 <= k < |p| ==> 0 <= p[k] < |right|
    ensures var (left', right') := Pushed(left, right, l, p);
            && Relinked(g, left, right, seen, l, left', right')
            && left'[l] == p[0]
            && (forall r :: 0 <= r < |right| && r !in p ==> right'[r] == right[r])
    decreases |p|
  {
    var r := p[0];
    if right[r] == UNUSED {
      LinkRepairs(g, left, right, l, r);
    } else {
      var rest := p[1..];
      AugmentingInRange(g, right, seen[r := true], right[r], rest);
      PushedLinks(g, left, right, seen[r := true], right[r], rest);
      var (left1, right1) := Pushed(left, right, right[r], rest);
      RelinkedStep(g, left, right, seen, l, r, left1, right1);
      assert p == [r] + rest;
    }
  }

  // ------------------------------------------------------------------------
  // Optimality
  // ------------------------------------------------------------------------

  /**
   * The residual-closed set left behind by failed searches: every node of it is
   * matched, and its partners have no edge out of it.
   */
  ghost predicate Closed(g: MatchMatrix, right: seq<int>, dead: set<int>)
    requires |right| == g.rhsSize
  {
    forall r <- dead ::
      0 <= r < g.rhsSize && right[r] != UNUSED
      && forall r' :: 0 <= r' < g.rhsSize && g.HasEdge(right[r], r') ==> r' in dead
  }

  ghost predicate DeadEnd(g: MatchMatrix, l: int, dead: set<int>) {
    forall r :: 0 <= r < g.rhsSize && g.HasEdge(l, r) ==> r in dead
  }

  /** No later augmentation can cross into a closed set. */
  lemma {:induction false} AugmentingAvoidsClosed(
    g: MatchMatrix, right: seq<int>, seen: seq<bool>, l: int, p: seq<int>, dead: set<int>)
    requires |right| == g.rhsSize && Closed(g, right, dead)
    requires Augmenting(g, right, seen, l, p)
    ensures forall r <- p :: r !in dead
    decreases |p|
  {
    var r := p[0];
    assert p == [r] + p[1..];
    if right[r] != UNUSED {
      AugmentingAvoidsClosed(g, right, seen[r := true], right[r], p[1..], dead);
      assert p[1] in p[1..] && g.HasEdge(right[r], p[1]);
    }
  }

  lemma {:induction false} InjectiveImage(m: set<(int, int)>, n: set<(int, int)>, f: map<(int, int), (int, int)>)
    requires m <= f.Keys && forall e <- m :: f[e] in n
    requires forall e <- m, e' <- m :: f[e] == f[e'] ==> e == e'
    ensures |m| <= |n|
    decreases |m|
  {
    if e :| e in m {
      InjectiveImage(m - {e}, n - {f[e]}, f);
    }
  }

  ghost predicate StrictlyOrdered(s: seq<(int, int)>) {
    forall i, j :: 0 <= i < j < |s| ==> s[i].0 < s[j].0
  }

  lemma {:induction false} FlowMembers(left: seq<int>, n: nat)
    requires n <= |left|
    ensures forall e :: e in Flow(left, n) <==> 0 <= e.0 < n && left[e.0] != UNUSED && e.1 == left[e.0]
  {
    if n == 0 {
    } else {
      FlowMembers(left, n - 1);
    }
  }

  lemma OrderedSnoc(s: seq<(int, int)>, e: (int, int))
    requires StrictlyOrdered(s) && forall i :: 0 <= i < |s| ==> s[i].0 < e.0
    ensures StrictlyOrdered(s + [e])
  {
  }

  lemma {:induction false} FlowOrdered(left: seq<int>, n: nat)
    requires n <= |left|
    ensures StrictlyOrdered(Flow(left, n))
  {
    if n == 0 {
    } else {
      FlowOrdered(left, n - 1);
      FlowMembers(left, n - 1);
      var s := Flow(left, n - 1);
      assert forall i :: 0 <= i < |s| ==> s[i] in s;
      if left[n - 1] != UNUSED {
        OrderedSnoc(s, (n - 1, left[n - 1]));
      }
      hide StrictlyOrdered;
    }
  }

  lemma {:induction false} OrderedEdgesCount(s: seq<(int, int)>)
    requires StrictlyOrdered(s)
    ensures |Edges(s)| == |s|
  {
    if s == [] {
    } else {
      var init, last := s[..|s| - 1], s[|s| - 1];
      OrderedEdgesCount(init);
      assert s == init + [last];
      assert Edges(s) == Edges(init) + {last};
    }
  }

  lemma FlowIsMatching(g: MatchMatrix, left: seq<int>, right: seq<int>)
    requires Linked(g, left, right, UNUSED)
    ensures IsMatching(g, Edges(Flow(left, |left|)))
  {
    FlowMembers(left, |left|);
  }

  /** Weak duality: when every unused left node is a dead end, no matching has more edges than the flow. */
  lemma FlowIsMaximum(g: MatchMatrix, left: seq<int>, right: seq<int>, dead: set<int>, m: set<(int, int)>)
    requires Linked(g, left, right, UNUSED) && Closed(g, right, dead)
    requires forall l :: 0 <= l < g.lhsSize && left[l] == UNUSED ==> DeadEnd(g, l, dead)
    requires IsMatching(g, m)
    ensures |m| <= |Flow(left, |left|)|
  {
    var flow := Edges(Flow(left, |left|));
    FlowOrdered(left, |left|);
    OrderedEdgesCount(Flow(left, |left|));
    assert forall e <- m :: 0 <= e.0 < |left| && 0 <= e.1 < |right|;
    hide Linked, Closed, DeadEnd, Flow, Edges;
    var f := map e <- m :: Replacement(left, right, dead, e);
    forall e <- m ensures f[e] in flow {
      ReplacementInFlow(g, left, right, dead, m, e);
    }
    forall e <- m, e' <- m | f[e] == f[e'] ensures e == e' {
      ReplacementInFlow(g, left, right, dead, m, e);
      ReplacementInFlow(g, left, right, dead, m, e');
    }
    hide IsMatching, Replacement;
    InjectiveImage(m, flow, f);
  }

  /** The edge of the flow that stands for an edge of another matching. */
  ghost function Replacement(left: seq<int>, right: seq<int>, dead: set<int>, e: (int, int)): (int, int)
    requires 0 <= e.0 < |left| && 0 <= e.1 < |right|
  {
    if e.1 in dead then (right[e.1], e.1) else (e.0, left[e.0])
  }

  lemma ReplacementInFlow(
    g: MatchMatrix, left: seq<int>, right: seq<int>, dead: set<int>, m: set<(int, int)>, e: (int, int))
    requires Linked(g, left, right, UNUSED) && Closed(g, right, dead)
    requires forall l :: 0 <= l < g.lhsSize && left[l] == UNUSED ==> DeadEnd(g, l, dead)
    requires IsMatching(g, m) && e in m
    ensures 0 <= e.0 < |left| && 0 <= e.1 < |right|
    ensures Replacement(left, right, dead, e) in Edges(Flow(left, |left|))
    ensures Replacement(left, right, dead, e).1 in dead <==> e.1 in dead
  {
    FlowMembers(left, |left|);
    hide Flow;
    if e.1 in dead {
      assert left[right[e.1]] == e.1;
    } else {
      assert !DeadEnd(g, e.0, dead);
    }
  }

  /** An augmentation from an unused node adds exactly one edge to the matching. */
  lemma {:induction false} RelinkedGrowsFlow(
    g: MatchMatrix, left: seq<int>, right: seq<int>, seen: seq<bool>, l: int,
    left': seq<int>, right': seq<int>, n: nat)
    requires |left| == |left'| && |right| == |seen| && 0 <= l < |left|
    requires forall i :: 0 <= i < |left| ==> left[i] == UNUSED || 0 <= left[i] < |right|
    requires Relinked(g, left, right, seen, l, left', right') && left[l] == UNUSED
    requires n <= |left|
    ensures |Flow(left', n)| == |Flow(left, n)| + if l < n then 1 else 0
  {
    if n == 0 {
    } else {
      RelinkedGrowsFlow(g, left, right, seen, l, left', right', n - 1);
    }
  }

  /** A matching has as many edges as there are right nodes exactly when it covers all of them. */
  lemma FullMatchingCovers(g: MatchMatrix, m: set<(int, int)>)
    requires IsMatching(g, m)
    ensures |m| <= g.rhsSize
    ensures |m| == g.rhsSize <==> CoversRight(g, m)
  {
    var rights := Rights(m);
    RightsAreDistinct(g, m);
    var all := Below(g.rhsSize);
    SubsetSize(rights, all);
    if CoversRight(g, m) {
      forall r | r in all ensures r in rights {
        assert HasPartner(m, r);
      }
      assert rights == all;
    } else {
      var r :| 0 <= r < g.rhsSize && !HasPartner(m, r);
      assert r in all && r !in rights;
    }
  }

  lemma RightsAreDistinct(g: MatchMatrix, m: set<(int, int)>)
    requires IsMatching(g, m)
    ensures |Rights(m)| == |m|
  {
    if e :| e in m {
      RightsAreDistinct(g, m - {e});
      assert Rights(m) == Rights(m - {e}) + {e.1};
    }
  }

  /** A failed search through r keeps the nodes seen since `start` closed. */
  lemma FailureCloses(
    g: MatchMatrix, right: seq<int>, start: seq<bool>, before: seq<bool>, after: seq<bool>, r: int)
    requires |right| == |start| == |before| == |after| == g.rhsSize
    requires ClosedSince(g, right, start, before)
    requires 0 <= r < g.rhsSize && right[r] != UNUSED
    requires Exhausted(g, right, before[r := true], after, right[r])
    requires forall i :: 0 <= i < |before| && before[i] ==> after[i]
    ensures ClosedSince(g, right, start, after)
  {
  }

  /** Linking l to r turns a push from r's partner into a push from l. */
  lemma PushExtends(
    g: MatchMatrix, left: seq<int>, right: seq<int>, seen: seq<bool>, marked: seq<bool>, l: int, r: int,
    rest: seq<int>, left1: seq<int>, right1: seq<int>)
    requires Linked(g, left, right, UNUSED) && |seen| == |right| == |marked|
    requires 0 <= l < |left| && 0 <= r < |right| && !seen[r] && g.HasEdge(l, r)
    requires forall i :: 0 <= i < |seen| && seen[i] ==> marked[i]
    requires marked[r]
    requires if right[r] == UNUSED then rest == [] && (left1, right1) == (left, right)
             else PushedAlong(g, left, right, marked, right[r], rest, left1, right1)
    requires |left1| == |left| && |right1| == |right|
    ensures PushedAlong(g, left, right, seen, l, [r] + rest, left1[l := r], right1[r := l])
    ensures CanAugment(g, right, seen, l)
  {
    var p := [r] + rest;
    assert p[1..] == rest;
    if right[r] != UNUSED {
      AugmentingMonotone(g, right, seen[r := true], marked, right[r], rest);
    }
    assert Augmenting(g, right, seen, l, p);
  }

  /** A used right node has a left partner. */
  lemma PartnerOf(g: MatchMatrix, left: seq<int>, right: seq<int>, r: int)
    requires Linked(g, left, right, UNUSED) && 0 <= r < |right| && right[r] != UNUSED
    ensures 0 <= right[r] < |left| && left[right[r]] == r
  {
  }

  /** A successful search keeps the dead ends and adds one edge. */
  lemma SuccessGrows(
    g: MatchMatrix, left: seq<int>, right: seq<int>, seen: seq<bool>, l: int, p: seq<int>,
    left': seq<int>, right': seq<int>, dead: set<int>)
    requires Linked(g, left, right, UNUSED) && Closed(g, right, dead) && |seen| == |right|
    requires PushedAlong(g, left, right, seen, l, p, left', right') && left[l] == UNUSED
    ensures Linked(g, left', right', UNUSED) && Closed(g, right', dead)
    ensures forall i :: 0 <= i < |left| ==> (left'[i] == UNUSED <==> left[i] == UNUSED && i != l)
    ensures |Flow(left', |left'|)| == |Flow(left, |left|)| + 1
  {
    PushedLinks(g, left, right, seen, l, p);
    RelinkedGrowsFlow(g, left, right, seen, l, left', right', |left|);
    AugmentingAvoidsClosed(g, right, seen, l, p, dead);
    hide Augmenting, Pushed, Flow;
  }

  /** The nodes seen by a failed search join the dead ends. */
  lemma FailureGrowsDead(g: MatchMatrix, right: seq<int>, before: seq<bool>, seen: seq<bool>, l: int, dead: set<int>)
    requires Exhausted(g, right, before, seen, l) && Closed(g, right, dead)
    requires forall r :: 0 <= r < |before| ==> !before[r]
    ensures Closed(g, right, dead + Seen(seen)) && DeadEnd(g, l, dead + Seen(seen))
  {
  }

  ghost function Seen(seen: seq<bool>): set<int> {
    set r | 0 <= r < |seen| && seen[r]
  }

  // ------------------------------------------------------------------------
  // The search
  // ------------------------------------------------------------------------

  class MaxBipartiteMatchState {
    const graph: MatchMatrix
    const left: array<int>
    const right: array<int>

    constructor (g: MatchMatrix)
      ensures graph == g && Valid() && fresh(left) && fresh(right)
      ensures forall l :: 0 <= l < left.Length ==> left[l] == UNUSED
    {
      graph := g;
      left := new int[g.lhsSize](_ => UNUSED);
      right := new int[g.rhsSize](_ => UNUSED);
    }

    ghost predicate Valid()
      reads left, right
    {
      left != right && Linked(graph, left[..], right[..], UNUSED)
    }

    /**
     * Depth-first search from ilhs to the sink. It succeeds exactly when an
     * augmenting path avoids the nodes already seen, and then pushes one unit of
     * flow along such a path; a failed search changes no link and leaves
     * `seen` closed under residual edges.
     */
    method TryAugment(ilhs: int, seen: array<bool>) returns (ok: bool)
      requires Valid() && 0 <= ilhs < left.Length && seen.Length == right.Length
      requires left[ilhs] == UNUSED || seen[left[ilhs]]
      modifies left, right, seen
      ensures forall r :: 0 <= r < seen.Length && old(seen[r]) ==> seen[r]
      ensures ok <==> CanAugment(graph, old(right[..]), old(seen[..]), ilhs)
      ensures ok ==> exists p ::
                PushedAlong(graph, old(left[..]), old(right[..]), old(seen[..]), ilhs, p, left[..], right[..])
      ensures !ok ==> left[..] == old(left[..]) && right[..] == old(right[..])
      ensures !ok ==> Exhausted(graph, right[..], old(seen[..]), seen[..], ilhs)
      decreases Unseen(seen[..])
    {
      hide Pushed, PushedAlong, Augmenting, Linked;
      ghost var left0, right0, seen0 := left[..], right[..], seen[..];
      assert left.Length == graph.lhsSize && right.Length == graph.rhsSize by {
        Sizes();
      }
      for irhs := 0 to graph.rhsSize
        invariant left[..] == left0 && right[..] == right0
        invariant forall r :: 0 <= r < seen.Length && seen0[r] ==> seen[r]
        invariant forall r :: 0 <= r < irhs && graph.HasEdge(ilhs, r) ==> seen[r]
        invariant ClosedSince(graph, right0, seen0, seen[..])
      {
        if seen[irhs] || !graph.HasEdge(ilhs, irhs) {
          continue;
        }
        ghost var before := seen[..];
        seen[irhs] := true;
        ghost var marked := seen[..];
        assert irhs in Unseen(before) && Unseen(marked) == Unseen(before) - {irhs};
        assert Unseen(before) <= Unseen(seen0);
        var found := right[irhs] == UNUSED;
        ghost var rest := [];
        if !found {
          PartnerOf(graph, left0, right0, irhs);
          found := TryAugment(right[irhs], seen);
          if found {
            rest :| PushedAlong(graph, left0, right0, marked, right0[irhs], rest, left[..], right[..]);
          }
        }
        if found {
          PushExtends(graph, left0, right0, seen0, marked, ilhs, irhs, rest, left[..], right[..]);
          left[ilhs] := irhs;
          right[irhs] := ilhs;
          assert PushedAlong(graph, left0, right0, seen0, ilhs, [irhs] + rest, left[..], right[..]);
          return true;
        }
        FailureCloses(graph, right0, seen0, before, seen[..], irhs);
      }
      forall p ensures !Augmenting(graph, right0, seen0, ilhs, p) {
        ExhaustedHasNoPath(graph, right0, seen0, seen0, seen[..], ilhs, p);
      }
      return false;
    }

    lemma Sizes()
      requires Valid()
      ensures left.Length == graph.lhsSize && right.Length == graph.rhsSize
    {
    }

    /** One search per left node; no other matching of the graph is larger than the result. */
    method Compute() returns (result: seq<(int, int)>)
      requires Valid() && forall l :: 0 <= l < left.Length ==> left[l] == UNUSED
      modifies left, right
      ensures Valid()
      ensures StrictlyOrdered(result)
      ensures IsMatching(graph, Edges(result))
      ensures |result| == |Edges(result)|
      ensures forall m :: IsMatching(graph, m) ==> |m| <= |result|
    {
      ghost var dead := SearchAll();
      FlowIsMatching(graph, left[..], right[..]);
      Sizes();
      hide Linked, Closed, DeadEnd, Flow, IsMatching, Edges;
      forall m | IsMatching(graph, m) ensures |m| <= |Flow(left[..], left.Length)| {
        FlowIsMaximum(graph, left[..], right[..], dead, m);
      }
      result := Collect();
      FlowOrdered(left[..], left.Length);
      OrderedEdgesCount(result);
    }

    /** The loop of searches; the nodes that stay unused are dead ends. */
    method SearchAll() returns (ghost dead: set<int>)
      requires Valid() && forall l :: 0 <= l < left.Length ==> left[l] == UNUSED
      modifies left, right
      ensures Valid() && right.Length == graph.rhsSize && Closed(graph, right[..], dead)
      ensures forall l :: 0 <= l < left.Length && left[l] == UNUSED ==> DeadEnd(graph, l, dead)
    {
      dead := {};
      assert Closed(graph, right[..], dead);
      Sizes();
      hide Closed, Linked, Flow;
      for ilhs := 0 to graph.lhsSize
        invariant Valid() && Closed(graph, right[..], dead)
        invariant forall l :: 0 <= l < ilhs && left[l] == UNUSED ==> DeadEnd(graph, l, dead)
        invariant forall l :: ilhs <= l < left.Length ==> left[l] == UNUSED
      {
        var seen := new bool[graph.rhsSize](_ => false);
        dead := Search(ilhs, seen, dead);
      }
    }

    /** The loop that lists the links. */
    method Collect() returns (result: seq<(int, int)>)
      ensures result == Flow(left[..], left.Length)
    {
      result := [];
      for ilhs := 0 to left.Length
        invariant result == Flow(left[..], ilhs)
      {
        if left[ilhs] == UNUSED {
          continue;
        }
        result := result + [(ilhs, left[ilhs])];
      }
    }

    /** One step of Compute: the search from ilhs and the dead ends known after it. */
    method Search(ilhs: int, seen: array<bool>, ghost dead: set<int>) returns (ghost dead': set<int>)
      requires Valid() && Closed(graph, right[..], dead)
      requires 0 <= ilhs < left.Length && left[ilhs] == UNUSED
      requires seen.Length == right.Length && forall r :: 0 <= r < seen.Length ==> !seen[r]
      modifies left, right, seen
      ensures Valid() && dead <= dead' && Closed(graph, right[..], dead')
      ensures forall l :: 0 <= l < left.Length && l != ilhs ==> (left[l] == UNUSED <==> old(left[l]) == UNUSED)
      ensures left[ilhs] == UNUSED ==> DeadEnd(graph, ilhs, dead')
      ensures left[ilhs] != UNUSED ==> |Flow(left[..], left.Length)| == |Flow(old(left[..]), left.Length)| + 1
    {
      Sizes();
      hide Linked, Closed, DeadEnd, Flow, PushedAlong, CanAugment, Exhausted;
      ghost var left0, right0, seen0 := left[..], right[..], seen[..];
      var ok := TryAugment(ilhs, seen);
      if ok {
        ghost var p :| PushedAlong(graph, left0, right0, seen0, ilhs, p, left[..], right[..]);
        SuccessGrows(graph, left0, right0, seen0, ilhs, p, left[..], right[..], dead);
        dead' := dead;
      } else {
        FailureGrowsDead(graph, right[..], seen0, seen[..], ilhs, dead);
        dead' := dead + Seen(seen[..]);
      }
    }
  }

  /** True exactly when some matching covers every matcher. */
  method FindPairing(matrix: MatchMatrix) returns (result: bool)
    ensures result <==> exists m :: IsMatching(matrix, m) && CoversRight(matrix, m)
  {
    var state := new MaxBipartiteMatchState(matrix);
    var matches := state.Compute();
    result := |matches| == matrix.rhsSize;
    FullMatchingCovers(matrix, Edges(matches));
    forall m | IsMatching(matrix, m) && CoversRight(matrix, m) ensures result {
      FullMatchingCovers(matrix, m);
    }
  }
}
