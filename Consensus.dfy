/**
 * Multi-model consensus: the answers of several AI reviewers are pooled,
 * similar issues are grouped greedily (nearby line, same category, messages
 * whose Levenshtein similarity exceeds 0.7), each group is put to a vote, and
 * the surviving groups are reported through their most confident member with
 * the group's rounded mean confidence.
 *
 * Running the providers (network calls with a 30 s timeout) is outside the
 * model: `AnalyzeWithConsensus` receives one optional answer per provider,
 * `None` standing for a provider that failed or timed out.
 */
module Consensus {
  import opened Wrappers
  import opened Types
  import opened Text

  // ---------------------------------------------------------------------------
  // Edit distance
  // ---------------------------------------------------------------------------

  function Min3(x: nat, y: nat, z: nat): (r: nat)
    ensures r <= x && r <= y && r <= z
    ensures r == x || r == y || r == z
  {
    if x <= y && x <= z then x else if y <= z then y else z
  }

  /**
   * The Levenshtein distance between the first `i` characters of `a` and the
   * first `j` of `b`, defined the way the dynamic-programming table is
   * filled: equal characters cost nothing, otherwise one substitution,
   * insertion or deletion.
   */
  function Dist(a: string, b: string, i: nat, j: nat): nat
    requires i <= |a| && j <= |b|
    decreases i + j
  {
    if i == 0 then j
    else if j == 0 then i
    else if a[i - 1] == b[j - 1] then Dist(a, b, i - 1, j - 1)
    else 1 + Min3(Dist(a, b, i - 1, j - 1), Dist(a, b, i, j - 1), Dist(a, b, i - 1, j))
  }

  /** The Levenshtein distance between two whole strings. */
  function EditDistance(a: string, b: string): nat
  {
    Dist(a, b, |a|, |b|)
  }

  /**
   * `levenshteinDistance(str1, str2)`: row `i` of the table belongs to the
   * first `i` characters of `str2`, column `j` to the first `j` of `str1`.
   */
  method LevenshteinDistance(str1: string, str2: string) returns (d: nat)
    ensures d == EditDistance(str2, str1)
  {
    var matrix := new nat[|str2| + 1, |str1| + 1];
    var i := 0;
    while i <= |str2|
      invariant i <= |str2| + 1
      invariant forall r :: 0 <= r < i ==> matrix[r, 0] == r
    {
      matrix[i, 0] := i;
      i := i + 1;
    }
    var j := 0;
    while j <= |str1|
      invariant j <= |str1| + 1
      invariant forall r :: 0 <= r <= |str2| ==> matrix[r, 0] == r
      invariant forall c :: 0 <= c < j ==> matrix[0, c] == c
    {
      matrix[0, j] := j;
      j := j + 1;
    }
    i := 1;
    while i <= |str2|
      invariant 1 <= i <= |str2| + 1
      invariant forall r :: 0 <= r <= |str2| ==> matrix[r, 0] == r
      invariant forall r, c {:trigger matrix[r, c]} :: 0 <= r < i && 0 <= c <= |str1| ==> matrix[r, c] == Dist(str2, str1, r, c)
    {
      FillRow(matrix, str1, str2, i);
      i := i + 1;
    }
    d := matrix[|str2|, |str1|];
  }

  /** One row of the table: row `i` from row `i - 1` and the cell to its left. */
  method FillRow(matrix: array2<nat>, str1: string, str2: string, i: nat)
    requires matrix.Length0 == |str2| + 1 && matrix.Length1 == |str1| + 1
    requires 1 <= i <= |str2|
    requires forall r :: 0 <= r <= |str2| ==> matrix[r, 0] == r
    requires forall r, c {:trigger matrix[r, c]} :: 0 <= r < i && 0 <= c <= |str1| ==> matrix[r, c] == Dist(str2, str1, r, c)
    modifies matrix
    ensures forall r :: 0 <= r <= |str2| ==> matrix[r, 0] == r
    ensures forall r, c {:trigger matrix[r, c]} :: 0 <= r <= i && 0 <= c <= |str1| ==> matrix[r, c] == Dist(str2, str1, r, c)
  {
    var j := 1;
    while j <= |str1|
      invariant 1 <= j <= |str1| + 1
      invariant forall r :: 0 <= r <= |str2| ==> matrix[r, 0] == r
      invariant forall r, c {:trigger matrix[r, c]} :: 0 <= r < i && 0 <= c <= |str1| ==> matrix[r, c] == Dist(str2, str1, r, c)
      invariant forall c {:trigger matrix[i, c]} :: 0 <= c < j ==> matrix[i, c] == Dist(str2, str1, i, c)
    {
      var cell: nat;
      if str2[i - 1] == str1[j - 1] {
        cell := matrix[i - 1, j - 1];
      } else {
        cell := Min3(matrix[i - 1, j - 1] + 1, matrix[i, j - 1] + 1, matrix[i - 1, j] + 1);
      }
      assert cell == Dist(str2, str1, i, j);
      matrix[i, j] := cell;
      j := j + 1;
    }
  }

  /** A string is at distance zero from itself. */
  lemma {:induction false} DistSelf(s: string, i: nat)
    requires i <= |s|
    ensures Dist(s, s, i, i) == 0
  {
    if i > 0 {
      DistSelf(s, i - 1);
    }
  }

  /** The distance does not depend on the order of its arguments. */
  lemma {:induction false} DistSymmetric(a: string, b: string, i: nat, j: nat)
    requires i <= |a| && j <= |b|
    ensures Dist(a, b, i, j) == Dist(b, a, j, i)
    decreases i + j
  {
    if i > 0 && j > 0 {
      DistSymmetric(a, b, i - 1, j - 1);
      if a[i - 1] != b[j - 1] {
        DistSymmetric(a, b, i, j - 1);
        DistSymmetric(a, b, i - 1, j);
      }
    }
  }

  /** The distance lies between the difference and the larger of the two lengths. */
  lemma {:induction false} DistBounds(a: string, b: string, i: nat, j: nat)
    requires i <= |a| && j <= |b|
    ensures Dist(a, b, i, j) <= if i < j then j else i
    ensures Dist(a, b, i, j) >= if i < j then j - i else i - j
    decreases i + j
  {
    if i > 0 && j > 0 {
      DistBounds(a, b, i - 1, j - 1);
      if a[i - 1] != b[j - 1] {
        DistBounds(a, b, i, j - 1);
        DistBounds(a, b, i - 1, j);
      }
    }
  }

  /** Distance zero means equal prefixes, and only then. */
  lemma {:induction false} DistZero(a: string, b: string, i: nat, j: nat)
    requires i <= |a| && j <= |b|
    ensures Dist(a, b, i, j) == 0 <==> a[..i] == b[..j]
    decreases i + j
  {
    if i > 0 && j > 0 {
      DistZero(a, b, i - 1, j - 1);
      assert a[..i] == a[..i - 1] + [a[i - 1]] && b[..j] == b[..j - 1] + [b[j - 1]];
      if a[..i] == b[..j] {
        assert a[i - 1] == a[..i][i - 1];
      }
    }
  }

  /** The whole-string facts: symmetric, zero exactly on equal strings, bounded by the lengths. */
  lemma EditDistanceProperties(a: string, b: string)
    ensures EditDistance(a, b) == EditDistance(b, a)
    ensures EditDistance(a, b) == 0 <==> a == b
    ensures EditDistance(a, b) <= if |a| < |b| then |b| else |a|
    ensures EditDistance(a, b) >= if |a| < |b| then |b| - |a| else |a| - |b|
  {
    DistSymmetric(a, b, |a|, |b|);
    DistZero(a, b, |a|, |b|);
    assert a[..|a|] == a && b[..|b|] == b;
    DistBounds(a, b, |a|, |b|);
  }

  // ---------------------------------------------------------------------------
  // Similarity
  // ---------------------------------------------------------------------------

  function Longer(s1: string, s2: string): string
  {
    if |s1| > |s2| then s1 else s2
  }

  function Shorter(s1: string, s2: string): string
  {
    if |s1| > |s2| then s2 else s1
  }

  lemma MulLe(x: real, y: real, t: real)
    requires t > 0.0
    ensures x <= y <==> x * t <= y * t
  {
  }

  lemma MulLt(x: real, y: real, t: real)
    requires t > 0.0
    ensures x < y <==> x * t < y * t
  {
  }

  /** The quotient `p / q` for `0 <= p <= q`: within [0, 1], and 1 only when `p == q`. */
  lemma Ratio(p: nat, q: nat)
    requires 0 <= p <= q && q > 0
    ensures 0.0 <= (p as real) / (q as real) <= 1.0
    ensures (p as real) / (q as real) == 1.0 <==> p == q
  {
    var x := (p as real) / (q as real);
    assert x * (q as real) == p as real;
    MulLe(0.0, x, q as real);
    MulLe(x, 1.0, q as real);
    MulLe(1.0, x, q as real);
  }

  /**
   * `fuzzyMatch`: one minus the edit distance relative to the longer length;
   * 1 for two empty strings. The table is filled with the shorter string on
   * the rows, hence the argument order.
   */
  function FuzzyMatch(s1: string, s2: string): (r: real)
    ensures 0.0 <= r <= 1.0
    ensures r == 1.0 <==> s1 == s2
  {
    var longer, shorter := Longer(s1, s2), Shorter(s1, s2);
    if |longer| == 0 then 1.0
    else
      EditDistanceProperties(shorter, longer);
      Ratio(|longer| - EditDistance(shorter, longer), |longer|);
      (|longer| - EditDistance(shorter, longer)) as real / |longer| as real
  }

  /** The similarity test on messages, `fuzzyMatch(m1, m2) > 0.7`, in exact integer form. */
  predicate SimilarMessages(s1: string, s2: string)
  {
    var l := |Longer(s1, s2)|;
    l == 0 || 10 * (l - EditDistance(Shorter(s1, s2), Longer(s1, s2))) > 7 * l
  }

  lemma SimilarMessagesIsFuzzy(s1: string, s2: string)
    ensures SimilarMessages(s1, s2) <==> FuzzyMatch(s1, s2) > 0.7
  {
    var longer, shorter := Longer(s1, s2), Shorter(s1, s2);
    if |longer| > 0 {
      EditDistanceProperties(shorter, longer);
      RatioAbove(|longer| - EditDistance(shorter, longer), |longer|);
    }
  }

  /** `p / q > 0.7` on integers. */
  lemma RatioAbove(p: int, q: nat)
    requires q > 0
    ensures (p as real) / (q as real) > 0.7 <==> 10 * p > 7 * q
  {
    var x := (p as real) / (q as real);
    assert x * (q as real) == p as real;
    MulLt(0.7, x, q as real);
    assert (7 * q) as real == 7.0 * (q as real) && (10 * p) as real == 10.0 * (p as real);
  }

  /** Quotients by the same positive number keep the order of the numerators. */
  lemma RatioMonotone(p: int, p': int, q: nat)
    requires q > 0 && p <= p'
    ensures (p as real) / (q as real) <= (p' as real) / (q as real)
  {
    var x, y := (p as real) / (q as real), (p' as real) / (q as real);
    assert x * (q as real) == p as real;
    assert y * (q as real) == p' as real;
    MulLe(x, y, q as real);
  }

  /** The score is symmetric, and never exceeds the ratio of the two lengths. */
  lemma FuzzyMatchProperties(s1: string, s2: string)
    ensures FuzzyMatch(s1, s2) == FuzzyMatch(s2, s1)
    ensures |Longer(s1, s2)| > 0 ==>
              FuzzyMatch(s1, s2) <= |Shorter(s1, s2)| as real / |Longer(s1, s2)| as real
  {
    EditDistanceProperties(s1, s2);
    var longer, shorter := Longer(s1, s2), Shorter(s1, s2);
    if |longer| > 0 {
      EditDistanceProperties(shorter, longer);
      RatioMonotone(|longer| - EditDistance(shorter, longer), |shorter|, |longer|);
    }
  }

  function Abs(x: int): nat
  {
    if x < 0 then -x else x
  }

  /** `isSimilarIssue`: lines at most 2 apart, equal categories, similar messages. */
  predicate IsSimilarIssue(issue1: AIIssue, issue2: AIIssue)
  {
    Abs(issue1.line - issue2.line) <= 2
    && issue1.category == issue2.category
    && SimilarMessages(issue1.message, issue2.message)
  }

  /** Similarity is reflexive and symmetric (it is not transitive, hence the greedy grouping). */
  lemma SimilarReflexiveSymmetric(x: AIIssue, y: AIIssue)
    ensures IsSimilarIssue(x, x)
    ensures IsSimilarIssue(x, y) <==> IsSimilarIssue(y, x)
  {
    EditDistanceProperties(x.message, x.message);
    EditDistanceProperties(x.message, y.message);
  }

  // ---------------------------------------------------------------------------
  // Grouping
  // ---------------------------------------------------------------------------

  type Group = seq<AIIssue>

  predicate NonEmptyGroups(groups: seq<Group>)
  {
    forall g :: 0 <= g < |groups| ==> |groups[g]| > 0
  }

  /** `groups.find(...)`: the first group whose first issue is similar to `x`, or `|groups|`. */
  function FirstSimilarGroup(groups: seq<Group>, x: AIIssue): (k: nat)
    requires NonEmptyGroups(groups)
    ensures k <= |groups|
    ensures k < |groups| ==> IsSimilarIssue(x, groups[k][0])
    ensures forall g :: 0 <= g < k ==> !IsSimilarIssue(x, groups[g][0])
  {
    if groups == [] then 0
    else if IsSimilarIssue(x, groups[0][0]) then 0
    else 1 + FirstSimilarGroup(groups[1..], x)
  }

  /** One step of the grouping: join the first matching group, or open a new one. */
  function AddToGroups(groups: seq<Group>, x: AIIssue): (r: seq<Group>)
    requires NonEmptyGroups(groups)
    ensures NonEmptyGroups(r)
    ensures |groups| <= |r| <= |groups| + 1
  {
    var k := FirstSimilarGroup(groups, x);
    if k < |groups| then groups[k := groups[k] + [x]] else groups + [[x]]
  }

  /** The groups `groupSimilarIssues` builds, issue by issue in input order. */
  function Grouped(issues: seq<AIIssue>): (r: seq<Group>)
    ensures NonEmptyGroups(r)
    ensures |r| <= |issues|
  {
    if issues == [] then []
    else AddToGroups(Grouped(issues[..|issues| - 1]), issues[|issues| - 1])
  }

  /** `groupSimilarIssues`. */
  method GroupSimilarIssues(issues: seq<AIIssue>) returns (groups: seq<Group>)
    ensures groups == Grouped(issues)
  {
    groups := [];
    var n := 0;
    while n < |issues|
      invariant n <= |issues|
      invariant groups == Grouped(issues[..n])
    {
      var issue := issues[n];
      GroupedSnoc(issues, n);
      var k := FindGroup(groups, issue);
      if k < |groups| {
        groups := groups[k := groups[k] + [issue]];
      } else {
        groups := groups + [[issue]];
      }
      n := n + 1;
    }
    assert issues[..n] == issues;
  }

  /** The `find` over the groups' first issues. */
  method FindGroup(groups: seq<Group>, issue: AIIssue) returns (k: nat)
    requires NonEmptyGroups(groups)
    ensures k == FirstSimilarGroup(groups, issue)
  {
    k := 0;
    while k < |groups| && !IsSimilarIssue(issue, groups[k][0])
      invariant k <= |groups|
      invariant forall g :: 0 <= g < k ==> !IsSimilarIssue(issue, groups[g][0])
    {
      k := k + 1;
    }
  }

  lemma GroupedSnoc(issues: seq<AIIssue>, n: nat)
    requires n < |issues|
    ensures Grouped(issues[..n + 1]) == AddToGroups(Grouped(issues[..n]), issues[n])
  {
    assert issues[..n + 1][..n] == issues[..n];
  }

  /** All issues held by the groups, with multiplicity. */
  function Members(groups: seq<Group>): multiset<AIIssue>
  {
    if groups == [] then multiset{} else multiset(groups[0]) + Members(groups[1..])
  }

  lemma {:induction false} MembersAppend(groups: seq<Group>, g: Group)
    ensures Members(groups + [g]) == Members(groups) + multiset(g)
  {
    if groups != [] {
      assert (groups + [g])[1..] == groups[1..] + [g];
      MembersAppend(groups[1..], g);
    }
  }

  lemma {:induction false} MembersUpdate(groups: seq<Group>, k: nat, g: Group)
    requires k < |groups|
    ensures Members(groups[k := g]) + multiset(groups[k]) == Members(groups) + multiset(g)
  {
    var updated := groups[k := g];
    assert Members(updated) == multiset(updated[0]) + Members(updated[1..]);
    assert Members(groups) == multiset(groups[0]) + Members(groups[1..]);
    if k == 0 {
      assert updated[1..] == groups[1..];
    } else {
      assert updated[0] == groups[0];
      assert updated[1..] == groups[1..][k - 1 := g];
      assert groups[1..][k - 1] == groups[k];
      MembersUpdate(groups[1..], k - 1, g);
      calc {
        Members(updated) + multiset(groups[k]);
        multiset(groups[0]) + (Members(updated[1..]) + multiset(groups[k]));
        multiset(groups[0]) + (Members(groups[1..]) + multiset(g));
        Members(groups) + multiset(g);
      }
    }
  }

  lemma MultisetCancel<T>(a: multiset<T>, b: multiset<T>, c: multiset<T>)
    requires a + c == b + c
    ensures a == b
  {
    assert forall t :: a[t] == (a + c)[t] - c[t];
    assert forall t :: b[t] == (b + c)[t] - c[t];
  }

  /** One grouping step adds exactly the new issue to the members. */
  lemma AddToGroupsMembers(groups: seq<Group>, x: AIIssue)
    requires NonEmptyGroups(groups)
    ensures Members(AddToGroups(groups, x)) == Members(groups) + multiset{x}
  {
    var k := FirstSimilarGroup(groups, x);
    if k < |groups| {
      var updated := groups[k := groups[k] + [x]];
      assert AddToGroups(groups, x) == updated;
      assert multiset(groups[k] + [x]) == multiset(groups[k]) + multiset{x};
      MembersUpdate(groups, k, groups[k] + [x]);
      MultisetCancel(Members(updated), Members(groups) + multiset{x}, multiset(groups[k]));
    } else {
      assert AddToGroups(groups, x) == groups + [[x]];
      MembersAppend(groups, [x]);
    }
  }

  /** The groups partition the input: every issue lands in exactly one group, none is invented. */
  lemma {:induction false} GroupedIsPartition(issues: seq<AIIssue>)
    ensures Members(Grouped(issues)) == multiset(issues)
  {
    if issues != [] {
      var init, x := issues[..|issues| - 1], issues[|issues| - 1];
      GroupedIsPartition(init);
      AddToGroupsMembers(Grouped(init), x);
      assert issues == init + [x];
    }
  }

  /**
   * The greedy discipline: every member of a group is similar to the group's
   * first issue, and is similar to the first issue of no earlier group.
   */
  predicate Greedy(groups: seq<Group>)
    requires NonEmptyGroups(groups)
  {
    (forall g, k :: 0 <= g < |groups| && 0 < k < |groups[g]| ==> IsSimilarIssue(groups[g][k], groups[g][0]))
    && (forall h, g, k :: 0 <= h < g < |groups| && 0 <= k < |groups[g]| ==> !IsSimilarIssue(groups[g][k], groups[h][0]))
  }

  lemma {:induction false} GroupedGreedy(issues: seq<AIIssue>)
    ensures Greedy(Grouped(issues))
  {
    if issues != [] {
      var init, x := issues[..|issues| - 1], issues[|issues| - 1];
      GroupedGreedy(init);
      var gs := Grouped(init);
      var k := FirstSimilarGroup(gs, x);
      var r := Grouped(issues);
      assert r == AddToGroups(gs, x);
      if k < |gs| {
        assert forall g :: 0 <= g < |gs| && g != k ==> r[g] == gs[g];
        assert r[k] == gs[k] + [x];
      } else {
        assert forall g :: 0 <= g < |gs| ==> r[g] == gs[g];
        assert r[|gs|] == [x];
      }
    }
  }

  // ---------------------------------------------------------------------------
  // Voting
  // ---------------------------------------------------------------------------

  datatype VotingStrategy = Majority | Unanimous | Weighted

  /** `ConsensusConfig`; the per-provider weights are never read and are left out. */
  datatype ConsensusConfig = ConsensusConfig(
    providers: seq<AIProviderConfig>,
    votingStrategy: VotingStrategy,
    minConfidence: int)

  /** A surviving issue: its best member with the mean confidence, the vote count and the agreement text. */
  datatype VotedIssue = VotedIssue(issue: AIIssue, votes: nat, consensus: string)

  /** The confidences of a group, added left to right. */
  function SumConfidence(group: seq<AIIssue>): int
  {
    if group == [] then 0 else SumConfidence(group[..|group| - 1]) + group[|group| - 1].confidence
  }

  /** `Math.round(s / n)`: the nearest integer, halves rounded up. */
  function RoundedMean(s: int, n: int): (r: int)
    requires n > 0
    ensures 2 * n * r - n <= 2 * s < 2 * n * r + n
  {
    var q := (2 * s + n) / (2 * n);
    assert 2 * n * q <= 2 * s + n < 2 * n * q + 2 * n;
    q
  }

  /** The rounding agrees with `Math.round` on the real quotient. */
  lemma RoundedMeanIsRound(s: int, n: int)
    requires n > 0
    ensures RoundedMean(s, n) == ((s as real) / (n as real) + 0.5).Floor
  {
    var r := RoundedMean(s, n);
    var x := (s as real) / (n as real);
    assert x * (n as real) == s as real;
    var y := x + 0.5;
    assert y * (2 * n) as real == (2 * s + n) as real;
    MulLe(r as real, y, (2 * n) as real);
    MulLt(y, (r + 1) as real, (2 * n) as real);
    assert (r as real) * (2 * n) as real == (2 * n * r) as real;
    assert ((r + 1) as real) * (2 * n) as real == (2 * n * r + 2 * n) as real;
    assert r as real <= y < (r + 1) as real;
  }

  /** `reduce` keeping the first member with the highest confidence. */
  function BestIndex(group: seq<AIIssue>): (k: nat)
    requires |group| > 0
    ensures k < |group|
    ensures forall j :: 0 <= j < |group| ==> group[j].confidence <= group[k].confidence
    ensures forall j :: 0 <= j < k ==> group[j].confidence < group[k].confidence
  {
    if |group| == 1 then 0
    else
      var b := BestIndex(group[..|group| - 1]);
      if group[|group| - 1].confidence > group[b].confidence then |group| - 1 else b
  }

  /** A least confident member of a group. */
  function LeastIndex(group: seq<AIIssue>): (m: nat)
    requires |group| > 0
    ensures m < |group|
    ensures forall j :: 0 <= j < |group| ==> group[m].confidence <= group[j].confidence
  {
    if |group| == 1 then 0
    else
      var b := LeastIndex(group[..|group| - 1]);
      if group[|group| - 1].confidence < group[b].confidence then |group| - 1 else b
  }

  /** The vote a strategy takes on a group of `count` issues out of `total` answers. */
  predicate PassesVote(strategy: VotingStrategy, count: nat, total: nat)
  {
    match strategy
    case Unanimous => count >= total
    case Majority => 2 * count >= total
    case Weighted => true
  }

  /** Half of the answers, as the floating-point test `count / total < 0.5` decides it. */
  lemma MajorityThreshold(count: nat, total: nat)
    requires total > 0
    ensures (count as real) / (total as real) < 0.5 <==> 2 * count < total
  {
    var p := (count as real) / (total as real);
    assert p * (total as real) == count as real;
    MulLt(p, 0.5, total as real);
  }

  /** The floating-point mean test `sum / n < min`, restated on integers. */
  lemma MeanThreshold(s: int, n: nat, min: int)
    requires n > 0
    ensures (s as real) / (n as real) < min as real <==> s < min * n
  {
    var m := (s as real) / (n as real);
    assert m * (n as real) == s as real;
    assert (min * n) as real == (min as real) * (n as real);
  }

  /** `applyVoting`: `None` for a group the strategy or the confidence floor rejects. */
  function ApplyVoting(group: seq<AIIssue>, totalModels: nat, config: ConsensusConfig): (r: Option<VotedIssue>)
    requires |group| > 0
    ensures r.Some? <==>
              PassesVote(config.votingStrategy, |group|, totalModels)
              && SumConfidence(group) >= config.minConfidence * |group|
    ensures r.Some? ==> r.value.votes == |group|
    ensures r.Some? ==> r.value.consensus == NatToString(|group|) + "/" + NatToString(totalModels) + " models agree"
  {
    var voteCount := |group|;
    if !PassesVote(config.votingStrategy, voteCount, totalModels) then None
    else if SumConfidence(group) < config.minConfidence * voteCount then None
    else
      var best := group[BestIndex(group)];
      Some(VotedIssue(
        best.(confidence := RoundedMean(SumConfidence(group), voteCount)),
        voteCount,
        NatToString(voteCount) + "/" + NatToString(totalModels) + " models agree"))
  }

  lemma {:induction false} SumConfidenceBounds(group: seq<AIIssue>, lo: int, hi: int)
    requires forall j :: 0 <= j < |group| ==> lo <= group[j].confidence <= hi
    ensures lo * |group| <= SumConfidence(group) <= hi * |group|
  {
    if group != [] {
      SumConfidenceBounds(group[..|group| - 1], lo, hi);
    }
  }

  lemma NonPositiveFactor(n: int, x: int)
    requires n > 0 && n * x <= 0
    ensures x <= 0
  {
  }

  lemma RoundedMeanBetween(s: int, n: int, lo: int, hi: int)
    requires n > 0 && lo * n <= s <= hi * n
    ensures lo <= RoundedMean(s, n) <= hi
  {
    var r := RoundedMean(s, n);
    assert n * (2 * r - 2 * hi - 1) <= 0;
    NonPositiveFactor(n, 2 * r - 2 * hi - 1);
    assert n * (2 * lo - 2 * r - 1) < 0;
    NonPositiveFactor(n, 2 * lo - 2 * r - 1);
  }

  /**
   * What a surviving issue is: the first most confident member of its group,
   * carrying the group's rounded mean confidence, which lies within the
   * group's range.
   */
  lemma ApplyVotingKeepsBest(group: seq<AIIssue>, totalModels: nat, config: ConsensusConfig)
    requires |group| > 0
    requires ApplyVoting(group, totalModels, config).Some?
    ensures var v, k := ApplyVoting(group, totalModels, config).value, BestIndex(group);
        && v.issue == group[k].(confidence := RoundedMean(SumConfidence(group), |group|))
        && (forall j :: 0 <= j < |group| ==> group[j].confidence <= group[k].confidence)
        && (forall j :: 0 <= j < k ==> group[j].confidence < group[k].confidence)
        && v.issue.confidence <= group[k].confidence
        && (exists j :: 0 <= j < |group| && group[j].confidence <= v.issue.confidence)
  {
    var k := BestIndex(group);
    var m := LeastIndex(group);
    ApplyVotingIssue(group, totalModels, config);
    SumConfidenceBounds(group, group[m].confidence, group[k].confidence);
    RoundedMeanBetween(SumConfidence(group), |group|, group[m].confidence, group[k].confidence);
  }

  /** The surviving issue is the most confident member with the mean confidence in place of its own. */
  lemma ApplyVotingIssue(group: seq<AIIssue>, totalModels: nat, config: ConsensusConfig)
    requires |group| > 0
    requires ApplyVoting(group, totalModels, config).Some?
    ensures ApplyVoting(group, totalModels, config).value.issue ==
              group[BestIndex(group)].(confidence := RoundedMean(SumConfidence(group), |group|))
  {
  }

  // ---------------------------------------------------------------------------
  // Merging
  // ---------------------------------------------------------------------------

  /** The merged answer: the surviving issues, the joint summary and the improvements. */
  datatype ConsensusResponse = ConsensusResponse(issues: seq<VotedIssue>, summary: string, improvements: seq<string>)

  /** `results.flatMap(r => r.issues)`. */
  function AllIssues(results: seq<AIResponse>): seq<AIIssue>
  {
    if results == [] then [] else results[0].issues + AllIssues(results[1..])
  }

  /** `results.flatMap(r => r.improvements)`. */
  function AllImprovements(results: seq<AIResponse>): seq<string>
  {
    if results == [] then [] else results[0].improvements + AllImprovements(results[1..])
  }

  function Summaries(results: seq<AIResponse>): (r: seq<string>)
    ensures |r| == |results|
    ensures forall i :: 0 <= i < |results| ==> r[i] == results[i].summary
  {
    if results == [] then [] else [results[0].summary] + Summaries(results[1..])
  }

  /** `[...new Set(xs)]`: the distinct elements in order of first occurrence. */
  function Dedup(xs: seq<string>): seq<string>
  {
    if xs == [] then []
    else
      var d := Dedup(xs[..|xs| - 1]);
      if xs[|xs| - 1] in d then d else d + [xs[|xs| - 1]]
  }

  /** Position of the first occurrence of `x` in `xs`. */
  function FirstIndex(xs: seq<string>, x: string): (i: nat)
    requires x in xs
    ensures i < |xs| && xs[i] == x
    ensures forall j :: 0 <= j < i ==> xs[j] != x
  {
    if xs[0] == x then 0 else 1 + FirstIndex(xs[1..], x)
  }

  lemma FirstIndexPrefix(xs: seq<string>, x: string, n: nat)
    requires n <= |xs| && x in xs[..n]
    ensures x in xs && FirstIndex(xs, x) == FirstIndex(xs[..n], x)
  {
    var i := FirstIndex(xs[..n], x);
    assert xs[i] == x;
    var f := FirstIndex(xs, x);
    assert f <= i;
    assert xs[..n][f] == x;
  }

  /** The de-duplication keeps every element once, in order of first occurrence. */
  lemma {:induction false} DedupProperties(xs: seq<string>)
    ensures forall x :: x in Dedup(xs) <==> x in xs
    ensures forall i, j :: 0 <= i < j < |Dedup(xs)| ==> Dedup(xs)[i] != Dedup(xs)[j]
    ensures forall i, j :: 0 <= i < j < |Dedup(xs)| ==>
              FirstIndex(xs, Dedup(xs)[i]) < FirstIndex(xs, Dedup(xs)[j])
  {
    if xs != [] {
      var init, last := xs[..|xs| - 1], xs[|xs| - 1];
      DedupProperties(init);
      var d := Dedup(init);
      assert xs == init + [last];
      forall y | y in d
        ensures FirstIndex(xs, y) == FirstIndex(init, y)
      {
        FirstIndexPrefix(xs, y, |xs| - 1);
      }
      if last !in d {
        assert FirstIndex(xs, last) == |xs| - 1;
      }
    }
  }

  /** The groups that survive the vote, in group order. */
  function Survivors(groups: seq<Group>, totalModels: nat, config: ConsensusConfig): (r: seq<VotedIssue>)
    requires NonEmptyGroups(groups)
    ensures |r| <= |groups|
  {
    if groups == [] then []
    else
      var rest := Survivors(groups[1..], totalModels, config);
      match ApplyVoting(groups[0], totalModels, config)
      case Some(v) => [v] + rest
      case None => rest
  }

  /** `mergeResults`. */
  function MergeResults(results: seq<AIResponse>, config: ConsensusConfig): (r: ConsensusResponse)
    ensures |r.issues| <= |AllIssues(results)|
  {
    var groups := Grouped(AllIssues(results));
    ConsensusResponse(
      Survivors(groups, |results|, config),
      "Multi-Model Consensus Analysis (" + NatToString(|results|) + " models)\n\n"
        + Join(Summaries(results), "\n\n---\n\n"),
      Dedup(AllImprovements(results)))
  }

  lemma {:induction false} SurvivorsFromGroups(groups: seq<Group>, totalModels: nat, config: ConsensusConfig, v: VotedIssue)
    requires NonEmptyGroups(groups)
    requires v in Survivors(groups, totalModels, config)
    ensures exists g :: 0 <= g < |groups| && ApplyVoting(groups[g], totalModels, config) == Some(v)
  {
    var rest := Survivors(groups[1..], totalModels, config);
    if ApplyVoting(groups[0], totalModels, config) != Some(v) {
      assert v in rest;
      SurvivorsFromGroups(groups[1..], totalModels, config, v);
      var g :| 0 <= g < |groups| - 1 && ApplyVoting(groups[1..][g], totalModels, config) == Some(v);
      assert groups[1..][g] == groups[g + 1];
    }
  }

  /** Every group that passes the vote is reported. */
  lemma {:induction false} SurvivorsComplete(groups: seq<Group>, totalModels: nat, config: ConsensusConfig, g: nat)
    requires NonEmptyGroups(groups) && g < |groups|
    requires ApplyVoting(groups[g], totalModels, config).Some?
    ensures ApplyVoting(groups[g], totalModels, config).value in Survivors(groups, totalModels, config)
  {
    if g > 0 {
      assert groups[1..][g - 1] == groups[g];
      SurvivorsComplete(groups[1..], totalModels, config, g - 1);
    }
  }

  /** The vote is taken group by group: the survivors of joined groups are joined. */
  lemma {:induction false} SurvivorsAppend(a: seq<Group>, b: seq<Group>, totalModels: nat, config: ConsensusConfig)
    requires NonEmptyGroups(a) && NonEmptyGroups(b)
    ensures NonEmptyGroups(a + b)
    ensures Survivors(a + b, totalModels, config) == Survivors(a, totalModels, config) + Survivors(b, totalModels, config)
  {
    if a == [] {
      assert a + b == b;
    } else {
      assert (a + b)[0] == a[0] && (a + b)[1..] == a[1..] + b;
      SurvivorsAppend(a[1..], b, totalModels, config);
      if ApplyVoting(a[0], totalModels, config).Some? {
        var v, sa, sb := ApplyVoting(a[0], totalModels, config).value, Survivors(a[1..], totalModels, config), Survivors(b, totalModels, config);
        assert [v] + (sa + sb) == ([v] + sa) + sb;
      }
    }
  }

  /** An issue is reported exactly when some group's vote yields it. */
  lemma SurvivorsMembers(groups: seq<Group>, totalModels: nat, config: ConsensusConfig, v: VotedIssue)
    requires NonEmptyGroups(groups)
    ensures v in Survivors(groups, totalModels, config) <==>
              exists g :: 0 <= g < |groups| && ApplyVoting(groups[g], totalModels, config) == Some(v)
  {
    if v in Survivors(groups, totalModels, config) {
      SurvivorsFromGroups(groups, totalModels, config, v);
    }
    if g :| 0 <= g < |groups| && ApplyVoting(groups[g], totalModels, config) == Some(v) {
      SurvivorsComplete(groups, totalModels, config, g);
    }
  }

  /** Two surviving groups are reported in group order. */
  lemma SurvivorsOrder(groups: seq<Group>, totalModels: nat, config: ConsensusConfig, g1: nat, g2: nat)
    requires NonEmptyGroups(groups) && g1 < g2 < |groups|
    requires ApplyVoting(groups[g1], totalModels, config).Some?
    requires ApplyVoting(groups[g2], totalModels, config).Some?
    ensures var r := Survivors(groups, totalModels, config);
      exists i, j :: 0 <= i < j < |r|
        && r[i] == ApplyVoting(groups[g1], totalModels, config).value
        && r[j] == ApplyVoting(groups[g2], totalModels, config).value
  {
    var a, b := groups[..g2], groups[g2..];
    assert groups == a + b;
    assert a[g1] == groups[g1] && b[0] == groups[g2];
    SurvivorsAppend(a, b, totalModels, config);
    SurvivorsComplete(a, totalModels, config, g1);
    SurvivorsComplete(b, totalModels, config, 0);
    var sa, sb := Survivors(a, totalModels, config), Survivors(b, totalModels, config);
    var i :| 0 <= i < |sa| && sa[i] == ApplyVoting(groups[g1], totalModels, config).value;
    var j :| 0 <= j < |sb| && sb[j] == ApplyVoting(groups[g2], totalModels, config).value;
    assert (sa + sb)[i] == sa[i] && (sa + sb)[|sa| + j] == sb[j];
  }

  lemma MembersContain(groups: seq<Group>, g: nat, k: nat)
    requires g < |groups| && k < |groups[g]|
    ensures groups[g][k] in Members(groups)
  {
    if g > 0 {
      assert groups[1..][g - 1] == groups[g];
      MembersContain(groups[1..], g - 1, k);
    }
  }

  /**
   * No issue is invented: each reported issue is an issue some reviewer
   * returned, with its confidence replaced by its group's rounded mean, and
   * its vote count is the number of reviewer issues that agreed with it.
   */
  lemma MergeResultsFromInputs(results: seq<AIResponse>, config: ConsensusConfig, v: VotedIssue)
    requires v in MergeResults(results, config).issues
    ensures exists x :: x in AllIssues(results) && v.issue == x.(confidence := v.issue.confidence)
    ensures 1 <= v.votes <= |AllIssues(results)|
    ensures config.votingStrategy == Unanimous ==> v.votes >= |results|
    ensures config.votingStrategy == Majority ==> 2 * v.votes >= |results|
  {
    var issues := AllIssues(results);
    var groups := Grouped(issues);
    SurvivorsFromGroups(groups, |results|, config, v);
    var g :| 0 <= g < |groups| && ApplyVoting(groups[g], |results|, config) == Some(v);
    ApplyVotingKeepsBest(groups[g], |results|, config);
    var k :| 0 <= k < |groups[g]| && v.issue == groups[g][k].(confidence := v.issue.confidence);
    GroupedIsPartition(issues);
    MembersContain(groups, g, k);
    assert groups[g][k] in multiset(issues);
    GroupSizeBound(groups, g);
  }

  lemma MergedAreSurvivors(results: seq<AIResponse>, config: ConsensusConfig)
    ensures MergeResults(results, config).issues == Survivors(Grouped(AllIssues(results)), |results|, config)
  {
  }

  /**
   * The merged issues are exactly the votes of the groups of all reviewers'
   * issues that pass: none is dropped and none is invented.
   */
  lemma MergeResultsMembers(results: seq<AIResponse>, config: ConsensusConfig, v: VotedIssue)
    ensures var groups := Grouped(AllIssues(results));
      v in MergeResults(results, config).issues <==>
        exists g :: 0 <= g < |groups| && ApplyVoting(groups[g], |results|, config) == Some(v)
  {
    var groups := Grouped(AllIssues(results));
    MergedAreSurvivors(results, config);
    if v in MergeResults(results, config).issues {
      SurvivorsFromGroups(groups, |results|, config, v);
    }
    if g :| 0 <= g < |groups| && ApplyVoting(groups[g], |results|, config) == Some(v) {
      SurvivorsComplete(groups, |results|, config, g);
    }
  }

  /** Surviving groups are reported in the order the grouping opened them. */
  lemma MergeResultsOrder(results: seq<AIResponse>, config: ConsensusConfig, g1: nat, g2: nat)
    requires var groups := Grouped(AllIssues(results));
      && g1 < g2 < |groups|
      && ApplyVoting(groups[g1], |results|, config).Some?
      && ApplyVoting(groups[g2], |results|, config).Some?
    ensures var groups, r := Grouped(AllIssues(results)), MergeResults(results, config).issues;
      exists i, j :: 0 <= i < j < |r|
        && r[i] == ApplyVoting(groups[g1], |results|, config).value
        && r[j] == ApplyVoting(groups[g2], |results|, config).value
  {
    var groups := Grouped(AllIssues(results));
    MergedAreSurvivors(results, config);
    SurvivorsOrder(groups, |results|, config, g1, g2);
  }

  lemma {:induction false} GroupSizeBound(groups: seq<Group>, g: nat)
    requires g < |groups|
    ensures |groups[g]| <= |Members(groups)|
  {
    if g > 0 {
      assert groups[1..][g - 1] == groups[g];
      GroupSizeBound(groups[1..], g - 1);
    }
  }

  /** The answers of the providers that responded, in provider order. */
  function Responded(results: seq<Option<AIResponse>>): (r: seq<AIResponse>)
    ensures |r| <= |results|
    ensures |r| == 0 <==> forall i :: 0 <= i < |results| ==> results[i].None?
    ensures forall x :: x in r <==> Some(x) in results
  {
    if results == [] then []
    else
      var rest := Responded(results[1..]);
      assert forall i :: 1 <= i < |results| ==> results[i] == results[1..][i - 1];
      match results[0]
      case Some(x) => [x] + rest
      case None => rest
  }

  /** `analyzeWithConsensus`, given each provider's answer or its failure. */
  function AnalyzeWithConsensus(results: seq<Option<AIResponse>>, config: ConsensusConfig): (r: Result<ConsensusResponse>)
    ensures r.Err? <==> forall i :: 0 <= i < |results| ==> results[i].None?
    ensures r.Err? ==> r.error == "All AI providers failed"
    ensures r.Ok? ==> r.value == MergeResults(Responded(results), config)
  {
    var valid := Responded(results);
    if |valid| == 0 then Err("All AI providers failed") else Ok(MergeResults(valid, config))
  }
}
