/**
 * `app/admin/components/StudentSubmissions.tsx`: the admin list of finished
 * assessments, each with its top recommendation, and a detail view listing a
 * submission's recommendations by rank.
 */
module StudentSubmissions {
  import opened Wrappers
  import Seqs
  import StableSort

  /** A stored recommendation as the list query returns it; the career join may be null. */
  datatype Recommendation = Recommendation(
    matchPercentage: real,
    confidenceScore: string,
    rank: int,
    careerName: Option<string>)

  datatype Submission = Submission(
    id: string,
    name: string,
    educationLevel: string,
    marksCgpa: real,
    createdAt: string,
    recommendations: seq<Recommendation>)

  const NotAvailable := "N/A"

  /** The index `find(r => r.rank === 1)` stops at: the first recommendation of rank 1. */
  function FirstRankOne(recs: seq<Recommendation>): (i: Option<nat>)
    ensures i.None? <==> forall j :: 0 <= j < |recs| ==> recs[j].rank != 1
    ensures i.Some? ==> i.value < |recs| && recs[i.value].rank == 1
    ensures i.Some? ==> forall j :: 0 <= j < i.value ==> recs[j].rank != 1
  {
    if recs == [] then None
    else if recs[0].rank == 1 then Some(0)
    else
      var rest := FirstRankOne(recs[1..]);
      if rest.None? then None else Some(rest.value + 1)
  }

  /** `getTopRecommendation`: the submission's rank-1 recommendation, if it has one. */
  function GetTopRecommendation(submission: Submission): (top: Option<Recommendation>)
    ensures top.None? <==> forall r :: r in submission.recommendations ==> r.rank != 1
    ensures top.Some? ==> top.value in submission.recommendations && top.value.rank == 1
  {
    var recs := submission.recommendations;
    match FirstRankOne(recs)
    case None => None
    case Some(i) => Some(recs[i])
  }

  /** Rank 1 goes to the best match: when ranks follow the match percentage, the top row has the highest. */
  lemma TopIsBestMatch(submission: Submission)
    requires forall r :: r in submission.recommendations ==> r.rank >= 1
    requires forall r, q :: r in submission.recommendations && q in submission.recommendations && r.rank < q.rank ==>
               r.matchPercentage >= q.matchPercentage
    requires forall r, q :: r in submission.recommendations && q in submission.recommendations && r.rank == q.rank ==> r == q
    requires exists r :: r in submission.recommendations && r.rank == 1
    ensures GetTopRecommendation(submission).Some?
    ensures forall r :: r in submission.recommendations ==>
              GetTopRecommendation(submission).value.matchPercentage >= r.matchPercentage
  {
    var top := GetTopRecommendation(submission).value;
    forall r | r in submission.recommendations ensures top.matchPercentage >= r.matchPercentage {
      if r.rank == 1 {
        assert r == top;
      }
    }
  }

  /** The row `find(r => r.rank === 1)` returns is the first row of the rank-1 group, and there is none iff the group is empty. */
  lemma {:induction false} FirstRankOneHeadsGroup(recs: seq<Recommendation>)
    ensures var g := StableSort.WithKey(recs, NegRank, -1.0);
            && (FirstRankOne(recs).None? <==> g == [])
            && (FirstRankOne(recs).Some? ==> g != [] && recs[FirstRankOne(recs).value] == g[0])
  {
    if recs != [] {
      var p := StableSort.HasKey(NegRank, -1.0);
      assert recs == [recs[0]] + recs[1..];
      Seqs.FilterCons(recs[0], recs[1..], p);
      FirstRankOneHeadsGroup(recs[1..]);
      if recs[0].rank != 1 {
        var rest := FirstRankOne(recs[1..]);
        if rest.Some? {
          assert recs[rest.value + 1] == recs[1..][rest.value];
        }
      }
    }
  }

  /**
   * Sorting the recommendations by rank, as the detail view does to the same
   * array, never changes the list view's top recommendation: the stable sort
   * keeps the first rank-1 row first among the rank-1 rows.
   */
  lemma SortKeepsTopRecommendation(submission: Submission)
    ensures var sorted := StableSort.SortDescending(submission.recommendations, NegRank);
            GetTopRecommendation(submission.(recommendations := sorted)) == GetTopRecommendation(submission)
  {
    var recs := submission.recommendations;
    var sorted := StableSort.SortDescending(recs, NegRank);
    StableSort.SortIsStable(recs, NegRank, -1.0);
    FirstRankOneHeadsGroup(recs);
    FirstRankOneHeadsGroup(sorted);
  }

  /** The "Top Career" cell: `topRec?.career_option?.name || 'N/A'`. */
  function TopCareerCell(submission: Submission): (cell: string)
    ensures cell != ""
    ensures GetTopRecommendation(submission).None? ==> cell == NotAvailable
    ensures cell != NotAvailable ==>
              var top := GetTopRecommendation(submission);
              top.Some? && top.value.careerName == Some(cell)
    ensures var top := GetTopRecommendation(submission);
            top.Some? && top.value.careerName.Some? && top.value.careerName.value != "" ==>
              cell == top.value.careerName.value
  {
    match GetTopRecommendation(submission)
    case None => NotAvailable
    case Some(top) =>
      if top.careerName.Some? && top.careerName.value != "" then top.careerName.value else NotAvailable
  }

  /** The "Match" cell: the top recommendation's percentage, or 'N/A' when there is none. */
  datatype MatchCell = MatchNotAvailable | MatchPercent(percent: real)

  function TopMatchCell(submission: Submission): (cell: MatchCell)
    ensures cell.MatchNotAvailable? <==> forall r :: r in submission.recommendations ==> r.rank != 1
    ensures cell.MatchPercent? ==>
              exists r :: r in submission.recommendations && r.rank == 1 && r.matchPercentage == cell.percent
    ensures var top := GetTopRecommendation(submission);
            top.Some? ==> cell.MatchPercent? && cell.percent == top.value.matchPercentage
  {
    match GetTopRecommendation(submission)
    case None => MatchNotAvailable
    case Some(top) => MatchPercent(top.matchPercentage)
  }

  /**
   * `(a, b) => a.rank - b.rank` as a descending key: ascending rank is
   * descending negated rank, so the stable sort of StableSort applies.
   */
  function NegRank(r: Recommendation): real {
    -(r.rank as real)
  }

  /** Ranks never decrease from left to right. */
  ghost predicate RankAscending(s: seq<Recommendation>) {
    forall i, j :: 0 <= i < j < |s| ==> s[i].rank <= s[j].rank
  }

  /** Each rank keeps the same recommendations, in the same order. */
  ghost predicate SameRankGroups(s: seq<Recommendation>, t: seq<Recommendation>) {
    forall k :: StableSort.WithKey(s, NegRank, k) == StableSort.WithKey(t, NegRank, k)
  }

  /** `s` with positions `j - 1` and `j` exchanged. */
  function SwapDown(s: seq<Recommendation>, j: nat): (r: seq<Recommendation>)
    requires 0 < j < |s|
    ensures |r| == |s|
  {
    s[j - 1 := s[j]][j := s[j - 1]]
  }

  /** Exchanging two neighbours that the filter does not both keep leaves the filter unchanged. */
  lemma FilterSwapped(pre: seq<Recommendation>, x: Recommendation, y: Recommendation,
                      post: seq<Recommendation>, p: Recommendation -> bool)
    requires !(p(x) && p(y))
    ensures Seqs.Filter(pre + [x, y] + post, p) == Seqs.Filter(pre + [y, x] + post, p)
  {
    Seqs.FilterCons(x, [y], p);
    Seqs.FilterCons(y, [x], p);
    Seqs.FilterCons(x, [], p);
    Seqs.FilterCons(y, [], p);
    assert [x] + [y] == [x, y] && [y] + [x] == [y, x];
    assert Seqs.Filter([x, y], p) == Seqs.Filter([y, x], p);
    Seqs.FilterConcat(pre, [x, y], p);
    Seqs.FilterConcat(pre, [y, x], p);
    Seqs.FilterConcat(pre + [x, y], post, p);
    Seqs.FilterConcat(pre + [y, x], post, p);
  }

  /** Exchanging two neighbours of different rank keeps every rank's group as it was. */
  lemma SwapKeepsGroups(s: seq<Recommendation>, j: nat)
    requires 0 < j < |s| && s[j - 1].rank != s[j].rank
    ensures SameRankGroups(SwapDown(s, j), s)
  {
    var pre, post := s[..j - 1], s[j + 1..];
    var x, y := s[j - 1], s[j];
    assert s == pre + [x, y] + post;
    assert SwapDown(s, j) == pre + [y, x] + post;
    forall k ensures StableSort.WithKey(SwapDown(s, j), NegRank, k) == StableSort.WithKey(s, NegRank, k) {
      FilterSwapped(pre, x, y, post, StableSort.HasKey(NegRank, k));
    }
  }

  /** A swap of neighbours of different rank keeps the groups the sequence shares with `t`. */
  lemma SwapKeepsGroupsOf(s: seq<Recommendation>, j: nat, t: seq<Recommendation>)
    requires 0 < j < |s| && s[j - 1].rank != s[j].rank
    requires SameRankGroups(s, t)
    ensures SameRankGroups(SwapDown(s, j), t)
  {
    SwapKeepsGroups(s, j);
  }

  /** What the detail view's sort produces: ascending ranks, the same rows, ties in their stored order. */
  lemma RankSortFacts(s: seq<Recommendation>)
    ensures RankAscending(StableSort.SortDescending(s, NegRank))
    ensures multiset(StableSort.SortDescending(s, NegRank)) == multiset(s)
    ensures SameRankGroups(StableSort.SortDescending(s, NegRank), s)
  {
    var t := StableSort.SortDescending(s, NegRank);
    StableSort.SortIsDescending(s, NegRank);
    forall i, j | 0 <= i < j < |t| ensures t[i].rank <= t[j].rank {
      assert NegRank(t[i]) >= NegRank(t[j]);
    }
    forall k ensures StableSort.WithKey(t, NegRank, k) == StableSort.WithKey(s, NegRank, k) {
      StableSort.SortIsStable(s, NegRank, k);
    }
  }

  /**
   * `recommendations.sort((a, b) => a.rank - b.rank)`, in place, as an insertion
   * sort that swaps a row down past rows of strictly larger rank only.
   */
  method SortByRank(a: array<Recommendation>)
    modifies a
    ensures a[..] == StableSort.SortDescending(old(a[..]), NegRank)
  {
    ghost var original := a[..];
    var i := 0;
    while i < a.Length
      invariant 0 <= i <= a.Length
      invariant SortedBelow(a[..], i)
      invariant SameRankGroups(a[..], original)
    {
      SinkLast(a, i);
      i := i + 1;
    }
    forall m, n | 0 <= m < n < a.Length ensures NegRank(a[m]) >= NegRank(a[n]) {
      assert a[m].rank <= a[n].rank;
    }
    StableSort.StableSortUnique(original, a[..], NegRank);
  }

  /** Ranks never decrease among the first `n` rows. */
  ghost predicate SortedBelow(s: seq<Recommendation>, n: nat)
    requires n <= |s|
  {
    forall m, k :: 0 <= m < k < n ==> s[m].rank <= s[k].rank
  }

  /** One pass of the insertion sort: swap row `i` down past the rows of larger rank before it. */
  method SinkLast(a: array<Recommendation>, i: nat)
    requires i < a.Length && SortedBelow(a[..], i)
    modifies a
    ensures SortedBelow(a[..], i + 1)
    ensures SameRankGroups(a[..], old(a[..]))
  {
    ghost var original := a[..];
    var j := i;
    while j > 0 && a[j - 1].rank > a[j].rank
      invariant 0 <= j <= i
      invariant SortedExcept(a[..], i, j)
      invariant SameRankGroups(a[..], original)
    {
      ghost var before := a[..];
      a[j - 1], a[j] := a[j], a[j - 1];
      assert a[..] == SwapDown(before, j);
      SwapKeepsGroupsOf(before, j, original);
      SwapKeepsOrder(before, i, j);
      j := j - 1;
    }
    SortedAtRest(a[..], i, j);
  }

  /** Among the first `i + 1` rows, ranks never decrease except into row `j`. */
  ghost predicate SortedExcept(s: seq<Recommendation>, i: nat, j: nat)
    requires i < |s|
  {
    forall m, n :: 0 <= m < n <= i && n != j ==> s[m].rank <= s[n].rank
  }

  /** Swapping row `j` down past a larger rank moves the one out-of-order row down to `j - 1`. */
  lemma SwapKeepsOrder(s: seq<Recommendation>, i: nat, j: nat)
    requires 0 < j <= i < |s| && SortedExcept(s, i, j) && s[j - 1].rank > s[j].rank
    ensures SortedExcept(SwapDown(s, j), i, j - 1)
  {
  }

  /** The pass stops at the front or below a row of no larger rank: the prefix is in order. */
  lemma SortedAtRest(s: seq<Recommendation>, i: nat, j: nat)
    requires j <= i < |s| && SortedExcept(s, i, j)
    requires j == 0 || s[j - 1].rank <= s[j].rank
    ensures SortedBelow(s, i + 1)
  {
  }

  /** The detail view's list: a copy of the submission's recommendations sorted by rank. */
  method RankedRecommendations(submission: Submission) returns (ranked: seq<Recommendation>)
    ensures ranked == StableSort.SortDescending(submission.recommendations, NegRank)
  {
    var a := new Recommendation[|submission.recommendations|](i requires 0 <= i < |submission.recommendations| =>
      submission.recommendations[i]);
    assert a[..] == submission.recommendations;
    SortByRank(a);
    ranked := a[..];
  }

  /** The component's state. */
  class StudentSubmissions {
    var submissions: seq<Submission>
    var loading: bool
    var selectedSubmission: Option<Submission>

    constructor()
      ensures submissions == [] && loading && selectedSubmission == None
    {
      submissions := [];
      loading := true;
      selectedSubmission := None;
    }

    /** `loadSubmissions`; `fetched` is None when `getAllSubmissions` throws, which keeps the list. */
    method LoadSubmissions(fetched: Option<seq<Submission>>)
      modifies this
      ensures submissions == if fetched.Some? then fetched.value else old(submissions)
      ensures !loading && selectedSubmission == old(selectedSubmission)
    {
      if fetched.Some? {
        submissions := fetched.value;
      }
      loading := false;
    }

    /** The eye button of a row: open its details. */
    method ViewDetails(submission: Submission)
      modifies this
      ensures selectedSubmission == Some(submission)
      ensures submissions == old(submissions) && loading == old(loading)
    {
      selectedSubmission := Some(submission);
    }

    /** "Back to List". */
    method BackToList()
      modifies this
      ensures selectedSubmission == None
      ensures submissions == old(submissions) && loading == old(loading)
    {
      selectedSubmission := None;
    }
  }
}
