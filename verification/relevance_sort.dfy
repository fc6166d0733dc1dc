/** The ordering step of the processing pipeline: `sort((a, b) => b.relevanceScore - a.relevanceScore)`.

    ECMAScript 2019 and later require `Array.prototype.sort` to be stable, so the result is
    fixed by three facts: it is a permutation of the input, it is non-increasing in relevance
    score, and among records of equal score it keeps their input order.  Insertion sort is the
    reference algorithm here; `SortedStableUnique` shows that any result with those three
    facts is the one it computes, whatever algorithm the engine uses.
 */
module RelevanceSort {
  import opened Types

  predicate NonIncreasing(s: seq<ProcessedArticle>)
  {
    forall i, j :: 0 <= i < j < |s| ==> s[i].relevanceScore >= s[j].relevanceScore
  }

  /** The records scoring `k`, in their order in `s`. */
  function WithScore(s: seq<ProcessedArticle>, k: int): seq<ProcessedArticle>
  {
    if |s| == 0 then []
    else (if s[0].relevanceScore == k then [s[0]] else []) + WithScore(s[1..], k)
  }

  /** Stability: every score class keeps its relative order. */
  ghost predicate SameOrderPerScore(s: seq<ProcessedArticle>, t: seq<ProcessedArticle>)
  {
    forall k :: WithScore(s, k) == WithScore(t, k)
  }

  /** A record that scores at least the head of a non-increasing list can be put in front. */
  lemma ConsNonIncreasing(h: ProcessedArticle, t: seq<ProcessedArticle>)
    requires NonIncreasing(t)
    requires |t| > 0 ==> h.relevanceScore >= t[0].relevanceScore
    ensures NonIncreasing([h] + t)
  {
    var r := [h] + t;
    forall i, j | 0 <= i < j < |r|
      ensures r[i].relevanceScore >= r[j].relevanceScore
    {
      if i == 0 {
        assert r[j] == t[j - 1];
        assert t[0].relevanceScore >= t[j - 1].relevanceScore || j == 1;
      } else {
        assert r[i] == t[i - 1] && r[j] == t[j - 1];
      }
    }
  }

  /** Places `x` before the first record that does not outscore it. */
  function Insert(x: ProcessedArticle, s: seq<ProcessedArticle>): (r: seq<ProcessedArticle>)
    ensures |r| == |s| + 1
    ensures multiset(r) == multiset(s) + multiset{x}
    ensures r[0] == x || (|s| > 0 && r[0] == s[0])
    ensures NonIncreasing(s) ==> NonIncreasing(r)
  {
    if |s| == 0 then [x]
    else if s[0].relevanceScore <= x.relevanceScore then
      assert NonIncreasing(s) ==> NonIncreasing([x] + s) by {
        if NonIncreasing(s) {
          ConsNonIncreasing(x, s);
        }
      }
      [x] + s
    else
      assert s == [s[0]] + s[1..];
      var rest := Insert(x, s[1..]);
      assert NonIncreasing(s) ==> NonIncreasing([s[0]] + rest) by {
        if NonIncreasing(s) {
          assert NonIncreasing(s[1..]) by {
            forall i, j | 0 <= i < j < |s[1..]|
              ensures s[1..][i].relevanceScore >= s[1..][j].relevanceScore
            {
              assert s[1..][i] == s[i + 1] && s[1..][j] == s[j + 1];
            }
          }
          ConsNonIncreasing(s[0], rest);
        }
      }
      [s[0]] + rest
  }

  /** The pipeline's ordering: highest relevance first. */
  function SortByRelevance(s: seq<ProcessedArticle>): (r: seq<ProcessedArticle>)
    ensures multiset(r) == multiset(s)
    ensures NonIncreasing(r)
  {
    if |s| == 0 then []
    else
      assert s == [s[0]] + s[1..];
      Insert(s[0], SortByRelevance(s[1..]))
  }

  /** Filtering by score distributes over putting one record in front. */
  lemma WithScoreCons(h: ProcessedArticle, t: seq<ProcessedArticle>, k: int)
    ensures WithScore([h] + t, k) == (if h.relevanceScore == k then [h] else []) + WithScore(t, k)
  {
    assert ([h] + t)[1..] == t;
  }

  /** The score class of `k` after an insertion: `x` joins it at the front exactly when it
      scores `k`, because the records it passes all score more than it does. */
  lemma {:induction false} WithScoreInsert(x: ProcessedArticle, s: seq<ProcessedArticle>, k: int)
    ensures WithScore(Insert(x, s), k) == (if x.relevanceScore == k then [x] else []) + WithScore(s, k)
    decreases |s|
  {
    if |s| == 0 || s[0].relevanceScore <= x.relevanceScore {
      assert Insert(x, s) == [x] + s;
      WithScoreCons(x, s, k);
    } else {
      WithScoreInsert(x, s[1..], k);
      assert Insert(x, s) == [s[0]] + Insert(x, s[1..]);
      assert s == [s[0]] + s[1..];
      WithScorePassed(s[0], x, Insert(x, s[1..]), s[1..], k);
    }
  }

  /** A head that outscores `x` commutes with `x` within every score class. */
  lemma WithScorePassed(h: ProcessedArticle, x: ProcessedArticle, t: seq<ProcessedArticle>, rest: seq<ProcessedArticle>, k: int)
    requires h.relevanceScore > x.relevanceScore
    requires WithScore(t, k) == (if x.relevanceScore == k then [x] else []) + WithScore(rest, k)
    ensures WithScore([h] + t, k) == (if x.relevanceScore == k then [x] else []) + WithScore([h] + rest, k)
  {
    WithScoreCons(h, t, k);
    WithScoreCons(h, rest, k);
    var w := WithScore(rest, k);
    if x.relevanceScore == k {
      assert WithScore([h] + t, k) == [] + ([x] + w) == [x] + ([] + w);
    }
  }

  /** The sort is stable. */
  lemma {:induction false} SortIsStable(s: seq<ProcessedArticle>)
    ensures SameOrderPerScore(SortByRelevance(s), s)
    decreases |s|
  {
    if |s| > 0 {
      SortIsStable(s[1..]);
      forall k
        ensures WithScore(SortByRelevance(s), k) == WithScore(s, k)
      {
        WithScoreInsert(s[0], SortByRelevance(s[1..]), k);
      }
    }
  }

  lemma {:induction false} WithScoreMembership(s: seq<ProcessedArticle>, k: int, x: ProcessedArticle)
    ensures x in WithScore(s, k) <==> x in s && x.relevanceScore == k
    decreases |s|
  {
    if |s| > 0 {
      WithScoreMembership(s[1..], k, x);
      assert s == [s[0]] + s[1..];
    }
  }

  /** A score that occurs in a non-increasing sequence is at most its first score. */
  lemma HeadScoreBounds(s: seq<ProcessedArticle>, x: ProcessedArticle)
    requires NonIncreasing(s) && x in s
    ensures s[0].relevanceScore >= x.relevanceScore
  {
    var j :| 0 <= j < |s| && s[j] == x;
    if j > 0 {
      assert s[0].relevanceScore >= s[j].relevanceScore;
    }
  }

  lemma WithScoreHead(s: seq<ProcessedArticle>)
    requires |s| > 0
    ensures var w := WithScore(s, s[0].relevanceScore); |w| > 0 && w[0] == s[0]
  {
  }

  /** Two sorted arrangements with the same order per score start with the same record. */
  lemma HeadsAgree(u: seq<ProcessedArticle>, v: seq<ProcessedArticle>)
    requires NonIncreasing(u) && NonIncreasing(v)
    requires SameOrderPerScore(u, v)
    requires |u| > 0
    ensures |v| > 0 && u[0] == v[0]
  {
    var m := u[0].relevanceScore;
    WithScoreHead(u);
    assert WithScore(v, m) == WithScore(u, m);
    assert |v| > 0;
    var m' := v[0].relevanceScore;
    WithScoreHead(v);
    WithScoreMembership(u, m', v[0]);
    WithScoreMembership(v, m, u[0]);
    HeadScoreBounds(u, v[0]);
    HeadScoreBounds(v, u[0]);
    assert WithScore(u, m) == WithScore(v, m);
  }

  lemma TailsAgree(u: seq<ProcessedArticle>, v: seq<ProcessedArticle>)
    requires |u| > 0 && |v| > 0 && u[0] == v[0]
    requires SameOrderPerScore(u, v)
    ensures SameOrderPerScore(u[1..], v[1..])
  {
    forall k
      ensures WithScore(u[1..], k) == WithScore(v[1..], k)
    {
      var h := if u[0].relevanceScore == k then [u[0]] else [];
      assert WithScore(u, k) == h + WithScore(u[1..], k);
      assert WithScore(v, k) == h + WithScore(v[1..], k);
      assert WithScore(u[1..], k) == WithScore(u, k)[|h|..];
      assert WithScore(v[1..], k) == WithScore(v, k)[|h|..];
    }
  }

  lemma NonEmptyTogether(u: seq<ProcessedArticle>, v: seq<ProcessedArticle>)
    requires SameOrderPerScore(u, v)
    ensures |u| > 0 ==> |v| > 0
  {
    if |u| > 0 {
      WithScoreHead(u);
      assert WithScore(v, u[0].relevanceScore) == WithScore(u, u[0].relevanceScore);
    }
  }

  /** A sorted, order-per-score-preserving arrangement is unique. */
  lemma {:induction false} SortedStableUnique(u: seq<ProcessedArticle>, v: seq<ProcessedArticle>)
    requires NonIncreasing(u) && NonIncreasing(v)
    requires SameOrderPerScore(u, v)
    ensures u == v
    decreases |u|
  {
    NonEmptyTogether(v, u);
    if |u| > 0 {
      HeadsAgree(u, v);
      TailsAgree(u, v);
      SortedStableUnique(u[1..], v[1..]);
      assert u == [u[0]] + u[1..] && v == [v[0]] + v[1..];
    }
  }

  /** Any stable descending sort of `s` produces `SortByRelevance(s)`. */
  lemma StableSortIsSortByRelevance(s: seq<ProcessedArticle>, t: seq<ProcessedArticle>)
    requires NonIncreasing(t)
    requires SameOrderPerScore(t, s)
    ensures t == SortByRelevance(s)
  {
    SortIsStable(s);
    SortedStableUnique(t, SortByRelevance(s));
  }
}
