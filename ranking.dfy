/**
 * The ranking step shared by `search_facts`, `search_conversations`
 * (manual/memory.py) and `search_memory` (langgraph/tools.py): keep the
 * candidates whose score is positive, in insertion order; sort them by score,
 * highest first, with Python's stable sort; return the slice `[:limit]`.
 */
module Ranking {
  import opened Sorting
  import PyStr

  datatype Scored<T> = Scored(item: T, score: nat)

  /** Sort order of `key=lambda x: x[1], reverse=True`. */
  predicate ScoreGe<T>(a: Scored<T>, b: Scored<T>) {
    a.score >= b.score
  }

  lemma ScoreGeTotal<T(!new)>()
    ensures TotalPreorder(ScoreGe<T>)
  {
  }

  /** `sum(1 for term in terms if term in text)` */
  function MatchCount(terms: seq<string>, text: string): (n: nat)
    ensures n <= |terms|
    ensures n == 0 <==> forall k :: 0 <= k < |terms| ==> !PyStr.Contains(text, terms[k])
  {
    if terms == [] then 0
    else
      var init := terms[..|terms| - 1];
      assert forall k :: 0 <= k < |init| ==> init[k] == terms[k];
      MatchCount(init, text) + (if PyStr.Contains(text, terms[|terms| - 1]) then 1 else 0)
  }

  /** The candidates with a positive score, in their original order. */
  function Positive<T(!new)>(s: seq<Scored<T>>): (r: seq<Scored<T>>)
    ensures forall x :: x in r <==> x in s && x.score > 0
  {
    if s == [] then []
    else
      var init := s[..|s| - 1];
      var last := s[|s| - 1];
      assert s == init + [last];
      Positive(init) + (if last.score > 0 then [last] else [])
  }

  /** The filter keeps every positive candidate as often as it occurs. */
  lemma {:induction false} PositiveCounts<T(!new)>(s: seq<Scored<T>>, x: Scored<T>)
    ensures multiset(Positive(s))[x] == if x.score > 0 then multiset(s)[x] else 0
  {
    if s != [] {
      var init := s[..|s| - 1];
      var last := s[|s| - 1];
      assert s == init + [last];
      PositiveCounts(init, x);
      assert Positive(s) == Positive(init) + (if last.score > 0 then [last] else []);
    }
  }

  /** Scoring one more candidate extends the filtered list by it when it matched. */
  lemma PositiveSnoc<T(!new)>(s: seq<Scored<T>>, x: Scored<T>)
    ensures Positive(s + [x]) == Positive(s) + (if x.score > 0 then [x] else [])
  {
    assert (s + [x])[..|s|] == s;
  }

  /** Positive scores are all kept, so filtering leaves each score class whole. */
  lemma {:induction false} PositiveKeep<T(!new)>(s: seq<Scored<T>>, p: Scored<T>)
    requires p.score > 0
    ensures Keep(Positive(s), ScoreGe, p) == Keep(s, ScoreGe, p)
  {
    if s != [] {
      var init := s[..|s| - 1];
      var last := s[|s| - 1];
      var kept := if last.score > 0 then [last] else [];
      assert s == init + [last];
      PositiveKeep(init, p);
      PositiveSnoc(init, last);
      KeepAppend(init, [last], ScoreGe, p);
      KeepAppend(Positive(init), kept, ScoreGe, p);
      assert Keep(kept, ScoreGe, p) == Keep([last], ScoreGe, p) by {
        assert [last][1..] == [];
        if last.score == 0 {
          assert !Equiv(ScoreGe, p, last);
        }
      }
    }
  }

  /** The ranked, scored results: `sorted(results, reverse=True)[:limit]`. */
  function Top<T(!new)>(s: seq<Scored<T>>, limit: int): seq<Scored<T>>
  {
    PyStr.Take(SortBy(Positive(s), ScoreGe), limit)
  }

  function Items<T>(s: seq<Scored<T>>): (r: seq<T>)
    ensures |r| == |s|
    ensures forall k :: 0 <= k < |s| ==> r[k] == s[k].item
  {
    seq(|s|, k requires 0 <= k < |s| => s[k].item)
  }

  /** Every result is a candidate with a positive score. */
  lemma TopMatches<T(!new)>(s: seq<Scored<T>>, limit: int)
    ensures forall k :: 0 <= k < |Top(s, limit)| ==> Top(s, limit)[k] in s && Top(s, limit)[k].score > 0
  {
    var sorted := SortBy(Positive(s), ScoreGe);
    var top := Top(s, limit);
    forall k | 0 <= k < |top|
      ensures top[k] in s && top[k].score > 0
    {
      assert top[k] == sorted[k];
      assert sorted[k] in multiset(sorted);
    }
  }

  /** Results come highest score first. */
  lemma TopOrdered<T(!new)>(s: seq<Scored<T>>, limit: int)
    ensures forall i, j :: 0 <= i < j < |Top(s, limit)| ==> Top(s, limit)[i].score >= Top(s, limit)[j].score
  {
    ScoreGeTotal<T>();
    SortBySorted(Positive(s), ScoreGe);
  }

  /** At most `limit` results, and fewer only when fewer candidates match. */
  lemma TopCount<T(!new)>(s: seq<Scored<T>>, limit: int)
    requires 0 <= limit
    ensures |Top(s, limit)| == if limit < |Positive(s)| then limit else |Positive(s)|
  {
  }

  /**
   * Top-k: a matching candidate left out of the results scores no higher
   * than any result.
   */
  lemma TopComplete<T(!new)>(s: seq<Scored<T>>, limit: int, x: Scored<T>)
    requires x in s && x.score > 0
    ensures x in Top(s, limit) || forall k :: 0 <= k < |Top(s, limit)| ==> Top(s, limit)[k].score >= x.score
  {
    var sorted := SortBy(Positive(s), ScoreGe);
    var top := Top(s, limit);
    ScoreGeTotal<T>();
    SortBySorted(Positive(s), ScoreGe);
    assert x in multiset(sorted);
    var i :| 0 <= i < |sorted| && sorted[i] == x;
    if i < |top| {
      assert top[i] == x;
    } else {
      forall k | 0 <= k < |top|
        ensures top[k].score >= x.score
      {
        assert top[k] == sorted[k];
      }
    }
  }

  /** `TopComplete` for the returned items. */
  lemma TopItemsComplete<T(!new)>(s: seq<Scored<T>>, limit: int, x: Scored<T>)
    requires x in s && x.score > 0
    ensures x.item in Items(Top(s, limit)) || forall k :: 0 <= k < |Top(s, limit)| ==> Top(s, limit)[k].score >= x.score
  {
    TopComplete(s, limit, x);
    var top := Top(s, limit);
    if x in top {
      var k :| 0 <= k < |top| && top[k] == x;
      assert Items(top)[k] == x.item;
    }
  }

  /**
   * Ties keep insertion order: the results of any one score are the
   * earliest candidates of that score, in the order they were stored.
   */
  lemma TopStable<T(!new)>(s: seq<Scored<T>>, limit: int, p: Scored<T>)
    requires p.score > 0
    ensures Keep(Top(s, limit), ScoreGe, p) <= Keep(s, ScoreGe, p)
  {
    var sorted := SortBy(Positive(s), ScoreGe);
    ScoreGeTotal<T>();
    SortByStable(Positive(s), ScoreGe, p);
    PositiveKeep(s, p);
    KeepPrefix(sorted, |Top(s, limit)|, ScoreGe, p);
  }

  /** No candidate scores above zero: nothing is returned. */
  lemma TopNoMatch<T(!new)>(s: seq<Scored<T>>, limit: int)
    requires forall k :: 0 <= k < |s| ==> s[k].score == 0
    ensures Top(s, limit) == []
  {
    if Positive(s) != [] {
      assert Positive(s)[0] in s;
    }
  }
}
