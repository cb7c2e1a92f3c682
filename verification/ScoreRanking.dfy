/** Turning score tables into ranked lists: the exchange sort used by every ranking query. */
module ScoreRankings {
  import PageRanks

  datatype Scored = Scored(symbol: string, score: real)

  ghost predicate Descending(s: seq<Scored>) {
    forall i, j | 0 <= i < j < |s| :: s[i].score >= s[j].score
  }

  /** The first `i` places hold the highest scores, in order. */
  ghost predicate Placed(s: seq<Scored>, i: nat) {
    forall k, l | 0 <= k < i && k < l < |s| :: s[k].score >= s[l].score
  }

  method SortDescending(a: array<Scored>)
    modifies a
    ensures Descending(a[..])
    ensures multiset(a[..]) == multiset(old(a[..]))
  {
    var i := 0;
    while i < a.Length - 1
      invariant 0 <= i <= a.Length
      invariant Placed(a[..], i)
      invariant multiset(a[..]) == multiset(old(a[..]))
    {
      var j := i + 1;
      while j < a.Length
        invariant i < j <= a.Length
        invariant Placed(a[..], i)
        invariant forall k | i < k < j :: a[i].score >= a[k].score
        invariant multiset(a[..]) == multiset(old(a[..]))
      {
        if a[j].score > a[i].score {
          ghost var before := a[..];
          a[i], a[j] := a[j], a[i];
          SwapFacts(before, i, j);
          assert a[..] == before[i := before[j]][j := before[i]];
        }
        j := j + 1;
      }
      i := i + 1;
    }
  }

  lemma SwapFacts(s: seq<Scored>, i: nat, j: nat)
    requires i < j < |s| && Placed(s, i)
    ensures Placed(s[i := s[j]][j := s[i]], i)
    ensures multiset(s[i := s[j]][j := s[i]]) == multiset(s)
  {
  }

  /** Lists every entry of a score table once, in whatever order the table yields them. */
  method Collect(scores: PageRanks.Scores) returns (results: seq<Scored>)
    ensures |results| == |scores|
    ensures forall x :: x in results <==> x.symbol in scores && x.score == scores[x.symbol]
  {
    results := [];
    var todo := scores.Keys;
    while todo != {}
      invariant todo <= scores.Keys
      invariant |results| == |scores.Keys - todo|
      invariant forall x :: x in results <==> x.symbol in scores.Keys - todo && x.score == scores[x.symbol]
      decreases todo
    {
      var sym :| sym in todo;
      assert scores.Keys - (todo - {sym}) == (scores.Keys - todo) + {sym};
      results := results + [Scored(sym, scores[sym])];
      todo := todo - {sym};
    }
    assert scores.Keys - todo == scores.Keys;
  }

  method RankedScores(scores: PageRanks.Scores) returns (results: seq<Scored>)
    ensures |results| == |scores|
    ensures forall x :: x in results <==> x.symbol in scores && x.score == scores[x.symbol]
    ensures Descending(results)
  {
    var collected := Collect(scores);
    var a := new Scored[|collected|](i requires 0 <= i < |collected| => collected[i]);
    assert a[..] == collected;
    SortDescending(a);
    results := a[..];
    SameElements(results, collected);
  }

  lemma SameElements(a: seq<Scored>, b: seq<Scored>)
    requires multiset(a) == multiset(b)
    ensures |a| == |b|
    ensures forall x :: x in a <==> x in b
  {
    assert |multiset(a)| == |a| && |multiset(b)| == |b|;
    forall x ensures x in a <==> x in b {
      assert x in a <==> x in multiset(a);
      assert x in b <==> x in multiset(b);
    }
  }

  /** At most `limit` results, as many as there are below that. */
  function Top(all: seq<Scored>, limit: nat): seq<Scored> {
    if |all| <= limit then all else all[..limit]
  }

  /** Cutting a ranked list never drops a symbol that outranks a kept one. */
  lemma TopDominates(scores: PageRanks.Scores, all: seq<Scored>, limit: nat, kept: Scored, s: string)
    requires Descending(all) && forall x :: x in all <==> x.symbol in scores && x.score == scores[x.symbol]
    requires kept in Top(all, limit)
    requires s in scores && Scored(s, scores[s]) !in Top(all, limit)
    ensures scores[s] <= kept.score && |Top(all, limit)| == limit
  {
    var dropped := Scored(s, scores[s]);
    assert dropped in all;
    var i :| 0 <= i < |Top(all, limit)| && Top(all, limit)[i] == kept;
    var j :| 0 <= j < |all| && all[j] == dropped;
    assert forall k | 0 <= k < |Top(all, limit)| :: Top(all, limit)[k] == all[k];
  }
}
