/**
 * The token pipeline of `InsertWordsIfMissing`: space-separated tokens,
 * LINQ `Distinct` (first-occurrence order) and the `GroupBy`/`Count`
 * dictionary that maps each token to its number of occurrences.
 */
module WordIndexing {
  import opened TextSplit

  /** A space inside a string is an occurrence of the one-space separator. */
  lemma SpaceIsSeparator(f: string, j: nat)
    requires j < |f| && f[j] == ' '
    ensures IsSepAt(f, " ", j)
  {
    assert f[j..j + 1] == [f[j]];
  }

  /** `text.Split(' ', StringSplitOptions.RemoveEmptyEntries)`. */
  function Tokens(text: string): (r: seq<string>)
    ensures forall k :: 0 <= k < |r| ==> r[k] != "" && ' ' !in r[k]
  {
    var ts := Split(text, " ");
    SplitAvoidsSep(text, " ");
    assert forall k, j :: 0 <= k < |ts| && 0 <= j < |ts[k]| ==> ts[k][j] != ' ' by {
      forall k, j | 0 <= k < |ts| && 0 <= j < |ts[k]| && ts[k][j] == ' '
        ensures false
      {
        SpaceIsSeparator(ts[k], j);
      }
    }
    ts
  }

  /** LINQ `Distinct`: each element once, in the order of its first occurrence. */
  function Distinct(ts: seq<string>): (r: seq<string>)
    ensures forall w :: w in r <==> w in ts
    ensures forall i, j :: 0 <= i < j < |r| ==> r[i] != r[j]
  {
    if ts == [] then []
    else
      var p, x := ts[..|ts| - 1], ts[|ts| - 1];
      assert ts == p + [x];
      var d := Distinct(p);
      if x in d then d else d + [x]
  }

  /**
   * `words.GroupBy(x => x).ToDictionary(g => g.Key, g => g.Count())`, built
   * token by token: the first sight of a token adds it with count 1, each
   * later sight adds one.
   */
  function WordIndex(ts: seq<string>): (m: map<string, nat>)
    ensures m.Keys == set w | w in ts
    ensures forall w :: w in m ==> m[w] == multiset(ts)[w] && m[w] >= 1
  {
    if ts == [] then map[]
    else
      var p, x := ts[..|ts| - 1], ts[|ts| - 1];
      assert ts == p + [x];
      var m := WordIndex(p);
      m[x := (if x in m then m[x] else 0) + 1]
  }

  /** The sum of `m[k]` over the keys listed in `keys`. */
  function SumCounts(keys: seq<string>, m: map<string, nat>): nat
    requires forall k :: k in keys ==> k in m
  {
    if keys == [] then 0
    else SumCounts(keys[..|keys| - 1], m) + m[keys[|keys| - 1]]
  }

  /** Sums over the same keys agree when the counts of those keys agree. */
  lemma {:induction false} SumCountsAgree(keys: seq<string>, m: map<string, nat>, m': map<string, nat>)
    requires forall k :: k in keys ==> k in m && k in m' && m[k] == m'[k]
    ensures SumCounts(keys, m) == SumCounts(keys, m')
  {
    if keys != [] {
      SumCountsAgree(keys[..|keys| - 1], m, m');
    }
  }

  /** Adding one to the count of a key listed once adds one to the sum. */
  lemma {:induction false} SumCountsBump(keys: seq<string>, m: map<string, nat>, m': map<string, nat>, x: string)
    requires forall k :: k in keys ==> k in m && k in m' && m'[k] == m[k] + (if k == x then 1 else 0)
    requires forall i, j :: 0 <= i < j < |keys| ==> keys[i] != keys[j]
    requires x in keys
    ensures SumCounts(keys, m') == SumCounts(keys, m) + 1
  {
    var p, y := keys[..|keys| - 1], keys[|keys| - 1];
    assert keys == p + [y];
    if y == x {
      assert x !in p;
      SumCountsAgree(p, m, m');
    } else {
      SumCountsBump(p, m, m', x);
    }
  }

  /**
   * Conservation: the counts of the word index, summed over the distinct
   * tokens, give back the number of tokens.
   */
  lemma {:induction false} CountsSumToTokenCount(ts: seq<string>)
    ensures SumCounts(Distinct(ts), WordIndex(ts)) == |ts|
  {
    if ts != [] {
      var p, x := ts[..|ts| - 1], ts[|ts| - 1];
      assert ts == p + [x];
      assert multiset(ts) == multiset(p) + multiset{x};
      var d, m, m' := Distinct(p), WordIndex(p), WordIndex(ts);
      CountsSumToTokenCount(p);
      if x in d {
        assert Distinct(ts) == d;
        SumCountsBump(d, m, m', x);
      } else {
        var d1 := d + [x];
        assert Distinct(ts) == d1;
        SumCountsAgree(d, m, m');
        assert d1[..|d1| - 1] == d;
        assert SumCounts(d1, m') == SumCounts(d, m') + m'[x];
      }
    }
  }

  /**
   * The word index of a text holds exactly its distinct tokens, each counted
   * at least once and as often as it occurs, and the counts add up to the
   * number of tokens.
   */
  lemma WordIndexOfText(text: string)
    ensures WordIndex(Tokens(text)).Keys == set w | w in Distinct(Tokens(text))
    ensures forall w :: w in WordIndex(Tokens(text)) ==> w != "" && ' ' !in w
    ensures SumCounts(Distinct(Tokens(text)), WordIndex(Tokens(text))) == |Tokens(text)|
  {
    CountsSumToTokenCount(Tokens(text));
  }
}
