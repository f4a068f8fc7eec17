/**
 * The post-processing shared by every fuzzy search: the per-field score lists
 * are concatenated, stably sorted by descending score, and walked in order,
 * keeping each candidate that scores at least `minScore` and is not equal to
 * one already kept, until `top` are kept. The scorer itself is foreign; its
 * output is a list of (index into the choices, score).
 */
module Ranking {

  /** One scored choice, as the scorer reports it. */
  datatype Candidate = Candidate(index: int, score: int)

  /** FuzzySearch.extractAll: scores a query against each choice string. */
  type Scorer = (string, seq<string>) -> seq<Candidate>

  /** The scorer's promise: every index it reports is an index into the choices it was given. */
  ghost predicate ValidScorer(extract: Scorer)
  {
    forall query, choices, i :: 0 <= i < |extract(query, choices)| ==> 0 <= extract(query, choices)[i].index < |choices|
  }

  ghost predicate IndicesIn(cs: seq<Candidate>, n: int)
  {
    forall i :: 0 <= i < |cs| ==> 0 <= cs[i].index < n
  }

  ghost predicate SortedDesc(cs: seq<Candidate>)
  {
    forall i, j :: 0 <= i < j < |cs| ==> cs[i].score >= cs[j].score
  }

  /** The candidates with score exactly k, in their order. */
  function WithScore(cs: seq<Candidate>, k: int): seq<Candidate>
  {
    if cs == [] then [] else (if cs[0].score == k then [cs[0]] else []) + WithScore(cs[1..], k)
  }

  /** The concatenation of the per-field lists, in field order. */
  function Concat(fields: seq<seq<Candidate>>): seq<Candidate>
  {
    if fields == [] then [] else fields[0] + Concat(fields[1..])
  }

  /** Places c before the first element whose score is not above c's. */
  function Insert(c: Candidate, s: seq<Candidate>): seq<Candidate>
  {
    if s == [] || s[0].score <= c.score then [c] + s else [s[0]] + Insert(c, s[1..])
  }

  /** `sortedByDescending { it.score }`: a stable sort. */
  function SortDesc(cs: seq<Candidate>): seq<Candidate>
  {
    if cs == [] then [] else Insert(cs[0], SortDesc(cs[1..]))
  }

  lemma {:induction false} InsertPermutes(c: Candidate, s: seq<Candidate>)
    ensures multiset(Insert(c, s)) == multiset([c] + s)
  {
    if !(s == [] || s[0].score <= c.score) {
      InsertPermutes(c, s[1..]);
      assert s == [s[0]] + s[1..];
    }
  }

  lemma ConsSorted(h: Candidate, t: seq<Candidate>)
    requires SortedDesc(t) && forall x :: x in t ==> x.score <= h.score
    ensures SortedDesc([h] + t)
  {
    var r := [h] + t;
    forall i, j | 0 <= i < j < |r| ensures r[i].score >= r[j].score {
      assert r[j] == t[j - 1];
      if i > 0 {
        assert r[i] == t[i - 1];
      }
    }
  }

  lemma {:induction false} InsertSorted(c: Candidate, s: seq<Candidate>)
    requires SortedDesc(s)
    ensures SortedDesc(Insert(c, s))
  {
    if s == [] || s[0].score <= c.score {
      forall x | x in s ensures x.score <= c.score {
        var i :| 0 <= i < |s| && s[i] == x;
        assert s[0].score >= s[i].score;
      }
      ConsSorted(c, s);
    } else {
      var tail := s[1..];
      assert SortedDesc(tail) by {
        forall i, j | 0 <= i < j < |tail| ensures tail[i].score >= tail[j].score {
          assert tail[i] == s[i + 1] && tail[j] == s[j + 1];
        }
      }
      InsertSorted(c, tail);
      InsertPermutes(c, tail);
      var t := Insert(c, tail);
      forall x | x in t ensures x.score <= s[0].score {
        assert x in multiset([c] + tail);
        if x != c {
          assert x in tail;
          var i :| 0 <= i < |tail| && tail[i] == x;
          assert s[i + 1] == x;
        }
      }
      ConsSorted(s[0], t);
    }
  }

  lemma WithScoreCons(x: Candidate, s: seq<Candidate>, k: int)
    ensures WithScore([x] + s, k) == (if x.score == k then [x] else []) + WithScore(s, k)
  {
    assert ([x] + s)[1..] == s;
  }

  lemma {:induction false} InsertKeepsEqualScoreOrder(c: Candidate, s: seq<Candidate>, k: int)
    ensures WithScore(Insert(c, s), k) == (if c.score == k then [c] else []) + WithScore(s, k)
  {
    if s == [] || s[0].score <= c.score {
      WithScoreCons(c, s, k);
    } else {
      InsertKeepsEqualScoreOrder(c, s[1..], k);
      var t := Insert(c, s[1..]);
      WithScoreCons(s[0], t, k);
      WithScoreCons(s[0], s[1..], k);
      assert [s[0]] + s[1..] == s;
      var head := if s[0].score == k then [s[0]] else [];
      var mine := if c.score == k then [c] else [];
      var rest := WithScore(s[1..], k);
      if head == [] {
        assert head + (mine + rest) == mine + rest;
        assert mine + (head + rest) == mine + rest;
      } else {
        assert mine == [];
        assert head + (mine + rest) == head + rest;
        assert mine + (head + rest) == head + rest;
      }
    }
  }

  /**
   * The sort orders by descending score, loses and invents nothing, and keeps
   * candidates of equal score in their original order.
   */
  lemma {:induction false} SortDescIsStableSort(cs: seq<Candidate>)
    ensures SortedDesc(SortDesc(cs))
    ensures multiset(SortDesc(cs)) == multiset(cs)
    ensures forall k :: WithScore(SortDesc(cs), k) == WithScore(cs, k)
  {
    if cs != [] {
      SortDescIsStableSort(cs[1..]);
      InsertSorted(cs[0], SortDesc(cs[1..]));
      InsertPermutes(cs[0], SortDesc(cs[1..]));
      forall k ensures WithScore(SortDesc(cs), k) == WithScore(cs, k) {
        InsertKeepsEqualScoreOrder(cs[0], SortDesc(cs[1..]), k);
      }
      assert cs == [cs[0]] + cs[1..];
    }
  }

  lemma ConcatIndicesIn(fields: seq<seq<Candidate>>, n: int)
    requires forall f :: 0 <= f < |fields| ==> IndicesIn(fields[f], n)
    ensures IndicesIn(Concat(fields), n)
  {
    if fields != [] {
      ConcatIndicesIn(fields[1..], n);
    }
  }

  /** The field lists a valid scorer produces over n choices each can be ranked together. */
  lemma FieldsIndicesIn(extract: Scorer, query: string, fieldChoices: seq<seq<string>>, n: int)
    requires ValidScorer(extract)
    requires forall f :: 0 <= f < |fieldChoices| ==> |fieldChoices[f]| == n
    ensures IndicesIn(Concat(seq(|fieldChoices|, f requires 0 <= f < |fieldChoices| => extract(query, fieldChoices[f]))), n)
  {
    var fields := seq(|fieldChoices|, f requires 0 <= f < |fieldChoices| => extract(query, fieldChoices[f]));
    forall f | 0 <= f < |fields| ensures IndicesIn(fields[f], n) {
      assert fields[f] == extract(query, fieldChoices[f]);
    }
    ConcatIndicesIn(fields, n);
  }

  lemma SortDescIndicesIn(cs: seq<Candidate>, n: int)
    requires IndicesIn(cs, n)
    ensures IndicesIn(SortDesc(cs), n)
  {
    SortDescIsStableSort(cs);
    forall i | 0 <= i < |SortDesc(cs)| ensures 0 <= SortDesc(cs)[i].index < n {
      assert SortDesc(cs)[i] in multiset(cs);
    }
  }

  /** The choices the candidates point at. */
  function Picks<T>(cs: seq<Candidate>, choices: seq<T>): (r: seq<T>)
    requires IndicesIn(cs, |choices|)
    ensures |r| == |cs|
  {
    seq(|cs|, i requires 0 <= i < |cs| => choices[cs[i].index])
  }

  ghost predicate Distinct<X>(xs: seq<X>)
  {
    forall i, j :: 0 <= i < j < |xs| ==> xs[i] != xs[j]
  }

  function KeysOf<T, K>(xs: seq<T>, key: T -> K): (r: seq<K>)
    ensures |r| == |xs|
  {
    seq(|xs|, i requires 0 <= i < |xs| => key(xs[i]))
  }

  /**
   * The walk without its stop: each candidate, in order, is kept when it scores
   * at least minScore and its choice is not equal (by `key`) to a kept one.
   */
  function Admit<T, K(==)>(sorted: seq<Candidate>, choices: seq<T>, key: T -> K, minScore: int): (r: seq<Candidate>)
    requires IndicesIn(sorted, |choices|)
    ensures IndicesIn(r, |choices|)
  {
    if sorted == [] then []
    else
      var prev := Admit(sorted[..|sorted| - 1], choices, key, minScore);
      var c := sorted[|sorted| - 1];
      if key(choices[c.index]) in KeysOf(Picks(prev, choices), key) || c.score < minScore then prev
      else prev + [c]
  }

  function Take<X>(xs: seq<X>, n: nat): (r: seq<X>)
    ensures |r| <= n && |r| <= |xs|
  {
    if |xs| <= n then xs else xs[..n]
  }

  /** The loop stops once `finalRes.size >= top`, after at least one addition. */
  function Limit(top: int): nat
  {
    if top < 1 then 1 else top
  }

  /** The admitted candidates of the whole search, before picking the choices. */
  function Ranked<T, K(==)>(fields: seq<seq<Candidate>>, choices: seq<T>, key: T -> K, minScore: int, top: int): (r: seq<Candidate>)
    requires IndicesIn(Concat(fields), |choices|)
    ensures IndicesIn(r, |choices|)
  {
    SortDescIndicesIn(Concat(fields), |choices|);
    Take(Admit(SortDesc(Concat(fields)), choices, key, minScore), Limit(top))
  }

  lemma {:induction false} AdmitPrefix<T, K>(sorted: seq<Candidate>, n: nat, choices: seq<T>, key: T -> K, minScore: int)
    requires IndicesIn(sorted, |choices|) && n <= |sorted|
    ensures Admit(sorted[..n], choices, key, minScore) <= Admit(sorted, choices, key, minScore)
    decreases |sorted|
  {
    if n < |sorted| {
      var s' := sorted[..|sorted| - 1];
      assert s'[..n] == sorted[..n];
      AdmitPrefix(s', n, choices, key, minScore);
    } else {
      assert sorted[..n] == sorted;
    }
  }

  /** The walk keeps only candidates of the input that score at least minScore. */
  lemma {:induction false} AdmitIsSubsequence<T, K>(sorted: seq<Candidate>, choices: seq<T>, key: T -> K, minScore: int)
    requires IndicesIn(sorted, |choices|)
    ensures forall c :: c in Admit(sorted, choices, key, minScore) ==> c in sorted && c.score >= minScore
  {
    if sorted != [] {
      var s' := sorted[..|sorted| - 1];
      AdmitIsSubsequence(s', choices, key, minScore);
      assert forall c :: c in s' ==> c in sorted;
    }
  }

  /** The walk keeps the order of its input: a descending input gives a descending result. */
  lemma {:induction false} AdmitKeepsOrder<T, K>(sorted: seq<Candidate>, choices: seq<T>, key: T -> K, minScore: int)
    requires IndicesIn(sorted, |choices|) && SortedDesc(sorted)
    ensures SortedDesc(Admit(sorted, choices, key, minScore))
  {
    if sorted != [] {
      var s' := sorted[..|sorted| - 1];
      assert SortedDesc(s');
      AdmitKeepsOrder(s', choices, key, minScore);
      AdmitIsSubsequence(s', choices, key, minScore);
      var prev := Admit(s', choices, key, minScore);
      var c := sorted[|sorted| - 1];
      forall a | a in prev ensures a.score >= c.score {
        var i :| 0 <= i < |s'| && s'[i] == a;
      }
    }
  }

  lemma {:induction false} AdmitKeysDistinct<T, K>(sorted: seq<Candidate>, choices: seq<T>, key: T -> K, minScore: int)
    requires IndicesIn(sorted, |choices|)
    ensures Distinct(KeysOf(Picks(Admit(sorted, choices, key, minScore), choices), key))
  {
    if sorted != [] {
      var s' := sorted[..|sorted| - 1];
      AdmitKeysDistinct(s', choices, key, minScore);
      var prev := Admit(s', choices, key, minScore);
      var a := Admit(sorted, choices, key, minScore);
      if a != prev {
        var c := sorted[|sorted| - 1];
        assert a == prev + [c];
        var ks := KeysOf(Picks(a, choices), key);
        var kp := KeysOf(Picks(prev, choices), key);
        assert ks == kp + [key(choices[c.index])];
        assert key(choices[c.index]) !in kp;
        forall i, j | 0 <= i < j < |ks| ensures ks[i] != ks[j] {
          assert ks[i] == kp[i];
          if j < |kp| {
            assert ks[j] == kp[j];
            assert kp[i] != kp[j];
          } else {
            assert kp[i] in kp;
          }
        }
      }
    }
  }

  /** Every choice that some candidate admits is kept by the walk (before the stop). */
  lemma {:induction false} AdmitComplete<T, K>(sorted: seq<Candidate>, choices: seq<T>, key: T -> K, minScore: int)
    requires IndicesIn(sorted, |choices|)
    ensures forall i :: 0 <= i < |sorted| && sorted[i].score >= minScore ==>
              key(choices[sorted[i].index]) in KeysOf(Picks(Admit(sorted, choices, key, minScore), choices), key)
  {
    if sorted != [] {
      var s' := sorted[..|sorted| - 1];
      AdmitComplete(s', choices, key, minScore);
      var prev := Admit(s', choices, key, minScore);
      var a := Admit(sorted, choices, key, minScore);
      assert KeysOf(Picks(prev, choices), key) <= KeysOf(Picks(a, choices), key);
      forall i | 0 <= i < |sorted| && sorted[i].score >= minScore
        ensures key(choices[sorted[i].index]) in KeysOf(Picks(a, choices), key)
      {
        if i < |s'| {
          assert sorted[i] == s'[i];
          var kp := KeysOf(Picks(prev, choices), key);
          var k :| 0 <= k < |kp| && kp[k] == key(choices[sorted[i].index]);
          assert KeysOf(Picks(a, choices), key)[k] == kp[k];
        } else if a != prev {
          assert KeysOf(Picks(a, choices), key)[|a| - 1] == key(choices[sorted[i].index]);
        }
      }
    }
  }

  /**
   * What every search promises: at most max(top, 1) results, no two equal (by
   * `key`), each admitted by a candidate of some field scoring at least
   * minScore, in non-increasing order of the admitting score.
   */
  lemma RankedGuarantees<T, K>(fields: seq<seq<Candidate>>, choices: seq<T>, key: T -> K, minScore: int, top: int)
    requires IndicesIn(Concat(fields), |choices|)
    ensures var r := Ranked(fields, choices, key, minScore, top);
            && |r| <= Limit(top)
            && SortedDesc(r)
            && (forall c :: c in r ==> c in multiset(Concat(fields)) && c.score >= minScore)
            && Distinct(KeysOf(Picks(r, choices), key))
  {
    var all := Concat(fields);
    SortDescIsStableSort(all);
    SortDescIndicesIn(all, |choices|);
    var sorted := SortDesc(all);
    var a := Admit(sorted, choices, key, minScore);
    AdmitIsSubsequence(sorted, choices, key, minScore);
    AdmitKeepsOrder(sorted, choices, key, minScore);
    AdmitKeysDistinct(sorted, choices, key, minScore);
    var r := Ranked(fields, choices, key, minScore, top);
    assert r == Take(a, Limit(top));
    PrefixKeepsGuarantees(a, r, all, sorted, choices, key, minScore);
  }

  /**
   * A search that stops short of max(top, 1) results has missed nothing: the
   * choice of every candidate scoring at least minScore is among its results.
   */
  lemma RankedComplete<T, K>(fields: seq<seq<Candidate>>, choices: seq<T>, key: T -> K, minScore: int, top: int)
    requires IndicesIn(Concat(fields), |choices|)
    ensures var r := Ranked(fields, choices, key, minScore, top);
            |r| < Limit(top) ==>
              forall c :: c in Concat(fields) && c.score >= minScore ==>
                key(choices[c.index]) in KeysOf(Picks(r, choices), key)
  {
    var all := Concat(fields);
    SortDescIsStableSort(all);
    SortDescIndicesIn(all, |choices|);
    var sorted := SortDesc(all);
    var a := Admit(sorted, choices, key, minScore);
    var r := Ranked(fields, choices, key, minScore, top);
    if |r| < Limit(top) {
      assert r == a;
      AdmitComplete(sorted, choices, key, minScore);
      forall c | c in all && c.score >= minScore
        ensures key(choices[c.index]) in KeysOf(Picks(r, choices), key)
      {
        assert c in multiset(sorted);
        var i :| 0 <= i < |sorted| && sorted[i] == c;
      }
    }
  }

  /** The same guarantees, stated on the choices the search returns. */
  lemma RankedPicks<T, K>(fields: seq<seq<Candidate>>, choices: seq<T>, key: T -> K, minScore: int, top: int)
    requires IndicesIn(Concat(fields), |choices|)
    ensures var p := Picks(Ranked(fields, choices, key, minScore, top), choices);
            && |p| <= Limit(top)
            && (forall x :: x in p ==> x in choices)
            && (forall i, j :: 0 <= i < j < |p| ==> key(p[i]) != key(p[j]))
  {
    RankedGuarantees(fields, choices, key, minScore, top);
    var r := Ranked(fields, choices, key, minScore, top);
    var p := Picks(r, choices);
    var ks := KeysOf(p, key);
    forall i, j | 0 <= i < j < |p| ensures key(p[i]) != key(p[j]) {
      assert ks[i] == key(p[i]) && ks[j] == key(p[j]);
    }
    forall x | x in p ensures x in choices {
      var i :| 0 <= i < |p| && p[i] == x;
      assert p[i] == choices[r[i].index];
    }
  }

  lemma PrefixKeepsGuarantees<T, K>(a: seq<Candidate>, r: seq<Candidate>, all: seq<Candidate>, sorted: seq<Candidate>,
                                    choices: seq<T>, key: T -> K, minScore: int)
    requires r <= a && IndicesIn(a, |choices|)
    requires multiset(sorted) == multiset(all) && SortedDesc(a)
    requires forall c :: c in a ==> c in sorted && c.score >= minScore
    requires Distinct(KeysOf(Picks(a, choices), key))
    ensures SortedDesc(r)
    ensures forall c :: c in r ==> c in multiset(all) && c.score >= minScore
    ensures Distinct(KeysOf(Picks(r, choices), key))
  {
    forall c | c in r ensures c in multiset(all) && c.score >= minScore {
      assert c in a;
      assert c in multiset(sorted);
    }
    var ks := KeysOf(Picks(r, choices), key);
    var ka := KeysOf(Picks(a, choices), key);
    assert forall i :: 0 <= i < |ks| ==> ks[i] == ka[i];
  }

  /**
   * The walk over an already sorted list: `dedup` is declared and consulted
   * but never filled, so equality with a kept choice is what removes repeats.
   */
  method SelectTop<T, K(==)>(sorted: seq<Candidate>, choices: seq<T>, key: T -> K, minScore: int, top: int)
    returns (finalRes: seq<T>)
    requires IndicesIn(sorted, |choices|)
    ensures finalRes == Picks(Take(Admit(sorted, choices, key, minScore), Limit(top)), choices)
  {
    finalRes := [];
    var dedup: set<int> := {};
    var i := 0;
    while i < |sorted|
      invariant 0 <= i <= |sorted|
      invariant finalRes == Picks(Admit(sorted[..i], choices, key, minScore), choices)
      invariant |finalRes| < Limit(top)
    {
      var candidate := sorted[i];
      var node := choices[candidate.index];
      SelectStep(sorted, i, choices, key, minScore, finalRes);
      if candidate.index in dedup || key(node) in KeysOf(finalRes, key) || candidate.score < minScore {
        i := i + 1;
        continue;
      }
      finalRes := finalRes + [node];
      if |finalRes| >= top {
        AdmitPrefix(sorted, i + 1, choices, key, minScore);
        TakeFull(Admit(sorted[..i + 1], choices, key, minScore), Admit(sorted, choices, key, minScore), Limit(top));
        return;
      }
      i := i + 1;
    }
    assert sorted[..i] == sorted;
  }

  /** One step of the walk, seen through the picked choices. */
  lemma SelectStep<T, K>(sorted: seq<Candidate>, i: nat, choices: seq<T>, key: T -> K, minScore: int, picked: seq<T>)
    requires IndicesIn(sorted, |choices|) && i < |sorted|
    requires picked == Picks(Admit(sorted[..i], choices, key, minScore), choices)
    ensures var c := sorted[i];
            var node := choices[c.index];
            Picks(Admit(sorted[..i + 1], choices, key, minScore), choices)
              == if key(node) in KeysOf(picked, key) || c.score < minScore then picked else picked + [node]
  {
    assert sorted[..i + 1][..i] == sorted[..i];
    var prev := Admit(sorted[..i], choices, key, minScore);
    var c := sorted[i];
    if !(key(choices[c.index]) in KeysOf(picked, key) || c.score < minScore) {
      PicksSnoc(prev, c, choices);
    }
  }

  lemma PicksSnoc<T>(cs: seq<Candidate>, c: Candidate, choices: seq<T>)
    requires IndicesIn(cs, |choices|) && 0 <= c.index < |choices|
    ensures Picks(cs + [c], choices) == Picks(cs, choices) + [choices[c.index]]
  {
  }

  /** A prefix of length n is what taking n gives. */
  lemma TakeFull<X>(prefix: seq<X>, xs: seq<X>, n: nat)
    requires prefix <= xs && |prefix| == n
    ensures Take(xs, n) == prefix
  {
  }

  /** The whole post-processing: concatenate, sort, walk. */
  method Rank<T, K(==)>(fields: seq<seq<Candidate>>, choices: seq<T>, key: T -> K, minScore: int, top: int)
    returns (finalRes: seq<T>)
    requires IndicesIn(Concat(fields), |choices|)
    ensures finalRes == Picks(Ranked(fields, choices, key, minScore, top), choices)
  {
    var all := Concat(fields);
    SortDescIndicesIn(all, |choices|);
    finalRes := SelectTop(SortDesc(all), choices, key, minScore, top);
  }
}
