/**
 * Ranking of the score table: `Object.entries(scores)` in the table's
 * insertion order, sorted by descending score with a stable sort, then the
 * winner, the gap to the runner-up and the set of systems tied at the top.
 */
module Ranking {
  import opened Platforms

  /** One `[id, score]` pair of `Object.entries(scores)`. */
  datatype Entry = Entry(os: Os, score: int)

  /** The score table has an entry for every system. */
  predicate Complete(scores: map<Os, int>)
  {
    forall o: Os :: o in scores
  }

  /** The position of a system in the table's insertion order. */
  function Idx(o: Os): (i: nat)
    ensures i < |Order| && Order[i] == o
  {
    match o
    case Android => 0
    case Ios => 1
    case IpadOs => 2
    case MacOs => 3
    case Windows => 4
    case Linux => 5
  }

  /** `Object.entries(scores)`: one pair per system, in insertion order. */
  function Entries(scores: map<Os, int>): (es: seq<Entry>)
    requires Complete(scores)
    ensures |es| == |Order|
    ensures forall i :: 0 <= i < |es| ==> es[i] == Entry(Order[i], scores[Order[i]])
  {
    seq(|Order|, i requires 0 <= i < |Order| => Entry(Order[i], scores[Order[i]]))
  }

  /**
   * The order a stable descending sort produces: higher score first, and
   * among equal scores the earlier system of the insertion order first.
   */
  predicate Before(x: Entry, y: Entry)
  {
    x.score > y.score || (x.score == y.score && Idx(x.os) < Idx(y.os))
  }

  predicate Ordered(es: seq<Entry>)
  {
    forall i, j :: 0 <= i < j < |es| ==> Before(es[i], es[j])
  }

  /** Insertion of `x` in front of every entry it does not score below. */
  function Insert(x: Entry, ys: seq<Entry>): (r: seq<Entry>)
    ensures |r| == |ys| + 1
    ensures multiset(r) == multiset(ys) + multiset{x}
  {
    if ys == [] then [x]
    else if x.score >= ys[0].score then [x] + ys
    else
      assert ys == [ys[0]] + ys[1..];
      [ys[0]] + Insert(x, ys[1..])
  }

  /**
   * `entries.sort((a, b) => b[1] - a[1])`: Array.prototype.sort is stable, so
   * entries with equal scores keep their relative order; a stable insertion
   * sort computes the same arrangement.
   */
  function SortDesc(es: seq<Entry>): (r: seq<Entry>)
    ensures |r| == |es|
    ensures multiset(r) == multiset(es)
  {
    if es == [] then []
    else
      assert es == [es[0]] + es[1..];
      Insert(es[0], SortDesc(es[1..]))
  }

  /** Inserting an entry that comes earlier in the insertion order than every other keeps the order. */
  lemma {:induction false} InsertOrdered(x: Entry, ys: seq<Entry>)
    requires Ordered(ys)
    requires forall k :: 0 <= k < |ys| ==> Idx(x.os) < Idx(ys[k].os)
    ensures Ordered(Insert(x, ys))
  {
    if ys == [] {
    } else if x.score >= ys[0].score {
      forall k | 0 <= k < |ys|
        ensures Before(x, ys[k])
      {
        if k > 0 {
          assert Before(ys[0], ys[k]);
        }
      }
      ConsOrdered(x, ys);
    } else {
      var tail := ys[1..];
      InsertOrdered(x, tail);
      var r := Insert(x, tail);
      forall k | 0 <= k < |r|
        ensures Before(ys[0], r[k])
      {
        assert r[k] in multiset(tail) + multiset{x};
        if r[k] != x {
          assert r[k] in tail;
          var m :| 0 <= m < |tail| && tail[m] == r[k];
          assert ys[1 + m] == r[k];
        }
      }
      ConsOrdered(ys[0], r);
    }
  }

  /** An entry that comes before every entry of an ordered list can be put in front of it. */
  lemma ConsOrdered(y: Entry, r: seq<Entry>)
    requires Ordered(r)
    requires forall k :: 0 <= k < |r| ==> Before(y, r[k])
    ensures Ordered([y] + r)
  {
    var l := [y] + r;
    forall i, j | 0 <= i < j < |l|
      ensures Before(l[i], l[j])
    {
      if i > 0 {
        assert l[i] == r[i - 1] && l[j] == r[j - 1];
      } else {
        assert l[j] == r[j - 1];
      }
    }
  }

  /** The positions of a list's systems in the insertion order strictly increase. */
  predicate IdxIncreasing(es: seq<Entry>)
  {
    forall i, j :: 0 <= i < j < |es| ==> Idx(es[i].os) < Idx(es[j].os)
  }

  /** Sorting a list given in insertion order yields the stable descending order. */
  lemma {:induction false} SortDescOrdered(es: seq<Entry>)
    requires IdxIncreasing(es)
    ensures Ordered(SortDesc(es))
  {
    if es != [] {
      var tail := es[1..];
      SortDescOrdered(tail);
      var r := SortDesc(tail);
      forall k | 0 <= k < |r|
        ensures Idx(es[0].os) < Idx(r[k].os)
      {
        assert r[k] in multiset(tail);
        var m :| 0 <= m < |tail| && tail[m] == r[k];
        assert es[1 + m] == r[k];
      }
      InsertOrdered(es[0], r);
    }
  }

  /** The systems of `es` that score exactly `t`, in list order. */
  function WithScore(es: seq<Entry>, t: int): (r: seq<Os>)
    ensures |r| <= |es|
  {
    if es == [] then [] else (if es[0].score == t then [es[0].os] else []) + WithScore(es[1..], t)
  }

  lemma {:induction false} WithScoreMembers(es: seq<Entry>, t: int, o: Os)
    ensures o in WithScore(es, t) <==> Entry(o, t) in es
  {
    if es != [] {
      WithScoreMembers(es[1..], t, o);
      assert es == [es[0]] + es[1..];
    }
  }

  /** The outcome of ranking a complete score table. */
  datatype Ranked = Ranked(entries: seq<Entry>, top: Os, topScore: int, secondScore: int, gap: int, candidates: seq<Os>)

  /** Sort, take the first two entries, the gap, and every system scoring `topScore`. */
  function Rank(scores: map<Os, int>): (r: Ranked)
    requires Complete(scores)
    ensures |r.entries| == |Order| && r.top == r.entries[0].os
  {
    var es := SortDesc(Entries(scores));
    Ranked(es, es[0].os, es[0].score, es[1].score, es[0].score - es[1].score, WithScore(es, es[0].score))
  }

  /** The sorted entries are the table's entries, each system once with its own score, in the stable order. */
  lemma RankEntries(scores: map<Os, int>)
    requires Complete(scores)
    ensures Ordered(Rank(scores).entries)
    ensures forall e :: e in Rank(scores).entries <==> e.score == scores[e.os]
  {
    var es := Entries(scores);
    EntriesIncreasing(scores);
    SortDescOrdered(es);
    EntriesMembers(scores);
    var r := SortDesc(es);
    assert forall e :: e in r <==> e in es by {
      forall e ensures e in r <==> e in es {
        assert e in r <==> e in multiset(es);
      }
    }
  }

  /** The entries follow the insertion order. */
  lemma EntriesIncreasing(scores: map<Os, int>)
    requires Complete(scores)
    ensures IdxIncreasing(Entries(scores))
  {
    var es := Entries(scores);
    forall i | 0 <= i < |es|
      ensures Idx(es[i].os) == i
    {
      IdxOfOrder(i);
    }
  }

  lemma IdxOfOrder(i: nat)
    requires i < |Order|
    ensures Idx(Order[i]) == i
  {
    OrderIsComplete(Order[i]);
  }

  /** Every system appears among the entries once, with its own score. */
  lemma EntriesMembers(scores: map<Os, int>)
    requires Complete(scores)
    ensures forall e :: e in Entries(scores) <==> e.score == scores[e.os]
  {
    var es := Entries(scores);
    forall e
      ensures e in es <==> e.score == scores[e.os]
    {
      if e.score == scores[e.os] {
        assert es[Idx(e.os)] == e;
      }
    }
  }

  /**
   * The winner has the highest score, and every system ahead of it in the
   * insertion order scores strictly less: it is the first maximal system of
   * `android, ios, ipados, macos, windows, linux`.
   */
  lemma WinnerIsFirstMaximal(scores: map<Os, int>)
    requires Complete(scores)
    ensures scores[Rank(scores).top] == Rank(scores).topScore
    ensures forall o: Os :: scores[o] <= Rank(scores).topScore
    ensures forall o: Os :: Idx(o) < Idx(Rank(scores).top) ==> scores[o] < Rank(scores).topScore
  {
    RankEntries(scores);
    var r := Rank(scores);
    var es := r.entries;
    forall o: Os
      ensures scores[o] <= r.topScore
      ensures Idx(o) < Idx(r.top) ==> scores[o] < r.topScore
    {
      var e := Entry(o, scores[o]);
      assert e in es;
      var k :| 0 <= k < |es| && es[k] == e;
      if k > 0 {
        assert Before(es[0], es[k]);
      }
    }
  }

  /**
   * The gap to the runner-up is never negative, and the tie set has more
   * than one member exactly when the gap is zero.
   */
  lemma GapAndTies(scores: map<Os, int>)
    requires Complete(scores)
    ensures Rank(scores).gap >= 0
    ensures |Rank(scores).candidates| > 1 <==> Rank(scores).gap == 0
    ensures Rank(scores).candidates != [] && Rank(scores).candidates[0] == Rank(scores).top
  {
    RankEntries(scores);
    var r := Rank(scores);
    var es := r.entries;
    var t := r.topScore;
    assert Before(es[0], es[1]);
    var rest := es[1..];
    assert es == [es[0]] + rest;
    assert r.candidates == [es[0].os] + WithScore(rest, t);
    if r.gap == 0 {
      assert rest == [rest[0]] + rest[1..];
      assert WithScore(rest, t) == [rest[0].os] + WithScore(rest[1..], t);
    }
    if |r.candidates| > 1 {
      var o := WithScore(rest, t)[0];
      WithScoreMembers(rest, t, o);
      assert Entry(o, t) in rest;
    }
  }

  /** The tie set is exactly the systems that reach the top score. */
  lemma CandidatesAreTopScorers(scores: map<Os, int>, o: Os)
    requires Complete(scores)
    ensures o in Rank(scores).candidates <==> scores[o] == Rank(scores).topScore
  {
    RankEntries(scores);
    WithScoreMembers(Rank(scores).entries, Rank(scores).topScore, o);
  }

  /** All scores non-negative: so are the top score and the runner-up's. */
  lemma NonNegativeScores(scores: map<Os, int>)
    requires Complete(scores)
    requires forall o: Os :: scores[o] >= 0
    ensures Rank(scores).topScore >= Rank(scores).secondScore >= 0
  {
    RankEntries(scores);
    var es := Rank(scores).entries;
    assert es[1] in es;
    assert Before(es[0], es[1]);
  }
}
