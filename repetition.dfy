/** The repetition statistics of `analyze_text`: occurrence counts of stems,
    the stems kept because they repeat, their word-index positions and the
    least gap between consecutive positions. */
module Repetition {

  /** No element occurs twice. */
  predicate NoDups<T(==)>(s: seq<T>)
  {
    forall i, j :: 0 <= i < j < |s| ==> s[i] != s[j]
  }

  predicate StrictlyIncreasing(ps: seq<int>)
  {
    forall i, j :: 0 <= i < j < |ps| ==> ps[i] < ps[j]
  }

  /** The word indices at which stem `w` occurs, in increasing order: what the
      position loop appends for `w`. */
  function Occurrences(s: seq<string>, w: string): (r: seq<nat>)
    ensures |r| <= |s|
    ensures forall k :: 0 <= k < |r| ==> r[k] < |s| && s[r[k]] == w
  {
    if s == [] then []
    else
      var n := |s| - 1;
      Occurrences(s[..n], w) + (if s[n] == w then [n] else [])
  }

  /** The positions are increasing. */
  lemma {:induction false} OccurrencesIncreasing(s: seq<string>, w: string)
    ensures StrictlyIncreasing(Occurrences(s, w))
  {
    if s != [] {
      var n := |s| - 1;
      OccurrencesIncreasing(s[..n], w);
      var p, r := Occurrences(s[..n], w), Occurrences(s, w);
      assert r == p + (if s[n] == w then [n] else []);
      forall i, j | 0 <= i < j < |r| ensures r[i] < r[j] {
        if j < |p| {
          assert r[i] == p[i] && r[j] == p[j];
        } else {
          assert r[i] == p[i] < n == r[j];
        }
      }
    }
  }

  /** Every index holding `w` is among the positions. */
  lemma {:induction false} OccurrencesComplete(s: seq<string>, w: string)
    ensures forall i :: 0 <= i < |s| && s[i] == w ==> i in Occurrences(s, w)
  {
    if s != [] {
      var n := |s| - 1;
      var t := s[..n];
      OccurrencesComplete(t, w);
      var p, r := Occurrences(t, w), Occurrences(s, w);
      assert r == p + (if s[n] == w then [n] else []);
      forall i | 0 <= i < |s| && s[i] == w ensures i in r {
        if i < n {
          assert t[i] == s[i] && i in p;
        } else {
          assert r[|r| - 1] == n;
        }
      }
    }
  }

  /** The positions are increasing, each holds `w`, and every index holding
      `w` is among them. */
  lemma OccurrencesSpec(s: seq<string>, w: string)
    ensures var r := Occurrences(s, w);
      && StrictlyIncreasing(r)
      && (forall k :: 0 <= k < |r| ==> r[k] < |s| && s[r[k]] == w)
      && (forall i :: 0 <= i < |s| && s[i] == w ==> i in r)
  {
    OccurrencesIncreasing(s, w);
    OccurrencesComplete(s, w);
  }

  /** A stem's count in `Counter(s)` is its number of positions. */
  lemma {:induction false} OccurrencesCount(s: seq<string>, w: string)
    ensures |Occurrences(s, w)| == multiset(s)[w]
  {
    if s != [] {
      var n := |s| - 1;
      assert s == s[..n] + [s[n]];
      OccurrencesCount(s[..n], w);
    }
  }

  /** `Counter(stemmed_words)` filtered to counts above one: every key is a
      stem of the text, counted at least twice and at most once per token. */
  function KeptCounts(s: seq<string>): (r: map<string, nat>)
    ensures forall w :: w in r ==> w in s && 2 <= r[w] <= |s|
  {
    var r := map w | w in multiset(s) && multiset(s)[w] > 1 :: multiset(s)[w];
    assert forall w :: w in r ==> r[w] <= |s| by {
      forall w | w in r ensures r[w] <= |s| {
        OccurrencesCount(s, w);
      }
    }
    r
  }

  /** The filtered counter holds exactly the stems with two or more
      positions, each mapped to its number of positions. */
  lemma KeptCountsExact(s: seq<string>, w: string)
    ensures w in KeptCounts(s) <==> |Occurrences(s, w)| > 1
    ensures w in KeptCounts(s) ==> KeptCounts(s)[w] == |Occurrences(s, w)| <= |s|
  {
    OccurrencesCount(s, w);
    OccurrencesSpec(s, w);
    PositionsBound(Occurrences(s, w), |s|);
  }

  /** An increasing sequence of naturals below `n` has at most `n` entries. */
  lemma {:induction false} PositionsBound(ps: seq<nat>, n: nat)
    requires StrictlyIncreasing(ps)
    requires forall k :: 0 <= k < |ps| ==> ps[k] < n
    ensures |ps| <= n
  {
    if ps != [] {
      var m := |ps| - 1;
      assert StrictlyIncreasing(ps[..m]);
      PositionsBound(ps[..m], ps[m]);
    }
  }

  /** The distinct elements of `s` in order of first occurrence: the key
      order of a `Counter` built from `s`. */
  function FirstOccurrences(s: seq<string>): (r: seq<string>)
    ensures NoDups(r)
    ensures forall x :: x in r <==> x in s
  {
    if s == [] then []
    else
      var d := FirstOccurrences(s[..|s| - 1]);
      var x := s[|s| - 1];
      assert forall y :: y in s <==> y in s[..|s| - 1] || y == x by {
        assert s == s[..|s| - 1] + [x];
      }
      if x in d then d else d + [x]
  }

  /** The elements of `ks` that repeat in `s`, in the order of `ks`: the
      dictionary comprehension keeps the counter's order. */
  function KeepRepeated(ks: seq<string>, s: seq<string>): (r: seq<string>)
    ensures forall x :: x in r <==> x in ks && multiset(s)[x] > 1
    ensures NoDups(ks) ==> NoDups(r)
  {
    if ks == [] then []
    else
      var rest := KeepRepeated(ks[1..], s);
      assert forall x :: x in ks <==> x == ks[0] || x in ks[1..];
      if multiset(s)[ks[0]] > 1 then [ks[0]] + rest else rest
  }

  /** The key order of the filtered `word_counts`. */
  function KeptOrder(s: seq<string>): (r: seq<string>)
    ensures NoDups(r)
    ensures forall x :: x in r <==> x in KeptCounts(s)
  {
    KeepRepeated(FirstOccurrences(s), s)
  }

  /** No stem is kept exactly when no stem occurs twice. */
  lemma NothingKeptIffDistinct(s: seq<string>)
    ensures KeptOrder(s) == [] <==> NoDups(s)
  {
    if KeptOrder(s) != [] {
      KeptRepeats(s, KeptOrder(s)[0]);
    }
    if !NoDups(s) {
      var i, j :| 0 <= i < j < |s| && s[i] == s[j];
      RepeatKept(s, i, j);
    }
  }

  /** A kept stem occurs at two different indices. */
  lemma KeptRepeats(s: seq<string>, w: string)
    requires w in KeptOrder(s)
    ensures !NoDups(s)
  {
    KeptCountsExact(s, w);
    OccurrencesIncreasing(s, w);
    var r := Occurrences(s, w);
    assert s[r[0]] == s[r[1]] && r[0] < r[1];
  }

  /** A stem at two different indices is kept. */
  lemma RepeatKept(s: seq<string>, i: nat, j: nat)
    requires i < j < |s| && s[i] == s[j]
    ensures s[i] in KeptOrder(s)
  {
    OccurrencesComplete(s, s[i]);
    var r := Occurrences(s, s[i]);
    assert i in r && j in r;
    KeptCountsExact(s, s[i]);
  }

  /** The difference between entries `i` and `i + 1`. */
  function Gap(ps: seq<int>, i: nat): int
    requires i + 1 < |ps|
  {
    ps[i + 1] - ps[i]
  }

  /** A prefix has the same gaps. */
  lemma GapPrefix(ps: seq<int>, n: nat)
    requires 2 <= n <= |ps|
    ensures forall k :: 0 <= k < n - 1 ==> Gap(ps[..n], k) == Gap(ps, k)
  {
  }

  /** The least difference between consecutive entries. */
  function MinGap(ps: seq<int>): (r: int)
    requires |ps| >= 2
    ensures forall i :: 0 <= i < |ps| - 1 ==> r <= Gap(ps, i)
    ensures exists i :: 0 <= i < |ps| - 1 && r == Gap(ps, i)
  {
    var n := |ps|;
    if n == 2 then Gap(ps, 0)
    else
      var m := MinGap(ps[..n - 1]);
      var g := Gap(ps, n - 2);
      GapPrefix(ps, n - 1);
      if g < m then g else m
  }

  /** The distance recorded for a stem with positions `ps`: the least gap
      when there are two or more positions, the sentinel `len` otherwise. */
  function DistanceOf(ps: seq<int>, len: int): (r: int)
    ensures |ps| <= 1 ==> r == len
    ensures |ps| >= 2 && StrictlyIncreasing(ps) ==> 1 <= r <= ps[|ps| - 1] - ps[0]
  {
    if |ps| > 1 then
      if StrictlyIncreasing(ps) then MinGapBounds(ps); MinGap(ps) else MinGap(ps)
    else len
  }

  /** `word_min_distances` as the analysis leaves it. */
  function MinDistances(s: seq<string>, len: int): (r: map<string, int>)
    ensures r.Keys == KeptCounts(s).Keys
  {
    map w | w in KeptCounts(s) :: DistanceOf(Occurrences(s, w), len)
  }

  /** The normalisation length `max(len(words), 100)`. */
  function NormalLength(n: nat): (l: nat)
    ensures l >= 100 && l >= n
    ensures l == n || l == 100
  {
    if n > 100 then n else 100
  }

  /** For increasing positions the least gap is at least one and at most the
      spread of the positions. */
  lemma MinGapBounds(ps: seq<int>)
    requires |ps| >= 2 && StrictlyIncreasing(ps)
    ensures 1 <= MinGap(ps) <= ps[|ps| - 1] - ps[0]
  {
    var i :| 0 <= i < |ps| - 1 && MinGap(ps) == Gap(ps, i);
    assert ps[0] <= ps[i] && ps[i + 1] <= ps[|ps| - 1];
  }

  /** Every kept stem has at least two positions, so its distance is a true
      gap: at least 1 and below the word count, hence below the normalisation
      length. The single-occurrence branch never fires. */
  lemma KeptDistanceBounds(s: seq<string>, w: string)
    requires w in KeptCounts(s)
    ensures |Occurrences(s, w)| >= 2
    ensures KeptCounts(s)[w] == |Occurrences(s, w)|
    ensures DistanceOf(Occurrences(s, w), NormalLength(|s|)) == MinGap(Occurrences(s, w))
    ensures 1 <= MinDistances(s, NormalLength(|s|))[w] <= |s| - 1
    ensures MinDistances(s, NormalLength(|s|))[w] < NormalLength(|s|)
  {
    KeptCountsExact(s, w);
    OccurrencesSpec(s, w);
    var ps := Occurrences(s, w);
    MinGapBounds(ps);
    assert ps[0] >= 0 && ps[|ps| - 1] < |s|;
  }

  /** Appending a word extends the positions of its stem by one index. */
  lemma OccurrencesSnoc(s: seq<string>, x: string, w: string)
    ensures Occurrences(s + [x], w) == Occurrences(s, w) + (if x == w then [|s|] else [])
  {
    assert (s + [x])[..|s|] == s;
  }

  /** Scenario: "кот сидел кот спал кот ел", already stemmed. */
  const CatWords: seq<string> := ["кот", "сидел", "кот", "спал", "кот", "ел"]

  /** The stem "кот" sits at word indices 0, 2 and 4. */
  lemma CatPositions()
    ensures Occurrences(CatWords, "кот") == [0, 2, 4]
  {
    var w := "кот";
    var a, b, c := "сидел", "спал", "ел";
    assert a != w && b != w && c != w;
    var s1 := [] + [w];  OccurrencesSnoc([], w, w);
    var s2 := s1 + [a];  OccurrencesSnoc(s1, a, w);
    var s3 := s2 + [w];  OccurrencesSnoc(s2, w, w);
    var s4 := s3 + [b];  OccurrencesSnoc(s3, b, w);
    var s5 := s4 + [w];  OccurrencesSnoc(s4, w, w);
    var s6 := s5 + [c];  OccurrencesSnoc(s5, c, w);
    assert s6 == CatWords;
  }

  /** It is kept with count 3 and its least distance is 2. */
  lemma CatKeptAndDistance()
    ensures "кот" in KeptCounts(CatWords) && KeptCounts(CatWords)["кот"] == 3
    ensures MinDistances(CatWords, 100)["кот"] == 2
  {
    CatPositions();
    KeptCountsExact(CatWords, "кот");
    assert MinGap([0, 2, 4]) == 2;
  }
}
