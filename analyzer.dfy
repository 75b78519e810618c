/** The analyser object: the state `analyze_text`, `sort_results` and the
    highlighting read and write, and the operations on it. */
module Analyzer {
  import opened Language
  import opened Normalise
  import opened Search
  import opened Repetition
  import opened Readability
  import opened Density
  import opened Intensity
  import opened Colour
  import opened Sorting
  import opened Bands

  datatype Option<T> = None | Some(value: T)

  /** The two orders of the word list. */
  datatype SortKind = ByCount | ByDistance

  /** A running minimum that starts at `float('inf')`. */
  datatype Bound = Infinite | Finite(value: int)

  /** `min(b, x)`. */
  function MinBound(b: Bound, x: int): (r: Bound)
    ensures r.Finite?
    ensures b.Infinite? ==> r.value == x
    ensures b.Finite? ==> r.value <= b.value && r.value <= x && (r.value == x || r.value == b.value)
  {
    match b
    case Infinite => Finite(x)
    case Finite(v) => Finite(if x < v then x else v)
  }

  /** The statistics shown beside the word list. */
  datatype Report = Report(
    charCount: nat,
    charCountNoSpaces: nat,
    wordCount: nat,
    easyIndex: real,
    easyBand: FleschBand,
    fogIndex: real,
    fogBand: FogBand,
    water: real,
    waterBand: WaterBand,
    spam: real,
    spamBand: SpamBand)

  /** `[stemmer.stem(word) for word in words]`: one stem per token, in
      token order. */
  function Stems(stem: string -> string, words: seq<string>): (r: seq<string>)
    ensures |r| == |words|
    ensures forall i :: 0 <= i < |words| ==> r[i] == stem(words[i])
  {
    seq(|words|, i requires 0 <= i < |words| => stem(words[i]))
  }

  /** `len(text.replace(" ", ""))`. */
  function NonSpaceCount(text: string): (n: nat)
    ensures n == |text| - multiset(text)[' ']
  {
    if text == [] then 0
    else
      assert text == [text[0]] + text[1..];
      NonSpaceCount(text[1..]) + (if text[0] == ' ' then 0 else 1)
  }

  /** `word_counts.items()` in the dictionary's order. */
  function ItemsOf(order: seq<string>, counts: map<string, nat>): (r: seq<(string, nat)>)
    requires forall i :: 0 <= i < |order| ==> order[i] in counts
    ensures |r| == |order|
    ensures forall i :: 0 <= i < |r| ==> r[i] == (order[i], counts[order[i]])
  {
    if order == [] then [] else [(order[0], counts[order[0]])] + ItemsOf(order[1..], counts)
  }

  /** For a key order that lists every key once, the items hold every key
      exactly once, each with its count. */
  lemma ItemsOfStems(order: seq<string>, counts: map<string, nat>)
    requires NoDups(order) && forall w :: w in order <==> w in counts
    ensures var r := ItemsOf(order, counts);
      && (forall i, j :: 0 <= i < j < |r| ==> r[i].0 != r[j].0)
      && (forall w :: w in counts ==> (w, counts[w]) in r)
      && (forall p :: p in r ==> p.0 in counts && p.1 == counts[p.0])
  {
    var r := ItemsOf(order, counts);
    forall w | w in counts ensures (w, counts[w]) in r {
      var i :| 0 <= i < |order| && order[i] == w;
      assert r[i] == (w, counts[w]);
    }
  }

  /** `word_counts.values()` in the dictionary's order. */
  function ValuesOf(order: seq<string>, counts: map<string, nat>): (r: seq<nat>)
    requires forall i :: 0 <= i < |order| ==> order[i] in counts
    ensures |r| == |order|
    ensures forall i :: 0 <= i < |r| ==> r[i] == counts[order[i]]
  {
    if order == [] then [] else [counts[order[0]]] + ValuesOf(order[1..], counts)
  }

  /** The "count" order: larger counts first. */
  function CountKey(item: (string, nat)): Key
  {
    (-(item.1 as int), 0)
  }

  /** The "distance" order: smaller least distance first, then larger count.
      A stem missing from `dist` would raise in the source; the analysis
      never produces one (see `SortResults`). */
  function DistanceKey(dist: map<string, int>): ((string, nat)) -> Key
  {
    (item: (string, nat)) => (if item.0 in dist then dist[item.0] else 0, -(item.1 as int))
  }

  function KeyOf(kind: SortKind, dist: map<string, int>): ((string, nat)) -> Key
  {
    match kind
    case ByCount => CountKey
    case ByDistance => DistanceKey(dist)
  }

  /** The "count" order of `sort_results`: the same items, larger counts
      first, and the items of any one count in their dictionary order (a
      reversed Python sort is still stable). */
  lemma CountOrder(items: seq<(string, nat)>, c: nat)
    ensures var r := SortBy(items, CountKey);
      && multiset(r) == multiset(items)
      && (forall i, j :: 0 <= i < j < |r| ==> r[i].1 >= r[j].1)
      && WithKey(r, CountKey, (-(c as int), 0)) == WithKey(items, CountKey, (-(c as int), 0))
  {
    var r := SortBy(items, CountKey);
    forall i, j | 0 <= i < j < |r| ensures r[i].1 >= r[j].1 {
      assert KeyLe(CountKey(r[i]), CountKey(r[j]));
    }
    SortStable(items, CountKey, (-(c as int), 0));
  }

  /** The "distance" order of `sort_results`: the same items, smaller least
      distances first, larger counts first among equal distances, and items
      with equal keys in their dictionary order. */
  lemma DistanceOrder(items: seq<(string, nat)>, dist: map<string, int>, k: Key)
    ensures var r := SortBy(items, DistanceKey(dist));
      && multiset(r) == multiset(items)
      && (forall i, j :: 0 <= i < j < |r| && r[i].0 in dist && r[j].0 in dist ==>
            dist[r[i].0] < dist[r[j].0] || (dist[r[i].0] == dist[r[j].0] && r[i].1 >= r[j].1))
      && WithKey(r, DistanceKey(dist), k) == WithKey(items, DistanceKey(dist), k)
  {
    var r := SortBy(items, DistanceKey(dist));
    forall i, j | 0 <= i < j < |r| && r[i].0 in dist && r[j].0 in dist
      ensures dist[r[i].0] < dist[r[j].0] || (dist[r[i].0] == dist[r[j].0] && r[i].1 >= r[j].1)
    {
      assert KeyLe(DistanceKey(dist)(r[i]), DistanceKey(dist)(r[j]));
    }
    SortStable(items, DistanceKey(dist), k);
  }

  /** The offsets the position loop finds for the first `n` tokens: each
      token is searched from the end of the previous token's match, the first
      from 0. */
  function OffsetsUpTo(text: string, words: seq<string>, n: nat): (r: seq<int>)
    requires n <= |words|
    ensures |r| == n
  {
    if n == 0 then []
    else
      var prev := OffsetsUpTo(text, words, n - 1);
      prev + [Find(text, words[n - 1], SearchStart(prev, words))]
  }

  /** Where the search for the token after `prev` starts: 0 for the first
      token, otherwise the end of the previous token's match. After a found
      match that is at or after it; after a failed search (-1) it is one
      before the previous token's length. */
  function SearchStart(prev: seq<int>, words: seq<string>): (r: int)
    requires |prev| <= |words|
    ensures prev == [] ==> r == 0
    ensures prev != [] && prev[|prev| - 1] >= 0 ==> r >= prev[|prev| - 1]
    ensures prev != [] && prev[|prev| - 1] == -1 ==> r == |words[|prev| - 1]| - 1
  {
    if prev == [] then 0 else prev[|prev| - 1] + |words[|prev| - 1]|
  }

  /** Token `i`'s offset is its search from the end of the previous
      token's match. */
  lemma OffsetAt(text: string, words: seq<string>, n: nat, i: nat)
    requires i < n <= |words|
    ensures OffsetsUpTo(text, words, n)[i] == Find(text, words[i], SearchStart(OffsetsUpTo(text, words, i), words))
  {
    OffsetsPrefix(text, words, i + 1, n);
    assert OffsetsUpTo(text, words, n)[i] == OffsetsUpTo(text, words, n)[..i + 1][i];
  }

  /** A found offset is the first match of its token at or after the end of
      the previous token's match; -1 means there is no match there. */
  lemma OffsetMatch(text: string, words: seq<string>, n: nat, i: nat)
    requires i < n <= |words|
    ensures var o, start := OffsetsUpTo(text, words, n)[i], SearchStart(OffsetsUpTo(text, words, i), words);
      && (o == -1 || (o >= start && MatchAt(text, words[i], o)))
      && (o != -1 ==> forall k :: NormStart(|text|, start) <= k < o ==> !MatchAt(text, words[i], k))
      && (o == -1 <==> forall k :: NormStart(|text|, start) <= k ==> !MatchAt(text, words[i], k))
  {
    OffsetAt(text, words, n, i);
    FindSpec(text, words[i], SearchStart(OffsetsUpTo(text, words, i), words));
  }

  /** Later tokens do not change earlier offsets. */
  lemma {:induction false} OffsetsPrefix(text: string, words: seq<string>, m: nat, n: nat)
    requires m <= n <= |words|
    ensures OffsetsUpTo(text, words, n)[..m] == OffsetsUpTo(text, words, m)
    decreases n
  {
    if m < n {
      OffsetsPrefix(text, words, m, n - 1);
      assert OffsetsUpTo(text, words, n)[..n - 1] == OffsetsUpTo(text, words, n - 1);
    }
  }

  /** The highlight ranges `analyze_text` tags for the first `n` tokens,
      given their offsets: for each token whose stem is kept, the stem with
      the token's found range. */
  function Tags(words: seq<string>, stemmed: seq<string>, offsets: seq<int>, kept: map<string, nat>, n: nat)
    : seq<(string, int, int)>
    requires n <= |words| && n <= |stemmed| && n <= |offsets|
  {
    if n == 0 then []
    else
      Tags(words, stemmed, offsets, kept, n - 1)
      + (if stemmed[n - 1] in kept then [(stemmed[n - 1], offsets[n - 1], offsets[n - 1] + |words[n - 1]|)] else [])
  }

  /** The tags of the first `n` tokens only depend on their offsets. */
  lemma {:induction false} TagsPrefix(words: seq<string>, stemmed: seq<string>, offsets: seq<int>,
                                      more: seq<int>, kept: map<string, nat>, n: nat)
    requires n <= |words| && n <= |stemmed| && n <= |offsets|
    ensures Tags(words, stemmed, offsets + more, kept, n) == Tags(words, stemmed, offsets, kept, n)
  {
    if n > 0 {
      TagsPrefix(words, stemmed, offsets, more, kept, n - 1);
    }
  }

  /** Every tag names a kept stem and spans the found range of one of the
      first `n` tokens, and every such token with a kept stem has its tag. */
  lemma {:induction false} TagsSpec(words: seq<string>, stemmed: seq<string>, offsets: seq<int>,
                                    kept: map<string, nat>, n: nat)
    requires n <= |words| && n <= |stemmed| && n <= |offsets|
    ensures forall t :: t in Tags(words, stemmed, offsets, kept, n) ==>
      t.0 in kept && exists i :: 0 <= i < n && t == (stemmed[i], offsets[i], offsets[i] + |words[i]|)
    ensures forall i :: 0 <= i < n && stemmed[i] in kept ==>
      (stemmed[i], offsets[i], offsets[i] + |words[i]|) in Tags(words, stemmed, offsets, kept, n)
    ensures |Tags(words, stemmed, offsets, kept, n)| <= n
  {
    if n > 0 {
      TagsSpec(words, stemmed, offsets, kept, n - 1);
    }
  }

  /** `positions` holds, for each kept stem seen in `prefix`, its word
      indices there. */
  ghost predicate Recorded(positions: map<string, seq<nat>>, kept: map<string, nat>, prefix: seq<string>)
  {
    && (forall w :: w in positions <==> w in kept && w in prefix)
    && (forall w :: w in positions ==> positions[w] == Occurrences(prefix, w))
  }

  /** A stem that does not occur has no positions. */
  lemma OccurrencesAbsent(s: seq<string>, w: string)
    requires w !in s
    ensures Occurrences(s, w) == []
  {
    OccurrencesSpec(s, w);
  }

  /** One step of the position loop keeps `Recorded`. */
  lemma RecordStep(positions: map<string, seq<nat>>, kept: map<string, nat>, prefix: seq<string>, x: string,
                   next: map<string, seq<nat>>)
    requires Recorded(positions, kept, prefix)
    requires next == if x in kept then positions[x := (if x in positions then positions[x] else []) + [|prefix|]]
                     else positions
    ensures Recorded(next, kept, prefix + [x])
  {
    forall w | w in next ensures next[w] == Occurrences(prefix + [x], w) {
      OccurrencesSnoc(prefix, x, w);
      if w == x && x !in positions {
        OccurrencesAbsent(prefix, x);
      }
    }
  }

  /** The variables of the position loop. */
  datatype Scan = Scan(
    offsets: seq<int>,
    positions: map<string, seq<nat>>,
    order: seq<string>,
    tags: seq<(string, int, int)>,
    charIndex: int)

  /** One pass of the position loop over token `i`. */
  function ScanStep(processed: string, words: seq<string>, stemmed: seq<string>, kept: map<string, nat>,
                    i: nat, st: Scan): Scan
    requires i < |words| && i < |stemmed|
  {
    var found := Find(processed, words[i], st.charIndex);
    var stem := stemmed[i];
    if stem in kept then
      var list := if stem in st.positions then st.positions[stem] else [];
      Scan(st.offsets + [found], st.positions[stem := list + [i]],
           if stem in st.positions then st.order else st.order + [stem],
           st.tags + [(stem, found, found + |words[i]|)], found + |words[i]|)
    else
      Scan(st.offsets + [found], st.positions, st.order, st.tags, found + |words[i]|)
  }

  /** The loop variables after the first `n` passes. */
  function ScanUpTo(processed: string, words: seq<string>, stemmed: seq<string>, kept: map<string, nat>,
                    n: nat): Scan
    requires n <= |words| && n <= |stemmed|
  {
    if n == 0 then Scan([], map[], [], [], 0)
    else ScanStep(processed, words, stemmed, kept, n - 1, ScanUpTo(processed, words, stemmed, kept, n - 1))
  }

  /** After `n` passes the loop has found the first `n` offsets and will
      search next from the end of the last match. */
  lemma {:induction false} ScanOffsets(processed: string, words: seq<string>, stemmed: seq<string>,
                                       kept: map<string, nat>, n: nat)
    requires n <= |words| && n <= |stemmed|
    ensures ScanUpTo(processed, words, stemmed, kept, n).offsets == OffsetsUpTo(processed, words, n)
    ensures ScanUpTo(processed, words, stemmed, kept, n).charIndex == SearchStart(OffsetsUpTo(processed, words, n), words)
  {
    if n > 0 {
      ScanOffsets(processed, words, stemmed, kept, n - 1);
    }
  }

  /** After `n` passes the tags are those of the first `n` tokens. */
  lemma {:induction false} ScanTags(processed: string, words: seq<string>, stemmed: seq<string>,
                                    kept: map<string, nat>, n: nat)
    requires n <= |words| && n <= |stemmed|
    ensures var st := ScanUpTo(processed, words, stemmed, kept, n);
      |st.offsets| == n && st.tags == Tags(words, stemmed, st.offsets, kept, n)
  {
    if n > 0 {
      ScanTags(processed, words, stemmed, kept, n - 1);
      var prev := ScanUpTo(processed, words, stemmed, kept, n - 1);
      var found := Find(processed, words[n - 1], prev.charIndex);
      TagsPrefix(words, stemmed, prev.offsets, [found], kept, n - 1);
    }
  }

  /** After `n` passes every kept stem seen so far has its positions, and
      the order lists each of them once. */
  lemma {:induction false} ScanPositions(processed: string, words: seq<string>, stemmed: seq<string>,
                                         kept: map<string, nat>, n: nat)
    requires n <= |words| && n <= |stemmed|
    ensures var st := ScanUpTo(processed, words, stemmed, kept, n);
      && Recorded(st.positions, kept, stemmed[..n])
      && NoDups(st.order)
      && (forall w :: w in st.order <==> w in st.positions)
  {
    if n > 0 {
      ScanPositions(processed, words, stemmed, kept, n - 1);
      var prev := ScanUpTo(processed, words, stemmed, kept, n - 1);
      var st := ScanUpTo(processed, words, stemmed, kept, n);
      assert stemmed[..n] == stemmed[..n - 1] + [stemmed[n - 1]];
      RecordStep(prev.positions, kept, stemmed[..n - 1], stemmed[n - 1], st.positions);
    }
  }

  /** The position loop of `analyze_text`: for each token, search it in the
      normalised text from the end of the previous match, and when its stem
      is kept record its word index under the stem and tag its range. */
  method CollectPositions(processed: string, words: seq<string>, stemmed: seq<string>,
                          kept: map<string, nat>)
    returns (offsets: seq<int>, positions: map<string, seq<nat>>, order: seq<string>,
             tags: seq<(string, int, int)>)
    requires |stemmed| == |words|
    ensures offsets == OffsetsUpTo(processed, words, |words|)
    ensures tags == Tags(words, stemmed, offsets, kept, |words|)
    ensures Recorded(positions, kept, stemmed)
    ensures NoDups(order)
    ensures forall w :: w in order <==> w in positions
  {
    offsets := [];
    positions := map[];
    order := [];
    tags := [];
    var charIndex := 0;
    var i := 0;
    while i < |words|
      invariant 0 <= i <= |words|
      invariant Scan(offsets, positions, order, tags, charIndex) == ScanUpTo(processed, words, stemmed, kept, i)
    {
      var word := words[i];
      charIndex := Find(processed, word, charIndex);
      offsets := offsets + [charIndex];
      var stemmedWord := stemmed[i];
      if stemmedWord in kept {
        if stemmedWord !in positions {
          positions := positions[stemmedWord := []];
          order := order + [stemmedWord];
        }
        positions := positions[stemmedWord := positions[stemmedWord] + [i]];
        tags := tags + [(stemmedWord, charIndex, charIndex + |word|)];
      }
      charIndex := charIndex + |word|;
      i := i + 1;
    }
    ScanOffsets(processed, words, stemmed, kept, i);
    ScanTags(processed, words, stemmed, kept, i);
    ScanPositions(processed, words, stemmed, kept, i);
    assert stemmed[..i] == stemmed;
  }

  /** Extending a prefix of `ps` by one gap. */
  lemma MinGapExtend(ps: seq<int>, k: nat)
    requires 1 <= k < |ps| - 1
    ensures MinGap(ps[..k + 2]) == if Gap(ps, k) < MinGap(ps[..k + 1]) then Gap(ps, k) else MinGap(ps[..k + 1])
  {
    assert ps[..k + 2][..k + 1] == ps[..k + 1];
    assert Gap(ps[..k + 2], k) == Gap(ps, k);
  }

  /** The inner loop of the least-distance computation: the smallest gap
      between consecutive positions, starting from `float('inf')`. */
  method LeastGap(ps: seq<int>) returns (minDist: int)
    requires |ps| > 1
    ensures minDist == MinGap(ps)
  {
    var least := Infinite;
    var k := 0;
    while k < |ps| - 1
      invariant 0 <= k <= |ps| - 1
      invariant k == 0 <==> least.Infinite?
      invariant k > 0 ==> least == Finite(MinGap(ps[..k + 1]))
    {
      var distance := ps[k + 1] - ps[k];
      assert distance == Gap(ps, k);
      if k == 0 {
        assert ps[..2] == [ps[0], ps[1]];
      } else {
        MinGapExtend(ps, k);
      }
      least := MinBound(least, distance);
      k := k + 1;
    }
    assert ps[..k + 1] == ps;
    minDist := least.value;
  }

  /** The least-distance loop of `analyze_text`: the least gap between
      consecutive positions of each stem, or `textLength` for a stem seen
      once. */
  method ComputeMinDistances(positions: map<string, seq<nat>>, order: seq<string>, textLength: int)
    returns (dist: map<string, int>)
    requires forall w :: w in order <==> w in positions
    ensures dist.Keys == positions.Keys
    ensures forall w :: w in dist ==> dist[w] == DistanceOf(positions[w], textLength)
  {
    dist := map[];
    var j := 0;
    while j < |order|
      invariant 0 <= j <= |order|
      invariant forall w :: w in dist <==> w in order[..j]
      invariant forall w :: w in dist ==> dist[w] == DistanceOf(positions[w], textLength)
    {
      var word := order[j];
      var ps := positions[word];
      if |ps| > 1 {
        var minDist := LeastGap(ps);
        dist := dist[word := minDist];
      } else {
        dist := dist[word := textLength];
      }
      assert order[..j + 1] == order[..j] + [word];
      j := j + 1;
    }
    assert order[..j] == order;
  }

  /** The distances the two loops compute are those of the kept stems'
      positions in the whole token list. */
  lemma DistancesAgree(positions: map<string, seq<nat>>, dist: map<string, int>, stemmed: seq<string>, len: int)
    requires Recorded(positions, KeptCounts(stemmed), stemmed)
    requires dist.Keys == positions.Keys
    requires forall w :: w in dist ==> dist[w] == DistanceOf(positions[w], len)
    ensures dist == MinDistances(stemmed, len)
  {
    forall w | w in KeptCounts(stemmed) ensures w in stemmed {
      KeptCountsExact(stemmed, w);
      OccurrencesSpec(stemmed, w);
      assert stemmed[Occurrences(stemmed, w)[0]] == w;
    }
  }

  /** The maximal run of alphanumeric-or-underscore characters around `pos`:
      `[start, end)` contains only such characters and cannot be extended. */
  predicate IsWordChar(u: CharModel, c: char)
  {
    u.isAlnum(c) || c == '_'
  }

  predicate WordSpan(u: CharModel, text: string, pos: int, start: int, end: int)
  {
    && 0 <= start <= pos <= end <= |text|
    && (forall k :: start <= k < end ==> IsWordChar(u, text[k]))
    && (start == 0 || !IsWordChar(u, text[start - 1]))
    && (end == |text| || !IsWordChar(u, text[end]))
  }

  /** There is only one such span, so the expansion is determined. */
  lemma WordSpanUnique(u: CharModel, text: string, pos: int, s1: int, e1: int, s2: int, e2: int)
    requires WordSpan(u, text, pos, s1, e1) && WordSpan(u, text, pos, s2, e2)
    ensures s1 == s2 && e1 == e2
  {
  }

  /** The boundary expansion of `get_clicked_word`: move `start` left and
      `end` right over word characters. */
  method ExpandWord(u: CharModel, text: string, pos: int) returns (start: int, end: int)
    requires 0 <= pos < |text|
    ensures WordSpan(u, text, pos, start, end)
  {
    start := pos;
    end := pos;
    while start > 0 && IsWordChar(u, text[start - 1])
      invariant 0 <= start <= pos
      invariant forall k :: start <= k < pos ==> IsWordChar(u, text[k])
    {
      start := start - 1;
    }
    while end < |text| && IsWordChar(u, text[end])
      invariant pos <= end <= |text|
      invariant forall k :: pos <= k < end ==> IsWordChar(u, text[k])
    {
      end := end + 1;
    }
  }

  /** What the analysis keeps between its steps: a normalisation length of
      at least 100, a key order listing each counted stem once, counts of at
      least two, and a least distance for exactly the counted stems, between
      1 and the normalisation length. */
  ghost predicate Consistent(textLength: int, counts: map<string, nat>, order: seq<string>, dist: map<string, int>)
  {
    && textLength >= 100
    && NoDups(order)
    && (forall w :: w in order <==> w in counts)
    && dist.Keys == counts.Keys
    && (forall w :: w in counts ==> counts[w] >= 2)
    && (forall w :: w in dist ==> 1 <= dist[w] < textLength)
  }

  /** The word statistics `analyze_text` derives from the stems: the
      normalisation length, the repeated stems' counts in first-occurrence
      order, and their least distances. */
  ghost predicate WordStats(stemmed: seq<string>, textLength: int, counts: map<string, nat>,
                            order: seq<string>, dist: map<string, int>)
  {
    && textLength == NormalLength(|stemmed|)
    && counts == KeptCounts(stemmed)
    && order == KeptOrder(stemmed)
    && dist == MinDistances(stemmed, textLength)
  }

  /** The word statistics of `analyze_text` on the tokens `words` of the
      normalised text `processed`, whose stems are `stemmed`. */
  method AnalyzeWords(processed: string, words: seq<string>, stemmed: seq<string>)
    returns (textLength: int, wordCounts: map<string, nat>, countOrder: seq<string>,
             offsets: seq<int>, tags: seq<(string, int, int)>, wordMinDistances: map<string, int>)
    requires |stemmed| == |words|
    ensures WordStats(stemmed, textLength, wordCounts, countOrder, wordMinDistances)
    ensures offsets == OffsetsUpTo(processed, words, |words|)
    ensures tags == Tags(words, stemmed, offsets, wordCounts, |words|)
    ensures Consistent(textLength, wordCounts, countOrder, wordMinDistances)
  {
    textLength := NormalLength(|words|);
    wordCounts := KeptCounts(stemmed);
    countOrder := KeptOrder(stemmed);
    var positions, order;
    offsets, positions, order, tags := CollectPositions(processed, words, stemmed, wordCounts);
    wordMinDistances := ComputeMinDistances(positions, order, textLength);
    DistancesAgree(positions, wordMinDistances, stemmed, textLength);
    forall w | w in wordMinDistances
      ensures 1 <= wordMinDistances[w] < textLength
    {
      KeptDistanceBounds(stemmed, w);
    }
  }

  /** The report fields `analyze_text` shows for `text`, whose tokens are
      `words` and whose kept counts, in dictionary order, are `counts`. */
  ghost predicate ReportOf(report: Report, u: CharModel, nlp: Nlp, text: string, words: seq<string>, counts: seq<nat>)
  {
    && report.charCount == |text|
    && report.charCountNoSpaces == NonSpaceCount(text)
    && report.wordCount == |words|
    && report.easyIndex == CalculateFleschIndex(u, nlp, text, true)
    && report.easyBand == HelpFlesch(report.easyIndex)
    && report.fogIndex == FogIndex(|nlp.sentTokenize(text)|, |words|, HardWordCount(u, words))
    && report.fogBand == HelpFogIndex(report.fogIndex)
    && report.water == CalculateWaterPercentage(words, nlp.stopWords)
    && report.waterBand == WaterBandOf(report.water)
    && report.spam == CalculateSpamPercentage(words, counts)
    && report.spamBand == SpamBandOf(report.spam)
  }

  /** The statistics `analyze_text` shows: character and token counts, the
      two readability scores and the two densities, each with its band. */
  method ComputeReport(u: CharModel, nlp: Nlp, text: string, words: seq<string>, counts: seq<nat>)
    returns (report: Report)
    requires Wf(u) && words == nlp.wordTokenize(Preprocess(u, text))
    ensures ReportOf(report, u, nlp, text, words, counts)
  {
    var easyIndex := CalculateFleschIndex(u, nlp, text, true);
    var fogIndex := CalculateFogIndex(u, nlp, text);
    var waterPercentage := CalculateWaterPercentage(words, nlp.stopWords);
    var spamPercentage := CalculateSpamPercentage(words, counts);
    report := Report(|text|, NonSpaceCount(text), |words|,
                     easyIndex, HelpFlesch(easyIndex),
                     fogIndex, HelpFogIndex(fogIndex),
                     waterPercentage, WaterBandOf(waterPercentage),
                     spamPercentage, SpamBandOf(spamPercentage));
  }

  /** The spam percentage of the dictionary's values is the share of one
      of its counts and at least the share of every count. */
  lemma SpamShares(words: seq<string>, order: seq<string>, counts: map<string, nat>)
    requires forall w :: w in order <==> w in counts
    ensures var spam := CalculateSpamPercentage(words, ValuesOf(order, counts));
      && (|words| > 0 ==> forall w :: w in counts ==> spam >= Percent(counts[w], |words|))
      && (|words| > 0 && counts != map[] ==> exists w :: w in counts && spam == Percent(counts[w], |words|))
  {
    var values := ValuesOf(order, counts);
    var spam := CalculateSpamPercentage(words, values);
    forall w | w in counts && |words| > 0 ensures spam >= Percent(counts[w], |words|) {
      var i :| 0 <= i < |order| && order[i] == w;
      assert values[i] == counts[w];
    }
    if |words| > 0 && counts != map[] {
      var w0 :| w0 in counts;
      assert w0 in order;
      var i :| 0 <= i < |values| && spam == Percent(values[i], |words|);
      assert order[i] in counts && spam == Percent(counts[order[i]], |words|);
    }
  }

  /** The spam percentage `analyze_text` reports: in [0, 100], the share of
      the most frequent kept stem, at least the share of every kept stem, and
      0 exactly when no stem occurs twice. */
  lemma AnalysisSpam(words: seq<string>, stemmed: seq<string>)
    requires |stemmed| == |words|
    ensures var counts := KeptCounts(stemmed);
      var spam := CalculateSpamPercentage(words, ValuesOf(KeptOrder(stemmed), counts));
      && 0.0 <= spam <= 100.0
      && (spam == 0.0 <==> NoDups(stemmed))
      && (|words| > 0 ==> forall w :: w in counts ==> spam >= Percent(counts[w], |words|))
      && (|words| > 0 && counts != map[] ==> exists w :: w in counts && spam == Percent(counts[w], |words|))
  {
    var order := KeptOrder(stemmed);
    var counts := KeptCounts(stemmed);
    var values := ValuesOf(order, counts);
    var spam := CalculateSpamPercentage(words, values);
    forall i | 0 <= i < |values| ensures values[i] <= |words| {
      KeptCountsExact(stemmed, order[i]);
    }
    NothingKeptIffDistinct(stemmed);
    if order != [] {
      KeptCountsExact(stemmed, order[0]);
      assert values[0] > 0;
      assert spam >= Percent(values[0], |words|);
    }
    SpamShares(words, order, counts);
  }

  /** `calculate_intensity` on the state it reads: the least distance of
      `word`, or the sentinel `textLength` for a stem without one. */
  function IntensityFor(textLength: int, dist: map<string, int>, word: string): (r: int)
    requires textLength > 0
    ensures word !in dist || dist[word] == textLength ==> r == 0
    ensures word in dist && dist[word] != textLength ==> 1 <= r <= 255
  {
    var minDistance := if word in dist then dist[word] else textLength;
    Intensity.Intensity(minDistance, textLength)
  }

  /** The colour `highlight` gives `word`: the mark colour when it is the
      selected stem, the normal colour otherwise. */
  function ColorFor(textLength: int, dist: map<string, int>, word: string, selectWord: string): (s: string)
    requires textLength > 0
    ensures |s| == 7 && s[..3] == "#FF" && forall k :: 3 <= k < 7 ==> s[k] in HexChars
  {
    var intensity := IntensityFor(textLength, dist, word);
    if word == selectWord then GetMark(intensity) else GetColor(intensity)
  }

  /** Every colour is `#FF` and two hex channels: the mark channels for the
      selected stem and the equal normal channels for any other. */
  lemma ColorForChannels(textLength: int, dist: map<string, int>, word: string, selectWord: string)
    requires textLength > 0
    ensures var s := ColorFor(textLength, dist, word, selectWord);
      var intensity := IntensityFor(textLength, dist, word);
      && |s| == 7 && s[..3] == "#FF"
      && (word == selectWord ==>
            HexValue(s[3..5]) == MarkRed(intensity) && HexValue(s[5..7]) == MarkBlue(intensity))
      && (word != selectWord ==>
            HexValue(s[3..5]) == ColorChannel(intensity) && HexValue(s[5..7]) == ColorChannel(intensity))
  {
  }

  class DuplicateWordFinder {
    const chars: CharModel
    const nlp: Nlp

    /** The normalisation length of the last analysis. */
    var textLength: int
    /** The stems that repeat, with their counts. */
    var wordCounts: map<string, nat>
    /** The key order of `wordCounts`, as the dictionary keeps it. */
    var countOrder: seq<string>
    /** The least repeat distance of each kept stem. */
    var wordMinDistances: map<string, int>
    /** The word list as last sorted. */
    var sortedWords: seq<(string, nat)>

    ghost predicate Valid()
      reads this
    {
      Wf(chars) && Consistent(textLength, wordCounts, countOrder, wordMinDistances)
    }

    constructor (chars: CharModel, nlp: Nlp)
      requires Wf(chars)
      ensures Valid()
      ensures this.chars == chars && this.nlp == nlp
      ensures textLength == 100 && wordCounts == map[] && countOrder == []
      ensures wordMinDistances == map[] && sortedWords == []
    {
      this.chars := chars;
      this.nlp := nlp;
      textLength := 100;
      wordCounts := map[];
      countOrder := [];
      wordMinDistances := map[];
      sortedWords := [];
    }

    /** `analyze_text` on the text of the input widget: normalise and
        tokenise it, count the stems and keep those that repeat, find each
        token's offset and each kept stem's positions, tag the kept tokens'
        ranges, compute each kept stem's least distance, then the report,
        the word list in count order and the colours of every kept stem. */
    method AnalyzeText(text: string)
      returns (offsets: seq<int>, tags: seq<(string, int, int)>, report: Report, colors: map<string, string>)
      requires Valid()
      modifies this
      ensures Valid()
      ensures var processed := Preprocess(chars, text);
        var words := nlp.wordTokenize(processed);
        var stemmed := Stems(nlp.stem, words);
        && WordStats(stemmed, textLength, wordCounts, countOrder, wordMinDistances)
        && sortedWords == SortBy(Items(), CountKey)
        && offsets == OffsetsUpTo(processed, words, |words|)
        && tags == Tags(words, stemmed, offsets, wordCounts, |words|)
        && ReportOf(report, chars, nlp, text, words, ValuesOf(countOrder, wordCounts))
      ensures colors.Keys == wordMinDistances.Keys
      ensures forall w :: w in colors ==> colors[w] == ColorFor(textLength, wordMinDistances, w, "")
    {
      var processed := Preprocess(chars, text);
      var words := nlp.wordTokenize(processed);
      var stemmedWords := Stems(nlp.stem, words);
      var length, counts, order, distances;
      length, counts, order, offsets, tags, distances := AnalyzeWords(processed, words, stemmedWords);
      report := ComputeReport(chars, nlp, text, words, ValuesOf(order, counts));
      Store(length, counts, order, distances);
      SortResults(ByCount);
      colors := Highlight("");
    }

    /** Keeps the statistics of an analysis. */
    method Store(length: int, counts: map<string, nat>, order: seq<string>, distances: map<string, int>)
      requires Wf(chars) && Consistent(length, counts, order, distances)
      modifies this`textLength, this`wordCounts, this`countOrder, this`wordMinDistances
      ensures Valid()
      ensures textLength == length && wordCounts == counts && countOrder == order && wordMinDistances == distances
    {
      textLength, wordCounts, countOrder, wordMinDistances := length, counts, order, distances;
    }

    /** `word_counts.items()`. */
    function Items(): seq<(string, nat)>
      reads this
      requires Valid()
    {
      ItemsOf(countOrder, wordCounts)
    }

    /** `calculate_intensity`: 0 exactly for a stem with no recorded
        distance (the default is the sentinel `textLength`), otherwise in
        [1, 255]. */
    function CalculateIntensity(word: string): (r: int)
      reads this
      requires Valid()
      ensures 0 <= r <= 255
      ensures r == 0 <==> word !in wordMinDistances
    {
      IntensityFor(textLength, wordMinDistances, word)
    }

    /** `highlight`: the colour of every stem with a distance, the mark colour
        for the selected stem and the normal colour for all others. */
    method Highlight(selectWord: string) returns (colors: map<string, string>)
      requires Valid()
      ensures colors.Keys == wordMinDistances.Keys
      ensures forall w :: w in colors ==> colors[w] == ColorFor(textLength, wordMinDistances, w, selectWord)
    {
      colors := map[];
      var remaining := wordMinDistances.Keys;
      while remaining != {}
        invariant remaining <= wordMinDistances.Keys
        invariant forall w :: w in colors <==> w in wordMinDistances && w !in remaining
        invariant forall w :: w in colors ==> colors[w] == ColorFor(textLength, wordMinDistances, w, selectWord)
        decreases |remaining|
      {
        var word :| word in remaining;
        var intensity := CalculateIntensity(word);
        var hexColor;
        if word == selectWord {
          hexColor := GetMark(intensity);
        } else {
          hexColor := GetColor(intensity);
        }
        assert hexColor == ColorFor(textLength, wordMinDistances, word, selectWord);
        colors := colors[word := hexColor];
        remaining := remaining - {word};
      }
    }

    /** `sort_results`: the items of `word_counts` in the chosen order. Every
        item's stem has a distance, so the distance order never misses one. */
    method SortResults(kind: SortKind)
      requires Valid()
      modifies this`sortedWords
      ensures Valid()
      ensures sortedWords == SortBy(Items(), KeyOf(kind, wordMinDistances))
      ensures forall i :: 0 <= i < |sortedWords| ==> sortedWords[i].0 in wordMinDistances
    {
      sortedWords := SortBy(Items(), KeyOf(kind, wordMinDistances));
      forall i | 0 <= i < |sortedWords| ensures sortedWords[i].0 in wordMinDistances {
        assert sortedWords[i] in multiset(Items());
      }
    }

    /** `get_clicked_word` once the click is a character index: "" without an
        index or outside the normalised text, otherwise the stem of the word
        around the index. */
    method GetClickedWord(index: Option<int>, widgetText: string) returns (word: string)
      requires Valid()
      ensures index.None? ==> word == ""
      ensures index.Some? && !(0 <= index.value < |widgetText|) ==> word == ""
      ensures index.Some? && 0 <= index.value < |widgetText| ==>
        exists s, e :: WordSpan(chars, Preprocess(chars, widgetText), index.value, s, e)
                    && word == nlp.stem(Preprocess(chars, widgetText)[s..e])
    {
      if index.None? {
        return "";
      }
      var startChar := index.value;
      var text := Preprocess(chars, widgetText);
      if !(0 <= startChar < |text|) {
        return "";
      }
      var s, e := ExpandWord(chars, text, startChar);
      word := nlp.stem(text[s..e]);
    }
  }
}
