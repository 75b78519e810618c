/** The lexical-density scores: the share of stop words ("water") and the
    share of the most repeated stem ("spam"), with their bands. */
module Density {
  import opened Bands

  /** The number of tokens that are stop words. */
  function StopCount(words: seq<string>, stopWords: set<string>): (n: nat)
    ensures n <= |words|
    ensures n == 0 <==> forall i :: 0 <= i < |words| ==> words[i] !in stopWords
    ensures n == |words| <==> forall i :: 0 <= i < |words| ==> words[i] in stopWords
  {
    if words == [] then 0
    else
      var m := |words| - 1;
      var rest := StopCount(words[..m], stopWords);
      assert forall i :: 0 <= i < m ==> words[..m][i] == words[i];
      rest + (if words[m] in stopWords then 1 else 0)
  }

  /** `calculate_water_percentage`: the share of stop-word tokens among the
      surface tokens, as a percentage; 0 without tokens. It is 0 exactly when
      no token is a stop word and 100 exactly when every token is one. */
  function CalculateWaterPercentage(words: seq<string>, stopWords: set<string>): (r: real)
    ensures 0.0 <= r <= 100.0
    ensures |words| == 0 ==> r == 0.0
    ensures |words| > 0 ==> (r == 0.0 <==> forall i :: 0 <= i < |words| ==> words[i] !in stopWords)
    ensures |words| > 0 ==> (r == 100.0 <==> forall i :: 0 <= i < |words| ==> words[i] in stopWords)
  {
    if |words| == 0 then 0.0
    else Percent(StopCount(words, stopWords), |words|)
  }

  /** The largest entry. */
  function SeqMax(s: seq<nat>): (m: nat)
    requires |s| > 0
    ensures m in s
    ensures forall i :: 0 <= i < |s| ==> s[i] <= m
  {
    if |s| == 1 then s[0]
    else
      var m := SeqMax(s[1..]);
      assert forall i :: 1 <= i < |s| ==> s[i] == s[1..][i - 1];
      if s[0] >= m then s[0] else m
  }

  /** `calculate_spam_percentage`: the largest of the given counts as a
      share of the tokens, as a percentage; 0 without tokens or without
      counts. It is the share of one of the counts and at least the share of
      every other; when no count exceeds the number of tokens it is at most
      100. */
  function CalculateSpamPercentage(words: seq<string>, counts: seq<nat>): (r: real)
    ensures r >= 0.0
    ensures |words| == 0 || counts == [] ==> r == 0.0
    ensures (forall i :: 0 <= i < |counts| ==> counts[i] <= |words|) ==> r <= 100.0
    ensures |words| > 0 && counts != [] ==>
      (forall i :: 0 <= i < |counts| ==> r >= Percent(counts[i], |words|))
    ensures |words| > 0 && counts != [] ==>
      exists i :: 0 <= i < |counts| && r == Percent(counts[i], |words|)
  {
    if |words| == 0 then 0.0
    else if counts == [] then 0.0
    else
      var m := SeqMax(counts);
      assert forall i :: 0 <= i < |counts| ==> Percent(counts[i], |words|) <= Percent(m, |words|) by {
        forall i | 0 <= i < |counts| { PercentMonotone(counts[i], m, |words|); }
      }
      assert exists i :: 0 <= i < |counts| && counts[i] == m;
      Percent(m, |words|)
  }

  /** The bands of the water percentage. */
  datatype WaterBand = NaturalWater | ElevatedWater | HighWater
  {
    function Level(): nat
    {
      match this
      case NaturalWater => 0
      case ElevatedWater => 1
      case HighWater => 2
    }
  }

  const WaterThresholds: seq<real> := [15.0, 30.0]

  /** The water band: below 15 natural, below 30 elevated, else high. */
  function WaterBandOf(water: real): (b: WaterBand)
    ensures b.Level() == Band(WaterThresholds, water)
  {
    assert Band([30.0], water) == if 30.0 <= water then 1 else 0;
    if water < 15.0 then NaturalWater
    else if water < 30.0 then ElevatedWater
    else HighWater
  }

  /** The bands of the spam percentage. */
  datatype SpamBand = NaturalKeywords | SeoOptimised | Spammy
  {
    function Level(): nat
    {
      match this
      case NaturalKeywords => 0
      case SeoOptimised => 1
      case Spammy => 2
    }
  }

  const SpamThresholds: seq<real> := [30.0, 60.0]

  /** The spam band: below 30 natural, below 60 optimised, else spammy. */
  function SpamBandOf(spam: real): (b: SpamBand)
    ensures b.Level() == Band(SpamThresholds, spam)
  {
    assert Band([60.0], spam) == if 60.0 <= spam then 1 else 0;
    if spam < 30.0 then NaturalKeywords
    else if spam < 60.0 then SeoOptimised
    else Spammy
  }

  /** Wetter text never gets a drier band, and more spam never a cleaner one. */
  lemma DensityBandsMonotone(x: real, y: real)
    requires x <= y
    ensures WaterBandOf(x).Level() <= WaterBandOf(y).Level()
    ensures SpamBandOf(x).Level() <= SpamBandOf(y).Level()
  {
    BandMonotone(WaterThresholds, x, y);
    BandMonotone(SpamThresholds, x, y);
  }
}
