/** The readability scores: the Gunning fog index adapted to Russian and the
    Flesch reading-ease index with the Miroshnichenko coefficients, together
    with the bands their messages are chosen from. */
module Readability {
  import opened Language
  import opened Normalise
  import opened Bands

  /** The number of vowels in `s`. */
  function VowelCount(s: string): (n: nat)
    ensures n <= |s|
  {
    if s == [] then 0
    else VowelCount(s[..|s| - 1]) + (if s[|s| - 1] in Vowels then 1 else 0)
  }

  /** `count_syllables`: the vowels of the lower-cased word. */
  function CountSyllables(u: CharModel, word: string): (n: nat)
    ensures n <= |word|
  {
    VowelCount(Lower(u, word))
  }

  lemma {:induction false} VowelCountAppend(a: string, b: string)
    ensures VowelCount(a + b) == VowelCount(a) + VowelCount(b)
  {
    if b == [] {
      assert a + b == a;
    } else {
      var n := |b| - 1;
      assert (a + b)[..|a + b| - 1] == a + b[..n];
      assert (a + b)[|a + b| - 1] == b[n];
      VowelCountAppend(a, b[..n]);
    }
  }

  /** Syllable counting is additive over concatenation and counts one for
      each character whose lower case is a vowel, which determines it. */
  lemma SyllablesAppend(u: CharModel, a: string, b: string)
    ensures CountSyllables(u, a + b) == CountSyllables(u, a) + CountSyllables(u, b)
    ensures |b| == 1 ==> CountSyllables(u, b) == if u.lower(b[0]) in Vowels then 1 else 0
  {
    assert Lower(u, a + b) == Lower(u, a) + Lower(u, b);
    VowelCountAppend(Lower(u, a), Lower(u, b));
    if |b| == 1 {
      assert Lower(u, b) == [u.lower(b[0])];
      assert Lower(u, b)[..0] == [];
    }
  }

  predicate EndsWith(w: string, suffix: string)
  {
    |suffix| <= |w| && w[|w| - |suffix|..] == suffix
  }

  /** The exemptions from "hard": a capital first letter, a hyphen or
      en-dash, or a patronymic ending. */
  predicate Exempt(u: CharModel, w: string)
    requires |w| > 0
  {
    || u.isUpper(w[0])
    || '-' in w || EnDash in w
    || exists k :: 0 <= k < |PatronymicSuffixes| && EndsWith(w, PatronymicSuffixes[k])
  }

  /** A hard word has four or more syllables and no exemption: it has at
      least four characters, no capital first letter and no hyphen or
      en-dash. */
  predicate IsHardWord(u: CharModel, w: string)
    ensures IsHardWord(u, w) ==> 4 <= |w| && !u.isUpper(w[0]) && '-' !in w && EnDash !in w
  {
    var syllables := CountSyllables(u, w);
    syllables >= 4 && !Exempt(u, w)
  }

  /** The number of hard words. */
  function HardWordCount(u: CharModel, words: seq<string>): (n: nat)
    ensures n <= |words|
  {
    if words == [] then 0
    else HardWordCount(u, words[..|words| - 1]) + (if IsHardWord(u, words[|words| - 1]) then 1 else 0)
  }

  /** The fog formula `0.3 * (ASL + PSW)`, and 0 without sentences or words.
      With at most one hard word per word it lies between `0.3 * ASL` and
      `0.3 * (ASL + 100)`. */
  function FogIndex(numSentences: nat, numWords: nat, hardWords: nat): (r: real)
    ensures r >= 0.0
    ensures numSentences == 0 || numWords == 0 ==> r == 0.0
    ensures numSentences > 0 && numWords > 0 && hardWords <= numWords ==>
      var asl := numWords as real / numSentences as real;
      0.3 * asl <= r <= 0.3 * (asl + 100.0)
  {
    if numSentences == 0 || numWords == 0 then 0.0
    else
      var asl := numWords as real / numSentences as real;
      0.3 * (asl + Percent(hardWords, numWords))
  }

  /** The inner loop of `calculate_fog_index`: one syllable per character
      whose lower case is a vowel. */
  method WordSyllables(u: CharModel, word: string) returns (syllables: nat)
    ensures syllables == CountSyllables(u, word)
  {
    syllables := 0;
    var j := 0;
    while j < |word|
      invariant 0 <= j <= |word|
      invariant syllables == CountSyllables(u, word[..j])
    {
      SyllablesAppend(u, word[..j], [word[j]]);
      assert word[..j + 1] == word[..j] + [word[j]];
      if u.lower(word[j]) in Vowels {
        syllables := syllables + 1;
      }
      j := j + 1;
    }
    assert word[..j] == word;
  }

  /** The hard-word loop of `calculate_fog_index`: for each word, count its
      syllables, then test the word. */
  method CountHardWords(u: CharModel, words: seq<string>) returns (hardWords: nat)
    ensures hardWords == HardWordCount(u, words)
  {
    hardWords := 0;
    var i := 0;
    while i < |words|
      invariant 0 <= i <= |words|
      invariant hardWords == HardWordCount(u, words[..i])
    {
      var word := words[i];
      var syllables := WordSyllables(u, word);
      assert words[..i + 1][..i] == words[..i];
      assert HardWordCount(u, words[..i + 1]) == HardWordCount(u, words[..i]) + (if IsHardWord(u, word) then 1 else 0);
      if syllables >= 4 {
        if !Exempt(u, word) {
          hardWords := hardWords + 1;
        }
      }
      i := i + 1;
    }
    assert words[..i] == words;
  }

  /** `calculate_fog_index` over the normalised text. The score is 0 for a
      text without sentences or words, and otherwise lies between
      `0.3 * ASL` and `0.3 * (ASL + 100)` because the share of hard words
      PSW is a percentage. */
  method CalculateFogIndex(u: CharModel, nlp: Nlp, text: string) returns (fog: real)
    requires Wf(u)
    ensures fog == FogIndex(|nlp.sentTokenize(text)|, |nlp.wordTokenize(Preprocess(u, text))|,
                            HardWordCount(u, nlp.wordTokenize(Preprocess(u, text))))
    ensures fog >= 0.0
    ensures |nlp.sentTokenize(text)| == 0 || |nlp.wordTokenize(Preprocess(u, text))| == 0 ==> fog == 0.0
    ensures |nlp.sentTokenize(text)| > 0 && |nlp.wordTokenize(Preprocess(u, text))| > 0 ==>
      var asl := |nlp.wordTokenize(Preprocess(u, text))| as real / |nlp.sentTokenize(text)| as real;
      0.3 * asl <= fog <= 0.3 * (asl + 100.0)
  {
    var sentences := nlp.sentTokenize(text);
    var words := nlp.wordTokenize(Preprocess(u, text));
    var numSentences := |sentences|;
    var numWords := |words|;
    if numSentences == 0 || numWords == 0 {
      return 0.0;
    }
    var asl := numWords as real / numSentences as real;
    var hardWords := CountHardWords(u, words);
    var psw := Percent(hardWords, numWords);
    fog := 0.3 * (asl + psw);
  }

  /** `help_fog_index`: the five bands of the fog index, from the easiest. */
  datatype FogBand = Simple | EasyForAdults | Moderate | Specialist | VeryDifficult
  {
    function Level(): nat
    {
      match this
      case Simple => 0
      case EasyForAdults => 1
      case Moderate => 2
      case Specialist => 3
      case VeryDifficult => 4
    }
  }

  const FogThresholds: seq<real> := [7.0, 13.0, 18.0, 24.0]

  /** The band of a fog index: the number of thresholds 7, 13, 18, 24 the
      index reaches. */
  function HelpFogIndex(fog: real): (b: FogBand)
    ensures b.Level() == Band(FogThresholds, fog)
  {
    assert Band([24.0], fog) == if 24.0 <= fog then 1 else 0;
    assert Band([18.0, 24.0], fog) == (if 18.0 <= fog then 1 else 0) + Band([24.0], fog);
    assert Band([13.0, 18.0, 24.0], fog) == (if 13.0 <= fog then 1 else 0) + Band([18.0, 24.0], fog);
    if fog < 7.0 then Simple
    else if fog < 13.0 then EasyForAdults
    else if fog < 18.0 then Moderate
    else if fog < 24.0 then Specialist
    else VeryDifficult
  }

  /** A foggier text never gets an easier band. */
  lemma FogBandMonotone(x: real, y: real)
    requires x <= y
    ensures HelpFogIndex(x).Level() <= HelpFogIndex(y).Level()
  {
    BandMonotone(FogThresholds, x, y);
  }

  /** `str.isalnum` on a whole token: non-empty and alphanumeric throughout. */
  predicate IsAlnumWord(u: CharModel, w: string)
  {
    |w| > 0 && forall i :: 0 <= i < |w| ==> u.isAlnum(w[i])
  }

  /** The tokens that pass `isalnum`, in order. */
  function AlnumWords(u: CharModel, words: seq<string>): (r: seq<string>)
    ensures |r| <= |words|
    ensures forall w :: w in r <==> w in words && IsAlnumWord(u, w)
    ensures forall w :: multiset(r)[w] == if IsAlnumWord(u, w) then multiset(words)[w] else 0
  {
    if words == [] then []
    else
      var rest := AlnumWords(u, words[1..]);
      assert forall w :: w in words <==> w == words[0] || w in words[1..];
      assert words == [words[0]] + words[1..];
      if IsAlnumWord(u, words[0]) then [words[0]] + rest else rest
  }

  /** The syllables of all the words: 0 exactly when no word has a vowel. */
  function TotalSyllables(u: CharModel, words: seq<string>): (n: nat)
    ensures n == 0 <==> forall i :: 0 <= i < |words| ==> CountSyllables(u, words[i]) == 0
  {
    if words == [] then 0 else CountSyllables(u, words[0]) + TotalSyllables(u, words[1..])
  }

  /** Reading ease before clamping: `208.7 - 1.52 ASL - 65.14 ASW` with the
      Miroshnichenko coefficients, `206.835 - 1.015 ASL - 84.6 ASW` with the
      classic ones. */
  function FleschFormula(russian: bool, numSentences: nat, numWords: nat, syllables: nat): (r: real)
    requires numSentences > 0 && numWords > 0
    ensures russian ==> r < 208.7
    ensures !russian ==> r < 206.835
  {
    var asl := numWords as real / numSentences as real;
    var asw := syllables as real / numWords as real;
    if russian then 208.7 - 1.52 * asl - 65.14 * asw
    else 206.835 - 1.015 * asl - 84.6 * asw
  }

  /** `max(0, min(x, 100))`. */
  function Clamp100(x: real): (r: real)
    ensures 0.0 <= r <= 100.0
    ensures 0.0 <= x <= 100.0 ==> r == x
    ensures x < 0.0 ==> r == 0.0
    ensures x > 100.0 ==> r == 100.0
  {
    if x > 100.0 then 100.0 else if x < 0.0 then 0.0 else x
  }

  /** `calculate_flesch_index`: 100 for a text without sentences or
      alphanumeric words, otherwise the clamped formula; always in [0, 100]. */
  function CalculateFleschIndex(u: CharModel, nlp: Nlp, text: string, russian: bool): (r: real)
    ensures 0.0 <= r <= 100.0
    ensures |nlp.sentTokenize(text)| == 0 || |AlnumWords(u, nlp.wordTokenize(text))| == 0 ==> r == 100.0
  {
    var sentences := nlp.sentTokenize(text);
    var words := AlnumWords(u, nlp.wordTokenize(text));
    if |sentences| == 0 || |words| == 0 then 100.0
    else Clamp100(FleschFormula(russian, |sentences|, |words|, TotalSyllables(u, words)))
  }

  /** With the sentence and word counts fixed, more syllables never make a
      text easier to read. */
  lemma FleschMonotoneInSyllables(russian: bool, numSentences: nat, numWords: nat, s1: nat, s2: nat)
    requires numSentences > 0 && numWords > 0 && s1 <= s2
    ensures Clamp100(FleschFormula(russian, numSentences, numWords, s2))
         <= Clamp100(FleschFormula(russian, numSentences, numWords, s1))
  {
    RealDivMonotone(s1 as real, s2 as real, numWords as real);
  }

  lemma RealDivMonotone(a: real, b: real, c: real)
    requires a <= b && c > 0.0
    ensures a / c <= b / c
  {
    assert b / c - a / c == (b - a) / c;
  }

  /** `help_flesch`: the seven bands of reading ease, from the hardest. */
  datatype FleschBand =
    | VeryHard | Hard | FairlyHard | Standard | FairlyEasy | Easy | VeryEasy
  {
    function Level(): nat
    {
      match this
      case VeryHard => 0
      case Hard => 1
      case FairlyHard => 2
      case Standard => 3
      case FairlyEasy => 4
      case Easy => 5
      case VeryEasy => 6
    }
  }

  const FleschThresholds: seq<real> := [30.0, 50.0, 60.0, 70.0, 80.0, 90.0]

  /** The band of a reading-ease score: the number of thresholds 30, 50,
      60, 70, 80, 90 the score reaches. */
  function HelpFlesch(score: real): (b: FleschBand)
    ensures b.Level() == Band(FleschThresholds, score)
  {
    assert Band([90.0], score) == if 90.0 <= score then 1 else 0;
    assert Band([80.0, 90.0], score) == (if 80.0 <= score then 1 else 0) + Band([90.0], score);
    assert Band([70.0, 80.0, 90.0], score) == (if 70.0 <= score then 1 else 0) + Band([80.0, 90.0], score);
    assert Band([60.0, 70.0, 80.0, 90.0], score)
        == (if 60.0 <= score then 1 else 0) + Band([70.0, 80.0, 90.0], score);
    assert Band([50.0, 60.0, 70.0, 80.0, 90.0], score)
        == (if 50.0 <= score then 1 else 0) + Band([60.0, 70.0, 80.0, 90.0], score);
    if score >= 90.0 then VeryEasy
    else if score >= 80.0 then Easy
    else if score >= 70.0 then FairlyEasy
    else if score >= 60.0 then Standard
    else if score >= 50.0 then FairlyHard
    else if score >= 30.0 then Hard
    else VeryHard
  }

  /** An easier score never gets a harder band. */
  lemma FleschBandMonotone(x: real, y: real)
    requires x <= y
    ensures HelpFlesch(x).Level() <= HelpFlesch(y).Level()
  {
    BandMonotone(FleschThresholds, x, y);
  }
}
