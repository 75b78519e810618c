# Duplicate-word analyser: a verified Dafny model

This project models the analysis engine of the Tk application
`DuplicateWordFinder` (`text_analyzer.py`). The application finds stems
that repeat in a Russian text and measures how close together the repeats
are. It colours each repeated stem by that closeness. It also reports
readability and density scores.

The model has these parts:

- **Normalisation** (`Normalise`): `preprocess_text` lower-cases the text. Then every character that is not `\w`, `\s` or an ASCII `-` becomes one space.
- **Substring search** (`Search`): Python's `str.find(sub, start)`, including the way a negative start is treated.
- **Repetition analysis** (`Repetition`, `Analyzer`):
  - the normalisation length `max(len(words), 100)`;
  - the filtered `Counter` of stems, kept in dictionary insertion order;
  - the position loop, which looks up each token's offset and records each kept stem's word indices and highlight range;
  - the least-gap loop.
- **Scores and bands** (`Readability`, `Density`, `Bands`):
  - the Gunning fog index, with its hard-word loop;
  - syllable counting;
  - the Flesch reading ease with the Miroshnichenko coefficients;
  - the water and spam percentages;
  - the threshold ladders that choose each message.
- **Intensity and colour** (`Intensity`, `Colour`): `calculate_intensity` in exact integer arithmetic, and `get_color` / `get_mark` with `:02x` formatting.
- **Ordering** (`Sorting`): Python's stable `sorted` as an insertion sort, used by `sort_results`.
- **The analyser object** (`Analyzer.DuplicateWordFinder`): a class with the fields `text_length`, `word_counts`, `word_min_distances` and `sorted_words`. The key order of `word_counts` is a separate field, because a dictionary's order matters for a stable sort. The class's methods are:
  - `analyze_text`;
  - `sort_results`;
  - `highlight`, which returns the stem-to-colour map it would configure;
  - `calculate_intensity`;
  - the part of `get_clicked_word` that runs once the character index is known.

Unicode classification (`lower`, `\w`, `\s`, `isalnum`, `isupper`) is a
parameter of type `Language.CharModel`. The proofs assume only three things
about it:

- lowering is idempotent;
- the space is lower case;
- the space is whitespace.

NLTK's sentence and word tokenizers, the Snowball stemmer and the stop-word
corpus are a parameter of type `Language.Nlp`. The widget text is a
parameter of `AnalyzeText`. It includes the trailing newline that Tk's
`get("1.0", END)` appends.

Where a piece of documentation and the code differ, the model follows the
code:

- The regular expression `[^\w\s\-]` does not keep the en-dash, so the normalised text never contains one. The fog index's en-dash test is modelled, but it can only fail.
- The spam percentage uses the filtered `word_counts` (`text_analyzer.py:343`). It is therefore 0 when no stem repeats; `Analyzer.AnalysisSpam` proves this.
- `calculate_intensity` returns 0 for the sentinel distance, and stems without a recorded distance default to that sentinel.
- The "count" order sorts with `reverse=True`. Python keeps equal keys in their original order in that case too, so the model sorts by the negated count.

## Model

| member | source | states |
|---|---|---|
| Normalise.Lower | text_analyzer.py:154 | lower-casing keeps the length and maps each character by the character model's `lower` |
| Normalise.Kept | text_analyzer.py:155 | the class `[\w\s\-]` holds the ASCII hyphen and the space the substitution writes |
| Normalise.Substitute | text_analyzer.py:155 | the substitution keeps the length; every output character is a word character, whitespace or `-`; kept characters are unchanged and every other character becomes one space |
| Normalise.Preprocess | text_analyzer.py:153-156 | same length as the input; output character i is the lowered input character i if that is kept, else a space |
| Normalise.PreprocessIsLower | text_analyzer.py:153-156 | the normalised text is already lower case |
| Normalise.PreprocessIdempotent | text_analyzer.py:153-156 | normalising twice equals normalising once |
| Search.NormStart | text_analyzer.py:293 | a non-negative start is kept; a negative start `-k` becomes `len - k` when `k <= len` and 0 otherwise |
| Search.FindFrom | text_analyzer.py:293 | the forward scan returns -1 or an offset at or after the scan start |
| Search.FindFromSpec | text_analyzer.py:293 | the scan's result is a match, there is no earlier match from the scan start, and -1 holds exactly when no match follows |
| Search.Find | text_analyzer.py:293 | `find` returns -1 or an offset |
| Search.FindSpec | text_analyzer.py:293 | a reported offset is at or after `start`, `text[o:o+len(word)] == word`, no earlier match exists from the normalised start, and -1 means no match |
| Repetition.OccurrencesSpec | text_analyzer.py:289-299 | the word indices recorded for a stem are strictly increasing and hold exactly the indices where that stem occurs |
| Repetition.Occurrences | text_analyzer.py:294-299 | a stem's recorded positions are word indices holding that stem, at most one per token |
| Repetition.OccurrencesIncreasing | text_analyzer.py:291-299 | positions are appended in increasing index order |
| Repetition.OccurrencesComplete | text_analyzer.py:291-299 | every index where the stem occurs is recorded |
| Repetition.OccurrencesCount | text_analyzer.py:280-281 | a stem's `Counter` count equals its number of positions |
| Repetition.KeptCounts | text_analyzer.py:280-283 | every key of the filtered counter is a stem of the text, counted at least twice and at most once per token |
| Repetition.KeptCountsExact | text_analyzer.py:280-283 | the filtered counter holds exactly the stems with more than one position, each mapped to its number of positions, which is at most the number of tokens |
| Repetition.PositionsBound | text_analyzer.py:289-299 | increasing positions below n number at most n |
| Repetition.FirstOccurrences | text_analyzer.py:281 | the `Counter` key order lists every stem exactly once |
| Repetition.KeepRepeated | text_analyzer.py:283 | the filtering comprehension keeps exactly the listed stems counted more than once, and adds no duplicates |
| Repetition.KeptOrder | text_analyzer.py:280-283 | the key order of `word_counts` has no duplicates and holds exactly its keys |
| Repetition.NothingKeptIffDistinct | text_analyzer.py:280-283 | `word_counts` is empty exactly when no stem occurs twice |
| Repetition.KeptRepeats | text_analyzer.py:280-283 | a kept stem occurs at two different indices |
| Repetition.RepeatKept | text_analyzer.py:280-283 | a stem at two different indices is kept |
| Repetition.MinGap | text_analyzer.py:305-310 | the least gap is at most every gap between consecutive positions and equal to one of them |
| Repetition.MinDistances | text_analyzer.py:302-314 | `word_min_distances` has exactly the keys of `word_counts` |
| Repetition.DistanceOf | text_analyzer.py:305-314 | a stem with at most one position gets the sentinel `text_length`; with two or more increasing positions, a distance between 1 and their spread |
| Repetition.NormalLength | text_analyzer.py:278 | `max(len(words), 100)` is at least 100 and at least the token count, and is one of the two |
| Repetition.MinGapBounds | text_analyzer.py:305-310 | over increasing positions the least gap is at least 1 and at most the spread of the positions |
| Repetition.KeptDistanceBounds | text_analyzer.py:278-314 | every kept stem has at least two positions, so the single-occurrence branch never fires; its distance is the least gap, between 1 and len(words)-1, and below `text_length` |
| Repetition.CatPositions | text_analyzer.py:289-299 | in "кот сидел кот спал кот ел" the stem "кот" is at indices 0, 2 and 4 |
| Repetition.CatKeptAndDistance | text_analyzer.py:280-314 | in that text "кот" is counted 3 times and its least distance is 2 |
| Bands.Band | text_analyzer.py:234-248 | a threshold ladder picks a band no higher than its number of thresholds |
| Bands.BandMonotone | text_analyzer.py:234-248 | a larger score never falls into a lower band |
| Bands.Percent | text_analyzer.py:251-256 | `part / whole * 100` is non-negative; it is 0 exactly for part 0, at most 100 when part ≤ whole, and 100 exactly when part = whole |
| Bands.PercentMonotone | text_analyzer.py:251-256 | the percentage grows with the part |
| Readability.VowelCount | text_analyzer.py:174-177 | no more vowels than characters |
| Readability.CountSyllables | text_analyzer.py:203-205 | no more syllables than characters |
| Readability.SyllablesAppend | text_analyzer.py:203-205 | syllable counting is additive over concatenation and counts one character as 1 exactly when its lower case is a vowel |
| Readability.HardWordCount | text_analyzer.py:172-183 | at most one hard word per token |
| Readability.IsHardWord | text_analyzer.py:178-183 | a hard word has at least four characters, no capital first letter, and no hyphen or en-dash |
| Readability.WordSyllables | text_analyzer.py:174-177 | the inner vowel loop computes the word's syllable count |
| Readability.CountHardWords | text_analyzer.py:172-183 | the hard-word loop counts the tokens with four or more syllables and no exemption |
| Readability.FogIndex | text_analyzer.py:165-189 | `0.3 * (asl + psw)` is non-negative, 0 without sentences or tokens, and between 0.3·ASL and 0.3·(ASL+100) when hard words are at most the tokens |
| Readability.CalculateFogIndex | text_analyzer.py:158-190 | the fog index is the formula over sentence, token and hard-word counts; it is 0 without sentences or tokens, otherwise between 0.3·ASL and 0.3·(ASL+100) |
| Readability.HelpFogIndex | text_analyzer.py:192-201 | the band is the number of thresholds 7, 13, 18 and 24 that the index reaches |
| Readability.FogBandMonotone | text_analyzer.py:192-201 | a foggier text never gets an easier band |
| Readability.AlnumWords | text_analyzer.py:212 | the filter keeps exactly the `isalnum` tokens, each as often as it occurs, in a list no longer than the input |
| Readability.Clamp100 | text_analyzer.py:231 | `max(0, min(x, 100))` lies in [0, 100] and is x inside it |
| Readability.TotalSyllables | text_analyzer.py:220 | the sum of syllables is 0 exactly when no kept token has a vowel |
| Readability.FleschFormula | text_analyzer.py:222-228 | the unclamped reading ease stays below its constant term (208.7 for the Miroshnichenko coefficients, 206.835 for the classic ones) |
| Readability.CalculateFleschIndex | text_analyzer.py:207-232 | reading ease is always in [0, 100] and is 100 without sentences or alphanumeric tokens |
| Readability.FleschMonotoneInSyllables | text_analyzer.py:220-231 | with sentence and token counts fixed, more syllables never raise the score |
| Readability.HelpFlesch | text_analyzer.py:234-248 | the band is the number of thresholds 30, 50, 60, 70, 80 and 90 that the score reaches |
| Readability.FleschBandMonotone | text_analyzer.py:234-248 | a higher score never gets a harder band |
| Density.StopCount | text_analyzer.py:255 | the stop-token count is at most the token count; it is 0 exactly when no token is a stop word, and equals the token count exactly when every token is one |
| Density.CalculateWaterPercentage | text_analyzer.py:251-256 | water lies in [0, 100]; it is 0 for no tokens; otherwise it is 0 exactly when no token is a stop word and 100 exactly when all are |
| Density.SeqMax | text_analyzer.py:266 | `max` returns an element that is at least every element |
| Density.CalculateSpamPercentage | text_analyzer.py:258-270 | spam is non-negative; it is 0 without tokens or counts; otherwise it is the share of one of the counts and at least the share of every count, so it is the largest count's share; it is at most 100 when no count exceeds the token count |
| Density.WaterBandOf | text_analyzer.py:334-339 | the water band is the number of thresholds 15 and 30 reached |
| Density.SpamBandOf | text_analyzer.py:345-350 | the spam band is the number of thresholds 30 and 60 reached |
| Density.DensityBandsMonotone | text_analyzer.py:334-350 | a larger percentage never gets a milder band |
| Intensity.TruncDiv | text_analyzer.py:415 | `int()` of an exact quotient truncates toward zero |
| Intensity.Raw | text_analyzer.py:415 | the truncated ease-out value is 0 at distance 0 and 32 at the sentinel distance |
| Intensity.Clamp | text_analyzer.py:416 | `max(lo, min(x, hi))` lies in [lo, hi]; it is x inside it, lo below it and hi above it |
| Intensity.Intensity | text_analyzer.py:409-417 | 0 for the sentinel distance, otherwise in [1, 255] |
| Intensity.RawRange | text_analyzer.py:415 | the truncated ease-out value lies in [0, 32] and is below 32 off the sentinel |
| Intensity.RawMonotone | text_analyzer.py:415 | the truncated ease-out value is non-decreasing in the distance |
| Intensity.IntensityMonotone | text_analyzer.py:411-417 | off the sentinel, a larger least distance never gives a lower intensity |
| Colour.HexDigits | text_analyzer.py:428-436 | hex digits of n: one digit below 16, at most two below 256 |
| Colour.HexRoundTrip | text_analyzer.py:428-436 | reading the hex digits of n back gives n |
| Colour.Format02x | text_analyzer.py:428-436 | `:02x` of a channel in [0, 255] is two hex digits that read back as the channel |
| Colour.Serialise | text_analyzer.py:431 | for channels in [0, 255], `f"#FF{r:02x}{b:02x}"` is `#FF` followed by four hex digits |
| Colour.SerialiseRoundTrip | text_analyzer.py:428-436 | `#FF{r:02x}{b:02x}` has 7 characters, starts `#FF`, its other four characters are hex digits, and both channels read back |
| Colour.ColorChannel | text_analyzer.py:429-430 | `min(int(128 + i*0.5), 255)` lies in [128, 255] for intensity in [0, 255] |
| Colour.MarkBlue | text_analyzer.py:434 | `min(int(64 + i*0.75), 255)` lies in [64, 255] |
| Colour.MarkRed | text_analyzer.py:435 | `min(int(196 + i*0.25), 255)` lies in [196, 255] |
| Colour.ChannelsMonotone | text_analyzer.py:428-436 | every channel is non-decreasing in the intensity |
| Colour.GetColor | text_analyzer.py:428-431 | seven characters: `#FF` and four hex digits, whose two pairs read back as the normal channel |
| Colour.GetMark | text_analyzer.py:433-436 | seven characters: `#FF` and four hex digits, whose pairs read back as the mark's red and blue channels |
| Sorting.Insert | text_analyzer.py:358-363 | one insertion step adds exactly the new item |
| Sorting.SortBy | text_analyzer.py:358-363 | `sorted(..., key=...)` returns a permutation of its input, ordered by the key |
| Sorting.SortStable | text_analyzer.py:358-363 | for every key value, the items with that key keep their input order |
| Sorting.SortSortedIdentity | text_analyzer.py:358-363 | sorting an already ordered sequence changes nothing |
| Sorting.SortIdempotent | text_analyzer.py:358-363 | sorting twice equals sorting once |
| Analyzer.MinBound | text_analyzer.py:305-310 | `min(min_dist, distance)` with `float('inf')` start: finite and at most both |
| Analyzer.Stems | text_analyzer.py:280 | one stem per token, in token order |
| Analyzer.NonSpaceCount | text_analyzer.py:318 | `len(text.replace(" ", ""))` is the text's length minus its number of spaces |
| Analyzer.ItemsOf | text_analyzer.py:358-363 | `word_counts.items()` pairs each key, in dictionary order, with its count |
| Analyzer.ItemsOfStems | text_analyzer.py:358-363 | `word_counts.items()` lists every kept stem exactly once, each with its count |
| Analyzer.ValuesOf | text_analyzer.py:264-266 | `word_counts.values()` gives each key's count in dictionary order |
| Analyzer.CountOrder | text_analyzer.py:358-359 | the "count" order is a permutation of the items with counts non-increasing, and items with equal counts keep their dictionary order |
| Analyzer.DistanceOrder | text_analyzer.py:360-363 | the "distance" order is a permutation, ascending by least distance and then descending by count, and stable on equal keys |
| Analyzer.OffsetsUpTo | text_analyzer.py:291-301 | one offset per token |
| Analyzer.SearchStart | text_analyzer.py:290-301 | the first search starts at 0; each later one at the end of the previous token's match, at or after that match; after a failed search (-1) at the previous token's length minus one |
| Analyzer.OffsetAt | text_analyzer.py:293-301 | offset i is the `find` of token i from the end of the previous match (`char_index += len(word)`) |
| Analyzer.OffsetMatch | text_analyzer.py:293-301 | a found offset is at or after the end of the previous match and `processed[o:o+len(word)] == word`; no earlier match exists; -1 exactly when there is none |
| Analyzer.OffsetsPrefix | text_analyzer.py:291-301 | later tokens never change earlier offsets |
| Analyzer.TagsSpec | text_analyzer.py:296-300 | every tag names a kept stem and spans one token's found range, and every token with a kept stem is tagged |
| Analyzer.ScanOffsets | text_analyzer.py:291-301 | the loop's offsets and `char_index` after n tokens are those of the specification |
| Analyzer.ScanTags | text_analyzer.py:296-300 | the loop's tags after n tokens are those of the specification |
| Analyzer.ScanPositions | text_analyzer.py:294-299 | after n tokens the loop's `word_positions` holds exactly the kept stems seen so far, each with its exact positions, and its key order lists each of them once |
| Analyzer.CollectPositions | text_analyzer.py:289-301 | the position loop computes the specified offsets and tags, the exact positions of every kept stem, and a key order listing each recorded stem once |
| Analyzer.LeastGap | text_analyzer.py:305-310 | the min-distance loop computes the least consecutive gap |
| Analyzer.ComputeMinDistances | text_analyzer.py:302-314 | `word_min_distances` has the keys of `word_positions`, each mapped to its least gap, or the sentinel for a single position |
| Analyzer.DistancesAgree | text_analyzer.py:289-314 | the loops' distances equal the least gaps of the kept stems' occurrences |
| Analyzer.WordSpanUnique | text_analyzer.py:379-383 | the maximal run of word characters around an index is unique |
| Analyzer.ExpandWord | text_analyzer.py:379-383 | the two loops find the maximal run of alphanumeric or `_` characters containing the index |
| Analyzer.AnalyzeWords | text_analyzer.py:278-314 | the word statistics equal the normalisation length, the filtered counter, its key order and the least distances; the offsets and tags are those specified; and the statistics are mutually consistent |
| Analyzer.ComputeReport | text_analyzer.py:317-350 | the report holds the character and token counts, both scores and both percentages, each with its band |
| Analyzer.AnalysisSpam | text_analyzer.py:258-270 | the analysis's spam lies in [0, 100], is the share of some kept stem and at least every kept stem's share, and is 0 exactly when no stem occurs twice |
| Analyzer.SpamShares | text_analyzer.py:264-269 | the spam percentage of a dictionary's values is one count's share and at least every count's share |
| Analyzer.IntensityFor | text_analyzer.py:409-417 | 0 for a stem without a distance or at the sentinel; in [1, 255] for a stem with any other distance |
| Analyzer.ColorFor | text_analyzer.py:419-425 | every colour is `#FF` followed by four hex digits |
| Analyzer.ColorForChannels | text_analyzer.py:419-436 | every colour is `#FF` plus two channels; the selected stem gets the mark channels and every other stem equal normal channels |
| Analyzer.DuplicateWordFinder.constructor | text_analyzer.py:37-40 | text length 100 and empty dictionaries and list |
| Analyzer.DuplicateWordFinder.AnalyzeText | text_analyzer.py:273-355 | the fields become the statistics of the new text; `sorted_words` is the count order of the items; the offsets, tags and report are those specified; every kept stem gets its normal colour; the analyser stays consistent |
| Analyzer.DuplicateWordFinder.Store | text_analyzer.py:278-314 | the analysis fields take the computed statistics, and the analyser is consistent |
| Analyzer.DuplicateWordFinder.CalculateIntensity | text_analyzer.py:409-417 | in [0, 255], and 0 exactly for a stem without a recorded distance |
| Analyzer.DuplicateWordFinder.Highlight | text_analyzer.py:419-426 | a colour for exactly the stems with a distance: the mark colour for `select_word`, the normal colour for all others |
| Analyzer.DuplicateWordFinder.SortResults | text_analyzer.py:357-363 | `sorted_words` is the items sorted by the chosen key, and every listed stem has a distance, so the distance key never misses |
| Analyzer.DuplicateWordFinder.GetClickedWord | text_analyzer.py:369-384 | "" without an index or outside the normalised text; otherwise the stem of the maximal word run around the index |

## Left out

- The Tk user interface: window, layout, labels, menus, listbox updates, key and clipboard handlers, and `highlight_word`'s event dispatch. These are widget plumbing.
- Tag calls (`tag_remove`, `tag_add`, `tag_config`). `AnalyzeText` returns the tag ranges and `Highlight` returns the stem-to-colour map instead.
- The mouse-position-to-index conversion in `get_clicked_word`. It is a widget call; `GetClickedWord` takes its result as an `Option<int>`. Tk's `count` returns `None` for a count of 0, so a click on the very first character reaches the source as no index and yields ""; a caller of the model passes `None` for offset 0 in that case, so `Some(0)` does not occur for a real click.
- NLTK's tokenizers, stemmer and stop-word corpus, and Unicode classification. These are foreign code and are taken as parameters. Case mapping is per character: Python's `lower` can change a string's length, and that is not modelled.
- Floating point. Scores are exact reals and the intensity and colour formulas are exact integers. They agree with the source's floats only where those are exact.
- Analyzer.DuplicateWordFinder.SortResults: models only the "count" and "distance" sort types. For any other value the source silently leaves `sorted_words` unchanged.
- Analyzer.DistanceKey: falls back to distance 0 for a stem without a distance, where the source raises `KeyError`. `SortResults` proves that case never arises.
- Readability.Exempt: keeps the `word[0].isupper()` test as written. Whether it can ever hold for lower-cased text depends on Unicode facts the character model does not assume.
