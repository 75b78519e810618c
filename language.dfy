/** The collaborators the analyser takes from outside: Unicode character
    classification and the natural-language toolkit (tokenizers, stemmer,
    stop-word corpus). They are passed in as values so that nothing in the
    model depends on how they are implemented. */
module Language {

  /** Per-character Unicode services used by the analyser.
      `lower` is `str.lower` applied to one character, `isWord` and `isSpace`
      are the regular-expression classes `\w` and `\s`, `isAlnum` and
      `isUpper` are `str.isalnum` and `str.isupper` on one character. */
  datatype CharModel = CharModel(
    lower: char -> char,
    isWord: char -> bool,
    isSpace: char -> bool,
    isAlnum: char -> bool,
    isUpper: char -> bool)

  /** The facts about Unicode that the proofs rely on: lowering twice is
      lowering once, and the ASCII space is a lower-case whitespace character. */
  predicate Wf(u: CharModel)
  {
    && (forall c :: u.lower(u.lower(c)) == u.lower(c))
    && u.lower(' ') == ' '
    && u.isSpace(' ')
  }

  /** The Russian-language toolkit: sentence and word tokenizers, the
      Snowball stemmer and the stop-word corpus. */
  datatype Nlp = Nlp(
    sentTokenize: string -> seq<string>,
    wordTokenize: string -> seq<string>,
    stem: string -> string,
    stopWords: set<string>)

  /** The vowels counted as syllables. */
  const Vowels: string := "аеёиоуыэюя"

  /** The en-dash, which the compound-word test treats like a hyphen. */
  const EnDash: char := '\U{2013}'

  /** Patronymic endings that exempt a long word from being "hard". */
  const PatronymicSuffixes: seq<string> := ["ович", "евич", "овна", "евна", "ична", "ьич"]
}
