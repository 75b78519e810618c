/** Text normalisation: lower-casing followed by the substitution
    `[^\w\s\-]` -> " ". */
module Normalise {
  import opened Language

  /** A character the substitution leaves alone: a word character,
      whitespace or the ASCII hyphen. The en-dash is not among them. */
  predicate Kept(u: CharModel, c: char)
    ensures c == '-' ==> Kept(u, c)
    ensures Wf(u) && c == ' ' ==> Kept(u, c)
  {
    u.isWord(c) || u.isSpace(c) || c == '-'
  }

  /** `str.lower` as a per-character map. */
  function Lower(u: CharModel, s: string): (r: string)
    ensures |r| == |s|
    ensures forall i :: 0 <= i < |s| ==> r[i] == u.lower(s[i])
  {
    if s == [] then [] else Lower(u, s[..|s| - 1]) + [u.lower(s[|s| - 1])]
  }

  /** The regular-expression substitution: every character that is not kept
      becomes one space. */
  function Substitute(u: CharModel, s: string): (r: string)
    requires Wf(u)
    ensures |r| == |s|
    ensures forall i :: 0 <= i < |s| ==> Kept(u, r[i])
    ensures forall i :: 0 <= i < |s| && Kept(u, s[i]) ==> r[i] == s[i]
    ensures forall i :: 0 <= i < |s| && !Kept(u, s[i]) ==> r[i] == ' '
  {
    if s == [] then []
    else
      var c := s[|s| - 1];
      Substitute(u, s[..|s| - 1]) + [if Kept(u, c) then c else ' ']
  }

  /** `preprocess_text`: lower-case, then substitute. */
  function Preprocess(u: CharModel, text: string): (r: string)
    requires Wf(u)
    ensures |r| == |text|
    ensures forall i :: 0 <= i < |r| ==> Kept(u, r[i])
    ensures forall i :: 0 <= i < |r| ==>
      r[i] == if Kept(u, u.lower(text[i])) then u.lower(text[i]) else ' '
  {
    Substitute(u, Lower(u, text))
  }

  /** Every output character is already lower-case, so lowering the output
      changes nothing. */
  lemma PreprocessIsLower(u: CharModel, text: string)
    requires Wf(u)
    ensures Lower(u, Preprocess(u, text)) == Preprocess(u, text)
  {
    var p := Preprocess(u, text);
    forall i | 0 <= i < |p| ensures Lower(u, p)[i] == p[i] {
      var c := u.lower(text[i]);
      assert u.lower(c) == c;
    }
  }

  /** Normalising twice is normalising once. */
  lemma PreprocessIdempotent(u: CharModel, text: string)
    requires Wf(u)
    ensures Preprocess(u, Preprocess(u, text)) == Preprocess(u, text)
  {
    var p := Preprocess(u, text);
    PreprocessIsLower(u, text);
    assert Preprocess(u, p) == Substitute(u, p);
    forall i | 0 <= i < |p| ensures Substitute(u, p)[i] == p[i] {
      assert Kept(u, p[i]);
    }
  }
}
