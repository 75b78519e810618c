/** Python's `str.find(sub, start)`: the first occurrence of `sub` at or
    after `start`, or -1. */
module Search {

  /** `sub` occurs in `s` at offset `j`. */
  predicate MatchAt(s: string, sub: string, j: int)
  {
    0 <= j && j + |sub| <= |s| && s[j..j + |sub|] == sub
  }

  /** Python's treatment of a start offset: a negative one counts from the
      end of the string and stops at 0. */
  function NormStart(len: nat, start: int): (b: nat)
    ensures start >= 0 ==> b == start
    ensures start < 0 && -start <= len ==> b == len + start
    ensures start < 0 && -start > len ==> b == 0
  {
    if start >= 0 then start
    else if start + len < 0 then 0
    else start + len
  }

  /** Scan forward from offset `j` for the first match. */
  function FindFrom(s: string, sub: string, j: nat): (r: int)
    decreases |s| - j
    ensures r == -1 || j <= r
  {
    if j + |sub| > |s| then -1
    else if s[j..j + |sub|] == sub then j
    else FindFrom(s, sub, j + 1)
  }

  /** The scan finds the first match at or after `j`, and -1 exactly when
      there is none. */
  lemma {:induction false} FindFromSpec(s: string, sub: string, j: nat)
    decreases |s| - j
    ensures var r := FindFrom(s, sub, j);
      && (r == -1 || MatchAt(s, sub, r))
      && (r != -1 ==> forall k :: j <= k < r ==> !MatchAt(s, sub, k))
      && (r == -1 <==> forall k :: j <= k ==> !MatchAt(s, sub, k))
  {
    if j + |sub| > |s| {
    } else if s[j..j + |sub|] == sub {
    } else {
      FindFromSpec(s, sub, j + 1);
    }
  }

  /** `s.find(sub, start)`: an offset, or -1. */
  function Find(s: string, sub: string, start: int): (r: int)
    ensures r >= -1
  {
    FindFrom(s, sub, NormStart(|s|, start))
  }

  /** A match `Find` reports is at or after `start` and is the first one
      from the normalised start; -1 means there is none. */
  lemma FindSpec(s: string, sub: string, start: int)
    ensures var r := Find(s, sub, start);
      && (r == -1 || (r >= start && MatchAt(s, sub, r)))
      && (r != -1 ==> forall k :: NormStart(|s|, start) <= k < r ==> !MatchAt(s, sub, k))
      && (r == -1 <==> forall k :: NormStart(|s|, start) <= k ==> !MatchAt(s, sub, k))
  {
    FindFromSpec(s, sub, NormStart(|s|, start));
  }
}
