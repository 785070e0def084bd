module Text {
  function LowerChar(ch: char): char {
    if 'A' <= ch <= 'Z' then ch + ('a' - 'A') else ch
  }

  /** Lower-casing, of the ASCII letters that addresses are written with. */
  function Lower(s: string): (l: string)
    ensures |l| == |s|
  {
    seq(|s|, i requires 0 <= i < |s| => LowerChar(s[i]))
  }

  /** The two cases of one ASCII letter; in ASCII they are 32 apart. */
  predicate CasesOfOneLetter(upper: char, lower: char) {
    'A' <= upper <= 'Z' && lower as int == upper as int + 32
  }

  /** The strings differ in the case of letters only. */
  predicate SameUpToCase(s: string, t: string) {
    && |s| == |t|
    && forall i | 0 <= i < |s| :: s[i] == t[i] || CasesOfOneLetter(s[i], t[i]) || CasesOfOneLetter(t[i], s[i])
  }

  /** Lower-casing identifies exactly the strings that differ in the case of letters only. */
  lemma LowerDecidesCase(s: string, t: string)
    ensures Lower(s) == Lower(t) <==> SameUpToCase(s, t)
  {
    if |s| == |t| {
      forall i | 0 <= i < |s|
        ensures Lower(s)[i] == Lower(t)[i] <==>
                (s[i] == t[i] || CasesOfOneLetter(s[i], t[i]) || CasesOfOneLetter(t[i], s[i]))
      {
        LowerCharDecidesCase(s[i], t[i]);
      }
    }
  }

  lemma LowerCharDecidesCase(a: char, b: char)
    ensures LowerChar(a) == LowerChar(b) <==> a == b || CasesOfOneLetter(a, b) || CasesOfOneLetter(b, a)
  {
  }
}
