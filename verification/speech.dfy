/**
 * `String.speechFormatted`: the text handed to the speech synthesiser, with
 * the square brackets that mark player names taken out.
 */
module Speech {
  import opened Strings

  const Brackets: set<char> := {'[', ']'}

  /** Every "[" replaced by nothing, then every "]". */
  function SpeechFormatted(s: string): string
  {
    ReplaceAll(ReplaceAll(s, "[", ""), "]", "")
  }

  /** The two replacements delete exactly the bracket characters. */
  lemma SpeechIsWithout(s: string)
    ensures SpeechFormatted(s) == Without(s, Brackets)
  {
    ReplaceCharIsWithout(s, '[');
    ReplaceCharIsWithout(Without(s, {'['}), ']');
    WithoutWithout(s, {'['}, {']'});
    assert {'['} + {']'} == Brackets;
  }

  /**
   * The result holds no bracket, formatting it again changes nothing, a text
   * without brackets comes back unchanged, and the result is shorter by the
   * number of brackets.
   */
  lemma SpeechProperties(s: string)
    ensures forall c :: c in SpeechFormatted(s) ==> c != '[' && c != ']'
    ensures SpeechFormatted(SpeechFormatted(s)) == SpeechFormatted(s)
    ensures (forall c :: c in s ==> c != '[' && c != ']') ==> SpeechFormatted(s) == s
    ensures |SpeechFormatted(s)| == |s| - Occurrences(s, Brackets)
  {
    SpeechIsWithout(s);
    SpeechIsWithout(SpeechFormatted(s));
    WithoutWithout(s, Brackets, Brackets);
    assert Brackets + Brackets == Brackets;
    WithoutLength(s, Brackets);
    if forall c :: c in s ==> c != '[' && c != ']' {
      WithoutNothing(s, Brackets);
    }
  }
}
