/** The three fixed character sets a password is drawn from (index.js:6-18). */
module CharacterSets {

  /** Upper-case A to Z, then lower-case a to z: always part of the pool. */
  const Letters: string := "ABCDEFGHIJKLMNOPQRSTUVWXYZabcdefghijklmnopqrstuvwxyz"

  /** The ten decimal digits, part of the pool only when numbers are enabled. */
  const Digits: string := "0123456789"

  /** The 29 punctuation symbols, part of the pool only when symbols are enabled. */
  const Symbols: string := "~`!@#$%^&*()_-+={[}],|:;<>.?/"

  predicate IsAsciiLetter(c: char) {
    'A' <= c <= 'Z' || 'a' <= c <= 'z'
  }

  predicate IsAsciiDigit(c: char) {
    '0' <= c <= '9'
  }

  /** Letters lists A to Z and then a to z, each in alphabetical order. */
  lemma LettersLayout()
    ensures |Letters| == 52
    ensures forall i :: 0 <= i < 26 ==> Letters[i] as int == 'A' as int + i
    ensures forall i :: 26 <= i < 52 ==> Letters[i] as int == 'a' as int + (i - 26)
  {
    // The solver does not look deep enough into a 52-character literal
    // to index its first half directly, so name that half on its own.
    var upper := "ABCDEFGHIJKLMNOPQRSTUVWXYZ";
    assert Letters[..26] == upper;
    assert forall i :: 0 <= i < 26 ==> upper[i] as int == 'A' as int + i;
  }

  /** Letters holds exactly the 52 ASCII letters. */
  lemma LettersAreAsciiLetters()
    ensures forall c :: c in Letters <==> IsAsciiLetter(c)
  {
    LettersLayout();
    forall c | IsAsciiLetter(c)
      ensures c in Letters
    {
      if c <= 'Z' {
        assert Letters[c as int - 'A' as int] == c;
      } else {
        assert Letters[c as int - 'a' as int + 26] == c;
      }
    }
  }

  /** Digits holds exactly the ten ASCII digits. */
  lemma DigitsAreAsciiDigits()
    ensures |Digits| == 10
    ensures forall c :: c in Digits <==> IsAsciiDigit(c)
  {
  }

  /** No symbol is a letter or a digit. */
  lemma SymbolsAreNeitherLettersNorDigits()
    ensures |Symbols| == 29
    ensures forall c :: c in Symbols ==> !IsAsciiLetter(c) && !IsAsciiDigit(c)
  {
  }

  /** No two of the three sets share a character. */
  lemma SetsPairwiseDisjoint()
    ensures forall c :: c in Letters ==> c !in Digits && c !in Symbols
    ensures forall c :: c in Digits ==> c !in Symbols
  {
    LettersAreAsciiLetters();
    DigitsAreAsciiDigits();
    SymbolsAreNeitherLettersNorDigits();
  }

  /** No set lists a character twice. */
  lemma SetsHaveNoRepeats()
    ensures forall i, j :: 0 <= i < j < |Letters| ==> Letters[i] != Letters[j]
    ensures forall i, j :: 0 <= i < j < |Digits| ==> Digits[i] != Digits[j]
    ensures forall i, j :: 0 <= i < j < |Symbols| ==> Symbols[i] != Symbols[j]
  {
    LettersLayout();
  }
}
