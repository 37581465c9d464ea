/**
 * Password construction, generateRandomPassword (index.js:38-65): a pool is
 * assembled from the letters and, depending on two checkboxes, the digits and
 * the symbols; then one pool character per loop iteration is appended to the
 * password, at an index drawn from Math.random().
 */
module PasswordGenerator {
  import opened CharacterSets

  /** What parseInt makes of the length field: an integer, or NaN. */
  datatype ParsedLength = Int(n: int) | NaN

  /**
   * JavaScript's `i < passwordLength`: false whenever passwordLength is NaN.
   */
  predicate Below(i: int, passwordLength: ParsedLength) {
    passwordLength.Int? && i < passwordLength.n
  }

  /**
   * The pool the password is drawn from: letters, then digits if numbers are
   * included, then symbols if symbols are included.
   */
  function Pool(includeNumbers: bool, includeSymbols: bool): seq<char> {
    Letters + (if includeNumbers then Digits else []) + (if includeSymbols then Symbols else [])
  }

  /** A value Math.random() can return: a number in [0, 1). */
  predicate IsDraw(r: real) {
    0.0 <= r < 1.0
  }

  /** `Math.floor(Math.random() * length)` for the draw `r`: always an index below `length`. */
  function RandomIndex(r: real, length: nat): (k: int)
    requires IsDraw(r) && length > 0
    ensures 0 <= k < length
  {
    assert 0.0 <= r * length as real < length as real by {
      assert (1.0 - r) * length as real > 0.0;
    }
    (r * length as real).Floor
  }

  /**
   * Index k is picked exactly by the draws in [k / length, (k + 1) / length):
   * every index of the pool is picked by an interval of draws of the same width.
   */
  lemma RandomIndexInterval(r: real, length: nat, k: int)
    requires IsDraw(r) && length > 0
    ensures RandomIndex(r, length) == k <==> k as real / length as real <= r < (k + 1) as real / length as real
  {
  }

  /**
   * Multiplying by a positive factor keeps order. The solver needs this step
   * for the nonlinear real arithmetic in EveryPoolCharacterCanBePicked.
   */
  lemma ScaleMonotonic(a: real, b: real, L: real)
    requires a <= b && L > 0.0
    ensures a * L <= b * L
  {
  }

  /**
   * generateRandomPassword with its inputs made explicit: the parsed length
   * field, the two checkbox states, and the successive values Math.random()
   * returns (one per loop iteration, at least as many as the loop runs).
   * The password has as many characters as the loop runs, and its k-th
   * character is the pool character at the index the k-th draw picks.
   */
  method GenerateRandomPassword(passwordLength: ParsedLength, includeNumbers: bool, includeSymbols: bool,
                                draws: seq<real>)
    returns (password: string)
    requires passwordLength.Int? ==> passwordLength.n <= |draws|
    requires forall k :: 0 <= k < |draws| ==> IsDraw(draws[k])
    ensures passwordLength.Int? && passwordLength.n > 0 ==> |password| == passwordLength.n
    ensures passwordLength.NaN? || passwordLength.n <= 0 ==> password == ""
    ensures forall k :: 0 <= k < |password| ==>
              password[k] == Pool(includeNumbers, includeSymbols)[RandomIndex(draws[k], |Pool(includeNumbers, includeSymbols)|)]
    ensures forall k :: 0 <= k < |password| ==> password[k] in Pool(includeNumbers, includeSymbols)
  {
    var availableCharacters := Letters;
    if includeNumbers {
      availableCharacters := availableCharacters + Digits;
    }
    if includeSymbols {
      availableCharacters := availableCharacters + Symbols;
    }
    assert availableCharacters == Pool(includeNumbers, includeSymbols);

    password := "";
    var i := 0;
    while Below(i, passwordLength)
      invariant 0 <= i <= |draws|
      invariant passwordLength.Int? && passwordLength.n > 0 ==> i <= passwordLength.n
      invariant passwordLength.NaN? || passwordLength.n <= 0 ==> i == 0
      invariant |password| == i
      invariant forall k :: 0 <= k < i ==>
                  password[k] == availableCharacters[RandomIndex(draws[k], |availableCharacters|)]
      decreases if passwordLength.Int? then passwordLength.n - i else 0
    {
      var randomIndex := RandomIndex(draws[i], |availableCharacters|);
      password := password + [availableCharacters[randomIndex]];
      i := i + 1;
    }
  }

  /** The pool has 52 + 10 * digits + 29 * symbols characters: 52, 62, 81 or 91. */
  lemma PoolSize(includeNumbers: bool, includeSymbols: bool)
    ensures |Pool(includeNumbers, includeSymbols)|
            == 52 + (if includeNumbers then 10 else 0) + (if includeSymbols then 29 else 0)
    ensures |Pool(includeNumbers, includeSymbols)| in {52, 62, 81, 91}
  {
  }

  /**
   * Where each set sits in the pool: the letters first, the digits right after
   * them when included, the symbols last when included.
   */
  lemma PoolLayout(includeNumbers: bool, includeSymbols: bool)
    ensures Pool(includeNumbers, includeSymbols)[..52] == Letters
    ensures includeNumbers ==> Pool(includeNumbers, includeSymbols)[52..62] == Digits
    ensures includeSymbols ==> Pool(includeNumbers, includeSymbols)[|Pool(includeNumbers, includeSymbols)| - 29..] == Symbols
    ensures !includeNumbers && !includeSymbols ==> Pool(includeNumbers, includeSymbols) == Letters
  {
  }

  /** A character is in the pool iff it is a letter, an enabled digit or an enabled symbol. */
  lemma PoolMembership(includeNumbers: bool, includeSymbols: bool, c: char)
    ensures c in Pool(includeNumbers, includeSymbols)
            <==> IsAsciiLetter(c) || (includeNumbers && IsAsciiDigit(c)) || (includeSymbols && c in Symbols)
  {
    LettersAreAsciiLetters();
    DigitsAreAsciiDigits();
  }

  /** The digits are in the pool iff numbers are included, the symbols iff symbols are included. */
  lemma PoolFlags(includeNumbers: bool, includeSymbols: bool)
    ensures includeNumbers <==> forall c :: c in Digits ==> c in Pool(includeNumbers, includeSymbols)
    ensures includeNumbers <==> exists c :: c in Digits && c in Pool(includeNumbers, includeSymbols)
    ensures includeSymbols <==> forall c :: c in Symbols ==> c in Pool(includeNumbers, includeSymbols)
    ensures includeSymbols <==> exists c :: c in Symbols && c in Pool(includeNumbers, includeSymbols)
  {
    var pool := Pool(includeNumbers, includeSymbols);
    DigitsAreAsciiDigits();
    SymbolsAreNeitherLettersNorDigits();
    PoolMembership(includeNumbers, includeSymbols, '0');
    PoolMembership(includeNumbers, includeSymbols, '~');
    forall c | c in Digits || c in Symbols
      ensures c in pool <==> (includeNumbers && c in Digits) || (includeSymbols && c in Symbols)
    {
      PoolMembership(includeNumbers, includeSymbols, c);
    }
    assert '0' in Digits && '~' in Symbols;
  }

  predicate NoRepeats(s: seq<char>) {
    forall i, j :: 0 <= i < j < |s| ==> s[i] != s[j]
  }

  /** Joining two sequences without repeats and without common characters gives none either. */
  lemma NoRepeatsConcat(a: seq<char>, b: seq<char>)
    requires NoRepeats(a) && NoRepeats(b)
    requires forall c :: c in a ==> c !in b
    ensures NoRepeats(a + b)
  {
    var ab := a + b;
    forall i, j | 0 <= i < j < |ab|
      ensures ab[i] != ab[j]
    {
      if j >= |a| {
        assert ab[j] == b[j - |a|];
        if i < |a| {
          assert ab[i] == a[i] && a[i] in a;
        } else {
          assert ab[i] == b[i - |a|];
        }
      }
    }
  }

  /** No character appears twice in the pool, so each pool index stands for a different character. */
  lemma PoolHasNoRepeats(includeNumbers: bool, includeSymbols: bool)
    ensures NoRepeats(Pool(includeNumbers, includeSymbols))
  {
    SetsHaveNoRepeats();
    SetsPairwiseDisjoint();
    var digits: string := if includeNumbers then Digits else [];
    var symbols: string := if includeSymbols then Symbols else [];
    NoRepeatsConcat(Letters, digits);
    forall c | c in Letters + digits
      ensures c !in symbols
    {
    }
    NoRepeatsConcat(Letters + digits, symbols);
  }

  /** Every pool character is the one some value of Math.random() picks. */
  lemma EveryPoolCharacterCanBePicked(includeNumbers: bool, includeSymbols: bool, j: int)
    requires 0 <= j < |Pool(includeNumbers, includeSymbols)|
    ensures exists r :: IsDraw(r) && RandomIndex(r, |Pool(includeNumbers, includeSymbols)|) == j
  {
    var L := |Pool(includeNumbers, includeSymbols)|;
    var r := j as real / L as real;
    assert r * L as real == j as real;
    if 1.0 <= r {
      ScaleMonotonic(1.0, r, L as real);
    }
    RandomIndexInterval(r, L, j);
  }

  /**
   * What the checkboxes rule out of a password drawn from the pool: no digit
   * without numbers, no symbol without symbols, and only letters without either.
   */
  lemma FlagsRestrictPassword(password: string, includeNumbers: bool, includeSymbols: bool)
    requires forall k :: 0 <= k < |password| ==> password[k] in Pool(includeNumbers, includeSymbols)
    ensures !includeNumbers ==> forall k :: 0 <= k < |password| ==> !IsAsciiDigit(password[k])
    ensures !includeSymbols ==> forall k :: 0 <= k < |password| ==> password[k] !in Symbols
    ensures !includeNumbers && !includeSymbols ==> forall k :: 0 <= k < |password| ==> IsAsciiLetter(password[k])
  {
    SymbolsAreNeitherLettersNorDigits();
    forall k | 0 <= k < |password|
      ensures IsAsciiLetter(password[k]) || (includeNumbers && IsAsciiDigit(password[k]))
              || (includeSymbols && password[k] in Symbols)
    {
      PoolMembership(includeNumbers, includeSymbols, password[k]);
    }
  }
}
