# Password generator: password construction

This project models the password construction of a small browser password
generator (`index.js`). The page keeps three fixed character sets: 52 letters,
10 digits and 29 symbols. On every call, `generateRandomPassword`
builds a pool. The pool always starts with the letters, then adds the digits
when the "include numbers" checkbox is ticked and the symbols when the "include
symbols" checkbox is ticked. The function then appends one pool character per
loop iteration, at the index `Math.floor(Math.random() * pool.length)`, for as
many iterations as `parseInt` makes of the length field.

The model has two modules:

- `CharacterSets` (`character_sets.dfy`) holds the three sets as string
  constants with the source's own characters in the source's own order. It
  proves what they contain: exactly the ASCII letters A–Z then a–z, exactly the
  ASCII digits, and symbols that are neither letters nor digits. It also proves
  that no set repeats a character and that no two sets share one.
- `PasswordGenerator` (`password_generator.dfy`) holds `Pool` (the pool as a
  function of the two checkboxes) and `GenerateRandomPassword`, a method that
  assembles the pool by reassignment and builds the password in a `while` loop
  as the source does. Its inputs are made explicit:
  - the result of `parseInt` is a `ParsedLength`, either an integer or `NaN`;
  - the checkbox states are two booleans;
  - the values `Math.random()` returns are a caller-supplied sequence of reals
    in [0, 1), one per iteration.

  The loop condition `i < passwordLength` is `Below`, which is false for `NaN`
  as in JavaScript. A length that is zero, negative or `NaN` therefore yields
  the empty string. That the index drawn lies inside the pool is proved from
  the range of `Math.random()`; it is not assumed.

The code does not check the length: a zero, negative or `NaN` length makes the
loop run zero times, and that is what is modelled.

## Model

| member | source | states |
|---|---|---|
| CharacterSets.LettersLayout | index.js:6-9 | the letter set has 52 characters, A to Z at positions 0–25 and a to z at positions 26–51, each in alphabetical order |
| CharacterSets.LettersAreAsciiLetters | index.js:5-9 | a character is in the letter set iff it is an ASCII letter |
| CharacterSets.DigitsAreAsciiDigits | index.js:11-12 | the digit set has 10 characters and holds exactly the ASCII digits |
| CharacterSets.SymbolsAreNeitherLettersNorDigits | index.js:14-18 | the symbol set has 29 characters, none of them a letter or a digit |
| CharacterSets.SetsPairwiseDisjoint | index.js:6-18 | no character belongs to two of the three sets |
| CharacterSets.SetsHaveNoRepeats | index.js:6-18 | no set lists a character twice |
| PasswordGenerator.RandomIndex | index.js:59 | `Math.floor(r * length)` lies in [0, length) for every draw r in [0, 1) and every non-empty pool |
| PasswordGenerator.RandomIndexInterval | index.js:59 | index k is drawn exactly when r lies in [k/length, (k+1)/length), so every index has an interval of draws of the same width |
| PasswordGenerator.EveryPoolCharacterCanBePicked | index.js:59-61 | for every pool position some value of `Math.random()` picks it |
| PasswordGenerator.GenerateRandomPassword | index.js:38-65 | the password has exactly n characters for a parsed length n > 0 and is empty for n <= 0 or NaN; its k-th character is the pool character at the index picked by the k-th draw, so every character is in the pool |
| PasswordGenerator.PoolSize | index.js:43-53 | the pool has 52 + 10·numbers + 29·symbols characters, so its size is 52, 62, 81 or 91 |
| PasswordGenerator.PoolLayout | index.js:43-53 | the pool starts with the 52 letters in order; the digits follow right after them when numbers are included; the symbols close the pool when symbols are included; with both off the pool is just the letters |
| PasswordGenerator.PoolMembership | index.js:43-53 | a character is in the pool iff it is a letter, or a digit with numbers included, or a symbol with symbols included |
| PasswordGenerator.PoolFlags | index.js:46-53 | the digits are in the pool (all of them, and any of them) iff numbers are included; the same holds for the symbols and the symbols flag |
| PasswordGenerator.PoolHasNoRepeats | index.js:43-53 | no character occurs twice in any pool, so distinct indices give distinct characters |
| PasswordGenerator.FlagsRestrictPassword | index.js:46-61 | a password drawn from the pool has no digit when numbers are off, no symbol when symbols are off, and only letters when both are off |

## Left out

- Clipboard copying (`copyToClipboard`, `fallbackCopy`, index.js:75-113) is asynchronous browser I/O through `navigator.clipboard` and `document.execCommand`. It has no internal state to verify.
- The DOM lookups and the click handlers (index.js:25-28, index.js:119-144) are UI wiring. This includes generating two passwords per click and copying only non-empty text.
- `parseInt(lengthInput.value)` (index.js:40) is string parsing. The model takes its result as a `ParsedLength`. A length so large that it is not an exact integer in JavaScript is not modelled.
- The checkbox reads (index.js:46, index.js:51) become the boolean parameters `includeNumbers` and `includeSymbols`.
- `Math.random()` (index.js:59) becomes the caller's sequence `draws` of reals in [0, 1). The multiplication is exact real arithmetic, so floating-point rounding of `Math.random() * length` is not modelled. The statistical uniformity of `Math.random()` is not modelled either. `RandomIndexInterval` only shows that every pool index is picked by an equally wide interval of draws.
- `GenerateRandomPassword` requires at least as many draws as the loop runs, because a sequence stands in for a generator that never runs out.
- The copy `[...letterCharacters]` and the `concat` calls (index.js:43-52) never change the three constant arrays. In the model this holds by construction: the sets are immutable sequence values, so no lemma states it.
- `console.log` calls are diagnostics only.
