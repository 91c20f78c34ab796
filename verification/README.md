# Password checker rules, in Dafny

This project models the logic of a client-side password strength widget. The
widget evaluates five checklist rules on the password: at least 8 characters,
an uppercase letter, a lowercase letter, a digit, and a special character. It
counts the passed rules into a strength score from 0 to 5 and maps the score to
one of the labels Weak, Medium, Strong or Very Strong. For its crack-time
estimate it also sums the sizes of the character classes the password uses into
a pool size.

The password is a sequence of UTF-16 code units (`CodeUnits.CodeUnit`), because
that is what a JavaScript string is. `password.length` counts code units, and the
regular expressions `/[A-Z]/`, `/[a-z]/`, `/[0-9]/` and `/[^A-Za-z0-9]/` have no
`u` flag, so they compare one code unit at a time against ASCII ranges.
`CodeUnits.Utf16` turns a text of Unicode characters into those code units. A
character outside the Basic Multilingual Plane, such as an emoji, becomes two
surrogate units. It therefore adds two to the length and counts as a special
character.

Modules, in dependency order:

- `CodeUnits` (code_units.dfy): the code-unit type and the UTF-16 encoding.
- `CharClass` (char_class.dfy): the four character classes and `Test`. `Test` is
  a left-to-right scan that models `regex.test(password)`. It is proved equal to
  the reference predicate `Occurs` ("some code unit lies in the class").
- `PasswordRules` (password_rules.dfy): `checkPasswordRules` and its five flags.
- `Strength` (strength.dfy): the score, the label if-chain (labels are the
  datatype `Level`), and the label and string `checkStrength` stores.
- `CrackTime` (crack_time.dfy): the integer pool size of `estimateTimeToCrack`.
- `Examples` (examples.dfy): sample passwords with the rules, score, label and
  pool size the model gives them, and the effect of characters outside the BMP.

The label if-chain has no final `else`. A score above 5 would reach no branch,
and the stored label would stay as it was. `Strength.Label` therefore returns an
`Option`, with `None` for a score no branch covers. `Strength.CheckStrength`
relies on the proved bound of 5 on the score to show that `None` never arises.

## Model

| member | source | states |
|---|---|---|
| CodeUnits.Utf16 | app/components/PasswordChecker.tsx:38 | the length the length rule sees is the number of characters plus one per character outside the BMP, between one and two units per character; BMP text is its own encoding |
| CodeUnits.EncodeChar | app/components/PasswordChecker.tsx:38 | a BMP character is one code unit equal to itself; any other character is a high/low surrogate pair that decodes back to it |
| CodeUnits.Utf16Append | app/components/PasswordChecker.tsx:38-42 | encoding distributes over concatenation, so the appending lemmas about the rules, score and pool size, stated on code units, carry over to appended text |
| CharClass.Test | app/components/PasswordChecker.tsx:39-42 | the scan for a class pattern succeeds exactly when some code unit of the password lies in that class |
| CharClass.ClassesPartition | app/components/PasswordChecker.tsx:39-42 | every code unit lies in at least one class, and in no two classes: the special class is the complement of the other three |
| CharClass.ClassOf | app/components/PasswordChecker.tsx:39-42 | each code unit has one class, the only class that contains it |
| CharClass.NonEmptyHasSomeClass | app/components/PasswordChecker.tsx:39-42 | a non-empty password matches at least one of the four class patterns |
| CharClass.TestConcat | app/components/PasswordChecker.tsx:39-42 | a class pattern matches a concatenation iff it matches one of the parts |
| CharClass.TestMonotone | app/components/PasswordChecker.tsx:39-42 | a matching class pattern still matches after the password is extended |
| PasswordRules.CheckPasswordRules | app/components/PasswordChecker.tsx:37-43 | minLength holds iff the password has at least 8 code units; each class flag holds iff some code unit lies in that ASCII range, or outside all three for the special flag |
| PasswordRules.EmptyFailsAll | app/components/PasswordChecker.tsx:37-43 | the empty password fails all five rules |
| PasswordRules.NonEmptyPassesAClassRule | app/components/PasswordChecker.tsx:39-42 | a non-empty password passes at least one of the four class rules |
| PasswordRules.RulesMonotone | app/components/PasswordChecker.tsx:38-42 | appending code units never turns a passed rule into a failed one |
| PasswordRules.RulesConcat | app/components/PasswordChecker.tsx:38-42 | a concatenation passes a class rule iff one of its parts does; its length rule depends on the total length |
| Strength.Score | app/components/PasswordChecker.tsx:56-61 | the score is at most 5; it is 0 iff no rule passes and 5 iff every rule passes |
| Strength.ScoreCountsPassedRules | app/components/PasswordChecker.tsx:53-61 | the score equals the number of passed rules, counted over the checklist's rule list |
| Strength.Label | app/components/PasswordChecker.tsx:63-71 | the if-chain chooses a label exactly for the scores up to 5 |
| Strength.LabelIsHighestReached | app/components/PasswordChecker.tsx:63-71 | for every score from 0 to 5, the if-chain gives exactly the highest label whose threshold (0, 2, 4, 5) the score reaches |
| Strength.LabelMonotone | app/components/PasswordChecker.tsx:63-71 | every score up to 5 gets a label, and a higher score never gets a weaker label |
| Strength.CheckStrength | app/components/PasswordChecker.tsx:52-71 | every password gets a label: the highest one whose threshold (0, 2, 4, 5) the password's score reaches |
| Strength.TextInjective | app/components/PasswordChecker.tsx:63-71 | the four stored label strings are pairwise different |
| Strength.StoredTextIdentifiesLevel | app/components/PasswordChecker.tsx:63-71 | two passwords leave the same string in the strength state exactly when they get the same label |
| Strength.EmptyPasswordIsWeak | app/components/PasswordChecker.tsx:56-64 | the empty password scores 0, is labelled Weak and stores the string "Weak" |
| Strength.NonEmptyScoresAtLeastOne | app/components/PasswordChecker.tsx:56-61 | every non-empty password scores at least 1 |
| Strength.ScoreMonotone | app/components/PasswordChecker.tsx:56-61 | passing a superset of rules never gives a lower score |
| Strength.StrengthMonotone | app/components/PasswordChecker.tsx:52-71 | extending a password never lowers its score or weakens its label |
| CrackTime.PoolSize | app/components/PasswordChecker.tsx:13-17 | the pool size is at most 94, is 0 iff the password is empty, and is at least 10 otherwise |
| CrackTime.PoolSizeSumsClasses | app/components/PasswordChecker.tsx:13-17 | the pool size is the sum of 26, 26, 10 and 32 over the classes that occur in the password |
| CrackTime.PoolSizeFromRules | app/components/PasswordChecker.tsx:13-17 | the pool size is 26·[lower] + 26·[upper] + 10·[digit] + 32·[special], where the flags are those the checklist computes |
| CrackTime.PoolSizeMonotone | app/components/PasswordChecker.tsx:13-17 | extending a password never shrinks the pool |
| Examples.EncodingOfAbc12345 | app/components/PasswordChecker.tsx:37-43 | the text "Abc12345" is the eight code units of its ASCII characters |
| Examples.EncodingOfAb1Bang | app/components/PasswordChecker.tsx:37-43 | the text "Ab1!" is the four code units of its ASCII characters |
| Examples.EncodingOfEightAs | app/components/PasswordChecker.tsx:37-43 | the text "aaaaaaaa" is eight code units 97 |
| Examples.AllButSpecial | app/components/PasswordChecker.tsx:37-71 | "Abc12345" passes every rule except the special rule, scores 4, is Strong and has pool size 62 |
| Examples.ShortButVaried | app/components/PasswordChecker.tsx:37-71 | "Ab1!" fails only the length rule, is Strong and has pool size 94 |
| Examples.EightLowercase | app/components/PasswordChecker.tsx:37-71 | "aaaaaaaa" passes only the length and lowercase rules, is Medium and has pool size 26 |
| Examples.AstralCharIsTwoSpecialUnits | app/components/PasswordChecker.tsx:38-42 | a character outside the BMP is two code units, both special, and alone it passes only the special rule |
| Examples.FourAstralCharsAreLongEnough | app/components/PasswordChecker.tsx:38 | four characters outside the BMP already pass the length rule |

## Left out

- The crack-time arithmetic (app/components/PasswordChecker.tsx:19-33) is left out. It computes `Math.pow(poolSize, password.length)`, divides by 1e9, picks a unit and applies `Math.round`. All of this is IEEE-754 floating point: long passwords overflow to `Infinity`, and the empty password gives `0^0 = 1`. An integer model would not match it. Only the integer pool-size step is modelled.
- The React state is left out: the `password`, `strength`, `crackTime` and `showPassword` hooks, the `onChange` handler that stores the password and recomputes, and the Show/Hide toggle. This is UI plumbing that only sets state. `Strength.CheckStrength` is the label the handler stores.
- JSX rendering, the colour class chosen per label, and the checklist texts are left out. They are display only.
- General regular-expression semantics are left out. Each of the four patterns is a single character class with no flags. It is modelled as a scan for one code unit in an ASCII range.
- Strength.Label: its own contract only says which scores get a label. The exact score-to-label table is stated by `Strength.LabelIsHighestReached`.
