# Password strength checker, verified model

This project models `checkPasswordStrength` from the SecureApp signup page
(`src/09-password-strength.js`). The function takes any value and returns one of
the labels `"weak"`, `"medium"`, `"strong"` or `"very strong"`.

- A value that is not a string, or the empty string, is `"weak"`.
- Otherwise one pass over the string sets four flags. Each UTF-16 code unit is tested by an
  `else if` chain: 65..90 (uppercase), then 97..122 (lowercase), then 48..57 (digit), then
  membership in the 26 characters `!@#$%^&*()_+-=[]{}|;:,.<>?` (special).
- It counts how many of five criteria hold: length at least 8, plus the four flags.
- It maps the count to a tier: 0-1 weak, 2-3 medium, 4 strong, 5 very strong.

All of it is in one Dafny module, `PasswordStrength` (`password_strength.dfy`):

- `Input = Str(units) | NonString` stands for the dynamically typed argument.
- A string is a sequence of `CodeUnit`s, integers in `[0, 0x10000)`. This matches JavaScript's
  `length` and `charCodeAt`, which both work on UTF-16 code units.
- The pure specification is `Has`, `Criteria`, `CountTrue`, `CountCriteria`, `TierOf` and
  `Strength`. `Label` maps a `Tier` to the source's literal string.
- The imperative checker is `Scan`, the flag loop, and `CheckPasswordStrength`, which has the
  guard, the step-by-step tally and the early-return chain. Both are proved equal to the
  specification.

## Model

| member | source | states |
|---|---|---|
| PasswordStrength.CheckPasswordStrength | src/09-password-strength.js:28-62 | the returned string is the label of `Strength(password)`, it is always one of the four labels, and a non-string or empty input gives `"weak"` |
| PasswordStrength.Scan | src/09-password-strength.js:35-50 | after the loop each flag is true exactly when some code unit of the password lies in that flag's class (uppercase 65..90, lowercase 97..122, digit 48..57, special set) |
| PasswordStrength.SpecialOutsideRanges | src/09-password-strength.js:40-49 | no character of the special set has a code in the uppercase, lowercase or digit range |
| PasswordStrength.ClassifyExact | src/09-password-strength.js:46-49 | the `else if` chain picks a class exactly when the code unit belongs to it, so the order of the chain does not change any flag |
| PasswordStrength.CountTrueBounds | src/09-password-strength.js:52-56 | a count of satisfied criteria is at most the number of criteria; it equals it exactly when all hold and is 0 exactly when none holds |
| PasswordStrength.CountTrueOfFive | src/09-password-strength.js:52-56 | counting the true values among five criteria is the sum of five 0/1 increments, as the tally does |
| PasswordStrength.CountCriteria | src/09-password-strength.js:33-56 | the count is at most 5; it is 5 exactly when all five criteria hold and 0 exactly when none holds |
| PasswordStrength.Label | src/09-password-strength.js:26 | every tier's label is one of `"weak"`, `"medium"`, `"strong"`, `"very strong"` |
| PasswordStrength.LabelInjective | src/09-password-strength.js:58-61 | distinct tiers have distinct labels, so the string result determines the tier |
| PasswordStrength.GuardIsWeak | src/09-password-strength.js:29-31 | a non-string or an empty string is weak |
| PasswordStrength.EmptyMeetsNoCriterion | src/09-password-strength.js:29-31 | the empty string meets no criterion, so the guard agrees with the tally on it |
| PasswordStrength.TierTable | src/09-password-strength.js:58-61 | for counts 0..5: weak exactly at 0-1, medium exactly at 2-3, strong exactly at 4, very strong exactly at 5 |
| PasswordStrength.TierMonotone | src/09-password-strength.js:58-61 | a larger count never gives a lower tier |
| PasswordStrength.StrengthFromSummary | src/09-password-strength.js:42-56 | two strings of the same length in which the same classes occur have the same strength |
| PasswordStrength.HasFromMultiset | src/09-password-strength.js:42-50 | whether a class occurs in a string depends only on the multiset of its code units |
| PasswordStrength.PermutationInvariant | src/09-password-strength.js:42-56 | permuting the code units of a string does not change its strength |
| PasswordStrength.NoSpecialInAlnum | src/09-password-strength.js:40-49 | a string made only of letters and digits contains no special character |
| PasswordStrength.Units | src/09-password-strength.js:43 | a string of Basic Multilingual Plane characters has one code unit per character, equal to the character's code |
| PasswordStrength.ExampleVeryStrong | src/09-password-strength.js:8-19 | `"Password1!"` meets all five criteria and is very strong |
| PasswordStrength.ExampleStrong | src/09-password-strength.js:8-19 | `"Password1"` meets four criteria and is strong |
| PasswordStrength.ExampleMedium | src/09-password-strength.js:8-19 | `"PASSWORD"` meets length and uppercase only and is medium |
| PasswordStrength.ExampleWeak | src/09-password-strength.js:8-19 | `"short"` meets only the lowercase criterion and is weak |

## Left out

- JavaScript's runtime `typeof` check: the argument's type is the tag of `Input`, and every non-string
  value is the single case `NonString`.
- The UTF-16 encoding itself: a string is its sequence of code units. Surrogates and other non-ASCII
  units are ordinary code units that match no class, as in the source.
- `String.prototype.includes`: called on a one-unit string, it is modelled as membership of that code
  unit among the codes of the special characters.
- The signup-page UI that calls the checker and the ES module `export`: presentation and wiring, with
  no logic.
