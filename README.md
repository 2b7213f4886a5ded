# Password generator — a verified model

The password generator is a small interactive Python program. It asks for:

- a password length of 4 or more;
- how many passwords to print, 1 or more;
- four yes/no answers selecting lowercase letters, uppercase letters, digits and punctuation.

It then builds a character pool from the selected classes. If the pool is empty it stops. Otherwise it prints a numbered list of passwords, each drawn character by character from the pool with `secrets.choice`.

This project models the deterministic part of that program and proves its contracts:

- **`PyText`** (`pytext.dfy`): the Python string operations the program uses, limited to ASCII.
  - `str.strip()`, `str.lower()`, `str.isdigit()`;
  - `int()` on a digit string, `str(n)`;
  - the right alignment of `f"{i:>2}"`.
- **`PasswordGenerator`** (`password_generator.dfy`): the program.
  - The line test of `ask_int` and of `ask_yes_no`.
  - The two retry loops, as "the first accepted line" of a finite sequence of input lines.
  - The pool assembly of `build_charset`.
  - `generate_password`, driven by an abstract index oracle.
  - The guard and numbered output loop of `main`.
- **`Wrappers`** (`wrappers.dfy`): `Option` and `Result`.

Input is a `seq<string>` of lines without their newlines. A method that reads input returns how many lines it consumed.

The secure random source is a function `pick(k, n)`. It gives the index returned by the `k`-th call of `secrets.choice` on a sequence of length `n`, and `IsIndexOracle` requires `pick(k, n) < n`.

Facts about the code that the model keeps:

- **End of input.** `input()` raises `EOFError` when the input ends, and nothing catches it. The model returns `None` there, or `InputEnded` for a whole run.
- **Whitespace.** The stripped whitespace is exactly Python's ASCII `isspace` set. That set includes `\x1c`..`\x1f`.
- **No repeated characters.** The four class strings are disjoint and none repeats a character, so the pool has no repeats (`PoolDistinct`).

## Model

All source paths are `TASK1_Password_Generator/src/password_generator.py`.

| member | source | states |
|---|---|---|
| PyText.IsSpace | TASK1_Password_Generator/src/password_generator.py:8 | no contract of its own: the ASCII characters `str.isspace` accepts, which `strip()` removes |
| PyText.TrimLeft | TASK1_Password_Generator/src/password_generator.py:8 | no contract of its own: `lstrip()`; pinned down by TrimLeftSpec and TrimLeftPadded |
| PyText.TrimRight | TASK1_Password_Generator/src/password_generator.py:8 | no contract of its own: `rstrip()`; pinned down by TrimRightSpec and TrimRightPadded |
| PyText.Strip | TASK1_Password_Generator/src/password_generator.py:8 | no contract of its own: `strip()`; pinned down by StripSplits and StripPadded |
| PyText.TrimLeftSpec | TASK1_Password_Generator/src/password_generator.py:8 | `lstrip` removes a whitespace prefix and keeps a suffix of the input that is empty or starts with a non-space |
| PyText.TrimRightSpec | TASK1_Password_Generator/src/password_generator.py:8 | `rstrip` removes a whitespace suffix and keeps a prefix of the input that is empty or ends with a non-space |
| PyText.StripSplits | TASK1_Password_Generator/src/password_generator.py:8 | any line is whitespace, then the stripped text, then whitespace; the stripped text neither starts nor ends with whitespace |
| PyText.TrimLeftPadded | TASK1_Password_Generator/src/password_generator.py:8 | `lstrip` of whitespace followed by text that starts with a non-space gives that text |
| PyText.TrimRightPadded | TASK1_Password_Generator/src/password_generator.py:8 | `rstrip` of text that ends with a non-space followed by whitespace gives that text |
| PyText.StripPadded | TASK1_Password_Generator/src/password_generator.py:8 | stripping whitespace padding on both sides recovers the padded text, the empty text included |
| PyText.ToLower | TASK1_Password_Generator/src/password_generator.py:24 | no contract of its own: `lower()` on one ASCII character; pinned down by LowerStringSpec and LowerIsLetter |
| PyText.LowerString | TASK1_Password_Generator/src/password_generator.py:24 | no contract of its own: `str.lower()`; pinned down by LowerStringSpec and LowerStringCaseless |
| PyText.LowerStringSpec | TASK1_Password_Generator/src/password_generator.py:24 | `lower()` keeps the length, leaves no 'A'..'Z', turns each of those into its lowercase letter and keeps every other character |
| PyText.LowerStringCaseless | TASK1_Password_Generator/src/password_generator.py:24 | two strings lowercase alike exactly when they agree letter by letter up to ASCII case |
| PyText.IsDigitString | TASK1_Password_Generator/src/password_generator.py:9 | no contract of its own: `isdigit()` on ASCII, false on the empty string |
| PyText.DecimalValue | TASK1_Password_Generator/src/password_generator.py:13 | no contract of its own: `int()` on a digit string; pinned down by DecimalOfNatToString, NatToStringOfDecimal and LeadingZero |
| PyText.NatToString | TASK1_Password_Generator/src/password_generator.py:79 | `str(n)` is a non-empty digit string with no leading zero unless n is 0, and has one digit exactly when n < 10 |
| PyText.DecimalOfNatToString | TASK1_Password_Generator/src/password_generator.py:13 | `int(str(n)) == n` |
| PyText.NatToStringOfDecimal | TASK1_Password_Generator/src/password_generator.py:13 | `str(int(s)) == s` for every digit string without a leading zero |
| PyText.LeadingZero | TASK1_Password_Generator/src/password_generator.py:13 | a leading zero does not change the value `int()` reads |
| PyText.PositiveValue | TASK1_Password_Generator/src/password_generator.py:13 | a digit string that does not start with '0' has a positive value |
| PyText.RightAlign | TASK1_Password_Generator/src/password_generator.py:79 | right alignment has length max(width, \|s\|), ends with s and is padded with spaces only |
| PyText.RightAlignSplits | TASK1_Password_Generator/src/password_generator.py:79 | a right-aligned string is whitespace followed by the string |
| PyText.NumeralStrips | TASK1_Password_Generator/src/password_generator.py:8 | stripping a space-padded numeral gives the numeral |
| PasswordGenerator.LowerMembers | TASK1_Password_Generator/src/password_generator.py:42 | `string.ascii_lowercase` holds exactly 'a'..'z' |
| PasswordGenerator.UpperMembers | TASK1_Password_Generator/src/password_generator.py:44 | `string.ascii_uppercase` holds exactly 'A'..'Z' |
| PasswordGenerator.DigitMembers | TASK1_Password_Generator/src/password_generator.py:46 | `string.digits` holds exactly '0'..'9' |
| PasswordGenerator.PunctuationMembers | TASK1_Password_Generator/src/password_generator.py:49 | `string.punctuation` holds exactly the four ASCII punctuation ranges |
| PasswordGenerator.AcceptInt | TASK1_Password_Generator/src/password_generator.py:8-18 | no contract of its own: the test `ask_int` applies to one line; pinned down by AcceptIntShape, AcceptIntPadded, AcceptIntNonDigit, AcceptIntBlank and AcceptIntInternalSpace |
| PasswordGenerator.AcceptIntPadded | TASK1_Password_Generator/src/password_generator.py:8-18 | a digit string padded with whitespace is accepted as its decimal value when that value reaches the minimum, and is otherwise rejected as below the minimum |
| PasswordGenerator.AcceptIntNonDigit | TASK1_Password_Generator/src/password_generator.py:8-11 | a line holding any character that is neither a digit nor whitespace is rejected as not a number, whatever the minimum |
| PasswordGenerator.AcceptIntBlank | TASK1_Password_Generator/src/password_generator.py:8-11 | an empty or all-whitespace line is rejected as not a number |
| PasswordGenerator.AcceptIntShape | TASK1_Password_Generator/src/password_generator.py:8-11 | a line passes the `isdigit()` test exactly when it is a digit string with whitespace on either side |
| PasswordGenerator.AcceptIntInternalSpace | TASK1_Password_Generator/src/password_generator.py:8-11 | whitespace between two digits makes the line not a number |
| PasswordGenerator.AcceptIntNumeral | TASK1_Password_Generator/src/password_generator.py:8-18 | the numeral of every n at or above the minimum is accepted as n |
| PasswordGenerator.AcceptIntNotANumberExamples | TASK1_Password_Generator/src/password_generator.py:9-11 | "", "-5", "+5", "4a" and "1 2" are rejected as not a number |
| PasswordGenerator.AcceptIntBelowMinimumExamples | TASK1_Password_Generator/src/password_generator.py:13-16 | "3" is below the length minimum 4 and "0" is below the count minimum 1 |
| PasswordGenerator.AcceptIntLeadingZerosExample | TASK1_Password_Generator/src/password_generator.py:13-18 | "0007" is accepted as 7 |
| PasswordGenerator.AcceptIntPaddedExample | TASK1_Password_Generator/src/password_generator.py:8-18 | "  12\t" is accepted as 12 |
| PasswordGenerator.ReadInt | TASK1_Password_Generator/src/password_generator.py:7-18 | the answer comes from the first accepted line; every earlier line was rejected; the answer is at least `min_value`; with no answer, every line was rejected |
| PasswordGenerator.AskInt | TASK1_Password_Generator/src/password_generator.py:5-18 | the retry loop returns the first accepted line and the number of lines it read; it lists one retry message per rejected line, in order, each the one that line calls for |
| PasswordGenerator.ClassifyYesNo | TASK1_Password_Generator/src/password_generator.py:24-29 | no contract of its own: the test `ask_yes_no` applies to one line; pinned down by YesNoAnswers |
| PasswordGenerator.LowerIsLetter | TASK1_Password_Generator/src/password_generator.py:24 | a character lowercases to a given letter exactly when it is that letter in either case |
| PasswordGenerator.YesNoAnswers | TASK1_Password_Generator/src/password_generator.py:24-29 | a stripped answer means yes exactly when it is a case variant of "y"/"yes", no exactly when it is a variant of "n"/"no", and is rejected exactly when it is neither |
| PasswordGenerator.YesNoAcceptExamples | TASK1_Password_Generator/src/password_generator.py:24-28 | " YES " is yes and "No" is no |
| PasswordGenerator.YesNoRejectExamples | TASK1_Password_Generator/src/password_generator.py:24-29 | "yeah" and "" are rejected |
| PasswordGenerator.ReadYesNo | TASK1_Password_Generator/src/password_generator.py:23-29 | the answer comes from the first accepted line and every earlier line was rejected; with no answer, every line was rejected |
| PasswordGenerator.AskYesNo | TASK1_Password_Generator/src/password_generator.py:21-29 | the retry loop returns the first yes/no answer and the number of lines it read |
| PasswordGenerator.Selected | TASK1_Password_Generator/src/password_generator.py:41-49 | no contract of its own: one class if its answer was yes, nothing otherwise |
| PasswordGenerator.Pool | TASK1_Password_Generator/src/password_generator.py:41-49 | no contract of its own: the selected classes joined in the fixed order; pinned down by PoolLength, PoolEmpty, PoolMembers, PoolInClassOrder and PoolDistinct, and equal to what AssemblePool builds |
| PasswordGenerator.PoolLength | TASK1_Password_Generator/src/password_generator.py:41-49 | the pool's length is 26·lower + 26·upper + 10·digits + 32·symbols |
| PasswordGenerator.PoolEmpty | TASK1_Password_Generator/src/password_generator.py:41-53 | the pool is empty exactly when no class is selected |
| PasswordGenerator.PoolMembers | TASK1_Password_Generator/src/password_generator.py:41-49 | a character is in the pool exactly when it belongs to a selected class |
| PasswordGenerator.InClassOrderAppend | TASK1_Password_Generator/src/password_generator.py:41-49 | appending a later class section keeps the class order |
| PasswordGenerator.Section | TASK1_Password_Generator/src/password_generator.py:41-49 | a selected or omitted class section is in class order within the given rank bounds |
| PasswordGenerator.ClassRanks | TASK1_Password_Generator/src/password_generator.py:41-49 | every character of each class string has that class's position in the pool order |
| PasswordGenerator.PoolInClassOrder | TASK1_Password_Generator/src/password_generator.py:41-49 | the pool lists lowercase, then uppercase, then digits, then punctuation, never going back to an earlier class |
| PasswordGenerator.LowercaseAscending | TASK1_Password_Generator/src/password_generator.py:42 | `string.ascii_lowercase` is in strictly increasing character order |
| PasswordGenerator.UppercaseAscending | TASK1_Password_Generator/src/password_generator.py:44 | `string.ascii_uppercase` is in strictly increasing character order |
| PasswordGenerator.DigitsAscending | TASK1_Password_Generator/src/password_generator.py:46 | `string.digits` is in strictly increasing character order |
| PasswordGenerator.PunctuationAscending | TASK1_Password_Generator/src/password_generator.py:49 | `string.punctuation` is in strictly increasing character order |
| PasswordGenerator.AscendingApart | TASK1_Password_Generator/src/password_generator.py:41-49 | in a strictly increasing string, any later character is larger |
| PasswordGenerator.DistinctAppend | TASK1_Password_Generator/src/password_generator.py:41-49 | joining two repeat-free sections of different classes gives no repeats |
| PasswordGenerator.SelectedDistinct | TASK1_Password_Generator/src/password_generator.py:41-49 | a selected or omitted class section has no repeated character |
| PasswordGenerator.PoolSections | TASK1_Password_Generator/src/password_generator.py:41-49 | each of the four pool sections is repeat-free and of one class |
| PasswordGenerator.SectionsDistinct | TASK1_Password_Generator/src/password_generator.py:41-49 | four repeat-free sections of four successive classes join without repeats |
| PasswordGenerator.PoolDistinct | TASK1_Password_Generator/src/password_generator.py:41-49 | no character occurs twice in the pool |
| PasswordGenerator.DigitsOnlyPool | TASK1_Password_Generator/src/password_generator.py:45-46 | with only digits selected, every character of a password over the pool is '0'..'9' |
| PasswordGenerator.ReadChoices | TASK1_Password_Generator/src/password_generator.py:36-39 | the four answers, one question after another, use no more lines than there are |
| PasswordGenerator.AskChoices | TASK1_Password_Generator/src/password_generator.py:36-39 | asks the four questions in order, each reading on from where the previous one stopped; None when the input ends first |
| PasswordGenerator.AssemblePool | TASK1_Password_Generator/src/password_generator.py:34-49 | the step-by-step `+=` concatenation produces the pool of the four answers |
| PasswordGenerator.BuildCharset | TASK1_Password_Generator/src/password_generator.py:32-55 | returns the pool of the answers read, the empty string when nothing was selected, or None when the input ends before the fourth answer |
| PasswordGenerator.IsIndexOracle | TASK1_Password_Generator/src/password_generator.py:60 | no contract of its own: the k-th `secrets.choice` on n characters gives an index below n |
| PasswordGenerator.Draws | TASK1_Password_Generator/src/password_generator.py:60 | `count` consecutive draws give `count` indices, each below the pool size |
| PasswordGenerator.GeneratePassword | TASK1_Password_Generator/src/password_generator.py:58-60 | a password of exactly `length` characters, each a member of the pool, its k-th character being the pool character at the k-th draw |
| PasswordGenerator.IndexOf | TASK1_Password_Generator/src/password_generator.py:60 | the position of the first occurrence of one pool character |
| PasswordGenerator.GeneratePasswordCovers | TASK1_Password_Generator/src/password_generator.py:60 | every string of pool characters is produced by some sequence of draws |
| PasswordGenerator.FormatIndex | TASK1_Password_Generator/src/password_generator.py:79 | no contract of its own: `f"{i:>2}"`; pinned down by FormatIndexWidth, FormatIndexStrips and FormatIndexReadsBack |
| PasswordGenerator.FormatLine | TASK1_Password_Generator/src/password_generator.py:79 | no contract of its own: `f"{i:>2}. {pwd}"`; its parts are recovered by ListingNumbered |
| PasswordGenerator.FormatIndexWidth | TASK1_Password_Generator/src/password_generator.py:79 | the printed index has length max(2, digits(i)), and starts with a space exactly when i < 10 |
| PasswordGenerator.FormatIndexStrips | TASK1_Password_Generator/src/password_generator.py:79 | stripping the printed index leaves the numeral of i |
| PasswordGenerator.FormatIndexReadsBack | TASK1_Password_Generator/src/password_generator.py:79 | the printed index, read back by the `ask_int` test, is i again |
| PasswordGenerator.ReadRequest | TASK1_Password_Generator/src/password_generator.py:68-71 | the length and count `main` reads are at least 4 and 1 |
| PasswordGenerator.NthPassword | TASK1_Password_Generator/src/password_generator.py:77-78 | the k-th password has exactly `length` characters, all from the pool |
| PasswordGenerator.IsListing | TASK1_Password_Generator/src/password_generator.py:77-79 | no contract of its own: `count` passwords and lines, line i numbered i + 1, password i the (i+1)-th call of `generate_password`; established by GenerateListing |
| PasswordGenerator.ListingNumbered | TASK1_Password_Generator/src/password_generator.py:77-79 | line i of the listing holds the index i + 1 (which reads back as i + 1), then ". ", then password i |
| PasswordGenerator.ListingExample | TASK1_Password_Generator/src/password_generator.py:77-79 | with length 4, count 2 and only lowercase letters, the lines are " 1. " and " 2. " followed by all-lowercase passwords |
| PasswordGenerator.GenerateListing | TASK1_Password_Generator/src/password_generator.py:77-79 | exactly `count` passwords and lines, numbered 1..`count` in order; each password has the length and pool asked for and uses the next `length` draws |
| PasswordGenerator.Run | TASK1_Password_Generator/src/password_generator.py:63-81 | `main` ends with InputEnded if the input runs out, and generates nothing (NoCharset) when the pool is empty; otherwise it prints the listing of the length, count and pool it read |

## Left out

- Printing: the banner, the prompts, the retry messages and the closing lines (lines 64-66, 76 and 81) are not modelled. `AskInt` keeps each retry message as an `IntRejection` tag; `AskYesNo` has only one retry message and does not record it.
- `secrets.choice`: it is the oracle `pick`. Uniformity and unpredictability are statistical properties and are not modelled.
- Non-ASCII text: `str.strip`, `str.lower` and `str.isdigit` are modelled on ASCII only. Other characters count as non-space, non-digit and unchanged by `lower()`. So the `ValueError` that `int()` raises on a Unicode digit such as '²' is not modelled.
- `AcceptInt`: does not model the limit on integer string conversion in recent CPython releases (4300 digits by default). With that limit, `int(raw)` at line 13 raises an uncaught `ValueError` on a longer digit string, and the program stops. The model reads digit strings of any length.
- `AcceptIntPadded`: promises acceptance of digit strings of any length, so it is weaker than those CPython releases on strings over the conversion limit, for the reason above.
- `AcceptIntNumeral`: promises acceptance for every n, so the same conversion limit applies to numerals over 4300 digits.
- `EOFError`: when `input()` has no more lines, the model returns `None` or `InputEnded` instead of raising.
- The `__main__` entry point (lines 84-85) and process exit.
- Extracted methods: `AskChoices` (lines 36-39), `AssemblePool` (lines 41-49) and `GenerateListing` (lines 77-79) are parts of `build_charset` and `main` taken out as methods of their own; the source has them inline.
- `ReadChoices`: its own contract only bounds the lines used; what the answers mean is stated through `BuildCharset` and the `ReadYesNo` contract.
