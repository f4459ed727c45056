# Multiplication Master — a verified model of its logic

Multiplication Master is a small single-page app that teaches the
multiplication tables. It has a Learn mode and a Practice mode. Learn mode
lists the tables 2 to 9. For a chosen table n it shows the ten equations
n × 1 … n × 10. Practice mode asks a random question a × b, with a in 2..9
and b in 1..10. The user types an answer, and every character that is not
a digit is dropped as it is typed. The user then presses Check, and the app
says "Correct!!" or shows the right product. After a check the input is
disabled and only a Next button is offered. Next draws a new question and
clears the answer and the verdict.

The model has five modules:

- `Wrappers` defines `Option`, which stands for React's `null | boolean` cell.
- `Answer` holds the keystroke filter and the meaning of `Number(answer)` on a
  digit string. That meaning is a natural number, or `NotFinite` once the
  value reaches 2^1024 − 2^970, where ECMAScript rounds to `Infinity`.
  It also holds `Decimal`, the decimal spelling of a number, which is the
  inverse of the parse.
- `Question` draws the operands. The value `Math.random()` would return is
  passed in as a real `r` with 0 <= r < 1.
- `Learn` holds the two enumerations of Learn mode.
- `PracticeScreen` holds the `Practice` class. Its fields are the four state
  cells `a`, `b`, `answer` and `checked`. Its methods are the three handlers.
  `Valid()` states the screen's invariant: a verdict on screen always belongs
  to the answer and the operands currently shown. This holds only because the
  input is disabled once `checked` is set, which is why `OnChange` requires
  `Offers(AnswerInput)`.

Each handler requires that the control it is wired to is on screen:
`onChange` needs the input to be enabled, `onCheck` needs the Check button and
`next` needs the Next button. These are the only ways the page can call them.

An empty answer does not leave the check pending: `Number("")` is 0, which
is finite, so pressing Check with an empty answer (or after typing only
letters, which the filter removes) marks it incorrect
(`EmptyAnswerIsIncorrect`).

## Model

| member | source | states |
|---|---|---|
| Answer.StripNonDigits | src/App.tsx:104 | the filtered answer holds only the characters 0-9 and is never longer than what was typed |
| Answer.StripKeepsDigits | src/App.tsx:104 | text made only of digits passes through the filter unchanged |
| Answer.StripFixedPoint | src/App.tsx:104 | the filter leaves a string unchanged exactly when the string is all digits |
| Answer.StripIdempotent | src/App.tsx:104 | applying the filter twice gives the same result as applying it once |
| Answer.StripAppend | src/App.tsx:104 | the filter works character by character: filtering s + t is filtering s, then t |
| Answer.NoDigitsStripToEmpty | src/App.tsx:104 | text with no digit is filtered to the empty answer |
| Answer.StripIgnoresJunk | src/App.tsx:104 | non-digits appended to the input do not change the filtered answer ("12x" becomes "12") |
| Answer.StripCounts | src/App.tsx:104 | each digit appears in the output exactly as often as in the input, and no other character appears |
| Answer.DigitsValue | src/App.tsx:86 | the number a digit string denotes is below 10 to the power of its length |
| Answer.LeadingZero | src/App.tsx:86 | a leading zero does not change the value ("007" is 7) |
| Answer.Decimal | src/App.tsx:86 | the decimal spelling of n is a non-empty digit string with no leading zero, except for "0" itself |
| Answer.DecimalRoundTrip | src/App.tsx:86 | reading the decimal spelling of n gives back n |
| Answer.DecimalOfValue | src/App.tsx:86 | a digit string without leading zeros is the decimal spelling of its own value (the other direction of the round trip) |
| Answer.ToNumber | src/App.tsx:86-87 | `Number(answer)` is finite exactly when the digit value is below 2^1024 − 2^970; it then carries the digit string's exact value, which `=== correct` compares faithfully because every product is at most 90 |
| Answer.EmptyIsZero | src/App.tsx:86 | `Number("")` is the finite number 0 |
| Answer.ShortIsFinite | src/App.tsx:86-87 | an answer of at most 308 digits is always finite, so the early return needs 309 or more digits |
| Question.DrawA | src/App.tsx:72 | `2 + Math.floor(r * 8)` lies in 2..9 and is a exactly when r lies in [(a−2)/8, (a−1)/8), eight intervals of equal length (the same draw is repeated at line 79) |
| Question.DrawB | src/App.tsx:73 | `1 + Math.floor(r * 10)` lies in 1..10 and is b exactly when r lies in [(b−1)/10, b/10), ten intervals of equal length (the same draw is repeated at line 80) |
| Question.DrawAOnto | src/App.tsx:72 | every table from 2 to 9 can be drawn by some r in [0,1) |
| Question.DrawBOnto | src/App.tsx:73 | every factor from 1 to 10 can be drawn by some r in [0,1) |
| Learn.TableList | src/App.tsx:36 | the table list is exactly [2, 3, 4, 5, 6, 7, 8, 9] |
| Learn.TableListOrderAndRange | src/App.tsx:36-47 | the list is strictly ascending and contains a table exactly when it lies in 2..9 |
| Learn.Rows | src/App.tsx:56-63 | table n has ten rows; the k-th has table n and factor k + 1, and every row's product is table × factor |
| Learn.RowsExactly | src/App.tsx:56-63 | the factors strictly ascend, and a row appears exactly when it is (n, i, n × i) with i in 1..10 |
| Learn.RowsProductsAscending | src/App.tsx:62-63 | for a positive table the products strictly ascend too |
| Learn.RowsOfFive | src/App.tsx:53-66 | table 5 shows exactly (5,1,5), (5,2,10), …, (5,10,50) in that order |
| PracticeScreen.Verdict | src/App.tsx:85-89 | the check gives no verdict exactly when the answer's value reaches the infinity bound; otherwise the verdict is true exactly when the value equals the product |
| PracticeScreen.VerdictOfDecimal | src/App.tsx:85-89 | an answer that spells v is judged correct exactly when v is the product |
| PracticeScreen.VerdictIgnoresJunk | src/App.tsx:104 | non-digits typed after an answer do not change the verdict |
| PracticeScreen.EmptyAnswerIsIncorrect | src/App.tsx:86-88 | checking an empty answer marks it incorrect for every question, because no product is 0 |
| PracticeScreen.QuestionIsInLearnTables | src/App.tsx:72-73 | every question that can be drawn is listed in Learn mode: its table is in the table list, and its equation is a row of that table |
| PracticeScreen.SixTimesSeven | src/App.tsx:72-104 | with r = 0.5 and r = 0.6 the question is 6 × 7; typing "4x2" gives "42", which is judged correct, and "40" is judged incorrect |
| PracticeScreen.OffersExclusive | src/App.tsx:91-113 | the answer input is enabled exactly when Check is shown, and exactly one of Check and Next is shown: Next once `checked` is set, Check while it is null |
| PracticeScreen.Practice.Correct | src/App.tsx:77 | the expected product of a valid screen lies in 2..90 |
| PracticeScreen.Practice.Message | src/App.tsx:107-108 | no message is shown before a check; "Correct!!" is shown exactly after a check whose answer equals the product; the incorrect message shows the product and appears only when the answer differs from it |
| PracticeScreen.Practice.constructor | src/App.tsx:72-75 | the screen starts with freshly drawn operands, an empty answer and no verdict, so the input and Check are offered and Next is not |
| PracticeScreen.Practice.OnChange | src/App.tsx:104-105 | while the input is enabled, the answer becomes the typed text without its non-digits; nothing else changes and the invariant holds |
| PracticeScreen.Practice.OnCheck | src/App.tsx:85-91 | if the answer is not finite, nothing changes; otherwise `checked` records whether the answer equals a × b, and only Next is then offered; `a`, `b` and `answer` never change |
| PracticeScreen.Practice.Next | src/App.tsx:78-83 | new operands are drawn, the answer is emptied and the verdict cleared, so the input and Check are offered again |

## Left out

- Rendering is not modelled: the JSX markup, CSS classes and the `PageShell` header (src/App.tsx:3-18) are presentation only. So is the static Home screen (src/App.tsx:20-33).
- Routing and history are not modelled: `BrowserRouter`/`Routes`, `Link` and the back button's `navigate(-1)` belong to the routing library.
- The table parameter of the Learn detail screen comes from `useParams` and `Number(table)`. The model takes it as an integer, so a missing, fractional or non-numeric parameter (giving NaN) is not covered.
- `Math.random()` is not modelled as a source of randomness. Each draw takes the value it would return.
- Question.DrawB: its intervals hold for a real r, with `r * 10` computed exactly. JavaScript rounds that product to a double, so at the double nearest a boundary such as 0.3, 0.6 or 0.7 it can draw the next factor up (4, 7 or 8 where the model gives 3, 6 or 7). The rounding never makes the factor exceed 10. `DrawA` is unaffected because `r * 8` is exact in doubles.
- Answer.ToNumber: the value it carries is the exact value of the digit string, not the double JavaScript rounds it to (`Number("9007199254740993")` is 9007199254740992). The only use of that value is `val === correct`. No product exceeds 90, and every integer up to 2^53 is exact as a double, so the rounded value equals the product exactly when the exact value does.
- `Number()` is modelled only on digit strings, the only strings the answer can hold. Whitespace, signs, decimals, exponents and hexadecimal input are not covered. ECMAScript lets an engine round a value of more than 20 significant digits slightly differently, which could move the exact infinity bound for answers of about 309 digits.
- The remote image on the Learn detail screen (src/App.tsx:60) is not modelled.
