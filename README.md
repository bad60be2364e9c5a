# Queue driver dispatch model

A Dafny model of the job-dispatch core of the Adonis queue driver
(`src/queue/Driver.js`, class `Queue`). `dispatch(job, when = "now")` reads a
scheduling-intent string and makes exactly one of three calls on the
kue-scheduler backend:

- `now(kueJob)` when `when` is exactly `"now"` (also the default);
- `every(expr, kueJob)` when `when` contains `"every"` or `"*"`, where `expr`
  is `when.replace('every ', '')`;
- `schedule(when, kueJob)` for every other string, unchanged.

It then returns the job it was given. `remove(criteria)` and `clear()` forward
to the backend and turn its `(error, response)` callback into a promise that
rejects with the error when there is one and resolves with the response
otherwise.

Modules:

- `Wrappers` (`wrappers.dfy`): `Option`. For `dispatch`'s `when`, `None` is an
  omitted or `undefined` argument only. For a callback's error, `None` is
  `null` or `undefined`.
- `Strings` (`strings.dfy`): the JavaScript string operations the driver uses
  with a string pattern. `IndexOf` models `indexOf` and `Contains` models
  `includes`, with indices counted in characters. `ReplaceFirst` models
  `replace` for a replacement without `$`. Each is specified against
  `OccursAt`, the plain "pattern sits at index i" relation.
- `Scheduling` (`scheduling.dfy`): the `Intent` datatype, `Classify`,
  `StripEvery` and the lemmas about them.
- `Settlement` (`settlement.dfy`): the `(error, response)`-to-settlement
  mapping of `remove` and `clear`.
- `Driver` (`driver.dfy`): the class `Queue`. Its only state is `calls`, the
  log of backend calls. `Dispatch`, `Remove` and `Clear` each append exactly
  one entry.

`when.replace('every ', '')` removes the first `"every "` wherever it occurs,
not only a leading one: `"at noon every day"` becomes `"at noon day"`.
`StripEveryPrefix` covers the leading case. `StripEveryOnce` shows that a later
occurrence is kept.

## Model

| member | source | states |
|---|---|---|
| `Strings.IndexOf` | src/queue/Driver.js:60-61 | the result is the leftmost index at which the pattern occurs, or none when it occurs nowhere |
| `Strings.Contains` | src/queue/Driver.js:60 | `includes` holds exactly when the pattern occurs at some index |
| `Strings.ReplaceFirst` | src/queue/Driver.js:61 | `replace` with a string pattern and a replacement without `$` returns the string unchanged when the pattern is absent; otherwise it replaces only the leftmost occurrence, and the length changes by the replacement's length minus the pattern's |
| `Scheduling.EffectiveWhen` | src/queue/Driver.js:44 | an omitted `when` is `"now"`; a given one is used as it is |
| `Scheduling.StripEvery` | src/queue/Driver.js:61 | the expression is the intent unchanged when `"every "` is absent; otherwise the six characters of its first `"every "` are cut and nothing else (`StripEveryRemovesFirst`, `StripEveryOnce`) |
| `Scheduling.Classify` | src/queue/Driver.js:57-66 | immediate exactly for `"now"`; a recurring expression is the stripped intent; a delayed string is the intent unchanged; a string other than `"now"` holding `"*"` is recurring (both directions of each case in `ClassifyImmediate`, `ClassifyRecurring`, `ClassifyDelayed`) |
| `Scheduling.ClassifyImmediate` | src/queue/Driver.js:57-59 | the intent is immediate if and only if the string is exactly `"now"` |
| `Scheduling.DefaultIsImmediate` | src/queue/Driver.js:44 | omitting `when` gives an immediate dispatch |
| `Scheduling.ClassifyRecurring` | src/queue/Driver.js:60-63 | the intent is recurring if and only if the string is not `"now"` and `"every"` or `"*"` occurs in it; the expression is then the string with its first `"every "` removed |
| `Scheduling.ClassifyDelayed` | src/queue/Driver.js:64-66 | the intent is delayed if and only if the string is not `"now"` and contains neither `"every"` nor `"*"`; the delayed string is then the input unchanged |
| `Scheduling.StarNeverDelayed` | src/queue/Driver.js:57-66 | a string that contains `"*"` is never scheduled as delayed |
| `Scheduling.StripEveryAbsent` | src/queue/Driver.js:61 | without `"every "` in the intent, the recurring expression equals the intent |
| `Scheduling.StripEveryRemovesFirst` | src/queue/Driver.js:61 | with the first `"every "` at index i, exactly those six characters are removed and the length drops by exactly 6 |
| `Scheduling.StripEveryPrefix` | src/queue/Driver.js:61 | a leading `"every "` is removed as a prefix |
| `Scheduling.EveryDisjoint` | src/queue/Driver.js:61 | two occurrences of `"every "` never overlap |
| `Scheduling.StripEveryOnce` | src/queue/Driver.js:61 | at most one occurrence is removed: every other occurrence of `"every "` is still in the expression, six places earlier |
| `Scheduling.LeadingEveryIsRecurring` | src/queue/Driver.js:60-63 | an intent starting with `"every "` is recurring, and its expression is the rest of the string |
| `Scheduling.DoubleEveryKeepsOne` | src/queue/Driver.js:60-63 | `"every every " + rest` is recurring with expression `"every " + rest` (for example `"every every 5 minutes"` gives `"every 5 minutes"`): only one `"every "` is removed |
| `Scheduling.EveryFiveMinutes` | src/queue/Driver.js:60-63 | `"every 5 minutes"` is recurring with expression `"5 minutes"` |
| `Scheduling.CronUnchanged` | src/queue/Driver.js:60-63 | `"*/5 * * * *"` is recurring and passed on unchanged |
| `Scheduling.EverydayUnchanged` | src/queue/Driver.js:60-63 | `"everyday"` is recurring and passed on unchanged, because it holds `"every"` but not `"every "` |
| `Scheduling.NowStarIsRecurring` | src/queue/Driver.js:57-63 | `"now *"` is not exactly `"now"`, so it is recurring |
| `Scheduling.CapitalEveryIsDelayed` | src/queue/Driver.js:60-66 | matching is case-sensitive: `"Every 5 minutes"` is delayed |
| `Scheduling.TimestampIsDelayed` | src/queue/Driver.js:64-66 | an ISO timestamp is delayed and passed on unchanged |
| `Settlement.Settle` | src/queue/Driver.js:82-88 | the promise rejects if and only if the callback's error is present, and then with exactly that error; otherwise it resolves with exactly the callback's response |
| `Settlement.SettleDeterminesReply` | src/queue/Driver.js:83-87 | two callbacks that settle alike had the same error, and the same response when there was no error: nothing is swallowed |
| `Settlement.SettleOnto` | src/queue/Driver.js:102-108 | both ways of settling are reachable: any rejection comes from an error, any resolution from an error-free callback |
| `Driver.CallFor` | src/queue/Driver.js:57-67 | an intent maps to exactly one of `now`, `every` or `schedule`, matching its kind and carrying its string and the converted job |
| `Driver.DispatchCall` | src/queue/Driver.js:44-67 | in terms of the intent string: `now` iff it is `"now"` or omitted; `every` iff it is not `"now"` and contains `"every"` or `"*"`, with the first `"every "` removed; `schedule` with the string unchanged otherwise |
| `Driver.Queue.constructor` | src/queue/Driver.js:23 | a new driver starts with an empty backend log and the given job converter |
| `Driver.Queue.Dispatch` | src/queue/Driver.js:44-70 | appends exactly the one call that the classification of the effective `when` selects, for the converted job; earlier calls are unchanged; returns the original job |
| `Driver.Queue.Remove` | src/queue/Driver.js:78-92 | appends one backend `remove` call with the criteria and settles as `Settle` of the callback's arguments |
| `Driver.Queue.Clear` | src/queue/Driver.js:98-112 | appends one backend `clear` call and settles as `Settle` of the callback's arguments |

## Left out

- Constructor plumbing (src/queue/Driver.js:17-26): the IoC container lookup, the `kue.createQueue` connection and `setMaxListeners`. These are framework code and network I/O. The model's constructor only starts an empty call log.
- `listen` (src/queue/Driver.js:32-36): it delegates to `./JobRegister`, and that file is not part of this model. It also refers to an undefined variable `queue`.
- The JobMaker conversion (src/queue/Driver.js:47-54): `./JobMaker` is not part of this model. It is the total function `convert`, given to the constructor, and no conversion error is modelled.
- What kue-scheduler does with `now`, `every`, `schedule`, `remove` and `clear` (cron evaluation, date parsing, persistence, workers). These appear only as entries in the call log.
- The difference between `this._queue`, which the constructor sets, and `this.queue`, which the methods use. The model has one abstract backend.
- Non-string `when` values such as `null`, which throw at `includes`. `when` is a string or omitted.
- Strings.IndexOf: indices count Dafny characters (Unicode scalar values), not JavaScript's UTF-16 code units, so positions after an astral character differ; the driver only uses whether a match exists and where to cut, which this does not change.
- Strings.ReplaceFirst: the replacement is inserted literally, without JavaScript's `$&`, `$$`, `` $` `` and `$'` patterns, so the contract holds only for replacements without `$`; the driver's only replacement is the empty string.
- Promise asynchrony. `Queue.Remove` and `Queue.Clear` take the backend callback's arguments as parameters and return the settlement directly.
- Settlement.Settle: the callback's error is an `Option`. `None` covers `null` and `undefined`. Falsy non-null errors (`false`, `0`, `""`) would resolve in JavaScript, and they are not modelled.
