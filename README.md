# Timeout-minutes linter: a Dafny model

This project models the core of a GitHub Action that lints workflow files. The
action checks every `.yml` or `.yaml` file under `.github/workflows/`. It requires every job that
runs its own steps to declare a numeric `timeout-minutes`. A job that delegates
to a reusable workflow through `uses` is exempt.

The model has two parts:

- **The job validator** (`validate`). It walks a job mapping in entry order and
  reports at most one violation per job. The reason is either 'not defined' or
  'not a number'. When no job breaks the rule, it returns `null` rather than an
  empty list.
- **The reporting loop** (`run`), without file discovery and file reading.
  - Each file comes with the outcome of parsing it.
  - Every call into `@actions/core` becomes an event appended to a trace:
    `startGroup`, `info`, `error`, `endGroup`, `setOutput` and `setFailed`.
  - For each file, the loop derives a display name from the path, opens a log
    group, and handles the file as unparseable, without jobs, passing or with
    violations.
  - It appends one formatted message per violation to an accumulator.
  - At the end it publishes the messages and fails the run, unless there were
    none.

Files:

- `yaml_value.dfy` (module `YamlValue`): the decoded YAML value
  (`Null | Bool | Num | Str | Seq | Map`), where a mapping is its list of
  entries in iteration order. It also defines `undefined` as `Absent`,
  JavaScript truthiness, property access and `typeof … === 'object'`.
- `text.dfy` (module `Text`): the string built-ins the code uses. These are
  `String(n)`, `lastIndexOf`, one-argument `substring`, `join` and a `split`
  that serves as `join`'s inverse.
- `validator.dfy` (module `Validator`):
  - the rule on one job, `Check`;
  - the specification of all violations, `Violations`;
  - `Object.entries`, as `Entries`;
  - the `validate` loop, as the method `Validate`;
  - the lemmas about the result's shape.
- `reporter.dfy` (module `Reporter`):
  - the events and message texts;
  - the per-file classification;
  - the specification functions `FileStep`, `Process` and `Outcome`;
  - the methods `ReportFile`, `ReportViolations`, `Publish` and `Run`;
  - the lemmas about the trace and the accumulator.

Calls into code the model cannot see become parameters:

- A file's parse outcome is an `Option<Value>`. `None` means that reading or
  parsing failed.
- A YAML `null`, which an empty document also gives, takes the same
  "Unable to parse YAML." path as `None`.

Where descriptions of the linter and its code disagree, the model follows the
code:

- A passing file logs `Pass` with no period.
- One violation gives the summary "1 violations found.", because the plural is
  chosen by `length > 0`.
- A `jobs: null` passes the `typeof` check. `Object.entries(null)` then throws.
  The `catch` fails the run with the exception's message, the file's log group
  stays open, and no output is set, even when earlier files found violations.

## Model

| member | source | states |
|---|---|---|
| YamlValue.Lookup | src/index.ts:44-53 | a property read is `undefined` exactly when no entry has the key, and otherwise yields a value stored under that key |
| YamlValue.Truthy | src/index.ts:40-44 | a value is falsy exactly when it is null, `false`, 0 or the empty string; arrays and mappings are truthy |
| YamlValue.IsObject | src/index.ts:80 | `typeof … === 'object'` holds exactly of a present value that is not a boolean, a number or a string, so null passes it |
| YamlValue.GetField | src/index.ts:80 | reading `jobs`, `uses`, `name` or `timeout-minutes` on anything but a mapping gives `undefined` |
| Text.NatToString | src/index.ts:107 | `String(n)` is a non-empty string of decimal digits that starts with '0' only for zero |
| Text.ParseNatToString | src/index.ts:107 | reading the decimal text of `n` back gives `n` |
| Text.NatToStringInjective | src/index.ts:39 | distinct indices print differently, so the keys `Object.entries` gives an array are distinct |
| Text.LastIndexAtOrBefore | src/index.ts:70 | the search result is -1 or an occurrence at or before the start index, with no occurrence between it and that index |
| Text.LastIndexOf | src/index.ts:70 | `lastIndexOf` is -1 exactly when the marker does not occur, and otherwise an occurrence with no later one |
| Text.SubstringFrom | src/index.ts:70 | `substring(start)` keeps the whole string for a negative start and is the suffix from `start` otherwise |
| Text.Join | src/index.ts:106 | the join begins with the first part, and every character of it comes from a part or from the separator |
| Text.SplitJoin | src/index.ts:106 | when no message holds a newline, splitting the newline-joined output gives the messages back |
| Validator.Check | src/index.ts:40-55 | a job gets no reason iff it is falsy, has a truthy `uses` or has a number as `timeout-minutes`; 'not defined' iff it is non-exempt with the key absent; 'not a number' iff it is non-exempt with a non-number present (null included) |
| Validator.Violations | src/index.ts:36-59 | the list of all violations in entry order has at most one entry per job; ViolationsFollowEntries characterises it fully |
| Validator.Violation | src/index.ts:48-55 | an entry gives a result exactly when the rule flags it, and the result copies the entry's key and `name` and the rule's reason |
| Validator.Entries | src/index.ts:39 | `Object.entries` throws exactly on null, gives a mapping's entries in order, and keys an array's elements "0", "1", … |
| Validator.Validate | src/index.ts:36-59 | the loop returns `null` exactly when there is no violation, and otherwise the non-empty list of all violations in entry order |
| Validator.ViolationsFollowEntries | src/index.ts:39-56 | the results correspond one to one, in strictly increasing entry order, to the flagged entries, and every flagged entry has its result: a subsequence of the jobs |
| Validator.OnePerJob | src/index.ts:39-56 | with distinct job keys, no two results carry the same job id |
| Validator.ReportedIff | src/index.ts:40-55 | a job id appears among the results iff the rule flags that job, and then with the rule's reason and the job's `name` |
| Validator.ExemptNeverReported | src/index.ts:40-46 | a falsy job or one with a truthy `uses` never appears among the results, whatever its `timeout-minutes` |
| Validator.CleanIff | src/index.ts:58 | the null sentinel is returned exactly when the rule flags no job |
| Validator.EntriesDistinct | src/index.ts:39 | the entries iterated over have distinct keys for an array and for a mapping |
| Validator.NullTimeoutIsNotANumber | src/index.ts:48-55 | `timeout-minutes: null` is 'not a number', not 'not defined' |
| Validator.AnyNumberComplies | src/index.ts:53-55 | every number complies, zero and negative ones included: there is no range check |
| Reporter.DisplayNameSpec | src/index.ts:70 | with the marker present, the display name is the path's suffix that begins with the marker and holds no later occurrence of it; without it, the whole path |
| Reporter.DisplayName | src/index.ts:70 | the display name is never longer than the path; DisplayNameSpec characterises it |
| Reporter.Message | src/index.ts:94-97 | the message text for one violation; MessageParts and MessageRoundTrip state its shape and its reason |
| Reporter.MessageParts | src/index.ts:94-97 | a message is exactly `[<file> :: <job id>` followed by the fixed text of its reason, with nothing in between |
| Reporter.MessageRoundTrip | src/index.ts:94-97 | the reason can be read back from the message text |
| Reporter.Messages | src/index.ts:93-100 | one message per violation, in order, each formatted for its violation |
| Reporter.ErrorEvents | src/index.ts:98 | one `error` call per message, in order |
| Reporter.Classify | src/index.ts:73-91 | a file is unparseable iff its parse gave nothing or null; it has no jobs iff it is parsed, not null, and its `jobs` is not of type 'object'; it throws iff it is a mapping whose `jobs` is null; it reports violations only with a non-empty list |
| Reporter.ClassifyValidates | src/index.ts:80-91 | a file that passes or reports violations has an object-typed `jobs` whose entries `Object.entries` yields; it passes exactly when `validate` finds nothing in them, and otherwise reports exactly `validate`'s list |
| Reporter.Step | src/index.ts:71-102 | a classified file cuts the run short exactly when `Object.entries` throws, and accumulates the formatted messages of its violations and nothing in every other branch |
| Reporter.FileStep | src/index.ts:70-102 | a file cuts the run short exactly when it throws, and then accumulates nothing |
| Reporter.Process | src/index.ts:69-103 | the loop over the files, stopping at the first exception; ProcessAborts, ProcessShape and AbortIsFinal state what it produces |
| Reporter.FinalEvents | src/index.ts:105-108 | the calls after the loop are absent exactly when no message was accumulated, and are only `setOutput` and `setFailed` |
| Reporter.Outcome | src/index.ts:61-113 | the run keeps the loop's accumulator and abort; its trace extends the loop's trace, and after an exception it ends with the failure carrying the exception's message |
| Reporter.Summary | src/index.ts:107 | the failure summary text; SummaryPlural and SummaryOfOne state what it reads |
| Reporter.ReportFile | src/index.ts:70-102 | the loop body for one file produces exactly the events, messages and exception of the file's specification |
| Reporter.ReportViolations | src/index.ts:93-100 | the inner loop emits one error and accumulates one message per violation, in order |
| Reporter.Run | src/index.ts:61-113 | the whole run produces exactly the specified trace and accumulator |
| Reporter.AbortIsFinal | src/index.ts:109-112 | once a file throws, later files change neither trace nor accumulator |
| Reporter.FileStepShape | src/index.ts:71-102 | each file opens one group titled `File: <name>`; the group is closed on every path except an exception; the file's errors are exactly its messages; a file sets no output and no failure; its one informational line is the one of its classification (src/index.ts:75, 81, 88), and a file with violations logs none; its trace starts with that `startGroup` and, unless it throws, ends with `endGroup`, so all its lines sit inside its group |
| Reporter.StepBounds | src/index.ts:71-102 | a file's trace begins with `startGroup('File: <name>')` and, unless it throws, ends with `endGroup` |
| Reporter.StepShape | src/index.ts:71-102 | for every classification, a file opens one group, closes it unless `Object.entries` throws, logs exactly its messages as errors, sets no output and no failure, and logs exactly one informational line: 'Unable to parse YAML.', 'Property "jobs" does not exist.' or 'Pass', and none with violations or an exception; its trace starts with `startGroup` and, unless it throws, ends with `endGroup`, so all its lines sit inside its group |
| Reporter.FileStepMessages | src/index.ts:73-101 | a file cuts the run short iff its `jobs` is null; only the violation branch adds messages, one per violation, in order; whenever `Object.entries` of an object-typed `jobs` succeeds, the file's messages are the formatted violations of its own jobs |
| Reporter.ProcessAborts | src/index.ts:69-103 | the loop is cut short exactly when some file throws |
| Reporter.ProcessShape | src/index.ts:69-103 | groups never nest; without an exception they are all closed, one per file in order; the errors are exactly the accumulated messages; without an exception the informational lines are those of the files' classifications, in file order; the loop sets no output and no failure |
| Reporter.Publish | src/index.ts:105-108 | the calls after the loop are exactly the specified final events |
| Reporter.FinalEventsShape | src/index.ts:105-108 | the final calls are only `setOutput`/`setFailed`, log no informational line and lie outside any group |
| Reporter.FinalOutcome | src/index.ts:105-108 | `setOutput('message', join)` and `setFailed` happen exactly when the accumulator is non-empty, and the summary is "<N> violations found." |
| Reporter.RunReport | src/index.ts:61-113 | a run aborts iff some file throws; every accumulated message is emitted once as an error, in order; without an exception the groups balance, one per file, the informational lines are exactly those of the files' classifications, in order, and output and failure follow the accumulator; with one, the only final call is the failure with the exception's message |
| Reporter.RunAborted | src/index.ts:109-112 | after an exception, the `catch`'s `setFailed` is the only call added: no new error, no output |
| Reporter.RunCompleted | src/index.ts:104-108 | without an exception, the final calls open no group, add no error or informational line, keep the groups balanced and are the only output and failure calls |
| Reporter.AbortStops | src/index.ts:69-112 | at the first throwing file, the earlier files are fully reported, its group stays open, and the run fails with the exception's message and no output |
| Reporter.AccumulatorGrowth | src/index.ts:93-100 | the accumulator grows only for a file with violations, by exactly one message per violation, after the earlier messages |
| Reporter.OutputLines | src/index.ts:106 | when no message holds a newline, the `message` output lists the messages one per line |
| Reporter.SummaryPlural | src/index.ts:107 | every positive count takes the plural "violations" |
| Reporter.SummaryOfOne | src/index.ts:107 | one violation gives "1 violations found." |
| Reporter.ScenarioDelegating | src/index.ts:80-91 | a workflow whose only job delegates through `uses` is classified as passing |
| Reporter.ScenarioTimeoutless | src/index.ts:80-91 | a workflow whose only job has no `timeout-minutes` reports that one job as 'not defined' |
| Reporter.ScenarioClassify | src/index.ts:73-91 | a file whose only job delegates through `uses` passes, and a file whose only job has no timeout reports that job as 'not defined' |
| Reporter.ScenarioLoop | src/index.ts:69-103 | over these two files the loop is not cut short and accumulates the single 'not defined' message of the second file |
| Reporter.OneViolationScenario | src/index.ts:61-113 | a delegating file and a file with one timeout-less job give one 'does not exist' message and end with the failure "1 violations found." |

## Left out

- File discovery with `@actions/glob` (src/index.ts:63-65) is left out. It is filesystem access; the model takes the list of files as given, in discovery order.
- `parseYaml` (src/index.ts:27-34) is left out: reading the file, `yaml.parse`, and the `core.debug` of the parse error. These are I/O and a foreign library; their result is the `Option<Value>` each file comes with.
- Exceptions other than `Object.entries(null)` are left out. Examples are a failing glob and errors inside `@actions/core`. Only that one exception is modelled; its text is the message Node's V8 engine gives for it ("Cannot convert undefined or null to object").
- The model's `Entries` does not move integer-like keys of a mapping to the front, ascending. The model takes a mapping's entries as already in JavaScript's iteration order.
- Floating-point numbers are not modelled: fractions, NaN and the infinities. A `Num` holds an integer; the rule looks only at the `number` type, and truthiness treats 0 as falsy.
- Field reads inherited from JavaScript prototypes are not modelled, nor special keys such as `__proto__`. Every property the code reads on a scalar or an array is `undefined`.
- `validate` does not mutate its input. The model gets this from immutable values; there is no separate lemma.
- Idempotence of `validate` is not a separate lemma. Dafny functions are deterministic.
- The loop body of `run` (src/index.ts:70-102) and its inner loop (src/index.ts:93-100) are split out as the methods `ReportFile` and `ReportViolations`, and the calls after the loop (src/index.ts:105-108) as `Publish`. This keeps each proof within the verifier's budget; the order of calls is unchanged. An early `continue` in the source is a `return` from `ReportFile`. The exception is a `thrown` result, which makes `Run` stop and emit the `catch`'s failure.
- A message's job id cannot be read back from the message text, because a display name may itself contain " :: ". Only the reason is recovered.
