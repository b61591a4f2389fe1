# epoch: the timestamp reformatter, modelled in Dafny

`epoch` reads text line by line and replaces every run of ASCII digits that
looks like a Unix timestamp by an RFC 3339 date. The `Reformatter` does the
work. At start-up it is calibrated around the current time, with a threshold
in years. That gives a window of plausible seconds, the same window in
milliseconds and in nanoseconds, and a minimum run length (`min_len`): the
printed length of the window's lower second bound. `write` then makes one
forward pass over a line. It copies the text between digit runs. It passes a
run through unless the run is at least `min_len` long, parses as `i64`, and
falls in one of the windows; windows are tried seconds first, then
milliseconds, then nanoseconds. A run that passes all three tests is written
as the timestamp, rendered with a strftime pattern chosen by its resolution.
The timestamp is in UTC or in the local zone, and is optionally put between
double quotes.

The model has five modules:

- `Decimal` (`decimal.dfy`) covers the decimal text of integers: what
  `format!("{n}")` prints and what `str::parse::<i64>` makes of a digit run.
  It also has the `i64`/`i32` ranges.
- `Scanner` (`scanner.dfy`) covers the two `find` searches of the loop (the
  function `Seek` and the loop `Find`). It also defines `Substitute`, the
  reference definition of one pass: every maximal digit run goes through a
  given function and every other character is copied. Its structural lemmas
  are stated for any such function.
- `Epoch` (`reformatter.dfy`) has the reformatter as an immutable datatype
  (`write` takes `&self`). It contains the calibration `New`, the
  classification, the pattern table `RfcFormat`, and `Write`, the
  imperative loop. `Write` returns what the source writes to its writer and
  is proved equal to `Rewrite`, the reference rewrite.
- `EpochProperties` (`properties.dfy`) holds what the reformatter promises:
  - classification is first-match-wins;
  - classification never overflows;
  - the length pre-filter is sound when the lower bound is not negative;
  - runs are passed through as the source says;
  - rewriting depends only on maximal runs;
  - a line can be split at any non-digit;
  - the output is the input when nothing is replaced.
- `EpochExamples` (`examples.dfy`) restates three of the integration tests
  for a fixed current time.

Three things are parameters of the model:

- The current time is `now`: whole seconds since the epoch, an `Int64`.
- chrono's rendering is `render: (int, bool, string) -> string`. It takes
  nanoseconds since the epoch, the localize flag, and the strftime pattern.
- The host's time zone is folded into `render`.

## Model

Definitions without a contract of their own (`Decimal.ParseInt64`,
`Epoch.Reformatter.ClassifyValue`, `Classify`, `Emit`, `Stamp`, `Rewrite`
and `Scanner.Substitute`) are stated by the lemmas whose rows name them.


| member | source | states |
|---|---|---|
| Decimal.NatToDecimal | src/main.rs:56 | The printed form of a natural number is a non-empty digit string without leading zeros. Its value is the number, and its length k satisfies 10^(k-1) <= n < 10^k. |
| Decimal.ToDecimal | src/main.rs:56 | The printed form of an `i64` starts with '-' exactly when the value is negative. The rest is the canonical decimal text of its magnitude: its digits, without leading zeros, of the right value. |
| Decimal.DecimalLength | src/main.rs:56 | A number between 10^(k-1) and 10^k is printed with k digits, which is how `min_len` comes out. |
| Decimal.DigitsValue | src/main.rs:86 | The value of k digits is below 10^k. |
| Decimal.ParseOfDecimal | src/main.rs:86 | Of `Decimal.ParseInt64` (`str::parse::<i64>`): parsing the printed form of n gives n back when n fits `i64`, and fails otherwise. |
| Decimal.DigitsAppend | src/main.rs:86 | The value `parse` gives a concatenation of digit strings: the first part shifted by the second's length, plus the second. |
| Decimal.ParseIgnoresLeadingZeros | src/main.rs:86 | Of `Decimal.ParseInt64`: leading zeros do not change what a digit run parses to. |
| Scanner.Seek | src/main.rs:72-81 | The first position from `from` whose character is a digit (or a non-digit), or the end of the line. Everything skipped is of the other kind. |
| Scanner.Find | src/main.rs:72-81 | The iterator search, as a loop, finds exactly the position `Seek` specifies. |
| Scanner.FindsMaximalRun | src/main.rs:69-81 | Started after a non-digit, one pass skips only non-digits. It finds a maximal digit run followed by a non-digit, unless the line ends. |
| Scanner.SubstituteOnlyAtRuns | src/main.rs:68-116 | Of `Scanner.Substitute`, the reference pass: two substitutions that agree on every maximal digit run of a line give the same output. |
| Scanner.SubstituteIdentity | src/main.rs:68-116 | Of `Scanner.Substitute`: when every maximal run maps to itself, the line comes out unchanged. |
| Scanner.SubstituteSplit | src/main.rs:68-116 | Of `Scanner.Substitute`: a line split at a non-digit substitutes piece by piece. |
| Scanner.SubstituteStep | src/main.rs:72-114 | From a pass's start, the rest of the output is: the text before the run, what the run becomes, the one character after it, then the output from the next pass. |
| Epoch.Reformatter.New | src/main.rs:45-63 | Both scaled windows are the second window times 1000 and times 10^9. No bound overflows. `minLen` is the printed length of the lower bound. The second window is exactly `now - abs(t)·365·86400 .. now + abs(t)·365·86400`. Both flags are kept. |
| Epoch.Reformatter.RfcFormat | src/main.rs:120-129 | Every pattern starts with the date-time pattern and ends in `Z`. The `Z` is a local zone name `%Z` exactly when localized. The fraction is empty for seconds and `%.3f` or `%.9f` for millis or nanos. |
| Epoch.Reformatter.PassPieces | src/main.rs:72-116 | A pass's output is the text before the run, then `Emit` of the run, then the character after it. The run holds only digits. |
| Epoch.Reformatter.Write | src/main.rs:65-118 | The loop writes exactly `Rewrite` of the line, the reference pass `Substitute` with `Emit` at each maximal run and everything else copied. |
| EpochProperties.ClassifyValueFirstMatch | src/main.rs:86-96 | Of `Epoch.Reformatter.ClassifyValue` (the `and_then` closure): a classified value lies in its resolution's window and in no earlier one. Its instant is the value times the unit's nanoseconds. An unclassified value lies in no window. |
| EpochProperties.ClassifyParses | src/main.rs:85-96 | Of `Epoch.Reformatter.Classify` (parse, then the closure): a run classifies only when it is non-empty and at most `i64::MAX`, and then as its value does. |
| EpochProperties.ClassifiedTimeFits | src/main.rs:88-92 | For a calibrated reformatter, the products `n * 10^9` and `n * 10^6` of a classified value fit `i64`. |
| EpochProperties.WindowsDisjoint | src/main.rs:51-53 | When the window is positive and spans at most a factor of 1000, the three windows do not overlap, so the order of the tests decides nothing. |
| EpochProperties.MinLenCountsSign | src/main.rs:56 | `minLen` counts the '-' of a negative lower bound as well as its digits. |
| EpochProperties.ShortRunNeverClassifies | src/main.rs:83-84 | With a non-negative lower bound, a run shorter than `minLen` lies in no window, so the pre-filter only saves work. |
| EpochProperties.SecondsWindowAroundNow | src/main.rs:47-50 | A second x is in the calibrated window exactly when -abs(t)·365·86400 <= x - now < abs(t)·365·86400. |
| EpochProperties.PrefilterSkipsWhenLowerNegative | src/main.rs:83-84 | With t = 1 at `now` = 0, the lower bound is negative and `minLen` is 9 (the sign counts), so "5" classifies as seconds, yet the run is written unchanged. |
| EpochProperties.PassThrough | src/main.rs:84-115 | Of `Epoch.Reformatter.Emit`: a run shorter than `minLen`, above `i64::MAX`, or in no window is written as it is. |
| EpochProperties.Replaced | src/main.rs:84-109 | Of `Epoch.Reformatter.Emit` and `Stamp`: a run at least `minLen` long, within `i64`, lying in the window of resolution f and in no window tried before it, becomes the instant (value times f's unit) rendered with f's pattern, in double quotes exactly when `quote` is set. |
| EpochProperties.NoReplacementIsIdentity | src/main.rs:68-116 | Coverage: when no maximal run is replaced, the output is the input, each character once and in order. |
| EpochProperties.ThresholdSignIgnored | src/main.rs:47 | Thresholds t and -t build the same reformatter. |
| EpochProperties.ZeroThresholdIsIdentity | src/main.rs:47-53 | With threshold 0 every window is empty and no line changes. |
| EpochProperties.EmptyWindowsIsIdentity | src/main.rs:86-96 | A reformatter whose three windows are all empty replaces no run, so every line comes out unchanged. |
| EpochProperties.RewriteOnlyAtRuns | src/main.rs:68-116 | Two reformatters or renderings that treat every maximal run alike rewrite the line alike. |
| EpochProperties.RewriteRun | src/main.rs:72-115 | Of `Epoch.Reformatter.Rewrite`: a line that is one digit run becomes what `Emit` makes of it. |
| EpochProperties.RewriteNoDigits | src/main.rs:72-74 | Of `Epoch.Reformatter.Rewrite`: a line without digits is written as it is. |
| EpochProperties.RewriteSplitsAtNonDigit | src/main.rs:68-116 | Rewriting the two pieces of a line split at a non-digit gives the rewrite of the whole. The pass keeps no state from one run to the next. |
| EpochExamples.Calibration | src/main.rs:45-56 | At now = 1_709_000_000 with the default threshold 8, the second window is 1_456_712_000 .. 1_961_288_000 and `minLen` is 10. |
| EpochExamples.StartLine | tests/integration_tests.rs:15 | The input line of the test case "start" is the sequence of pieces `StartCase` rewrites. |
| EpochExamples.StartTail | tests/integration_tests.rs:15-16 | In the test case "start", the text "test 3 b 12768987 c" is kept, its runs being shorter than ten digits. |
| EpochExamples.StartCase | tests/integration_tests.rs:14-17 | Test case "start": "1709152989456" is milliseconds, rendered as the instant 1709152989456·10^6 ns with `%Y-%m-%dT%H:%M:%S%.3fZ`; the rest of the line is kept. |
| EpochExamples.UnicodeLine | tests/integration_tests.rs:23 | The input line of the test case "unicode" is the sequence of pieces `UnicodeCase` rewrites. |
| EpochExamples.UnicodeHead | tests/integration_tests.rs:22-25 | In the test case "unicode", "Deserializationµs=547.261 " is kept whatever run follows it. |
| EpochExamples.UnicodeCase | tests/integration_tests.rs:22-25 | Test case "unicode": "1709152989" is seconds, rendered with `%Y-%m-%dT%H:%M:%SZ`; the text before it, with its non-ASCII character, is kept. |
| EpochExamples.LocalizeCase | tests/integration_tests.rs:36-44 | Test "localize": "1712070452000000000" is nanoseconds, rendered in the local zone with `%Y-%m-%dT%H:%M:%S%.9f%Z`, a pattern that ends with the zone's name rather than a literal `Z`. |

## Left out

- `main` and `Args` are not modelled: argument parsing, files, stdin and
  stdout, the newline or space written after each line, and flushing.
- The clock is a parameter: `Utc::now()` becomes `now`, in whole seconds.
  chrono's `timestamp()` floors the sub-second part away, and the day count
  is a whole number of seconds, so only the whole seconds matter.
- chrono's formatting (`timestamp_nanos`, `DateTime::<Local>::from`,
  `format`) and the host time zone are the abstract `render`. The model
  fixes which instant and which pattern are rendered, not the text of the
  date.
- Errors from the writer (`anyhow::Result`, the `?` after each `write!`) are
  not modelled. `Write` returns the whole output.
- Epoch.Reformatter.New: requires `Calibratable`. Both window ends in
  nanoseconds must fit `i64`, which also excludes `i32::MIN`. The model
  does not cover what the source does outside this domain. For a very large
  threshold, `Duration::days` (src/main.rs:47) or `now ± dt` (lines 49-50)
  panics in every build. `i32::MIN.abs()` panics in a debug build; in a
  release build it wraps, and `Duration::days` then panics on the
  out-of-range day count. Only the `× 1_000` and `× 10^9` products (lines
  52-53) are a plain overflow: a panic in a debug build, a wrap-around in a
  release build.
- Epoch.Reformatter.Write: requires `AsciiAfterRuns`. The source slices one
  byte after a digit run (src/main.rs:80, 114), which is valid only when
  that character is one byte long in UTF-8. The model works on characters,
  not UTF-8 bytes; under this condition the two positions agree.
- Decimal.ParseInt64: handles only the digit runs the loop passes it. The
  leading `+` that `str::parse::<i64>` also accepts never reaches it.
- chrono's `SecondsFormat` has further cases (`Micros`, `AutoSi`) that the source
  never produces; the model has only `Secs`, `Millis` and `Nanos`.
- The integration tests are restated in `EpochExamples` for a fixed
  "now", with the line written as its pieces around the non-digits it is
  split at (`StartLine` and `UnicodeLine` state that the pieces make up the
  test's line). Each lemma fixes which instant is rendered, with which pattern,
  and that all other text is kept; the date text itself is chrono's and
  stays abstract. The test case "end" (tests/integration_tests.rs:18-21),
  a nanosecond value after six short runs, is not restated; "start" and
  "localize" state the same two steps.
- Whether the '-' of a negative lower bound counts toward `min_len` is
  decided by the code: it does, since `format!` prints it.
  `MinLenCountsSign` states this, and `PrefilterSkipsWhenLowerNegative`
  shows its consequence.
