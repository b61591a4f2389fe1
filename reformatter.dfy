/** The reformatter: calibration of the three epoch windows around "now",
  * classification of a digit run as seconds, milliseconds or nanoseconds,
  * the strftime pattern table, and the single forward pass over a line. */
module Epoch {
  import opened Decimal
  import opened Scanner

  const SECS_PER_DAY: int := 86_400
  const DAYS_PER_YEAR: int := 365
  const MILLIS_PER_SEC: int := 1_000
  const NANOS_PER_MILLI: int := 1_000_000
  const NANOS_PER_SEC: int := 1_000_000_000

  /** The strftime prefix common to every pattern. */
  const DATE_TIME: string := "%Y-%m-%dT%H:%M:%S"

  /** A half-open window `start..end`, like Rust's `Range<i64>`. */
  datatype Range = Range(start: int, end: int) {
    predicate Contains(n: int) { start <= n < end }

    function Scale(k: int): Range { Range(start * k, end * k) }
  }

  /** chrono's `SecondsFormat`, restricted to the three cases used. */
  datatype SecondsFormat = Secs | Millis | Nanos

  /** A classified run: nanoseconds since the epoch and the resolution it was
    * detected at. */
  datatype Instant = Instant(timeNs: int, format: SecondsFormat)

  /** chrono's rendering of an instant (nanoseconds since the epoch), in UTC
    * or converted to the host's local offset (the flag), with a pattern. */
  type Render = (int, bool, string) -> string

  /** Position of a resolution in the order the windows are tried. */
  function Rank(f: SecondsFormat): nat {
    match f
    case Secs => 0
    case Millis => 1
    case Nanos => 2
  }

  /** Nanoseconds in one unit of the resolution. */
  function UnitNanos(f: SecondsFormat): nat {
    match f
    case Secs => NANOS_PER_SEC
    case Millis => NANOS_PER_MILLI
    case Nanos => 1
  }

  /** Digits of the fractional second a pattern prints. */
  function Precision(f: SecondsFormat): nat {
    match f
    case Secs => 0
    case Millis => 3
    case Nanos => 9
  }

  /** A year is taken as 365 days; the sign of the threshold is ignored. */
  function ThresholdSecs(years: int): nat {
    Abs(years) * DAYS_PER_YEAR * SECS_PER_DAY
  }

  /** The calibration does not overflow: both ends of the window, in
    * nanoseconds, fit an `i64`. This also rules out `i32::MIN`, whose
    * `abs` overflows. */
  predicate Calibratable(threshold: Int32, now: Int64) {
    && InInt64((now - ThresholdSecs(threshold)) * NANOS_PER_SEC)
    && InInt64((now + ThresholdSecs(threshold)) * NANOS_PER_SEC)
  }

  /** The calibrated reformatter. `write` only reads it, so it is a value. */
  datatype Reformatter = Reformatter(
    minLen: nat,
    boundS: Range,
    boundMs: Range,
    boundNs: Range,
    localize: bool,
    quote: bool)
  {
    /** What every reformatter built by `New` satisfies: the milli and nano
      * windows are the second window scaled, no bound overflows, and
      * `minLen` is the length of the printed lower second bound. */
    predicate Valid() {
      && boundS.start <= boundS.end
      && boundMs == boundS.Scale(MILLIS_PER_SEC)
      && boundNs == boundS.Scale(NANOS_PER_SEC)
      && InInt64(boundNs.start) && InInt64(boundNs.end)
      && minLen == |ToDecimal(boundS.start)|
    }

    /** Calibration, with "now" (whole seconds since the epoch) passed in. */
    static function New(threshold: Int32, now: Int64, localize: bool, quote: bool): (r: Reformatter)
      requires Calibratable(threshold, now)
      ensures r.Valid()
      ensures r.boundS == Range(now - ThresholdSecs(threshold), now + ThresholdSecs(threshold))
      ensures r.localize == localize && r.quote == quote
    {
      var dt := ThresholdSecs(threshold);
      var upper := now + dt;
      var lower := now - dt;
      Reformatter(
        |ToDecimal(lower)|,
        Range(lower, upper),
        Range(lower, upper).Scale(MILLIS_PER_SEC),
        Range(lower, upper).Scale(NANOS_PER_SEC),
        localize,
        quote)
    }

    /** The window that decides a resolution. */
    function Window(f: SecondsFormat): Range {
      match f
      case Secs => boundS
      case Millis => boundMs
      case Nanos => boundNs
    }

    /** Try the windows in the order seconds, millis, nanos; the first that
      * contains the value decides its resolution. */
    function ClassifyValue(n: int): (c: Option<Instant>) {
      if boundS.Contains(n) then Some(Instant(n * NANOS_PER_SEC, Secs))
      else if boundMs.Contains(n) then Some(Instant(n * NANOS_PER_MILLI, Millis))
      else if boundNs.Contains(n) then Some(Instant(n, Nanos))
      else None
    }

    /** Parse a digit run as `i64`, then classify its value. */
    function Classify(run: string): (c: Option<Instant>)
      requires AllDigits(run)
    {
      match ParseInt64(run)
      case None => None
      case Some(n) => ClassifyValue(n)
    }

    /** The strftime pattern for a resolution: the date and time, the
      * fractional second at the resolution's precision, then a literal `Z`
      * (UTC) or the local zone's name `%Z`. */
    static function RfcFormat(localize: bool, f: SecondsFormat): (p: string)
      ensures |DATE_TIME| < |p| && p[..|DATE_TIME|] == DATE_TIME
      ensures p[|p| - 1] == 'Z'
      ensures localize <==> p[|p| - 2] == '%'
      ensures var fraction := p[|DATE_TIME|..|p| - (if localize then 2 else 1)];
        if Precision(f) == 0 then fraction == ""
        else fraction == "%." + [DigitChar(Precision(f))] + "f"
    {
      match (localize, f)
      case (true, Secs) => "%Y-%m-%dT%H:%M:%S%Z"
      case (false, Secs) => "%Y-%m-%dT%H:%M:%SZ"
      case (true, Millis) => "%Y-%m-%dT%H:%M:%S%.3f%Z"
      case (false, Millis) => "%Y-%m-%dT%H:%M:%S%.3fZ"
      case (true, _) => "%Y-%m-%dT%H:%M:%S%.9f%Z"
      case (false, _) => "%Y-%m-%dT%H:%M:%S%.9fZ"
    }

    /** A rendered timestamp, wrapped in double quotes when `quote` is set. */
    function Stamp(time: string): string {
      if quote then "\"" + time + "\"" else time
    }

    /** What a maximal digit run becomes: its rendered timestamp when it is
      * at least `minLen` long and classifies, else the run itself. */
    function Emit(run: string, render: Render): string
      requires AllDigits(run)
    {
      if |run| >= minLen && Classify(run).Some? then
        var i := Classify(run).value;
        Stamp(render(i.timeNs, localize, RfcFormat(localize, i.format)))
      else run
    }

    /** `Emit` as a total function on strings (only digit runs are ever
      * passed to it). */
    function EmitFn(render: Render): string -> string {
      run => if AllDigits(run) then Emit(run, render) else run
    }

    /** The rewrite of a line: every maximal digit run goes through `Emit`,
      * every other character is copied. */
    function Rewrite(line: string, render: Render): string {
      Substitute(line, 0, EmitFn(render))
    }

    /** One line through the reformatter; `out` is what the source writes to
      * its writer. Each pass of the loop writes the text before the next
      * digit run, then the timestamp or the run itself, then the one
      * character after the run. */
    method Write(line: string, render: Render) returns (out: string)
      requires AsciiAfterRuns(line)
      ensures out == Rewrite(line, render)
    {
      out := [];
      var textStart := 0;
      while textStart < |line|
        invariant textStart <= |line|
        invariant out + Substitute(line, textStart, EmitFn(render)) == Rewrite(line, render)
        decreases |line| - textStart
      {
        var numberStart := Find(line, textStart, true);
        if numberStart == |line| {
          SubstituteText(line, textStart, |line|, EmitFn(render));
          out := out + line[textStart..];
          break;
        }
        var numberEnd := Find(line, numberStart + 1, false);
        var next := if numberEnd < |line| then numberEnd + 1 else |line|;
        var textBefore := line[textStart..numberStart];
        var textAfter := line[numberEnd..next];
        var number := line[numberStart..numberEnd];
        PassPieces(line, render, textStart, numberStart, numberEnd, next);
        ghost var done := out;
        ghost var rest := Substitute(line, next, EmitFn(render));
        if numberEnd - numberStart >= minLen {
          var parsed := Classify(number);
          if parsed.Some? {
            var time := render(parsed.value.timeNs, localize, RfcFormat(localize, parsed.value.format));
            assert Emit(number, render) == Stamp(time);
            out := out + (textBefore + Stamp(time) + textAfter);
            AppendAssoc(done, textBefore + Stamp(time) + textAfter, rest);
            textStart := next;
            continue;
          }
        }
        assert Emit(number, render) == number;
        var text := line[textStart..next];
        SliceSplit3(line, textStart, numberStart, numberEnd, next);
        out := out + text;
        AppendAssoc(done, text, rest);
        textStart := next;
      }
    }

    /** From `pos`, the rewrite is the text before the next digit run, what
      * the run becomes, the one character after it, then the rewrite from
      * there on. */
    lemma PassPieces(line: string, render: Render, pos: nat, start: nat, end: nat, next: nat)
      requires pos <= start < end <= |line|
      requires start == Seek(line, pos, true) && end == Seek(line, start + 1, false)
      requires next == if end < |line| then end + 1 else |line|
      ensures AllDigits(line[start..end])
      ensures Substitute(line, pos, EmitFn(render))
        == line[pos..start] + Emit(line[start..end], render) + line[end..next] + Substitute(line, next, EmitFn(render))
    {
      var emit := EmitFn(render);
      var run := line[start..end];
      SubstituteStep(line, pos, start, end, next, emit);
      assert Seek(line, start, false) == end;
      SeekDigits(line, start);
      assert emit(run) == Emit(run, render);
      AppendAssoc(line[pos..start], emit(run), line[end..next] + Substitute(line, next, emit));
      AppendAssoc(line[pos..start] + emit(run), line[end..next], Substitute(line, next, emit));
    }
  }
}
