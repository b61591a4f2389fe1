/** Digit runs in a line of text: the two `Iterator::find` calls with which
  * the reformatter's write loop moves over the line's characters, and the
  * substitution of every maximal digit run by some text. */
module Scanner {
  import opened Decimal

  /** The first position at or after `from` whose character is a digit
    * (`digit`) or a non-digit (`!digit`); `|line|` when there is none. */
  function Seek(line: string, from: nat, digit: bool): (k: nat)
    requires from <= |line|
    ensures from <= k <= |line|
    ensures forall i :: from <= i < k ==> IsDigit(line[i]) != digit
    ensures k < |line| ==> IsDigit(line[k]) == digit
    decreases |line| - from
  {
    if from == |line| || IsDigit(line[from]) == digit then from else Seek(line, from + 1, digit)
  }

  /** `find` on the character iterator, started at position `from`. */
  method Find(line: string, from: nat, digit: bool) returns (k: nat)
    requires from <= |line|
    ensures k == Seek(line, from, digit)
  {
    k := from;
    while k < |line| && IsDigit(line[k]) != digit
      invariant from <= k <= |line|
      invariant Seek(line, k, digit) == Seek(line, from, digit)
      decreases |line| - k
    {
      k := k + 1;
    }
  }

  /** What `Seek` skips over, looking for a non-digit, is all digits. */
  lemma SeekDigits(line: string, from: nat)
    requires from <= |line|
    ensures AllDigits(line[from..Seek(line, from, false)])
  {

  }

  /** `line[i..j]` is a maximal run of digits: it is not empty, holds only
    * digits, and no digit touches it on either side. */
  predicate IsMaximalRun(line: string, i: nat, j: nat) {
    && i < j <= |line|
    && (forall k :: i <= k < j ==> IsDigit(line[k]))
    && (i == 0 || !IsDigit(line[i - 1]))
    && (j == |line| || !IsDigit(line[j]))
  }

  /** The character right after every digit run is ASCII. The source slices
    * exactly one byte after a run, which falls on a character boundary, and
    * does not panic, only when that character is one byte long in UTF-8;
    * under this condition byte and character positions agree. */
  predicate AsciiAfterRuns(line: string) {
    forall i :: 0 < i < |line| && IsDigit(line[i - 1]) && !IsDigit(line[i]) ==> line[i] as int < 128
  }

  /** `line[pos..]` with every digit run (from a digit up to the next
    * non-digit) replaced by `emit` of it, and every other character copied. */
  function Substitute(line: string, pos: nat, emit: string -> string): string
    requires pos <= |line|
    decreases |line| - pos
  {
    if pos == |line| then []
    else if !IsDigit(line[pos]) then [line[pos]] + Substitute(line, pos + 1, emit)
    else
      var end := Seek(line, pos, false);
      emit(line[pos..end]) + Substitute(line, end, emit)
  }

  /** Facts about slices and concatenation, proved apart from any larger
    * context. */
  lemma SliceCons(s: string, i: nat, j: nat)
    requires i < j <= |s|
    ensures s[i..j] == [s[i]] + s[i + 1..j]
  {
  }

  lemma SliceSplit(s: string, i: nat, j: nat, k: nat)
    requires i <= j <= k <= |s|
    ensures s[i..k] == s[i..j] + s[j..k]
  {
  }

  lemma SliceSplit3(s: string, i: nat, j: nat, k: nat, l: nat)
    requires i <= j <= k <= l <= |s|
    ensures s[i..l] == s[i..j] + s[j..k] + s[k..l]
  {
  }

  lemma SliceShift(p: string, b: string, i: nat, j: nat)
    requires i <= j <= |b|
    ensures (p + b)[|p| + i..|p| + j] == b[i..j]
  {
  }

  lemma SlicePrefix(a: string, b: string, i: nat, j: nat)
    requires i <= j <= |a|
    ensures (a + b)[i..j] == a[i..j]
  {
  }

  lemma AppendAssoc(a: string, b: string, c: string)
    ensures (a + b) + c == a + (b + c)
  {
  }

  /** Started right after a non-digit (or at the start of the line), the
    * two searches of one pass skip only non-digits and find a maximal digit
    * run (which a non-digit follows unless the line ends). */
  lemma FindsMaximalRun(line: string, pos: nat, start: nat, end: nat)
    requires pos <= |line| && (pos == 0 || !IsDigit(line[pos - 1]))
    requires start == Seek(line, pos, true) && start < |line|
    requires end == Seek(line, start + 1, false)
    ensures forall i :: pos <= i < start ==> !IsDigit(line[i])
    ensures IsMaximalRun(line, start, end)
  {

  }

  /** Non-digits are copied one by one. */
  lemma {:induction false} SubstituteText(line: string, pos: nat, stop: nat, emit: string -> string)
    requires pos <= stop <= |line|
    requires forall i :: pos <= i < stop ==> !IsDigit(line[i])
    ensures Substitute(line, pos, emit) == line[pos..stop] + Substitute(line, stop, emit)
    decreases stop - pos
  {
    if pos < stop {
      SubstituteText(line, pos + 1, stop, emit);
      SliceCons(line, pos, stop);
      AppendAssoc([line[pos]], line[pos + 1..stop], Substitute(line, stop, emit));
    }
  }

  /** From `pos`: the text before the next digit run, the run, and the one
    * character after it (none at the end of the line). */
  lemma SubstituteStep(line: string, pos: nat, start: nat, end: nat, next: nat, emit: string -> string)
    requires pos <= start < end <= |line|
    requires start == Seek(line, pos, true) && end == Seek(line, start + 1, false)
    requires next == if end < |line| then end + 1 else |line|
    ensures Substitute(line, pos, emit)
      == line[pos..start] + (emit(line[start..end]) + (line[end..next] + Substitute(line, next, emit)))
  {
    SubstituteText(line, pos, start, emit);
    assert Seek(line, start, false) == end;
    if end < |line| {
      SliceCons(line, end, next);
      assert line[end..next] == [line[end]];
    } else {
      assert line[end..next] == [];
    }
  }

  lemma {:induction false} IdentityFrom(line: string, pos: nat, emit: string -> string)
    requires pos <= |line|
    requires pos < |line| && IsDigit(line[pos]) && 0 < pos ==> !IsDigit(line[pos - 1])
    requires forall i: nat, j: nat :: IsMaximalRun(line, i, j) ==> emit(line[i..j]) == line[i..j]
    ensures Substitute(line, pos, emit) == line[pos..]
    decreases |line| - pos
  {
    if pos < |line| {
      if !IsDigit(line[pos]) {
        IdentityFrom(line, pos + 1, emit);
        SliceCons(line, pos, |line|);
      } else {
        var end := Seek(line, pos, false);
        assert IsMaximalRun(line, pos, end);
        IdentityFrom(line, end, emit);
        SliceSplit(line, pos, end, |line|);
      }
    }
  }

  /** When `emit` leaves every maximal digit run as it is, the line comes
    * out unchanged. */
  lemma SubstituteIdentity(line: string, emit: string -> string)
    requires forall i: nat, j: nat :: IsMaximalRun(line, i, j) ==> emit(line[i..j]) == line[i..j]
    ensures Substitute(line, 0, emit) == line
  {
    IdentityFrom(line, 0, emit);
  }

  lemma {:induction false} AgreeFrom(line: string, pos: nat, e1: string -> string, e2: string -> string)
    requires pos <= |line|
    requires pos < |line| && IsDigit(line[pos]) && 0 < pos ==> !IsDigit(line[pos - 1])
    requires forall i: nat, j: nat :: IsMaximalRun(line, i, j) ==> e1(line[i..j]) == e2(line[i..j])
    ensures Substitute(line, pos, e1) == Substitute(line, pos, e2)
    decreases |line| - pos
  {
    if pos < |line| {
      if !IsDigit(line[pos]) {
        AgreeFrom(line, pos + 1, e1, e2);
      } else {
        var end := Seek(line, pos, false);
        assert IsMaximalRun(line, pos, end);
        AgreeFrom(line, end, e1, e2);
      }
    }
  }

  /** Only maximal digit runs reach `emit`: two substitutions that agree on
    * every maximal run of the line give the same text. */
  lemma SubstituteOnlyAtRuns(line: string, e1: string -> string, e2: string -> string)
    requires forall i: nat, j: nat :: IsMaximalRun(line, i, j) ==> e1(line[i..j]) == e2(line[i..j])
    ensures Substitute(line, 0, e1) == Substitute(line, 0, e2)
  {
    AgreeFrom(line, 0, e1, e2);
  }

  /** A line that is one digit run becomes `emit` of it. */
  lemma SubstituteRun(run: string, emit: string -> string)
    requires run != [] && AllDigits(run)
    ensures Substitute(run, 0, emit) == emit(run)
  {
    assert Seek(run, 0, false) == |run|;
    assert run[0..|run|] == run;
  }

  /** A line without digits is copied. */
  lemma SubstituteNoDigits(line: string, emit: string -> string)
    requires forall i :: 0 <= i < |line| ==> !IsDigit(line[i])
    ensures Substitute(line, 0, emit) == line
  {
    SubstituteText(line, 0, |line|, emit);
    assert line[0..|line|] == line;
  }

  lemma {:induction false} SeekShift(p: string, b: string, q: nat, digit: bool)
    requires q <= |b|
    ensures Seek(p + b, |p| + q, digit) == |p| + Seek(b, q, digit)
    decreases |b| - q
  {
    if q < |b| {
      assert (p + b)[|p| + q] == b[q];
      SeekShift(p, b, q + 1, digit);
    }
  }

  lemma {:induction false} SubstituteShift(p: string, b: string, q: nat, emit: string -> string)
    requires q <= |b|
    ensures Substitute(p + b, |p| + q, emit) == Substitute(b, q, emit)
    decreases |b| - q
  {
    var line := p + b;
    var k := |p| + q;
    if q < |b| {
      assert line[k] == b[q];
      if !IsDigit(b[q]) {
        SubstituteShift(p, b, q + 1, emit);
        assert Substitute(line, k, emit) == [b[q]] + Substitute(line, k + 1, emit);
        assert Substitute(b, q, emit) == [b[q]] + Substitute(b, q + 1, emit);
      } else {
        var end := Seek(b, q, false);
        SeekShift(p, b, q, false);
        SliceShift(p, b, q, end);
        SubstituteShift(p, b, end, emit);
        assert Substitute(line, k, emit) == emit(line[k..|p| + end]) + Substitute(line, |p| + end, emit);
        assert Substitute(b, q, emit) == emit(b[q..end]) + Substitute(b, end, emit);
      }
    }
  }

  lemma {:induction false} SeekPrefix(a: string, c: char, b: string, pos: nat)
    requires pos <= |a| && !IsDigit(c)
    ensures Seek(a + [c] + b, pos, false) == Seek(a, pos, false)
    decreases |a| - pos
  {
    var line := a + [c] + b;
    if pos < |a| {
      assert line[pos] == a[pos];
      SeekPrefix(a, c, b, pos + 1);
    } else {
      assert line[pos] == c;
    }
  }

  lemma {:induction false} SplitFrom(a: string, c: char, b: string, pos: nat, emit: string -> string)
    requires pos <= |a| && !IsDigit(c)
    ensures Substitute(a + [c] + b, pos, emit) == Substitute(a, pos, emit) + ([c] + Substitute(b, 0, emit))
    decreases |a| - pos
  {
    var line := a + [c] + b;
    if pos == |a| {
      assert line[pos] == c;
      assert line == (a + [c]) + b;
      SubstituteShift(a + [c], b, 0, emit);
    } else {
      assert line[pos] == a[pos];
      if !IsDigit(a[pos]) {
        SplitFrom(a, c, b, pos + 1, emit);
        AppendAssoc([a[pos]], Substitute(a, pos + 1, emit), [c] + Substitute(b, 0, emit));
      } else {
        var end := Seek(a, pos, false);
        SeekPrefix(a, c, b, pos);
        assert line == a + ([c] + b);
        SlicePrefix(a, [c] + b, pos, end);
        SplitFrom(a, c, b, end, emit);
        AppendAssoc(emit(a[pos..end]), Substitute(a, end, emit), [c] + Substitute(b, 0, emit));
      }
    }
  }

  /** Substituting in two pieces of a line split at a non-digit gives the
    * substitution in the whole line. */
  lemma SubstituteSplit(a: string, c: char, b: string, emit: string -> string)
    requires !IsDigit(c)
    ensures Substitute(a + [c] + b, 0, emit) == Substitute(a, 0, emit) + [c] + Substitute(b, 0, emit)
  {
    SplitFrom(a, c, b, 0, emit);
  }
}
