/**
 The JSONL event log (app/daemon/event_log.c): validity, the line format, the
 short-write loop, and what a file of such lines decodes to.

 The kernel's answers are scripts: how much each write takes, whether open and
 close succeed.  `%.6f` prints an exact real, rounding ties to even.
 */
module EventLog {
  import opened CTypes
  import opened Decimal
  import opened Doubles

  datatype LogStatus = LogOk | LogInvalidArgument | LogFormatError | LogOpenError | LogWriteError | LogCloseError

  datatype MotionEventRecord = MotionEventRecord(
    timestampMs: Uint64, sequence: Uint64, score: real, threshold: real,
    changedPixels: Uint64, totalPixels: Uint64, cooldownMs: Uint64)

  predicate EventIsValid(e: MotionEventRecord) {
    && 0.0 <= e.score <= 1.0
    && 0.0 < e.threshold <= 1.0
    && e.totalPixels > 0
    && e.changedPixels <= e.totalPixels
    && e.cooldownMs > 0
  }

  const LINE_CAPACITY := 512

  // ------------------------------------------------------------- line format

  datatype Number = Whole(n: nat) | Millionths(m: nat)

  predicate Numeric(s: string) {
    forall i :: 0 <= i < |s| ==> IsDigit(s[i]) || s[i] == '.'
  }

  function NumberText(v: Number): (s: string)
    ensures s != "" && Numeric(s)
  {
    match v
    case Whole(n) => Numeral(n)
    case Millionths(m) => Numeral(m / 1000000) + "." + Padded(m % 1000000, 6)
  }

  /** A label and the number printed after it. */
  datatype Field = Field(caption: string, number: Number)

  const LINE_END := "}\n"

  function Render(fields: seq<Field>): string {
    if fields == [] then LINE_END else fields[0].caption + NumberText(fields[0].number) + Render(fields[1..])
  }

  /** Millionths of x, ties to even. */
  function RoundedToEven(x: real): nat
    requires x >= 0.0
  {
    HalfEven(x * 1000000.0)
  }

  /** A record as it stands in the file: scores in millionths. */
  datatype LoggedRecord = LoggedRecord(timestampMs: nat, sequence: nat, scoreMillionths: nat, thresholdMillionths: nat,
                                       changedPixels: nat, totalPixels: nat, cooldownMs: nat)

  function AsLogged(e: MotionEventRecord): LoggedRecord
    requires EventIsValid(e)
  {
    LoggedRecord(e.timestampMs, e.sequence, RoundedToEven(e.score), RoundedToEven(e.threshold),
                 e.changedPixels, e.totalPixels, e.cooldownMs)
  }

  const TS_LABEL := "{\"ts_ms\":"
  const SEQUENCE_LABEL := ",\"type\":\"motion\",\"sequence\":"
  const SCORE_LABEL := ",\"score\":"
  const THRESHOLD_LABEL := ",\"threshold\":"
  const CHANGED_LABEL := ",\"changed_pixels\":"
  const TOTAL_LABEL := ",\"total_pixels\":"
  const COOLDOWN_LABEL := ",\"cooldown_ms\":"

  function RecordFields(r: LoggedRecord): seq<Field> {
    [Field(TS_LABEL, Whole(r.timestampMs)), Field(SEQUENCE_LABEL, Whole(r.sequence)),
     Field(SCORE_LABEL, Millionths(r.scoreMillionths)), Field(THRESHOLD_LABEL, Millionths(r.thresholdMillionths)),
     Field(CHANGED_LABEL, Whole(r.changedPixels)), Field(TOTAL_LABEL, Whole(r.totalPixels)),
     Field(COOLDOWN_LABEL, Whole(r.cooldownMs))]
  }

  function Line(e: MotionEventRecord): string
    requires EventIsValid(e)
  {
    Render(RecordFields(AsLogged(e)))
  }

  // --------------------------------------------------------- reading it back

  /** A label to be matched, and the kind of number to be read after it. */
  datatype FieldShape = FieldShape(caption: string, millionths: bool)

  function ShapeOf(f: Field): FieldShape {
    FieldShape(f.caption, f.number.Millionths?)
  }

  function ShapesOf(fields: seq<Field>): (shapes: seq<FieldShape>)
    ensures |shapes| == |fields|
    ensures forall i :: 0 <= i < |fields| ==> shapes[i] == ShapeOf(fields[i])
  {
    if fields == [] then [] else [ShapeOf(fields[0])] + ShapesOf(fields[1..])
  }

  function Numbers(fields: seq<Field>): seq<Number> {
    if fields == [] then [] else [fields[0].number] + Numbers(fields[1..])
  }

  datatype Reading = Reading(number: Number, rest: string)

  /** The number at the front of a text; it is made of digits and points. */
  function ReadNumber(millionths: bool, s: string): (r: Option<Reading>)
    ensures r.Some? ==> |r.value.rest| <= |s| && r.value.rest == s[|s| - |r.value.rest|..]
    ensures r.Some? ==> Numeric(s[..|s| - |r.value.rest|])
  {
    var k := DigitRun(s);
    if k == 0 then None
    else if !millionths then Some(Reading(Whole(ValueOf(s[..k])), s[k..]))
    else if k == |s| || s[k] != '.' || |s| < k + 7 || !AllDigits(s[k + 1..k + 7]) then None
    else
      assert s[..k + 7] == s[..k] + "." + s[k + 1..k + 7];
      Some(Reading(Millionths(ValueOf(s[..k]) * 1000000 + ValueOf(s[k + 1..k + 7])), s[k + 7..]))
  }

  /** Match a whole line against its template. */
  function ReadFields(shapes: seq<FieldShape>, s: string): Option<seq<Number>> {
    if shapes == [] then if s == LINE_END then Some([]) else None
    else if !(shapes[0].caption <= s) then None
    else
      match ReadNumber(shapes[0].millionths, s[|shapes[0].caption|..])
      case None => None
      case Some(Reading(v, rest)) =>
        match ReadFields(shapes[1..], rest)
        case None => None
        case Some(vs) => Some([v] + vs)
  }

  const RECORD_SHAPES: seq<FieldShape> :=
    [FieldShape(TS_LABEL, false), FieldShape(SEQUENCE_LABEL, false), FieldShape(SCORE_LABEL, true),
     FieldShape(THRESHOLD_LABEL, true),
     FieldShape(CHANGED_LABEL, false), FieldShape(TOTAL_LABEL, false), FieldShape(COOLDOWN_LABEL, false)]

  function RecordOf(v: seq<Number>): Option<LoggedRecord> {
    if |v| == 7 && v[0].Whole? && v[1].Whole? && v[2].Millionths? && v[3].Millionths?
       && v[4].Whole? && v[5].Whole? && v[6].Whole?
    then Some(LoggedRecord(v[0].n, v[1].n, v[2].m, v[3].m, v[4].n, v[5].n, v[6].n))
    else None
  }

  /** The record on one line, if the whole line has the format. */
  function ParseLine(line: string): Option<LoggedRecord> {
    match ReadFields(RECORD_SHAPES, line)
    case None => None
    case Some(vs) => RecordOf(vs)
  }

  lemma ReadNumberBack(v: Number, rest: string)
    requires rest != "" && !IsDigit(rest[0])
    ensures ReadNumber(v.Millionths?, NumberText(v) + rest) == Some(Reading(v, rest))
  {
    match v
    case Whole(n) => ReadWholeBack(n, rest);
    case Millionths(m) => ReadMillionthsBack(m, rest);
  }

  lemma ReadWholeBack(n: nat, rest: string)
    requires rest != "" && !IsDigit(rest[0])
    ensures ReadNumber(false, Numeral(n) + rest) == Some(Reading(Whole(n), rest))
  {
    var digits := Numeral(n);
    var s := digits + rest;
    DigitRunOf(digits, rest);
    NumeralValue(n);
    assert s[..|digits|] == digits && s[|digits|..] == rest;
  }

  lemma PointParts(whole: string, part: string, rest: string)
    requires |part| == 6
    ensures var s, k := whole + "." + part + rest, |whole|;
            && s == whole + ("." + part + rest)
            && s[..k] == whole && s[k] == '.' && s[k + 1..k + 7] == part && s[k + 7..] == rest
  {
  }

  lemma ReadMillionthsBack(m: nat, rest: string)
    ensures ReadNumber(true, NumberText(Millionths(m)) + rest) == Some(Reading(Millionths(m), rest))
  {
    var whole, part := Numeral(m / 1000000), Padded(m % 1000000, 6);
    PointParts(whole, part, rest);
    DigitRunOf(whole, "." + part + rest);
    NumeralValue(m / 1000000);
    assert Pow10(6) == 1000000;
    PaddedValue(m % 1000000, 6);
  }

  /** A label that cannot be taken for part of the number before it. */
  predicate Label(s: string) {
    s != "" && !IsDigit(s[0]) && '\n' !in s
  }

  lemma ReadStep(shapes: seq<FieldShape>, s: string, v: Number, rest: string, vs: seq<Number>)
    requires shapes != [] && shapes[0].caption <= s
    requires ReadNumber(shapes[0].millionths, s[|shapes[0].caption|..]) == Some(Reading(v, rest))
    requires ReadFields(shapes[1..], rest) == Some(vs)
    ensures ReadFields(shapes, s) == Some([v] + vs)
  {
  }

  lemma ReadFieldBack(f: Field, shapes: seq<FieldShape>, rest: string, vs: seq<Number>)
    requires Label(f.caption) && rest != "" && !IsDigit(rest[0])
    requires ReadFields(shapes, rest) == Some(vs)
    ensures var s := f.caption + NumberText(f.number) + rest;
            ReadFields([ShapeOf(f)] + shapes, s) == Some([f.number] + vs) && s != "" && !IsDigit(s[0])
  {
    var number, all := NumberText(f.number), [ShapeOf(f)] + shapes;
    var s := f.caption + number + rest;
    Joined(f.caption, number, rest);
    assert s[..|f.caption|] == f.caption && s[|f.caption|..] == number + rest;
    ReadNumberBack(f.number, rest);
    assert all[0] == ShapeOf(f) && all[1..] == shapes;
    ReadStep(all, s, f.number, rest, vs);
  }

  /** Reading what was printed gives the numbers printed. */
  lemma {:induction false} ReadBack(fields: seq<Field>)
    requires forall i :: 0 <= i < |fields| ==> Label(fields[i].caption)
    ensures ReadFields(ShapesOf(fields), Render(fields)) == Some(Numbers(fields))
    ensures Render(fields) != "" && !IsDigit(Render(fields)[0])
  {
    if fields != [] {
      var tail := fields[1..];
      ReadBack(tail);
      assert Label(fields[0].caption);
      ReadFieldBack(fields[0], ShapesOf(tail), Render(tail), Numbers(tail));
    }
  }

  /** A matched text is a label, a number and a matched rest. */
  lemma MatchedParts(shapes: seq<FieldShape>, s: string) returns (number: string, rest: string)
    requires shapes != [] && ReadFields(shapes, s).Some?
    ensures s == shapes[0].caption + (number + rest) && Numeric(number)
    ensures ReadFields(shapes[1..], rest).Some?
  {
    var after := s[|shapes[0].caption|..];
    PrefixSplit(shapes[0].caption, s);
    rest := ReadNumber(shapes[0].millionths, after).value.rest;
    number := after[..|after| - |rest|];
    PrefixSplit(number, after);
  }

  lemma PrefixSplit(a: string, s: string)
    requires a <= s
    ensures s == a + s[|a|..]
  {
  }

  predicate NoBrace(shapes: seq<FieldShape>) {
    forall i :: 0 <= i < |shapes| ==> '{' !in shapes[i].caption
  }

  /** What matches labels without a brace has no brace. */
  lemma {:induction false} MatchedHasNoBrace(shapes: seq<FieldShape>, s: string)
    requires NoBrace(shapes) && ReadFields(shapes, s).Some?
    ensures '{' !in s
    decreases shapes
  {
    if shapes != [] {
      var number, rest := MatchedParts(shapes, s);
      MatchedHasNoBrace(shapes[1..], rest);
      NumericHasNoBrace(number);
      assert '{' !in shapes[0].caption;
      NoBraceJoined(number, rest);
      NoBraceJoined(shapes[0].caption, number + rest);
    }
  }

  lemma NoBraceJoined(a: string, b: string)
    requires '{' !in a && '{' !in b
    ensures '{' !in a + b
  {
  }

  lemma NumericHasNoBrace(s: string)
    requires Numeric(s)
    ensures '{' !in s
  {
  }

  lemma TailOfJoined(a: string, b: string)
    requires a != ""
    ensures a + b != "" && (a + b)[1..] == a[1..] + b
  {
  }

  lemma FirstLabel()
    ensures Label(TS_LABEL) && TS_LABEL[0] == '{' && '{' !in TS_LABEL[1..]
  {
  }

  lemma LabelsToScore()
    ensures Label(SEQUENCE_LABEL) && Label(SCORE_LABEL) && '{' !in SEQUENCE_LABEL && '{' !in SCORE_LABEL
  {
  }

  lemma LabelsToTotal()
    ensures Label(THRESHOLD_LABEL) && Label(CHANGED_LABEL) && '{' !in THRESHOLD_LABEL && '{' !in CHANGED_LABEL
  {
  }

  lemma LabelsToEnd()
    ensures Label(TOTAL_LABEL) && Label(COOLDOWN_LABEL) && '{' !in TOTAL_LABEL && '{' !in COOLDOWN_LABEL
  {
  }

  lemma RecordLabels(r: LoggedRecord)
    ensures forall i :: 0 <= i < 7 ==> Label(RecordFields(r)[i].caption)
    ensures NoBrace(RECORD_SHAPES[1..])
  {
    FirstLabel();
    LabelsToScore();
    LabelsToTotal();
    LabelsToEnd();
  }

  lemma RecordNumbers(r: LoggedRecord)
    ensures RecordOf(Numbers(RecordFields(r))) == Some(r)
    ensures ShapesOf(RecordFields(r)) == RECORD_SHAPES
  {
    NumbersAt(RecordFields(r));
    RecordShapes(r);
  }

  lemma RecordShapes(r: LoggedRecord)
    ensures ShapesOf(RecordFields(r)) == RECORD_SHAPES
  {
  }

  lemma {:induction false} NumbersAt(fields: seq<Field>)
    ensures |Numbers(fields)| == |fields|
    ensures forall i :: 0 <= i < |fields| ==> Numbers(fields)[i] == fields[i].number
  {
    if fields != [] {
      NumbersAt(fields[1..]);
    }
  }

  /** A printed record reads back as itself. */
  lemma RecordRoundTrip(r: LoggedRecord)
    ensures ParseLine(Render(RecordFields(r))) == Some(r)
  {
    RecordLabels(r);
    ReadBack(RecordFields(r));
    RecordNumbers(r);
  }

  lemma OneBraceIn(shapes: seq<FieldShape>, line: string)
    requires shapes != [] && NoBrace(shapes[1..]) && ReadFields(shapes, line).Some?
    requires shapes[0].caption != "" && '{' !in shapes[0].caption[1..]
    ensures line != "" && '{' !in line[1..]
  {
    var number, rest := MatchedParts(shapes, line);
    MatchedHasNoBrace(shapes[1..], rest);
    NumericHasNoBrace(number);
    NoBraceJoined(number, rest);
    NoBraceJoined(shapes[0].caption[1..], number + rest);
    TailOfJoined(shapes[0].caption, number + rest);
  }

  /** A line that parses has its only brace in front. */
  lemma OneBrace(line: string)
    requires ParseLine(line).Some?
    ensures line != "" && '{' !in line[1..]
  {
    RecordLabels(LoggedRecord(0, 0, 0, 0, 0, 0, 0));
    FirstLabel();
    OneBraceIn(RECORD_SHAPES, line);
  }

  /** A newline ends every line and occurs nowhere else in it. */
  lemma {:induction false} OneNewline(fields: seq<Field>)
    requires forall i :: 0 <= i < |fields| ==> Label(fields[i].caption)
    ensures var line := Render(fields);
            |line| > 1 && line[|line| - 1] == '\n' && '\n' !in line[..|line| - 1]
  {
    if fields != [] {
      var rest, front := Render(fields[1..]), fields[0].caption + NumberText(fields[0].number);
      OneNewline(fields[1..]);
      assert '\n' !in front;
      assert Render(fields)[..|Render(fields)| - 1] == front + rest[..|rest| - 1];
    }
  }

  lemma LineShape(e: MotionEventRecord)
    requires EventIsValid(e)
    ensures var line := Line(e);
            && |line| > 1 && line[0] == '{' && '{' !in line[1..]
            && line[|line| - 1] == '\n' && '\n' !in line[..|line| - 1]
  {
    var fields := RecordFields(AsLogged(e));
    RecordLabels(AsLogged(e));
    RecordRoundTrip(AsLogged(e));
    OneBrace(Line(e));
    OneNewline(fields);
    FirstLabel();
    StartsWithLabel(fields);
  }

  lemma StartsWithLabel(fields: seq<Field>)
    requires fields != [] && fields[0].caption != ""
    ensures Render(fields) != "" && Render(fields)[0] == fields[0].caption[0]
  {
    assert Render(fields) == fields[0].caption + (NumberText(fields[0].number) + Render(fields[1..]));
  }

  /** The line of any valid event fits the 512-byte buffer, whatever its 64-bit fields. */
  lemma LineFits(e: MotionEventRecord)
    requires EventIsValid(e)
    ensures |Line(e)| < LINE_CAPACITY
  {
    var r := AsLogged(e);
    assert Pow10(1) == 10;
    assert Pow10(5) == 100000;
    assert Pow10(10) == 10000000000;
    assert Pow10(15) == 1000000000000000;
    assert Pow10(20) == 100000000000000000000;
    NumeralLength(r.timestampMs, 20);
    NumeralLength(r.sequence, 20);
    NumeralLength(r.changedPixels, 20);
    NumeralLength(r.totalPixels, 20);
    NumeralLength(r.cooldownMs, 20);
    RoundingStaysInUnit(e.score);
    RoundingStaysInUnit(e.threshold);
    NumeralLength(r.scoreMillionths / 1000000, 1);
    NumeralLength(r.thresholdMillionths / 1000000, 1);
    RenderLength(RecordFields(r), 60);
  }

  lemma RoundingStaysInUnit(x: real)
    requires 0.0 <= x <= 1.0
    ensures RoundedToEven(x) <= 1000000
  {
    var scaled := x * 1000000.0;
    assert scaled.Floor as real <= scaled <= 1000000.0;
  }

  lemma {:induction false} RenderLength(fields: seq<Field>, each: nat)
    requires forall i :: 0 <= i < |fields| ==> |fields[i].caption| + |NumberText(fields[i].number)| <= each
    ensures |Render(fields)| <= each * |fields| + 2
  {
    if fields != [] {
      RenderLength(fields[1..], each);
      assert |fields[0].caption| + |NumberText(fields[0].number)| <= each;
      OnceMore(each, |fields|);
    }
  }

  lemma OnceMore(each: nat, n: nat)
    ensures each * n == each + each * (n - 1)
  {
  }

  // ----------------------------------------------------------------- writing

  /** What one write(2) does: take up to `count` bytes, be interrupted, or fail. */
  datatype WriteOutcome = Takes(count: nat) | Interrupted | Fails

  /** How many of `length` bytes end up in the file. */
  function Appended(length: nat, writes: seq<WriteOutcome>): (n: nat)
    ensures n <= length
    decreases |writes|
  {
    if length == 0 || writes == [] then 0
    else
      match writes[0]
      case Takes(0) => 0
      case Takes(count) => var n := Min(count, length); n + Appended(length - n, writes[1..])
      case Interrupted => Appended(length, writes[1..])
      case Fails => 0
  }

  // What such a loop achieves, without the loop: the answers before the first
  // that ends it count, and everything they take adds up.

  predicate Lively(w: WriteOutcome) {
    w.Interrupted? || (w.Takes? && w.count > 0)
  }

  /** How many answers come before the first failure or the first that takes nothing. */
  function Alive(writes: seq<WriteOutcome>): (k: nat)
    ensures k <= |writes| && forall i :: 0 <= i < k ==> Lively(writes[i])
    ensures k < |writes| ==> !Lively(writes[k])
  {
    if writes == [] || !Lively(writes[0]) then 0 else 1 + Alive(writes[1..])
  }

  function Total(writes: seq<WriteOutcome>): nat {
    if writes == [] then 0
    else (match writes[0] case Takes(count) => count case _ => 0) + Total(writes[1..])
  }

  function TakenInAll(writes: seq<WriteOutcome>): nat {
    Total(writes[..Alive(writes)])
  }

  lemma TakenInAllStep(writes: seq<WriteOutcome>)
    requires writes != []
    ensures TakenInAll(writes) == match writes[0]
                                  case Takes(0) => 0
                                  case Takes(count) => count + TakenInAll(writes[1..])
                                  case Interrupted => TakenInAll(writes[1..])
                                  case Fails => 0
  {
    if Lively(writes[0]) {
      var k := Alive(writes[1..]);
      assert writes[..k + 1][0] == writes[0] && writes[..k + 1][1..] == writes[1..][..k];
    }
  }

  /** Short writes are continued, interruptions cost nothing: all that is taken counts, up to the length. */
  lemma {:induction false} ShortWritesAddUp(length: nat, writes: seq<WriteOutcome>)
    ensures Appended(length, writes) == Min(length, TakenInAll(writes))
    decreases |writes|
  {
    if length > 0 && writes != [] {
      TakenInAllStep(writes);
      match writes[0]
      case Takes(0) =>
      case Takes(count) => ShortWritesAddUp(length - Min(count, length), writes[1..]);
      case Interrupted => ShortWritesAddUp(length, writes[1..]);
      case Fails =>
    }
  }

  /** The answers of the kernel to one append; a script that runs out means the next write fails. */
  datatype AppendIo = AppendIo(opens: bool, writes: seq<WriteOutcome>, closes: bool)

  datatype AppendOutcome = AppendOutcome(status: LogStatus, written: string)

  function AppendStep(path: string, e: MotionEventRecord, io: AppendIo): AppendOutcome {
    if path == "" || !EventIsValid(e) then AppendOutcome(LogInvalidArgument, "")
    else if |Line(e)| >= LINE_CAPACITY then AppendOutcome(LogFormatError, "")
    else if !io.opens then AppendOutcome(LogOpenError, "")
    else
      var n := Appended(|Line(e)|, io.writes);
      AppendOutcome(if n < |Line(e)| then LogWriteError else if io.closes then LogOk else LogCloseError, Line(e)[..n])
  }

  /** What makes an event one that can be logged. */
  lemma ValidEvents(e: MotionEventRecord)
    ensures EventIsValid(e) <==>
              && !(e.score < 0.0) && !(e.score > 1.0) && e.threshold > 0.0 && !(e.threshold > 1.0)
              && e.totalPixels != 0 && e.changedPixels <= e.totalPixels && e.cooldownMs != 0
  {
  }

  /** Six decimals of a number, the nearest ones. */
  function SixDecimals(x: real): string
    requires x >= 0.0
  {
    var m := HalfEven(x * 1000000.0);
    Numeral(m / 1000000) + "." + Padded(m % 1000000, 6)
  }

  /** The line, spelled out. */
  lemma LineText(e: MotionEventRecord)
    requires EventIsValid(e)
    ensures Line(e)
         == "{\"ts_ms\":" + Numeral(e.timestampMs)
            + (",\"type\":\"motion\",\"sequence\":" + Numeral(e.sequence)
               + (",\"score\":" + SixDecimals(e.score)
                  + (",\"threshold\":" + SixDecimals(e.threshold)
                     + (",\"changed_pixels\":" + Numeral(e.changedPixels)
                        + (",\"total_pixels\":" + Numeral(e.totalPixels)
                           + (",\"cooldown_ms\":" + Numeral(e.cooldownMs) + "}\n"))))))
  {
    SevenFields(RecordFields(AsLogged(e)));
    MillionthsText(e.score);
    MillionthsText(e.threshold);
  }

  lemma MillionthsText(x: real)
    requires x >= 0.0
    ensures NumberText(Millionths(RoundedToEven(x))) == SixDecimals(x)
  {
  }

  lemma SevenFields(fields: seq<Field>)
    requires |fields| == 7
    ensures Render(fields)
         == fields[0].caption + NumberText(fields[0].number)
            + (fields[1].caption + NumberText(fields[1].number)
               + (fields[2].caption + NumberText(fields[2].number)
                  + (fields[3].caption + NumberText(fields[3].number)
                     + (fields[4].caption + NumberText(fields[4].number)
                        + (fields[5].caption + NumberText(fields[5].number)
                           + (fields[6].caption + NumberText(fields[6].number) + LINE_END))))))
  {
    assert fields[0..] == fields;
    RenderStep(fields, 0);
    RenderStep(fields, 1);
    RenderStep(fields, 2);
    RenderStep(fields, 3);
    RenderStep(fields, 4);
    RenderStep(fields, 5);
    RenderStep(fields, 6);
  }

  lemma RenderStep(fields: seq<Field>, n: nat)
    requires n < |fields|
    ensures Render(fields[n..]) == fields[n].caption + NumberText(fields[n].number) + Render(fields[n + 1..])
  {
    assert fields[n..][0] == fields[n] && fields[n..][1..] == fields[n + 1..];
  }

  /** Every outcome of an append, from the world's answers; a valid event always fits the line buffer. */
  lemma AppendOutcomes(path: string, e: MotionEventRecord, io: AppendIo)
    ensures var o := AppendStep(path, e, io);
            if path == "" || !EventIsValid(e) then o == AppendOutcome(LogInvalidArgument, "")
            else if !io.opens then o == AppendOutcome(LogOpenError, "")
            else if TakenInAll(io.writes) < |Line(e)| then
              o == AppendOutcome(LogWriteError, Line(e)[..TakenInAll(io.writes)])
            else o == AppendOutcome(if io.closes then LogOk else LogCloseError, Line(e))
  {
    if EventIsValid(e) {
      LineFits(e);
      ShortWritesAddUp(|Line(e)|, io.writes);
    }
  }

  class LogFile {
    var text: string

    constructor ()
      ensures text == ""
    {
      text := "";
    }

    method WriteAll(data: string, writes: seq<WriteOutcome>) returns (status: LogStatus)
      modifies this
      ensures text == old(text) + data[..Min(|data|, TakenInAll(writes))]
      ensures status == if TakenInAll(writes) >= |data| then LogOk else LogWriteError
    {
      ShortWritesAddUp(|data|, writes);
      var written, next := 0, 0;
      while written < |data|
        invariant 0 <= written <= |data| && 0 <= next <= |writes|
        invariant text == old(text) + data[..written]
        invariant Appended(|data|, writes) == written + Appended(|data| - written, writes[next..])
        decreases |writes| - next
      {
        if next == |writes| {
          return LogWriteError;
        }
        var outcome := writes[next];
        next := next + 1;
        assert writes[next - 1..][1..] == writes[next..];
        match outcome {
          case Takes(count) =>
            if count == 0 {
              return LogWriteError;
            }
            var n := Min(count, |data| - written);
            assert data[..written] + data[written..written + n] == data[..written + n];
            text := text + data[written..written + n];
            written := written + n;
          case Interrupted =>
          case Fails =>
            return LogWriteError;
        }
      }
      return LogOk;
    }

    method AppendMotion(path: string, e: MotionEventRecord, io: AppendIo) returns (status: LogStatus)
      modifies this
      ensures status == AppendStep(path, e, io).status
      ensures text == old(text) + AppendStep(path, e, io).written
    {
      if path == "" || !EventIsValid(e) {
        return LogInvalidArgument;
      }
      var line := Line(e);
      if |line| >= LINE_CAPACITY {
        return LogFormatError;
      }
      if !io.opens {
        return LogOpenError;
      }
      ShortWritesAddUp(|line|, io.writes);
      status := WriteAll(line, io.writes);
      if status != LogOk {
        return status;
      }
      if !io.closes {
        return LogCloseError;
      }
      return LogOk;
    }
  }

  // -------------------------------------------------------------- whole runs

  datatype Attempt = Attempt(event: MotionEventRecord, io: AppendIo)

  predicate AllValid(attempts: seq<Attempt>) {
    forall i :: 0 <= i < |attempts| ==> EventIsValid(attempts[i].event)
  }

  /** The text a run of appends adds to the file. */
  function NewText(path: string, attempts: seq<Attempt>): string {
    if attempts == [] then ""
    else AppendStep(path, attempts[0].event, attempts[0].io).written + NewText(path, attempts[1..])
  }

  /** The records whose append reported success, as they should stand in the file. */
  function Logged(path: string, attempts: seq<Attempt>): seq<LoggedRecord>
    requires AllValid(attempts)
  {
    if attempts == [] then []
    else
      var a := attempts[0];
      (if AppendStep(path, a.event, a.io).status == LogOk then [AsLogged(a.event)] else [])
      + Logged(path, attempts[1..])
  }

  /**
   An append that reports failure after bytes of its line reached the file: part
   of the line, or all of it when only the close failed.
   */
  predicate Torn(path: string, a: Attempt) {
    var o := AppendStep(path, a.event, a.io);
    o.status != LogOk && o.written != ""
  }

  function NewlineAt(text: string): (k: nat)
    ensures k <= |text| && '\n' !in text[..k]
    ensures k < |text| ==> text[k] == '\n'
  {
    if text == "" || text[0] == '\n' then 0 else 1 + NewlineAt(text[1..])
  }

  /** Split on newlines and parse every line; nothing may be left over. */
  function DecodeLog(text: string): Option<seq<LoggedRecord>> {
    if text == "" then Some([])
    else
      var k := NewlineAt(text);
      if k == |text| then None
      else
        match (ParseLine(text[..k + 1]), DecodeLog(text[k + 1..]))
        case (Some(r), Some(rs)) => Some([r] + rs)
        case _ => None
  }

  lemma {:induction false} NewlineFirst(text: string, k: nat)
    requires k < |text| && text[k] == '\n' && '\n' !in text[..k]
    ensures NewlineAt(text) == k
  {
    if k > 0 {
      assert text[0] == text[..k][0];
      assert text[1..][..k - 1] == text[..k][1..];
      NewlineFirst(text[1..], k - 1);
    }
  }

  lemma DecodeLine(e: MotionEventRecord, rest: string)
    requires EventIsValid(e)
    ensures DecodeLog(Line(e) + rest)
         == match DecodeLog(rest) case None => None case Some(rs) => Some([AsLogged(e)] + rs)
  {
    var line := Line(e);
    LineShape(e);
    RecordRoundTrip(AsLogged(e));
    var text := line + rest;
    assert text[..|line| - 1] == line[..|line| - 1];
    NewlineFirst(text, |line| - 1);
    assert text[..|line|] == line && text[|line|..] == rest;
  }

  /** What is written of a line is nothing, a part without the newline, or all of it. */
  lemma WrittenShape(path: string, a: Attempt)
    requires EventIsValid(a.event)
    ensures var w, line := AppendStep(path, a.event, a.io).written, Line(a.event);
            && w <= line && line != ""
            && (w != "" ==> w[0] == '{')
            && (w != line ==> '\n' !in w)
            && (AppendStep(path, a.event, a.io).status == LogOk ==> w == line)
  {
    LineShape(a.event);
    var w, line := AppendStep(path, a.event, a.io).written, Line(a.event);
    if w != line {
      assert w == line[..|w|] && |w| < |line|;
      assert line[..|line| - 1][..|w|] == w;
    }
  }

  lemma {:induction false} NewTextStartsWithBrace(path: string, attempts: seq<Attempt>)
    requires AllValid(attempts)
    ensures NewText(path, attempts) == "" || NewText(path, attempts)[0] == '{'
  {
    if attempts != [] {
      WrittenShape(path, attempts[0]);
      NewTextStartsWithBrace(path, attempts[1..]);
    }
  }

  /** A torn line spoils the file: it runs into the next line or has no end. */
  lemma TornLineSpoils(torn: string, rest: string)
    requires torn != "" && '\n' !in torn
    requires rest == "" || rest[0] == '{'
    ensures DecodeLog(torn + rest) == None
  {
    var text := torn + rest;
    var k := NewlineAt(text);
    assert forall i :: 0 <= i < |torn| ==> text[i] == torn[i] && torn[i] in torn;
    if k < |text| {
      assert k > |torn|;
      var line := text[..k + 1];
      assert line[1..][|torn| - 1] == text[|torn|] == '{';
      assert ParseLine(line) == None by {
        if ParseLine(line).Some? {
          OneBrace(line);
        }
      }
    }
  }

  /** Decoding a run's text, by what its first append left in the file. */
  lemma DecodeFirst(path: string, attempts: seq<Attempt>)
    requires AllValid(attempts) && attempts != []
    ensures var a := attempts[0];
            var w := AppendStep(path, a.event, a.io).written;
            var all, rest := DecodeLog(NewText(path, attempts)), DecodeLog(NewText(path, attempts[1..]));
            all == if w == "" then rest
                   else if w != Line(a.event) || rest.None? then None
                   else Some([AsLogged(a.event)] + rest.value)
  {
    var a, rest := attempts[0], NewText(path, attempts[1..]);
    var w := AppendStep(path, a.event, a.io).written;
    WrittenShape(path, a);
    if w == "" {
      assert w + rest == rest;
    } else if w == Line(a.event) {
      DecodeLine(a.event, rest);
    } else {
      NewTextStartsWithBrace(path, attempts[1..]);
      TornLineSpoils(w, rest);
    }
  }

  /** Decoding never finds fewer records than were logged. */
  lemma {:induction false} DecodesAtLeast(path: string, attempts: seq<Attempt>)
    requires AllValid(attempts)
    ensures var d := DecodeLog(NewText(path, attempts));
            d == None || |d.value| >= |Logged(path, attempts)|
    decreases attempts
  {
    if attempts != [] {
      DecodesAtLeast(path, attempts[1..]);
      DecodeFirst(path, attempts);
      WrittenShape(path, attempts[0]);
    }
  }

  ghost predicate NoneTorn(path: string, attempts: seq<Attempt>) {
    forall i :: 0 <= i < |attempts| ==> !Torn(path, attempts[i])
  }

  lemma NoneTornSplit(path: string, attempts: seq<Attempt>)
    requires attempts != []
    ensures NoneTorn(path, attempts) <==> !Torn(path, attempts[0]) && NoneTorn(path, attempts[1..])
  {
    var rest := attempts[1..];
    assert forall i :: 0 <= i < |rest| ==> rest[i] == attempts[i + 1];
    assert forall i :: 0 < i < |attempts| ==> attempts[i] == rest[i - 1];
  }

  /**
   For every run of appends, under every pattern of short writes, interrupts and
   failures: the new text decodes to exactly the records whose append succeeded,
   in order, if and only if no append failed after bytes of its line were written.
   */
  lemma {:induction false} DecodesExactly(path: string, attempts: seq<Attempt>)
    requires AllValid(attempts)
    ensures DecodeLog(NewText(path, attempts)) == Some(Logged(path, attempts)) <==> NoneTorn(path, attempts)
    decreases attempts
  {
    if attempts != [] {
      var a, rest := attempts[0], attempts[1..];
      DecodesExactly(path, rest);
      DecodesAtLeast(path, rest);
      DecodeFirst(path, attempts);
      WrittenShape(path, a);
      NoneTornSplit(path, attempts);
      var o, logged := AppendStep(path, a.event, a.io), Logged(path, rest);
      if o.status == LogOk {
        assert Logged(path, attempts) == [AsLogged(a.event)] + logged;
        var d := DecodeLog(NewText(path, rest));
        assert d.Some? && [AsLogged(a.event)] + d.value == [AsLogged(a.event)] + logged ==>
            d.value == ([AsLogged(a.event)] + d.value)[1..] == ([AsLogged(a.event)] + logged)[1..] == logged;
      } else {
        assert Logged(path, attempts) == logged;
      }
    }
  }

  /** One byte written before a failure is such an append, and so is a whole line whose close fails; neither decodes. */
  lemma TornHappens(path: string, e: MotionEventRecord)
    requires path != "" && EventIsValid(e)
    ensures var cut := Attempt(e, AppendIo(true, [Takes(1), Fails], true));
            Torn(path, cut) && DecodeLog(NewText(path, [cut])) != Some(Logged(path, [cut]))
    ensures var unclosed := Attempt(e, AppendIo(true, [Takes(LINE_CAPACITY)], false));
            && Torn(path, unclosed) && AppendStep(path, e, unclosed.io).written == Line(e)
            && DecodeLog(NewText(path, [unclosed])) != Some(Logged(path, [unclosed]))
  {
    var cut := Attempt(e, AppendIo(true, [Takes(1), Fails], true));
    var unclosed := Attempt(e, AppendIo(true, [Takes(LINE_CAPACITY)], false));
    LineFits(e);
    LineShape(e);
    var n := |Line(e)|;
    assert [Takes(1), Fails][1..] == [Fails];
    assert Appended(n - 1, [Fails]) == 0 && Appended(n, cut.io.writes) == 1;
    assert Appended(n, unclosed.io.writes) == n;
    TornAlone(path, cut);
    TornAlone(path, unclosed);
  }

  lemma TornAlone(path: string, a: Attempt)
    requires EventIsValid(a.event) && Torn(path, a)
    ensures DecodeLog(NewText(path, [a])) != Some(Logged(path, [a]))
  {
    DecodesExactly(path, [a]);
    assert Torn(path, [a][0]);
  }

  /** The loop leaves a prefix of the line, and all of it exactly when the append gets as far as close. */
  lemma PrefixOrWhole(path: string, e: MotionEventRecord, io: AppendIo)
    requires path != "" && EventIsValid(e)
    ensures var o := AppendStep(path, e, io);
            && o.status in {LogOk, LogOpenError, LogWriteError, LogCloseError}
            && o.written <= Line(e)
            && (o.written == Line(e) <==> o.status in {LogOk, LogCloseError})
  {
    LineFits(e);
    LineShape(e);
  }
}
