/**
 The status document (app/daemon/status_json.c): a bounded escaper, and the
 buffers it is used with.

 `JsonEscape` fills a C buffer in place and is proved to leave the escaped form
 of a prefix of its source there, without what JSON may not hold.  The parser of
 the configuration file reads that form back, so the two can be held against
 each other.
 */
module StatusJson {
  import opened CTypes
  import opened Decimal
  import opened Doubles
  import opened ConfigParser
  import opened ConfigRoundTrip
  import opened SharedState
  import Detector

  // ------------------------------------------------------------------ escaping

  predicate NeedsEscape(c: char) {
    c == '"' || c == '\\'
  }

  /** What the escaper writes for one character. */
  function EscapedChar(c: char): string {
    if NeedsEscape(c) then ['\\', c] else if c >= ' ' then [c] else ""
  }

  function Escaped(s: string): string {
    if s == "" then "" else EscapedChar(s[0]) + Escaped(s[1..])
  }

  /** The text without its control characters. */
  function Printable(s: string): (r: string)
    ensures |r| <= |s|
  {
    if s == "" then "" else (if s[0] >= ' ' then [s[0]] else "") + Printable(s[1..])
  }

  lemma {:induction false} EscapedSnoc(s: string, n: nat)
    requires n < |s|
    ensures Escaped(s[..n + 1]) == Escaped(s[..n]) + EscapedChar(s[n])
    decreases n
  {
    if n > 0 {
      EscapedSnoc(s[1..], n - 1);
      assert s[..n + 1][1..] == s[1..][..n] && s[..n][1..] == s[1..][..n - 1];
      Joined(EscapedChar(s[0]), Escaped(s[1..][..n - 1]), EscapedChar(s[n]));
    }
  }

  lemma {:induction false} EscapedIsPrintable(s: string)
    ensures forall i :: 0 <= i < |Escaped(s)| ==> Escaped(s)[i] >= ' '
    ensures |Escaped(s)| <= 2 * |s|
  {
    if s != "" {
      EscapedIsPrintable(s[1..]);
    }
  }

  lemma {:induction false} TerminatedText(text: string, rest: string)
    requires forall i :: 0 <= i < |text| ==> text[i] >= ' '
    ensures CString(text + ['\0'] + rest) == text
  {
    var s := text + ['\0'] + rest;
    if text == "" {
      assert s[0] == '\0';
    } else {
      assert s[1..] == text[1..] + ['\0'] + rest;
      TerminatedText(text[1..], rest);
    }
  }

  /**
   json_escape.  `source` is the C string without its NUL; `taken` says how much
   of it the result stands for.  It stops early only when the next character
   might not fit.
   */
  method JsonEscape(source: string, destination: array<char>) returns (ghost taken: nat)
    modifies destination
    ensures taken <= |source|
    ensures destination.Length > 0 ==> CString(destination[..]) == Escaped(source[..taken])
    ensures destination.Length > 0 && taken < |source| ==>
              |Escaped(source[..taken])| + Max(1, |EscapedChar(source[taken])|) >= destination.Length
  {
    taken := 0;
    if destination.Length == 0 {
      return;
    }
    var size := destination.Length;
    var i, output := 0, 0;
    while i < |source| && output + 1 < size
      invariant i <= |source| && output < size
      invariant destination[..output] == Escaped(source[..i])
    {
      var value := source[i];
      EscapedSnoc(source, i);
      ghost var done := destination[..output];
      if NeedsEscape(value) {
        if output + 2 >= size {
          break;
        }
        destination[output] := '\\';
        destination[output + 1] := value;
        output := output + 2;
        assert destination[..output] == done + ['\\', value];
      } else if value >= ' ' {
        destination[output] := value;
        output := output + 1;
        assert destination[..output] == done + [value];
      }
      i := i + 1;
    }
    taken := i;
    ghost var text := destination[..output];
    destination[output] := '\0';
    EscapedIsPrintable(source[..i]);
    assert destination[..] == text + ['\0'] + destination[output + 1..];
    TerminatedText(text, destination[output + 1..]);
  }

  /** The escaper writes what a quoting writer of JSON strings would. */
  lemma {:induction false} EscapedIsQuoted(s: string)
    ensures Escaped(s) == BodyText(Quoted(Printable(s)))
  {
    if s != "" {
      EscapedIsQuoted(s[1..]);
      if s[0] >= ' ' {
        var p := Printable(s);
        assert p == [s[0]] + Printable(s[1..]);
        assert p[0] == s[0] && p[1..] == Printable(s[1..]);
      } else {
        assert Printable(s) == Printable(s[1..]);
        assert Escaped(s) == Escaped(s[1..]);
      }
    }
  }

  /** parse_string undoes json_escape, up to the dropped control characters. */
  lemma EscapeReadsBack(s: string, size: nat, rest: string)
    requires |Printable(s)| < size
    ensures ReadString(['"'] + (Escaped(s) + ['"']) + rest, size) == Got(Printable(s), rest)
  {
    var chunks := Quoted(Printable(s));
    EscapedIsQuoted(s);
    QuotedValue(Printable(s));
    ReadStringBack("", chunks, size, rest);
    assert "" + QuotedText(chunks) == QuotedText(chunks);
  }

  lemma {:induction false} BodyTooLong(chunks: seq<Chunk>, done: string, size: nat, rest: string)
    requires ChunksOk(chunks) && |done| < size <= |done| + |chunks|
    ensures ReadBody(BodyText(chunks) + ['"'] + rest, done, size) == Fail
    decreases chunks
  {
    var k, others := chunks[0], BodyText(chunks[1..]);
    Joined(ChunkText(k), others, ['"']);
    Joined(ChunkText(k), others + ['"'], rest);
    if |done| + 1 < size {
      ReadChunk(k, done, size, others + ['"'] + rest);
      BodyTooLong(chunks[1..], done + [ChunkValue(k)], size, rest);
    } else {
      match k {
        case Plain(c) =>
          Behind(c, others + ['"'] + rest);
        case Escape(e) =>
          var s := ChunkText(k) + (others + ['"'] + rest);
          assert s[0] == '\\' && s[1] == e;
      }
    }
  }

  /** And exactly when the reader's buffer is large enough. */
  lemma EscapeReadsBackIff(s: string, size: nat, rest: string)
    requires size > 0
    ensures ReadString(['"'] + (Escaped(s) + ['"']) + rest, size)
         == if |Printable(s)| < size then Got(Printable(s), rest) else Fail
  {
    if |Printable(s)| < size {
      EscapeReadsBack(s, size, rest);
    } else {
      var chunks := Quoted(Printable(s));
      EscapedIsQuoted(s);
      Joined(['"'], BodyText(chunks) + ['"'], rest);
      ReadQuoted("", BodyText(chunks) + ['"'] + rest, size);
      assert "" + (['"'] + (BodyText(chunks) + ['"'] + rest)) == ['"'] + (BodyText(chunks) + ['"'] + rest);
      BodyTooLong(chunks, "", size, rest);
    }
  }

  /** A buffer of more than twice the source takes all of it. */
  lemma NothingTruncated(source: string, taken: nat, size: nat)
    requires taken <= |source| && 2 * |source| < size
    requires taken < |source| ==> |Escaped(source[..taken])| + Max(1, |EscapedChar(source[taken])|) >= size
    ensures taken == |source| && source[..taken] == source
  {
    EscapedIsPrintable(source[..taken]);
  }

  // ------------------------------------------------------------- the document

  function CameraWord(c: CameraState): string {
    match c
    case CameraInitializing => "initializing"
    case CameraActive => "active"
    case CameraUnavailable => "unavailable"
  }

  function LogWord(l: EventLogState): string {
    match l
    case LogInitializing => "initializing"
    case LogDisabled => "disabled"
    case LogHealthy => "ok"
    case LogUnavailable => "unavailable"
  }

  function BoolWord(b: bool): string {
    if b then "true" else "false"
  }

  lemma Nonnegative(x: real, y: real)
    requires x >= 0.0 && y >= 0.0
    ensures x * y >= 0.0
  {
  }

  /** x in parts of 1 / scale, ties to even as printf rounds them. */
  function Units(x: real, scale: nat): (units: nat)
    requires x >= 0.0
    ensures units as real <= x * scale as real + 0.5
  {
    Nonnegative(x, scale as real);
    HalfEven(x * scale as real)
  }

  function UnitsText(units: nat, scale: nat, decimals: nat): (text: string)
    requires scale > 0
    ensures |text| == |Numeral(units / scale)| + 1 + decimals
  {
    Numeral(units / scale) + ['.'] + Padded(units % scale, decimals)
  }

  /** `%.1f` to `%.6f`. */
  function FixedPoint(x: real, decimals: nat): string {
    if x < 0.0 then ['-'] + UnitsText(Units(-x, Pow10(decimals)), Pow10(decimals), decimals)
    else UnitsText(Units(x, Pow10(decimals)), Pow10(decimals), decimals)
  }

  function ErrorText(s: StatusSnapshot): string {
    if s.lastError == "" then "null" else ['"'] + (Escaped(s.lastError) + ['"'])
  }

  function ErrorAtText(s: StatusSnapshot): string {
    if s.lastErrorAtMs == 0 then "null" else Numeral(s.lastErrorAtMs)
  }

  /** Everything in front of the device name. */
  function StatusHead(s: StatusSnapshot): string {
    "{\"ok\":" + BoolWord(!s.degraded) + ",\"degraded\":" + BoolWord(s.degraded) + ",\"health\":\""
    + (if s.degraded then "degraded" else "ok") + "\",\"camera_state\":\"" + CameraWord(s.camera)
    + "\",\"event_log_state\":\"" + LogWord(s.log) + "\",\"device\":"
  }

  /** What stands between the device name and the last error. */
  function StatusMiddle(s: StatusSnapshot): string {
    CameraNumbers(s) + MotionNumbers(s) + ",\"last_error\":"
  }

  function CameraNumbers(s: StatusSnapshot): string {
    ",\"width\":" + Numeral(s.width) + ",\"height\":" + Numeral(s.height) + ",\"fps\":" + FixedPoint(s.fps, 1)
    + ",\"frame_count\":" + Numeral(s.frameCount) + ",\"client_count\":" + Numeral(s.clients)
  }

  function MotionNumbers(s: StatusSnapshot): string {
    ",\"motion_enabled\":" + BoolWord(s.motion.enabled) + ",\"motion_state\":" + BoolWord(s.motion.detected)
    + ",\"motion_score\":" + FixedPoint(s.motion.score, 6)
    + ",\"motion_sample_fps\":" + FixedPoint(s.motion.sampleFps, 2)
    + ",\"event_count\":" + Numeral(s.motion.eventCount)
  }

  function StatusTail(errorAt: string, uptime: real): string {
    ",\"last_error_at\":" + errorAt + ",\"uptime\":" + FixedPoint(uptime, 3) + "}\n"
  }

  function StatusEnd(s: StatusSnapshot): string {
    StatusTail(ErrorAtText(s), s.uptime)
  }

  /** The whole document, as it would be without any buffer. */
  function StatusLine(s: StatusSnapshot): string {
    StatusHead(s) + (['"'] + (Escaped(s.device) + ['"'])) + StatusMiddle(s) + ErrorText(s) + StatusEnd(s)
  }

  /** The texts of a snapshot fit its char arrays, as copy_text leaves them. */
  predicate HeldTexts(s: StatusSnapshot) {
    |s.device| < DEVICE_MAX && |s.lastError| < ERROR_MAX
  }

  /** Whatever the state holds, its snapshots hold texts of that size. */
  lemma SnapshotsHoldTexts(a: AppView, nowNs: Uint64)
    ensures HeldTexts(Snapshot(a, nowNs))
  {
  }

  lemma ErrorAtShort(s: StatusSnapshot)
    ensures |ErrorAtText(s)| <= 20
  {
    assert Pow10(20) == 100000000000000000000 by { PowerOfTwenty(); }
    NumeralLength(s.lastErrorAtMs, 20);
  }

  lemma PowerOfTwenty()
    ensures Pow10(10) == 10000000000 && Pow10(20) == 100000000000000000000
  {
    assert Pow10(5) == 100000;
    assert Pow10(10) == 10000000000;
    assert Pow10(15) == 1000000000000000;
    assert Pow10(20) == 100000000000000000000;
  }

  /** The local buffers of status_json_format: no text in them is cut short. */
  method StatusTexts(s: StatusSnapshot) returns (device: string, errorJson: string, errorAtJson: string)
    requires HeldTexts(s)
    ensures device == Escaped(s.device) && errorJson == ErrorText(s) && errorAtJson == ErrorAtText(s)
  {
    var deviceBuffer := new char[2 * DEVICE_MAX];
    var escapedError := new char[2 * ERROR_MAX];
    ghost var taken := JsonEscape(s.device, deviceBuffer);
    NothingTruncated(s.device, taken, 2 * DEVICE_MAX);
    taken := JsonEscape(s.lastError, escapedError);
    NothingTruncated(s.lastError, taken, 2 * ERROR_MAX);
    EscapedIsPrintable(s.lastError);

    device, errorJson, errorAtJson := CString(deviceBuffer[..]), "null", "null";
    if s.lastError != "" {
      errorJson := CopyText(2 * ERROR_MAX + 3, ['"'] + (CString(escapedError[..]) + ['"']));
    }
    if s.lastErrorAtMs != 0 {
      ErrorAtShort(s);
      errorAtJson := CopyText(32, Numeral(s.lastErrorAtMs));
    }
  }

  /**
   status_json_format: the document holds the whole escaped texts, and only
   `capacity` can be too small.
   */
  method StatusJsonFormat(s: StatusSnapshot, capacity: nat) returns (length: int, destination: string)
    requires HeldTexts(s) && capacity > 0
    ensures if |StatusLine(s)| < capacity
            then length == |StatusLine(s)| && destination == StatusLine(s)
            else length == -1 && destination == ""
  {
    var device, errorJson, errorAtJson := StatusTexts(s);
    var line := StatusHead(s) + (['"'] + (device + ['"'])) + StatusMiddle(s) + errorJson
      + StatusTail(errorAtJson, s.uptime);
    if |line| >= capacity {
      return -1, "";
    }
    return |line|, line;
  }

  /** What follows the device name in the document. */
  function AfterDevice(s: StatusSnapshot): string {
    StatusMiddle(s) + ErrorText(s) + StatusEnd(s)
  }

  /** The device name and the error of any state can be read out of its document by the daemon's own parser. */
  lemma StatusReadsBack(a: AppView, nowNs: Uint64)
    ensures TextsReadBack(Snapshot(a, nowNs))
  {
    SnapshotsHoldTexts(a, nowNs);
    HeldTextsReadBack(Snapshot(a, nowNs));
  }

  /** The parser finds the device behind the head, and the error or null behind the middle. */
  predicate TextsReadBack(s: StatusSnapshot) {
    && StatusHead(s) <= StatusLine(s)
    && ReadString(StatusLine(s)[|StatusHead(s)|..], DEVICE_MAX) == Got(Printable(s.device), AfterDevice(s))
    && (s.lastError != "" ==>
          ReadString(AfterDevice(s)[|StatusMiddle(s)|..], ERROR_MAX) == Got(Printable(s.lastError), StatusEnd(s)))
    && (s.lastError == "" ==> LiteralRest(AfterDevice(s)[|StatusMiddle(s)|..]) == Got((), StatusEnd(s)))
  }

  lemma HeldTextsReadBack(s: StatusSnapshot)
    requires HeldTexts(s)
    ensures TextsReadBack(s)
  {
    var head, middle, error, tail := StatusHead(s), StatusMiddle(s), ErrorText(s), StatusEnd(s);
    var device := ['"'] + (Escaped(s.device) + ['"']);
    LineLayout(head, device, middle, error, tail);
    EscapeReadsBack(s.device, DEVICE_MAX, middle + error + tail);
    Joined(middle, error, tail);
    assert (middle + (error + tail))[|middle|..] == error + tail;
    if s.lastError != "" {
      EscapeReadsBack(s.lastError, ERROR_MAX, tail);
    } else {
      NullReadsBack(tail);
    }
  }

  lemma LineLayout(a: string, b: string, c: string, d: string, e: string)
    ensures a + b + c + d + e == a + (b + (c + d + e))
    ensures a <= a + b + c + d + e && (a + b + c + d + e)[|a|..] == b + (c + d + e)
  {
  }

  lemma NullReadsBack(rest: string)
    ensures LiteralRest("null" + rest) == Got((), rest)
  {
    ReadWordBack("null", rest);
  }

  // -------------------------------------------------------------- its size

  const STATUS_BODY := 1280

  lemma UnitsTextLength(units: nat, scale: nat, decimals: nat, digits: nat)
    requires digits > 0 && scale > 0 && units / scale < Pow10(digits)
    ensures |UnitsText(units, scale, decimals)| <= digits + 1 + decimals
  {
    NumeralLength(units / scale, digits);
  }

  lemma UnitsFit(x: real, scale: nat, bound: nat)
    requires scale > 0 && 0.0 <= x && x + 1.0 <= bound as real
    ensures Units(x, scale) / scale < bound
  {
    UnitsBelow(x, Units(x, scale), scale, bound);
  }

  lemma FixedPointLength(x: real, decimals: nat, digits: nat)
    requires digits > 0 && 0.0 <= x && x + 1.0 <= Pow10(digits) as real
    ensures |FixedPoint(x, decimals)| <= digits + 1 + decimals
  {
    UnitsFit(x, Pow10(decimals), Pow10(digits));
    UnitsTextLength(Units(x, Pow10(decimals)), Pow10(decimals), decimals, digits);
  }

  lemma Cancelled(a: nat, b: nat, scale: nat)
    requires a * scale < b * scale
    ensures a < b
  {
    if a >= b {
      Detector.MulMonotone(b, a, scale);
    }
  }

  lemma RealProduct(x: real, y: real, z: real)
    requires x + 1.0 <= y && z >= 0.0
    ensures x * z + z <= y * z
  {
  }

  lemma UnitsBelow(x: real, units: nat, scale: nat, bound: nat)
    requires scale > 0 && 0.0 <= x && x + 1.0 <= bound as real && units as real <= x * scale as real + 0.5
    ensures units / scale < bound
  {
    RealProduct(x, bound as real, scale as real);
    assert bound as real * scale as real == (bound * scale) as real;
    assert units < bound * scale;
    assert units / scale * scale <= units;
    Cancelled(units / scale, bound, scale);
  }

  /** The largest rate the meter can show: 2^64 - 1 frames in a nanosecond. */
  const FPS_MAX := 18446744073709551615000000000.0
  const SAMPLE_FPS_MAX := 1000000000.0

  /** What every state of the daemon keeps to; the thread counter is an unsigned int. */
  predicate WithinTypes(a: AppView) {
    && a.clients <= UINT32_MAX
    && 0.0 <= a.meter.fps <= FPS_MAX
    && 0.0 <= a.motion.score <= 1.0 && 0.0 <= a.motion.sampleFps <= SAMPLE_FPS_MAX
  }

  lemma HeadLength(s: StatusSnapshot)
    ensures |StatusHead(s)| <= 128
  {
  }

  lemma CameraLength(a: AppView, nowNs: Uint64)
    requires WithinTypes(a)
    ensures |CameraNumbers(Snapshot(a, nowNs))| <= 139
  {
    PowerOfTwenty();
    NumeralLength(a.meter.width, 10);
    NumeralLength(a.meter.height, 10);
    NumeralLength(a.meter.frameCount, 20);
    NumeralLength(a.clients, 10);
    FpsLength(a.meter.fps);
  }

  lemma FpsLength(fps: real)
    requires 0.0 <= fps <= FPS_MAX
    ensures |FixedPoint(fps, 1)| <= 31
  {
    PowerOfTwenty();
    assert Pow10(25) == 10000000000000000000000000;
    assert Pow10(29) == 100000000000000000000000000000;
    FixedPointLength(fps, 1, 29);
  }

  lemma MotionLength(a: AppView, nowNs: Uint64)
    requires WithinTypes(a)
    ensures |MotionNumbers(Snapshot(a, nowNs))| <= 160
  {
    PowerOfTwenty();
    NumeralLength(a.motion.eventCount, 20);
    FixedPointLength(a.motion.score, 6, 10);
    FixedPointLength(a.motion.sampleFps, 2, 10);
  }

  /** 64 bits of nanoseconds are less than 10^11 seconds. */
  lemma UptimeLength(startedNs: Uint64, nowNs: Uint64)
    ensures |FixedPoint(SecondsBetween(startedNs, nowNs), 3)| <= 15
  {
    assert Pow10(11) == 100000000000 by { PowerOfTwenty(); }
    FixedPointLength(SecondsBetween(startedNs, nowNs), 3, 11);
  }

  lemma TailLength(a: AppView, nowNs: Uint64)
    ensures |StatusEnd(Snapshot(a, nowNs))| <= 70
  {
    ErrorAtShort(Snapshot(a, nowNs));
    UptimeLength(a.meter.startedNs, nowNs);
  }

  /** The server's 1280 bytes hold the document of every such state, whatever its device and error say. */
  lemma StatusFits(a: AppView, nowNs: Uint64)
    requires WithinTypes(a)
    ensures |StatusLine(Snapshot(a, nowNs))| < STATUS_BODY
  {
    var s := Snapshot(a, nowNs);
    SnapshotsHoldTexts(a, nowNs);
    HeadLength(s);
    CameraLength(a, nowNs);
    MotionLength(a, nowNs);
    TailLength(a, nowNs);
    EscapedIsPrintable(s.device);
    EscapedIsPrintable(s.lastError);
    LineLength(s);
  }

  lemma LineLength(s: StatusSnapshot)
    ensures |StatusLine(s)| <= |StatusHead(s)| + |Escaped(s.device)| + 2 + |CameraNumbers(s)| + |MotionNumbers(s)| + 14
                               + |Escaped(s.lastError)| + 4 + |StatusEnd(s)|
  {
  }

  /** handle_status: one snapshot, one document, sent whole or not at all. */
  method HandleStatus(app: AppState, nowNs: Uint64) returns (responds: bool, body: string)
    requires app.Valid()
    ensures responds == (|StatusLine(Snapshot(app.View(), nowNs))| < STATUS_BODY)
    ensures responds ==> body == StatusLine(Snapshot(app.View(), nowNs))
    ensures WithinTypes(app.View()) ==> responds
  {
    SnapshotsHoldTexts(app.View(), nowNs);
    var snapshot := app.TakeSnapshot(nowNs);
    var length: int;
    length, body := StatusJsonFormat(snapshot, STATUS_BODY);
    responds := length > 0;
    if WithinTypes(app.View()) {
      StatusFits(app.View(), nowNs);
    }
  }
}
