/** The status document member by member, and its numbers read back. */
module StatusText {
  import opened CTypes
  import opened Decimal
  import opened SharedState
  import opened StatusJson

  // --------------------------------------------------------------- the members

  function Flag(b: bool): string {
    if b then "true" else "false"
  }

  function CameraName(c: CameraState): string {
    if c == CameraActive then "active" else if c == CameraUnavailable then "unavailable" else "initializing"
  }

  function LogName(l: EventLogState): string {
    if l == LogHealthy then "ok" else if l == LogUnavailable then "unavailable"
    else if l == LogDisabled then "disabled" else "initializing"
  }

  /** The whole document, its members in order. */
  function Spelled(s: StatusSnapshot): string {
    "{\"ok\":" + (Flag(!s.degraded)
    + (",\"degraded\":" + (Flag(s.degraded)
    + (",\"health\":\"" + ((if s.degraded then "degraded" else "ok")
    + ("\",\"camera_state\":\"" + (CameraName(s.camera)
    + ("\",\"event_log_state\":\"" + (LogName(s.log)
    + ("\",\"device\":" + SpelledFromDevice(s)))))))))))
  }

  function SpelledFromDevice(s: StatusSnapshot): string {
    "\"" + (Escaped(s.device)
    + ("\"" + (",\"width\":" + (Numeral(s.width)
    + (",\"height\":" + (Numeral(s.height)
    + (",\"fps\":" + (FixedPoint(s.fps, 1)
    + (",\"frame_count\":" + (Numeral(s.frameCount)
    + (",\"client_count\":" + (Numeral(s.clients) + SpelledFromMotion(s)))))))))))))
  }

  function SpelledFromMotion(s: StatusSnapshot): string {
    ",\"motion_enabled\":" + (Flag(s.motion.enabled)
    + (",\"motion_state\":" + (Flag(s.motion.detected)
    + (",\"motion_score\":" + (FixedPoint(s.motion.score, 6)
    + (",\"motion_sample_fps\":" + (FixedPoint(s.motion.sampleFps, 2)
    + (",\"event_count\":" + (Numeral(s.motion.eventCount) + SpelledFromError(s))))))))))
  }

  function SpelledFromError(s: StatusSnapshot): string {
    ",\"last_error\":" + ((if s.lastError == "" then "null" else "\"" + Escaped(s.lastError) + "\"")
    + (",\"last_error_at\":" + ((if s.lastErrorAtMs == 0 then "null" else Numeral(s.lastErrorAtMs))
    + (",\"uptime\":" + (FixedPoint(s.uptime, 3) + "}\n")))))
  }

  lemma Chain2(a: string, b: string, t: string)
    ensures a + b + t == a + (b + t)
  {
  }

  lemma Chain4(a: string, b: string, c: string, d: string, t: string)
    ensures a + b + c + d + t == a + (b + (c + (d + t)))
  {
    Chain2(a + b + c, d, t);
    Chain2(a + b, c, d + t);
    Chain2(a, b, c + (d + t));
  }

  lemma Chain10(a: string, b: string, c: string, d: string, e: string, f: string, g: string, h: string, i: string,
                j: string, t: string)
    ensures a + b + c + d + e + f + g + h + i + j + t
         == a + (b + (c + (d + (e + (f + (g + (h + (i + (j + t)))))))))
  {
    Chain4(a + b + c + d + e + f, g, h, i, j + t);
    Chain2(a + b + c + d + e + f + g + h + i, j, t);
    var rest := g + (h + (i + (j + t)));
    Chain4(a + b, c, d, e, f + rest);
    Chain2(a + b + c + d + e, f, rest);
    Chain2(a, b, c + (d + (e + (f + rest))));
  }

  lemma HeadSpelled(s: StatusSnapshot, t: string)
    ensures StatusHead(s) + t
         == "{\"ok\":" + (Flag(!s.degraded)
            + (",\"degraded\":" + (Flag(s.degraded)
            + (",\"health\":\"" + ((if s.degraded then "degraded" else "ok")
            + ("\",\"camera_state\":\"" + (CameraName(s.camera)
            + ("\",\"event_log_state\":\"" + (LogName(s.log)
            + ("\",\"device\":" + t))))))))))
  {
    var a, b := "{\"ok\":", BoolWord(!s.degraded);
    var c, d := ",\"degraded\":", BoolWord(s.degraded);
    var e, f := ",\"health\":\"", if s.degraded then "degraded" else "ok";
    var g, h := "\",\"camera_state\":\"", CameraWord(s.camera);
    var i, j, k := "\",\"event_log_state\":\"", LogWord(s.log), "\",\"device\":";
    Chain2(a + b + c + d + e + f + g + h + i + j, k, t);
    Chain10(a, b, c, d, e, f, g, h, i, j, k + t);
    HeadPieces(s, a, b, c, d, e, f, g, h, i, j, k);
  }

  lemma HeadPieces(s: StatusSnapshot, a: string, b: string, c: string, d: string, e: string, f: string, g: string,
                   h: string, i: string, j: string, k: string)
    requires a == "{\"ok\":" && b == BoolWord(!s.degraded) && c == ",\"degraded\":" && d == BoolWord(s.degraded)
    requires e == ",\"health\":\"" && f == (if s.degraded then "degraded" else "ok")
    requires g == "\",\"camera_state\":\"" && h == CameraWord(s.camera)
    requires i == "\",\"event_log_state\":\"" && j == LogWord(s.log) && k == "\",\"device\":"
    ensures StatusHead(s) == a + b + c + d + e + f + g + h + i + j + k
  {
    Chain2(a + b + c + d, e, f);
  }

  lemma CameraSpelled(s: StatusSnapshot, t: string)
    ensures CameraNumbers(s) + t
         == ",\"width\":" + (Numeral(s.width)
            + (",\"height\":" + (Numeral(s.height)
            + (",\"fps\":" + (FixedPoint(s.fps, 1)
            + (",\"frame_count\":" + (Numeral(s.frameCount)
            + (",\"client_count\":" + (Numeral(s.clients) + t)))))))))
  {
    Chain10(",\"width\":", Numeral(s.width), ",\"height\":", Numeral(s.height), ",\"fps\":", FixedPoint(s.fps, 1),
            ",\"frame_count\":", Numeral(s.frameCount), ",\"client_count\":", Numeral(s.clients), t);
  }

  lemma MotionSpelled(s: StatusSnapshot, t: string)
    ensures MotionNumbers(s) + t
         == ",\"motion_enabled\":" + (Flag(s.motion.enabled)
            + (",\"motion_state\":" + (Flag(s.motion.detected)
            + (",\"motion_score\":" + (FixedPoint(s.motion.score, 6)
            + (",\"motion_sample_fps\":" + (FixedPoint(s.motion.sampleFps, 2)
            + (",\"event_count\":" + (Numeral(s.motion.eventCount) + t)))))))))
  {
    Chain10(",\"motion_enabled\":", BoolWord(s.motion.enabled), ",\"motion_state\":", BoolWord(s.motion.detected),
            ",\"motion_score\":", FixedPoint(s.motion.score, 6),
            ",\"motion_sample_fps\":", FixedPoint(s.motion.sampleFps, 2),
            ",\"event_count\":", Numeral(s.motion.eventCount), t);
  }

  lemma ErrorSpelled(s: StatusSnapshot)
    ensures ",\"last_error\":" + (ErrorText(s) + StatusEnd(s)) == SpelledFromError(s)
  {
    var up, uptime := ",\"uptime\":", FixedPoint(s.uptime, 3);
    Chain4(",\"last_error_at\":", ErrorAtText(s), up, uptime, "}\n");
    if s.lastError != "" {
      assert "\"" + Escaped(s.lastError) + "\"" == ['"'] + (Escaped(s.lastError) + ['"']);
    }
  }

  lemma DeviceSpelled(device: string, t: string)
    ensures (['"'] + (device + ['"'])) + t == "\"" + (device + ("\"" + t))
  {
    Chain2("\"", device + "\"", t);
    Chain2(device, "\"", t);
  }

  /** The pieces of the document, joined from the back. */
  lemma LineFromBack(head: string, device: string, camera: string, motion: string, caption: string, error: string,
                     end: string)
    ensures head + device + (camera + motion + caption) + error + end
         == head + (device + (camera + (motion + (caption + (error + end)))))
  {
    Chain2(camera, motion, caption);
    Chain4(head, device, camera + motion + caption, error, end);
    Chain2(camera + motion, caption, error + end);
    Chain2(camera, motion, caption + (error + end));
  }

  /** Every member of the status document, its name and its value, for any state at any time. */
  lemma StatusSpelled(s: StatusSnapshot)
    ensures StatusLine(s) == Spelled(s)
  {
    var device := ['"'] + (Escaped(s.device) + ['"']);
    LineFromBack(StatusHead(s), device, CameraNumbers(s), MotionNumbers(s), ",\"last_error\":", ErrorText(s),
                 StatusEnd(s));
    ErrorSpelled(s);
    MotionSpelled(s, SpelledFromError(s));
    CameraSpelled(s, SpelledFromMotion(s));
    DeviceSpelled(Escaped(s.device), CameraNumbers(s) + SpelledFromMotion(s));
    HeadSpelled(s, SpelledFromDevice(s));
  }

  // --------------------------------------------------------------- the numbers

  datatype Parts = Parts(whole: nat, fraction: nat)

  /** The parts of a printed number before and behind its point. */
  function PartsOf(text: string, decimals: nat): Option<Parts> {
    var k := DigitRun(text);
    if k == 0 || |text| != k + 1 + decimals || text[k] != '.' || !AllDigits(text[k + 1..]) then None
    else Some(Parts(ValueOf(text[..k]), ValueOf(text[k + 1..])))
  }

  lemma PointReadBack(whole: string, part: string)
    requires whole != "" && AllDigits(whole) && AllDigits(part)
    ensures PartsOf(whole + ['.'] + part, |part|) == Some(Parts(ValueOf(whole), ValueOf(part)))
  {
    var t := whole + ['.'] + part;
    Chain2(whole, ['.'], part);
    DigitRunOf(whole, ['.'] + part);
    assert t[..|whole|] == whole && t[|whole|] == '.' && t[|whole| + 1..] == part;
  }

  lemma Split(units: nat, scale: nat)
    requires scale > 0
    ensures units / scale * scale + units % scale == units && units % scale < scale
  {
  }

  lemma NumberReadBack(w: nat, f: nat, decimals: nat)
    requires f < Pow10(decimals)
    ensures PartsOf(Numeral(w) + ['.'] + Padded(f, decimals), decimals) == Some(Parts(w, f))
  {
    NumeralValue(w);
    PaddedValue(f, decimals);
    PointReadBack(Numeral(w), Padded(f, decimals));
  }

  lemma UnitsReadBack(units: nat, scale: nat, decimals: nat, w: nat, f: nat)
    requires scale > 0 && scale == Pow10(decimals) && w == units / scale && f == units % scale
    ensures PartsOf(UnitsText(units, scale, decimals), decimals) == Some(Parts(w, f))
  {
    NumberReadBack(w, f, decimals);
  }

  lemma Divide(units: nat, scale: nat) returns (w: nat, f: nat)
    requires scale > 0
    ensures w == units / scale && f == units % scale && w * scale + f == units
  {
    w, f := units / scale, units % scale;
    Split(units, scale);
  }

  lemma PartsAre(units: nat, scale: nat, decimals: nat) returns (w: nat, f: nat)
    requires scale > 0 && scale == Pow10(decimals)
    ensures PartsOf(UnitsText(units, scale, decimals), decimals) == Some(Parts(w, f)) && w * scale + f == units
  {
    w, f := Divide(units, scale);
    UnitsReadBack(units, scale, decimals, w, f);
  }

  lemma NearestUnits(x: real, scale: nat)
    requires x >= 0.0
    ensures x * scale as real - 0.5 <= Units(x, scale) as real <= x * scale as real + 0.5
  {
    Nonnegative(x, scale as real);
  }

  lemma PrintedUnits(x: real, scale: nat, decimals: nat)
    requires x >= 0.0 && scale == Pow10(decimals)
    ensures FixedPoint(x, decimals) == UnitsText(Units(x, scale), scale, decimals)
  {
  }

  /** A printed number reads back as the nearest multiple of its last decimal. */
  lemma PrintedIsNearest(x: real, scale: nat, decimals: nat) returns (units: nat, w: nat, f: nat)
    requires x >= 0.0 && scale > 0 && scale == Pow10(decimals)
    ensures PartsOf(FixedPoint(x, decimals), decimals) == Some(Parts(w, f)) && w * scale + f == units
    ensures x * scale as real - 0.5 <= units as real <= x * scale as real + 0.5
  {
    units := Units(x, scale);
    NearestUnits(x, scale);
    PrintedUnits(x, scale, decimals);
    w, f := PartsAre(units, scale, decimals);
  }
}
