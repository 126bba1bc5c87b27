/**
 The configuration file parser (app/daemon/config.c).

 `JsonCursor` carries the C code's cursor; each of its methods is proved to read
 what the function of the remaining text says.  The functions are then proved to
 undo every way of writing a configuration down.

 A char stands for one byte.  `Libc` holds what the target's C library decides:
 the range of long, and strtod, of which only plain decimals are known.
 */
module ConfigParser {
  import opened CTypes
  import opened Config
  import opened Decimal

  datatype Read<+T> = Fail | Got(value: T, rest: string)

  datatype Libc = Libc(longMax: nat, strtod: string -> Option<Converted>)

  /** What strtod makes of a text: a value, and how many characters it took. */
  datatype Converted = Converted(value: real, length: nat)

  const KEY_BUFFER := 64
  const SCRATCH_BUFFER := 512
  const UINT_MAX := 0xFFFF_FFFF
  const INT_MAX := 0x7FFF_FFFF

  // ------------------------------------------------------------------- tokens

  /** isspace in the C locale. */
  predicate IsSpace(c: char) {
    c == ' ' || c == '\t' || c == '\n' || c == '\U{0B}' || c == '\U{0C}' || c == '\r'
  }

  function SkipSpaces(s: string): (rest: string)
    ensures |rest| <= |s|
    ensures rest == "" || !IsSpace(rest[0])
  {
    if s == "" || !IsSpace(s[0]) then s else SkipSpaces(s[1..])
  }

  function ReadChar(s: string, expected: char): (r: Read<char>)
    ensures r.Got? ==> |r.rest| < |s|
  {
    var t := SkipSpaces(s);
    if t == "" || t[0] != expected then Fail else Got(expected, t[1..])
  }

  /** The character an escape stands for. */
  function Unescaped(c: char): Option<char> {
    match c
    case '"' => Some('"')
    case '\\' => Some('\\')
    case '/' => Some('/')
    case 'b' => Some('\U{08}')
    case 'f' => Some('\U{0C}')
    case 'n' => Some('\n')
    case 'r' => Some('\r')
    case 't' => Some('\t')
    case _ => None
  }

  /** The rest of a string after its opening quote, into a buffer of `size` that already holds `done`. */
  function ReadBody(s: string, done: string, size: nat): (r: Read<string>)
    ensures r.Got? ==> |r.rest| < |s|
    ensures r.Got? && |done| < size ==> |r.value| < size
    decreases |s|
  {
    if s == "" then Fail
    else if s[0] == '"' then Got(done, s[1..])
    else if s[0] == '\\' then
      if |s| < 2 then Fail
      else
        match Unescaped(s[1])
        case None => Fail
        case Some(c) => if |done| + 1 >= size then Fail else ReadBody(s[2..], done + [c], size)
    else if |done| + 1 >= size then Fail
    else ReadBody(s[1..], done + [s[0]], size)
  }

  function ReadString(s: string, size: nat): (r: Read<string>)
    ensures r.Got? ==> |r.rest| < |s|
    ensures r.Got? && size > 0 ==> |r.value| < size
  {
    var t := SkipSpaces(s);
    if t == "" || t[0] != '"' then Fail else ReadBody(t[1..], "", size)
  }

  predicate IsSign(c: char) {
    c == '-' || c == '+'
  }

  /** strtol, base 10, behind any white space. */
  function ConvertInteger(libc: Libc, t: string): (r: Read<int>)
    requires t != ""
    ensures r.Got? ==> |r.rest| < |t|
  {
    var digits := if IsSign(t[0]) then t[1..] else t;
    var k := DigitRun(digits);
    if k == 0 then Fail
    else
      var n: int := Signed(t[0] == '-', ValueOf(digits[..k]));
      if InLong(libc, n) then Got(n, digits[k..]) else Fail
  }

  function ReadInteger(libc: Libc, s: string): (r: Read<int>)
    ensures r.Got? ==> |r.rest| < |s|
  {
    var t := SkipSpaces(s);
    if t == "" then Fail else ConvertInteger(libc, t)
  }

  function Signed(negative: bool, magnitude: nat): int {
    var m: int := magnitude;
    if negative then -m else m
  }

  predicate InLong(libc: Libc, n: int) {
    -(libc.longMax as int) - 1 <= n <= libc.longMax
  }

  /** strtod, as long as it stops inside the text. */
  function ReadNumber(libc: Libc, s: string): (r: Read<real>)
    ensures r.Got? ==> |r.rest| < |s|
  {
    var t := SkipSpaces(s);
    if t == "" then Fail
    else
      match libc.strtod(t)
      case None => Fail
      case Some(Converted(v, n)) => if 0 < n <= |t| then Got(v, t[n..]) else Fail
  }

  function ReadBoolean(s: string): (r: Read<bool>)
    ensures r.Got? ==> |r.rest| < |s|
  {
    var t := SkipSpaces(s);
    if "true" <= t then Got(true, t[4..]) else if "false" <= t then Got(false, t[5..]) else Fail
  }

  /** The value of a key nobody knows: any scalar, read and dropped. */
  function SkipValue(libc: Libc, s: string): (r: Read<()>)
    ensures r.Got? ==> |r.rest| < |s|
  {
    var t := SkipSpaces(s);
    if t == "" then Fail
    else if t[0] == '"' then
      match ReadString(t, SCRATCH_BUFFER) case Fail => Fail case Got(_, rest) => Got((), rest)
    else if t[0] == '-' || IsDigit(t[0]) then
      match ReadNumber(libc, t) case Fail => Fail case Got(_, rest) => Got((), rest)
    else LiteralRest(t)
  }

  const LITERALS := ["true", "false", "null"]

  function LiteralRest(t: string): (r: Read<()>)
    ensures r.Got? ==> |r.rest| < |t|
  {
    if "true" <= t then Got((), t[4..])
    else if "false" <= t then Got((), t[5..])
    else if "null" <= t then Got((), t[4..])
    else Fail
  }

  // ------------------------------------------------------------------- members

  datatype NumberKey =
    Width | Height | FpsLimit | JpegQuality | HttpPort | SampleFps | ScaleDenom | DeltaThreshold | CooldownMs

  datatype Key = Device | EventLog | MotionEnabled | RatioThreshold | Number(number: NumberKey) | Unknown

  /** strcmp against the known names. */
  function KeyNamed(s: string): Key {
    if s == "device" then Device
    else if s == "event_log" then EventLog
    else if s == "motion_enabled" then MotionEnabled
    else if s == "motion_changed_ratio_threshold" then RatioThreshold
    else if s == "width" then Number(Width)
    else if s == "height" then Number(Height)
    else if s == "fps_limit" then Number(FpsLimit)
    else if s == "jpeg_quality" then Number(JpegQuality)
    else if s == "http_port" then Number(HttpPort)
    else if s == "motion_sample_fps" then Number(SampleFps)
    else if s == "motion_jpeg_scale_denom" then Number(ScaleDenom)
    else if s == "motion_pixel_delta_threshold" then Number(DeltaThreshold)
    else if s == "motion_cooldown_ms" then Number(CooldownMs)
    else Unknown
  }

  /** The C string in a buffer: what comes before the first NUL. */
  function CString(s: string): string {
    if s == "" || s[0] == '\0' then "" else [s[0]] + CString(s[1..])
  }

  predicate IntegerFitsField(key: NumberKey, value: int) {
    if key == HttpPort then -INT_MAX - 1 <= value <= INT_MAX else 0 <= value <= UINT_MAX
  }

  function SetNumber(c: SenseConfig, key: NumberKey, value: int): SenseConfig
    requires IntegerFitsField(key, value)
  {
    match key
    case Width => c.(width := value)
    case Height => c.(height := value)
    case FpsLimit => c.(fpsLimit := value)
    case JpegQuality => c.(jpegQuality := value)
    case HttpPort => c.(httpPort := value)
    case SampleFps => c.(motionSampleFps := value)
    case ScaleDenom => c.(motionJpegScaleDenom := value)
    case DeltaThreshold => c.(motionPixelDeltaThreshold := value)
    case CooldownMs => c.(motionCooldownMs := value)
  }

  /** The value after `key:`, stored in the configuration. */
  function ReadValue(libc: Libc, key: Key, s: string, c: SenseConfig): (r: Read<SenseConfig>)
    ensures r.Got? ==> |r.rest| < |s|
  {
    match key
    case Device =>
      (match ReadString(s, DEVICE_BUFFER) case Fail => Fail case Got(v, rest) => Got(c.(device := CString(v)), rest))
    case EventLog =>
      (match ReadString(s, EVENT_PATH_BUFFER)
       case Fail => Fail
       case Got(v, rest) => Got(c.(eventLog := CString(v)), rest))
    case MotionEnabled =>
      (match ReadBoolean(s) case Fail => Fail case Got(v, rest) => Got(c.(motionEnabled := v), rest))
    case RatioThreshold =>
      (match ReadNumber(libc, s) case Fail => Fail case Got(v, rest) => Got(c.(motionChangedRatioThreshold := v), rest))
    case Number(n) =>
      (match ReadInteger(libc, s)
       case Fail => Fail
       case Got(v, rest) => if IntegerFitsField(n, v) then Got(SetNumber(c, n, v), rest) else Fail)
    case Unknown =>
      (match SkipValue(libc, s) case Fail => Fail case Got(_, rest) => Got(c, rest))
  }

  function ReadMember(libc: Libc, s: string, c: SenseConfig): (r: Read<SenseConfig>)
    ensures r.Got? ==> |r.rest| < |s|
  {
    match ReadString(s, KEY_BUFFER)
    case Fail => Fail
    case Got(key, afterKey) =>
      match ReadChar(afterKey, ':')
      case Fail => Fail
      case Got(_, value) => ReadValue(libc, KeyNamed(CString(key)), value, c)
  }

  /** Members up to and including the closing brace. */
  function ReadMembers(libc: Libc, s: string, c: SenseConfig): (r: Read<SenseConfig>)
    ensures r.Got? ==> |r.rest| < |s|
    decreases |s|
  {
    match ReadMember(libc, s, c)
    case Fail => Fail
    case Got(c', rest) => ReadSeparator(libc, SkipSpaces(rest), c')
  }

  /** A comma and more members, or the closing brace. */
  function ReadSeparator(libc: Libc, t: string, c: SenseConfig): (r: Read<SenseConfig>)
    ensures r.Got? ==> |r.rest| < |t|
    decreases |t|
  {
    if t == "" then Fail
    else if t[0] == ',' then ReadMembers(libc, t[1..], c)
    else if t[0] == '}' then Got(c, t[1..])
    else Fail
  }

  /** What follows the opening brace. */
  function ReadObject(libc: Libc, s: string, c: SenseConfig): Read<SenseConfig> {
    var t := SkipSpaces(s);
    if t != "" && t[0] == '}' then Got(c, t[1..]) else ReadMembers(libc, t, c)
  }

  /** parse_config_json: the configuration read over the one given, or none. */
  function ParseConfig(libc: Libc, s: string, c: SenseConfig): Option<SenseConfig> {
    match ReadChar(s, '{')
    case Fail => None
    case Got(_, rest) => Finished(ReadObject(libc, rest, c))
  }

  /** Nothing but white space may follow the object. */
  function Finished(whole: Read<SenseConfig>): Option<SenseConfig> {
    if whole.Got? && SkipSpaces(whole.rest) == "" then Some(whole.value) else None
  }

  // -------------------------------------------------------------------- cursor

  lemma DropMore(text: string, at: nat, more: nat)
    requires at + more <= |text|
    ensures text[at..][more..] == text[at + more..]
    ensures text[at..][..more] == text[at..at + more]
  {
  }

  class JsonCursor {
    const text: string
    const libc: Libc
    var current: nat

    ghost predicate Valid()
      reads this
    {
      current <= |text|
    }

    ghost function Rest(): string
      requires Valid()
      reads this
    {
      text[current..]
    }

    constructor (libc: Libc, text: string)
      ensures Valid() && Rest() == text && this.libc == libc && this.text == text
    {
      this.libc := libc;
      this.text := text;
      current := 0;
    }

    method SkipSpace()
      requires Valid()
      modifies this
      ensures Valid() && Rest() == SkipSpaces(old(Rest()))
    {
      while current < |text| && IsSpace(text[current])
        invariant Valid() && SkipSpaces(Rest()) == SkipSpaces(old(Rest()))
        decreases |text| - current
      {
        DropMore(text, current, 1);
        current := current + 1;
      }
    }

    method Consume(expected: char) returns (ok: bool)
      requires Valid()
      modifies this
      ensures Valid() && ok == ReadChar(old(Rest()), expected).Got?
      ensures ok ==> Rest() == ReadChar(old(Rest()), expected).rest
    {
      SkipSpace();
      if current >= |text| || text[current] != expected {
        return false;
      }
      DropMore(text, current, 1);
      current := current + 1;
      return true;
    }

    method ParseString(size: nat) returns (ok: bool, output: string)
      requires Valid()
      modifies this
      ensures Valid() && ok == ReadString(old(Rest()), size).Got?
      ensures ok ==> Got(output, Rest()) == ReadString(old(Rest()), size)
    {
      output := "";
      SkipSpace();
      if current >= |text| || text[current] != '"' {
        return false, output;
      }
      DropMore(text, current, 1);
      current := current + 1;
      ok, output := ParseBody(size);
    }

    /** The loop of parse_string, behind the opening quote. */
    method ParseBody(size: nat) returns (ok: bool, output: string)
      requires Valid()
      modifies this
      ensures Valid() && ok == ReadBody(old(Rest()), "", size).Got?
      ensures ok ==> Got(output, Rest()) == ReadBody(old(Rest()), "", size)
    {
      output := "";
      ghost var answer := ReadBody(Rest(), "", size);
      while current < |text|
        invariant Valid() && ReadBody(Rest(), output, size) == answer
        decreases |text| - current
      {
        ghost var at := current;
        var value := text[current];
        DropMore(text, at, 1);
        current := current + 1;
        if value == '"' {
          return true, output;
        }
        if value == '\\' {
          if current >= |text| {
            return false, output;
          }
          DropMore(text, at, 2);
          var escaped := Unescaped(text[current]);
          current := current + 1;
          if escaped == None {
            return false, output;
          }
          value := escaped.value;
        }
        if size == 0 || |output| + 1 >= size {
          return false, output;
        }
        output := output + [value];
      }
      return false, output;
    }

    method ParseInteger() returns (ok: bool, value: int)
      requires Valid()
      modifies this
      ensures Valid() && ok == ReadInteger(libc, old(Rest())).Got?
      ensures ok ==> Got(value, Rest()) == ReadInteger(libc, old(Rest()))
    {
      SkipSpace();
      if current >= |text| {
        return false, 0;
      }
      ok, value := Strtol();
    }

    method Strtol() returns (ok: bool, value: int)
      requires Valid() && current < |text|
      modifies this
      ensures Valid() && ok == ConvertInteger(libc, old(Rest())).Got?
      ensures ok ==> Got(value, Rest()) == ConvertInteger(libc, old(Rest()))
    {
      var negative := text[current] == '-';
      var start := if IsSign(text[current]) then current + 1 else current;
      DropMore(text, current, 1);
      var digits := text[start..];
      var k := DigitRun(digits);
      if k == 0 {
        return false, 0;
      }
      value := Signed(negative, ValueOf(digits[..k]));
      if !InLong(libc, value) {
        return false, 0;
      }
      DropMore(text, start, k);
      current := start + k;
      return true, value;
    }

    method ParseNumber() returns (ok: bool, value: real)
      requires Valid()
      modifies this
      ensures Valid() && ok == ReadNumber(libc, old(Rest())).Got?
      ensures ok ==> Got(value, Rest()) == ReadNumber(libc, old(Rest()))
    {
      SkipSpace();
      if current >= |text| {
        return false, 0.0;
      }
      var converted := libc.strtod(text[current..]);
      if converted == None || converted.value.length == 0 || current + converted.value.length > |text| {
        return false, 0.0;
      }
      DropMore(text, current, converted.value.length);
      current := current + converted.value.length;
      return true, converted.value.value;
    }

    /** strncmp at the cursor. */
    method StartsWith(word: string) returns (yes: bool)
      requires Valid()
      ensures yes == (word <= Rest())
      ensures yes ==> current + |word| <= |text| && text[current + |word|..] == Rest()[|word|..]
    {
      if |text| - current < |word| {
        return false;
      }
      DropMore(text, current, |word|);
      yes := text[current..current + |word|] == word;
    }

    method ParseBoolean() returns (ok: bool, value: bool)
      requires Valid()
      modifies this
      ensures Valid() && ok == ReadBoolean(old(Rest())).Got?
      ensures ok ==> Got(value, Rest()) == ReadBoolean(old(Rest()))
    {
      SkipSpace();
      var isTrue := StartsWith("true");
      if isTrue {
        current := current + 4;
        return true, true;
      }
      var isFalse := StartsWith("false");
      if isFalse {
        current := current + 5;
        return true, false;
      }
      return false, false;
    }

    method SkipAnyValue() returns (ok: bool)
      requires Valid()
      modifies this
      ensures Valid() && ok == SkipValue(libc, old(Rest())).Got?
      ensures ok ==> Rest() == SkipValue(libc, old(Rest())).rest
    {
      SkipSpace();
      if current >= |text| {
        return false;
      }
      if text[current] == '"' {
        var scratch: string;
        ok, scratch := ParseString(SCRATCH_BUFFER);
        return;
      }
      if text[current] == '-' || IsDigit(text[current]) {
        var number: real;
        ok, number := ParseNumber();
        return;
      }
      ok := SkipLiteral();
    }

    method SkipLiteral() returns (ok: bool)
      requires Valid()
      modifies this
      ensures Valid() && ok == LiteralRest(old(Rest())).Got?
      ensures ok ==> Rest() == LiteralRest(old(Rest())).rest
    {
      var literals := LITERALS;
      for i := 0 to 3
        invariant Valid() && current == old(current)
        invariant i > 0 ==> !("true" <= Rest())
        invariant i > 1 ==> !("false" <= Rest())
        invariant i > 2 ==> !("null" <= Rest())
      {
        var matches := StartsWith(literals[i]);
        if matches {
          current := current + |literals[i]|;
          return true;
        }
      }
      return false;
    }

    /** The chain of key comparisons in parse_config_json: read the value, store it. */
    method ParseValue(key: Key, c: SenseConfig) returns (ok: bool, c': SenseConfig)
      requires Valid()
      modifies this
      ensures Valid() && ok == ReadValue(libc, key, old(Rest()), c).Got?
      ensures ok ==> Got(c', Rest()) == ReadValue(libc, key, old(Rest()), c)
    {
      c' := c;
      match key {
        case Device =>
          var text: string;
          ok, text := ParseString(DEVICE_BUFFER);
          c' := c.(device := CString(text));
        case EventLog =>
          var text: string;
          ok, text := ParseString(EVENT_PATH_BUFFER);
          c' := c.(eventLog := CString(text));
        case MotionEnabled =>
          var flag: bool;
          ok, flag := ParseBoolean();
          c' := c.(motionEnabled := flag);
        case RatioThreshold =>
          var ratio: real;
          ok, ratio := ParseNumber();
          c' := c.(motionChangedRatioThreshold := ratio);
        case Number(n) =>
          var value: int;
          ok, value := ParseInteger();
          if ok && IntegerFitsField(n, value) {
            c' := SetNumber(c, n, value);
          } else {
            ok := false;
          }
        case Unknown =>
          ok := SkipAnyValue();
      }
    }

    method ParseMember(c: SenseConfig) returns (ok: bool, c': SenseConfig)
      requires Valid()
      modifies this
      ensures Valid() && ok == ReadMember(libc, old(Rest()), c).Got?
      ensures ok ==> Got(c', Rest()) == ReadMember(libc, old(Rest()), c)
    {
      c' := c;
      var key: string;
      ok, key := ParseString(KEY_BUFFER);
      if !ok {
        return;
      }
      ok := Consume(':');
      if !ok {
        return;
      }
      ok, c' := ParseValue(KeyNamed(CString(key)), c);
    }

    /** A comma or the closing brace, if it is next. */
    method ParseSeparator() returns (comma: bool, brace: bool)
      requires Valid()
      modifies this
      ensures Valid() && !(comma && brace)
      ensures var t := SkipSpaces(old(Rest()));
              comma == (t != "" && t[0] == ',') && brace == (t != "" && t[0] == '}')
              && (comma || brace ==> Rest() == t[1..])
    {
      SkipSpace();
      comma := current < |text| && text[current] == ',';
      brace := current < |text| && text[current] == '}';
      if comma || brace {
        DropMore(text, current, 1);
        current := current + 1;
      }
    }

    /** The member loop of parse_config_json. */
    method ParseMembers(c: SenseConfig) returns (ok: bool, c': SenseConfig)
      requires Valid()
      modifies this
      ensures Valid() && ok == ReadMembers(libc, old(Rest()), c).Got?
      ensures ok ==> Got(c', Rest()) == ReadMembers(libc, old(Rest()), c)
    {
      c' := c;
      ghost var answer := ReadMembers(libc, Rest(), c);
      while true
        invariant Valid() && ReadMembers(libc, Rest(), c') == answer
        decreases |Rest()|
      {
        ghost var before := Rest();
        var next;
        ok, next := ParseMember(c');
        if !ok {
          return;
        }
        ghost var after := SkipSpaces(Rest());
        assert answer == ReadSeparator(libc, after, next);
        c' := next;
        var comma, brace := ParseSeparator();
        if !comma {
          return brace, c';
        }
      }
    }

    method ParseObject(c: SenseConfig) returns (ok: bool, c': SenseConfig)
      requires Valid()
      modifies this
      ensures Valid() && ok == ReadObject(libc, old(Rest()), c).Got?
      ensures ok ==> Got(c', Rest()) == ReadObject(libc, old(Rest()), c)
    {
      SkipSpace();
      if current < |text| && text[current] == '}' {
        DropMore(text, current, 1);
        current := current + 1;
        return true, c;
      }
      ok, c' := ParseMembers(c);
    }

    /** Whether nothing but white space is left. */
    method AtEnd() returns (yes: bool)
      requires Valid()
      modifies this
      ensures Valid() && yes == (SkipSpaces(old(Rest())) == "")
    {
      SkipSpace();
      yes := current == |text|;
    }

    /** The object and the end of the text, behind the opening brace. */
    method ParseObjectToEnd(c: SenseConfig) returns (ok: bool, c': SenseConfig)
      requires Valid()
      modifies this
      ensures Valid() && ok == Finished(ReadObject(libc, old(Rest()), c)).Some?
      ensures ok ==> Some(c') == Finished(ReadObject(libc, old(Rest()), c))
    {
      ok, c' := ParseObject(c);
      if ok {
        ok := AtEnd();
      }
    }

    method ParseDocument(c: SenseConfig) returns (ok: bool, c': SenseConfig)
      requires Valid()
      modifies this
      ensures Valid() && ok == ParseConfig(libc, old(Rest()), c).Some?
      ensures ok ==> Some(c') == ParseConfig(libc, old(Rest()), c)
    {
      c' := c;
      ok := Consume('{');
      if ok {
        ok, c' := ParseObjectToEnd(c);
      }
    }
  }

  /** parse_config_json over a whole text. */
  method ParseConfigJson(libc: Libc, text: string, c: SenseConfig) returns (ok: bool, c': SenseConfig)
    ensures ok == ParseConfig(libc, text, c).Some?
    ensures ok ==> Some(c') == ParseConfig(libc, text, c)
  {
    var cursor := new JsonCursor(libc, text);
    ok, c' := cursor.ParseDocument(c);
  }

  /** config_load, behind the reading of the file: defaults, then the text, then the range checks. */
  method ConfigLoad(libc: Libc, text: string) returns (ok: bool, c: SenseConfig)
    ensures var parsed := ParseConfig(libc, text, DEFAULT_CONFIG);
            ok <==> parsed.Some? && ValidConfig(parsed.value)
    ensures ok ==> c == ParseConfig(libc, text, DEFAULT_CONFIG).value
  {
    ok, c := ParseConfigJson(libc, text, DEFAULT_CONFIG);
    if ok {
      ok := ValidateConfig(c);
    }
  }
}
