/**
 What the configuration parser refuses: a character out of place in any gap
 between tokens, an unfinished or unknown escape, a text too long for its buffer,
 a number out of its field's range, an unknown name taken for a known one.
 */
module ConfigRefusals {
  import opened CTypes
  import opened Config
  import opened Decimal
  import opened ConfigParser
  import opened ConfigRoundTrip

  // ----------------------------------------------------------------- the gaps

  /** Members with a comma behind each, and whatever comes then. */
  function Begun(ms: seq<Member>, tail: string): string {
    if ms == [] then tail else MemberText(ms[0]) + ([','] + Begun(ms[1..], tail))
  }

  lemma {:induction false} BegunReads(libc: Libc, ms: seq<Member>, tail: string, c: SenseConfig)
    requires ReadsDecimals(libc) && AllWritten(libc, ms)
    ensures ReadMembers(libc, Begun(ms, tail), c) == ReadMembers(libc, tail, StoreAll(libc, c, ms))
    decreases |ms|
  {
    if ms != [] {
      ReadMembersStep(libc, ms[0], c, ',', Begun(ms[1..], tail));
      BegunReads(libc, ms[1..], tail, Stored(libc, c, KeyOf(ms[0]), ms[0].value));
    }
  }

  /** Where in a member a gap is. */
  datatype Place = BeforeKey | BeforeColon | BeforeValue | AfterValue

  /** The member up to that gap, its white space included. */
  function UpTo(m: Member, place: Place): string {
    match place
    case BeforeKey => m.before
    case BeforeColon => m.before + QuotedText(m.key) + m.colon
    case BeforeValue => m.before + QuotedText(m.key) + (m.colon + [':'] + m.gap)
    case AfterValue => m.before + QuotedText(m.key) + (m.colon + [':'] + (m.gap + TokenText(m.value) + m.after))
  }

  /** What may stand there instead of more white space; what begins a ratio is strtod's business. */
  predicate MayStand(place: Place, key: Key, first: bool, c: char) {
    match place
    case BeforeKey => c == '"' || (first && c == '}')
    case BeforeColon => c == ':'
    case AfterValue => c == ',' || c == '}'
    case BeforeValue =>
      match key
      case Device => c == '"'
      case EventLog => c == '"'
      case MotionEnabled => c == 't' || c == 'f'
      case Number(_) => c == '-' || c == '+' || '0' <= c <= '9'
      case RatioThreshold => true
      case Unknown => c in {'"', '-', 't', 'f', 'n'} || '0' <= c <= '9'
  }

  lemma Stray(ws: string, c: char, rest: string)
    requires AllSpaces(ws) && !White(c)
    ensures SkipSpaces(ws + ([c] + rest)) == [c] + rest
  {
    SpacesSkipped(ws, [c] + rest);
  }

  lemma StrayBeforeKey(libc: Libc, ws: string, c: char, rest: string, config: SenseConfig)
    requires AllSpaces(ws) && !White(c) && c != '"'
    ensures ReadMember(libc, ws + ([c] + rest), config) == Fail
  {
    Stray(ws, c, rest);
  }

  lemma StrayBeforeColon(libc: Libc, m: Member, c: char, rest: string, config: SenseConfig)
    requires AllSpaces(m.before) && AllSpaces(m.colon) && ChunksOk(m.key) && |m.key| < KEY_BUFFER
    requires !White(c) && c != ':'
    ensures ReadMember(libc, UpTo(m, BeforeColon) + ([c] + rest), config) == Fail
  {
    Joined(m.before + QuotedText(m.key), m.colon, [c] + rest);
    ReadStringBack(m.before, m.key, KEY_BUFFER, m.colon + ([c] + rest));
    Stray(m.colon, c, rest);
  }

  /** Behind its key and colon a member is as good as its value. */
  lemma BehindColon(libc: Libc, m: Member, value: string, config: SenseConfig)
    requires AllSpaces(m.before) && AllSpaces(m.colon) && ChunksOk(m.key) && |m.key| < KEY_BUFFER
    ensures ReadMember(libc, m.before + QuotedText(m.key) + (m.colon + [':'] + value), config)
         == ReadValue(libc, KeyOf(m), value, config)
  {
    ReadStringBack(m.before, m.key, KEY_BUFFER, m.colon + [':'] + value);
    ReadCharBack(m.colon, ':', value);
  }

  lemma StrayValue(libc: Libc, key: Key, ws: string, c: char, rest: string, config: SenseConfig)
    requires AllSpaces(ws) && !White(c) && !MayStand(BeforeValue, key, true, c)
    ensures ReadValue(libc, key, ws + ([c] + rest), config) == Fail
  {
    Stray(ws, c, rest);
    var t := [c] + rest;
    assert t[0] == c;
    match key {
      case Device =>
      case EventLog =>
      case MotionEnabled =>
        assert "true"[0] == 't' && "false"[0] == 'f';
      case Number(_) => assert DigitRun(t) == 0;
      case Unknown =>
        assert "true"[0] == 't' && "false"[0] == 'f' && "null"[0] == 'n';
    }
  }

  lemma StrayBeforeValue(libc: Libc, m: Member, c: char, rest: string, config: SenseConfig)
    requires AllSpaces(m.before) && AllSpaces(m.colon) && AllSpaces(m.gap) && ChunksOk(m.key) && |m.key| < KEY_BUFFER
    requires !White(c) && !MayStand(BeforeValue, KeyOf(m), true, c)
    ensures ReadMember(libc, UpTo(m, BeforeValue) + ([c] + rest), config) == Fail
  {
    Joined(m.before + QuotedText(m.key), m.colon + [':'] + m.gap, [c] + rest);
    Joined(m.colon + [':'], m.gap, [c] + rest);
    BehindColon(libc, m, m.gap + ([c] + rest), config);
    StrayValue(libc, KeyOf(m), m.gap, c, rest, config);
  }

  lemma StrayAfterValue(libc: Libc, m: Member, c: char, rest: string, config: SenseConfig)
    requires ReadsDecimals(libc) && WellWritten(libc, m)
    requires !White(c) && c != ',' && c != '}' && m.after != ""
    ensures ReadMember(libc, UpTo(m, AfterValue) + ([c] + rest), config)
         == Got(Stored(libc, config, KeyOf(m), m.value), m.after + ([c] + rest))
  {
    var value, tail := m.gap + TokenText(m.value), m.after + ([c] + rest);
    Joined(m.before + QuotedText(m.key), m.colon + [':'] + (value + m.after), [c] + rest);
    Joined(m.colon + [':'], value + m.after, [c] + rest);
    Joined(value, m.after, [c] + rest);
    BehindColon(libc, m, value + tail, config);
    assert tail[0] == m.after[0];
    ReadValueBack(libc, KeyOf(m), m.gap, m.value, tail, config);
  }

  /** A member cut by a stray character spoils the member list. */
  lemma StrayInMembers(libc: Libc, m: Member, place: Place, first: bool, c: char, rest: string, config: SenseConfig)
    requires ReadsDecimals(libc) && WellWritten(libc, m) && !White(c) && !MayStand(place, KeyOf(m), first, c)
    requires place == AfterValue ==> m.after != ""
    ensures ReadMembers(libc, UpTo(m, place) + ([c] + rest), config) == Fail
  {
    match place
    case BeforeKey => StrayBeforeKey(libc, m.before, c, rest, config);
    case BeforeColon => StrayBeforeColon(libc, m, c, rest, config);
    case BeforeValue => StrayBeforeValue(libc, m, c, rest, config);
    case AfterValue =>
      StrayAfterValue(libc, m, c, rest, config);
      Stray(m.after, c, rest);
  }

  /** The text starts with something that is neither white space nor the closing brace. */
  predicate NoEmptyObject(s: string) {
    SkipSpaces(s) == "" || SkipSpaces(s)[0] != '}'
  }

  lemma StartOfMember(m: Member, place: Place, c: char, rest: string)
    requires AllSpaces(m.before) && !White(c)
    requires place == BeforeKey ==> c != '}'
    ensures NoEmptyObject(UpTo(m, place) + ([c] + rest))
  {
    if place == BeforeKey {
      Stray(m.before, c, rest);
    } else {
      var more := BehindKey(m, place);
      KeyFollows(m, more, [c] + rest);
    }
  }

  function BehindKey(m: Member, place: Place): (more: string)
    requires place != BeforeKey
    ensures UpTo(m, place) == m.before + QuotedText(m.key) + more
  {
    match place
    case BeforeColon => m.colon
    case BeforeValue => m.colon + [':'] + m.gap
    case AfterValue => m.colon + [':'] + (m.gap + TokenText(m.value) + m.after)
  }

  lemma KeyFollows(m: Member, more: string, tail: string)
    requires AllSpaces(m.before)
    ensures NoEmptyObject(m.before + QuotedText(m.key) + more + tail)
  {
    var body := BodyText(m.key) + ['"'];
    Joined(m.before, QuotedText(m.key), more);
    Joined(m.before, QuotedText(m.key) + more, tail);
    Joined(['"'], body, more);
    Joined(['"'], body + more, tail);
    Behind('"', body + more + tail);
    SpacesSkipped(m.before, ['"'] + (body + more + tail));
  }

  lemma ObjectAfterOpening(libc: Libc, lead: string, text: string, c: SenseConfig)
    requires AllSpaces(lead) && NoEmptyObject(text)
    ensures ParseConfig(libc, lead + ['{'] + text, c) == Finished(ReadMembers(libc, text, c))
  {
    ReadCharBack(lead, '{', text);
    SkippedMembers(libc, text, c);
  }

  lemma BegunStarts(libc: Libc, ms: seq<Member>, tail: string)
    requires ms != [] && WellWritten(libc, ms[0])
    ensures NoEmptyObject(Begun(ms, tail))
  {
    var m := ms[0];
    KeyFollows(m, m.colon + [':'] + ValueText(m), [','] + Begun(ms[1..], tail));
  }

  /**
   In every gap of a document, behind any well-written members, a character that is
   neither white space nor what may stand there makes the whole text unacceptable,
   whatever follows it.
   */
  lemma StrayIsRefused(libc: Libc, lead: string, ms: seq<Member>, m: Member, place: Place, c: char, rest: string,
                       config: SenseConfig)
    requires ReadsDecimals(libc) && AllSpaces(lead) && AllWritten(libc, ms) && WellWritten(libc, m)
    requires !White(c) && !MayStand(place, KeyOf(m), ms == [], c) && (place == AfterValue ==> m.after != "")
    ensures ParseConfig(libc, lead + ['{'] + Begun(ms, UpTo(m, place) + ([c] + rest)), config) == None
  {
    var tail := UpTo(m, place) + ([c] + rest);
    BegunReads(libc, ms, tail, config);
    StrayInMembers(libc, m, place, ms == [], c, rest, StoreAll(libc, config, ms));
    if ms == [] {
      StartOfMember(m, place, c, rest);
    } else {
      BegunStarts(libc, ms, tail);
    }
    ObjectAfterOpening(libc, lead, Begun(ms, tail), config);
  }

  /** Nothing but the opening brace may come first, and nothing at all last. */
  lemma StrayAround(libc: Libc, lead: string, ms: seq<Member>, trail: string, c: char, rest: string,
                    config: SenseConfig)
    requires ReadsDecimals(libc) && AllSpaces(lead) && AllSpaces(trail) && AllWritten(libc, ms) && !White(c)
    ensures c != '{' ==> ParseConfig(libc, lead + ([c] + rest), config) == None
    ensures ParseConfig(libc, Document(lead, ms, trail + ([c] + rest)), config) == None
  {
    Stray(lead, c, rest);
    Stray(trail, c, rest);
    ReadCharBack(lead, '{', MembersText(ms, ['}'] + (trail + ([c] + rest))));
    ReadObjectBack(libc, ms, trail + ([c] + rest), config);
  }

  // ------------------------------------------------------------------- the texts

  /** What is read of a text's chunks before anything else is looked at. */
  lemma {:induction false} ChunksRead(chunks: seq<Chunk>, done: string, size: nat, rest: string)
    requires ChunksOk(chunks) && |done| + |chunks| < size
    ensures ReadBody(BodyText(chunks) + rest, done, size) == ReadBody(rest, done + BodyValue(chunks), size)
    decreases |chunks|
  {
    if chunks == [] {
      assert "" + rest == rest && done + "" == done;
    } else {
      var k, v, others := chunks[0], BodyValue(chunks[1..]), BodyText(chunks[1..]);
      Joined(ChunkText(k), others, rest);
      ReadChunk(k, done, size, others + rest);
      ChunksRead(chunks[1..], done + [ChunkValue(k)], size, rest);
      Joined(done, [ChunkValue(k)], v);
    }
  }

  /** A text that does not end. */
  lemma UnendedIsRefused(ws: string, chunks: seq<Chunk>, size: nat)
    requires AllSpaces(ws) && ChunksOk(chunks) && |chunks| < size
    ensures ReadString(ws + (['"'] + BodyText(chunks)), size) == Fail
  {
    ReadQuoted(ws, BodyText(chunks), size);
    assert BodyText(chunks) == BodyText(chunks) + "";
    ChunksRead(chunks, "", size, "");
  }

  /** A backslash before anything but the eight escapes. */
  lemma UnknownEscapeIsRefused(ws: string, chunks: seq<Chunk>, size: nat, c: char, rest: string)
    requires AllSpaces(ws) && ChunksOk(chunks) && |chunks| < size
    requires c !in {'"', '\\', '/', 'b', 'f', 'n', 'r', 't'}
    ensures ReadString(ws + (['"'] + (BodyText(chunks) + (['\\', c] + rest))), size) == Fail
  {
    ReadQuoted(ws, BodyText(chunks) + (['\\', c] + rest), size);
    ChunksRead(chunks, "", size, ['\\', c] + rest);
    BadEscape("" + BodyValue(chunks), size, c, rest);
  }

  /** One character more than the buffer holds. */
  lemma LongTextIsRefused(ws: string, chunks: seq<Chunk>, size: nat, more: Chunk, rest: string)
    requires AllSpaces(ws) && ChunksOk(chunks) && |chunks| + 1 == size && ChunkOk(more)
    ensures ReadString(ws + (['"'] + (BodyText(chunks) + (ChunkText(more) + rest))), size) == Fail
  {
    ReadQuoted(ws, BodyText(chunks) + (ChunkText(more) + rest), size);
    ChunksRead(chunks, "", size, ChunkText(more) + rest);
    NoRoom(more, "" + BodyValue(chunks), size, rest);
  }

  lemma NoRoom(k: Chunk, done: string, size: nat, rest: string)
    requires ChunkOk(k) && |done| + 1 >= size
    ensures ReadBody(ChunkText(k) + rest, done, size) == Fail
  {
    var s := ChunkText(k) + rest;
    match k {
      case Plain(c) => assert s[0] == c;
      case Escape(e) => assert s[0] == '\\' && s[1] == e;
    }
  }

  lemma BadEscape(done: string, size: nat, c: char, rest: string)
    requires c !in {'"', '\\', '/', 'b', 'f', 'n', 'r', 't'}
    ensures ReadBody(['\\', c] + rest, done, size) == Fail
  {
    var s := ['\\', c] + rest;
    assert s[0] == '\\' && s[1] == c;
  }

  // ----------------------------------------------------------------- the numbers

  /** An integer with either sign or none. */
  function SignedText(sign: string, whole: string): (v: int)
    requires AllDigits(whole)
  {
    if sign == "-" then -(ValueOf(whole) as int) else ValueOf(whole)
  }

  lemma DigitsBack(whole: string, rest: string)
    requires PlainNumber(whole, "") && Delimited(rest)
    ensures var digits := whole + rest;
            && DigitRun(digits) == |whole| > 0 && digits[..|whole|] == whole && digits[|whole|..] == rest
            && IsDigit(digits[0])
  {
    DigitRunOf(whole, rest);
  }

  lemma SignBack(sign: string, digits: string)
    requires sign in {"", "+", "-"} && digits != "" && IsDigit(digits[0])
    ensures var t := sign + digits;
            t != "" && (t[0] == '-') == (sign == "-") && (if IsSign(t[0]) then t[1..] else t) == digits
  {
    if sign == "" {
      assert sign + digits == digits;
    } else {
      assert (sign + digits)[1..] == digits;
    }
  }

  lemma ConvertsBack(libc: Libc, sign: string, whole: string, rest: string)
    requires sign in {"", "+", "-"} && PlainNumber(whole, "") && Delimited(rest)
    ensures sign + (whole + rest) != ""
    ensures var v := SignedText(sign, whole);
            ConvertInteger(libc, sign + (whole + rest))
            == if -(libc.longMax as int) - 1 <= v <= libc.longMax then Got(v, rest) else Fail
  {
    DigitsBack(whole, rest);
    SignBack(sign, whole + rest);
  }

  lemma NumberBegins(ws: string, sign: string, whole: string, rest: string)
    requires AllSpaces(ws) && sign in {"", "+", "-"} && PlainNumber(whole, "")
    ensures SkipSpaces(ws + (sign + (whole + rest))) == sign + (whole + rest)
  {
    var t := sign + (whole + rest);
    assert t[0] == if sign == "" then whole[0] else sign[0];
    SpacesSkipped(ws, t);
  }

  /** It is read unless it is out of the range of long. */
  lemma IntegerInLong(libc: Libc, ws: string, sign: string, whole: string, rest: string)
    requires AllSpaces(ws) && sign in {"", "+", "-"} && PlainNumber(whole, "") && Delimited(rest)
    ensures var v := SignedText(sign, whole);
            ReadInteger(libc, ws + (sign + (whole + rest)))
            == if -(libc.longMax as int) - 1 <= v <= libc.longMax then Got(v, rest) else Fail
  {
    NumberBegins(ws, sign, whole, rest);
    ConvertsBack(libc, sign, whole, rest);
  }

  /** An integer that is read is stored if and only if its field can hold it. */
  lemma IntegerInField(libc: Libc, n: NumberKey, s: string, c: SenseConfig)
    requires ReadInteger(libc, s).Got?
    ensures var v := ReadInteger(libc, s).value;
            ReadValue(libc, Number(n), s, c).Got?
            <==> if n == HttpPort then -0x8000_0000 <= v <= 0x7FFF_FFFF else 0 <= v <= 0xFFFF_FFFF
    ensures ReadValue(libc, Number(n), s, c).Got? ==>
              Field(ReadValue(libc, Number(n), s, c).value, Number(n)) == IntegerValue(ReadInteger(libc, s).value)
  {
  }

  // ------------------------------------------------------------------- the names

  /** A name is known if and only if it is one of the thirteen, spelled out. */
  lemma KnownNames(s: string, key: Key)
    requires key != Unknown
    ensures KeyNamed(s) == key <==> s == NameOf(key)
  {
    NamesAreKnown(key);
    if KeyNamed(s) == key && key.Number? {
      KnownNumber(s, key.number);
    }
  }

  lemma KnownNumber(s: string, n: NumberKey)
    requires KeyNamed(s) == Number(n)
    ensures s == NameOf(Number(n))
  {
  }

  // ------------------------------------------------------------------ the ranges

  /** Field by field: both ends of every range are accepted, and nothing beyond them. */
  lemma RangesAre(c: SenseConfig, n: nat, port: int, ratio: real)
    requires ValidConfig(c)
    ensures ValidConfig(c.(width := n)) <==> 1 <= n <= 4096
    ensures ValidConfig(c.(height := n)) <==> 1 <= n <= 2160
    ensures ValidConfig(c.(fpsLimit := n)) <==> 1 <= n <= 120
    ensures ValidConfig(c.(jpegQuality := n)) <==> 1 <= n <= 100
    ensures ValidConfig(c.(httpPort := port)) <==> 1 <= port <= 65535
    ensures ValidConfig(c.(motionSampleFps := n)) <==> 1 <= n <= 30
    ensures ValidConfig(c.(motionJpegScaleDenom := n)) <==> n in {1, 2, 4, 8}
    ensures ValidConfig(c.(motionPixelDeltaThreshold := n)) <==> 1 <= n <= 255
    ensures ValidConfig(c.(motionChangedRatioThreshold := ratio)) <==> 0.0 < ratio <= 1.0
    ensures ValidConfig(c.(motionCooldownMs := n)) <==> 1 <= n <= 3600000
    ensures !ValidConfig(c.(device := "")) && !ValidConfig(c.(eventLog := ""))
    ensures ValidConfig(c.(motionEnabled := !c.motionEnabled))
  {
  }

  /** Without a word in the file the daemon runs with these settings. */
  lemma EmptyObjectIsDefault(libc: Libc)
    ensures ParseConfig(libc, "{}", DEFAULT_CONFIG)
         == Some(SenseConfig("auto", 640, 480, 30, 75, 8080, "events.jsonl", true, 3, 4, 25, 0.05, 1500))
    ensures ValidConfig(DEFAULT_CONFIG)
  {
    assert "{}" == "" + ['{'] + "}";
    ReadCharBack("", '{', "}");
    assert "}"[1..] == "";
  }
}
