/**
 Writing a configuration down, in every way the parser is meant to accept, and
 reading it back: any key order, any white space between tokens, any escapes,
 unknown scalar members in between, repeated keys.
 */
module ConfigRoundTrip {
  import opened CTypes
  import opened Config
  import opened Decimal
  import opened ConfigParser

  // -------------------------------------------------------------- written forms

  /** One character of a string literal, as it is or escaped. */
  datatype Chunk = Plain(c: char) | Escape(letter: char)

  predicate ChunkOk(k: Chunk) {
    match k
    case Plain(c) => c != '"' && c != '\\'
    case Escape(e) => e in {'"', '\\', '/', 'b', 'f', 'n', 'r', 't'}
  }

  predicate ChunksOk(chunks: seq<Chunk>) {
    forall i :: 0 <= i < |chunks| ==> ChunkOk(chunks[i])
  }

  /** The character a chunk stands for. */
  function ChunkValue(k: Chunk): char {
    match k
    case Plain(c) => c
    case Escape('b') => '\U{08}'
    case Escape('f') => '\U{0C}'
    case Escape('n') => '\n'
    case Escape('r') => '\r'
    case Escape('t') => '\t'
    case Escape(e) => e
  }

  function ChunkText(k: Chunk): string {
    match k
    case Plain(c) => [c]
    case Escape(e) => ['\\', e]
  }

  function BodyText(chunks: seq<Chunk>): string {
    if chunks == [] then "" else ChunkText(chunks[0]) + BodyText(chunks[1..])
  }

  function BodyValue(chunks: seq<Chunk>): (value: string)
    ensures |value| == |chunks|
  {
    if chunks == [] then "" else [ChunkValue(chunks[0])] + BodyValue(chunks[1..])
  }

  function QuotedText(chunks: seq<Chunk>): string {
    ['"'] + (BodyText(chunks) + ['"'])
  }

  datatype Token =
    | StringToken(chunks: seq<Chunk>)
    | NumberToken(negative: bool, whole: string, fraction: string)
    | TrueToken
    | FalseToken
    | NullToken

  function NumberText(negative: bool, whole: string, fraction: string): string {
    (if negative then "-" else "") + whole + (if fraction == "" then "" else "." + fraction)
  }

  function TokenText(t: Token): string {
    match t
    case StringToken(chunks) => QuotedText(chunks)
    case NumberToken(negative, whole, fraction) => NumberText(negative, whole, fraction)
    case TrueToken => "true"
    case FalseToken => "false"
    case NullToken => "null"
  }

  function DecimalValue(negative: bool, whole: string, fraction: string): real
    requires AllDigits(whole) && AllDigits(fraction)
  {
    var magnitude := ValueOf(whole) as real + ValueOf(fraction) as real / Pow10(|fraction|) as real;
    if negative then -magnitude else magnitude
  }

  /** Space, tab, newline, vertical tab, form feed, carriage return. */
  predicate White(c: char) {
    c in {' ', '\t', '\n', '\U{0B}', '\U{0C}', '\r'}
  }

  /** What may follow a value: white space, a comma or the closing brace. */
  predicate Delimited(rest: string) {
    rest != "" && (White(rest[0]) || rest[0] == ',' || rest[0] == '}')
  }

  predicate PlainNumber(whole: string, fraction: string) {
    whole != "" && AllDigits(whole) && AllDigits(fraction)
  }

  const DIGITS := 300

  /** Few enough digits that the number neither overflows nor underflows a double. */
  predicate PlainDecimal(whole: string, fraction: string) {
    PlainNumber(whole, fraction) && |whole| <= DIGITS && |fraction| <= DIGITS
  }

  /** strtod reads such decimals for what they are; beyond them it may fail with ERANGE. */
  ghost predicate ReadsDecimals(libc: Libc) {
    forall negative: bool, whole: string, fraction: string, rest: string ::
      PlainDecimal(whole, fraction) && Delimited(rest) ==>
        libc.strtod(NumberText(negative, whole, fraction) + rest)
        == Some(Converted(DecimalValue(negative, whole, fraction), |NumberText(negative, whole, fraction)|))
  }

  predicate AllSpaces(s: string) {
    forall i :: 0 <= i < |s| ==> White(s[i])
  }

  /** One `"key": value` with the white space around its tokens. */
  datatype Member = Member(before: string, key: seq<Chunk>, colon: string, gap: string, value: Token, after: string)

  function ValueText(m: Member): string {
    m.gap + TokenText(m.value) + m.after
  }

  function MemberText(m: Member): string {
    m.before + QuotedText(m.key) + (m.colon + [':'] + ValueText(m))
  }

  /** The members with commas between them and `close` behind the last. */
  function MembersText(ms: seq<Member>, close: string): string {
    if ms == [] then close
    else MemberText(ms[0]) + ((if |ms| == 1 then "" else [',']) + MembersText(ms[1..], close))
  }

  function Document(lead: string, ms: seq<Member>, trail: string): string {
    lead + ['{'] + MembersText(ms, ['}'] + trail)
  }

  // --------------------------------------------------------------------- meaning

  function KeyOf(m: Member): Key {
    KeyNamed(CString(BodyValue(m.key)))
  }

  /** A value of the kind and size the key asks for. */
  predicate Suits(libc: Libc, key: Key, t: Token) {
    match key
    case Device => t.StringToken? && ChunksOk(t.chunks) && |t.chunks| < DEVICE_BUFFER
    case EventLog => t.StringToken? && ChunksOk(t.chunks) && |t.chunks| < EVENT_PATH_BUFFER
    case MotionEnabled => t.TrueToken? || t.FalseToken?
    case RatioThreshold => t.NumberToken? && PlainDecimal(t.whole, t.fraction)
    case Number(n) =>
      t.NumberToken? && PlainNumber(t.whole, t.fraction) && t.fraction == ""
      && InLong(libc, Signed(t.negative, ValueOf(t.whole))) && IntegerFitsField(n, Signed(t.negative, ValueOf(t.whole)))
    case Unknown =>
      (t.StringToken? ==> ChunksOk(t.chunks) && |t.chunks| < SCRATCH_BUFFER)
      && (t.NumberToken? ==> PlainDecimal(t.whole, t.fraction))
  }

  predicate WellWritten(libc: Libc, m: Member) {
    && AllSpaces(m.before) && AllSpaces(m.colon) && AllSpaces(m.gap) && AllSpaces(m.after)
    && ChunksOk(m.key) && |m.key| < KEY_BUFFER
    && Suits(libc, KeyOf(m), m.value)
  }

  predicate AllWritten(libc: Libc, ms: seq<Member>) {
    forall i :: 0 <= i < |ms| ==> WellWritten(libc, ms[i])
  }

  datatype FieldValue = TextValue(text: string) | IntegerValue(n: int) | RatioValue(r: real) | FlagValue(b: bool)

  function Meaning(libc: Libc, key: Key, t: Token): FieldValue
    requires Suits(libc, key, t) && key != Unknown
  {
    match key
    case Device => TextValue(CString(BodyValue(t.chunks)))
    case EventLog => TextValue(CString(BodyValue(t.chunks)))
    case MotionEnabled => FlagValue(t.TrueToken?)
    case RatioThreshold => RatioValue(DecimalValue(t.negative, t.whole, t.fraction))
    case Number(_) => IntegerValue(Signed(t.negative, ValueOf(t.whole)))
  }

  function Field(c: SenseConfig, key: Key): FieldValue
    requires key != Unknown
  {
    match key
    case Device => TextValue(c.device)
    case EventLog => TextValue(c.eventLog)
    case MotionEnabled => FlagValue(c.motionEnabled)
    case RatioThreshold => RatioValue(c.motionChangedRatioThreshold)
    case Number(Width) => IntegerValue(c.width)
    case Number(Height) => IntegerValue(c.height)
    case Number(FpsLimit) => IntegerValue(c.fpsLimit)
    case Number(JpegQuality) => IntegerValue(c.jpegQuality)
    case Number(HttpPort) => IntegerValue(c.httpPort)
    case Number(SampleFps) => IntegerValue(c.motionSampleFps)
    case Number(ScaleDenom) => IntegerValue(c.motionJpegScaleDenom)
    case Number(DeltaThreshold) => IntegerValue(c.motionPixelDeltaThreshold)
    case Number(CooldownMs) => IntegerValue(c.motionCooldownMs)
  }

  /** What the last member with this key says. */
  function LastMeaning(libc: Libc, ms: seq<Member>, key: Key): Option<FieldValue>
    requires key != Unknown && AllWritten(libc, ms)
  {
    if ms == [] then None
    else
      var last := ms[|ms| - 1];
      if KeyOf(last) == key then Some(Meaning(libc, key, last.value))
      else LastMeaning(libc, ms[..|ms| - 1], key)
  }

  // ---------------------------------------------------------- reading tokens back

  lemma {:induction false} SpacesSkipped(ws: string, rest: string)
    requires AllSpaces(ws) && (rest == "" || !IsSpace(rest[0]))
    ensures SkipSpaces(ws + rest) == rest
  {
    if ws == "" {
      assert ws + rest == rest;
    } else {
      assert (ws + rest)[1..] == ws[1..] + rest;
      SpacesSkipped(ws[1..], rest);
    }
  }

  lemma Behind(c: char, s: string)
    ensures ([c] + s)[0] == c && ([c] + s)[1..] == s
  {
  }

  lemma ReadChunk(k: Chunk, done: string, size: nat, tail: string)
    requires ChunkOk(k) && |done| + 1 < size
    ensures ReadBody(ChunkText(k) + tail, done, size) == ReadBody(tail, done + [ChunkValue(k)], size)
  {
    var s := ChunkText(k) + tail;
    match k {
      case Plain(c) => assert s[0] == c && s[1..] == tail;
      case Escape(e) => assert s[0] == '\\' && s[1] == e && s[2..] == tail;
    }
  }

  lemma {:induction false} ReadBodyBack(chunks: seq<Chunk>, done: string, size: nat, rest: string)
    requires ChunksOk(chunks) && |done| + |chunks| < size
    ensures ReadBody(BodyText(chunks) + ['"'] + rest, done, size) == Got(done + BodyValue(chunks), rest)
    decreases chunks
  {
    if chunks == [] {
      Joined("", ['"'], rest);
      Behind('"', rest);
      assert "" + (['"'] + rest) == ['"'] + rest;
      assert done + BodyValue(chunks) == done;
    } else {
      var k, v, others := chunks[0], BodyValue(chunks[1..]), BodyText(chunks[1..]);
      ReadBodyBack(chunks[1..], done + [ChunkValue(k)], size, rest);
      Joined(done, [ChunkValue(k)], v);
      ReadChunk(k, done, size, others + ['"'] + rest);
      Joined(ChunkText(k), others, ['"']);
      Joined(ChunkText(k), others + ['"'], rest);
    }
  }

  lemma ReadQuoted(ws: string, body: string, size: nat)
    requires AllSpaces(ws)
    ensures ReadString(ws + (['"'] + body), size) == ReadBody(body, "", size)
  {
    Behind('"', body);
    SpacesSkipped(ws, ['"'] + body);
  }

  lemma ReadStringBack(ws: string, chunks: seq<Chunk>, size: nat, rest: string)
    requires AllSpaces(ws) && ChunksOk(chunks) && |chunks| < size
    ensures ReadString(ws + QuotedText(chunks) + rest, size) == Got(BodyValue(chunks), rest)
  {
    var text := BodyText(chunks) + ['"'];
    Joined(ws, QuotedText(chunks), rest);
    Joined(['"'], text, rest);
    assert QuotedText(chunks) == ['"'] + text;
    ReadQuoted(ws, text + rest, size);
    ReadBodyBack(chunks, "", size, rest);
    assert "" + BodyValue(chunks) == BodyValue(chunks);
  }

  lemma ReadCharBack(ws: string, c: char, rest: string)
    requires AllSpaces(ws) && !IsSpace(c)
    ensures ReadChar(ws + [c] + rest, c) == Got(c, rest)
  {
    assert ws + [c] + rest == ws + ([c] + rest);
    SpacesSkipped(ws, [c] + rest);
    assert ([c] + rest)[1..] == rest;
  }

  lemma NumberStart(negative: bool, whole: string, fraction: string, rest: string)
    requires PlainNumber(whole, fraction)
    ensures var s := NumberText(negative, whole, fraction) + rest;
            s != "" && (s[0] == '-' || IsDigit(s[0])) && !IsSpace(s[0]) && s[0] != '"'
  {
  }

  lemma ReadIntegerBack(libc: Libc, ws: string, negative: bool, whole: string, rest: string)
    requires AllSpaces(ws) && PlainNumber(whole, "") && Delimited(rest)
    requires InLong(libc, Signed(negative, ValueOf(whole)))
    ensures ReadInteger(libc, ws + NumberText(negative, whole, "") + rest)
         == Got(Signed(negative, ValueOf(whole)), rest)
  {
    var t := NumberText(negative, whole, "") + rest;
    assert ws + NumberText(negative, whole, "") + rest == ws + t;
    NumberStart(negative, whole, "", rest);
    SpacesSkipped(ws, t);
    var digits := whole + rest;
    assert t == (if negative then "-" else "") + digits;
    DigitRunOf(whole, rest);
    assert digits[..|whole|] == whole && digits[|whole|..] == rest;
    assert digits == if IsSign(t[0]) then t[1..] else t;
  }

  lemma ReadNumberBack(libc: Libc, ws: string, negative: bool, whole: string, fraction: string, rest: string)
    requires ReadsDecimals(libc) && AllSpaces(ws) && PlainDecimal(whole, fraction) && Delimited(rest)
    ensures ReadNumber(libc, ws + NumberText(negative, whole, fraction) + rest)
         == Got(DecimalValue(negative, whole, fraction), rest)
  {
    var text := NumberText(negative, whole, fraction);
    assert ws + text + rest == ws + (text + rest);
    NumberStart(negative, whole, fraction, rest);
    SpacesSkipped(ws, text + rest);
    assert libc.strtod(NumberText(negative, whole, fraction) + rest)
        == Some(Converted(DecimalValue(negative, whole, fraction), |text|));
    assert (text + rest)[|text|..] == rest;
  }

  lemma ReadWordBack(word: string, rest: string)
    requires word != ""
    ensures word <= word + rest && (word + rest)[|word|..] == rest && (word + rest)[0] == word[0]
  {
  }

  lemma ReadBooleanBack(ws: string, flag: bool, rest: string)
    requires AllSpaces(ws)
    ensures ReadBoolean(ws + (if flag then "true" else "false") + rest) == Got(flag, rest)
  {
    var word := if flag then "true" else "false";
    assert ws + word + rest == ws + (word + rest);
    ReadWordBack(word, rest);
    SpacesSkipped(ws, word + rest);
  }

  lemma SkipLiteralBack(libc: Libc, ws: string, word: string, rest: string)
    requires AllSpaces(ws) && (word == "true" || word == "false" || word == "null")
    ensures SkipValue(libc, ws + word + rest) == Got((), rest)
  {
    assert ws + word + rest == ws + (word + rest);
    ReadWordBack(word, rest);
    SpacesSkipped(ws, word + rest);
  }

  lemma SkipIdempotent(s: string)
    ensures SkipSpaces(SkipSpaces(s)) == SkipSpaces(s)
  {
  }

  lemma SkipStringBack(libc: Libc, ws: string, chunks: seq<Chunk>, rest: string)
    requires AllSpaces(ws) && ChunksOk(chunks) && |chunks| < SCRATCH_BUFFER
    ensures SkipValue(libc, ws + QuotedText(chunks) + rest) == Got((), rest)
  {
    var text := BodyText(chunks) + ['"'];
    Joined(ws, QuotedText(chunks), rest);
    Joined(['"'], text, rest);
    Joined("", QuotedText(chunks), rest);
    Behind('"', text + rest);
    SpacesSkipped(ws, ['"'] + (text + rest));
    ReadStringBack("", chunks, SCRATCH_BUFFER, rest);
    assert "" + QuotedText(chunks) == QuotedText(chunks);
  }

  lemma SkipNumberBack(libc: Libc, ws: string, negative: bool, whole: string, fraction: string, rest: string)
    requires ReadsDecimals(libc) && AllSpaces(ws) && PlainDecimal(whole, fraction) && Delimited(rest)
    ensures SkipValue(libc, ws + NumberText(negative, whole, fraction) + rest) == Got((), rest)
  {
    var text := NumberText(negative, whole, fraction);
    Joined(ws, text, rest);
    NumberStart(negative, whole, fraction, rest);
    SpacesSkipped(ws, text + rest);
    ReadNumberBack(libc, "", negative, whole, fraction, rest);
    assert "" + text == text;
  }

  lemma SkipValueBack(libc: Libc, ws: string, t: Token, rest: string)
    requires ReadsDecimals(libc) && AllSpaces(ws) && Suits(libc, Unknown, t) && Delimited(rest)
    ensures SkipValue(libc, ws + TokenText(t) + rest) == Got((), rest)
  {
    match t
    case StringToken(chunks) => SkipStringBack(libc, ws, chunks, rest);
    case NumberToken(negative, whole, fraction) => SkipNumberBack(libc, ws, negative, whole, fraction, rest);
    case TrueToken => SkipLiteralBack(libc, ws, "true", rest);
    case FalseToken => SkipLiteralBack(libc, ws, "false", rest);
    case NullToken => SkipLiteralBack(libc, ws, "null", rest);
  }

  /** What storing a member does to the configuration. */
  function Stored(libc: Libc, c: SenseConfig, key: Key, t: Token): SenseConfig
    requires Suits(libc, key, t)
  {
    match key
    case Device => c.(device := CString(BodyValue(t.chunks)))
    case EventLog => c.(eventLog := CString(BodyValue(t.chunks)))
    case MotionEnabled => c.(motionEnabled := t.TrueToken?)
    case RatioThreshold => c.(motionChangedRatioThreshold := DecimalValue(t.negative, t.whole, t.fraction))
    case Number(n) => SetNumber(c, n, Signed(t.negative, ValueOf(t.whole)))
    case Unknown => c
  }

  lemma ReadValueBack(libc: Libc, key: Key, ws: string, t: Token, rest: string, c: SenseConfig)
    requires ReadsDecimals(libc) && AllSpaces(ws) && Suits(libc, key, t) && Delimited(rest)
    ensures ReadValue(libc, key, ws + TokenText(t) + rest, c) == Got(Stored(libc, c, key, t), rest)
  {
    match key
    case Device => ReadStringBack(ws, t.chunks, DEVICE_BUFFER, rest);
    case EventLog => ReadStringBack(ws, t.chunks, EVENT_PATH_BUFFER, rest);
    case MotionEnabled => ReadBooleanBack(ws, t.TrueToken?, rest);
    case RatioThreshold => ReadNumberBack(libc, ws, t.negative, t.whole, t.fraction, rest);
    case Number(_) => ReadIntegerBack(libc, ws, t.negative, t.whole, rest);
    case Unknown => SkipValueBack(libc, ws, t, rest);
  }

  // --------------------------------------------------------- reading documents back

  lemma MemberLayout(m: Member, tail: string)
    ensures MemberText(m) + tail
         == m.before + QuotedText(m.key) + (m.colon + [':'] + (m.gap + TokenText(m.value) + (m.after + tail)))
  {
    var name, value, rest := m.before + QuotedText(m.key), m.gap + TokenText(m.value), m.after + tail;
    Joined(name, m.colon + [':'] + ValueText(m), tail);
    Joined(m.colon + [':'], ValueText(m), tail);
    Joined(value, m.after, tail);
  }

  lemma ReadMemberBack(libc: Libc, m: Member, tail: string, c: SenseConfig)
    requires ReadsDecimals(libc) && WellWritten(libc, m)
    requires tail != "" && (tail[0] == ',' || tail[0] == '}')
    ensures ReadMember(libc, MemberText(m) + tail, c) == Got(Stored(libc, c, KeyOf(m), m.value), m.after + tail)
  {
    var rest := m.after + tail;
    var value := m.gap + TokenText(m.value) + rest;
    MemberLayout(m, tail);
    assert Delimited(rest);
    ReadStringBack(m.before, m.key, KEY_BUFFER, m.colon + [':'] + value);
    ReadCharBack(m.colon, ':', value);
    ReadValueBack(libc, KeyOf(m), m.gap, m.value, rest, c);
  }

  function StoreAll(libc: Libc, c: SenseConfig, ms: seq<Member>): SenseConfig
    requires AllWritten(libc, ms)
    decreases |ms|
  {
    if ms == [] then c else StoreAll(libc, Stored(libc, c, KeyOf(ms[0]), ms[0].value), ms[1..])
  }

  /** One round of the member loop. */
  lemma ReadMembersStep(libc: Libc, m: Member, c: SenseConfig, separator: char, others: string)
    requires ReadsDecimals(libc) && WellWritten(libc, m) && (separator == ',' || separator == '}')
    ensures ReadMembers(libc, MemberText(m) + ([separator] + others), c)
         == var next := Stored(libc, c, KeyOf(m), m.value);
            if separator == ',' then ReadMembers(libc, others, next) else Got(next, others)
  {
    var tail := [separator] + others;
    Behind(separator, others);
    ReadMemberBack(libc, m, tail, c);
    SpacesSkipped(m.after, tail);
  }

  lemma {:induction false} ReadMembersBack(libc: Libc, ms: seq<Member>, rest: string, c: SenseConfig)
    requires ms != [] && ReadsDecimals(libc) && AllWritten(libc, ms)
    ensures ReadMembers(libc, MembersText(ms, ['}'] + rest), c) == Got(StoreAll(libc, c, ms), rest)
    decreases |ms|
  {
    var m := ms[0];
    if |ms| == 1 {
      assert ms[1..] == [];
      assert "" + (['}'] + rest) == ['}'] + rest;
      ReadMembersStep(libc, m, c, '}', rest);
    } else {
      ReadMembersStep(libc, m, c, ',', MembersText(ms[1..], ['}'] + rest));
      ReadMembersBack(libc, ms[1..], rest, Stored(libc, c, KeyOf(m), m.value));
    }
  }

  lemma MembersStartWithQuote(libc: Libc, ms: seq<Member>, close: string)
    requires ms != [] && WellWritten(libc, ms[0])
    ensures var t := SkipSpaces(MembersText(ms, close)); t != "" && t[0] == '"'
  {
    var m := ms[0];
    var value := m.colon + [':'] + ValueText(m);
    var tail := (if |ms| == 1 then "" else [',']) + MembersText(ms[1..], close);
    var body := BodyText(m.key) + ['"'];
    Joined(m.before, QuotedText(m.key), value);
    Joined(m.before, QuotedText(m.key) + value, tail);
    Joined(['"'], body, value);
    Joined(['"'], body + value, tail);
    Behind('"', body + value + tail);
    SpacesSkipped(m.before, ['"'] + (body + value + tail));
  }

  lemma SkippedMembers(libc: Libc, s: string, c: SenseConfig)
    ensures ReadMembers(libc, SkipSpaces(s), c) == ReadMembers(libc, s, c)
  {
    SkipIdempotent(s);
    assert ReadString(SkipSpaces(s), KEY_BUFFER) == ReadString(s, KEY_BUFFER);
    assert ReadMember(libc, SkipSpaces(s), c) == ReadMember(libc, s, c);
  }

  lemma ReadObjectBack(libc: Libc, ms: seq<Member>, rest: string, c: SenseConfig)
    requires ReadsDecimals(libc) && AllWritten(libc, ms)
    ensures ReadObject(libc, MembersText(ms, ['}'] + rest), c) == Got(StoreAll(libc, c, ms), rest)
  {
    var close := ['}'] + rest;
    if ms == [] {
      Behind('}', rest);
    } else {
      MembersStartWithQuote(libc, ms, close);
      ReadMembersBack(libc, ms, rest, c);
      SkippedMembers(libc, MembersText(ms, close), c);
    }
  }

  /** Reading a written document stores its members one after the other. */
  lemma DocumentReadsBack(libc: Libc, lead: string, ms: seq<Member>, trail: string, c: SenseConfig)
    requires ReadsDecimals(libc) && AllSpaces(lead) && AllSpaces(trail)
    requires AllWritten(libc, ms)
    ensures ParseConfig(libc, Document(lead, ms, trail), c) == Some(StoreAll(libc, c, ms))
  {
    ReadCharBack(lead, '{', MembersText(ms, ['}'] + trail));
    ReadObjectBack(libc, ms, trail, c);
    assert trail == trail + "";
    SpacesSkipped(trail, "");
  }

  // -------------------------------------------------------------- last one wins

  lemma StoredField(libc: Libc, c: SenseConfig, key: Key, t: Token, k: Key)
    requires Suits(libc, key, t) && k != Unknown
    ensures Field(Stored(libc, c, key, t), k) == if k == key then Meaning(libc, key, t) else Field(c, k)
  {
  }

  lemma {:induction false} StoreAllSnoc(libc: Libc, c: SenseConfig, ms: seq<Member>)
    requires ms != [] && AllWritten(libc, ms)
    ensures var last := ms[|ms| - 1];
            StoreAll(libc, c, ms) == Stored(libc, StoreAll(libc, c, ms[..|ms| - 1]), KeyOf(last), last.value)
    decreases |ms|
  {
    var front := ms[..|ms| - 1];
    if |ms| == 1 {
      assert front == [] && ms[1..] == [];
    } else {
      StoreAllSnoc(libc, Stored(libc, c, KeyOf(ms[0]), ms[0].value), ms[1..]);
      assert ms[1..][..|ms| - 2] == front[1..];
      assert front[0] == ms[0];
    }
  }

  /** Each field ends up with what the last member for it says, or keeps its value if there is none. */
  lemma {:induction false} LastWins(libc: Libc, c: SenseConfig, ms: seq<Member>, k: Key)
    requires k != Unknown && AllWritten(libc, ms)
    ensures Field(StoreAll(libc, c, ms), k)
         == match LastMeaning(libc, ms, k) case None => Field(c, k) case Some(v) => v
    decreases |ms|
  {
    if ms != [] {
      var front, last := ms[..|ms| - 1], ms[|ms| - 1];
      LastWins(libc, c, front, k);
      StoreAllSnoc(libc, c, ms);
      StoredField(libc, StoreAll(libc, c, front), KeyOf(last), last.value, k);
    }
  }

  lemma SameFields(a: SenseConfig, b: SenseConfig)
    requires forall k: Key :: k != Unknown ==> Field(a, k) == Field(b, k)
    ensures a == b
  {
    assert Field(a, Device) == Field(b, Device) && Field(a, EventLog) == Field(b, EventLog);
    assert Field(a, MotionEnabled) == Field(b, MotionEnabled) && Field(a, RatioThreshold) == Field(b, RatioThreshold);
    assert Field(a, Number(Width)) == Field(b, Number(Width)) && Field(a, Number(Height)) == Field(b, Number(Height));
    assert Field(a, Number(FpsLimit)) == Field(b, Number(FpsLimit));
    assert Field(a, Number(JpegQuality)) == Field(b, Number(JpegQuality));
    assert Field(a, Number(HttpPort)) == Field(b, Number(HttpPort));
    assert Field(a, Number(SampleFps)) == Field(b, Number(SampleFps));
    assert Field(a, Number(ScaleDenom)) == Field(b, Number(ScaleDenom));
    assert Field(a, Number(DeltaThreshold)) == Field(b, Number(DeltaThreshold));
    assert Field(a, Number(CooldownMs)) == Field(b, Number(CooldownMs));
  }

  /**
   A document whose last word on every key is the configuration's value reads
   back as exactly that configuration, whatever was there before.
   */
  lemma ConfigRoundTrips(libc: Libc, lead: string, ms: seq<Member>, trail: string, target: SenseConfig, c: SenseConfig)
    requires ReadsDecimals(libc) && AllSpaces(lead) && AllSpaces(trail)
    requires AllWritten(libc, ms)
    requires forall k: Key :: k != Unknown ==> LastMeaning(libc, ms, k) == Some(Field(target, k))
    ensures ParseConfig(libc, Document(lead, ms, trail), c) == Some(target)
  {
    DocumentReadsBack(libc, lead, ms, trail, c);
    forall k: Key | k != Unknown ensures Field(StoreAll(libc, c, ms), k) == Field(target, k) {
      LastWins(libc, c, ms, k);
    }
    SameFields(StoreAll(libc, c, ms), target);
  }

  // ------------------------------------------------- every configuration can be written

  /** Quote and backslash escaped, everything else as it is. */
  function Quoted(s: string): (chunks: seq<Chunk>)
    ensures |chunks| == |s| && ChunksOk(chunks)
  {
    if s == "" then []
    else [if s[0] == '"' || s[0] == '\\' then Escape(s[0]) else Plain(s[0])] + Quoted(s[1..])
  }

  lemma {:induction false} QuotedValue(s: string)
    ensures BodyValue(Quoted(s)) == s
  {
    if s != "" {
      QuotedValue(s[1..]);
      assert s == [s[0]] + s[1..];
    }
  }

  lemma {:induction false} CStringWhole(s: string)
    requires '\0' !in s
    ensures CString(s) == s
  {
    if s != "" {
      CStringWhole(s[1..]);
      assert s == [s[0]] + s[1..];
    }
  }

  const KEYS: seq<Key> :=
    [Device, EventLog, MotionEnabled, RatioThreshold, Number(Width), Number(Height), Number(FpsLimit),
     Number(JpegQuality), Number(HttpPort), Number(SampleFps), Number(ScaleDenom), Number(DeltaThreshold),
     Number(CooldownMs)]

  function NameOf(key: Key): string {
    match key
    case Device => "device"
    case EventLog => "event_log"
    case MotionEnabled => "motion_enabled"
    case RatioThreshold => "motion_changed_ratio_threshold"
    case Number(Width) => "width"
    case Number(Height) => "height"
    case Number(FpsLimit) => "fps_limit"
    case Number(JpegQuality) => "jpeg_quality"
    case Number(HttpPort) => "http_port"
    case Number(SampleFps) => "motion_sample_fps"
    case Number(ScaleDenom) => "motion_jpeg_scale_denom"
    case Number(DeltaThreshold) => "motion_pixel_delta_threshold"
    case Number(CooldownMs) => "motion_cooldown_ms"
    case Unknown => "comment"
  }

  lemma NumberNamesAreKnown(n: NumberKey)
    ensures KeyNamed(NameOf(Number(n))) == Number(n)
  {
  }

  lemma NamesAreKnown(key: Key)
    ensures KeyNamed(NameOf(key)) == key
  {
    if key.Number? {
      NumberNamesAreKnown(key.number);
    }
  }

  predicate ShortName(s: string) {
    |s| < KEY_BUFFER && forall i :: 0 <= i < |s| ==> s[i] != '\0'
  }

  lemma PlainNamesAreShort(key: Key)
    requires !key.Number?
    ensures ShortName(NameOf(key))
  {
  }

  lemma SizeNamesAreShort(n: NumberKey)
    requires n in {Width, Height, FpsLimit, JpegQuality, HttpPort}
    ensures ShortName(NameOf(Number(n)))
  {
  }

  lemma MotionNamesAreShort(n: NumberKey)
    requires n in {SampleFps, ScaleDenom, DeltaThreshold, CooldownMs}
    ensures ShortName(NameOf(Number(n)))
  {
  }

  lemma NamesAreShort(key: Key)
    ensures |NameOf(key)| < KEY_BUFFER && '\0' !in NameOf(key)
  {
    var name := NameOf(key);
    assert ShortName(name) by {
      if !key.Number? {
        PlainNamesAreShort(key);
      } else if key.number in {Width, Height, FpsLimit, JpegQuality, HttpPort} {
        SizeNamesAreShort(key.number);
      } else {
        MotionNamesAreShort(key.number);
      }
    }
  }

  /** The value of a field as a token; a ratio comes as its decimal digits. */
  function TokenFor(c: SenseConfig, key: Key, whole: string, fraction: string): Token {
    match key
    case Device => StringToken(Quoted(c.device))
    case EventLog => StringToken(Quoted(c.eventLog))
    case MotionEnabled => if c.motionEnabled then TrueToken else FalseToken
    case RatioThreshold => NumberToken(false, whole, fraction)
    case Number(n) =>
      var v := Field(c, key).n;
      NumberToken(v < 0, Numeral(if v < 0 then -v else v), "")
    case Unknown => NullToken
  }

  function Written(c: SenseConfig, key: Key, whole: string, fraction: string): Member {
    Member("", Quoted(NameOf(key)), "", "", TokenFor(c, key, whole, fraction), "")
  }

  /** A configuration the daemon can hold: its texts fit their buffers as C strings. */
  predicate Storable(c: SenseConfig) {
    && |c.device| < DEVICE_BUFFER && '\0' !in c.device
    && |c.eventLog| < EVENT_PATH_BUFFER && '\0' !in c.eventLog
  }

  lemma WrittenKey(c: SenseConfig, key: Key, whole: string, fraction: string)
    ensures KeyOf(Written(c, key, whole, fraction)) == key
  {
    NamesAreKnown(key);
    NamesAreShort(key);
    QuotedValue(NameOf(key));
    CStringWhole(NameOf(key));
  }

  lemma WrittenInteger(libc: Libc, v: int)
    requires libc.longMax >= INT_MAX && 0 <= v <= INT_MAX
    ensures PlainNumber(Numeral(v), "") && Signed(false, ValueOf(Numeral(v))) == v && InLong(libc, v)
  {
    NumeralValue(v);
  }

  lemma ValidNumbers(c: SenseConfig, n: NumberKey)
    requires ValidConfig(c)
    ensures 0 <= Field(c, Number(n)).n <= INT_MAX
  {
  }

  lemma WrittenText(text: string)
    requires '\0' !in text
    ensures CString(BodyValue(Quoted(text))) == text
  {
    QuotedValue(text);
    CStringWhole(text);
  }

  lemma WrittenValue(libc: Libc, c: SenseConfig, key: Key, whole: string, fraction: string)
    requires ValidConfig(c) && Storable(c) && libc.longMax >= INT_MAX && key != Unknown
    requires PlainDecimal(whole, fraction) && DecimalValue(false, whole, fraction) == c.motionChangedRatioThreshold
    ensures Suits(libc, key, TokenFor(c, key, whole, fraction))
    ensures Meaning(libc, key, TokenFor(c, key, whole, fraction)) == Field(c, key)
  {
    match key {
      case Device => WrittenText(c.device);
      case EventLog => WrittenText(c.eventLog);
      case MotionEnabled =>
      case RatioThreshold =>
      case Number(n) =>
        ValidNumbers(c, n);
        WrittenInteger(libc, Field(c, key).n);
    }
  }

  lemma WrittenMember(libc: Libc, c: SenseConfig, key: Key, whole: string, fraction: string)
    requires ValidConfig(c) && Storable(c) && libc.longMax >= INT_MAX && key != Unknown
    requires PlainDecimal(whole, fraction) && DecimalValue(false, whole, fraction) == c.motionChangedRatioThreshold
    ensures WellWritten(libc, Written(c, key, whole, fraction))
    ensures KeyOf(Written(c, key, whole, fraction)) == key
    ensures Meaning(libc, key, TokenFor(c, key, whole, fraction)) == Field(c, key)
  {
    WrittenKey(c, key, whole, fraction);
    WrittenValue(libc, c, key, whole, fraction);
    NamesAreShort(key);
  }

  lemma {:induction false} LastMeaningUniform(libc: Libc, ms: seq<Member>, key: Key, v: FieldValue, i: nat)
    requires key != Unknown && AllWritten(libc, ms)
    requires i < |ms| && KeyOf(ms[i]) == key
    requires forall j :: 0 <= j < |ms| && KeyOf(ms[j]) == key ==> Meaning(libc, key, ms[j].value) == v
    ensures LastMeaning(libc, ms, key) == Some(v)
  {
    var n := |ms| - 1;
    if KeyOf(ms[n]) != key {
      LastMeaningUniform(libc, ms[..n], key, v, i);
    }
  }

  function WrittenConfig(c: SenseConfig, whole: string, fraction: string): (ms: seq<Member>)
    ensures |ms| == |KEYS| && forall i :: 0 <= i < |KEYS| ==> ms[i] == Written(c, KEYS[i], whole, fraction)
  {
    seq(|KEYS|, i requires 0 <= i < |KEYS| => Written(c, KEYS[i], whole, fraction))
  }

  lemma KeyIndex(key: Key) returns (i: nat)
    requires key != Unknown
    ensures i < |KEYS| && KEYS[i] == key
  {
    i := match key
         case Device => 0
         case EventLog => 1
         case MotionEnabled => 2
         case RatioThreshold => 3
         case Number(Width) => 4
         case Number(Height) => 5
         case Number(FpsLimit) => 6
         case Number(JpegQuality) => 7
         case Number(HttpPort) => 8
         case Number(SampleFps) => 9
         case Number(ScaleDenom) => 10
         case Number(DeltaThreshold) => 11
         case Number(CooldownMs) => 12;
  }

  /**
   Every valid configuration has a document and reads back from it, if its texts
   are C strings that fit and its ratio has at most DIGITS decimals.
   */
  lemma EveryConfigCanBeWritten(libc: Libc, c: SenseConfig, whole: string, fraction: string, before: SenseConfig)
    requires ReadsDecimals(libc) && libc.longMax >= INT_MAX && ValidConfig(c) && Storable(c)
    requires PlainDecimal(whole, fraction) && DecimalValue(false, whole, fraction) == c.motionChangedRatioThreshold
    ensures ParseConfig(libc, Document("", WrittenConfig(c, whole, fraction), ""), before) == Some(c)
  {
    var ms := WrittenConfig(c, whole, fraction);
    forall i | 0 <= i < |ms|
      ensures WellWritten(libc, ms[i]) && KeyOf(ms[i]) == KEYS[i]
      ensures KEYS[i] != Unknown && Meaning(libc, KEYS[i], ms[i].value) == Field(c, KEYS[i])
    {
      WrittenMember(libc, c, KEYS[i], whole, fraction);
    }
    forall k: Key | k != Unknown ensures LastMeaning(libc, ms, k) == Some(Field(c, k)) {
      var i := KeyIndex(k);
      LastMeaningUniform(libc, ms, k, Field(c, k), i);
    }
    ConfigRoundTrips(libc, "", ms, "", c, before);
  }
}
