/** Redacting and truncating audit payloads (src/protocol/util.rs). */
module AuditPayloads {
  import opened Prelude

  datatype Json =
    | Null
    | Bool(b: bool)
    | Number(literal: string)
    | Str(s: string)
    | Array(items: seq<Json>)
    | Object(members: seq<Member>)

  datatype Member = Member(key: string, value: Json)

  const REDACTED: Json := Str("[REDACTED]")
  const AUDIT_PAYLOAD_LIMIT_BYTES: nat := 65536
  const PREVIEW_CHARS: nat := 256

  // ---- Redaction -----------------------------------------------------------------------

  function NormalizedChar(c: char): char {
    if c == '-' then '_' else if 'A' <= c <= 'Z' then (c as int + 32) as char else c
  }

  function Normalized(key: string): string {
    seq(|key|, i requires 0 <= i < |key| => NormalizedChar(key[i]))
  }

  predicate EndsWith(s: string, suffix: string) {
    |suffix| <= |s| && s[|s| - |suffix|..] == suffix
  }

  predicate SensitiveKey(key: string) {
    var k := Normalized(key);
    || k == "token" || k == "password" || k == "secret" || k == "api_key" || k == "apikey"
    || k == "authorization" || k == "cookie" || k == "credential" || k == "credentials" || k == "access_key"
    || k == "accesskey" || k == "private_key" || k == "privatekey" || k == "enrollment_token"
    || EndsWith(k, "_token") || EndsWith(k, "_secret") || EndsWith(k, "_password") || EndsWith(k, "_key")
  }

  const SENSITIVE_WORDS: set<string> :=
    {"token", "password", "secret", "api_key", "apikey", "authorization", "cookie", "credential", "credentials",
     "access_key", "accesskey", "private_key", "privatekey", "enrollment_token"}
  const SENSITIVE_ENDINGS: set<string> := {"_token", "_secret", "_password", "_key"}

  /** The same letter in either case; a dash counts as an underscore. */
  predicate SameKeyChar(c: char, w: char) {
    c == w || (c == '-' && w == '_') || ('A' <= c <= 'Z' && 'a' <= w <= 'z' && c - 'A' == w - 'a')
  }

  predicate SameKey(key: string, word: string) {
    |key| == |word| && forall i :: 0 <= i < |key| ==> SameKeyChar(key[i], word[i])
  }

  predicate IsWord(w: string) {
    forall i :: 0 <= i < |w| ==> 'a' <= w[i] <= 'z' || w[i] == '_'
  }

  lemma NormalizedIs(key: string, w: string)
    requires IsWord(w)
    ensures Normalized(key) == w <==> SameKey(key, w)
    ensures EndsWith(Normalized(key), w) <==> |w| <= |key| && SameKey(key[|key| - |w|..], w)
  {
    if |w| <= |key| {
      var end := key[|key| - |w|..];
      assert Normalized(key)[|key| - |w|..] == Normalized(end);
      NormalizedCharsAre(end, w);
    }
    NormalizedCharsAre(key, w);
  }

  lemma NormalizedCharsAre(key: string, w: string)
    requires IsWord(w)
    ensures Normalized(key) == w <==> SameKey(key, w)
  {
    if SameKey(key, w) {
      assert forall i :: 0 <= i < |w| ==> Normalized(key)[i] == w[i];
    }
    if Normalized(key) == w {
      assert forall i :: 0 <= i < |w| ==> NormalizedChar(key[i]) == w[i];
    }
  }

  lemma WordsAreWords(w: string)
    requires w in SENSITIVE_WORDS + SENSITIVE_ENDINGS
    ensures IsWord(w)
  {
  }

  lemma WordsExactly(key: string)
    ensures Normalized(key) in SENSITIVE_WORDS <==> exists w :: w in SENSITIVE_WORDS && SameKey(key, w)
  {
    forall w | w in SENSITIVE_WORDS ensures Normalized(key) == w <==> SameKey(key, w) {
      WordsAreWords(w);
      NormalizedCharsAre(key, w);
    }
  }

  lemma EndingsExactly(key: string)
    ensures (exists w :: w in SENSITIVE_ENDINGS && EndsWith(Normalized(key), w)) <==>
              exists w :: w in SENSITIVE_ENDINGS && |w| <= |key| && SameKey(key[|key| - |w|..], w)
  {
    forall w | w in SENSITIVE_ENDINGS
      ensures EndsWith(Normalized(key), w) <==> |w| <= |key| && SameKey(key[|key| - |w|..], w)
    {
      WordsAreWords(w);
      NormalizedIs(key, w);
    }
  }

  lemma SensitiveWhenNormalized(key: string)
    ensures SensitiveKey(key) <==>
              || Normalized(key) in SENSITIVE_WORDS
              || exists w :: w in SENSITIVE_ENDINGS && EndsWith(Normalized(key), w)
  {
    var k := Normalized(key);
    assert (exists w :: w in SENSITIVE_ENDINGS && EndsWith(k, w)) <==>
           (EndsWith(k, "_token") || EndsWith(k, "_secret") || EndsWith(k, "_password") || EndsWith(k, "_key"));
  }

  /** Which keys are sensitive: the words, and all that end with one of the endings, in
      either case and with dashes for underscores. */
  lemma SensitiveExactly(key: string)
    ensures SensitiveKey(key) <==>
              || (exists w :: w in SENSITIVE_WORDS && SameKey(key, w))
              || (exists w :: w in SENSITIVE_ENDINGS && |w| <= |key| && SameKey(key[|key| - |w|..], w))
  {
    SensitiveWhenNormalized(key);
    WordsExactly(key);
    EndingsExactly(key);
  }

  function RedactJson(v: Json): Json {
    match v
    case Object(members) => Object(RedactMembers(members))
    case Array(items) => Array(RedactItems(items))
    case _ => v
  }

  function RedactMembers(members: seq<Member>): seq<Member> {
    if members == [] then []
    else
      var m := members[0];
      [Member(m.key, if SensitiveKey(m.key) then REDACTED else RedactJson(m.value))] + RedactMembers(members[1..])
  }

  function RedactItems(items: seq<Json>): seq<Json> {
    if items == [] then [] else [RedactJson(items[0])] + RedactItems(items[1..])
  }

  /** At no depth does a sensitive key have a value other than the redaction mark. */
  predicate Clean(v: Json) {
    match v
    case Object(members) => forall i :: 0 <= i < |members| ==> CleanMember(members[i])
    case Array(items) => forall i :: 0 <= i < |items| ==> Clean(items[i])
    case _ => true
  }

  predicate CleanMember(m: Member) {
    if SensitiveKey(m.key) then m.value == REDACTED else Clean(m.value)
  }

  lemma {:induction false} MembersRedacted(members: seq<Member>)
    ensures var r := RedactMembers(members);
            && |r| == |members|
            && forall i :: 0 <= i < |members| ==>
                 && r[i].key == members[i].key
                 && r[i].value == (if SensitiveKey(members[i].key) then REDACTED else RedactJson(members[i].value))
  {
    if members == [] {
    } else {
      MembersRedacted(members[1..]);
    }
  }

  lemma {:induction false} ItemsRedacted(items: seq<Json>)
    ensures var r := RedactItems(items);
            |r| == |items| && forall i :: 0 <= i < |items| ==> r[i] == RedactJson(items[i])
  {
    if items == [] {
    } else {
      ItemsRedacted(items[1..]);
    }
  }

  /** After redaction nothing sensitive is left, at any depth. */
  lemma {:induction false} RedactedIsClean(v: Json)
    ensures Clean(RedactJson(v))
    decreases v
  {
    match v {
      case Object(members) =>
        MembersRedacted(members);
        var r := RedactMembers(members);
        forall i | 0 <= i < |r| ensures CleanMember(r[i]) {
          if !SensitiveKey(members[i].key) {
            assert members[i] in members;
            RedactedIsClean(members[i].value);
          }
        }
      case Array(items) =>
        ItemsRedacted(items);
        forall i | 0 <= i < |items| ensures Clean(RedactItems(items)[i]) {
          RedactedIsClean(items[i]);
        }
      case _ =>
    }
  }

  /** And nothing else is touched: a value is its own redaction exactly when clean. */
  lemma {:induction false} CleanIsFixed(v: Json)
    ensures RedactJson(v) == v <==> Clean(v)
    decreases v
  {
    match v {
      case Object(members) =>
        MembersRedacted(members);
        var r := RedactMembers(members);
        forall i | 0 <= i < |members| ensures r[i] == members[i] <==> CleanMember(members[i]) {
          assert members[i] in members;
          CleanIsFixed(members[i].value);
        }
        if forall i :: 0 <= i < |members| ==> CleanMember(members[i]) {
          assert r == members;
        }
      case Array(items) =>
        ItemsRedacted(items);
        var r := RedactItems(items);
        forall i | 0 <= i < |items| ensures r[i] == items[i] <==> Clean(items[i]) {
          CleanIsFixed(items[i]);
        }
        if forall i :: 0 <= i < |items| ==> Clean(items[i]) {
          assert r == items;
        }
      case _ =>
    }
  }

  // ---- What redaction does at each place ----------------------------------------------------

  /** The value at the end of a path of positions. */
  function At(v: Json, path: seq<nat>): Option<Json>
    decreases |path|
  {
    if path == [] then Some(v)
    else match v
         case Array(items) => if path[0] < |items| then At(items[path[0]], path[1..]) else None
         case Object(members) => if path[0] < |members| then At(members[path[0]].value, path[1..]) else None
         case _ => None
  }

  /** The path is there, and no member on it has a sensitive key. */
  predicate Harmless(v: Json, path: seq<nat>)
    decreases |path|
  {
    path != [] ==>
      match v
      case Array(items) => path[0] < |items| && Harmless(items[path[0]], path[1..])
      case Object(members) =>
        path[0] < |members| && !SensitiveKey(members[path[0]].key) && Harmless(members[path[0]].value, path[1..])
      case _ => false
  }

  /** The last member on the path has a sensitive key, and none before it. */
  predicate Sensitive(v: Json, path: seq<nat>)
    decreases |path|
  {
    path != [] &&
    match v
    case Array(items) => path[0] < |items| && Sensitive(items[path[0]], path[1..])
    case Object(members) =>
      path[0] < |members| &&
      (if SensitiveKey(members[path[0]].key) then |path| == 1 else Sensitive(members[path[0]].value, path[1..]))
    case _ => false
  }

  /** The same value, but for what is inside it: as many items, the same keys. */
  predicate SameOutside(a: Json, b: Json) {
    match a
    case Array(items) => b.Array? && |b.items| == |items|
    case Object(members) =>
      b.Object? && |b.members| == |members| && forall i :: 0 <= i < |members| ==> b.members[i].key == members[i].key
    case _ => a == b
  }

  /** Wherever no sensitive key leads, everything stays as it was, and what a sensitive
      key holds becomes the redaction mark, whatever it was. */
  lemma {:induction false} RedactsExactly(v: Json, path: seq<nat>)
    ensures Harmless(v, path) ==>
              && At(v, path).Some? && At(RedactJson(v), path).Some?
              && SameOutside(At(v, path).value, At(RedactJson(v), path).value)
    ensures Sensitive(v, path) ==> At(RedactJson(v), path) == Some(Str("[REDACTED]"))
    decreases |path|
  {
    match v {
      case Object(members) =>
        MembersRedacted(members);
        if path != [] && path[0] < |members| {
          RedactsExactly(members[path[0]].value, path[1..]);
        }
      case Array(items) =>
        ItemsRedacted(items);
        if path != [] && path[0] < |items| {
          RedactsExactly(items[path[0]], path[1..]);
        }
      case _ =>
    }
  }

  // ---- Serialised size ---------------------------------------------------------------------

  /** Bytes of a character in UTF-8. */
  function CharBytes(c: char): nat {
    var n := c as int;
    if n < 0x80 then 1 else if n < 0x800 then 2 else if n < 0x10000 then 3 else 4
  }

  /** A sequence of `k` bytes in UTF-8 has 7 bits for the character, or 5 k + 1 when it
      has continuation bytes (section 3 of RFC 3629). */
  function Room(k: nat): nat
    requires 1 <= k <= 4
  {
    if k == 1 then 128 else 2 * Pow32(k)
  }

  function Pow32(k: nat): nat {
    if k == 0 then 1 else 32 * Pow32(k - 1)
  }

  /** It takes the fewest bytes that have room. */
  lemma CharBytesLeast(c: char)
    ensures 1 <= CharBytes(c) <= 4 && c as int < Room(CharBytes(c))
    ensures forall k: nat :: 1 <= k < CharBytes(c) ==> c as int >= Room(k)
  {
    assert Pow32(2) == 32 * Pow32(1) && Pow32(3) == 32 * Pow32(2) && Pow32(4) == 32 * Pow32(3);
  }

  function Bytes(s: string): nat {
    if s == "" then 0 else CharBytes(s[0]) + Bytes(s[1..])
  }

  lemma {:induction false} BytesAppend(a: string, b: string)
    ensures Bytes(a + b) == Bytes(a) + Bytes(b)
  {
    if a == "" {
      assert a + b == b;
    } else {
      assert (a + b)[1..] == a[1..] + b;
      BytesAppend(a[1..], b);
    }
  }

  function HexDigit(n: nat): char
    requires n < 16
  {
    if n < 10 then ('0' as int + n) as char else ('a' as int + n - 10) as char
  }

  function EscapedChar(c: char): string {
    var n := c as int;
    if c == '\"' then ['\\', '\"']
    else if c == '\\' then ['\\', '\\']
    else if n == 8 then ['\\', 'b']
    else if n == 9 then ['\\', 't']
    else if n == 10 then ['\\', 'n']
    else if n == 12 then ['\\', 'f']
    else if n == 13 then ['\\', 'r']
    else if n < 32 then ['\\', 'u', '0', '0', HexDigit(n / 16), HexDigit(n % 16)]
    else [c]
  }

  function EscapedText(s: string): string {
    if s == "" then "" else EscapedChar(s[0]) + EscapedText(s[1..])
  }

  function Quoted(s: string): string {
    "\"" + EscapedText(s) + "\""
  }

  function Decimal(n: nat): string {
    (if n < 10 then "" else Decimal(n / 10)) + [HexDigit(n % 10)]
  }

  function Serialized(v: Json): string {
    match v
    case Null => "null"
    case Bool(b) => if b then "true" else "false"
    case Number(literal) => literal
    case Str(s) => Quoted(s)
    case Array(items) => "[" + SerializedItems(items) + "]"
    case Object(members) => "{" + SerializedMembers(members) + "}"
  }

  function SerializedItems(items: seq<Json>): string {
    if items == [] then ""
    else Serialized(items[0]) + (if |items| > 1 then "," else "") + SerializedItems(items[1..])
  }

  function SerializedMembers(members: seq<Member>): string {
    if members == [] then ""
    else
      var m := members[0];
      Quoted(m.key) + ":" + Serialized(m.value) + (if |members| > 1 then "," else "") + SerializedMembers(members[1..])
  }

  /** The stand-in for a value that is too large; keys in map order. */
  function Wrapper(bytes: nat, preview: string): Json {
    Object([Member("original_bytes", Number(Decimal(bytes))), Member("preview", Str(preview)),
            Member("truncated", Bool(true))])
  }

  function Take(s: string, n: nat): string {
    if |s| <= n then s else s[..n]
  }

  function TruncateJson(v: Json, limit: nat): Json {
    var serialized := Serialized(v);
    if Bytes(serialized) <= limit then v else Wrapper(Bytes(serialized), Take(serialized, PREVIEW_CHARS))
  }

  function SanitizeAuditValue(v: Json): Json {
    TruncateJson(RedactJson(v), AUDIT_PAYLOAD_LIMIT_BYTES)
  }

  // ---- The wrapper fits and is clean --------------------------------------------------------

  lemma {:induction false} EscapedTextBytes(s: string)
    ensures Bytes(EscapedText(s)) <= 6 * |s|
  {
    if s == "" {
    } else {
      BytesAppend(EscapedChar(s[0]), EscapedText(s[1..]));
      EscapedCharBytes(s[0]);
      EscapedTextBytes(s[1..]);
    }
  }

  lemma {:induction false} AsciiBytes(s: string)
    requires forall i :: 0 <= i < |s| ==> (s[i] as int) < 0x80
    ensures Bytes(s) == |s|
  {
    if s == "" {
    } else {
      AsciiBytes(s[1..]);
    }
  }

  lemma EscapedCharBytes(c: char)
    ensures Bytes(EscapedChar(c)) <= 6
  {
    var e := EscapedChar(c);
    if e == [c] {
      assert e[1..] == "";
    } else {
      AsciiBytes(e);
    }
  }

  function Pow10(k: nat): nat {
    if k == 0 then 1 else 10 * Pow10(k - 1)
  }

  lemma {:induction false} DecimalBytes(n: nat, k: nat)
    requires k > 0 && n < Pow10(k)
    ensures Bytes(Decimal(n)) <= k
  {
    var d := [HexDigit(n % 10)];
    AsciiBytes(d);
    BytesAppend(if n < 10 then "" else Decimal(n / 10), d);
    assert Pow10(1) == 10 * Pow10(0) == 10;
    if n < 10 {
    } else {
      DecimalBytes(n / 10, k - 1);
    }
  }

  /** A usize has at most 20 decimal digits. */
  const USIZE_LIMIT: nat := 0x1_0000_0000_0000_0000

  lemma UsizeDigits()
    ensures USIZE_LIMIT <= Pow10(20)
  {
    assert Pow10(5) == 100_000;
    assert Pow10(10) == 100_000 * Pow10(5);
    assert Pow10(15) == 100_000 * Pow10(10);
    assert Pow10(20) == 100_000 * Pow10(15);
  }

  lemma QuotedBytes(s: string)
    ensures Bytes(Quoted(s)) <= 6 * |s| + 2
  {
    EscapedTextBytes(s);
    AsciiBytes("\"");
    BytesAppend("\"", EscapedText(s));
    BytesAppend("\"" + EscapedText(s), "\"");
  }

  lemma MemberBytes(m: Member, rest: seq<Member>)
    ensures Bytes(SerializedMembers([m] + rest))
         <= 6 * |m.key| + 4 + Bytes(Serialized(m.value)) + Bytes(SerializedMembers(rest))
  {
    var members := [m] + rest;
    assert members[1..] == rest;
    var separator := if |members| > 1 then "," else "";
    QuotedBytes(m.key);
    AsciiBytes(":");
    AsciiBytes(separator);
    BytesAppend(Quoted(m.key), ":");
    BytesAppend(Quoted(m.key) + ":", Serialized(m.value));
    BytesAppend(Quoted(m.key) + ":" + Serialized(m.value), separator);
    BytesAppend(Quoted(m.key) + ":" + Serialized(m.value) + separator, SerializedMembers(rest));
  }

  function MemberBound(m: Member): nat {
    6 * |m.key| + 4 + Bytes(Serialized(m.value))
  }

  lemma ObjectBytes(members: seq<Member>)
    ensures Bytes(Serialized(Object(members))) == Bytes(SerializedMembers(members)) + 2
  {
    AsciiBytes("{");
    AsciiBytes("}");
    BytesAppend("{", SerializedMembers(members));
    BytesAppend("{" + SerializedMembers(members), "}");
  }

  lemma ThreeMemberBytes(a: Member, b: Member, c: Member)
    ensures Bytes(Serialized(Object([a, b, c]))) <= MemberBound(a) + MemberBound(b) + MemberBound(c) + 2
  {
    ObjectBytes([a, b, c]);
    MemberBytes(a, [b, c]);
    MemberBytes(b, [c]);
    MemberBytes(c, []);
    assert [a, b, c] == [a] + [b, c] && [b, c] == [b] + [c] && [c] == [c] + [];
  }

  lemma WrapperValues(bytes: nat, preview: string)
    requires bytes < USIZE_LIMIT && |preview| <= PREVIEW_CHARS
    ensures Bytes(Serialized(Number(Decimal(bytes)))) <= 20
    ensures Bytes(Serialized(Str(preview))) <= 6 * PREVIEW_CHARS + 2
    ensures Bytes(Serialized(Bool(true))) == 4
  {
    UsizeDigits();
    DecimalBytes(bytes, 20);
    QuotedBytes(preview);
    AsciiBytes("true");
  }

  /** The wrapper's size has a bound that does not depend on the value it replaces. */
  lemma WrapperBytes(bytes: nat, preview: string)
    requires bytes < USIZE_LIMIT && |preview| <= PREVIEW_CHARS
    ensures Bytes(Serialized(Wrapper(bytes, preview))) <= 2_000
  {
    WrapperValues(bytes, preview);
    ThreeMemberBytes(Member("original_bytes", Number(Decimal(bytes))), Member("preview", Str(preview)),
                     Member("truncated", Bool(true)));
  }

  lemma SizeKeyIsPlain()
    ensures !SensitiveKey("original_bytes")
  {
    assert Normalized("original_bytes") == "original_bytes";
  }

  lemma PreviewKeyIsPlain()
    ensures !SensitiveKey("preview")
  {
    assert Normalized("preview") == "preview";
  }

  lemma FlagKeyIsPlain()
    ensures !SensitiveKey("truncated")
  {
    assert Normalized("truncated") == "truncated";
  }

  lemma WrapperIsClean(bytes: nat, preview: string)
    ensures Clean(Wrapper(bytes, preview))
  {
    SizeKeyIsPlain();
    PreviewKeyIsPlain();
    FlagKeyIsPlain();
  }

  // ---- The theorems ---------------------------------------------------------------------------

  /** What is stored is clean, however large the payload was. */
  lemma SanitizedIsClean(v: Json)
    ensures Clean(SanitizeAuditValue(v))
  {
    var text := Serialized(RedactJson(v));
    RedactedIsClean(v);
    WrapperIsClean(Bytes(text), Take(text, PREVIEW_CHARS));
  }

  function DigitValue(c: char): nat {
    if '0' <= c <= '9' then c as nat - '0' as nat else 0
  }

  /** The number that decimal digits stand for. */
  function DecimalValue(digits: string): nat {
    if digits == "" then 0
    else 10 * DecimalValue(digits[..|digits| - 1]) + DigitValue(digits[|digits| - 1])
  }

  lemma DecimalOneMore(front: string, digit: nat)
    requires digit < 10
    ensures DecimalValue(front + [HexDigit(digit)]) == 10 * DecimalValue(front) + digit
  {
    assert (front + [HexDigit(digit)])[..|front|] == front;
  }

  lemma {:induction false} DecimalReads(n: nat)
    ensures DecimalValue(Decimal(n)) == n
  {
    var front := if n < 10 then "" else Decimal(n / 10);
    DecimalOneMore(front, n % 10);
    if n < 10 {
    } else {
      DecimalReads(n / 10);
    }
  }

  lemma {:induction false} DecimalDigits(n: nat)
    ensures Decimal(n) != "" && forall i :: 0 <= i < |Decimal(n)| ==> '0' <= Decimal(n)[i] <= '9'
  {
    if n < 10 {
    } else {
      DecimalDigits(n / 10);
    }
  }

  lemma {:induction false} BytesAtMost(s: string)
    ensures |s| <= Bytes(s) <= 4 * |s|
  {
    if s == "" {
    } else {
      BytesAtMost(s[1..]);
    }
  }

  /** A payload that is within 64 KiB once redacted is stored as it is then; of a larger
      one are stored its size and the first 256 characters of its text. */
  lemma SanitizesTo(v: Json)
    ensures var text, stored := Serialized(RedactJson(v)), SanitizeAuditValue(v);
            if Bytes(text) <= 65_536 then stored == RedactJson(v)
            else
              && |text| >= 256 && stored.Object? && |stored.members| == 3
              && stored.members[0].key == "original_bytes" && stored.members[0].value.Number?
              && DecimalValue(stored.members[0].value.literal) == Bytes(text)
              && (forall c :: c in stored.members[0].value.literal ==> '0' <= c <= '9')
              && stored.members[1] == Member("preview", Str(text[..256]))
              && stored.members[2] == Member("truncated", Bool(true))
  {
    var text := Serialized(RedactJson(v));
    BytesAtMost(text);
    DecimalReads(Bytes(text));
    DecimalDigits(Bytes(text));
  }

  /** What is stored is clean and within the limit. */
  lemma SanitizedIsSafe(v: Json)
    requires Bytes(Serialized(RedactJson(v))) < USIZE_LIMIT
    ensures Clean(SanitizeAuditValue(v))
    ensures Bytes(Serialized(SanitizeAuditValue(v))) <= AUDIT_PAYLOAD_LIMIT_BYTES
  {
    var r := RedactJson(v);
    RedactedIsClean(v);
    if Bytes(Serialized(r)) > AUDIT_PAYLOAD_LIMIT_BYTES {
      WrapperBytes(Bytes(Serialized(r)), Take(Serialized(r), PREVIEW_CHARS));
      WrapperIsClean(Bytes(Serialized(r)), Take(Serialized(r), PREVIEW_CHARS));
    }
  }

  /** A payload sanitised on the worker is unchanged when the leader sanitises it again. */
  lemma SanitizeIsIdempotent(v: Json)
    requires Bytes(Serialized(RedactJson(v))) < USIZE_LIMIT
    ensures SanitizeAuditValue(SanitizeAuditValue(v)) == SanitizeAuditValue(v)
  {
    SanitizedIsSafe(v);
    CleanIsFixed(SanitizeAuditValue(v));
  }

  /** Sanitising leaves a payload alone exactly when it is clean and small enough. */
  lemma SanitizeKeepsExactly(v: Json)
    requires Bytes(Serialized(RedactJson(v))) < USIZE_LIMIT
    ensures SanitizeAuditValue(v) == v <==> Clean(v) && Bytes(Serialized(v)) <= AUDIT_PAYLOAD_LIMIT_BYTES
  {
    SanitizedIsSafe(v);
    CleanIsFixed(v);
  }
}
