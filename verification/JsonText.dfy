/**
 The text of a payload as the audit table stores it (src/state/audit.rs), read back by
 the grammar of RFC 8259, without the white space that is never written and with numbers
 left as they stand.
 */
module JsonTexts {
  import opened Prelude
  import opened AuditPayloads

  // ---- Reading ---------------------------------------------------------------------------

  predicate IsNumberChar(c: char) {
    '0' <= c <= '9' || c == '+' || c == '-' || c == '.' || c == 'e' || c == 'E'
  }

  function NumberLength(t: string): (n: nat)
    ensures n <= |t|
  {
    if t == "" || !IsNumberChar(t[0]) then 0 else 1 + NumberLength(t[1..])
  }

  function HexValue(c: char): Option<nat> {
    if '0' <= c <= '9' then Some(c as nat - '0' as nat)
    else if 'a' <= c <= 'f' then Some(c as nat - 'a' as nat + 10)
    else if 'A' <= c <= 'F' then Some(c as nat - 'A' as nat + 10)
    else None
  }

  /** The character of four hexadecimal digits. Surrogates are not read: only control
      characters are ever written this way. */
  function HexChar(digits: string): Option<char>
    requires |digits| == 4
  {
    var (a, b, c, d) := (HexValue(digits[0]), HexValue(digits[1]), HexValue(digits[2]), HexValue(digits[3]));
    if a.None? || b.None? || c.None? || d.None? then None
    else
      var n := 4096 * a.value + 256 * b.value + 16 * c.value + d.value;
      if n < 0xD800 then Some(n as char) else None
  }

  function Unescaped(c: char): Option<char> {
    if c == '\"' || c == '\\' || c == '/' then Some(c)
    else if c == 'b' then Some(8 as char)
    else if c == 'f' then Some(12 as char)
    else if c == 'n' then Some(10 as char)
    else if c == 'r' then Some(13 as char)
    else if c == 't' then Some(9 as char)
    else None
  }

  /** One character of a string, and how much text it took. */
  function ReadChar(t: string): (r: Option<(char, nat)>)
    ensures r.Some? ==> 0 < r.value.1 <= |t|
  {
    if t == "" || t[0] == '\"' || (t[0] as int) < 32 then None
    else if t[0] != '\\' then Some((t[0], 1))
    else if |t| >= 6 && t[1] == 'u' then
      if HexChar(t[2..6]).Some? then Some((HexChar(t[2..6]).value, 6)) else None
    else if |t| >= 2 && Unescaped(t[1]).Some? then Some((Unescaped(t[1]).value, 2))
    else None
  }

  /** A string after its opening quote: its characters, and the text after it. */
  function ReadText(t: string): (r: Option<(string, string)>)
    ensures r.Some? ==> |r.value.1| < |t|
    decreases |t|
  {
    if t != "" && t[0] == '\"' then Some(("", t[1..]))
    else
      var first := ReadChar(t);
      if first.None? then None
      else
        var more := ReadText(t[first.value.1..]);
        if more.None? then None else Some(([first.value.0] + more.value.0, more.value.1))
  }

  predicate Starts(t: string, word: string) {
    |word| <= |t| && t[..|word|] == word
  }

  function ReadValue(t: string): (r: Option<(Json, string)>)
    ensures r.Some? ==> |r.value.1| < |t|
    decreases |t|, 0
  {
    if t == "" then None
    else if t[0] == '\"' then
      var text := ReadText(t[1..]);
      if text.Some? then Some((Str(text.value.0), text.value.1)) else None
    else if t[0] == '[' then
      if |t| > 1 && t[1] == ']' then Some((Array([]), t[2..]))
      else
        var items := ReadItems(t[1..]);
        if items.Some? then Some((Array(items.value.0), items.value.1)) else None
    else if t[0] == '{' then
      if |t| > 1 && t[1] == '}' then Some((Object([]), t[2..]))
      else
        var members := ReadMembers(t[1..]);
        if members.Some? then Some((Object(members.value.0), members.value.1)) else None
    else if IsNumberChar(t[0]) then Some((Number(t[..NumberLength(t)]), t[NumberLength(t)..]))
    else if Starts(t, "null") then Some((Null, t[4..]))
    else if Starts(t, "true") then Some((Bool(true), t[4..]))
    else if Starts(t, "false") then Some((Bool(false), t[5..]))
    else None
  }

  /** Values with commas between them, up to the closing bracket. */
  function ReadItems(t: string): (r: Option<(seq<Json>, string)>)
    ensures r.Some? ==> |r.value.1| < |t|
    decreases |t|, 1
  {
    var first := ReadValue(t);
    if first.None? then None
    else
      var (v, rest) := first.value;
      if Starts(rest, "]") then Some(([v], rest[1..]))
      else if Starts(rest, ",") then
        var more := ReadItems(rest[1..]);
        if more.None? then None else Some(([v] + more.value.0, more.value.1))
      else None
  }

  function ReadMember(t: string): (r: Option<(Member, string)>)
    ensures r.Some? ==> |r.value.1| < |t|
    decreases |t|, 1
  {
    var key := if Starts(t, "\"") then ReadText(t[1..]) else None;
    if key.None? || !Starts(key.value.1, ":") then None
    else
      var v := ReadValue(key.value.1[1..]);
      if v.None? then None else Some((Member(key.value.0, v.value.0), v.value.1))
  }

  function ReadMembers(t: string): (r: Option<(seq<Member>, string)>)
    ensures r.Some? ==> |r.value.1| < |t|
    decreases |t|, 2
  {
    var first := ReadMember(t);
    if first.None? then None
    else
      var (m, rest) := first.value;
      if Starts(rest, "}") then Some(([m], rest[1..]))
      else if Starts(rest, ",") then
        var more := ReadMembers(rest[1..]);
        if more.None? then None else Some(([m] + more.value.0, more.value.1))
      else None
  }

  // ---- What was written reads back -------------------------------------------------------

  /** Numbers are kept as their literals, which have only the characters of numbers. */
  predicate NumbersOk(v: Json) {
    match v
    case Number(literal) => literal != "" && forall c :: c in literal ==> IsNumberChar(c)
    case Array(items) => forall i :: 0 <= i < |items| ==> NumbersOk(items[i])
    case Object(members) => forall i :: 0 <= i < |members| ==> NumbersOk(members[i].value)
    case _ => true
  }

  predicate EndsNumber(rest: string) {
    rest == "" || !IsNumberChar(rest[0])
  }

  lemma {:induction false} NumberReadsBack(literal: string, rest: string)
    requires (forall c :: c in literal ==> IsNumberChar(c)) && EndsNumber(rest)
    ensures NumberLength(literal + rest) == |literal|
  {
    if literal == "" {
      assert literal + rest == rest;
    } else {
      assert (literal + rest)[1..] == literal[1..] + rest;
      NumberReadsBack(literal[1..], rest);
    }
  }

  lemma CharReadsBack(c: char, rest: string)
    ensures ReadChar(EscapedChar(c) + rest) == Some((c, |EscapedChar(c)|))
  {
    var e, n := EscapedChar(c), c as int;
    if |e| == 6 {
      assert (e + rest)[2..6] == e[2..6] == ['0', '0', HexDigit(n / 16), HexDigit(n % 16)];
      assert 16 * (n / 16) + n % 16 == n;
    }
  }

  lemma {:induction false} TextReadsBack(s: string, rest: string)
    ensures ReadText(EscapedText(s) + ("\"" + rest)) == Some((s, rest))
  {
    var tail := "\"" + rest;
    if s == "" {
      assert EscapedText(s) + tail == tail && tail[1..] == rest;
    } else {
      var first, more := EscapedChar(s[0]), EscapedText(s[1..]) + tail;
      assert EscapedText(s) + tail == first + more && (first + more)[|first|..] == more;
      CharReadsBack(s[0], more);
      TextReadsBack(s[1..], rest);
      assert [s[0]] + s[1..] == s;
    }
  }

  lemma QuotedReadsBack(s: string, rest: string)
    ensures Starts(Quoted(s) + rest, "\"") && ReadText((Quoted(s) + rest)[1..]) == Some((s, rest))
  {
    assert (Quoted(s) + rest)[1..] == EscapedText(s) + ("\"" + rest);
    TextReadsBack(s, rest);
  }

  lemma FirstChar(v: Json)
    requires NumbersOk(v)
    ensures var t := Serialized(v); t != "" && t[0] != ']' && t[0] != ',' && t[0] != '}'
  {
    if v.Number? {
      assert v.literal[0] in v.literal;
    }
  }

  lemma NullReadsBack(rest: string)
    ensures ReadValue("null" + rest) == Some((Null, rest))
  {
    assert ("null" + rest)[..4] == "null" && ("null" + rest)[4..] == rest;
  }

  lemma TrueReadsBack(rest: string)
    ensures ReadValue("true" + rest) == Some((Bool(true), rest))
  {
    assert ("true" + rest)[..4] == "true" && ("true" + rest)[4..] == rest;
    assert ("true" + rest)[..4][0] == 't';
  }

  lemma FalseReadsBack(rest: string)
    ensures ReadValue("false" + rest) == Some((Bool(false), rest))
  {
    assert ("false" + rest)[..5] == "false" && ("false" + rest)[5..] == rest;
    assert ("false" + rest)[..4][0] == 'f';
  }

  lemma LiteralReadsBack(literal: string, rest: string)
    requires NumbersOk(Number(literal)) && EndsNumber(rest)
    ensures ReadValue(literal + rest) == Some((Number(literal), rest))
  {
    NumberReadsBack(literal, rest);
    var t := literal + rest;
    assert literal[0] in literal && t[..|literal|] == literal && t[|literal|..] == rest;
  }

  lemma InBrackets(inner: string, items: seq<Json>, rest: string)
    requires ReadItems(inner) == Some((items, rest)) && inner != "" && inner[0] != ']'
    ensures ReadValue("[" + inner) == Some((Array(items), rest))
  {
    assert ("[" + inner)[1..] == inner;
  }

  lemma InBraces(inner: string, members: seq<Member>, rest: string)
    requires ReadMembers(inner) == Some((members, rest)) && inner != "" && inner[0] != '}'
    ensures ReadValue("{" + inner) == Some((Object(members), rest))
  {
    assert ("{" + inner)[1..] == inner;
  }

  lemma EmptyReadsBack(rest: string)
    ensures ReadValue("[" + ("]" + rest)) == Some((Array([]), rest))
    ensures ReadValue("{" + ("}" + rest)) == Some((Object([]), rest))
  {
    assert ("[" + ("]" + rest))[2..] == rest && ("{" + ("}" + rest))[2..] == rest;
  }

  lemma ArrayReadsBack(items: seq<Json>, rest: string)
    requires NumbersOk(Array(items))
    requires items != [] ==> ReadItems(SerializedItems(items) + ("]" + rest)) == Some((items, rest))
    ensures ReadValue(Serialized(Array(items)) + rest) == Some((Array(items), rest))
  {
    Regroup("[", SerializedItems(items), "]", rest);
    if items == [] {
      EmptyReadsBack(rest);
      assert "" + ("]" + rest) == "]" + rest;
    } else {
      FirstChar(items[0]);
      InBrackets(SerializedItems(items) + ("]" + rest), items, rest);
    }
  }

  lemma FirstCharOfMembers(members: seq<Member>)
    requires members != []
    ensures SerializedMembers(members) != "" && SerializedMembers(members)[0] == '\"'
  {
    assert Quoted(members[0].key)[0] == '\"';
  }

  lemma ObjectReadsBack(members: seq<Member>, rest: string)
    requires members != [] ==> ReadMembers(SerializedMembers(members) + ("}" + rest)) == Some((members, rest))
    ensures ReadValue(Serialized(Object(members)) + rest) == Some((Object(members), rest))
  {
    Regroup("{", SerializedMembers(members), "}", rest);
    if members == [] {
      EmptyReadsBack(rest);
      assert "" + ("}" + rest) == "}" + rest;
    } else {
      FirstCharOfMembers(members);
      InBraces(SerializedMembers(members) + ("}" + rest), members, rest);
    }
  }

  /** A value's text followed by anything that does not go on as a number reads as the
      value, with the rest left over. */
  lemma {:induction false} ReadsBack(v: Json, rest: string)
    requires NumbersOk(v) && EndsNumber(rest)
    ensures ReadValue(Serialized(v) + rest) == Some((v, rest))
    decreases v, 1, 0
  {
    match v {
      case Null => NullReadsBack(rest);
      case Bool(b) =>
        if b {
          TrueReadsBack(rest);
        } else {
          FalseReadsBack(rest);
        }
      case Number(literal) => LiteralReadsBack(literal, rest);
      case Str(s) => QuotedReadsBack(s, rest);
      case Array(items) =>
        if items != [] {
          ItemsReadBack(v, items, rest);
        }
        ArrayReadsBack(items, rest);
      case Object(members) =>
        if members != [] {
          MembersReadBack(v, members, rest);
        }
        ObjectReadsBack(members, rest);
    }
  }

  lemma Regroup(a: string, b: string, c: string, d: string)
    ensures a + b + c + d == a + (b + (c + d))
  {
  }

  lemma ItemsEnd(t: string, v: Json, rest: string)
    requires ReadValue(t) == Some((v, "]" + rest))
    ensures ReadItems(t) == Some(([v], rest))
  {
    assert ("]" + rest)[..1] == "]" && ("]" + rest)[1..] == rest;
  }

  lemma ItemsGoOn(t: string, v: Json, next: string, more: seq<Json>, rest: string)
    requires ReadValue(t) == Some((v, "," + next)) && ReadItems(next) == Some((more, rest))
    ensures ReadItems(t) == Some(([v] + more, rest))
  {
    assert ("," + next)[..1] == "," && ("," + next)[1..] == next;
  }

  /** The text of a list from its first element on. */
  lemma ItemsText(items: seq<Json>, close: string)
    requires items != []
    ensures SerializedItems(items) + close
         == Serialized(items[0]) + if |items| == 1 then close else "," + (SerializedItems(items[1..]) + close)
  {
    var first, more := Serialized(items[0]), SerializedItems(items[1..]);
    if |items| == 1 {
      assert SerializedItems(items) == first + "" + "" == first;
    } else {
      assert SerializedItems(items) == first + "," + more;
      Regroup(first, ",", more, close);
    }
  }

  lemma {:induction false} ItemsReadBack(v: Json, items: seq<Json>, rest: string)
    requires items != [] && forall i :: 0 <= i < |items| ==> items[i] < v && NumbersOk(items[i])
    ensures ReadItems(SerializedItems(items) + ("]" + rest)) == Some((items, rest))
    decreases v, 0, |items|
  {
    var t, more := SerializedItems(items) + ("]" + rest), items[1..];
    ItemsText(items, "]" + rest);
    assert [items[0]] + more == items;
    if more == [] {
      ReadsBack(items[0], "]" + rest);
      ItemsEnd(t, items[0], rest);
      assert [items[0]] == items;
    } else {
      var next := SerializedItems(more) + ("]" + rest);
      ReadsBack(items[0], "," + next);
      ItemsReadBack(v, more, rest);
      ItemsGoOn(t, items[0], next, more, rest);
    }
  }

  lemma {:induction false} MemberReadsBack(v: Json, m: Member, rest: string)
    requires m.value < v && NumbersOk(m.value) && EndsNumber(rest)
    ensures ReadMember(Quoted(m.key) + (":" + (Serialized(m.value) + rest))) == Some((m, rest))
    decreases v, 0, 0
  {
    var after := ":" + (Serialized(m.value) + rest);
    QuotedReadsBack(m.key, after);
    assert after[..1] == ":" && after[1..] == Serialized(m.value) + rest;
    ReadsBack(m.value, rest);
  }

  lemma MembersEnd(t: string, m: Member, rest: string)
    requires ReadMember(t) == Some((m, "}" + rest))
    ensures ReadMembers(t) == Some(([m], rest))
  {
    assert ("}" + rest)[..1] == "}" && ("}" + rest)[1..] == rest;
  }

  lemma MembersGoOn(t: string, m: Member, next: string, more: seq<Member>, rest: string)
    requires ReadMember(t) == Some((m, "," + next)) && ReadMembers(next) == Some((more, rest))
    ensures ReadMembers(t) == Some(([m] + more, rest))
  {
    assert ("," + next)[..1] == "," && ("," + next)[1..] == next;
  }

  lemma MembersText(members: seq<Member>, close: string)
    requires members != []
    ensures var m := members[0];
            SerializedMembers(members) + close
              == Quoted(m.key) + (":" + (Serialized(m.value)
                   + if |members| == 1 then close else "," + (SerializedMembers(members[1..]) + close)))
  {
    var key, value, more := Quoted(members[0].key), Serialized(members[0].value), SerializedMembers(members[1..]);
    if |members| == 1 {
      assert SerializedMembers(members) == key + ":" + value + "" + "" == key + ":" + value;
      Regroup(key, ":", value, close);
    } else {
      assert SerializedMembers(members) == key + ":" + value + "," + more;
      Regroup(key + ":" + value, ",", more, close);
      Regroup(key, ":", value, "," + (more + close));
    }
  }

  lemma {:induction false} MembersReadBack(v: Json, members: seq<Member>, rest: string)
    requires members != []
    requires forall i :: 0 <= i < |members| ==> members[i].value < v && NumbersOk(members[i].value)
    ensures ReadMembers(SerializedMembers(members) + ("}" + rest)) == Some((members, rest))
    decreases v, 0, |members|
  {
    var t, m, more := SerializedMembers(members) + ("}" + rest), members[0], members[1..];
    MembersText(members, "}" + rest);
    assert [m] + more == members;
    if more == [] {
      MemberReadsBack(v, m, "}" + rest);
      MembersEnd(t, m, rest);
      assert [m] == members;
    } else {
      var next := SerializedMembers(more) + ("}" + rest);
      MemberReadsBack(v, m, "," + next);
      MembersReadBack(v, more, rest);
      MembersGoOn(t, m, next, more, rest);
    }
  }

  // ---- The stored payload ------------------------------------------------------------------

  lemma {:induction false} RedactionKeepsNumbers(v: Json)
    requires NumbersOk(v)
    ensures NumbersOk(RedactJson(v))
    decreases v
  {
    match v {
      case Object(members) =>
        MembersRedacted(members);
        forall i | 0 <= i < |members| ensures NumbersOk(RedactMembers(members)[i].value) {
          assert members[i] in members;
          RedactionKeepsNumbers(members[i].value);
        }
      case Array(items) =>
        ItemsRedacted(items);
        forall i | 0 <= i < |items| ensures NumbersOk(RedactItems(items)[i]) {
          RedactionKeepsNumbers(items[i]);
        }
      case _ =>
    }
  }

  lemma SanitizedNumbersOk(v: Json)
    requires NumbersOk(v)
    ensures NumbersOk(SanitizeAuditValue(v))
  {
    RedactionKeepsNumbers(v);
    DecimalDigits(Bytes(Serialized(RedactJson(v))));
  }

  /** The text of a sanitised payload reads back as that payload and nothing more. */
  lemma StoredReadsBack(v: Json)
    requires NumbersOk(v)
    ensures ReadValue(Serialized(SanitizeAuditValue(v))) == Some((SanitizeAuditValue(v), ""))
  {
    SanitizedNumbersOk(v);
    ReadsBack(SanitizeAuditValue(v), "");
    assert Serialized(SanitizeAuditValue(v)) + "" == Serialized(SanitizeAuditValue(v));
  }
}
