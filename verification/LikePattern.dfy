/** Searching text with an escaped LIKE pattern (src/state/pagination.rs, src/state/audit.rs). */
module LikePatterns {
  /** `str::replace` for a pattern of one character. */
  function Replace(s: string, c: char, with: string): string {
    if s == "" then "" else (if s[0] == c then with else [s[0]]) + Replace(s[1..], c, with)
  }

  /** Three passes, backslash first. */
  function EscapeLike(value: string): string {
    Replace(Replace(Replace(value, '\\', "\\\\"), '%', "\\%"), '_', "\\_")
  }

  predicate IsSpecial(c: char) {
    c == '\\' || c == '%' || c == '_'
  }

  /** One pass: a backslash before every special character. */
  function Escaped(value: string): string {
    if value == "" then "" else (if IsSpecial(value[0]) then ['\\', value[0]] else [value[0]]) + Escaped(value[1..])
  }

  lemma {:induction false} ReplaceAppend(a: string, b: string, c: char, with: string)
    ensures Replace(a + b, c, with) == Replace(a, c, with) + Replace(b, c, with)
  {
    if a == "" {
      assert a + b == b;
    } else {
      assert (a + b)[1..] == a[1..] + b;
      ReplaceAppend(a[1..], b, c, with);
    }
  }

  lemma ReplaceOne(x: char, c: char, with: string)
    ensures Replace([x], c, with) == if x == c then with else [x]
  {
    assert [x][1..] == "";
  }

  lemma ReplaceTwo(x: char, y: char, c: char, with: string)
    ensures Replace([x, y], c, with) == (if x == c then with else [x]) + (if y == c then with else [y])
  {
    assert [x, y][1..] == [y];
    ReplaceOne(y, c, with);
  }

  lemma EscapeOne(x: char)
    ensures EscapeLike([x]) == if IsSpecial(x) then ['\\', x] else [x]
  {
    ReplaceOne(x, '\\', "\\\\");
    if x == '\\' {
      ReplaceTwo('\\', '\\', '%', "\\%");
      ReplaceTwo('\\', '\\', '_', "\\_");
    } else if x == '%' {
      ReplaceOne(x, '%', "\\%");
      ReplaceTwo('\\', '%', '_', "\\_");
    } else {
      ReplaceOne(x, '%', "\\%");
      ReplaceOne(x, '_', "\\_");
    }
  }

  /** The three passes amount to one escape per character: the first pass is the one
      for backslashes, so that no inserted backslash is escaped again. */
  lemma {:induction false} EscapeLikeIsEscaped(value: string)
    ensures EscapeLike(value) == Escaped(value)
  {
    if value == "" {
    } else {
      var first, rest := [value[0]], value[1..];
      assert value == first + rest;
      ReplaceAppend(first, rest, '\\', "\\\\");
      ReplaceAppend(Replace(first, '\\', "\\\\"), Replace(rest, '\\', "\\\\"), '%', "\\%");
      ReplaceAppend(Replace(Replace(first, '\\', "\\\\"), '%', "\\%"),
                    Replace(Replace(rest, '\\', "\\\\"), '%', "\\%"), '_', "\\_");
      EscapeOne(value[0]);
      EscapeLikeIsEscaped(rest);
    }
  }

  // ---- LIKE ------------------------------------------------------------------------------

  /** SQLite's LIKE ignores the case of ASCII letters. */
  function Fold(c: char): char {
    if 'A' <= c <= 'Z' then (c as int - 'A' as int + 'a' as int) as char else c
  }

  predicate SameLetter(a: char, b: char) {
    Fold(a) == Fold(b)
  }

  /** Two characters match when they are the same, or the two cases of an ASCII letter. */
  lemma SameLetterExactly(a: char, b: char)
    ensures SameLetter(a, b) <==>
              || a == b
              || ('A' <= a <= 'Z' && 'a' <= b <= 'z' && a - 'A' == b - 'a')
              || ('a' <= a <= 'z' && 'A' <= b <= 'Z' && a - 'a' == b - 'A')
  {
  }

  /** `text LIKE pattern ESCAPE '\'`. A backslash at the end matches nothing. */
  predicate Like(pattern: string, text: string)
    decreases |pattern|, |text|
  {
    if pattern == "" then text == ""
    else if pattern[0] == '%' then Like(pattern[1..], text) || (text != "" && Like(pattern, text[1..]))
    else if text == "" then false
    else if pattern[0] == '_' then Like(pattern[1..], text[1..])
    else if pattern[0] == '\\' then
      |pattern| >= 2 && SameLetter(pattern[1], text[0]) && Like(pattern[2..], text[1..])
    else SameLetter(pattern[0], text[0]) && Like(pattern[1..], text[1..])
  }

  ghost predicate SameText(a: string, b: string) {
    |a| == |b| && forall i :: 0 <= i < |a| ==> SameLetter(a[i], b[i])
  }

  ghost predicate StartsWith(text: string, q: string) {
    |q| <= |text| && SameText(q, text[..|q|])
  }

  ghost predicate Contains(text: string, q: string) {
    exists i :: 0 <= i <= |text| && StartsWith(text[i..], q)
  }

  lemma {:induction false} PercentMatchesAll(text: string)
    ensures Like("%", text)
  {
    assert "%"[1..] == "";
    if text == "" {
    } else {
      PercentMatchesAll(text[1..]);
    }
  }

  lemma {:induction false} EscapedThenPercent(q: string, text: string)
    ensures Like(Escaped(q) + "%", text) <==> StartsWith(text, q)
    decreases |q|
  {
    var pattern := Escaped(q) + "%";
    if q == "" {
      assert pattern == "%";
      PercentMatchesAll(text);
      assert text[..0] == "";
    } else {
      var rest := Escaped(q[1..]) + "%";
      if IsSpecial(q[0]) {
        assert pattern == ['\\', q[0]] + rest;
        assert pattern[2..] == rest;
      } else {
        assert pattern == [q[0]] + rest;
        assert pattern[1..] == rest;
      }
      if text != "" {
        EscapedThenPercent(q[1..], text[1..]);
        StartsWithStep(text, q);
      }
    }
  }

  lemma StartsWithStep(text: string, q: string)
    requires text != "" && q != ""
    ensures StartsWith(text, q) <==> SameLetter(q[0], text[0]) && StartsWith(text[1..], q[1..])
  {
    if |q| <= |text| {
      var head := text[..|q|];
      assert text[1..][..|q| - 1] == head[1..];
      if SameText(q, head) {
        forall i | 0 <= i < |q| - 1 ensures SameLetter(q[1..][i], head[1..][i]) {
          assert SameLetter(q[i + 1], head[i + 1]);
        }
      }
      if SameLetter(q[0], text[0]) && SameText(q[1..], head[1..]) {
        forall i | 0 <= i < |q| ensures SameLetter(q[i], head[i]) {
          if i > 0 {
            assert SameLetter(q[1..][i - 1], head[1..][i - 1]);
          }
        }
      }
    }
  }

  lemma {:induction false} PercentThen(rest: string, q: string, text: string)
    requires rest == Escaped(q) + "%"
    ensures Like("%" + rest, text) <==> Contains(text, q)
    decreases |text|
  {
    var pattern := "%" + rest;
    assert pattern[1..] == rest;
    EscapedThenPercent(q, text);
    assert text[0..] == text;
    if text == "" {
    } else {
      PercentThen(rest, q, text[1..]);
      forall i | 0 < i <= |text| ensures text[i..] == text[1..][i - 1..] {
      }
      if Contains(text[1..], q) {
        var j :| 0 <= j <= |text[1..]| && StartsWith(text[1..][j..], q);
        assert text[j + 1..] == text[1..][j..];
      }
      if Contains(text, q) {
        var i :| 0 <= i <= |text| && StartsWith(text[i..], q);
        if i > 0 {
          assert StartsWith(text[1..][i - 1..], q);
        }
      }
    }
  }

  /** The search pattern finds exactly the texts that contain the query: nothing in a
      query acts as a wildcard. Queries and texts are stored case-folded, so the ASCII
      case that LIKE ignores makes no difference there. */
  lemma SearchIsSubstring(q: string, text: string)
    ensures Like("%" + EscapeLike(q) + "%", text) <==> Contains(text, q)
  {
    EscapeLikeIsEscaped(q);
    assert "%" + EscapeLike(q) + "%" == "%" + (Escaped(q) + "%");
    PercentThen(Escaped(q) + "%", q, text);
  }

  /** Without the escape a query of one underscore would find every text but the empty
      one, and of one percent sign every text. */
  lemma WildcardsMatchAnything(text: string)
    ensures Like("%_%", text) <==> text != ""
    ensures Like("%%%", text)
  {
    assert "%_%"[1..] == "_%" && "_%"[1..] == "%" && "%%%"[1..] == "%%" && "%%"[1..] == "%";
    PercentMatchesAll(text);
    if text != "" {
      PercentMatchesAll(text[1..]);
      assert Like("_%", text);
    }
  }

  predicate NoUpper(s: string) {
    forall i :: 0 <= i < |s| ==> !('A' <= s[i] <= 'Z')
  }

  ghost predicate OccursAt(text: string, q: string, i: nat) {
    i + |q| <= |text| && text[i..i + |q|] == q
  }

  lemma SameTextIsEqual(a: string, b: string)
    requires NoUpper(a) && NoUpper(b)
    ensures SameText(a, b) <==> a == b
  {
    if SameText(a, b) {
      forall i | 0 <= i < |a| ensures a[i] == b[i] {
        assert SameLetter(a[i], b[i]);
      }
    }
  }

  lemma StartsWithIsOccurs(q: string, text: string, i: nat)
    requires NoUpper(q) && NoUpper(text) && i <= |text|
    ensures StartsWith(text[i..], q) <==> OccursAt(text, q, i)
  {
    if i + |q| <= |text| {
      var piece := text[i..][..|q|];
      assert piece == text[i..i + |q|];
      SameTextIsEqual(q, piece);
    }
  }

  /** On case-folded input: exactly the texts that contain the query literally. */
  lemma FoldedSearchIsExact(q: string, text: string)
    requires NoUpper(q) && NoUpper(text)
    ensures Like("%" + EscapeLike(q) + "%", text) <==> exists i :: OccursAt(text, q, i)
  {
    SearchIsSubstring(q, text);
    if Contains(text, q) {
      var i :| 0 <= i <= |text| && StartsWith(text[i..], q);
      StartsWithIsOccurs(q, text, i);
    }
    if i: nat :| OccursAt(text, q, i) {
      StartsWithIsOccurs(q, text, i);
    }
  }
}
