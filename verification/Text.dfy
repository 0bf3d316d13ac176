/** The few string operations the models need, on Unicode scalar values. */
module Text {

  /** White space as the Unicode White_Space property has it. */
  predicate IsWhitespace(c: char) {
    var n := c as int;
    || 0x9 <= n <= 0xD || n == 0x20 || n == 0x85 || n == 0xA0 || n == 0x1680
    || 0x2000 <= n <= 0x200A || n == 0x2028 || n == 0x2029 || n == 0x202F || n == 0x205F || n == 0x3000
  }

  function SkipBlanks(s: string, from: nat): (i: nat)
    requires from <= |s|
    ensures from <= i <= |s|
    ensures i < |s| ==> !IsWhitespace(s[i])
    ensures forall k :: from <= k < i ==> IsWhitespace(s[k])
    decreases |s| - from
  {
    if from == |s| || !IsWhitespace(s[from]) then from else SkipBlanks(s, from + 1)
  }

  function BackOverBlanks(s: string, from: nat, to: nat): (i: nat)
    requires from <= to <= |s|
    ensures from <= i <= to
    ensures i > from ==> !IsWhitespace(s[i - 1])
    ensures forall k :: i <= k < to ==> IsWhitespace(s[k])
  {
    if to == from || !IsWhitespace(s[to - 1]) then to else BackOverBlanks(s, from, to - 1)
  }

  function Trim(s: string): (t: string)
    ensures t == "" || (!IsWhitespace(t[0]) && !IsWhitespace(t[|t| - 1]))
  {
    var from := SkipBlanks(s, 0);
    s[from..BackOverBlanks(s, from, |s|)]
  }

  ghost predicate OnlyBlanks(s: string) {
    forall i :: 0 <= i < |s| ==> IsWhitespace(s[i])
  }

  /** Trimming takes white space off both ends, as much as there is, and nothing else. */
  lemma TrimIs(s: string) returns (front: string, back: string)
    ensures s == front + Trim(s) + back && OnlyBlanks(front) && OnlyBlanks(back)
    ensures Trim(s) == "" <==> OnlyBlanks(s)
  {
    var from := SkipBlanks(s, 0);
    var to := BackOverBlanks(s, from, |s|);
    front, back := s[..from], s[to..];
    assert s == s[..from] + s[from..to] + s[to..];
    if from < to {
      assert !IsWhitespace(s[from]);
    }
  }

  /** Nothing but white space. */
  predicate IsBlank(s: string) {
    SkipBlanks(s, 0) == |s|
  }

  lemma BlankExactly(s: string)
    ensures IsBlank(s) <==> OnlyBlanks(s)
  {
  }

  /** The 25 code points that have the property. */
  lemma WhitespaceIs(c: char)
    ensures IsWhitespace(c) <==>
              c as int in {0x9, 0xA, 0xB, 0xC, 0xD, 0x20, 0x85, 0xA0, 0x1680, 0x2000, 0x2001, 0x2002, 0x2003, 0x2004,
                           0x2005, 0x2006, 0x2007, 0x2008, 0x2009, 0x200A, 0x2028, 0x2029, 0x202F, 0x205F, 0x3000}
  {
  }

  lemma BlankTrims(s: string)
    ensures IsBlank(s) <==> Trim(s) == ""
  {
  }

  lemma TrimTwice(s: string)
    ensures Trim(Trim(s)) == Trim(s)
  {
  }

  /** Byte-wise order on strings; UTF-8 orders strings as their scalar values do. */
  predicate StringLess(a: string, b: string) {
    b != "" && (a == "" || a[0] < b[0] || (a[0] == b[0] && StringLess(a[1..], b[1..])))
  }

  lemma {:induction false} StringLessTotal(a: string, b: string)
    ensures StringLess(a, b) || a == b || StringLess(b, a)
    ensures !(StringLess(a, b) && StringLess(b, a))
    ensures !StringLess(a, a)
  {
    if a == "" {
    } else {
      StringLessTotal(a[1..], a[1..]);
      if b != "" {
        StringLessTotal(a[1..], b[1..]);
        if a[0] == b[0] && a[1..] == b[1..] {
          assert a == [a[0]] + a[1..] == b;
        }
      }
    }
  }

  /** `a` comes before `b` when it is a proper prefix, or smaller where they first differ. */
  ghost predicate DiffersBelow(a: string, b: string, k: nat) {
    && k <= |a| && k < |b| && a[..k] == b[..k]
    && (k == |a| || a[k] < b[k])
  }

  lemma {:induction false} StringLessExactly(a: string, b: string)
    ensures StringLess(a, b) <==> exists k :: DiffersBelow(a, b, k)
  {
    if a == "" || b == "" || a[0] != b[0] {
      if StringLess(a, b) {
        assert DiffersBelow(a, b, 0);
      }
      if k: nat :| DiffersBelow(a, b, k) {
        assert k > 0 ==> a[..k][0] == b[..k][0];
      }
    } else {
      StringLessExactly(a[1..], b[1..]);
      if k: nat :| DiffersBelow(a[1..], b[1..], k) {
        assert a[..k + 1] == [a[0]] + a[1..][..k] && b[..k + 1] == [b[0]] + b[1..][..k];
        assert DiffersBelow(a, b, k + 1);
      }
      if k: nat :| k > 0 && DiffersBelow(a, b, k) {
        assert a[1..][..k - 1] == a[..k][1..] && b[1..][..k - 1] == b[..k][1..];
        assert DiffersBelow(a[1..], b[1..], k - 1);
      }
    }
  }

  lemma {:induction false} StringLessTransitive(a: string, b: string, c: string)
    requires StringLess(a, b) && StringLess(b, c)
    ensures StringLess(a, c)
  {
    if a != "" && a[0] == b[0] && b[0] == c[0] {
      StringLessTransitive(a[1..], b[1..], c[1..]);
    }
  }
}
