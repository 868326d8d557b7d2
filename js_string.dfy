/**
  The few JavaScript string operations the widgets rely on, over `seq<char>`:
  `includes`, `split(".")` and `join(".")`, `trim()`, and the canonical decimal
  form of a natural number (the spelling of an array index as a property key).
 */
module JsString {

  datatype Option<+T> = None | Some(value: T)

  // ---------------------------------------------------------------------------
  // s.includes(t)

  /** `s.includes(t)`: `t` occurs somewhere in `s` (the empty string occurs everywhere). */
  predicate Contains(s: string, t: string)
    decreases |s|
  {
    t <= s || (s != [] && Contains(s[1..], t))
  }

  /** `t` is written in `s` starting at position `i`. */
  predicate OccursAt(s: string, t: string, i: int)
  {
    0 <= i <= |s| - |t| && s[i..i + |t|] == t
  }

  /** The occurrence-based reading of `Contains`. */
  lemma {:induction false} ContainsAt(s: string, t: string)
    ensures Contains(s, t) <==> exists i :: OccursAt(s, t, i)
    decreases |s|
  {
    if t <= s {
      assert OccursAt(s, t, 0);
    } else if s == [] {
    } else {
      ContainsAt(s[1..], t);
      if Contains(s[1..], t) {
        var i :| OccursAt(s[1..], t, i);
        assert s[1..][i..i + |t|] == s[i + 1..i + 1 + |t|];
        assert OccursAt(s, t, i + 1);
      }
      if exists i :: OccursAt(s, t, i) {
        var i :| OccursAt(s, t, i);
        assert i != 0;
        assert s[1..][i - 1..i - 1 + |t|] == s[i..i + |t|];
        assert OccursAt(s[1..], t, i - 1);
      }
    }
  }

  /** Extending a string on the right keeps every occurrence. */
  lemma {:induction false} ContainsExtend(s: string, t: string, u: string)
    requires Contains(s, t)
    ensures Contains(s + u, t)
    decreases |s|
  {
    if t <= s {
      assert t <= s + u;
    } else {
      assert (s + u)[1..] == s[1..] + u;
      ContainsExtend(s[1..], t, u);
    }
  }

  /** A string contains whatever is written in its middle. */
  lemma {:induction false} ContainsMiddle(a: string, t: string, b: string)
    ensures Contains(a + t + b, t)
    decreases |a|
  {
    if a == [] {
      assert a + t + b == t + b;
      assert t <= t + b;
    } else {
      assert (a + t + b)[1..] == a[1..] + t + b;
      ContainsMiddle(a[1..], t, b);
    }
  }

  // ---------------------------------------------------------------------------
  // path.split(".") and segments.join(".")

  /** `segs.join(".")`; the empty array joins to "". */
  function Join(segs: seq<string>): string
  {
    if |segs| == 0 then ""
    else if |segs| == 1 then segs[0]
    else segs[0] + "." + Join(segs[1..])
  }

  /**
    `s.split(".")`: the maximal dot-free pieces between the dots, empty ones
    included, so there is always at least one piece and `"".split(".")` is `[""]`.
   */
  function Split(s: string): (r: seq<string>)
    ensures |r| >= 1
    ensures forall i :: 0 <= i < |r| ==> '.' !in r[i]
    ensures Join(r) == s
    decreases |s|
  {
    if s == [] then [""]
    else
      var rest := Split(s[1..]);
      if s[0] == '.' then
        assert Join([""] + rest) == "" + "." + Join(rest);
        [""] + rest
      else
        var r := [[s[0]] + rest[0]] + rest[1..];
        assert r[1..] == rest[1..];
        assert Join(r) == [s[0]] + Join(rest) by {
          if |rest| > 1 {
            assert Join(rest) == rest[0] + "." + Join(rest[1..]);
          }
        }
        assert [s[0]] + s[1..] == s;
        r
  }

  /** A dot-free string splits into itself alone. */
  lemma {:induction false} SplitDotFree(s: string)
    requires '.' !in s
    ensures Split(s) == [s]
    decreases |s|
  {
    if s != [] {
      assert '.' !in s[1..] by {
        forall i | 0 <= i < |s[1..]| ensures s[1..][i] != '.' { assert s[1..][i] == s[i + 1]; }
      }
      SplitDotFree(s[1..]);
      assert [s[0]] + s[1..] == s;
    }
  }

  /** Splitting `a + "." + b` with a dot-free `a` peels `a` off the front. */
  lemma {:induction false} SplitCons(a: string, b: string)
    requires '.' !in a
    ensures Split(a + "." + b) == [a] + Split(b)
    decreases |a|
  {
    var s := a + "." + b;
    if a == [] {
      assert s == "." + b && s[1..] == b;
    } else {
      assert s[1..] == a[1..] + "." + b;
      assert '.' !in a[1..] by {
        forall i | 0 <= i < |a[1..]| ensures a[1..][i] != '.' { assert a[1..][i] == a[i + 1]; }
      }
      SplitCons(a[1..], b);
      assert [a[0]] + a[1..] == a;
    }
  }

  /** `split` undoes `join` on a non-empty list of dot-free segments. */
  lemma {:induction false} SplitJoin(segs: seq<string>)
    requires |segs| >= 1
    requires forall i :: 0 <= i < |segs| ==> '.' !in segs[i]
    ensures Split(Join(segs)) == segs
    decreases |segs|
  {
    if |segs| == 1 {
      SplitDotFree(segs[0]);
    } else {
      SplitCons(segs[0], Join(segs[1..]));
      SplitJoin(segs[1..]);
      assert [segs[0]] + segs[1..] == segs;
    }
  }

  /** Joining one more segment after a non-empty join puts a dot between them. */
  lemma {:induction false} JoinSnoc(segs: seq<string>, key: string)
    requires |segs| >= 1
    ensures Join(segs + [key]) == Join(segs) + "." + key
    decreases |segs|
  {
    if |segs| > 1 {
      assert (segs + [key])[1..] == segs[1..] + [key];
      JoinSnoc(segs[1..], key);
    }
  }

  /** A join ends with its last segment. */
  lemma {:induction false} JoinEndsWithLast(segs: seq<string>)
    requires |segs| >= 1
    ensures |segs[|segs| - 1]| <= |Join(segs)|
    ensures Join(segs)[|Join(segs)| - |segs[|segs| - 1]|..] == segs[|segs| - 1]
    decreases |segs|
  {
    if |segs| > 1 {
      JoinEndsWithLast(segs[1..]);
      var tail := Join(segs[1..]);
      assert Join(segs) == segs[0] + "." + tail;
      assert Join(segs)[|Join(segs)| - |tail|..] == tail;
    }
  }

  /** A join whose first segment is non-empty is non-empty. */
  lemma JoinNonEmpty(segs: seq<string>)
    requires |segs| >= 1 && segs[0] != ""
    ensures Join(segs) != ""
  {
    if |segs| > 1 {
      assert |Join(segs)| >= |segs[0]|;
    }
  }

  // ---------------------------------------------------------------------------
  // Canonical decimal spelling of natural numbers (array index keys)

  predicate IsDigit(c: char) { '0' <= c <= '9' }

  predicate AllDigits(s: string) { forall i :: 0 <= i < |s| ==> IsDigit(s[i]) }

  function DigitChar(d: nat): (c: char)
    requires d < 10
    ensures IsDigit(c) && c as int - '0' as int == d
  {
    ('0' as int + d) as char
  }

  /** `String(n)` for a natural number: decimal, no leading zeros. */
  function NatToString(n: nat): (s: string)
    ensures |s| >= 1 && AllDigits(s)
    ensures |s| > 1 ==> s[0] != '0'
    ensures s[0] == '0' ==> n == 0
    decreases n
  {
    if n < 10 then [DigitChar(n)] else NatToString(n / 10) + [DigitChar(n % 10)]
  }

  /** The value of a string of decimal digits. */
  function DigitsValue(s: string): nat
    requires AllDigits(s)
    decreases |s|
  {
    if s == [] then 0
    else DigitsValue(s[..|s| - 1]) * 10 + (s[|s| - 1] as int - '0' as int)
  }

  /** A digit string that does not start with '0' has a positive value. */
  lemma {:induction false} LeadingDigitPositive(s: string)
    requires |s| >= 1 && AllDigits(s) && s[0] != '0'
    ensures DigitsValue(s) >= 1
    decreases |s|
  {
    if |s| > 1 {
      LeadingDigitPositive(s[..|s| - 1]);
    }
  }

  /** Appending digit `d` to the spelling of `a` gives `10a + d`, and division by ten undoes it. */
  lemma AppendDigit(a: nat, d: nat)
    requires d < 10
    ensures (a * 10 + d) / 10 == a && (a * 10 + d) % 10 == d
  {
  }

  /** A digit string in canonical form is the decimal spelling of its value. */
  lemma {:induction false} CanonicalDigits(s: string)
    requires |s| >= 1 && AllDigits(s) && (|s| == 1 || s[0] != '0')
    ensures NatToString(DigitsValue(s)) == s
    decreases |s|
  {
    if |s| > 1 {
      var p := s[..|s| - 1];
      var d := s[|s| - 1] as int - '0' as int;
      CanonicalDigits(p);
      LeadingDigitPositive(p);
      var v := DigitsValue(s);
      assert v == DigitsValue(p) * 10 + d;
      AppendDigit(DigitsValue(p), d);
      assert NatToString(v) == NatToString(DigitsValue(p)) + [DigitChar(d)];
      assert p + [s[|s| - 1]] == s;
    }
  }

  /** Decimal spelling is read back as the number it spells. */
  lemma {:induction false} DigitsOfNat(n: nat)
    ensures DigitsValue(NatToString(n)) == n
    decreases n
  {
    if n >= 10 {
      DigitsOfNat(n / 10);
      var s := NatToString(n);
      assert s[..|s| - 1] == NatToString(n / 10);
    }
  }

  /**
    The array index a property key denotes, if any: the key is an index exactly
    when it is the canonical decimal spelling of a natural number.
   */
  function ParseIndex(s: string): (r: Option<nat>)
    ensures r.Some? ==> NatToString(r.value) == s
  {
    if |s| >= 1 && AllDigits(s) && (|s| == 1 || s[0] != '0') then
      CanonicalDigits(s);
      Some(DigitsValue(s))
    else None
  }

  /** Every natural number's spelling is read back as an index. */
  lemma ParseIndexOfNat(n: nat)
    ensures ParseIndex(NatToString(n)) == Some(n)
  {
    DigitsOfNat(n);
  }

  // ---------------------------------------------------------------------------
  // s.trim()

  /**
    The characters `String.prototype.trim` strips: the ECMAScript WhiteSpace
    (tab, vertical tab, form feed, space, no-break space, byte order mark and the
    other space separators) and LineTerminator code points.
   */
  predicate IsWhitespace(c: char)
  {
    || c == '\t' || c == '\n' || c == '\U{000B}' || c == '\U{000C}' || c == '\r' || c == ' '
    || c == '\U{00A0}' || c == '\U{1680}' || ('\U{2000}' <= c <= '\U{200A}')
    || c == '\U{2028}' || c == '\U{2029}' || c == '\U{202F}' || c == '\U{205F}'
    || c == '\U{3000}' || c == '\U{FEFF}'
  }

  predicate AllWhitespace(s: string) { forall i :: 0 <= i < |s| ==> IsWhitespace(s[i]) }

  /** Drops leading whitespace. */
  function TrimStart(s: string): (r: string)
    ensures r == "" <==> AllWhitespace(s)
    ensures r != "" ==> !IsWhitespace(r[0])
    ensures |r| <= |s| && r == s[|s| - |r|..]
    decreases |s|
  {
    if s != [] && IsWhitespace(s[0]) then
      var r := TrimStart(s[1..]);
      assert AllWhitespace(s) <==> AllWhitespace(s[1..]) by {
        if AllWhitespace(s[1..]) {
          forall i | 0 <= i < |s| ensures IsWhitespace(s[i]) { if i > 0 { assert s[i] == s[1..][i - 1]; } }
        }
        if AllWhitespace(s) {
          forall i | 0 <= i < |s[1..]| ensures IsWhitespace(s[1..][i]) { assert s[1..][i] == s[i + 1]; }
        }
      }
      r
    else s
  }

  /** Drops trailing whitespace. */
  function TrimEnd(s: string): (r: string)
    ensures r == "" <==> AllWhitespace(s)
    ensures r <= s
    decreases |s|
  {
    if s != [] && IsWhitespace(s[|s| - 1]) then
      var p := s[..|s| - 1];
      assert AllWhitespace(s) <==> AllWhitespace(p) by {
        if AllWhitespace(p) {
          forall i | 0 <= i < |s| ensures IsWhitespace(s[i]) { if i < |s| - 1 { assert s[i] == p[i]; } }
        }
      }
      TrimEnd(p)
    else s
  }

  /** `s.trim()`. */
  function Trim(s: string): (r: string)
    ensures r == "" <==> AllWhitespace(s)
  {
    var t := TrimStart(s);
    assert t != "" ==> !AllWhitespace(t);
    TrimEnd(t)
  }
}
