/** The string operations the Alt-Svc parser is written with: trimming, splitting
    at the first or last occurrence of a character, and decimal numbers. */
module Text {
  import opened Wrappers

  /** Unicode White_Space, which is what `str::trim` removes. */
  predicate IsSpace(c: char) {
    || '\U{0009}' <= c <= '\U{000D}'
    || c in {' ', '\U{0085}', '\U{00A0}', '\U{1680}', '\U{2028}', '\U{2029}', '\U{202F}', '\U{205F}', '\U{3000}'}
    || '\U{2000}' <= c <= '\U{200A}'
  }

  /** The white space, character by character. */
  lemma SpacesAre(c: char)
    ensures IsSpace(c) <==>
            c in {'\t', '\n', '\U{000B}', '\U{000C}', '\r', ' ', '\U{0085}', '\U{00A0}', '\U{1680}',
                  '\U{2000}', '\U{2001}', '\U{2002}', '\U{2003}', '\U{2004}', '\U{2005}', '\U{2006}',
                  '\U{2007}', '\U{2008}', '\U{2009}', '\U{200A}', '\U{2028}', '\U{2029}', '\U{202F}',
                  '\U{205F}', '\U{3000}'}
  {
  }

  /** The classes of characters that get trimmed. */
  datatype CharClass = SPACES | QUOTE | BRACKETS {
    predicate Has(c: char) {
      match this
      case SPACES => IsSpace(c)
      case QUOTE => c == '"'
      case BRACKETS => c == '[' || c == ']'
    }
  }

  /** The other two classes, character by character. */
  lemma ClassesAre(c: char)
    ensures QUOTE.Has(c) <==> c == '"'
    ensures BRACKETS.Has(c) <==> c in {'[', ']'}
    ensures SPACES.Has(c) <==> IsSpace(c)
  {
  }

  predicate Only(s: string, cs: CharClass) {
    forall i | 0 <= i < |s| :: cs.Has(s[i])
  }

  /** Neither edge of `s` would be stripped. */
  predicate BareEdges(s: string, cs: CharClass) {
    s != "" ==> !cs.Has(s[0]) && !cs.Has(s[|s| - 1])
  }

  function StripStart(s: string, cs: CharClass): string {
    if s != "" && cs.Has(s[0]) then StripStart(s[1..], cs) else s
  }

  function StripEnd(s: string, cs: CharClass): string {
    if s != "" && cs.Has(s[|s| - 1]) then StripEnd(s[..|s| - 1], cs) else s
  }

  /** `trim_matches`: every leading and trailing character of `cs` goes. */
  function Strip(s: string, cs: CharClass): string {
    StripEnd(StripStart(s, cs), cs)
  }

  function Trim(s: string): string {
    Strip(s, SPACES)
  }

  lemma {:induction false} StripStartPadded(l: string, s: string, cs: CharClass)
    requires Only(l, cs)
    requires s != "" ==> !cs.Has(s[0])
    ensures StripStart(l + s, cs) == s
  {
    if l == "" {
      assert l + s == s;
    } else {
      assert (l + s)[0] == l[0] && (l + s)[1..] == l[1..] + s;
      StripStartPadded(l[1..], s, cs);
    }
  }

  lemma {:induction false} StripEndPadded(s: string, r: string, cs: CharClass)
    requires Only(r, cs)
    requires s != "" ==> !cs.Has(s[|s| - 1])
    ensures StripEnd(s + r, cs) == s
  {
    if r == "" {
      assert s + r == s;
    } else {
      var t := s + r;
      assert t[|t| - 1] == r[|r| - 1] && t[..|t| - 1] == s + r[..|r| - 1];
      StripEndPadded(s, r[..|r| - 1], cs);
    }
  }

  /** Stripping undoes padding. */
  lemma StripPadded(l: string, s: string, r: string, cs: CharClass)
    requires Only(l, cs) && Only(r, cs) && BareEdges(s, cs)
    ensures Strip(l + s + r, cs) == s
  {
    if s == "" {
      assert l + s + r == (l + r) + "";
      StripStartPadded(l + r, "", cs);
    } else {
      assert l + s + r == l + (s + r);
      StripStartPadded(l, s + r, cs);
      StripEndPadded(s, r, cs);
    }
  }

  lemma {:induction false} StripStartDecomposes(s: string, cs: CharClass) returns (l: string)
    ensures Only(l, cs) && s == l + StripStart(s, cs)
    ensures StripStart(s, cs) != "" ==> !cs.Has(StripStart(s, cs)[0])
  {
    if s != "" && cs.Has(s[0]) {
      var rest := StripStartDecomposes(s[1..], cs);
      l := [s[0]] + rest;
    } else {
      l := "";
    }
  }

  lemma {:induction false} StripEndDecomposes(s: string, cs: CharClass) returns (r: string)
    ensures Only(r, cs) && s == StripEnd(s, cs) + r
    ensures StripEnd(s, cs) != "" ==> !cs.Has(StripEnd(s, cs)[|StripEnd(s, cs)| - 1])
  {
    if s != "" && cs.Has(s[|s| - 1]) {
      var rest := StripEndDecomposes(s[..|s| - 1], cs);
      r := rest + [s[|s| - 1]];
    } else {
      r := "";
      assert s == s + r;
    }
  }

  /** Stripping only takes characters of `cs` off the two ends, and takes all of them. */
  lemma StripDecomposes(s: string, cs: CharClass) returns (l: string, r: string)
    ensures Only(l, cs) && Only(r, cs) && BareEdges(Strip(s, cs), cs)
    ensures s == l + Strip(s, cs) + r
  {
    l := StripStartDecomposes(s, cs);
    r := StripEndDecomposes(StripStart(s, cs), cs);
    assert s == l + (Strip(s, cs) + r);
  }

  /** Padding added around a string is stripped away with the string's own. */
  lemma StripAbsorbs(l: string, s: string, r: string, cs: CharClass)
    requires Only(l, cs) && Only(r, cs)
    ensures Strip(l + s + r, cs) == Strip(s, cs)
  {
    var a, b := StripDecomposes(s, cs);
    assert l + s + r == (l + a) + Strip(s, cs) + (b + r);
    StripPadded(l + a, Strip(s, cs), b + r, cs);
  }

  function Lower(c: char): char {
    if 'A' <= c <= 'Z' then ((c as int) + 32) as char else c
  }

  /** `eq_ignore_ascii_case`. */
  predicate SameIgnoringCase(a: string, b: string) {
    |a| == |b| && forall i | 0 <= i < |a| :: Lower(a[i]) == Lower(b[i])
  }

  /** The spellings of `ma`. */
  lemma SpellingsOfMa(s: string)
    ensures SameIgnoringCase(s, "ma") <==> s in {"ma", "mA", "Ma", "MA"}
  {
    if SameIgnoringCase(s, "ma") {
      assert Lower('m') == 'm' && Lower('a') == 'a';
      assert s[0] in {'m', 'M'} && s[1] in {'a', 'A'};
      assert s == [s[0], s[1]];
    }
  }

  /** `clear` in any letter case, letter by letter. */
  lemma SpellingsOfClear(s: string)
    ensures SameIgnoringCase(s, "clear") <==>
            && |s| == 5 && s[0] in {'c', 'C'} && s[1] in {'l', 'L'} && s[2] in {'e', 'E'}
            && s[3] in {'a', 'A'} && s[4] in {'r', 'R'}
  {
    assert Lower('c') == 'c' && Lower('l') == 'l' && Lower('e') == 'e' && Lower('a') == 'a' && Lower('r') == 'r';
  }

  function SplitOnce(s: string, c: char): Option<(string, string)> {
    if s == "" then None
    else if s[0] == c then Some(("", s[1..]))
    else match SplitOnce(s[1..], c)
      case None => None
      case Some((a, b)) => Some(([s[0]] + a, b))
  }

  function RSplitOnce(s: string, c: char): Option<(string, string)> {
    if s == "" then None
    else
      var n := |s| - 1;
      if s[n] == c then Some((s[..n], ""))
      else match RSplitOnce(s[..n], c)
        case None => None
        case Some((a, b)) => Some((a, b + [s[n]]))
  }

  lemma {:induction false} SplitOnceAtFirst(a: string, c: char, b: string)
    requires c !in a
    ensures SplitOnce(a + [c] + b, c) == Some((a, b))
  {
    var s := a + [c] + b;
    if a == "" {
      assert s[0] == c && s[1..] == b;
    } else {
      assert s[0] == a[0] && s[1..] == a[1..] + [c] + b;
      SplitOnceAtFirst(a[1..], c, b);
      assert [a[0]] + a[1..] == a;
    }
  }

  /** Splitting once loses nothing and cuts at the first occurrence. */
  lemma {:induction false} SplitOnceSplits(s: string, c: char)
    ensures SplitOnce(s, c) == None <==> c !in s
    ensures SplitOnce(s, c).Some? ==>
              var (a, b) := SplitOnce(s, c).value; c !in a && s == a + [c] + b
  {
    if s == "" {
    } else if s[0] == c {
      assert s == "" + [c] + s[1..];
    } else {
      SplitOnceSplits(s[1..], c);
      assert s == [s[0]] + s[1..];
      if c in s[1..] {
        var (a, b) := SplitOnce(s[1..], c).value;
        assert s == ([s[0]] + a) + [c] + b;
      }
    }
  }

  lemma {:induction false} RSplitOnceAtLast(a: string, c: char, b: string)
    requires c !in b
    ensures RSplitOnce(a + [c] + b, c) == Some((a, b))
  {
    var s := a + [c] + b;
    var n := |s| - 1;
    if b == "" {
      assert s[n] == c && s[..n] == a;
    } else {
      var m := |b| - 1;
      assert s[n] == b[m] && s[..n] == a + [c] + b[..m];
      RSplitOnceAtLast(a, c, b[..m]);
      assert b[..m] + [b[m]] == b;
    }
  }

  /** Splitting at the last occurrence loses nothing either. */
  lemma {:induction false} RSplitOnceSplits(s: string, c: char)
    ensures RSplitOnce(s, c) == None <==> c !in s
    ensures RSplitOnce(s, c).Some? ==>
              var (a, b) := RSplitOnce(s, c).value; c !in b && s == a + [c] + b
  {
    if s != "" {
      var n := |s| - 1;
      assert s == s[..n] + [s[n]];
      if s[n] == c {
        assert s == s[..n] + [c] + "";
      } else {
        RSplitOnceSplits(s[..n], c);
        if c in s[..n] {
          var (a, b) := RSplitOnce(s[..n], c).value;
          assert s == a + [c] + (b + [s[n]]);
        }
      }
    }
  }

  // ---- Decimal numbers ----

  predicate IsDigit(c: char) {
    '0' <= c <= '9'
  }

  predicate AllDigits(s: string) {
    forall i | 0 <= i < |s| :: IsDigit(s[i])
  }

  function Decimal(s: string): nat
    requires AllDigits(s)
  {
    if s == "" then 0
    else 10 * Decimal(s[..|s| - 1]) + (s[|s| - 1] as int - '0' as int)
  }

  /** `str::parse` for an unsigned type whose largest value is `max`: one leading `+` is
      accepted, no digits at all and overflow are errors. */
  function ParseUnsigned(s: string, max: nat): Option<nat> {
    var digits := if |s| > 1 && s[0] == '+' then s[1..] else s;
    if digits != "" && AllDigits(digits) && Decimal(digits) <= max
    then Some(Decimal(digits))
    else None
  }

  /** What is read as a number, and as which: digits, in decimal notation, after an optional `+`. */
  lemma ParseUnsignedExactly(s: string, max: nat, n: nat)
    ensures ParseUnsigned(s, max) == Some(n) <==>
            exists digits ::
              && (s == digits || s == ['+'] + digits)
              && digits != "" && (forall i | 0 <= i < |digits| :: '0' <= digits[i] <= '9')
              && Decimal(digits) == n && n <= max
  {
    if |s| > 1 && s[0] == '+' {
      assert s == ['+'] + s[1..];
    }
    forall digits | s == ['+'] + digits && digits != ""
      ensures s[1..] == digits
    {
    }
  }

  /** Decimal notation: a digit more is ten times as much and that digit. */
  lemma DecimalSnoc(s: string, digit: nat)
    requires AllDigits(s) && digit < 10
    ensures AllDigits(s + ["0123456789"[digit]])
    ensures Decimal("") == 0 && Decimal(s + ["0123456789"[digit]]) == 10 * Decimal(s) + digit
  {
    var t := s + ["0123456789"[digit]];
    assert t[..|s|] == s;
  }

  function PrintNat(n: nat): (s: string)
    ensures s != "" && AllDigits(s)
  {
    var d := [('0' as int + n % 10) as char];
    if n < 10 then d else PrintNat(n / 10) + d
  }

  lemma {:induction false} DecimalOfPrinted(n: nat)
    ensures Decimal(PrintNat(n)) == n
  {
    var s := PrintNat(n);
    if n < 10 {
      assert s[..|s| - 1] == "";
    } else {
      DecimalOfPrinted(n / 10);
      assert s[..|s| - 1] == PrintNat(n / 10);
    }
  }

  /** Printing then parsing is the identity up to the type's bound, and overflow is an error. */
  lemma PrintThenParse(n: nat, max: nat)
    ensures ParseUnsigned(PrintNat(n), max) == if n <= max then Some(n) else None
  {
    DecimalOfPrinted(n);
    assert PrintNat(n)[0] != '+';
  }
}
