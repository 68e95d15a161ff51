/** The quote-aware splitter of src/alt_svc.rs: its iterator, and what the pieces are in
    terms of the whole string. */
module QuotedSplitter {
  import opened Wrappers

  // ---- What the iterator yields ----

  /** The scan inside one call of `next`: the first separator at or after `i` outside quotes. */
  function NextCut(s: string, sep: char, i: nat, quoted: bool): (e: nat)
    requires i <= |s|
    ensures i <= e <= |s|
    decreases |s| - i
  {
    if i == |s| then i
    else if s[i] == '"' then NextCut(s, sep, i + 1, !quoted)
    else if s[i] == sep && !quoted then i
    else NextCut(s, sep, i + 1, quoted)
  }

  /** All pieces. The quote flag starts afresh in each piece, as in the code. */
  function Pieces(s: string, sep: char): (ps: seq<string>)
    ensures |ps| > 0
  {
    var e := NextCut(s, sep, 0, false);
    if e == |s| then [s] else [s[..e]] + Pieces(s[e + 1..], sep)
  }

  /** The iterator. `offset` past the end by one means exhausted. */
  class SplitQuoted {
    const raw: string
    const separator: char
    var offset: nat

    ghost predicate Valid()
      reads this
    {
      offset <= |raw| + 1
    }

    /** What is still to come. */
    ghost function Remaining(): seq<string>
      requires Valid()
      reads this
    {
      if offset > |raw| then [] else Pieces(raw[offset..], separator)
    }

    constructor (raw: string, separator: char)
      ensures Valid() && Remaining() == Pieces(raw, separator)
      ensures this.raw == raw && this.separator == separator
    {
      this.raw := raw;
      this.separator := separator;
      offset := 0;
      new;
      assert raw[0..] == raw;
    }

    /** Yields the pieces one by one; every call makes progress until none is left. */
    method Next() returns (item: Option<string>)
      requires Valid()
      modifies this
      ensures Valid()
      ensures item.None? <==> old(Remaining()) == []
      ensures item.Some? ==> old(Remaining()) == [item.value] + Remaining() && offset > old(offset)
      ensures item.None? ==> Remaining() == []
    {
      if offset > |raw| {
        return None;
      }
      var start := offset;
      ghost var rest := raw[start..];
      var quoted := false;
      var relative := 0;
      while relative < |raw| - start
        invariant relative <= |raw| - start
        invariant NextCut(rest, separator, 0, false) == NextCut(rest, separator, relative, quoted)
        invariant offset == start
      {
        var ch := raw[start + relative];
        if ch == '"' {
          quoted := !quoted;
        } else if ch == separator && !quoted {
          var end := start + relative;
          offset := end + 1;
          assert raw[offset..] == rest[relative + 1..] && raw[start..end] == rest[..relative];
          return Some(raw[start..end]);
        }
        relative := relative + 1;
      }
      offset := |raw| + 1;
      return Some(raw[start..]);
    }
  }

  // ---- The same pieces, from quote parity counted over the whole string ----

  function Quotes(s: string): nat {
    if s == "" then 0 else Quotes(s[..|s| - 1]) + (if s[|s| - 1] == '"' then 1 else 0)
  }

  predicate Balanced(s: string) {
    Quotes(s) % 2 == 0
  }

  /** A separator with an even number of quotes before it, counting from the very start. */
  predicate IsCut(s: string, sep: char, i: nat)
    requires i < |s|
  {
    s[i] == sep && sep != '"' && Balanced(s[..i])
  }

  predicate NoCut(s: string, sep: char) {
    forall i | 0 <= i < |s| :: !IsCut(s, sep, i)
  }

  /** `s` cut at every cut from `i` on; the segment now open began at `lo`. */
  function Segments(s: string, sep: char, lo: nat, i: nat): seq<string>
    requires lo <= i <= |s|
    decreases |s| - i
  {
    if i == |s| then [s[lo..]]
    else if IsCut(s, sep, i) then [s[lo..i]] + Segments(s, sep, i + 1, i + 1)
    else Segments(s, sep, lo, i + 1)
  }

  lemma {:induction false} QuotesConcat(a: string, b: string)
    ensures Quotes(a + b) == Quotes(a) + Quotes(b)
  {
    if b == "" {
      assert a + b == a;
    } else {
      var t := a + b;
      assert t[..|t| - 1] == a + b[..|b| - 1];
      QuotesConcat(a, b[..|b| - 1]);
    }
  }

  lemma {:induction false} QuotesNone(s: string)
    requires '"' !in s
    ensures Quotes(s) == 0
  {
    if s != "" {
      QuotesNone(s[..|s| - 1]);
    }
  }

  lemma QuotesSnoc(s: string, i: nat)
    requires i < |s|
    ensures Quotes(s[..i + 1]) == Quotes(s[..i]) + (if s[i] == '"' then 1 else 0)
  {
    assert s[..i + 1][..i] == s[..i];
  }

  /** The local flag is the parity of the quotes since the start of the piece, so the scan
      stops at the first cut. */
  lemma {:induction false} NextCutIsFirstCut(s: string, sep: char, i: nat, quoted: bool)
    requires i <= |s| && quoted == !Balanced(s[..i])
    ensures var e := NextCut(s, sep, i, quoted);
            && (e < |s| ==> IsCut(s, sep, e))
            && forall j | i <= j < e :: !IsCut(s, sep, j)
    decreases |s| - i
  {
    if i < |s| {
      QuotesSnoc(s, i);
      if s[i] == '"' {
        NextCutIsFirstCut(s, sep, i + 1, !quoted);
      } else if s[i] == sep && !quoted {
      } else {
        NextCutIsFirstCut(s, sep, i + 1, quoted);
      }
    }
  }

  /** Nothing is cut before the first cut. */
  lemma {:induction false} SegmentsSkip(s: string, sep: char, lo: nat, i: nat, e: nat)
    requires lo <= i <= e <= |s|
    requires forall j | i <= j < e :: !IsCut(s, sep, j)
    ensures Segments(s, sep, lo, i) == Segments(s, sep, lo, e)
    decreases e - i
  {
    if i < e {
      SegmentsSkip(s, sep, lo, i + 1, e);
    }
  }

  /** After a balanced prefix the parity within the suffix is the parity of the whole. */
  lemma CutOfSuffix(p: string, t: string, sep: char, i: nat)
    requires Balanced(p) && i < |t|
    ensures IsCut(p + t, sep, |p| + i) <==> IsCut(t, sep, i)
  {
    assert (p + t)[..|p| + i] == p + t[..i];
    QuotesConcat(p, t[..i]);
  }

  lemma SliceOfSuffix(p: string, t: string, lo: nat, hi: nat)
    requires lo <= hi <= |t|
    ensures (p + t)[|p| + lo..|p| + hi] == t[lo..hi]
  {
  }

  lemma {:induction false} SegmentsOfSuffix(p: string, t: string, sep: char, lo: nat, i: nat)
    requires Balanced(p) && lo <= i <= |t|
    ensures Segments(p + t, sep, |p| + lo, |p| + i) == Segments(t, sep, lo, i)
    decreases |t| - i
  {
    SliceOfSuffix(p, t, lo, i);
    if i == |t| {
      assert (p + t)[|p| + lo..] == (p + t)[|p| + lo..|p| + i] && t[lo..] == t[lo..i];
    } else {
      CutOfSuffix(p, t, sep, i);
      if IsCut(t, sep, i) {
        SegmentsOfSuffix(p, t, sep, i + 1, i + 1);
      } else {
        SegmentsOfSuffix(p, t, sep, lo, i + 1);
      }
    }
  }

  /** The iterator, which forgets the quotes of earlier pieces, cuts exactly where the whole
      string has a separator with even quote parity. */
  lemma {:induction false} PiecesAreGlobalSegments(s: string, sep: char)
    ensures Pieces(s, sep) == Segments(s, sep, 0, 0)
  {
    var e := NextCut(s, sep, 0, false);
    NextCutIsFirstCut(s, sep, 0, false);
    SegmentsSkip(s, sep, 0, 0, e);
    if e == |s| {
      assert s[0..] == s;
    } else {
      var p, t := s[..e + 1], s[e + 1..];
      QuotesSnoc(s, e);
      assert s == p + t && s[0..e] == s[..e];
      PiecesAreGlobalSegments(t, sep);
      SegmentsOfSuffix(p, t, sep, 0, 0);
    }
  }

  // ---- Splitting and joining are inverse ----

  function Join(ps: seq<string>, sep: char): string
    requires |ps| > 0
  {
    if |ps| == 1 then ps[0] else ps[0] + [sep] + Join(ps[1..], sep)
  }

  /** Pieces that a join keeps apart: none holds a cut, and all but the last close their quotes. */
  predicate Separable(ps: seq<string>, sep: char) {
    && |ps| > 0
    && (forall k | 0 <= k < |ps| :: NoCut(ps[k], sep))
    && (forall k | 0 <= k < |ps| - 1 :: Balanced(ps[k]))
  }

  lemma PrefixNoCut(p: string, s: string, sep: char)
    requires p <= s
    ensures NoCut(p, sep) <==> forall j | 0 <= j < |p| :: !IsCut(s, sep, j)
  {
    forall j | 0 <= j < |p|
      ensures IsCut(p, sep, j) <==> IsCut(s, sep, j)
    {
      assert p[..j] == s[..j];
    }
  }

  lemma {:induction false} JoinOfPieces(s: string, sep: char)
    ensures Separable(Pieces(s, sep), sep) && Join(Pieces(s, sep), sep) == s
  {
    var e := NextCut(s, sep, 0, false);
    NextCutIsFirstCut(s, sep, 0, false);
    if e < |s| {
      JoinOfPieces(s[e + 1..], sep);
      PrefixNoCut(s[..e], s, sep);
      var rest := Pieces(s[e + 1..], sep);
      assert Pieces(s, sep)[1..] == rest;
      assert s == s[..e] + [sep] + s[e + 1..];
    }
  }

  /** Where the first cut of a first piece followed by a separator is. */
  lemma FirstCutOfJoin(p: string, sep: char, t: string)
    requires NoCut(p, sep) && Balanced(p) && sep != '"'
    ensures NextCut(p + [sep] + t, sep, 0, false) == |p|
  {
    var s := p + [sep] + t;
    NextCutIsFirstCut(s, sep, 0, false);
    assert s[..|p|] == p;
    assert IsCut(s, sep, |p|);
    PrefixNoCut(p, s, sep);
  }

  lemma {:induction false} PiecesOfJoin(ps: seq<string>, sep: char)
    requires Separable(ps, sep) && sep != '"'
    ensures Pieces(Join(ps, sep), sep) == ps
  {
    var s := Join(ps, sep);
    NextCutIsFirstCut(s, sep, 0, false);
    if |ps| > 1 {
      FirstCutOfJoin(ps[0], sep, Join(ps[1..], sep));
      assert s[..|ps[0]|] == ps[0] && s[|ps[0]| + 1..] == Join(ps[1..], sep);
      PiecesOfJoin(ps[1..], sep);
    }
  }

  /** The pieces are the one and only separable way to write `s` as a join. */
  lemma PiecesUnique(s: string, sep: char, ps: seq<string>)
    requires sep != '"'
    ensures Separable(ps, sep) && Join(ps, sep) == s <==> ps == Pieces(s, sep)
  {
    JoinOfPieces(s, sep);
    if Separable(ps, sep) && Join(ps, sep) == s {
      PiecesOfJoin(ps, sep);
    }
  }

  // ---- Text that the splitter leaves whole ----

  /** No cut, and the quotes are closed at the end. */
  predicate Quiet(s: string, sep: char) {
    NoCut(s, sep) && Balanced(s)
  }

  lemma QuietConcat(a: string, b: string, sep: char)
    requires Quiet(a, sep) && Quiet(b, sep)
    ensures Quiet(a + b, sep)
  {
    QuotesConcat(a, b);
    forall i | 0 <= i < |a + b|
      ensures !IsCut(a + b, sep, i)
    {
      if i < |a| {
        PrefixNoCut(a, a + b, sep);
      } else {
        CutOfSuffix(a, b, sep, i - |a|);
      }
    }
  }

  lemma QuietPlain(s: string, sep: char)
    requires '"' !in s && sep !in s
    ensures Quiet(s, sep)
  {
    QuotesNone(s);
  }

  lemma QuietQuoted(s: string, sep: char)
    requires '"' !in s
    ensures Quiet("\"" + s + "\"", sep)
  {
    var q := "\"" + s + "\"";
    QuotesSnoc(q, 0);
    forall i | 0 <= i < |q|
      ensures !IsCut(q, sep, i)
    {
      if 0 < i <= |s| {
        assert q[..i] == "\"" + s[..i - 1];
        QuotesConcat("\"", s[..i - 1]);
        QuotesNone(s[..i - 1]);
        assert Quotes(q[..i]) == 1;
      }
    }
    assert q == ("\"" + s) + "\"";
    QuotesConcat("\"" + s, "\"");
    QuotesConcat("\"", s);
    QuotesNone(s);
  }

  lemma QuietIsOnePiece(s: string, sep: char)
    requires NoCut(s, sep)
    ensures Pieces(s, sep) == [s]
  {
    NextCutIsFirstCut(s, sep, 0, false);
  }

  // ---- Appending to a split string ----

  /** Only the last piece is affected by what is appended. */
  lemma {:induction false} PiecesOfAppend(s: string, t: string, sep: char)
    ensures var ps := Pieces(s, sep); var n := |ps| - 1;
            Pieces(s + t, sep) == ps[..n] + Pieces(ps[n] + t, sep)
  {
    var e := NextCut(s, sep, 0, false);
    if e < |s| {
      FirstCutUnique(s, t, sep, e);
      var u := s[e + 1..];
      assert (s + t)[e + 1..] == u + t && (s + t)[..e] == s[..e];
      PiecesOfAppend(u, t, sep);
      var us := Pieces(u, sep);
      assert Pieces(s, sep) == [s[..e]] + us;
    }
  }

  lemma FirstCutUnique(s: string, t: string, sep: char, e: nat)
    requires e < |s| && e == NextCut(s, sep, 0, false)
    ensures e == NextCut(s + t, sep, 0, false)
  {
    NextCutIsFirstCut(s, sep, 0, false);
    NextCutIsFirstCut(s + t, sep, 0, false);
    forall j | 0 <= j <= e
      ensures IsCut(s + t, sep, j) <==> IsCut(s, sep, j)
    {
      assert (s + t)[..j] == s[..j];
    }
  }

  lemma PiecesOfHead(p: string, sep: char, t: string)
    requires Quiet(p, sep) && sep != '"'
    ensures Pieces(p + [sep] + t, sep) == [p] + Pieces(t, sep)
  {
    FirstCutOfJoin(p, sep, t);
    var s := p + [sep] + t;
    assert s[..|p|] == p && s[|p| + 1..] == t;
  }

  /** The last piece of a balanced string is balanced, and takes what is appended. */
  lemma SplitLast(s: string, sep: char, t: string) returns (init: seq<string>, last: string)
    requires Balanced(s) && sep != '"'
    ensures Pieces(s, sep) == init + [last] && Quiet(last, sep)
    ensures Pieces(s + t, sep) == init + Pieces(last + t, sep)
  {
    var ps := Pieces(s, sep);
    init, last := ps[..|ps| - 1], ps[|ps| - 1];
    JoinOfPieces(s, sep);
    LastPieceParity(ps, sep);
    PiecesOfAppend(s, t, sep);
  }

  lemma Regroup<T>(a: seq<T>, x: T, b: seq<T>)
    ensures a + ([x] + b) == a + [x] + b
  {
  }

  /** Appending a separator after closed quotes starts a new piece. */
  lemma PiecesOfBalancedAppend(s: string, sep: char, t: string)
    requires Balanced(s) && sep != '"'
    ensures Pieces(s + ([sep] + t), sep) == Pieces(s, sep) + Pieces(t, sep)
  {
    var init, last := SplitLast(s, sep, [sep] + t);
    Regroup(last, sep, t);
    PiecesOfHead(last, sep, t);
    Regroup(init, last, Pieces(t, sep));
  }

  /** The parity of a whole is the parity of its last piece. */
  lemma {:induction false} LastPieceParity(ps: seq<string>, sep: char)
    requires Separable(ps, sep) && sep != '"'
    ensures Balanced(Join(ps, sep)) <==> Balanced(ps[|ps| - 1])
  {
    if |ps| > 1 {
      LastPieceParity(ps[1..], sep);
      QuotesConcat(ps[0] + [sep], Join(ps[1..], sep));
      QuotesConcat(ps[0], [sep]);
      QuotesNone([sep]);
    }
  }
}
