/** What a parsed Alt-Svc field value means, whatever the field: which alternative decides,
    what appended or prepended alternatives can change, and how parameters decode. */
module AltSvcLaws {
  import opened Wrappers
  import opened Text
  import opened QuotedSplitter
  import opened AltSvc

  // ---- Which alternative decides ----

  /** Piece `k` is the earliest one that parses to something. */
  predicate FirstAccepted(pieces: seq<string>, k: nat, now: nat, originPort: nat) {
    && k < |pieces|
    && AlternativeValue(Trim(pieces[k]), now, originPort).Entry?
    && forall j | 0 <= j < k :: AlternativeValue(Trim(pieces[j]), now, originPort).NoAlternative?
  }

  lemma {:induction false} FirstValueIsEarliest(pieces: seq<string>, k: nat, now: nat, originPort: nat)
    requires FirstAccepted(pieces, k, now, originPort)
    ensures FirstValue(pieces, now, originPort) == AlternativeValue(Trim(pieces[k]), now, originPort)
  {
    if k > 0 {
      FirstValueIsEarliest(pieces[1..], k - 1, now, originPort);
    }
  }

  lemma FirstAcceptedLater(pieces: seq<string>, j: nat, now: nat, originPort: nat)
    requires pieces != [] && AlternativeValue(Trim(pieces[0]), now, originPort).NoAlternative?
    requires FirstAccepted(pieces[1..], j, now, originPort)
    ensures FirstAccepted(pieces, j + 1, now, originPort)
  {
    assert forall i | 0 < i <= j + 1 :: pieces[i] == pieces[1..][i - 1];
  }

  lemma {:induction false} FirstValueSource(pieces: seq<string>, now: nat, originPort: nat) returns (k: nat)
    requires !FirstValue(pieces, now, originPort).NoAlternative?
    ensures FirstAccepted(pieces, k, now, originPort)
  {
    if AlternativeValue(Trim(pieces[0]), now, originPort).NoAlternative? {
      var j := FirstValueSource(pieces[1..], now, originPort);
      k := j + 1;
      FirstAcceptedLater(pieces, j, now, originPort);
    } else {
      k := 0;
    }
  }

  /** A field yields an entry exactly when it is not `clear` and some segment between unquoted
      commas, the earliest acceptable one, yields that entry; and it clears exactly when the
      whole trimmed value is `clear`. */
  lemma Selection(raw: string, now: nat, originPort: nat, e: AltSvcEntry)
    ensures var segments := Segments(raw, ',', 0, 0);
            FieldValue(raw, now, originPort) == Entry(e) <==>
            && !IsClear(raw)
            && exists k: nat ::
                 && FirstAccepted(segments, k, now, originPort)
                 && AlternativeValue(Trim(segments[k]), now, originPort) == Entry(e)
    ensures FieldValue(raw, now, originPort).Clear? <==> IsClear(raw)
  {
    PiecesAreGlobalSegments(raw, ',');
    var segments := Segments(raw, ',', 0, 0);
    if !IsClear(raw) {
      if !FirstValue(segments, now, originPort).NoAlternative? {
        var k := FirstValueSource(segments, now, originPort);
        FirstValueIsEarliest(segments, k, now, originPort);
      }
      forall k: nat | FirstAccepted(segments, k, now, originPort)
        ensures FirstValue(segments, now, originPort) == AlternativeValue(Trim(segments[k]), now, originPort)
      {
        FirstValueIsEarliest(segments, k, now, originPort);
      }
    }
  }

  lemma NotClear(raw: string, c: char)
    requires c in raw && c in {',', '='}
    ensures !IsClear(raw)
  {
    var l, r := StripDecomposes(raw, SPACES);
    var t := Trim(raw);
    var i :| 0 <= i < |raw| && raw[i] == c;
    assert !IsSpace(c);
    assert |l| <= i < |l| + |t|;
    var j := i - |l|;
    assert t[j] == c;
    if |t| == 5 {
      assert Lower(t[j]) == c && "clear"[j] != c;
    }
  }

  // ---- What appending can change ----

  lemma {:induction false} FirstValueOfConcat(a: seq<string>, b: seq<string>, now: nat, originPort: nat)
    ensures FirstValue(a + b, now, originPort) ==
            if FirstValue(a, now, originPort).NoAlternative?
            then FirstValue(b, now, originPort) else FirstValue(a, now, originPort)
  {
    if a == [] {
      assert a + b == b;
    } else {
      assert (a + b)[1..] == a[1..] + b;
      FirstValueOfConcat(a[1..], b, now, originPort);
    }
  }

  /** The alternative that decides is not the last piece, or the quotes are closed: the two ways
      in which appended text cannot reach it. */
  predicate Settled(raw: string, now: nat, originPort: nat) {
    var ps := Pieces(raw, ',');
    Balanced(raw) || !FirstValue(ps[..|ps| - 1], now, originPort).NoAlternative?
  }

  lemma AppendToSettled(raw: string, more: string, now: nat, originPort: nat)
    requires FieldValue(raw, now, originPort).Entry? && Settled(raw, now, originPort)
    ensures FieldValue(raw + ([','] + more), now, originPort) == FieldValue(raw, now, originPort)
  {
    var s := raw + ([','] + more);
    assert s[|raw|] == ',';
    NotClear(s, ',');
    var ps := Pieces(raw, ',');
    var init := ps[..|ps| - 1];
    assert ps == init + ps[|ps| - 1..];
    FirstValueOfConcat(init, ps[|ps| - 1..], now, originPort);
    if Balanced(raw) {
      PiecesOfBalancedAppend(raw, ',', more);
      FirstValueOfConcat(ps, Pieces(more, ','), now, originPort);
    } else {
      PiecesOfAppend(raw, [','] + more, ',');
      FirstValueOfConcat(init, Pieces(ps[|ps| - 1] + ([','] + more), ','), now, originPort);
    }
  }

  /** Appended parameters: they count as read after the ones already there. */
  lemma {:induction false} MaxAgeOfConcat(a: seq<string>, b: seq<string>, age: nat)
    ensures MaxAge(a + b, age) == MaxAge(b, MaxAge(a, age))
  {
    if a == [] {
      assert a + b == b;
    } else {
      assert (a + b)[1..] == a[1..] + b;
      MaxAgeOfConcat(a[1..], b, match MaxAgeOf(a[0]) case Some(seconds) => seconds case None => age);
    }
  }

  /** The last readable `ma` decides, and the given age stands when there is none. */
  lemma {:induction false} LastMaxAgeDecides(params: seq<string>, age: nat)
    ensures (forall k | 0 <= k < |params| :: MaxAgeOf(params[k]).None?) ==> MaxAge(params, age) == age
    ensures forall k | 0 <= k < |params| && MaxAgeOf(params[k]).Some?
                       && (forall j | k < j < |params| :: MaxAgeOf(params[j]).None?) ::
              MaxAge(params, age) == MaxAgeOf(params[k]).value
  {
    if params != [] {
      var rest := params[1..];
      LastMaxAgeDecides(rest, match MaxAgeOf(params[0]) case Some(seconds) => seconds case None => age);
      assert forall k | 0 < k < |params| :: params[k] == rest[k - 1];
    }
  }

  lemma GraftedSplit(raw: string, n: nat, protocol: string, rest: string)
    requires SplitOnce(raw, '=') == Some((protocol, rest))
    ensures SplitOnce(raw + Graft(n), '=') == Some((protocol, rest + Graft(n)))
    ensures raw == protocol + ['='] + rest
  {
    SplitOnceSplits(raw, '=');
    assert raw + Graft(n) == protocol + ['='] + (rest + Graft(n));
    SplitOnceAtFirst(protocol, '=', rest + Graft(n));
  }

  /** Closing an open quote and adding `;ma=n` makes the age `n`, or loses the alternative. */
  lemma MaxAgeGraft(raw: string, n: nat, now: nat, originPort: nat)
    requires n <= 1 && !Balanced(raw) && AlternativeValue(raw, now, originPort).Entry?
    ensures var v := AlternativeValue(raw + Graft(n), now, originPort);
            v.Entry? ==> v.entry.expiresAt == now + 1000 * n
  {
    var (protocol, rest) := SplitOnce(raw, '=').value;
    GraftedSplit(raw, n, protocol, rest);
    RestUnbalanced(raw, protocol, rest);
    GraftedParts(rest, n);
  }

  function Graft(n: nat): string {
    ",\";ma=" + PrintNat(n)
  }

  lemma RestUnbalanced(raw: string, protocol: string, rest: string)
    requires raw == protocol + ['='] + rest && Trim(protocol) == "h3"
    ensures Balanced(rest) <==> Balanced(raw)
  {
    ProtocolHasNoQuotes(protocol);
    QuotesConcat(protocol + ['='], rest);
    QuotesConcat(protocol, ['=']);
    QuotesNone(['=']);
  }

  /** Text with an open quote, continued by a graft, has `ma=n` as its last part. */
  lemma GraftedParts(rest: string, n: nat)
    requires n <= 1 && !Balanced(rest)
    ensures var parts := Pieces(rest + Graft(n), ';');
            |parts| > 1 && MaxAge(parts[1..], DEFAULT_MAX_AGE) == n
  {
    var param := "ma=" + PrintNat(n);
    var head := rest + ",\"";
    assert rest + Graft(n) == head + ([';'] + param);
    QuoteCloses(rest);
    var parts := Pieces(head, ';');
    PiecesOfBalancedAppend(head, ';', param);
    MaxAgeParameter(n);
    QuietIsOnePiece(param, ';');
    LastParameter(parts, param);
  }

  lemma LastParameter(parts: seq<string>, param: string)
    requires parts != [] && MaxAgeOf(param).Some?
    ensures MaxAge((parts + [param])[1..], DEFAULT_MAX_AGE) == MaxAgeOf(param).value
  {
    assert (parts + [param])[1..] == parts[1..] + [param];
    MaxAgeOfConcat(parts[1..], [param], DEFAULT_MAX_AGE);
  }

  lemma QuoteCloses(rest: string)
    requires !Balanced(rest)
    ensures Balanced(rest + ",\"")
  {
    QuotesConcat(rest, ",\"");
    QuotesSnoc(",\"", 1);
    QuotesSnoc(",\"", 0);
  }

  lemma ProtocolHasNoQuotes(protocol: string)
    requires Trim(protocol) == "h3"
    ensures Quotes(protocol) == 0
  {
    var l, r := StripDecomposes(protocol, SPACES);
    QuotesNone(protocol);
  }

  lemma MaxAgeParameter(n: nat)
    requires n <= 1
    ensures var param := "ma=" + PrintNat(n);
            MaxAgeOf(param) == Some(n) && Quiet(param, ';')
  {
    var digits := PrintNat(n);
    var param := "ma=" + digits;
    assert n == 0 ==> digits == "0";
    assert n == 1 ==> digits == "1";
    StripPadded("", param, "", SPACES);
    assert param == "" + param + "" && param == "ma" + ['='] + digits;
    SplitOnceAtFirst("ma", '=', digits);
    assert "ma" == "" + "ma" + "" && digits == "" + digits + "";
    StripPadded("", "ma", "", SPACES);
    StripPadded("", digits, "", SPACES);
    StripPadded("", digits, "", QUOTE);
    PrintThenParse(n, U64_MAX);
    QuietPlain(param, ';');
  }

  /** An unsettled field is changed by some continuation. */
  lemma AppendToUnsettled(raw: string, now: nat, originPort: nat) returns (more: string)
    requires FieldValue(raw, now, originPort).Entry? && !Settled(raw, now, originPort)
    ensures FieldValue(raw + ([','] + more), now, originPort) != FieldValue(raw, now, originPort)
  {
    var e := FieldValue(raw, now, originPort).entry;
    var n: nat := if e.expiresAt == now then 1 else 0;
    more := "\";ma=" + PrintNat(n);
    var g := [','] + more;
    assert g == Graft(n);
    var init, last := UnsettledLast(raw, now, originPort);
    GraftIsOnePiece(last, n);
    PiecesOfAppend(raw, g, ',');
    FirstValueOfConcat(init, [last + g], now, originPort);
    assert (raw + g)[|raw|] == ',';
    NotClear(raw + g, ',');
    AlternativeIgnoresPadding(last, now, originPort);
    AlternativeIgnoresPadding(last + g, now, originPort);
    MaxAgeGraft(last, n, now, originPort);
  }

  /** The last piece of an unsettled field decides it and leaves a quote open. */
  lemma UnsettledLast(raw: string, now: nat, originPort: nat) returns (init: seq<string>, last: string)
    requires FieldValue(raw, now, originPort).Entry? && !Settled(raw, now, originPort)
    ensures Pieces(raw, ',') == init + [last]
    ensures FirstValue(init, now, originPort).NoAlternative?
    ensures AlternativeValue(Trim(last), now, originPort) == FieldValue(raw, now, originPort)
    ensures NoCut(last, ',') && !Balanced(last)
  {
    var ps := Pieces(raw, ',');
    init, last := ps[..|ps| - 1], ps[|ps| - 1];
    assert ps == init + [last];
    FirstValueOfConcat(init, [last], now, originPort);
    JoinOfPieces(raw, ',');
    LastPieceParity(ps, ',');
  }

  lemma GraftIsOnePiece(last: string, n: nat)
    requires n <= 1 && NoCut(last, ',') && !Balanced(last)
    ensures Pieces(last + Graft(n), ',') == [last + Graft(n)]
  {
    var g := Graft(n);
    var t := last + g;
    assert n == 0 ==> PrintNat(n) == "0";
    assert n == 1 ==> PrintNat(n) == "1";
    assert forall j | 0 < j < |g| :: g[j] != ',';
    PrefixNoCut(last, t, ',');
    assert t[..|last|] == last;
    NextCutIsFirstCut(t, ',', 0, false);
  }

  /** Whether appended alternatives can change an accepted field: none can, whatever they are,
      exactly when the field is settled. */
  lemma StableUnderAppending(raw: string, now: nat, originPort: nat)
    requires FieldValue(raw, now, originPort).Entry?
    ensures Settled(raw, now, originPort) <==>
            forall more: string :: FieldValue(raw + ([','] + more), now, originPort) == FieldValue(raw, now, originPort)
  {
    if Settled(raw, now, originPort) {
      forall more: string
        ensures FieldValue(raw + ([','] + more), now, originPort) == FieldValue(raw, now, originPort)
      {
        AppendToSettled(raw, more, now, originPort);
      }
    } else {
      var more := AppendToUnsettled(raw, now, originPort);
    }
  }

  // A field that is accepted but not settled: its last parameter leaves a quote open.

  const OPEN_AUTHORITY := "\":1\""
  const OPEN_PARAMETER := "x=\""
  const OPEN_FIELD := "h3=\":1\";x=\""

  lemma OpenFieldIsOnePiece()
    ensures Pieces(OPEN_FIELD, ',') == [OPEN_FIELD] && !Balanced(OPEN_FIELD)
  {
    assert forall j | 0 <= j < |OPEN_FIELD| :: OPEN_FIELD[j] != ',';
    NextCutIsFirstCut(OPEN_FIELD, ',', 0, false);
    var a, b, c := "\"" + ":1", "\"" + ";x=", "\"" + "";
    assert OPEN_FIELD == "h3=" + (a + (b + c));
    QuotesConcat("h3=", a + (b + c));
    QuotesConcat(a, b + c);
    QuotesConcat(b, c);
    QuotesNone("h3=");
    OneQuote(":1");
    OneQuote(";x=");
    OneQuote("");
  }

  lemma OneQuote(b: string)
    requires '"' !in b
    ensures Quotes("\"" + b) == 1
  {
    QuotesConcat("\"", b);
    QuotesSnoc("\"", 0);
    QuotesNone(b);
  }

  lemma OpenFieldParts()
    ensures Pieces(OPEN_AUTHORITY + [';'] + OPEN_PARAMETER, ';') == [OPEN_AUTHORITY] + Pieces(OPEN_PARAMETER, ';')
  {
    var a, b := "\"" + ":1", "\"" + "";
    assert OPEN_AUTHORITY == a + b;
    QuotesConcat(a, b);
    OneQuote(":1");
    OneQuote("");
    assert forall j | 0 <= j < |OPEN_AUTHORITY| :: OPEN_AUTHORITY[j] != ';';
    PiecesOfHead(OPEN_AUTHORITY, ';', OPEN_PARAMETER);
  }

  lemma OpenFieldAuthority(originPort: nat)
    ensures ParseAuthority(Trim(OPEN_AUTHORITY), originPort) == Some((None, 1))
  {
    assert !IsSpace('"');
    StripPadded("", OPEN_AUTHORITY, "", SPACES);
    assert "" + OPEN_AUTHORITY + "" == OPEN_AUTHORITY && PrintNat(1) == "1";
    PrintThenParse(1, U16_MAX);
    assert OPEN_AUTHORITY[1..3] == ":1" && ":1"[1..] == "1";
  }

  /** Such fields exist, so the parser can accept a field that appended text changes. */
  lemma UnsettledField(now: nat, originPort: nat) returns (more: string)
    ensures FieldValue(OPEN_FIELD, now, originPort).Entry? && !Settled(OPEN_FIELD, now, originPort)
    ensures FieldValue(OPEN_FIELD + ([','] + more), now, originPort) != FieldValue(OPEN_FIELD, now, originPort)
  {
    OpenFieldIsUnsettled(now, originPort);
    more := AppendToUnsettled(OPEN_FIELD, now, originPort);
  }

  lemma OpenFieldIsUnsettled(now: nat, originPort: nat)
    ensures FieldValue(OPEN_FIELD, now, originPort).Entry? && !Settled(OPEN_FIELD, now, originPort)
  {
    var rest := OPEN_AUTHORITY + [';'] + OPEN_PARAMETER;
    assert OPEN_FIELD == "h3" + ['='] + rest;
    SplitOnceAtFirst("h3", '=', rest);
    assert !IsSpace('h') && !IsSpace('3');
    StripPadded("", "h3", "", SPACES);
    assert "" + "h3" + "" == "h3";
    OpenFieldParts();
    OpenFieldAuthority(originPort);
    AlternativeIgnoresPadding(OPEN_FIELD, now, originPort);
    OpenFieldIsOnePiece();
    assert OPEN_FIELD[2] == '=';
    NotClear(OPEN_FIELD, '=');
  }

  // ---- What rejected alternatives in front can change ----

  const PLAIN_H3 := "h3=\":1\""

  /** Means nothing by itself, but offers h3 after an open quote. */
  const FORGERY := "\",h3=\":1\""

  lemma PlainH3(now: nat, originPort: nat)
    ensures FirstValue(Pieces(PLAIN_H3, ','), now, originPort).Entry? && FieldValue(PLAIN_H3, now, originPort).Entry?
  {
    assert PLAIN_H3 == "h3" + ['='] + OPEN_AUTHORITY;
    SplitOnceAtFirst("h3", '=', OPEN_AUTHORITY);
    assert !IsSpace('h') && !IsSpace('3');
    StripPadded("", "h3", "", SPACES);
    assert "" + "h3" + "" == "h3";
    assert NoCut(OPEN_AUTHORITY, ';') && NoCut(PLAIN_H3, ',');
    QuietIsOnePiece(OPEN_AUTHORITY, ';');
    QuietIsOnePiece(PLAIN_H3, ',');
    OpenFieldAuthority(originPort);
    AlternativeIgnoresPadding(PLAIN_H3, now, originPort);
    assert PLAIN_H3[2] == '=';
    NotClear(PLAIN_H3, '=');
  }

  /** An alternative whose protocol is not h3 and whose only comma is quoted. */
  lemma ForeignPiece(protocol: string, rest: string, now: nat, originPort: nat)
    requires '=' !in protocol && Trim(protocol) != "h3" && NoCut(protocol + ['='] + rest, ',')
    ensures FieldValue(protocol + ['='] + rest, now, originPort) == NoAlternative
  {
    var s := protocol + ['='] + rest;
    QuietIsOnePiece(s, ',');
    SplitOnceAtFirst(protocol, '=', rest);
    AlternativeIgnoresPadding(s, now, originPort);
    assert AlternativeValue(s, now, originPort) == NoAlternative;
    var none: seq<string> := [];
    assert Pieces(s, ',')[1..] == none;
    assert FirstValue(none, now, originPort) == NoAlternative;
    assert s[|protocol|] == '=';
    NotClear(s, '=');
  }

  lemma OnlyCommaIsQuoted(s: string, i: nat)
    requires i < |s| && !Balanced(s[..i]) && forall j | 0 <= j < |s| && s[j] == ',' :: j == i
    ensures NoCut(s, ',')
  {
  }

  lemma ForgeryMeansNothing(now: nat, originPort: nat)
    ensures FieldValue(FORGERY, now, originPort) == NoAlternative && !IsClear(FORGERY)
  {
    var protocol := "\"" + ",h3";
    assert FORGERY == protocol + ['='] + OPEN_AUTHORITY && FORGERY[..1] == "\"" + "";
    OneQuote("");
    OnlyCommaIsQuoted(FORGERY, 1);
    OneQuote(",h3");
    if Trim(protocol) == "h3" {
      ProtocolHasNoQuotes(protocol);
    }
    ForeignPiece(protocol, OPEN_AUTHORITY, now, originPort);
    assert FORGERY[4] == '=';
    NotClear(FORGERY, '=');
  }

  lemma ForgeryAfterOpenQuote(p: string, now: nat, originPort: nat)
    requires !Balanced(p)
    ensures FieldValue(p + ([','] + FORGERY), now, originPort) != NoAlternative
  {
    var head := p + ",\"";
    var s := p + ([','] + FORGERY);
    assert s == head + ([','] + PLAIN_H3);
    assert s[|p|] == ',';
    NotClear(s, ',');
    QuoteCloses(p);
    PiecesOfBalancedAppend(head, ',', PLAIN_H3);
    FirstValueOfConcat(Pieces(head, ','), Pieces(PLAIN_H3, ','), now, originPort);
    PlainH3(now, originPort);
  }

  /** Alternatives in front that all mean nothing, whatever commas they quote, leave the meaning
      of every field behind them as it is, hiding and forging nothing, exactly when their quotes
      are closed. */
  lemma RejectedPrefixIsSkipped(p: string, now: nat, originPort: nat)
    requires FirstValue(Pieces(p, ','), now, originPort).NoAlternative?
    ensures Balanced(p) <==>
            forall raw | !IsClear(raw) ::
              FieldValue(p + ([','] + raw), now, originPort) == FieldValue(raw, now, originPort)
  {
    if Balanced(p) {
      forall raw | !IsClear(raw)
        ensures FieldValue(p + ([','] + raw), now, originPort) == FieldValue(raw, now, originPort)
      {
        var s := p + ([','] + raw);
        assert s[|p|] == ',';
        NotClear(s, ',');
        PiecesOfBalancedAppend(p, ',', raw);
        FirstValueOfConcat(Pieces(p, ','), Pieces(raw, ','), now, originPort);
      }
    } else {
      ForgeryAfterOpenQuote(p, now, originPort);
      ForgeryMeansNothing(now, originPort);
    }
  }

  const OPEN_PREFIX := "x=\""

  /** A rejected alternative that leaves a quote open hides the h3 alternative after it. */
  lemma OpenPrefixHides(now: nat, originPort: nat)
    ensures FieldValue(OPEN_PREFIX, now, originPort) == NoAlternative
    ensures FieldValue(PLAIN_H3, now, originPort).Entry?
    ensures FieldValue(OPEN_PREFIX + ([','] + PLAIN_H3), now, originPort) == NoAlternative
  {
    PlainH3(now, originPort);
    OpenPrefixAlone(now, originPort);
    OpenPrefixBefore(now, originPort);
  }

  lemma OpenPrefixAlone(now: nat, originPort: nat)
    ensures FieldValue(OPEN_PREFIX, now, originPort) == NoAlternative
  {
    HiddenIsOnePiece();
    assert OPEN_PREFIX == "x" + ['='] + "\"";
    ForeignProtocol();
    ForeignPiece("x", "\"", now, originPort);
  }

  lemma OpenPrefixBefore(now: nat, originPort: nat)
    ensures FieldValue(OPEN_PREFIX + ([','] + PLAIN_H3), now, originPort) == NoAlternative
  {
    HiddenIsOnePiece();
    assert OPEN_PREFIX + ([','] + PLAIN_H3) == "x" + ['='] + ("\"" + ([','] + PLAIN_H3));
    ForeignProtocol();
    ForeignPiece("x", "\"" + ([','] + PLAIN_H3), now, originPort);
  }

  lemma ForeignProtocol()
    ensures Trim("x") == "x" != "h3"
  {
    assert !IsSpace('x');
    StripPadded("", "x", "", SPACES);
    assert "" + "x" + "" == "x";
  }

  lemma HiddenIsOnePiece()
    ensures NoCut(OPEN_PREFIX, ',') && NoCut(OPEN_PREFIX + ([','] + PLAIN_H3), ',')
  {
    var s := OPEN_PREFIX + ([','] + PLAIN_H3);
    assert s[..3] == "x=" + ("\"" + "");
    QuotesConcat("x=", "\"" + "");
    QuotesNone("x=");
    OneQuote("");
    OnlyCommaIsQuoted(s, 3);
  }

  // ---- Padding ----

  lemma {:induction false} MaxAgeIgnoresPadding(params: seq<string>, trail: string, age: nat)
    requires params != [] && Only(trail, SPACES)
    ensures var n := |params| - 1;
            MaxAge(params[..n] + [params[n] + trail], age) == MaxAge(params, age)
  {
    var n := |params| - 1;
    var last := params[n];
    StripAbsorbs("", last, trail, SPACES);
    assert "" + last + trail == last + trail;
    MaxAgeOfConcat(params[..n], [last + trail], age);
    MaxAgeOfConcat(params[..n], [last], age);
    assert params[..n] + [last] == params;
  }

  /** Spaces around an alternative play no part. */
  lemma AlternativeIgnoresPadding(raw: string, now: nat, originPort: nat)
    ensures AlternativeValue(Trim(raw), now, originPort) == AlternativeValue(raw, now, originPort)
  {
    var l, r := StripDecomposes(raw, SPACES);
    var core := Trim(raw);
    SpacesAreOrdinary(l);
    SpacesAreOrdinary(r);
    SplitOncePadded(l, core, r, '=');
    SplitOnceSplits(core, '=');
    if '=' in core {
      var (protocol, rest) := SplitOnce(core, '=').value;
      StripAbsorbs(l, protocol, "", SPACES);
      assert l + protocol + "" == l + protocol;
      PartsIgnorePadding(rest, r);
    }
  }

  /** Padding lands in the outer halves of a split. */
  lemma SplitOncePadded(l: string, s: string, r: string, c: char)
    requires c !in l && c !in r
    ensures SplitOnce(l + s + r, c).Some? <==> c in s
    ensures SplitOnce(s, c).Some? ==>
              var (a, b) := SplitOnce(s, c).value;
              SplitOnce(l + s + r, c) == Some((l + a, b + r))
  {
    SplitOnceSplits(s, c);
    if c in s {
      var (a, b) := SplitOnce(s, c).value;
      assert l + s + r == (l + a) + [c] + (b + r);
      SplitOnceAtFirst(l + a, c, b + r);
    } else {
      SplitOnceSplits(l + s + r, c);
    }
  }

  lemma SpacesAreOrdinary(s: string)
    requires Only(s, SPACES)
    ensures '"' !in s && '=' !in s && ',' !in s && ';' !in s
  {
    assert !IsSpace('"') && !IsSpace('=') && !IsSpace(',') && !IsSpace(';');
  }

  lemma PiecesOfPadded(rest: string, r: string, sep: char)
    requires '"' !in r && sep !in r
    ensures var a := Pieces(rest, sep); var n := |a| - 1;
            Pieces(rest + r, sep) == a[..n] + [a[n] + r]
  {
    var a := Pieces(rest, sep);
    var last := a[|a| - 1];
    var t := last + r;
    PiecesOfAppend(rest, r, sep);
    JoinOfPieces(rest, sep);
    PrefixNoCut(last, t, sep);
    NextCutIsFirstCut(t, sep, 0, false);
  }

  lemma PartsIgnorePadding(rest: string, r: string)
    requires Only(r, SPACES)
    ensures var a, b := Pieces(rest, ';'), Pieces(rest + r, ';');
            && Trim(a[0]) == Trim(b[0])
            && MaxAge(a[1..], DEFAULT_MAX_AGE) == MaxAge(b[1..], DEFAULT_MAX_AGE)
  {
    SpacesAreOrdinary(r);
    PiecesOfPadded(rest, r, ';');
    PartsPadded(Pieces(rest, ';'), r);
  }

  lemma PartsPadded(a: seq<string>, r: string)
    requires a != [] && Only(r, SPACES)
    ensures var b := a[..|a| - 1] + [a[|a| - 1] + r];
            && Trim(a[0]) == Trim(b[0])
            && MaxAge(a[1..], DEFAULT_MAX_AGE) == MaxAge(b[1..], DEFAULT_MAX_AGE)
  {
    var n := |a| - 1;
    if n == 0 {
      StripAbsorbs("", a[0], r, SPACES);
      assert "" + a[0] + r == a[0] + r;
    } else {
      var params := a[1..];
      MaxAgeIgnoresPadding(params, r, DEFAULT_MAX_AGE);
      assert (a[..n] + [a[n] + r])[1..] == params[..n - 1] + [params[n - 1] + r];
    }
  }
}
