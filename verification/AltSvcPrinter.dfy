/** A printer for Alt-Svc field values with every layout freedom the parser allows, and the
    proof that parsing undoes it. */
module AltSvcPrinter {
  import opened Wrappers
  import opened Text
  import opened QuotedSplitter
  import opened AltSvc
  import opened AltSvcLaws

  /** ASCII white space and nothing else. */
  predicate Blank(s: string) {
    forall i | 0 <= i < |s| :: s[i] in {' ', '\t', '\n', '\U{000B}', '\U{000C}', '\r'}
  }

  /** White space before a name, before `=`, after `=`, and after the value. */
  datatype Pad = Pad(before: string, inner: string, mid: string, after: string) {
    predicate Valid() {
      Blank(before) && Blank(inner) && Blank(mid) && Blank(after)
    }
  }

  /** `ma` in any letter case with a plain or quoted number, or any other parameter, whose value
      may quote commas and semicolons. */
  datatype Parameter =
    | MaxAgeParameter(spelling: string, seconds: nat, quoted: bool, pad: Pad)
    | Extension(name: string, value: string, pad: Pad)
  {
    predicate Valid() {
      && pad.Valid()
      && match this
         case MaxAgeParameter(spelling, seconds, _, _) =>
           spelling in {"ma", "mA", "Ma", "MA"} && seconds <= U64_MAX
         case Extension(name, value, _) =>
           && PlainName(name) && name !in {"ma", "mA", "Ma", "MA"}
           && Quiet(value, ';') && Quiet(value, ',')
    }

    function Name(): string {
      if MaxAgeParameter? then spelling else name
    }

    function Value(): string {
      match this
      case MaxAgeParameter(_, seconds, quoted, _) =>
        if quoted then "\"" + PrintNat(seconds) + "\"" else PrintNat(seconds)
      case Extension(_, value, _) => value
    }

    function Print(): string {
      pad.before + Name() + pad.inner + ['='] + (pad.mid + Value() + pad.after)
    }
  }

  predicate PlainName(name: string) {
    BareEdges(name, SPACES) && '"' !in name && '=' !in name && ',' !in name && ';' !in name
  }

  datatype Authority = Authority(host: Option<string>, bracketed: bool, port: nat) {
    /** A bare host must not start with a colon: that is how the hostless form is told. */
    predicate Valid() {
      && port <= U16_MAX
      && (host.Some? ==>
            && host.value != "" && '"' !in host.value && BareEdges(host.value, BRACKETS)
            && (bracketed || host.value[0] != ':'))
    }

    function HostText(): string {
      match host
      case None => ""
      case Some(h) => if bracketed then "[" + h + "]" else h
    }

    function Print(): string {
      "\"" + (HostText() + [':'] + PrintNat(port)) + "\""
    }
  }

  datatype Alternative =
    | H3(authority: Authority, params: seq<Parameter>, pad: Pad)
    | Other(protocol: string, rest: string, pad: Pad)
  {
    predicate Valid() {
      && pad.Valid()
      && match this
         case H3(authority, params, _) => authority.Valid() && forall k | 0 <= k < |params| :: params[k].Valid()
         case Other(protocol, rest, _) => PlainName(protocol) && protocol != "h3" && Quiet(rest, ',')
    }

    function Protocol(): string {
      if H3? then "h3" else protocol
    }

    function Parts(): seq<string>
      requires H3?
    {
      [pad.mid + authority.Print() + pad.after] + PrintParameters(params)
    }

    function AfterEquals(): string {
      if H3? then Join(Parts(), ';') else rest
    }

    function Print(): string {
      pad.before + Protocol() + pad.inner + ['='] + AfterEquals()
    }

    /** What the alternative stands for. */
    function Meaning(now: nat): AltSvcUpdate {
      match this
      case H3(authority, params, _) => Entry(AltSvcEntry(authority.host, authority.port, now + 1000 * LastAge(params)))
      case Other(_, _, _) => NoAlternative
    }
  }

  function PrintParameters(params: seq<Parameter>): (ps: seq<string>)
    ensures |ps| == |params| && forall k | 0 <= k < |ps| :: ps[k] == params[k].Print()
  {
    seq(|params|, k requires 0 <= k < |params| => params[k].Print())
  }

  function PrintField(alternatives: seq<Alternative>): string
    requires alternatives != []
  {
    Join(seq(|alternatives|, k requires 0 <= k < |alternatives| => alternatives[k].Print()), ',')
  }

  /** The age the last `ma` parameter gives, and a day when there is none. */
  function LastAge(params: seq<Parameter>): nat {
    if params == [] then DEFAULT_MAX_AGE
    else if params[|params| - 1].MaxAgeParameter? then params[|params| - 1].seconds
    else LastAge(params[..|params| - 1])
  }

  /** The meaning of the first h3 alternative, if any. */
  function FirstMeaning(alternatives: seq<Alternative>, now: nat): AltSvcUpdate {
    if alternatives == [] then NoAlternative
    else if alternatives[0].H3? then alternatives[0].Meaning(now)
    else FirstMeaning(alternatives[1..], now)
  }

  // ---- Authorities ----

  lemma HostForm(a: Authority, port: string, originPort: nat)
    requires a.Valid() && a.host.Some? && ':' !in port
    ensures ParseAuthority("\"" + (a.HostText() + [':'] + port) + "\"", originPort) ==
            Some((a.host, match ParseUnsigned(port, U16_MAX) case Some(n) => n case None => originPort))
  {
    var inside := a.HostText() + [':'] + port;
    var text := "\"" + inside + "\"";
    assert text[1..|text| - 1] == inside && inside[0] == a.HostText()[0];
    RSplitOnceAtLast(a.HostText(), ':', port);
    BracketsGo(a);
  }

  lemma BracketsGo(a: Authority)
    requires a.Valid() && a.host.Some?
    ensures Strip(a.HostText(), BRACKETS) == a.host.value
  {
    var h := a.host.value;
    StripPadded(if a.bracketed then "[" else "", h, if a.bracketed then "]" else "", BRACKETS);
    assert "" + h + "" == h;
  }

  lemma HostlessForm(port: string, originPort: nat)
    ensures ParseAuthority("\"" + ([':'] + port) + "\"", originPort) ==
            match ParseUnsigned(port, U16_MAX) case Some(n) => Some((None, n)) case None => None
  {
    var text := "\"" + ([':'] + port) + "\"";
    assert text[1..|text| - 1] == [':'] + port && ([':'] + port)[1..] == port;
  }

  lemma ParsePrintedAuthority(a: Authority, originPort: nat)
    requires a.Valid()
    ensures ParseAuthority(a.Print(), originPort) == Some((a.host, a.port))
  {
    var port := PrintNat(a.port);
    PrintThenParse(a.port, U16_MAX);
    if a.host.None? {
      assert "" + [':'] + port == [':'] + port;
      HostlessForm(port, originPort);
    } else {
      HostForm(a, port, originPort);
    }
  }

  /** A port that does not decode rejects the hostless form, but the form with a host falls back
      to the origin's port. */
  lemma UndecodablePort(a: Authority, port: string, originPort: nat)
    requires a.Valid() && a.host.Some? && ':' !in port && ParseUnsigned(port, U16_MAX).None?
    ensures ParseAuthority("\"" + ([':'] + port) + "\"", originPort) == None
    ensures ParseAuthority("\"" + (a.HostText() + [':'] + port) + "\"", originPort) == Some((a.host, originPort))
  {
    HostlessForm(port, originPort);
    HostForm(a, port, originPort);
  }

  lemma QuietAuthority(a: Authority, sep: char)
    requires a.Valid()
    ensures Quiet(a.Print(), sep)
  {
    assert '"' !in PrintNat(a.port);
    QuietQuoted(a.HostText() + [':'] + PrintNat(a.port), sep);
  }

  lemma BareAuthority(a: Authority)
    ensures BareEdges(a.Print(), SPACES)
  {
    assert !IsSpace('"');
  }

  // ---- Parameters ----

  /** Trimming first and splitting at `=` afterwards trims the outer sides of the halves. */
  lemma SplitTrimmed(a: string, b: string)
    requires '=' !in a
    ensures var split := SplitOnce(Trim(a + ['='] + b), '=');
            split.Some? && Trim(split.value.0) == Trim(a) && Trim(split.value.1) == Trim(b)
  {
    var s := a + ['='] + b;
    var l, r := StripDecomposes(s, SPACES);
    SpacesAreOrdinary(l);
    SpacesAreOrdinary(r);
    SplitOncePadded(l, Trim(s), r, '=');
    SplitOnceAtFirst(a, '=', b);
    SplitOnceSplits(Trim(s), '=');
    var (x, y) := SplitOnce(Trim(s), '=').value;
    StripAbsorbs(l, x, "", SPACES);
    StripAbsorbs("", y, r, SPACES);
    assert l + x + "" == a && "" + y + r == b;
  }

  /** Trimming before splitting at `=` makes no difference to a parameter's age. */
  lemma MaxAgeOfSplit(a: string, b: string)
    requires '=' !in a
    ensures MaxAgeOf(a + ['='] + b) ==
            if SameIgnoringCase(Trim(a), "ma") then ParseUnsigned(Strip(Trim(b), QUOTE), U64_MAX) else None
  {
    SplitTrimmed(a, b);
  }

  lemma PlainSpelling(spelling: string)
    requires SameIgnoringCase(spelling, "ma")
    ensures PlainName(spelling)
  {
    assert forall i | 0 <= i < |spelling| :: Lower(spelling[i]) == 'm' || Lower(spelling[i]) == 'a';
    assert Lower('"') == '"' && Lower('=') == '=' && Lower(',') == ',' && Lower(';') == ';';
    assert |spelling| == 2 && Lower(spelling[0]) == 'm' && Lower(spelling[1]) == 'a';
    LettersAreNotSpaces(spelling[0]);
    LettersAreNotSpaces(spelling[1]);
  }

  lemma LettersAreNotSpaces(c: char)
    requires Lower(c) == 'm' || Lower(c) == 'a'
    ensures !IsSpace(c)
  {
  }

  lemma NameIsPlain(p: Parameter)
    requires p.Valid()
    ensures PlainName(p.Name())
  {
    SpellingsOfMa(p.Name());
    if p.MaxAgeParameter? {
      PlainSpelling(p.spelling);
    }
  }

  lemma BlanksAreTrimmed(pad: Pad)
    requires pad.Valid()
    ensures Only(pad.before, SPACES) && Only(pad.inner, SPACES) && Only(pad.mid, SPACES) && Only(pad.after, SPACES)
  {
    assert forall c | c in {' ', '\t', '\n', '\U{000B}', '\U{000C}', '\r'} :: IsSpace(c);
  }

  lemma ReadPrintedAge(p: Parameter)
    requires p.Valid() && p.MaxAgeParameter?
    ensures ParseUnsigned(Strip(Trim(p.pad.mid + p.Value() + p.pad.after), QUOTE), U64_MAX) == Some(p.seconds)
  {
    BlanksAreTrimmed(p.pad);
    var digits := PrintNat(p.seconds);
    var q := if p.quoted then "\"" else "";
    assert p.Value() == q + digits + q;
    DigitsAreBare(digits);
    assert BareEdges(p.Value(), SPACES) by {
      assert !IsSpace('"');
    }
    StripPadded(p.pad.mid, p.Value(), p.pad.after, SPACES);
    StripPadded(q, digits, q, QUOTE);
    PrintThenParse(p.seconds, U64_MAX);
  }

  lemma ReadPrintedParameter(p: Parameter)
    requires p.Valid()
    ensures MaxAgeOf(p.Print()) == if p.MaxAgeParameter? then Some(p.seconds) else None
  {
    BlanksAreTrimmed(p.pad);
    SpellingsOfMa(p.Name());
    NameIsPlain(p);
    SpacesAreOrdinary(p.pad.before);
    SpacesAreOrdinary(p.pad.inner);
    MaxAgeOfSplit(p.pad.before + p.Name() + p.pad.inner, p.pad.mid + p.Value() + p.pad.after);
    StripPadded(p.pad.before, p.Name(), p.pad.inner, SPACES);
    if p.MaxAgeParameter? {
      ReadPrintedAge(p);
    }
  }

  lemma DigitsAreBare(s: string)
    requires AllDigits(s)
    ensures BareEdges(s, SPACES) && BareEdges(s, QUOTE)
  {
    assert forall i | 0 <= i < |s| :: !IsSpace(s[i]) && s[i] != '"';
  }

  lemma QuietValue(p: Parameter, sep: char)
    requires p.Valid() && sep in {';', ','}
    ensures Quiet(p.Value(), sep)
  {
    if p.MaxAgeParameter? {
      var digits := PrintNat(p.seconds);
      assert '"' !in digits && sep !in digits;
      QuietPlain(digits, sep);
      QuietQuoted(digits, sep);
    }
  }

  lemma QuietParameter(p: Parameter, sep: char)
    requires p.Valid() && sep in {';', ','}
    ensures Quiet(p.Print(), sep)
  {
    BlanksAreTrimmed(p.pad);
    NameIsPlain(p);
    QuietValue(p, sep);
    QuietPair(p.pad, p.Name(), p.Value() + p.pad.after, sep);
    QuietPadding(p.pad.after, sep);
    QuietConcat(p.Value(), p.pad.after, sep);
    assert p.Print() == p.pad.before + p.Name() + p.pad.inner + ['='] + (p.pad.mid + (p.Value() + p.pad.after));
    QuietPadding(p.pad.mid, sep);
    QuietConcat(p.pad.mid, p.Value() + p.pad.after, sep);
    QuietConcat(p.pad.before + p.Name() + p.pad.inner + ['='], p.pad.mid + (p.Value() + p.pad.after), sep);
  }

  lemma QuietPadding(s: string, sep: char)
    requires Only(s, SPACES) && sep in {';', ','}
    ensures Quiet(s, sep)
  {
    SpacesAreOrdinary(s);
    QuietPlain(s, sep);
  }

  lemma QuietPair(pad: Pad, name: string, value: string, sep: char)
    requires pad.Valid() && PlainName(name) && sep in {';', ','}
    ensures Quiet(pad.before + name + pad.inner + ['='], sep)
  {
    BlanksAreTrimmed(pad);
    SpacesAreOrdinary(pad.before);
    SpacesAreOrdinary(pad.inner);
    QuietPlain(pad.before + name + pad.inner + ['='], sep);
  }

  // ---- Alternatives ----

  lemma {:induction false} ReadPrintedParameters(params: seq<Parameter>)
    requires forall k | 0 <= k < |params| :: params[k].Valid()
    ensures MaxAge(PrintParameters(params), DEFAULT_MAX_AGE) == LastAge(params)
  {
    if params != [] {
      var n := |params| - 1;
      var init, last := params[..n], params[n];
      ReadPrintedParameters(init);
      PrintedParametersSnoc(params);
      MaxAgeOfConcat(PrintParameters(init), [last.Print()], DEFAULT_MAX_AGE);
      ReadPrintedParameter(last);
    }
  }

  lemma PrintedParametersSnoc(params: seq<Parameter>)
    requires params != []
    ensures var n := |params| - 1;
            PrintParameters(params) == PrintParameters(params[..n]) + [params[n].Print()]
  {
  }

  lemma QuietFirstPart(a: Alternative, sep: char)
    requires a.Valid() && a.H3? && sep in {';', ','}
    ensures Quiet(a.Parts()[0], sep)
  {
    BlanksAreTrimmed(a.pad);
    QuietPadding(a.pad.mid, sep);
    QuietPadding(a.pad.after, sep);
    QuietAuthority(a.authority, sep);
    QuietConcat(a.pad.mid, a.authority.Print(), sep);
    QuietConcat(a.pad.mid + a.authority.Print(), a.pad.after, sep);
  }

  lemma PartAt(a: Alternative, k: nat)
    requires a.H3? && 0 < k < |a.Parts()|
    ensures k - 1 < |a.params| && a.Parts()[k] == a.params[k - 1].Print()
  {
  }

  lemma QuietPart(a: Alternative, sep: char, k: nat)
    requires a.Valid() && a.H3? && sep in {';', ','} && k < |a.Parts()|
    ensures Quiet(a.Parts()[k], sep)
  {
    if k == 0 {
      QuietFirstPart(a, sep);
    } else {
      PartAt(a, k);
      QuietParameter(a.params[k - 1], sep);
    }
  }

  lemma QuietParts(a: Alternative, sep: char)
    requires a.Valid() && a.H3? && sep in {';', ','}
    ensures forall k | 0 <= k < |a.Parts()| :: Quiet(a.Parts()[k], sep)
  {
    forall k | 0 <= k < |a.Parts()|
      ensures Quiet(a.Parts()[k], sep)
    {
      QuietPart(a, sep, k);
    }
  }

  lemma {:induction false} QuietJoin(ps: seq<string>, joiner: char, sep: char)
    requires |ps| > 0 && joiner != '"' && joiner != sep
    requires forall k | 0 <= k < |ps| :: Quiet(ps[k], sep)
    ensures Quiet(Join(ps, joiner), sep)
  {
    if |ps| > 1 {
      QuietJoin(ps[1..], joiner, sep);
      QuietPlain([joiner], sep);
      QuietConcat(ps[0], [joiner], sep);
      QuietConcat(ps[0] + [joiner], Join(ps[1..], joiner), sep);
    }
  }

  lemma QuietAlternative(a: Alternative)
    requires a.Valid()
    ensures Quiet(a.Print(), ',')
  {
    if a.H3? {
      QuietParts(a, ',');
      QuietJoin(a.Parts(), ';', ',');
    }
    PlainProtocol(a);
    QuietPair(a.pad, a.Protocol(), a.AfterEquals(), ',');
    QuietConcat(a.pad.before + a.Protocol() + a.pad.inner + ['='], a.AfterEquals(), ',');
  }

  lemma SplitPadded(pad: Pad, name: string, rest: string)
    requires pad.Valid() && PlainName(name)
    ensures var padded := pad.before + name + pad.inner;
            SplitOnce(padded + ['='] + rest, '=') == Some((padded, rest)) && Trim(padded) == name
  {
    BlanksAreTrimmed(pad);
    SpacesAreOrdinary(pad.before);
    SpacesAreOrdinary(pad.inner);
    SplitOnceAtFirst(pad.before + name + pad.inner, '=', rest);
    StripPadded(pad.before, name, pad.inner, SPACES);
  }

  lemma PlainProtocol(a: Alternative)
    requires a.Valid()
    ensures PlainName(a.Protocol())
  {
    assert !IsSpace('h') && !IsSpace('3');
  }

  lemma ReadPrintedAlternative(a: Alternative, now: nat, originPort: nat)
    requires a.Valid()
    ensures AlternativeValue(Trim(a.Print()), now, originPort) == a.Meaning(now)
  {
    AlternativeIgnoresPadding(a.Print(), now, originPort);
    PlainProtocol(a);
    SplitPadded(a.pad, a.Protocol(), a.AfterEquals());
    if a.H3? {
      ReadParts(a, originPort);
    }
  }

  lemma ReadParts(a: Alternative, originPort: nat)
    requires a.Valid() && a.H3?
    ensures var parts := Pieces(Join(a.Parts(), ';'), ';');
            && ParseAuthority(Trim(parts[0]), originPort) == Some((a.authority.host, a.authority.port))
            && MaxAge(parts[1..], DEFAULT_MAX_AGE) == LastAge(a.params)
  {
    BlanksAreTrimmed(a.pad);
    QuietParts(a, ';');
    PiecesOfJoin(a.Parts(), ';');
    BareAuthority(a.authority);
    StripPadded(a.pad.mid, a.authority.Print(), a.pad.after, SPACES);
    ParsePrintedAuthority(a.authority, originPort);
    ReadPrintedParameters(a.params);
    assert a.Parts()[1..] == PrintParameters(a.params);
  }

  // ---- Whole fields ----

  lemma {:induction false} FirstPrintedMeaning(alternatives: seq<Alternative>, pieces: seq<string>, now: nat, originPort: nat)
    requires |pieces| == |alternatives|
    requires forall k | 0 <= k < |alternatives| :: alternatives[k].Valid() && pieces[k] == alternatives[k].Print()
    ensures FirstValue(pieces, now, originPort) == FirstMeaning(alternatives, now)
  {
    if alternatives != [] {
      ReadPrintedAlternative(alternatives[0], now, originPort);
      FirstPrintedMeaning(alternatives[1..], pieces[1..], now, originPort);
    }
  }

  /** Parsing undoes printing: the entry is the first h3 alternative's host, port and age,
      whatever the alternatives around it and however the field is laid out. */
  lemma ParseUndoesPrint(alternatives: seq<Alternative>, now: nat, originPort: nat)
    requires alternatives != [] && forall k | 0 <= k < |alternatives| :: alternatives[k].Valid()
    ensures FieldValue(PrintField(alternatives), now, originPort) == FirstMeaning(alternatives, now)
  {
    var pieces := seq(|alternatives|, k requires 0 <= k < |alternatives| => alternatives[k].Print());
    forall k | 0 <= k < |pieces|
      ensures Quiet(pieces[k], ',')
    {
      QuietAlternative(alternatives[k]);
    }
    PiecesOfJoin(pieces, ',');
    PrintedFieldIsNotClear(pieces, alternatives[0]);
    FirstPrintedMeaning(alternatives, pieces, now, originPort);
  }

  lemma PrintedFieldIsNotClear(pieces: seq<string>, a: Alternative)
    requires pieces != [] && pieces[0] == a.Print()
    ensures !IsClear(Join(pieces, ','))
  {
    var i := |a.pad.before + a.Protocol() + a.pad.inner|;
    assert a.Print()[i] == '=';
    assert Join(pieces, ',')[i] == '=';
    NotClear(Join(pieces, ','), '=');
  }
}
