/** Exactly which texts the Alt-Svc parser accepts, part by part and both ways, spelled out in
    characters; and what it makes of ordinary fields. */
module AltSvcForms {
  import opened Wrappers
  import opened Text
  import opened QuotedSplitter
  import opened AltSvc
  import opened AltSvcLaws
  import opened AltSvcPrinter

  predicate SpellsClear(w: string) {
    && |w| == 5 && w[0] in {'c', 'C'} && w[1] in {'l', 'L'} && w[2] in {'e', 'E'}
    && w[3] in {'a', 'A'} && w[4] in {'r', 'R'}
  }

  /** A field clears exactly when it is `clear`, in any letter case, between white space. */
  lemma ClearExactly(raw: string, now: nat, originPort: nat)
    ensures FieldValue(raw, now, originPort).Clear? <==>
            exists l, w, r :: raw == l + w + r && Only(l, SPACES) && Only(r, SPACES) && SpellsClear(w)
  {
    Selection(raw, now, originPort, AltSvcEntry(None, 0, 0));
    SpellingsOfClear(Trim(raw));
    var a, b := StripDecomposes(raw, SPACES);
    if SpellsClear(Trim(raw)) {
      assert raw == a + Trim(raw) + b;
    }
    forall l, w, r | raw == l + w + r && Only(l, SPACES) && Only(r, SPACES) && SpellsClear(w)
      ensures Trim(raw) == w
    {
      assert !IsSpace(w[0]) && !IsSpace(w[4]);
      StripPadded(l, w, r, SPACES);
    }
  }

  // ---- Authorities ----

  predicate Brackets(s: string) {
    forall i | 0 <= i < |s| :: s[i] in {'[', ']'}
  }

  /** `":port"`. */
  predicate HostlessText(raw: string, port: nat, digits: string) {
    raw == ['"', ':'] + digits + ['"'] && ParseUnsigned(digits, 65535) == Some(port)
  }

  /** `"host:port"`, the host perhaps in brackets, split at the last colon; a port that does not
      decode stands for the origin's. */
  predicate HostText(raw: string, originPort: nat, host: string, port: nat, l: string, r: string, digits: string) {
    && raw == ['"'] + (l + host + r) + [':'] + digits + ['"']
    && ':' !in digits && host != "" && (l + host + r)[0] != ':'
    && Brackets(l) && Brackets(r) && !Brackets(host[..1]) && !Brackets(host[|host| - 1..])
    && port == match ParseUnsigned(digits, 65535) case Some(n) => n case None => originPort
  }

  lemma HostlessExactly(raw: string, originPort: nat, port: nat)
    ensures ParseAuthority(raw, originPort) == Some((None, port)) <==> exists digits :: HostlessText(raw, port, digits)
  {
    if ParseAuthority(raw, originPort) == Some((None, port)) {
      var inside := raw[1..|raw| - 1];
      assert raw == ['"', ':'] + inside[1..] + ['"'];
      assert HostlessText(raw, port, inside[1..]);
    }
    forall digits | HostlessText(raw, port, digits)
      ensures ParseAuthority(raw, originPort) == Some((None, port))
    {
      assert raw == "\"" + ([':'] + digits) + "\"";
      HostlessForm(digits, originPort);
    }
  }

  lemma HostShape(raw: string, originPort: nat, host: string, port: nat) returns (h: string, digits: string)
    requires ParseAuthority(raw, originPort) == Some((Some(host), port))
    ensures raw == ['"'] + (h + [':'] + digits) + ['"'] && ':' !in digits
    ensures host == Strip(h, BRACKETS) && host != "" && h != "" && h[0] != ':'
    ensures port == match ParseUnsigned(digits, 65535) case Some(n) => n case None => originPort
  {
    var inside := raw[1..|raw| - 1];
    RSplitOnceSplits(inside, ':');
    h, digits := RSplitOnce(inside, ':').value.0, RSplitOnce(inside, ':').value.1;
    assert raw == ['"'] + inside + ['"'];
    assert inside[0] == (h + [':'] + digits)[0];
  }

  lemma HostAccepted(raw: string, originPort: nat, host: string, port: nat) returns (l: string, r: string, digits: string)
    requires ParseAuthority(raw, originPort) == Some((Some(host), port))
    ensures HostText(raw, originPort, host, port, l, r, digits)
  {
    var h, p := HostShape(raw, originPort, host, port);
    l, r := HostBrackets(h, host);
    digits := p;
    assert raw == ['"'] + (l + host + r) + [':'] + digits + ['"'];
  }

  lemma HostBrackets(h: string, host: string) returns (l: string, r: string)
    requires host == Strip(h, BRACKETS) && host != ""
    ensures h == l + host + r && Brackets(l) && Brackets(r)
    ensures !Brackets(host[..1]) && !Brackets(host[|host| - 1..])
  {
    l, r := StripDecomposes(h, BRACKETS);
    BracketsAre(l);
    BracketsAre(r);
    BracketsAre(host[..1]);
    BracketsAre(host[|host| - 1..]);
    assert host[..1][0] == host[0] && host[|host| - 1..][0] == host[|host| - 1];
  }

  lemma BracketsAre(s: string)
    ensures Brackets(s) <==> Only(s, BRACKETS)
  {
  }

  lemma HostRead(raw: string, originPort: nat, host: string, port: nat, l: string, r: string, digits: string)
    requires HostText(raw, originPort, host, port, l, r, digits)
    ensures ParseAuthority(raw, originPort) == Some((Some(host), port))
  {
    var h := l + host + r;
    var inside := h + [':'] + digits;
    assert raw == ['"'] + inside + ['"'] && raw[1..|raw| - 1] == inside;
    assert inside[0] == h[0];
    RSplitOnceAtLast(h, ':', digits);
    BracketsAre(l);
    BracketsAre(r);
    assert host[..1] == [host[0]] && host[|host| - 1..] == [host[|host| - 1]];
    assert !BRACKETS.Has(host[0]) && !BRACKETS.Has(host[|host| - 1]) by {
      BracketsAre(host[..1]);
      BracketsAre(host[|host| - 1..]);
    }
    StripPadded(l, host, r, BRACKETS);
  }

  /** What is read as an authority, and as which. */
  lemma AuthorityExactly(raw: string, originPort: nat, host: string, port: nat)
    ensures ParseAuthority(raw, originPort) == Some((None, port)) <==> exists digits :: HostlessText(raw, port, digits)
    ensures ParseAuthority(raw, originPort) == Some((Some(host), port)) <==>
            exists l, r, digits :: HostText(raw, originPort, host, port, l, r, digits)
  {
    HostlessExactly(raw, originPort, port);
    if ParseAuthority(raw, originPort) == Some((Some(host), port)) {
      var l, r, digits := HostAccepted(raw, originPort, host, port);
    }
    forall l, r, digits | HostText(raw, originPort, host, port, l, r, digits)
      ensures ParseAuthority(raw, originPort) == Some((Some(host), port))
    {
      HostRead(raw, originPort, host, port, l, r, digits);
    }
  }

  // ---- Parameters and alternatives ----

  predicate AgeText(param: string, name: string, value: string, seconds: nat) {
    && param == name + ['='] + value && '=' !in name && Trim(name) in {"ma", "mA", "Ma", "MA"}
    && ParseUnsigned(Strip(Trim(value), QUOTE), 0xFFFF_FFFF_FFFF_FFFF) == Some(seconds)
  }

  /** What is read as an age, and as which: `ma` in any letter case, with spaces around and quotes
      about the number as may be. */
  lemma MaxAgeExactly(param: string, seconds: nat)
    ensures MaxAgeOf(param) == Some(seconds) <==> exists name, value :: AgeText(param, name, value, seconds)
  {
    forall name, value | AgeText(param, name, value, seconds)
      ensures MaxAgeOf(param) == Some(seconds)
    {
      SpellingsOfMa(Trim(name));
      MaxAgeOfSplit(name, value);
    }
    if MaxAgeOf(param) == Some(seconds) {
      EqualsSurvivesTrim(param);
      SplitOnceSplits(param, '=');
      var (name, value) := SplitOnce(param, '=').value;
      SpellingsOfMa(Trim(name));
      MaxAgeOfSplit(name, value);
      assert AgeText(param, name, value, seconds);
    }
  }

  lemma EqualsSurvivesTrim(s: string)
    ensures '=' in Trim(s) ==> '=' in s
    ensures MaxAgeOf(s).Some? ==> '=' in s
  {
    var l, r := StripDecomposes(s, SPACES);
    SplitOnceSplits(Trim(s), '=');
  }

  predicate H3Text(raw: string, protocol: string, rest: string, originPort: nat, e: AltSvcEntry, now: nat) {
    && raw == protocol + ['='] + rest && '=' !in protocol && Trim(protocol) == "h3"
    && var parts := Segments(rest, ';', 0, 0);
       && parts != []
       && ParseAuthority(Trim(parts[0]), originPort) == Some((e.host, e.port))
       && e.expiresAt == now + 1000 * MaxAge(parts[1..], 86400)
  }

  lemma H3TextIsRead(raw: string, protocol: string, rest: string, originPort: nat, e: AltSvcEntry, now: nat)
    requires raw == protocol + ['='] + rest && '=' !in protocol
    ensures AlternativeValue(raw, now, originPort) == Entry(e) <==> H3Text(raw, protocol, rest, originPort, e, now)
  {
    SplitOnceAtFirst(protocol, '=', rest);
    PiecesAreGlobalSegments(rest, ';');
    PartsAreRead(Pieces(rest, ';'), now, originPort, e);
  }

  lemma PartsAreRead(parts: seq<string>, now: nat, originPort: nat, e: AltSvcEntry)
    requires parts != []
    ensures PartsValue(parts, now, originPort) == Entry(e) <==>
            && ParseAuthority(Trim(parts[0]), originPort) == Some((e.host, e.port))
            && e.expiresAt == now + 1000 * MaxAge(parts[1..], 86400)
  {
  }

  /** What is read as an h3 alternative, and as which. */
  lemma AlternativeExactly(raw: string, now: nat, originPort: nat, e: AltSvcEntry)
    ensures AlternativeValue(raw, now, originPort) == Entry(e) <==>
            exists protocol, rest :: H3Text(raw, protocol, rest, originPort, e, now)
  {
    SplitOnceSplits(raw, '=');
    if AlternativeValue(raw, now, originPort) == Entry(e) {
      var (protocol, rest) := SplitOnce(raw, '=').value;
      H3TextIsRead(raw, protocol, rest, originPort, e, now);
    }
    forall protocol, rest | H3Text(raw, protocol, rest, originPort, e, now)
      ensures AlternativeValue(raw, now, originPort) == Entry(e)
    {
      H3TextIsRead(raw, protocol, rest, originPort, e, now);
    }
  }

  // ---- Ordinary fields ----

  const NO_PAD := Pad("", "", "", "")

  /** The form in which servers send it: `h3=":port"; ma=seconds`. */
  function UsualField(port: nat, seconds: nat): string {
    "h3=" + ("\":" + PrintNat(port) + "\"" + ("; ma=" + PrintNat(seconds)))
  }

  lemma UsualAuthority(port: nat)
    ensures Authority.Authority(None, false, port).Print() == "\":" + PrintNat(port) + "\""
  {
    assert "" + [':'] + PrintNat(port) == [':'] + PrintNat(port);
  }

  function UsualParameter(seconds: nat): Parameter {
    MaxAgeParameter("ma", seconds, false, Pad(" ", "", "", ""))
  }

  lemma UsualAge(seconds: nat)
    ensures UsualParameter(seconds).Print() == " ma=" + PrintNat(seconds)
  {
    assert " " + "ma" + "" + ['='] == " ma=";
    assert "" + PrintNat(seconds) + "" == PrintNat(seconds);
  }

  lemma UsualPrint(port: nat, seconds: nat)
    ensures PrintField([H3(Authority.Authority(None, false, port), [UsualParameter(seconds)], NO_PAD)]) == UsualField(port, seconds)
  {
    var a := H3(Authority.Authority(None, false, port), [UsualParameter(seconds)], NO_PAD);
    var authority, age := "\":" + PrintNat(port) + "\"", " ma=" + PrintNat(seconds);
    UsualAuthority(port);
    UsualAge(seconds);
    assert "" + authority + "" == authority;
    assert a.Parts() == [authority, age];
    JoinOfTwo(authority, age, ';');
    assert [';'] + age == "; ma=" + PrintNat(seconds);
    assert "" + "h3" + "" + ['='] == "h3=";
    assert a.Print() == UsualField(port, seconds);
  }

  lemma JoinOfTwo(a: string, b: string, sep: char)
    ensures Join([a, b], sep) == a + ([sep] + b)
  {
    assert [a, b][1..] == [b];
  }

  lemma UsualFieldIsRead(port: nat, seconds: nat, now: nat, originPort: nat)
    requires port <= 65535 && seconds <= 0xFFFF_FFFF_FFFF_FFFF
    ensures FieldValue(UsualField(port, seconds), now, originPort) == Entry(AltSvcEntry(None, port, now + 1000 * seconds))
  {
    UsualPrint(port, seconds);
    ParseUndoesPrint([H3(Authority.Authority(None, false, port), [UsualParameter(seconds)], NO_PAD)], now, originPort);
  }

  lemma OrdinaryField(now: nat, originPort: nat)
    ensures FieldValue("h3=\":8443\"; ma=60", now, originPort) == Entry(AltSvcEntry(None, 8443, now + 60_000))
  {
    PrintedNumbers();
    assert UsualField(8443, 60) == "h3=\":8443\"; ma=60";
    UsualFieldIsRead(8443, 60, now, originPort);
  }

  /** A day when no age is given. */
  lemma DefaultAge(authority: Authority, now: nat, originPort: nat)
    requires authority.Valid()
    ensures FieldValue("h3=" + authority.Print(), now, originPort) ==
            Entry(AltSvcEntry(authority.host, authority.port, now + 86_400_000))
  {
    var a := H3(authority, [], NO_PAD);
    var text := authority.Print();
    assert "" + text + "" == text && a.Parts() == [text];
    assert "" + "h3" + "" + ['='] == "h3=";
    assert a.Print() == "h3=" + text;
    ParseUndoesPrint([a], now, originPort);
  }

  /** A protocol that only starts like h3 is another one. */
  lemma DraftField(now: nat, originPort: nat)
    ensures FieldValue("h3-29=\":443\"; ma=60", now, originPort) == NoAlternative
  {
    var rest := "\":443\"; ma=60";
    assert !IsSpace('h') && !IsSpace('9');
    StripPadded("", "h3-29", "", SPACES);
    assert "" + "h3-29" + "" == "h3-29";
    assert "h3-29=\":443\"; ma=60" == "h3-29" + ['='] + rest;
    ForeignPiece("h3-29", rest, now, originPort);
  }

  lemma PrintedNumbers()
    ensures PrintNat(8443) == "8443" && PrintNat(60) == "60"
  {
    assert PrintNat(8) == "8" && PrintNat(6) == "6";
    assert PrintNat(84) == "84";
    assert PrintNat(844) == "844";
  }
}
