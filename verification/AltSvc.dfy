/** Alt-Svc field values (src/alt_svc.rs): the h3 subset of section 3 of RFC 7838, with the
    `ma` parameter of section 3.1. Instants and durations are whole milliseconds. */
module AltSvc {
  import opened Wrappers
  import opened Text
  import opened QuotedSplitter

  const U16_MAX: nat := 0xFFFF
  const U64_MAX: nat := 0xFFFF_FFFF_FFFF_FFFF
  const DEFAULT_MAX_AGE: nat := 24 * 60 * 60

  datatype AltSvcEntry = AltSvcEntry(host: Option<string>, port: nat, expiresAt: nat)

  datatype AltSvcUpdate = Clear | Entry(entry: AltSvcEntry) | NoAlternative

  /** A header value is readable as text or it is not. */
  datatype HeaderValue = Readable(text: string) | Unreadable

  predicate Fresh(entry: AltSvcEntry, now: nat) {
    entry.expiresAt > now
  }

  predicate IsClear(raw: string) {
    SameIgnoringCase(Trim(raw), "clear")
  }

  function ParseAuthority(raw: string, originPort: nat): Option<(Option<string>, nat)> {
    if |raw| < 2 || raw[0] != '"' || raw[|raw| - 1] != '"' then None
    else
      var authority := raw[1..|raw| - 1];
      if authority != "" && authority[0] == ':' then
        match ParseUnsigned(authority[1..], U16_MAX)
        case None => None
        case Some(port) => Some((None, port))
      else
        match RSplitOnce(authority, ':')
        case None => None
        case Some((h, p)) =>
          var host := Strip(h, BRACKETS);
          if host == "" then None
          else Some((Some(host), match ParseUnsigned(p, U16_MAX) case Some(port) => port case None => originPort))
  }

  /** The `ma` value one parameter carries, if it is a readable `ma` parameter. */
  function MaxAgeOf(param: string): Option<nat> {
    match SplitOnce(Trim(param), '=')
    case None => None
    case Some((name, value)) =>
      if SameIgnoringCase(Trim(name), "ma") then ParseUnsigned(Strip(Trim(value), QUOTE), U64_MAX) else None
  }

  /** Every readable `ma` replaces the age read before it. */
  function MaxAge(params: seq<string>, age: nat): nat {
    if params == [] then age
    else MaxAge(params[1..], match MaxAgeOf(params[0]) case Some(seconds) => seconds case None => age)
  }

  /** What one alternative of the list stands for. */
  function AlternativeValue(raw: string, now: nat, originPort: nat): AltSvcUpdate {
    match SplitOnce(raw, '=')
    case None => NoAlternative
    case Some((protocol, rest)) =>
      if Trim(protocol) != "h3" then NoAlternative else PartsValue(Pieces(rest, ';'), now, originPort)
  }

  /** An h3 alternative, cut into its authority and parameters. */
  function PartsValue(parts: seq<string>, now: nat, originPort: nat): AltSvcUpdate
    requires parts != []
  {
    match ParseAuthority(Trim(parts[0]), originPort)
    case None => NoAlternative
    case Some((host, port)) => Entry(AltSvcEntry(host, port, now + 1000 * MaxAge(parts[1..], DEFAULT_MAX_AGE)))
  }

  function FirstValue(pieces: seq<string>, now: nat, originPort: nat): AltSvcUpdate {
    if pieces == [] then NoAlternative
    else
      var v := AlternativeValue(Trim(pieces[0]), now, originPort);
      if v.NoAlternative? then FirstValue(pieces[1..], now, originPort) else v
  }

  /** What a whole field value stands for. */
  function FieldValue(raw: string, now: nat, originPort: nat): AltSvcUpdate {
    if IsClear(raw) then Clear else FirstValue(Pieces(raw, ','), now, originPort)
  }

  function HeaderUpdate(value: HeaderValue, now: nat, originPort: nat): AltSvcUpdate {
    match value
    case Unreadable => NoAlternative
    case Readable(text) => FieldValue(text, now, originPort)
  }

  // ---- The parser as written ----

  /** The loop of `parse_alternative` over the parameters still to come. */
  method ReadMaxAge(parts: SplitQuoted) returns (maxAge: nat)
    requires parts.Valid()
    modifies parts
    ensures maxAge == MaxAge(old(parts.Remaining()), DEFAULT_MAX_AGE)
  {
    ghost var all := parts.Remaining();
    maxAge := DEFAULT_MAX_AGE;
    var part := parts.Next();
    while part.Some?
      invariant parts.Valid()
      invariant part.None? ==> parts.Remaining() == []
      invariant MaxAge(all, DEFAULT_MAX_AGE) ==
                MaxAge((if part.Some? then [part.value] else []) + parts.Remaining(), maxAge)
      decreases |parts.Remaining()|, part.Some?
    {
      ghost var rest := parts.Remaining();
      assert ([part.value] + rest)[1..] == rest;
      var seconds := MaxAgeOf(part.value);
      if seconds.Some? {
        maxAge := seconds.value;
      }
      part := parts.Next();
    }
  }

  method ParseAlternative(raw: string, now: nat, originPort: nat) returns (update: AltSvcUpdate)
    ensures update == AlternativeValue(raw, now, originPort)
  {
    var eq := SplitOnce(raw, '=');
    if eq.None? || Trim(eq.value.0) != "h3" {
      return NoAlternative;
    }
    var parts := new SplitQuoted(eq.value.1, ';');
    update := ParseParts(parts, now, originPort);
  }

  /** The rest of `parse_alternative`: the authority first, then the parameters. */
  method ParseParts(parts: SplitQuoted, now: nat, originPort: nat) returns (update: AltSvcUpdate)
    requires parts.Valid() && parts.Remaining() != []
    modifies parts
    ensures update == PartsValue(old(parts.Remaining()), now, originPort)
  {
    var first := parts.Next();
    assert parts.Remaining() == old(parts.Remaining())[1..];
    var authority := ParseAuthority(Trim(first.value), originPort);
    if authority.None? {
      return NoAlternative;
    }
    var maxAge := ReadMaxAge(parts);
    return Entry(AltSvcEntry(authority.value.0, authority.value.1, now + 1000 * maxAge));
  }

  method ParseStr(raw: string, now: nat, originPort: nat) returns (update: AltSvcUpdate)
    ensures update == FieldValue(raw, now, originPort)
  {
    if SameIgnoringCase(Trim(raw), "clear") {
      return Clear;
    }
    var alternatives := new SplitQuoted(raw, ',');
    var alternative := alternatives.Next();
    while alternative.Some?
      invariant alternatives.Valid()
      invariant alternative.None? ==> alternatives.Remaining() == []
      invariant FieldValue(raw, now, originPort) ==
                FirstValue((if alternative.Some? then [alternative.value] else []) + alternatives.Remaining(),
                           now, originPort)
      decreases |alternatives.Remaining()|, alternative.Some?
    {
      var candidate := ParseAlternative(Trim(alternative.value), now, originPort);
      ghost var rest := alternatives.Remaining();
      assert ([alternative.value] + rest)[1..] == rest;
      if !candidate.NoAlternative? {
        return candidate;
      }
      alternative := alternatives.Next();
    }
    return NoAlternative;
  }

  method ParseHeader(value: HeaderValue, now: nat, originPort: nat) returns (update: AltSvcUpdate)
    ensures update == HeaderUpdate(value, now, originPort)
  {
    if value.Unreadable? {
      return NoAlternative;
    }
    update := ParseStr(value.text, now, originPort);
  }
}
