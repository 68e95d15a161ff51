/** HTTPS resource records (src/https_rr.rs): what one answer contributes to the cache. */
module HttpsRr {
  import opened Wrappers

  type Address = string

  /** A record as the resolver hands it over, its address hints already in order. */
  datatype HttpsRecord = HttpsRecord(port: Option<nat>, alpns: seq<string>, hints: seq<Address>, expiresAt: nat)

  datatype HttpsRrEntry = HttpsRrEntry(port: nat, addresses: seq<Address>, hasH3: bool, expiresAt: nat)

  predicate Fresh(entry: HttpsRrEntry, now: nat) {
    entry.expiresAt > now
  }

  function ParseRecord(record: HttpsRecord, originPort: nat): HttpsRrEntry {
    HttpsRrEntry(if record.port.Some? then record.port.value else originPort,
                 record.hints, "h3" in record.alpns, record.expiresAt)
  }

  /** The earliest record that advertises h3. */
  function FirstH3(records: seq<HttpsRecord>): Option<HttpsRecord> {
    if records == [] then None
    else if "h3" in records[0].alpns then Some(records[0])
    else FirstH3(records[1..])
  }

  /** The entry an answer stands for: the earliest h3 record, else the first record. */
  function Choose(records: seq<HttpsRecord>, originPort: nat): (entry: Option<HttpsRrEntry>)
    ensures entry.None? <==> records == []
    ensures entry.Some? ==> (entry.value.hasH3 <==> exists r :: r in records && "h3" in r.alpns)
  {
    if records == [] then None
    else
      FirstH3IsFirst(records);
      match FirstH3(records)
      case Some(record) => Some(ParseRecord(record, originPort))
      case None => Some(ParseRecord(records[0], originPort))
  }

  lemma {:induction false} FirstH3IsFirst(records: seq<HttpsRecord>)
    ensures FirstH3(records).None? <==> forall r :: r in records ==> "h3" !in r.alpns
    ensures FirstH3(records).Some? ==>
              exists k :: 0 <= k < |records| && records[k] == FirstH3(records).value && "h3" in records[k].alpns
                          && forall j | 0 <= j < k :: "h3" !in records[j].alpns
  {
    if records != [] && "h3" !in records[0].alpns {
      var rest := records[1..];
      FirstH3IsFirst(rest);
      if FirstH3(rest).Some? {
        var k :| 0 <= k < |rest| && rest[k] == FirstH3(rest).value && "h3" in rest[k].alpns
                 && forall j | 0 <= j < k :: "h3" !in rest[j].alpns;
        assert records[k + 1] == rest[k];
        assert forall j | 0 < j < k + 1 :: records[j] == rest[j - 1];
      }
      assert forall r :: r in records <==> r == records[0] || r in rest;
    }
  }

  /** Record `k` is the earliest that advertises h3, or the very first if none does. */
  predicate Preferred(records: seq<HttpsRecord>, k: nat) {
    && k < |records|
    && if "h3" in records[k].alpns then forall j | 0 <= j < k :: "h3" !in records[j].alpns
       else k == 0 && forall j | 0 <= j < |records| :: "h3" !in records[j].alpns
  }

  /** The entry is what that record says, field by field. */
  predicate Conveys(record: HttpsRecord, originPort: nat, entry: HttpsRrEntry) {
    && (record.port.Some? ==> entry.port == record.port.value)
    && (record.port.None? ==> entry.port == originPort)
    && entry.addresses == record.hints
    && entry.hasH3 == ("h3" in record.alpns)
    && entry.expiresAt == record.expiresAt
  }

  /** The choice, by position: none for an empty answer, else what the preferred record says. */
  lemma ChoiceExactly(records: seq<HttpsRecord>, originPort: nat)
    ensures Choose(records, originPort).None? <==> records == []
    ensures forall k: nat | Preferred(records, k) ::
              Choose(records, originPort).Some? && Conveys(records[k], originPort, Choose(records, originPort).value)
    ensures records != [] ==> exists k: nat :: Preferred(records, k)
  {
    FirstH3IsFirst(records);
    if FirstH3(records).None? {
      assert forall j | 0 <= j < |records| :: records[j] in records;
      assert records != [] ==> Preferred(records, 0);
    } else {
      var k :| 0 <= k < |records| && records[k] == FirstH3(records).value && "h3" in records[k].alpns
               && forall j | 0 <= j < k :: "h3" !in records[j].alpns;
      assert Preferred(records, k);
    }
  }

  /** The selection loop of `lookup`. */
  method Select(records: seq<HttpsRecord>, originPort: nat) returns (best: Option<HttpsRrEntry>)
    ensures best == Choose(records, originPort)
    ensures best.None? <==> records == []
    ensures forall k: nat | Preferred(records, k) :: best.Some? && Conveys(records[k], originPort, best.value)
    ensures records != [] ==> exists k: nat :: Preferred(records, k)
  {
    ChoiceExactly(records, originPort);
    best := None;
    for i := 0 to |records|
      invariant FirstH3(records) == FirstH3(records[i..])
      invariant best == if i == 0 then None else Some(ParseRecord(records[0], originPort))
    {
      var parsed := ParseRecord(records[i], originPort);
      assert records[i..][1..] == records[i + 1..];
      if parsed.hasH3 {
        return Some(parsed);
      }
      if best.None? {
        best := Some(parsed);
      }
    }
  }
}
