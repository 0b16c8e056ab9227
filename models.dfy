/** The registrar's Domain and Record value objects, read from JSON objects
    through the tolerant accessors (src/name.hxx:9-37, src/name.cxx:95-143).

    The C++ member initialisers run in declaration order, so when several
    fields are malformed the error reported is that of the first one in
    declaration order; `nameservers` is filled last, in the constructor body. */
module Models {
  import opened Errors
  import opened Json

  datatype Domain = Domain(
    domainName: string,
    nameservers: seq<string>,
    privacyEnabled: bool,
    locked: bool,
    autorenewEnabled: bool,
    expireDate: string,
    createDate: string,
    renewalPrice: real)

  /** A DNS record. `id`, `domainName` and `fqdn` are const members in the
      source; this model never changes them (see the Reconcile module). */
  datatype Record = Record(
    id: Int32,
    domainName: string,
    host: string,
    fqdn: string,
    recordType: string,
    answer: string,
    ttl: UInt32,
    priority: UInt32)

  // ---------------------------------------------------------------------
  // Domain
  // ---------------------------------------------------------------------

  /** The `nameservers` member: an array of strings when the key is present. */
  function NameserversOf(o: JObject): Result<seq<string>>
  {
    if "nameservers" in o then
      var items :- AsArray(o["nameservers"]);
      ParseAll(items, AsString)
    else Ok([])
  }

  /** What `Domain(const boost::json::object&)` constructs, or the error it throws. */
  function DomainOf(o: JObject): (r: Result<Domain>)
    ensures r.Ok? && "nameservers" !in o ==> r.value.nameservers == []
    ensures r.Ok? && "privacyEnabled" !in o ==> !r.value.privacyEnabled
    ensures r.Ok? && "locked" !in o ==> !r.value.locked
    ensures r.Ok? && "autorenewEnabled" !in o ==> !r.value.autorenewEnabled
  {
    var domainName :- GetString(o, "domainName");
    var privacyEnabled :- GetBool(o, "privacyEnabled");
    var locked :- GetBool(o, "locked");
    var autorenewEnabled :- GetBool(o, "autorenewEnabled");
    var expireDate :- GetString(o, "expireDate");
    var createDate :- GetString(o, "createDate");
    var renewalPrice :- GetDouble(o, "renewalPrice");
    var nameservers :- NameserversOf(o);
    Ok(Domain(domainName, nameservers, privacyEnabled, locked, autorenewEnabled,
              expireDate, createDate, renewalPrice))
  }

  /** A JSON array element that should be a domain object. */
  function DomainValue(v: JVal): Result<Domain>
  {
    var o :- AsObject(v);
    DomainOf(o)
  }

  /** The Domain constructor, with its push_back loop over the nameservers. */
  method ParseDomain(o: JObject) returns (r: Result<Domain>)
    ensures r == DomainOf(o)
  {
    var domainName :- GetString(o, "domainName");
    var privacyEnabled :- GetBool(o, "privacyEnabled");
    var locked :- GetBool(o, "locked");
    var autorenewEnabled :- GetBool(o, "autorenewEnabled");
    var expireDate :- GetString(o, "expireDate");
    var createDate :- GetString(o, "createDate");
    var renewalPrice :- GetDouble(o, "renewalPrice");
    var nameservers: seq<string> := [];
    if "nameservers" in o {
      var items :- AsArray(o["nameservers"]);
      var i := 0;
      assert items[i..] == items;
      PrependNothing(ParseAll(items, AsString));
      while i < |items|
        invariant 0 <= i <= |items|
        invariant ParseAll(items, AsString) == Prepend(nameservers, ParseAll(items[i..], AsString))
      {
        assert items[i..][1..] == items[i + 1..];
        var name :- AsString(items[i]);
        PrependAssoc(nameservers, [name], ParseAll(items[i + 1..], AsString));
        nameservers := nameservers + [name];
        i := i + 1;
      }
      assert items[i..] == [];
      assert nameservers + [] == nameservers;
    }
    return Ok(Domain(domainName, nameservers, privacyEnabled, locked, autorenewEnabled,
                     expireDate, createDate, renewalPrice));
  }

  /** A constructed Domain's nameservers are empty when the key is absent, and
      otherwise are the strings of the JSON array, in the same order. */
  lemma DomainNameservers(o: JObject, d: Domain)
    requires DomainOf(o) == Ok(d)
    ensures "nameservers" !in o ==> d.nameservers == []
    ensures "nameservers" in o ==>
              o["nameservers"].JArr? && |d.nameservers| == |o["nameservers"].items| &&
              forall i :: 0 <= i < |d.nameservers| ==> o["nameservers"].items[i] == JStr(d.nameservers[i])
  {
    if "nameservers" in o {
      var items := o["nameservers"].items;
      assert NameserversOf(o) == Ok(d.nameservers);
      ParseAllOk(items, AsString, d.nameservers);
      forall i | 0 <= i < |d.nameservers| ensures items[i] == JStr(d.nameservers[i]) {
        assert AsString(items[i]) == Ok(d.nameservers[i]);
      }
    }
  }

  /** The shape of a JSON object that the Domain constructor accepts: each
      string key absent or a string, each flag absent or a boolean,
      renewalPrice absent or a double, and nameservers absent or an array of
      strings. Other keys are ignored. */
  predicate DomainShaped(o: JObject)
  {
    ("domainName" in o ==> o["domainName"].JStr?) &&
    ("expireDate" in o ==> o["expireDate"].JStr?) &&
    ("createDate" in o ==> o["createDate"].JStr?) &&
    ("privacyEnabled" in o ==> o["privacyEnabled"].JBool?) &&
    ("locked" in o ==> o["locked"].JBool?) &&
    ("autorenewEnabled" in o ==> o["autorenewEnabled"].JBool?) &&
    ("renewalPrice" in o ==> o["renewalPrice"].JReal?) &&
    ("nameservers" in o ==>
       o["nameservers"].JArr? &&
       forall i :: 0 <= i < |o["nameservers"].items| ==> o["nameservers"].items[i].JStr?)
  }

  /** The Domain constructor fails exactly on objects that are not
      domain-shaped: missing fields never cause a failure. */
  lemma DomainOfSucceeds(o: JObject)
    ensures DomainOf(o).Ok? <==> DomainShaped(o)
  {
    if "nameservers" in o && o["nameservers"].JArr? {
      ParseAllSucceeds(o["nameservers"].items, AsString);
    }
  }

  /** Each field of a constructed Domain holds the value stored under its key,
      or the field's default when the key is absent. */
  lemma DomainFields(o: JObject, d: Domain)
    requires DomainOf(o) == Ok(d)
    ensures d.domainName == (if "domainName" in o then o["domainName"].s else "")
    ensures d.expireDate == (if "expireDate" in o then o["expireDate"].s else "")
    ensures d.createDate == (if "createDate" in o then o["createDate"].s else "")
    ensures d.privacyEnabled == ("privacyEnabled" in o && o["privacyEnabled"].b)
    ensures d.locked == ("locked" in o && o["locked"].b)
    ensures d.autorenewEnabled == ("autorenewEnabled" in o && o["autorenewEnabled"].b)
    ensures d.renewalPrice == (if "renewalPrice" in o then o["renewalPrice"].r else 0.0)
  {
    assert GetString(o, "domainName") == Ok(d.domainName);
    assert GetBool(o, "privacyEnabled") == Ok(d.privacyEnabled);
    assert GetBool(o, "locked") == Ok(d.locked);
    assert GetBool(o, "autorenewEnabled") == Ok(d.autorenewEnabled);
    assert GetString(o, "expireDate") == Ok(d.expireDate);
    assert GetString(o, "createDate") == Ok(d.createDate);
    assert GetDouble(o, "renewalPrice") == Ok(d.renewalPrice);
  }

  // ---------------------------------------------------------------------
  // Record
  // ---------------------------------------------------------------------

  /** The eight keys a Record is read from and written back to. */
  const RecordKeys: set<string> :=
    {"id", "domainName", "host", "fqdn", "type", "answer", "ttl", "priority"}

  /** What `Record(const boost::json::object&)` constructs, or the error it throws. */
  function RecordOf(o: JObject): (r: Result<Record>)
    ensures r.Ok? && "id" !in o ==> r.value.id == 0
    ensures r.Ok? && "ttl" !in o ==> r.value.ttl == 0
    ensures r.Ok? && "priority" !in o ==> r.value.priority == 0
    ensures r.Ok? && "answer" !in o ==> r.value.answer == ""
  {
    var id :- GetInt32(o, "id");
    var domainName :- GetString(o, "domainName");
    var host :- GetString(o, "host");
    var fqdn :- GetString(o, "fqdn");
    var recordType :- GetString(o, "type");
    var answer :- GetString(o, "answer");
    var ttl :- GetUInt32(o, "ttl");
    var priority :- GetUInt32(o, "priority");
    Ok(Record(id, domainName, host, fqdn, recordType, answer, ttl, priority))
  }

  /** A JSON array element that should be a record object. */
  function RecordValue(v: JVal): Result<Record>
  {
    var o :- AsObject(v);
    RecordOf(o)
  }

  /** Record::toJson: the update payload. */
  function ToJson(rec: Record): (o: JObject)
    ensures o.Keys == RecordKeys
  {
    map[
      "id" := JInt(rec.id),
      "domainName" := JStr(rec.domainName),
      "host" := JStr(rec.host),
      "fqdn" := JStr(rec.fqdn),
      "type" := JStr(rec.recordType),
      "answer" := JStr(rec.answer),
      "ttl" := JInt(rec.ttl),
      "priority" := JInt(rec.priority)
    ]
  }

  /** Reading back the payload that toJson writes gives the same record. */
  lemma RecordRoundTrip(rec: Record)
    ensures RecordOf(ToJson(rec)) == Ok(rec)
  {
    var o := ToJson(rec);
    assert GetInt32(o, "id") == Ok(rec.id);
    assert GetUInt32(o, "ttl") == Ok(rec.ttl);
    assert GetUInt32(o, "priority") == Ok(rec.priority);
  }

  /** The value a Record-key holds by default (the registrar omits it then). */
  function DefaultFor(key: string): JVal
  {
    if key in {"id", "ttl", "priority"} then JInt(0) else JStr("")
  }

  /** Conversely, toJson writes back under each of the eight keys exactly what
      the constructor read there, or the default for a key that was absent. */
  lemma RecordWriteBack(o: JObject, rec: Record)
    requires RecordOf(o) == Ok(rec)
    ensures forall k :: k in RecordKeys ==>
              ToJson(rec)[k] == (if k in o then o[k] else DefaultFor(k))
  {
    var j := ToJson(rec);
    forall k | k in RecordKeys ensures j[k] == (if k in o then o[k] else DefaultFor(k)) {
      if k == "id" {
        assert GetInt32(o, "id") == Ok(rec.id);
      } else if k == "ttl" {
        assert GetUInt32(o, "ttl") == Ok(rec.ttl);
      } else if k == "priority" {
        assert GetUInt32(o, "priority") == Ok(rec.priority);
      } else {
        assert GetString(o, k) == Ok(j[k].s);
      }
    }
  }

  /** The shape of a JSON object that the Record constructor accepts: each of the
      integer keys is absent or an integer of the field's width, each string key
      absent or a string. Other keys are ignored. */
  predicate RecordShaped(o: JObject)
  {
    ("id" in o ==> o["id"].JInt? && InInt32(o["id"].i)) &&
    ("ttl" in o ==> o["ttl"].JInt? && InUInt32(o["ttl"].i)) &&
    ("priority" in o ==> o["priority"].JInt? && InUInt32(o["priority"].i)) &&
    (forall k :: k in {"domainName", "host", "fqdn", "type", "answer"} && k in o ==> o[k].JStr?)
  }

  /** The constructor fails exactly on objects that are not record-shaped:
      missing fields never cause a failure. */
  lemma RecordOfSucceeds(o: JObject)
    ensures RecordOf(o).Ok? <==> RecordShaped(o)
  {
    if RecordShaped(o) {
      assert "domainName" in o ==> o["domainName"].JStr?;
      assert "host" in o ==> o["host"].JStr?;
      assert "fqdn" in o ==> o["fqdn"].JStr?;
      assert "type" in o ==> o["type"].JStr?;
      assert "answer" in o ==> o["answer"].JStr?;
    }
  }
}
