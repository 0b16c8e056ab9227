/** The name.com API client (src/name.hxx:39-67, src/name.cxx:145-274).

    HTTP is not modelled: the server is a function from the request the
    client would send to the response it gets back (status code, transport
    error message, parsed JSON body). */
module Api {
  import opened Errors
  import opened Json
  import opened Models
  import opened Paging

  /** The two API hosts; the sandbox one is chosen by the `test` flag. */
  function BaseUrl(test: bool): (url: string)
    ensures url == "https://api.dev.name.com" <==> test
    ensures url == "https://api.name.com" <==> !test
  {
    if test then "https://api.dev.name.com" else "https://api.name.com"
  }

  /** The three endpoints the client uses, under /v4. */
  datatype Endpoint =
    | DomainsPath                                  // /v4/domains
    | RecordsPath(domainName: string)              // /v4/domains/{domainName}/records
    | RecordPath(domainName: string, id: Int32)    // /v4/domains/{domainName}/records/{id}

  /** A request as sent: host, endpoint, query or body, and basic-auth credentials. */
  datatype Request =
    | Get(host: string, endpoint: Endpoint, perPage: Int32, page: Int32, username: string, password: string)
    | Put(host: string, endpoint: Endpoint, body: JObject, username: string, password: string)

  /** The transport's answer: status 0 means no connection could be made. */
  datatype Response = Response(status: int, errorMessage: string, body: JVal)

  type Server = Request -> Response

  /** The page size every list request asks for. */
  const PerPage: Int32 := 1000

  /** The status rule shared by the paged fetches and updateRecord. */
  function StatusError(resp: Response): (e: Option<Error>)
    ensures e.None? <==> resp.status != 0 && resp.status < 400
    ensures resp.status == 0 ==> e == Some(TransportError(resp.errorMessage))
    ensures resp.status >= 400 ==> e == Some(HttpStatusError(resp.status))
  {
    if resp.status == 0 then Some(TransportError(resp.errorMessage))
    else if resp.status >= 400 then Some(HttpStatusError(resp.status))
    else None
  }

  /** One page of a list response: the cursors and the items stored under
      `key`; a missing `key` gives an empty page. */
  function PageOf<T>(resp: Response, key: string, parse: JVal -> Result<T>): (r: Result<Page<T>>)
  {
    match StatusError(resp)
    case Some(e) => Err(e)
    case None =>
      var o :- AsObject(resp.body);
      var nextPage :- GetInt32(o, "nextPage");
      var lastPage :- GetInt32(o, "lastPage");
      if key in o then
        var items :- AsArray(o[key]);
        var data :- ParseAll(items, parse);
        Ok(Page(data, nextPage, lastPage))
      else
        Ok(Page([], nextPage, lastPage))
  }

  /** A failing status is reported as such, before the body is looked at. */
  lemma PageOfStatus<T>(resp: Response, key: string, parse: JVal -> Result<T>)
    ensures StatusError(resp).Some? ==> PageOf(resp, key, parse) == Err(StatusError(resp).value)
    ensures PageOf(resp, key, parse).Ok? ==> 0 < resp.status < 400 || resp.status < 0
  {
  }

  /** A successful response without the list key is an empty page whose
      cursors default to 0 when absent: a default-constructed PagedResponse. */
  lemma PageOfMissingKey<T>(resp: Response, key: string, parse: JVal -> Result<T>)
    requires StatusError(resp).None? && resp.body.JObj?
    requires key !in resp.body.fields
    ensures PageOf(resp, key, parse).Ok? ==> PageOf(resp, key, parse).value.data == []
    ensures "nextPage" !in resp.body.fields && "lastPage" !in resp.body.fields ==>
              PageOf(resp, key, parse) == Ok(Page([], 0, 0))
    ensures GetInt32(resp.body.fields, "nextPage").Ok? && GetInt32(resp.body.fields, "lastPage").Ok? ==>
              PageOf(resp, key, parse) ==
              Ok(Page([], GetInt32(resp.body.fields, "nextPage").value, GetInt32(resp.body.fields, "lastPage").value))
  {
  }

  /** A page is produced exactly when the status is not a failure, the body is
      an object whose cursors (absent or) fit in 32 bits, and the list key is
      absent or holds an array whose every item converts. */
  lemma PageOfSucceeds<T>(resp: Response, key: string, parse: JVal -> Result<T>)
    ensures PageOf(resp, key, parse).Ok? <==>
      StatusError(resp).None? && resp.body.JObj? &&
      GetInt32(resp.body.fields, "nextPage").Ok? && GetInt32(resp.body.fields, "lastPage").Ok? &&
      (key in resp.body.fields ==>
         resp.body.fields[key].JArr? &&
         forall i :: 0 <= i < |resp.body.fields[key].items| ==> parse(resp.body.fields[key].items[i]).Ok?)
  {
    if resp.body.JObj? && key in resp.body.fields && resp.body.fields[key].JArr? {
      ParseAllSucceeds(resp.body.fields[key].items, parse);
    }
  }

  /** A successful page holds one converted item per element of the array
      under `key`, in order, and the cursors the response carries. */
  lemma PageOfItems<T>(resp: Response, key: string, parse: JVal -> Result<T>)
    requires PageOf(resp, key, parse).Ok?
    ensures resp.body.JObj?
    ensures var o := resp.body.fields; var page := PageOf(resp, key, parse).value;
      GetInt32(o, "nextPage") == Ok(page.nextPage) &&
      GetInt32(o, "lastPage") == Ok(page.lastPage) &&
      (key in o ==>
         o[key].JArr? && |page.data| == |o[key].items| &&
         forall i :: 0 <= i < |page.data| ==> parse(o[key].items[i]) == Ok(page.data[i]))
  {
    var o := resp.body.fields;
    if key in o {
      ParseAllOk(o[key].items, parse, PageOf(resp, key, parse).value.data);
    }
  }

  /** A single-page fetch never reports a repeated page: its errors come from
      the status, the body's kinds and ranges, or the items. */
  lemma PageOfNeverRepeats<T>(resp: Response, key: string, parse: JVal -> Result<T>)
    requires forall v :: parse(v).Err? ==> !parse(v).error.ProtocolError?
    ensures PageOf(resp, key, parse).Err? ==> !PageOf(resp, key, parse).error.ProtocolError?
  {
    if StatusError(resp).None? && resp.body.JObj? {
      var o := resp.body.fields;
      if key in o && o[key].JArr? && ParseAll(o[key].items, parse).Err? {
        ParseAllErrorOfItem(o[key].items, parse);
      }
    }
  }

  /** Converting a domain object never reports a repeated page. */
  lemma DomainValueNeverRepeats(v: JVal)
    ensures DomainValue(v).Err? ==> !DomainValue(v).error.ProtocolError?
  {
    if v.JObj? {
      var o := v.fields;
      if "nameservers" in o && o["nameservers"].JArr? && ParseAll(o["nameservers"].items, AsString).Err? {
        ParseAllErrorOfItem(o["nameservers"].items, AsString);
      }
    }
  }

  /** NameComApi. Its configuration is const: every operation leaves it as
      constructed. */
  class NameComApi {
    const apiDomain: string
    const username: string
    const apiKey: string

    constructor (test: bool, username: string, apiKey: string)
      ensures apiDomain == BaseUrl(test)
      ensures this.username == username && this.apiKey == apiKey
    {
      apiDomain := BaseUrl(test);
      this.username := username;
      this.apiKey := apiKey;
    }

    // -------------------------------------------------------------------
    // Domains
    // -------------------------------------------------------------------

    function DomainsRequest(perPage: Int32, page: Int32): Request
    {
      Get(apiDomain, DomainsPath, perPage, page, username, apiKey)
    }

    /** What listDomains(perPage, page) returns for this server. */
    function DomainsPage(server: Server, perPage: Int32, page: Int32): Result<Page<Domain>>
    {
      PageOf(server(DomainsRequest(perPage, page)), "domains", DomainValue)
    }

    function DomainsFetch(server: Server): Fetch<Domain>
    {
      (page: Int32) => DomainsPage(server, PerPage, page)
    }

    /** No domain page fetch fails with a repeated-page error, so the guard of
        the aggregation fires only on a cursor cycle (Paging.GuardFiresOnlyOnCycle). */
    lemma DomainsFetchNeverRepeats(server: Server)
      ensures forall page: Int32 :: DomainsFetch(server)(page).Err? ==>
                !DomainsFetch(server)(page).error.ProtocolError?
    {
      forall v ensures DomainValue(v).Err? ==> !DomainValue(v).error.ProtocolError? {
        DomainValueNeverRepeats(v);
      }
      forall page: Int32 ensures DomainsFetch(server)(page).Err? ==> !DomainsFetch(server)(page).error.ProtocolError? {
        PageOfNeverRepeats(server(DomainsRequest(PerPage, page)), "domains", DomainValue);
      }
    }

    /** listDomains(perPage, page): one GET, then the domains of that page. */
    method ListDomainsPage(server: Server, perPage: Int32, page: Int32) returns (r: Result<Page<Domain>>)
      ensures r == DomainsPage(server, perPage, page)
    {
      var resp := server(DomainsRequest(perPage, page));
      if resp.status == 0 {
        return Err(TransportError(resp.errorMessage));
      } else if resp.status >= 400 {
        return Err(HttpStatusError(resp.status));
      }
      var responseData :- AsObject(resp.body);
      var nextPage :- GetInt32(responseData, "nextPage");
      var lastPage :- GetInt32(responseData, "lastPage");
      var data: seq<Domain> := [];
      if "domains" in responseData {
        var domains :- AsArray(responseData["domains"]);
        var i := 0;
        assert domains[i..] == domains;
        PrependNothing(ParseAll(domains, DomainValue));
        while i < |domains|
          invariant 0 <= i <= |domains|
          invariant ParseAll(domains, DomainValue) == Prepend(data, ParseAll(domains[i..], DomainValue))
        {
          assert domains[i..][1..] == domains[i + 1..];
          var domainObject :- AsObject(domains[i]);
          var domain :- ParseDomain(domainObject);
          PrependAssoc(data, [domain], ParseAll(domains[i + 1..], DomainValue));
          data := data + [domain];
          i := i + 1;
        }
        assert domains[i..] == [];
        assert data + [] == data;
      }
      return Ok(Page(data, nextPage, lastPage));
    }

    /** listDomains(): every domain of the account, page by page. */
    method ListDomains(server: Server) returns (r: Result<seq<Domain>>, ghost requested: seq<Int32>)
      ensures r == Aggregate(DomainsFetch(server), 0, {})
      ensures requested == Requested(DomainsFetch(server), 0, {})
    {
      var result: seq<Domain> := [];
      var lastPage: Int32 := 0;
      var nextPage: Int32 := 0;
      var curPageIndex: Int32 := -1;
      var visited: set<Int32> := {};
      requested := [];
      PrependNothing(Aggregate(DomainsFetch(server), 0, {}));
      assert [] + Requested(DomainsFetch(server), 0, {}) == Requested(DomainsFetch(server), 0, {});
      while curPageIndex != lastPage
        invariant |visited| <= PageIndexCount
        invariant curPageIndex != lastPage ==>
          Aggregate(DomainsFetch(server), 0, {}) == Prepend(result, Aggregate(DomainsFetch(server), nextPage, visited)) &&
          Requested(DomainsFetch(server), 0, {}) == requested + Requested(DomainsFetch(server), nextPage, visited)
        invariant curPageIndex == lastPage ==>
          Aggregate(DomainsFetch(server), 0, {}) == Ok(result) && Requested(DomainsFetch(server), 0, {}) == requested
        decreases PageIndexCount - |visited|
      {
        if nextPage in visited {
          WalkRepeat(DomainsFetch(server), nextPage, visited, result, requested);
          return Err(ProtocolError(nextPage)), requested;
        }
        VisitedBound(visited, nextPage);
        curPageIndex := nextPage;
        var curPage := ListDomainsPage(server, PerPage, nextPage);
        if curPage.Err? {
          WalkFails(DomainsFetch(server), curPageIndex, visited, result, requested);
          return Err(curPage.error), requested + [curPageIndex];
        }
        if curPageIndex == curPage.value.lastPage {
          WalkLast(DomainsFetch(server), curPageIndex, visited, result, requested);
        } else {
          WalkStep(DomainsFetch(server), curPageIndex, visited, result, requested);
        }
        lastPage := curPage.value.lastPage;
        nextPage := curPage.value.nextPage;
        result := result + curPage.value.data;
        requested := requested + [curPageIndex];
        visited := visited + {curPageIndex};
      }
      return Ok(result), requested;
    }

    // -------------------------------------------------------------------
    // Records
    // -------------------------------------------------------------------

    function RecordsRequest(domainName: string, perPage: Int32, page: Int32): Request
    {
      Get(apiDomain, RecordsPath(domainName), perPage, page, username, apiKey)
    }

    /** What listRecords(domainName, perPage, page) returns for this server. */
    function RecordsPage(server: Server, domainName: string, perPage: Int32, page: Int32): Result<Page<Record>>
    {
      PageOf(server(RecordsRequest(domainName, perPage, page)), "records", RecordValue)
    }

    function RecordsFetch(server: Server, domainName: string): Fetch<Record>
    {
      (page: Int32) => RecordsPage(server, domainName, PerPage, page)
    }

    /** No record page fetch fails with a repeated-page error. */
    lemma RecordsFetchNeverRepeats(server: Server, domainName: string)
      ensures forall page: Int32 :: RecordsFetch(server, domainName)(page).Err? ==>
                !RecordsFetch(server, domainName)(page).error.ProtocolError?
    {
      forall page: Int32
        ensures RecordsFetch(server, domainName)(page).Err? ==> !RecordsFetch(server, domainName)(page).error.ProtocolError?
      {
        PageOfNeverRepeats(server(RecordsRequest(domainName, PerPage, page)), "records", RecordValue);
      }
    }

    /** listRecords(domainName, perPage, page): one GET, then the records of that page. */
    method ListRecordsPage(server: Server, domainName: string, perPage: Int32, page: Int32)
      returns (r: Result<Page<Record>>)
      ensures r == RecordsPage(server, domainName, perPage, page)
    {
      var resp := server(RecordsRequest(domainName, perPage, page));
      if resp.status == 0 {
        return Err(TransportError(resp.errorMessage));
      } else if resp.status >= 400 {
        return Err(HttpStatusError(resp.status));
      }
      var responseData :- AsObject(resp.body);
      var nextPage :- GetInt32(responseData, "nextPage");
      var lastPage :- GetInt32(responseData, "lastPage");
      var data: seq<Record> := [];
      if "records" in responseData {
        var records :- AsArray(responseData["records"]);
        var i := 0;
        assert records[i..] == records;
        PrependNothing(ParseAll(records, RecordValue));
        while i < |records|
          invariant 0 <= i <= |records|
          invariant ParseAll(records, RecordValue) == Prepend(data, ParseAll(records[i..], RecordValue))
        {
          assert records[i..][1..] == records[i + 1..];
          var recordObject :- AsObject(records[i]);
          var record :- RecordOf(recordObject);
          PrependAssoc(data, [record], ParseAll(records[i + 1..], RecordValue));
          data := data + [record];
          i := i + 1;
        }
        assert records[i..] == [];
        assert data + [] == data;
      }
      return Ok(Page(data, nextPage, lastPage));
    }

    /** listRecords(domainName): every record of the domain, page by page. */
    method ListRecords(server: Server, domainName: string) returns (r: Result<seq<Record>>, ghost requested: seq<Int32>)
      ensures r == Aggregate(RecordsFetch(server, domainName), 0, {})
      ensures requested == Requested(RecordsFetch(server, domainName), 0, {})
    {
      var result: seq<Record> := [];
      var lastPage: Int32 := 0;
      var nextPage: Int32 := 0;
      var curPageIndex: Int32 := -1;
      var visited: set<Int32> := {};
      requested := [];
      PrependNothing(Aggregate(RecordsFetch(server, domainName), 0, {}));
      assert [] + Requested(RecordsFetch(server, domainName), 0, {}) == Requested(RecordsFetch(server, domainName), 0, {});
      while curPageIndex != lastPage
        invariant |visited| <= PageIndexCount
        invariant curPageIndex != lastPage ==>
          Aggregate(RecordsFetch(server, domainName), 0, {}) == Prepend(result, Aggregate(RecordsFetch(server, domainName), nextPage, visited)) &&
          Requested(RecordsFetch(server, domainName), 0, {}) == requested + Requested(RecordsFetch(server, domainName), nextPage, visited)
        invariant curPageIndex == lastPage ==>
          Aggregate(RecordsFetch(server, domainName), 0, {}) == Ok(result) && Requested(RecordsFetch(server, domainName), 0, {}) == requested
        decreases PageIndexCount - |visited|
      {
        if nextPage in visited {
          WalkRepeat(RecordsFetch(server, domainName), nextPage, visited, result, requested);
          return Err(ProtocolError(nextPage)), requested;
        }
        VisitedBound(visited, nextPage);
        curPageIndex := nextPage;
        var curPage := ListRecordsPage(server, domainName, PerPage, nextPage);
        if curPage.Err? {
          WalkFails(RecordsFetch(server, domainName), curPageIndex, visited, result, requested);
          return Err(curPage.error), requested + [curPageIndex];
        }
        if curPageIndex == curPage.value.lastPage {
          WalkLast(RecordsFetch(server, domainName), curPageIndex, visited, result, requested);
        } else {
          WalkStep(RecordsFetch(server, domainName), curPageIndex, visited, result, requested);
        }
        lastPage := curPage.value.lastPage;
        nextPage := curPage.value.nextPage;
        result := result + curPage.value.data;
        requested := requested + [curPageIndex];
        visited := visited + {curPageIndex};
      }
      return Ok(result), requested;
    }

    // -------------------------------------------------------------------
    // Update
    // -------------------------------------------------------------------

    /** The PUT that updateRecord sends: the record's own endpoint, keyed by
        its domain name and id, with toJson as the body. */
    function UpdateRequest(record: Record): (req: Request)
      ensures req.Put? && req.endpoint == RecordPath(record.domainName, record.id)
      ensures RecordOf(req.body) == Ok(record)
    {
      RecordRoundTrip(record);
      Put(apiDomain, RecordPath(record.domainName, record.id), ToJson(record), username, apiKey)
    }

    /** updateRecord: one PUT; fails under the same status rule as the reads. */
    method UpdateRecord(server: Server, record: Record) returns (e: Option<Error>)
      ensures e == StatusError(server(UpdateRequest(record)))
    {
      var r := server(UpdateRequest(record));
      if r.status == 0 {
        return Some(TransportError(r.errorMessage));
      } else if r.status >= 400 {
        return Some(HttpStatusError(r.status));
      }
      return None;
    }
  }
}
