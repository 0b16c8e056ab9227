# dyname, modelled in Dafny

dyname is a small dynamic-DNS updater for the name.com registrar. It lists
every domain of an account and every DNS record of each domain, page by
page. For each record whose TTL equals a configured sentinel and whose type
is "A" or "AAAA", it compares the stored answer with the machine's current
address. When they differ, it overwrites the answer and PUTs the record back.

This project models that core and proves its properties:

- `errors.dfy` (module `Errors`): the ways a run can fail, plus the `Option`
  and `Result` wrappers. Each kind of failure is one `Error` constructor:
  - a JSON value of the wrong kind;
  - an integer out of range for its field;
  - a transport failure;
  - an HTTP status of 400 or more;
  - a stored answer that is not an address;
  - a page cursor that leads back to a page already fetched.
- `json.dfy` (module `Json`): parsed JSON values and the tolerant field
  accessors `getInt64`, `getInt32`, `getUInt32`, `getBool`, `getString` and
  `getDouble`. An absent key reads as its default. A present key of the
  wrong kind is an error, and so is an integer that does not fit the field.
  `ParseAll` is the element-by-element conversion of a JSON array.
- `models.dfy` (module `Models`): the `Domain` and `Record` values, their
  constructors from a JSON object, and `Record::toJson`.
  - The fields are read in the C++ member-initialiser order, so when several
    fields are malformed, the error reported is the first field's.
  - `ParseDomain` is the constructor, including its loop over the
    nameservers.
- `paging.dfy` (module `Paging`): the cursor-driven aggregation shared by
  `listDomains()` and `listRecords(domain)`, as the function `Aggregate`.
  Its soundness, completeness and failure lemmas describe exactly which
  pages are fetched and what is returned.
- `api.dfy` (module `Api`): the `NameComApi` class.
  - Its configuration is `const`.
  - The single-page fetches are loops that convert each array element.
  - The aggregating `ListDomains`/`ListRecords` are the C++ `while` loops.
    They are proved equal to `Aggregate`, and the pages they request are
    proved equal to those of the walk (`Requested`).
  - `UpdateRecord` is one PUT of `toJson`.
  - The server is a function from the request the client sends to the
    response it gets back.
- `reconcile.dfy` (module `Reconcile`): the reconciliation in `main`.
  - `Decide` is the per-record decision.
  - `ReconcileRecords` is the inner loop. It overwrites records in place
    and calls `UpdateRecord`.
  - `RunReconciliation` is the outer loop over domains.
  - Both loops are proved equal to the functions `ProcessRecords` and
    `ReconcileAll`.
  - The lemmas state which records are sent and in what order, that only
    answers change, at most one update per record, abort on a malformed
    answer, and idempotence.
  - `PassStopsAtError` and `RunStopsAtError` state where an error stops a
    pass and a run, and that nothing after that point is looked at or sent.
  - The trace of records sent is ghost in both loops: `main` keeps no such
    list, it is there only to state what went to the server.

The address normalisers (`make_address_v4/v6(...).to_string()`) are
parameters of the model (`Env.normalizeIPv4`, `Env.normalizeIPv6`). They
are partial functions that give `None` where the C++ parser throws. The
current addresses and the TTL sentinel are parameters too.

## Model

| member | source | states |
|---|---|---|
| Json.AsInt64 | src/name.cxx:23 | succeeds exactly on an integer in the signed 64-bit range, returning it; any other kind is a kind error |
| Json.AsBool | src/name.cxx:77 | succeeds exactly on a boolean, returning it; any other kind is a kind error |
| Json.AsString | src/name.cxx:91 | succeeds exactly on a string, returning it; any other kind is a kind error |
| Json.AsDouble | src/name.cxx:63 | succeeds exactly on a floating-point value, returning it; any other kind is a kind error |
| Json.AsArray | src/name.cxx:108 | succeeds exactly on an array, returning its items; any other kind is a kind error |
| Json.AsObject | src/name.cxx:181 | succeeds exactly on an object, returning its fields; any other kind is a kind error |
| Json.GetInt64 | src/name.cxx:13-25 | 0 when the key is absent, otherwise the kind-checked 64-bit value stored there; a success always lies in the int64 range |
| Json.GetInt32 | src/name.cxx:27-38 | succeeds iff the 64-bit read succeeds and the value lies in [-2^31, 2^31-1], returning it unchanged; an out-of-range value is a range error naming that value; a kind error passes through |
| Json.GetUInt32 | src/name.cxx:40-51 | succeeds iff the 64-bit read succeeds and the value lies in [0, 2^32-1], returning it unchanged; negative values are range errors, not wrapped |
| Json.GetDouble | src/name.cxx:53-65 | 0.0 when the key is absent, otherwise the kind-checked stored value |
| Json.GetBool | src/name.cxx:67-79 | false when the key is absent, otherwise the kind-checked stored boolean |
| Json.GetString | src/name.cxx:81-93 | "" when the key is absent, otherwise the kind-checked stored string |
| Json.ParseAllOk | src/name.cxx:112-115 | converting an array succeeds with a result exactly when every item converts, and then the result holds the converted items one for one, in order |
| Json.ParseAllFirstError | src/name.cxx:196-199 | when some item fails to convert, the whole conversion fails with the error of the first failing item |
| Json.ParseAllSucceeds | src/name.cxx:196-199 | converting an array succeeds exactly when every item converts |
| Json.ParseAllErrorOfItem | src/name.cxx:196-199 | a failed conversion fails with the error of one of the items, never an error of its own |
| Models.DomainOf | src/name.cxx:95-117 | a constructed Domain has no nameservers and all three flags false when those keys are absent |
| Models.ParseDomain | src/name.cxx:95-117 | the constructor with its push_back loop over the nameservers returns exactly the domain, or the first error, that DomainOf specifies |
| Models.DomainNameservers | src/name.cxx:104-116 | nameservers are empty when the key is absent, otherwise the array's strings, same length, same order |
| Models.DomainOfSucceeds | src/name.cxx:95-117 | the Domain constructor succeeds iff each present string key holds a string, each flag a boolean, renewalPrice a double and nameservers an array of strings; absent keys never fail |
| Models.DomainFields | src/name.cxx:95-102 | each field of a constructed Domain holds the value stored under its key, or "", false or 0.0 when the key is absent |
| Models.RecordOf | src/name.cxx:119-129 | a constructed Record has id, ttl and priority 0 and an empty answer when those keys are absent |
| Models.RecordOfSucceeds | src/name.cxx:119-129 | the Record constructor succeeds iff each present integer key holds an integer of the field's width and each present string key holds a string; absent keys never fail |
| Models.ToJson | src/name.cxx:131-143 | toJson emits exactly the eight keys id, domainName, host, fqdn, type, answer, ttl and priority |
| Models.RecordRoundTrip | src/name.cxx:119-143 | reading back the object toJson writes gives a field-for-field equal record |
| Models.RecordWriteBack | src/name.cxx:131-143 | for a record read from an object, toJson writes under each of the eight keys what was read there, or the field's default where the key was absent |
| Paging.AggregateSound | src/name.cxx:145-168 | a successful aggregation fetched a walk of distinct pages that starts at page 0, each later page the previous nextPage, stopping at the first page equal to its own lastPage; the result is their data concatenated in fetch order |
| Paging.AggregateComplete | src/name.cxx:145-168 | for every such walk of distinct pages, the aggregation fetches exactly those pages, at least one, and returns their data concatenated in order |
| Paging.AggregateFailure | src/name.cxx:153-165 | a failed aggregation stopped either on the error of its last fetch, after a chain of successful fetches that followed the cursors, or on a cursor leading back to a page already fetched |
| Paging.GuardFiresOnlyOnCycle | src/name.cxx:153-158 | from page 0, the repeated-page error arises only when no fetched page was its own lastPage and the cursor returned to a fetched page: the case in which the C++ loop never ends |
| Api.BaseUrl | src/name.hxx:55-56 | the base URL is https://api.dev.name.com exactly when test is set, and https://api.name.com exactly when it is not |
| Api.NameComApi.constructor | src/name.hxx:55-60 | the client keeps the base URL chosen by the test flag and the username and API key verbatim, all immutable |
| Api.StatusError | src/name.cxx:176-179 | no error exactly when the status is neither 0 nor 400 or above; 0 is a transport error with the transport's message, 400 or above an HTTP error with the code |
| Api.PageOfStatus | src/name.cxx:176-181 | a failing status is reported before the body is looked at; a page is only produced for a non-failing status |
| Api.PageOfMissingKey | src/name.hxx:42-44 | a successful response without the list key gives an empty page: with cursors that fit in 32 bits it is exactly the page with no data and those cursors, and with no cursor keys either it is the default page (no data, both cursors 0) |
| Api.PageOfSucceeds | src/name.cxx:176-202 | a page is produced exactly when the status is not a failure, the body is an object whose cursors are absent or fit in 32 bits, and the list key is absent or holds an array every item of which converts |
| Api.PageOfItems | src/name.cxx:181-200 | a successful page carries the response's cursors and one converted item per array element, in order |
| Api.PageOfNeverRepeats | src/name.cxx:176-200 | a single-page fetch fails only with a status, kind, range or item error, never with a repeated-page error, when its item conversion never does |
| Api.DomainValueNeverRepeats | src/name.cxx:95-117 | converting a domain object never fails with a repeated-page error |
| Api.NameComApi.DomainsFetchNeverRepeats | src/name.cxx:170-203 | no domain page fetch fails with a repeated-page error, so the aggregation's guard fires only on a cursor cycle |
| Api.NameComApi.RecordsFetchNeverRepeats | src/name.cxx:231-262 | no record page fetch fails with a repeated-page error, so the aggregation's guard fires only on a cursor cycle |
| Api.NameComApi.ListDomainsPage | src/name.cxx:170-203 | the single-page GET with its element loop returns exactly the page, or the first error, that the response specifies |
| Api.NameComApi.ListDomains | src/name.cxx:145-168 | the while loop over the cursors returns exactly the aggregation of the domain pages from page 0, and the pages it requests, in order, are exactly those of that walk: page 0 first, each later one the previous nextPage |
| Api.NameComApi.ListRecordsPage | src/name.cxx:231-262 | the single-page GET with its element loop returns exactly the page, or the first error, that the response specifies |
| Api.NameComApi.ListRecords | src/name.cxx:205-228 | the while loop over the cursors returns exactly the aggregation of the domain's record pages from page 0, and the pages it requests, in order, are exactly those of that walk |
| Api.NameComApi.UpdateRequest | src/name.cxx:264-268 | the PUT goes to the record's own endpoint, keyed by its domain name and id, and its body reads back as the same record |
| Api.NameComApi.UpdateRecord | src/name.cxx:264-274 | the PUT fails exactly under the shared status rule for the server's answer to that request |
| Reconcile.Decide | main.cxx:61-90 | records off the TTL sentinel or of another type get no update; an A/AAAA record is an error iff its answer does not normalise; it is updated iff the normalised answer differs from the current address of its family, and only its answer changes, to that address |
| Reconcile.ReconcileRecords | main.cxx:57-91 | the in-place loop over one domain's records ends with the records, the updates sent and the error exactly as ProcessRecords specifies |
| Reconcile.RunReconciliation | main.cxx:49-95 | the loop over the listed domains sends exactly the updates, and stops on exactly the error, that ReconcileAll specifies |
| Reconcile.UpdatesAreSelected | main.cxx:61-85 | every record a pass sends is a selected A or AAAA record whose normalised answer differed from the current address, changed only in its answer, to that address |
| Reconcile.UpdatesAppend | main.cxx:57 | updates are issued in record order: the updates of a concatenation are the concatenation of the updates |
| Reconcile.UpdatesAtMostOnce | main.cxx:57-91 | no more updates than records |
| Reconcile.PassComplete | main.cxx:57-91 | a pass without error sent exactly the planned updates, every answer parsed, every record stands as its decision says, and every PUT succeeded |
| Reconcile.PassSentPrefix | main.cxx:57-91 | whatever happens, what a pass sent is the updates of a prefix of the records, and the whole list when no error occurred |
| Reconcile.MalformedAborts | main.cxx:63-80 | a selected A/AAAA record whose answer does not parse makes the pass end in error rather than being skipped (where it stops is stated by PassStopsAtError) |
| Reconcile.PassStopsAtError | main.cxx:57-91 | a pass that ends in error stops at a record k: every record before k got past its decision and its PUT and stands as its decision says; record k is the first that did not; the records after k are untouched and not sent; the error is record k's malformed answer, with nothing of it sent, or the status error of its PUT, with it sent |
| Reconcile.PassOnlyChangesAnswers | main.cxx:71-84 | a pass keeps the records' number and order and changes nothing but answers; unselected or non-address records are untouched |
| Reconcile.ApplySettles | main.cxx:65-80 | with canonical current addresses, a record as a pass leaves it calls for no further update |
| Reconcile.PassIdempotent | main.cxx:65-84 | with canonical current addresses, a second pass over the records a successful pass leaves sends nothing, changes nothing and fails nowhere |
| Reconcile.SettledPassIsQuiet | main.cxx:57-91 | a pass over records none of which calls for an update sends nothing and changes nothing |
| Reconcile.RunSendsOnlySelected | main.cxx:51-92 | every record a run sends, even one that later aborts, is a selected A or AAAA record carrying the current address of its family |
| Reconcile.RunCompleteOrder | main.cxx:51-92 | a run that completes sent exactly the planned updates, domain by domain in listing order and record order within each |
| Reconcile.RunSentPrefix | main.cxx:49-95 | whatever happens, what a run sent is a prefix of the planned updates, and nothing sent is undone (where it stops is stated by RunStopsAtError) |
| Reconcile.RunStopsAtError | main.cxx:49-95 | a run over the listed domains that ends in error stops at a domain j: every domain before j completed, domain j failed, and the run is exactly the planned updates of the domains before j followed by domain j's own failed run; later domains add nothing |

## Left out

- HTTP through cpr is not modelled. The server is a function from requests to
  responses (status, transport message, parsed body). Query-string and URL
  text are not built; requests carry the host, endpoint and parameters as
  data.
- JSON text parsing and serialisation (boost::json::parse and serialize) are
  not modelled; the model works on parsed values.
- src/address.cxx (the two GETs to ident.me) is not part of this model. The
  current addresses are parameters.
- The address library (make_address_v4/v6 and to_string) is not modelled. The
  normalisers are parameters, and idempotence assumes that each maps its own
  current address to itself (`Reconcile.Canonical`).
- The YAML configuration file (main.cxx:27-36) and all console output are not
  modelled.
- The server is stateless: an update sent by a run is not seen by the run's
  later GETs.
- Api.NameComApi.ListDomains: the C++ loop has no guard against a cursor that
  never reaches lastPage and then runs forever. The model stops with a
  ProtocolError on the first repeated page index, which is also what makes it
  terminate. The same holds for Api.NameComApi.ListRecords.
- Models.DomainOf: renewalPrice is a real, not an IEEE double. It is only ever
  copied.
- Models.ToJson: the object is modelled as it reads after serialisation.
  In memory the C++ stores ttl and priority as unsigned JSON integers. Read
  back directly, without serialising, they would fail as_int64. The source
  never does that; it always serialises the object for the PUT.
- Record's const members (id, domainName, fqdn) are not a type-level property
  here, because a Dafny datatype has no per-field constness.
  Reconcile.PassOnlyChangesAnswers proves that the reconciliation changes
  only answers.
