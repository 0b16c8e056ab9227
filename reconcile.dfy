/** The reconciliation pass of main.cxx:51-92: for every domain, for every
    record whose TTL equals the configured sentinel, compare the normalised
    stored answer with the current address of the record's family and, when
    they differ, overwrite the answer and send the record back.

    The address normalisers (make_address_v4/v6 followed by to_string) are
    parameters: partial functions that give None where the C++ parser throws. */
module Reconcile {
  import opened Errors
  import opened Json
  import opened Models
  import opened Paging
  import opened Api

  /** The inputs of a pass: the current addresses, the TTL sentinel, and the
      normalisers of stored answers. */
  datatype Env = Env(
    ipv4: string,
    ipv6: string,
    ttlToUpdate: UInt32,
    normalizeIPv4: string -> Option<string>,
    normalizeIPv6: string -> Option<string>)

  predicate IsAddressType(recordType: string)
  {
    recordType == "A" || recordType == "AAAA"
  }

  /** The current address of the family of an "A" or "AAAA" record. */
  function Current(env: Env, recordType: string): string
  {
    if recordType == "A" then env.ipv4 else env.ipv6
  }

  /** The normaliser of the family of an "A" or "AAAA" record. */
  function Normalize(env: Env, recordType: string, answer: string): Option<string>
  {
    if recordType == "A" then env.normalizeIPv4(answer) else env.normalizeIPv6(answer)
  }

  /** The record is one this pass looks at: its TTL is the sentinel. */
  predicate Selected(env: Env, rec: Record)
  {
    rec.ttl == env.ttlToUpdate
  }

  /** The decision for one listed record: no update, an update carrying the
      record to send, or the error of an answer that does not parse. */
  function Decide(env: Env, rec: Record): (r: Result<Option<Record>>)
    ensures !Selected(env, rec) || !IsAddressType(rec.recordType) ==> r == Ok(None)
    ensures r.Err? <==>
              Selected(env, rec) && IsAddressType(rec.recordType) &&
              Normalize(env, rec.recordType, rec.answer).None?
    ensures r.Err? ==> r.error == MalformedAnswer(rec.answer)
    ensures (r.Ok? && r.value.Some?) <==>
              Selected(env, rec) && IsAddressType(rec.recordType) &&
              Normalize(env, rec.recordType, rec.answer).Some? &&
              Normalize(env, rec.recordType, rec.answer).value != Current(env, rec.recordType)
    ensures r.Ok? && r.value.Some? ==> r.value.value == rec.(answer := Current(env, rec.recordType))
  {
    if rec.ttl != env.ttlToUpdate then Ok(None)
    else if rec.recordType == "A" then
      match env.normalizeIPv4(rec.answer)
      case None => Err(MalformedAnswer(rec.answer))
      case Some(currentAddress) =>
        if currentAddress != env.ipv4 then Ok(Some(rec.(answer := env.ipv4))) else Ok(None)
    else if rec.recordType == "AAAA" then
      match env.normalizeIPv6(rec.answer)
      case None => Err(MalformedAnswer(rec.answer))
      case Some(currentAddress) =>
        if currentAddress != env.ipv6 then Ok(Some(rec.(answer := env.ipv6))) else Ok(None)
    else Ok(None)
  }

  /** The record as it stands after its decision. */
  function Apply(env: Env, rec: Record): Record
  {
    match Decide(env, rec)
    case Ok(Some(updated)) => updated
    case _ => rec
  }

  /** The records a pass over `recs` sends, in order, one at most per record. */
  function Updates(env: Env, recs: seq<Record>): seq<Record>
  {
    if recs == [] then []
    else
      Sends(env, recs[0]) + Updates(env, recs[1..])
  }

  /** The update one record calls for: none, or the record to send. */
  function Sends(env: Env, rec: Record): seq<Record>
  {
    match Decide(env, rec)
    case Ok(Some(updated)) => [updated]
    case _ => []
  }

  // ---------------------------------------------------------------------
  // One domain's records
  // ---------------------------------------------------------------------

  /** The state after the loop over one domain's records: the records (some
      answers overwritten), the records sent to updateRecord, and the error
      that ended the pass early, if any. */
  datatype Pass = Pass(records: seq<Record>, sent: seq<Record>, error: Option<Error>)

  /** The pass `p` with records already processed and records already sent
      put in front of its own. */
  function PrefixPass(records: seq<Record>, sent: seq<Record>, p: Pass): Pass
  {
    Pass(records + p.records, sent + p.sent, p.error)
  }

  /** The loop over one domain's records, against a server. */
  function ProcessRecords(api: NameComApi, server: Server, env: Env, recs: seq<Record>): Pass
  {
    if recs == [] then Pass([], [], None)
    else
      match Decide(env, recs[0])
      case Err(e) => Pass(recs, [], Some(e))
      case Ok(None) => PrefixPass([recs[0]], [], ProcessRecords(api, server, env, recs[1..]))
      case Ok(Some(updated)) =>
        match StatusError(server(api.UpdateRequest(updated)))
        case Some(e) => Pass([updated] + recs[1..], [updated], Some(e))
        case None => PrefixPass([updated], [updated], ProcessRecords(api, server, env, recs[1..]))
  }

  /** Loop step: record i needs no update. */
  lemma StepKeep(api: NameComApi, server: Server, env: Env, listed: seq<Record>, i: nat,
                 processed: seq<Record>, sent: seq<Record>)
    requires |processed| == i < |listed| && Decide(env, listed[i]) == Ok(None)
    ensures processed + listed[i..] == (processed + [listed[i]]) + listed[i + 1..]
    ensures PrefixPass(processed, sent, ProcessRecords(api, server, env, listed[i..])) ==
            PrefixPass(processed + [listed[i]], sent, ProcessRecords(api, server, env, listed[i + 1..]))
  {
    var tail := listed[i..];
    assert tail == [listed[i]] + listed[i + 1..] && tail[0] == listed[i] && tail[1..] == listed[i + 1..];
    var rest := ProcessRecords(api, server, env, listed[i + 1..]);
    assert ProcessRecords(api, server, env, tail) == PrefixPass([listed[i]], [], rest);
    assert processed + ([listed[i]] + rest.records) == (processed + [listed[i]]) + rest.records;
    assert sent + ([] + rest.sent) == sent + rest.sent;
  }

  /** Loop step: record i is overwritten with `u` and the PUT succeeds. */
  lemma StepUpdate(api: NameComApi, server: Server, env: Env, listed: seq<Record>, i: nat,
                   processed: seq<Record>, sent: seq<Record>, u: Record)
    requires |processed| == i < |listed| && Decide(env, listed[i]) == Ok(Some(u))
    requires StatusError(server(api.UpdateRequest(u))).None?
    ensures (processed + listed[i..])[i := u] == (processed + [u]) + listed[i + 1..]
    ensures PrefixPass(processed, sent, ProcessRecords(api, server, env, listed[i..])) ==
            PrefixPass(processed + [u], sent + [u], ProcessRecords(api, server, env, listed[i + 1..]))
  {
    var tail := listed[i..];
    assert tail == [listed[i]] + listed[i + 1..] && tail[0] == listed[i] && tail[1..] == listed[i + 1..];
    var rest := ProcessRecords(api, server, env, listed[i + 1..]);
    assert ProcessRecords(api, server, env, tail) == PrefixPass([u], [u], rest);
    assert processed + ([u] + rest.records) == (processed + [u]) + rest.records;
    assert sent + ([u] + rest.sent) == (sent + [u]) + rest.sent;
    assert (processed + tail)[i := u] == (processed + [u]) + listed[i + 1..];
  }

  /** Loop step: record i is overwritten with `u` and the PUT fails with `e`. */
  lemma StepUpdateFails(api: NameComApi, server: Server, env: Env, listed: seq<Record>, i: nat,
                        processed: seq<Record>, sent: seq<Record>, u: Record, e: Option<Error>)
    requires |processed| == i < |listed| && Decide(env, listed[i]) == Ok(Some(u))
    requires e == StatusError(server(api.UpdateRequest(u))) && e.Some?
    ensures PrefixPass(processed, sent, ProcessRecords(api, server, env, listed[i..])) ==
            Pass((processed + listed[i..])[i := u], sent + [u], e)
  {
    assert listed[i..] == [listed[i]] + listed[i + 1..];
    assert (processed + listed[i..])[i := u] == processed + ([u] + listed[i + 1..]);
  }

  /** Loop step: record i is sent, whether or not the PUT succeeds. */
  lemma StepSend(api: NameComApi, server: Server, env: Env, listed: seq<Record>, i: nat,
                 processed: seq<Record>, sent: seq<Record>, u: Record, e: Option<Error>)
    requires |processed| == i < |listed| && Decide(env, listed[i]) == Ok(Some(u))
    requires e == StatusError(server(api.UpdateRequest(u)))
    ensures e.Some? ==> PrefixPass(processed, sent, ProcessRecords(api, server, env, listed[i..])) ==
                        Pass((processed + listed[i..])[i := u], sent + [u], e)
    ensures e.None? ==> (processed + listed[i..])[i := u] == (processed + [u]) + listed[i + 1..]
    ensures e.None? ==> PrefixPass(processed, sent, ProcessRecords(api, server, env, listed[i..])) ==
                        PrefixPass(processed + [u], sent + [u], ProcessRecords(api, server, env, listed[i + 1..]))
  {
    if e.Some? {
      StepUpdateFails(api, server, env, listed, i, processed, sent, u, e);
    } else {
      StepUpdate(api, server, env, listed, i, processed, sent, u);
    }
  }

  /** Loop step: the answer of record i does not parse. */
  lemma StepMalformed(api: NameComApi, server: Server, env: Env, listed: seq<Record>, i: nat,
                      processed: seq<Record>, sent: seq<Record>)
    requires |processed| == i < |listed| && Decide(env, listed[i]).Err?
    ensures PrefixPass(processed, sent, ProcessRecords(api, server, env, listed[i..])) ==
            Pass(processed + listed[i..], sent, Some(Decide(env, listed[i]).error))
  {
    var tail := listed[i..];
    assert tail != [] && tail[0] == listed[i];
    assert ProcessRecords(api, server, env, tail) == Pass(tail, [], Some(Decide(env, listed[i]).error));
    assert sent + [] == sent;
  }

  /** The inner loop of main: records are updated in place, and each record
      whose answer changes is sent before the next one is looked at. */
  method ReconcileRecords(api: NameComApi, server: Server, env: Env, listed: seq<Record>)
    returns (records: seq<Record>, ghost sent: seq<Record>, error: Option<Error>)
    ensures records == ProcessRecords(api, server, env, listed).records
    ensures error == ProcessRecords(api, server, env, listed).error
    ensures sent == ProcessRecords(api, server, env, listed).sent
  {
    records, error := listed, None;
    sent := [];
    var i := 0;
    ghost var processed: seq<Record> := [];
    assert listed[i..] == listed;
    assert [] + listed == listed;
    while i < |records|
      invariant 0 <= i <= |records| == |listed| && |processed| == i
      invariant records == processed + listed[i..]
      invariant ProcessRecords(api, server, env, listed) ==
                PrefixPass(processed, sent, ProcessRecords(api, server, env, listed[i..]))
    {
      var record := records[i];
      assert record == listed[i];
      if record.ttl == env.ttlToUpdate {
        if record.recordType == "A" {
          var currentAddress := env.normalizeIPv4(record.answer);
          if currentAddress.None? {
            error := Some(MalformedAnswer(record.answer));
            StepMalformed(api, server, env, listed, i, processed, sent);
            return;
          }
          if currentAddress.value != env.ipv4 {
            var updated := record.(answer := env.ipv4);
            records := records[i := updated];
            var e := api.UpdateRecord(server, updated);
            StepSend(api, server, env, listed, i, processed, sent, updated, e);
            sent := sent + [updated];
            if e.Some? {
              error := e;
              return;
            }
            processed := processed + [updated];
          } else {
            StepKeep(api, server, env, listed, i, processed, sent);
            processed := processed + [record];
          }
        } else if record.recordType == "AAAA" {
          var currentAddress := env.normalizeIPv6(record.answer);
          if currentAddress.None? {
            error := Some(MalformedAnswer(record.answer));
            StepMalformed(api, server, env, listed, i, processed, sent);
            return;
          }
          if currentAddress.value != env.ipv6 {
            var updated := record.(answer := env.ipv6);
            records := records[i := updated];
            var e := api.UpdateRecord(server, updated);
            StepSend(api, server, env, listed, i, processed, sent, updated, e);
            sent := sent + [updated];
            if e.Some? {
              error := e;
              return;
            }
            processed := processed + [updated];
          } else {
            StepKeep(api, server, env, listed, i, processed, sent);
            processed := processed + [record];
          }
        } else {
          StepKeep(api, server, env, listed, i, processed, sent);
          processed := processed + [record];
        }
      } else {
        StepKeep(api, server, env, listed, i, processed, sent);
        processed := processed + [record];
      }
      i := i + 1;
    }
    assert listed[i..] == [];
    assert records + [] == records && sent + [] == sent;
  }

  // ---------------------------------------------------------------------
  // The whole run
  // ---------------------------------------------------------------------

  /** What a run did: the records sent to updateRecord, in order, and the
      error that aborted it, if any. Nothing sent is rolled back. */
  datatype Run = Run(sent: seq<Record>, error: Option<Error>)

  /** The run `run` with records already sent put in front of its own. */
  function PrefixRun(sent: seq<Record>, run: Run): Run
  {
    Run(sent + run.sent, run.error)
  }

  lemma PrefixRunAssoc(a: seq<Record>, b: seq<Record>, run: Run)
    ensures PrefixRun(a, PrefixRun(b, run)) == PrefixRun(a + b, run)
  {
    assert a + (b + run.sent) == (a + b) + run.sent;
  }

  /** The outer loop over the listed domains. */
  function ReconcileDomains(api: NameComApi, server: Server, env: Env, domains: seq<Domain>): Run
  {
    if domains == [] then Run([], None)
    else
      match Aggregate(api.RecordsFetch(server, domains[0].domainName), 0, {})
      case Err(e) => Run([], Some(e))
      case Ok(recs) =>
        var p := ProcessRecords(api, server, env, recs);
        if p.error.Some? then Run(p.sent, p.error)
        else PrefixRun(p.sent, ReconcileDomains(api, server, env, domains[1..]))
  }

  /** A whole run: list the domains, then reconcile each in turn. */
  function ReconcileAll(api: NameComApi, server: Server, env: Env): Run
  {
    match Aggregate(api.DomainsFetch(server), 0, {})
    case Err(e) => Run([], Some(e))
    case Ok(domains) => ReconcileDomains(api, server, env, domains)
  }

  /** One step of the loop over domains, with `sent` already sent. */
  lemma RunStep(api: NameComApi, server: Server, env: Env, domains: seq<Domain>, sent: seq<Record>)
    requires domains != []
    ensures var listed := Aggregate(api.RecordsFetch(server, domains[0].domainName), 0, {});
      var run := PrefixRun(sent, ReconcileDomains(api, server, env, domains));
      (listed.Err? ==> run == Run(sent, Some(listed.error))) &&
      (listed.Ok? ==>
         var p := ProcessRecords(api, server, env, listed.value);
         (p.error.Some? ==> run == Run(sent + p.sent, p.error)) &&
         (p.error.None? ==> run == PrefixRun(sent + p.sent, ReconcileDomains(api, server, env, domains[1..]))))
  {
    assert sent + [] == sent;
    var listed := Aggregate(api.RecordsFetch(server, domains[0].domainName), 0, {});
    if listed.Ok? {
      var p := ProcessRecords(api, server, env, listed.value);
      PrefixRunAssoc(sent, p.sent, ReconcileDomains(api, server, env, domains[1..]));
    }
  }

  /** main, from listDomains() on. */
  method RunReconciliation(api: NameComApi, server: Server, env: Env)
    returns (ghost sent: seq<Record>, error: Option<Error>)
    ensures error == ReconcileAll(api, server, env).error
    ensures sent == ReconcileAll(api, server, env).sent
  {
    sent, error := [], None;
    ghost var domainPages;
    var domains;
    domains, domainPages := api.ListDomains(server);
    if domains.Err? {
      return [], Some(domains.error);
    }
    var i := 0;
    assert domains.value[i..] == domains.value;
    while i < |domains.value|
      invariant 0 <= i <= |domains.value|
      invariant ReconcileAll(api, server, env) ==
                PrefixRun(sent, ReconcileDomains(api, server, env, domains.value[i..]))
    {
      var domain := domains.value[i];
      assert domains.value[i..][1..] == domains.value[i + 1..];
      RunStep(api, server, env, domains.value[i..], sent);
      ghost var recordPages;
      var records;
      records, recordPages := api.ListRecords(server, domain.domainName);
      if records.Err? {
        error := Some(records.error);
        return;
      }
      ghost var domainSent;
      var updatedRecords, domainError;
      updatedRecords, domainSent, domainError := ReconcileRecords(api, server, env, records.value);
      sent := sent + domainSent;
      if domainError.Some? {
        error := domainError;
        return;
      }
      i := i + 1;
    }
    assert sent + [] == sent;
  }

  // ---------------------------------------------------------------------
  // Properties of one domain's pass
  // ---------------------------------------------------------------------

  /** Every record sent is a selected "A" or "AAAA" record whose normalised
      answer differed from the current address, with only its answer changed,
      to that current address. */
  lemma {:induction false} UpdatesAreSelected(env: Env, recs: seq<Record>, u: Record)
    requires u in Updates(env, recs)
    ensures exists r :: (r in recs && Decide(env, r) == Ok(Some(u)) &&
                         Selected(env, r) && IsAddressType(r.recordType) &&
                         Normalize(env, r.recordType, r.answer).Some? &&
                         Normalize(env, r.recordType, r.answer).value != Current(env, r.recordType) &&
                         u == r.(answer := Current(env, r.recordType)))
  {
    if Decide(env, recs[0]) == Ok(Some(u)) {
      assert recs[0] in recs;
    } else {
      assert u in Updates(env, recs[1..]) by {
        assert u !in Sends(env, recs[0]);
      }
      UpdatesAreSelected(env, recs[1..], u);
      var r :| r in recs[1..] && Decide(env, r) == Ok(Some(u));
      assert r in recs;
    }
  }

  /** Updates are issued in record order: the updates of a concatenation are
      the concatenation of the updates. */
  lemma {:induction false} UpdatesAppend(env: Env, a: seq<Record>, b: seq<Record>)
    ensures Updates(env, a + b) == Updates(env, a) + Updates(env, b)
  {
    if a != [] {
      assert (a + b)[1..] == a[1..] + b;
      assert (a + b)[0] == a[0];
      UpdatesAppend(env, a[1..], b);
    } else {
      assert a + b == b;
    }
  }

  /** At most one update per record. */
  lemma {:induction false} UpdatesAtMostOnce(env: Env, recs: seq<Record>)
    ensures |Updates(env, recs)| <= |recs|
  {
    if recs != [] {
      UpdatesAtMostOnce(env, recs[1..]);
    }
  }

  /** A pass that ends without error sent exactly the updates of the listed
      records, every PUT succeeded, and every record now stands as its
      decision says. */
  lemma {:induction false} PassComplete(api: NameComApi, server: Server, env: Env, recs: seq<Record>)
    requires ProcessRecords(api, server, env, recs).error.None?
    ensures var p := ProcessRecords(api, server, env, recs);
      p.sent == Updates(env, recs) &&
      |p.records| == |recs| &&
      (forall i :: 0 <= i < |recs| ==> Decide(env, recs[i]).Ok? && p.records[i] == Apply(env, recs[i])) &&
      (forall u :: u in p.sent ==> StatusError(server(api.UpdateRequest(u))).None?)
  {
    if recs != [] {
      var p := ProcessRecords(api, server, env, recs);
      var rest := ProcessRecords(api, server, env, recs[1..]);
      PassComplete(api, server, env, recs[1..]);
      forall i | 0 <= i < |recs|
        ensures Decide(env, recs[i]).Ok? && p.records[i] == Apply(env, recs[i])
      {
        if i > 0 {
          assert recs[i] == recs[1..][i - 1];
        }
      }
    }
  }

  /** Whatever happens, what a pass sent is what the records up to some point
      call for: nothing is sent out of order, and an error stops the pass. */
  lemma {:induction false} PassSentPrefix(api: NameComApi, server: Server, env: Env, recs: seq<Record>)
    returns (k: nat)
    ensures k <= |recs|
    ensures ProcessRecords(api, server, env, recs).sent == Updates(env, recs[..k])
    ensures ProcessRecords(api, server, env, recs).error.None? ==> k == |recs|
  {
    if recs == [] {
      return 0;
    }
    var d := Decide(env, recs[0]);
    if d.Err? {
      assert recs[..0] == [];
      return 0;
    }
    if d.value.Some? && StatusError(server(api.UpdateRequest(d.value.value))).Some? {
      UpdatesFirst(env, recs, 0);
      return 1;
    }
    var j := PassSentPrefix(api, server, env, recs[1..]);
    PassContinues(api, server, env, recs);
    UpdatesFirst(env, recs, j);
    return j + 1;
  }

  /** The updates of the first k+1 records are those of the first, then those
      of the next k. */
  lemma UpdatesFirst(env: Env, recs: seq<Record>, k: nat)
    requires k < |recs|
    ensures Updates(env, recs[..k + 1]) == Sends(env, recs[0]) + Updates(env, recs[1..][..k])
  {
    assert recs[..k + 1][0] == recs[0];
    assert recs[..k + 1][1..] == recs[1..][..k];
  }

  /** A first record that parses and, if it calls for an update, whose PUT
      succeeds lets the pass go on with the rest. */
  lemma PassContinues(api: NameComApi, server: Server, env: Env, recs: seq<Record>)
    requires recs != [] && Decide(env, recs[0]).Ok?
    requires Decide(env, recs[0]).value.Some? ==>
               StatusError(server(api.UpdateRequest(Decide(env, recs[0]).value.value))).None?
    ensures ProcessRecords(api, server, env, recs).sent ==
            Sends(env, recs[0]) + ProcessRecords(api, server, env, recs[1..]).sent
    ensures ProcessRecords(api, server, env, recs).error == ProcessRecords(api, server, env, recs[1..]).error
    ensures ProcessRecords(api, server, env, recs).records ==
            [Apply(env, recs[0])] + ProcessRecords(api, server, env, recs[1..]).records
  {
    assert [] + ProcessRecords(api, server, env, recs[1..]).sent == ProcessRecords(api, server, env, recs[1..]).sent;
  }

  /** The pass goes past the record: its answer parses and, if it calls for an
      update, the PUT succeeds. */
  predicate Proceeds(api: NameComApi, server: Server, env: Env, rec: Record)
  {
    Decide(env, rec).Ok? &&
    (Decide(env, rec).value.Some? ==> StatusError(server(api.UpdateRequest(Decide(env, rec).value.value))).None?)
  }

  /** The pass `p` over `recs` stopped at record k, the first one it could not
      get past: every record before it was handled, the records after it are
      untouched and none of them is sent. The error is that of the answer that
      does not parse, or that of the failed PUT, whose record was sent. */
  ghost predicate StoppedAt(api: NameComApi, server: Server, env: Env, recs: seq<Record>, p: Pass, k: nat)
  {
    k < |recs| == |p.records| &&
    HandledBefore(api, server, env, recs, p.records, k) &&
    FailedAt(api, server, env, recs, p, k)
  }

  /** Every record before k was got past, and was rewritten as Apply says. */
  ghost predicate HandledBefore(api: NameComApi, server: Server, env: Env, recs: seq<Record>, records: seq<Record>, k: nat)
    requires k <= |recs| && k <= |records|
  {
    forall i :: 0 <= i < k ==> Proceeds(api, server, env, recs[i]) && records[i] == Apply(env, recs[i])
  }

  /** Record k could not be got past; what the pass then holds. */
  ghost predicate FailedAt(api: NameComApi, server: Server, env: Env, recs: seq<Record>, p: Pass, k: nat)
    requires k < |recs| == |p.records|
  {
    !Proceeds(api, server, env, recs[k]) &&
    p.records[k + 1..] == recs[k + 1..] &&
    (Decide(env, recs[k]).Err? ==>
       p.records[k] == recs[k] &&
       p.error == Some(Decide(env, recs[k]).error) && p.sent == Updates(env, recs[..k])) &&
    (Decide(env, recs[k]).Ok? ==>
       p.records[k] == Apply(env, recs[k]) &&
       p.error == StatusError(server(api.UpdateRequest(Apply(env, recs[k])))) &&
       p.sent == Updates(env, recs[..k + 1]))
  }

  /** A pass that fails stops at the first record it cannot get past. */
  lemma {:induction false} PassStopsAtError(api: NameComApi, server: Server, env: Env, recs: seq<Record>)
    returns (k: nat)
    requires ProcessRecords(api, server, env, recs).error.Some?
    ensures StoppedAt(api, server, env, recs, ProcessRecords(api, server, env, recs), k)
  {
    if !Proceeds(api, server, env, recs[0]) {
      assert recs[..0] == [] && recs[..1] == [recs[0]];
      return 0;
    }
    PassContinues(api, server, env, recs);
    var j := PassStopsAtError(api, server, env, recs[1..]);
    StopShift(api, server, env, recs, ProcessRecords(api, server, env, recs),
              ProcessRecords(api, server, env, recs[1..]), j);
    return j + 1;
  }

  /** The inductive step of PassStopsAtError: a pass that gets past the first
      record stops one record later than the pass over the rest. */
  lemma StopShift(api: NameComApi, server: Server, env: Env, recs: seq<Record>, p: Pass, q: Pass, j: nat)
    requires recs != [] && Proceeds(api, server, env, recs[0])
    requires p == Pass([Apply(env, recs[0])] + q.records, Sends(env, recs[0]) + q.sent, q.error)
    requires StoppedAt(api, server, env, recs[1..], q, j)
    ensures StoppedAt(api, server, env, recs, p, j + 1)
  {
    HandledShift(api, server, env, recs, p.records, q.records, j);
    FailedShift(api, server, env, recs, p, q, j);
  }

  lemma HandledShift(api: NameComApi, server: Server, env: Env, recs: seq<Record>,
                     records: seq<Record>, rest: seq<Record>, j: nat)
    requires recs != [] && Proceeds(api, server, env, recs[0])
    requires records == [Apply(env, recs[0])] + rest
    requires j < |recs| - 1 && j < |rest| && HandledBefore(api, server, env, recs[1..], rest, j)
    ensures HandledBefore(api, server, env, recs, records, j + 1)
  {
    forall i | 0 <= i < j + 1 ensures Proceeds(api, server, env, recs[i]) && records[i] == Apply(env, recs[i]) {
      if i > 0 {
        assert recs[i] == recs[1..][i - 1] && records[i] == rest[i - 1];
      }
    }
  }

  lemma FailedShift(api: NameComApi, server: Server, env: Env, recs: seq<Record>, p: Pass, q: Pass, j: nat)
    requires recs != [] && Proceeds(api, server, env, recs[0])
    requires p == Pass([Apply(env, recs[0])] + q.records, Sends(env, recs[0]) + q.sent, q.error)
    requires j < |recs[1..]| == |q.records| && FailedAt(api, server, env, recs[1..], q, j)
    ensures FailedAt(api, server, env, recs, p, j + 1)
  {
    var rest := recs[1..];
    assert recs[j + 1] == rest[j];
    assert p.records[j + 2..] == q.records[j + 1..];
    assert recs[j + 2..] == rest[j + 1..];
    UpdatesFirst(env, recs, j);
    UpdatesFirst(env, recs, j + 1);
  }

  /** A stored answer that does not parse aborts the pass: it is never
      skipped. (The pass may stop even earlier, at a failing PUT.) */
  lemma {:induction false} MalformedAborts(api: NameComApi, server: Server, env: Env, recs: seq<Record>, i: nat)
    requires i < |recs| && Decide(env, recs[i]).Err?
    ensures ProcessRecords(api, server, env, recs).error.Some?
  {
    if i > 0 && Decide(env, recs[0]).Ok? {
      assert recs[1..][i - 1] == recs[i];
      MalformedAborts(api, server, env, recs[1..], i - 1);
    }
  }

  /** A pass changes nothing of a record but its answer, keeps the records'
      order and number, and leaves unselected and non-address records alone. */
  lemma {:induction false} PassOnlyChangesAnswers(api: NameComApi, server: Server, env: Env, recs: seq<Record>)
    ensures var p := ProcessRecords(api, server, env, recs);
      |p.records| == |recs| &&
      forall i :: 0 <= i < |recs| ==>
        p.records[i] == recs[i].(answer := p.records[i].answer) &&
        (!Selected(env, recs[i]) || !IsAddressType(recs[i].recordType) ==> p.records[i] == recs[i])
  {
    if recs != [] {
      var p := ProcessRecords(api, server, env, recs);
      PassOnlyChangesAnswers(api, server, env, recs[1..]);
      forall i | 0 <= i < |recs|
        ensures p.records[i] == recs[i].(answer := p.records[i].answer) &&
                (!Selected(env, recs[i]) || !IsAddressType(recs[i].recordType) ==> p.records[i] == recs[i])
      {
        if i > 0 {
          assert recs[i] == recs[1..][i - 1];
        }
      }
    }
  }

  // ---------------------------------------------------------------------
  // Idempotence
  // ---------------------------------------------------------------------

  /** The current addresses come from to_string() and are canonical: each
      normaliser maps its own current address to itself. */
  predicate Canonical(env: Env)
  {
    env.normalizeIPv4(env.ipv4) == Some(env.ipv4) && env.normalizeIPv6(env.ipv6) == Some(env.ipv6)
  }

  /** A record as it stands after its decision calls for no further update. */
  lemma ApplySettles(env: Env, rec: Record)
    requires Canonical(env) && Decide(env, rec).Ok?
    ensures Decide(env, Apply(env, rec)) == Ok(None)
  {
  }

  /** A second pass over the records a successful pass leaves behind, with the
      same addresses, sends nothing and fails nowhere, whatever the server
      answers. */
  lemma {:induction false} PassIdempotent(api: NameComApi, server: Server, env: Env, recs: seq<Record>)
    requires Canonical(env)
    requires ProcessRecords(api, server, env, recs).error.None?
    ensures var after := ProcessRecords(api, server, env, recs).records;
      ProcessRecords(api, server, env, after) == Pass(after, [], None)
  {
    PassComplete(api, server, env, recs);
    var after := ProcessRecords(api, server, env, recs).records;
    SettledPassIsQuiet(api, server, env, after);
  }

  /** A pass over records whose decisions are all "no update" changes and sends nothing. */
  lemma {:induction false} SettledPassIsQuiet(api: NameComApi, server: Server, env: Env, recs: seq<Record>)
    requires forall i :: 0 <= i < |recs| ==> Decide(env, recs[i]) == Ok(None)
    ensures ProcessRecords(api, server, env, recs) == Pass(recs, [], None)
  {
    if recs != [] {
      forall i | 0 <= i < |recs| - 1 ensures Decide(env, recs[1..][i]) == Ok(None) {
        assert recs[1..][i] == recs[i + 1];
      }
      SettledPassIsQuiet(api, server, env, recs[1..]);
      assert [recs[0]] + recs[1..] == recs;
    }
  }

  // ---------------------------------------------------------------------
  // Properties of a whole run
  // ---------------------------------------------------------------------

  /** Every record a run sends, even a run that later aborts, is a selected
      "A" or "AAAA" record carrying the current address of its family. */
  lemma {:induction false} RunSendsOnlySelected(api: NameComApi, server: Server, env: Env, domains: seq<Domain>, u: Record)
    requires u in ReconcileDomains(api, server, env, domains).sent
    ensures Selected(env, u) && IsAddressType(u.recordType) && u.answer == Current(env, u.recordType)
  {
    var recs := Aggregate(api.RecordsFetch(server, domains[0].domainName), 0, {}).value;
    var p := ProcessRecords(api, server, env, recs);
    if u in p.sent {
      var k := PassSentPrefix(api, server, env, recs);
      UpdatesAreSelected(env, recs[..k], u);
    } else {
      RunSendsOnlySelected(api, server, env, domains[1..], u);
    }
  }

  /** The updates a run issues when every listing succeeds and every answer
      parses: domain by domain in listing order, each domain's in record order. */
  ghost function PlannedUpdates(api: NameComApi, server: Server, env: Env, domains: seq<Domain>): seq<Record>
  {
    if domains == [] then []
    else
      match Aggregate(api.RecordsFetch(server, domains[0].domainName), 0, {})
      case Err(_) => []
      case Ok(recs) => Updates(env, recs) + PlannedUpdates(api, server, env, domains[1..])
  }

  /** A run that completes sent exactly the planned updates, in domain order
      and then record order. */
  lemma {:induction false} RunCompleteOrder(api: NameComApi, server: Server, env: Env, domains: seq<Domain>)
    requires ReconcileDomains(api, server, env, domains).error.None?
    ensures ReconcileDomains(api, server, env, domains).sent == PlannedUpdates(api, server, env, domains)
  {
    if domains != [] {
      var recs := Aggregate(api.RecordsFetch(server, domains[0].domainName), 0, {}).value;
      PassComplete(api, server, env, recs);
      RunCompleteOrder(api, server, env, domains[1..]);
    }
  }

  /** Whatever happens, what a run sent is a prefix of the planned updates: a
      failure stops the run where it occurs, later domains contribute nothing,
      and nothing already sent is undone. */
  lemma {:induction false} RunSentPrefix(api: NameComApi, server: Server, env: Env, domains: seq<Domain>)
    ensures ReconcileDomains(api, server, env, domains).sent <= PlannedUpdates(api, server, env, domains)
  {
    if domains != [] {
      var listed := Aggregate(api.RecordsFetch(server, domains[0].domainName), 0, {});
      if listed.Ok? {
        var recs := listed.value;
        var p := ProcessRecords(api, server, env, recs);
        var rest := PlannedUpdates(api, server, env, domains[1..]);
        assert PlannedUpdates(api, server, env, domains) == Updates(env, recs) + rest;
        if p.error.Some? {
          PassAbortPrefix(api, server, env, recs, rest);
        } else {
          assert ReconcileDomains(api, server, env, domains).sent ==
                 p.sent + ReconcileDomains(api, server, env, domains[1..]).sent;
          PassComplete(api, server, env, recs);
          RunSentPrefix(api, server, env, domains[1..]);
          PrefixAfter(p.sent, ReconcileDomains(api, server, env, domains[1..]).sent, rest);
        }
      }
    }
  }

  /** What an aborted pass sent is a prefix of its planned updates, whatever
      follows them. */
  lemma PassAbortPrefix(api: NameComApi, server: Server, env: Env, recs: seq<Record>, rest: seq<Record>)
    ensures ProcessRecords(api, server, env, recs).sent <= Updates(env, recs) + rest
  {
    var sent := ProcessRecords(api, server, env, recs).sent;
    var k := PassSentPrefix(api, server, env, recs);
    assert recs == recs[..k] + recs[k..];
    UpdatesAppend(env, recs[..k], recs[k..]);
    ExtendedPrefix(sent, Updates(env, recs[k..]), rest);
  }

  lemma ExtendedPrefix(a: seq<Record>, b: seq<Record>, c: seq<Record>)
    ensures a <= (a + b) + c
  {
    assert ((a + b) + c)[..|a|] == a;
  }

  lemma PrefixAfter(a: seq<Record>, b: seq<Record>, c: seq<Record>)
    requires b <= c
    ensures a + b <= a + c
  {
    assert (a + c)[..|a + b|] == a + c[..|b|];
  }

  /** The run over `domains` stopped in domain j: the domains before it
      completed, that domain failed, and the run is what the domains before it
      planned followed by what that domain did; the domains after it add
      nothing. */
  ghost predicate RunStoppedAt(api: NameComApi, server: Server, env: Env, domains: seq<Domain>, j: nat)
  {
    j < |domains| &&
    (forall i :: 0 <= i < j ==> ReconcileDomains(api, server, env, [domains[i]]).error.None?) &&
    ReconcileDomains(api, server, env, [domains[j]]).error.Some? &&
    ReconcileDomains(api, server, env, domains) ==
      PrefixRun(PlannedUpdates(api, server, env, domains[..j]), ReconcileDomains(api, server, env, [domains[j]]))
  }

  /** A run that fails stops in the domain where the error occurs. */
  lemma {:induction false} RunStopsAtError(api: NameComApi, server: Server, env: Env, domains: seq<Domain>)
    returns (j: nat)
    requires ReconcileDomains(api, server, env, domains).error.Some?
    ensures RunStoppedAt(api, server, env, domains, j)
  {
    var first := ReconcileDomains(api, server, env, [domains[0]]);
    OneDomain(api, server, env, domains);
    if first.error.Some? {
      assert domains[..0] == [];
      assert [] + first.sent == first.sent;
      return 0;
    }
    var k := RunStopsAtError(api, server, env, domains[1..]);
    RunShift(api, server, env, domains, k);
    return k + 1;
  }

  /** The inductive step of RunStopsAtError: a run whose first domain
      completes stops one domain later than the run over the rest. */
  lemma RunShift(api: NameComApi, server: Server, env: Env, domains: seq<Domain>, k: nat)
    requires domains != []
    requires ReconcileDomains(api, server, env, [domains[0]]).error.None?
    requires ReconcileDomains(api, server, env, domains) ==
             PrefixRun(ReconcileDomains(api, server, env, [domains[0]]).sent, ReconcileDomains(api, server, env, domains[1..]))
    requires RunStoppedAt(api, server, env, domains[1..], k)
    ensures RunStoppedAt(api, server, env, domains, k + 1)
  {
    var first := ReconcileDomains(api, server, env, [domains[0]]);
    PlannedFirst(api, server, env, domains, k);
    var last := ReconcileDomains(api, server, env, [domains[1..][k]]);
    PrefixRunAssoc(first.sent, PlannedUpdates(api, server, env, domains[1..][..k]), last);
    forall i | 0 <= i < k + 1 ensures ReconcileDomains(api, server, env, [domains[i]]).error.None? {
      if i > 0 {
        assert domains[i] == domains[1..][i - 1];
      }
    }
  }

  /** The run over the first domain alone, and how the whole run continues. */
  lemma OneDomain(api: NameComApi, server: Server, env: Env, domains: seq<Domain>)
    requires domains != []
    ensures var listed := Aggregate(api.RecordsFetch(server, domains[0].domainName), 0, {});
      var first := ReconcileDomains(api, server, env, [domains[0]]);
      (listed.Err? ==> first == Run([], Some(listed.error)) == ReconcileDomains(api, server, env, domains)) &&
      (listed.Ok? ==>
         var p := ProcessRecords(api, server, env, listed.value);
         first == Run(p.sent, p.error) &&
         (p.error.Some? ==> ReconcileDomains(api, server, env, domains) == first) &&
         (p.error.None? ==>
            ReconcileDomains(api, server, env, domains) == PrefixRun(p.sent, ReconcileDomains(api, server, env, domains[1..]))))
  {
    assert [domains[0]][0] == domains[0] && [domains[0]][1..] == [];
    var listed := Aggregate(api.RecordsFetch(server, domains[0].domainName), 0, {});
    if listed.Ok? {
      var p := ProcessRecords(api, server, env, listed.value);
      assert p.sent + [] == p.sent;
    }
  }

  /** The planned updates of the first k+1 domains, when the first one
      completes: what it sent, then those of the next k. */
  lemma PlannedFirst(api: NameComApi, server: Server, env: Env, domains: seq<Domain>, k: nat)
    requires k < |domains| && ReconcileDomains(api, server, env, [domains[0]]).error.None?
    ensures PlannedUpdates(api, server, env, domains[..k + 1]) ==
            ReconcileDomains(api, server, env, [domains[0]]).sent + PlannedUpdates(api, server, env, domains[1..][..k])
  {
    OneDomain(api, server, env, domains);
    assert domains[..k + 1][1..] == domains[1..][..k];
    assert domains[..k + 1][0] == domains[0];
    var recs := Aggregate(api.RecordsFetch(server, domains[0].domainName), 0, {}).value;
    PassComplete(api, server, env, recs);
  }
}
