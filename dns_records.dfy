/**
  The local DNS records table (components/DnsRecords.tsx): the "AI Smart Add"
  handler that turns a suggestion for the typed request into one new record at
  the end of the list, and the record count shown under the table. The
  suggestion service is not modelled: what it returned is a parameter, and each
  request made is recorded in the ghost trace Requests.
 */
module DnsRecords {
  import opened Types

  /** What the suggestion service returns for a request. */
  datatype Suggestion = Suggestion(domain: string, ip: string, explanation: string)

  /** A suggestion request, with the loading flag rendered while it was awaited. */
  datatype Request = Request(prompt: string, isAiLoading: bool)

  /** The record built from a suggestion: an A record whose comment is the explanation. */
  function SuggestedRecord(id: string, s: Suggestion): (r: DnsRecord)
    ensures r.recordType == A
    ensures r.id == id && r.domain == s.domain && r.ip == s.ip
    ensures r.comment == Some(s.explanation)
  {
    DnsRecord(id, s.domain, s.ip, A, Some(s.explanation))
  }

  /** The records the table starts with. */
  const InitialRecords: seq<DnsRecord> := [
    DnsRecord("1", "home.nas", "192.168.1.50", A, Some("Network storage")),
    DnsRecord("2", "router.local", "192.168.1.1", A, Some("Main Gateway")),
    DnsRecord("3", "tv.livingroom", "192.168.1.105", A, None)
  ]

  /** The `records`, `aiPrompt` and `isAiLoading` state of the table. */
  class Panel {
    var records: seq<DnsRecord>
    var aiPrompt: string
    var isAiLoading: bool
    ghost var Requests: seq<Request>

    /** The number in the footer, "N records configured". */
    function RecordCount(): (n: nat)
      reads this
      ensures n == |records|
    {
      |records|
    }

    constructor ()
      ensures records == InitialRecords && RecordCount() == 3
      ensures aiPrompt == "" && !isAiLoading && Requests == []
    {
      records := InitialRecords;
      aiPrompt := "";
      isAiLoading := false;
      Requests := [];
    }

    /** Typing in the request box. */
    method SetPrompt(text: string)
      modifies this`aiPrompt
      ensures aiPrompt == text
    {
      aiPrompt := text;
    }

    /**
      `handleAiSuggest`. `suggestion` is what the service returned (None for
      `null`) and `id` the timestamp id of a new record. An empty request does
      nothing at all; otherwise exactly one request is made, and a suggestion
      appends exactly one record and clears the request box.
     */
    method AiSuggest(suggestion: Option<Suggestion>, id: string)
      modifies this`records, this`aiPrompt, this`isAiLoading, this`Requests
      ensures old(aiPrompt) == "" ==>
        records == old(records) && aiPrompt == old(aiPrompt) &&
        isAiLoading == old(isAiLoading) && Requests == old(Requests)
      ensures old(aiPrompt) != "" ==>
        Requests == old(Requests) + [Request(old(aiPrompt), true)] && !isAiLoading
      ensures old(aiPrompt) != "" && suggestion.None? ==>
        records == old(records) && aiPrompt == old(aiPrompt)
      ensures old(aiPrompt) != "" && suggestion.Some? ==>
        RecordCount() == old(RecordCount()) + 1 &&
        records[..old(RecordCount())] == old(records) &&
        records[old(RecordCount())] == SuggestedRecord(id, suggestion.value) &&
        records[old(RecordCount())].recordType == A &&
        records[old(RecordCount())].domain == suggestion.value.domain &&
        records[old(RecordCount())].ip == suggestion.value.ip &&
        records[old(RecordCount())].comment == Some(suggestion.value.explanation) &&
        aiPrompt == ""
    {
      if aiPrompt == "" {
        return;
      }
      isAiLoading := true;
      Requests := Requests + [Request(aiPrompt, isAiLoading)];
      if suggestion.Some? {
        records := records + [SuggestedRecord(id, suggestion.value)];
        aiPrompt := "";
      }
      isAiLoading := false;
    }
  }
}
