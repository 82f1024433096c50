// packages/search/src/document.ts: the evidence document, and the part of
// OpenSearch that stays abstract.
module SearchDocument {
  import opened Wrappers
  import opened SearchFields

  datatype EmailAddress = EmailAddress(address: string, domain: string)

  datatype RawHeader = RawHeader(name: string, value: string)

  datatype BatesRecord = BatesRecord(begBates: string, endBates: string)

  datatype EvidenceDoc = EvidenceDoc(
    tenantId: string,
    importId: Option<string>,
    importOwnerId: Option<string>,
    caseIds: seq<string>,
    size: Option<nat>,
    texts: map<FieldId, string>,                  // text.*, name, email.subject
    keywords: map<FieldId, seq<string>>,          // keyword fields other than caseIds
    dates: map<FieldId, string>,
    flags: map<FieldId, bool>,
    emails: map<FieldId, seq<EmailAddress>>,      // email.from, email.to, ...
    allAddresses: seq<string>,
    allDomains: seq<string>,
    headers: seq<RawHeader>,
    ocrPages: seq<string>,
    bates: seq<BatesRecord>)

  // privileged, confidential and hasBeenProduced are required fields of every document.
  function FlagOf(d: EvidenceDoc, p: FieldId): bool {
    p in d.flags && d.flags[p]
  }

  function KeywordsOf(d: EvidenceDoc, p: FieldId): seq<string> {
    if p == CaseIds then d.caseIds else if p in d.keywords then d.keywords[p] else []
  }

  function EmailsOf(d: EvidenceDoc, p: FieldId): seq<EmailAddress> {
    if p in d.emails then d.emails[p] else []
  }

  datatype BoundOp = AtLeastOp | AtMostOp | AboveOp | BelowOp

  // Analysis and date arithmetic belong to OpenSearch; every theorem holds for
  // all ways of answering these five questions.
  datatype Engine = Engine(
    analyzed: (FieldId, string, string, Option<nat>) -> bool,   // field, stored text, query, fuzziness
    phrased: (FieldId, string, string, nat) -> bool,            // field, stored text, phrase, slop
    tokenGlob: (FieldId, string, string) -> bool,               // field, stored text, lowercase pattern
    glob: (string, string) -> bool,                             // lowercase value, lowercase pattern
    fuzzyKeyword: (string, string, nat) -> bool,                // lowercase value, lowercase query, edits
    dateBound: (BoundOp, string, string) -> bool)               // stored date, bound
}
