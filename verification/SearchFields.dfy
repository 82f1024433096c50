// packages/search/src/fields.ts: the registry that maps query field names to
// document paths. A dotted path is a constructor per registered path, with the
// sub-field the compiler appends (`${esPath}.address`) kept as a `Dot`.
module SearchFields {
  import opened Wrappers
  import opened Text

  datatype FieldType = TextType | KeywordType | DateType | SizeType | AddressType | HeaderType | OcrType | BooleanType

  datatype FieldId =
      AllText
    | TextBody | TextBodyHtml | TextAttachment | TextFile | TextOcr | ItemName | EmailSubject
    | EmailFrom | EmailTo | EmailCc | EmailBcc | EmailSender | EmailReplyTo | Addresses
    | Kind | Extension | MimeType | SourcePath | Folder | SourceLabels | Sha256 | CustodianEmail
    | Provider | TagNames | CaseIds | EmailMessageId | EmailThreadId | BatesRanges
    | AuditSystem | AuditWorkload | AuditOperation | AuditRecordType | AuditActorEmail | AuditActorIp
    | AuditResultStatus | AuditTargetId
    | Privileged | Confidential | HasBeenProduced
    | Size
    | DateSent | DateReceived | DateCreated | DateModified | DateAcquired | DatePrimary | AuditOccurredAt
    | Headers | OcrPages | TenantId | ImportId | ImportOwnerId

  datatype SubField = AddressSub | DomainSub | AllSub | DomainsSub | KeywordSub | NameSub | ValueSub | TextSub
                    | BegBatesSub | EndBatesSub

  datatype Path = Field(id: FieldId) | Dot(base: Path, sub: SubField)

  datatype FieldDef = FieldDef(esPath: FieldId, fieldType: FieldType)

  datatype ResolvedField = ResolvedField(name: string, esPath: FieldId, fieldType: FieldType, headerName: Option<string>)

  type Registry = string -> Option<FieldDef>

  function DefaultDefs(name: string): Option<FieldDef> {
    match name
    case "from" => Some(FieldDef(EmailFrom, AddressType))
    case "to" => Some(FieldDef(EmailTo, AddressType))
    case "cc" => Some(FieldDef(EmailCc, AddressType))
    case "bcc" => Some(FieldDef(EmailBcc, AddressType))
    case "sender" => Some(FieldDef(EmailSender, AddressType))
    case "replyto" => Some(FieldDef(EmailReplyTo, AddressType))
    case "participants" => Some(FieldDef(Addresses, AddressType))
    case "subject" => Some(FieldDef(EmailSubject, TextType))
    case "body" => Some(FieldDef(TextBody, TextType))
    case "text" => Some(FieldDef(AllText, TextType))
    case "attachment" => Some(FieldDef(TextAttachment, TextType))
    case "ocr" => Some(FieldDef(TextOcr, OcrType))
    case "filename" => Some(FieldDef(ItemName, TextType))
    case "name" => Some(FieldDef(ItemName, TextType))
    case "kind" => Some(FieldDef(Kind, KeywordType))
    case "extension" => Some(FieldDef(Extension, KeywordType))
    case "ext" => Some(FieldDef(Extension, KeywordType))
    case "mime" => Some(FieldDef(MimeType, KeywordType))
    case "mimetype" => Some(FieldDef(MimeType, KeywordType))
    case "path" => Some(FieldDef(SourcePath, KeywordType))
    case "folder" => Some(FieldDef(Folder, KeywordType))
    case "label" => Some(FieldDef(SourceLabels, KeywordType))
    case "labels" => Some(FieldDef(SourceLabels, KeywordType))
    case "source" => Some(FieldDef(SourcePath, KeywordType))
    case "hash" => Some(FieldDef(Sha256, KeywordType))
    case "sha256" => Some(FieldDef(Sha256, KeywordType))
    case "custodian" => Some(FieldDef(CustodianEmail, KeywordType))
    case "provider" => Some(FieldDef(Provider, KeywordType))
    case "tag" => Some(FieldDef(TagNames, KeywordType))
    case "tags" => Some(FieldDef(TagNames, KeywordType))
    case "case" => Some(FieldDef(CaseIds, KeywordType))
    case "messageid" => Some(FieldDef(EmailMessageId, KeywordType))
    case "threadid" => Some(FieldDef(EmailThreadId, KeywordType))
    case "bates" => Some(FieldDef(BatesRanges, KeywordType))
    case "privileged" => Some(FieldDef(Privileged, BooleanType))
    case "confidential" => Some(FieldDef(Confidential, BooleanType))
    case "produced" => Some(FieldDef(HasBeenProduced, BooleanType))
    case "size" => Some(FieldDef(Size, SizeType))
    case "sent" => Some(FieldDef(DateSent, DateType))
    case "received" => Some(FieldDef(DateReceived, DateType))
    case "created" => Some(FieldDef(DateCreated, DateType))
    case "modified" => Some(FieldDef(DateModified, DateType))
    case "acquired" => Some(FieldDef(DateAcquired, DateType))
    case "date" => Some(FieldDef(DatePrimary, DateType))
    case "auditsystem" => Some(FieldDef(AuditSystem, KeywordType))
    case "workload" => Some(FieldDef(AuditWorkload, KeywordType))
    case "operation" => Some(FieldDef(AuditOperation, KeywordType))
    case "recordtype" => Some(FieldDef(AuditRecordType, KeywordType))
    case "actor" => Some(FieldDef(AuditActorEmail, KeywordType))
    case "actorip" => Some(FieldDef(AuditActorIp, KeywordType))
    case "auditresult" => Some(FieldDef(AuditResultStatus, KeywordType))
    case "audittarget" => Some(FieldDef(AuditTargetId, KeywordType))
    case "occurred" => Some(FieldDef(AuditOccurredAt, DateType))
    case _ => None
  }

  const HEADER_PREFIX := "header."

  const DEFAULT_TEXT_FIELD := ResolvedField("text", AllText, TextType, None)

  predicate IsHashField(name: string) {
    name == "hash" || name == "sha256"
  }

  // FieldRegistry.resolve; None is the thrown QueryValidationError.
  function Resolve(defs: Registry, field: string): Option<ResolvedField> {
    var normalized := Lower(field);
    if HEADER_PREFIX <= normalized then
      var headerName := normalized[|HEADER_PREFIX|..];
      if headerName == "" then None else Some(ResolvedField(normalized, Headers, HeaderType, Some(headerName)))
    else
      match defs(normalized)
      case None => None
      case Some(def) => Some(ResolvedField(normalized, def.esPath, def.fieldType, None))
  }

  // ----- the index mapping (packages/search/src/mapping.ts) by field type -----

  predicate IsAddressObject(p: FieldId) {
    p in {EmailFrom, EmailTo, EmailCc, EmailBcc, EmailSender, EmailReplyTo}
  }

  predicate IsTextLeaf(p: FieldId) {
    p in {TextBody, TextBodyHtml, TextAttachment, TextFile, TextOcr, ItemName, EmailSubject}
  }

  // keyword fields mapped with the lowercase normalizer ...
  predicate IsFoldedKeyword(p: FieldId) {
    p in {Extension, MimeType, SourceLabels, Sha256, CustodianEmail, TagNames, AuditSystem, AuditWorkload,
          AuditOperation, AuditRecordType, AuditActorEmail, AuditResultStatus}
  }

  // ... and those stored as written.
  predicate IsRawKeyword(p: FieldId) {
    p in {Kind, SourcePath, Folder, Provider, CaseIds, EmailMessageId, EmailThreadId, AuditActorIp, AuditTargetId}
  }

  predicate IsDate(p: FieldId) {
    p in {DateSent, DateReceived, DateCreated, DateModified, DateAcquired, DatePrimary, AuditOccurredAt}
  }

  predicate IsFlag(p: FieldId) {
    p in {Privileged, Confidential, HasBeenProduced}
  }

  // The declared type of a registry entry is the type its path is mapped with.
  predicate TypeFitsPath(p: FieldId, t: FieldType) {
    match t
    case TextType => p == AllText || IsTextLeaf(p)
    case KeywordType => IsFoldedKeyword(p) || IsRawKeyword(p) || p == BatesRanges
    case DateType => IsDate(p)
    case SizeType => p == Size
    case AddressType => IsAddressObject(p) || p == Addresses
    case HeaderType => p == Headers
    case OcrType => p == TextOcr
    case BooleanType => IsFlag(p)
  }

  predicate FieldOk(f: ResolvedField) {
    && TypeFitsPath(f.esPath, f.fieldType)
    && (f.fieldType.HeaderType? <==> f.headerName.Some?)
    && (f.fieldType.KeywordType? ==> (f.name == "bates" <==> f.esPath == BatesRanges))
    && (IsHashField(f.name) ==> IsFoldedKeyword(f.esPath))
  }

  ghost predicate RegistryOk(defs: Registry) {
    forall name :: defs(name).Some? ==>
      var d := defs(name).value;
      && TypeFitsPath(d.esPath, d.fieldType)
      && !d.fieldType.HeaderType?
      && (d.fieldType.KeywordType? ==> (name == "bates" <==> d.esPath == BatesRanges))
      && (IsHashField(name) ==> IsFoldedKeyword(d.esPath))
  }

  lemma DefaultTypes(name: string)
    requires DefaultDefs(name).Some?
    ensures var d := DefaultDefs(name).value;
            TypeFitsPath(d.esPath, d.fieldType) && !d.fieldType.HeaderType?
  {
  }

  lemma DefaultBates(name: string)
    requires DefaultDefs(name).Some?
    ensures name == "bates" <==> DefaultDefs(name).value.esPath == BatesRanges
  {
  }

  lemma DefaultHash(name: string)
    requires DefaultDefs(name).Some? && IsHashField(name)
    ensures IsFoldedKeyword(DefaultDefs(name).value.esPath)
  {
  }

  lemma DefaultRegistryOk()
    ensures RegistryOk(DefaultDefs)
  {
    hide DefaultDefs, TypeFitsPath, IsHashField, IsFoldedKeyword;
    forall name | DefaultDefs(name).Some?
      ensures var d := DefaultDefs(name).value;
              && TypeFitsPath(d.esPath, d.fieldType) && !d.fieldType.HeaderType?
              && (d.fieldType.KeywordType? ==> (name == "bates" <==> d.esPath == BatesRanges))
              && (IsHashField(name) ==> IsFoldedKeyword(d.esPath))
    {
      DefaultTypes(name);
      DefaultBates(name);
      if IsHashField(name) { DefaultHash(name); }
    }
  }

  lemma ResolvedFieldOk(defs: Registry, field: string)
    requires RegistryOk(defs)
    ensures Resolve(defs, field).Some? ==> FieldOk(Resolve(defs, field).value)
  {
  }
}
