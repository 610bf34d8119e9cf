/** The HTTP controller helpers (backend-clean/internal/adapter/http/controller/helper.go):
    the error-kind to status classification and the response shapes. JSON
    encoding and the generated OpenAPI types are reduced to datatypes. */
module HttpHelper {

  import opened Wrappers
  import opened DomainErrors
  import opened Timestamps
  import opened Text
  import opened TemplateDomain
  import opened NoteDomain
  import opened AccountDomain

  const StatusBadRequest := 400
  const StatusForbidden := 403
  const StatusNotFound := 404
  const StatusInternalServerError := 500

  /** The kinds answered with 400. */
  predicate IsBadRequest(e: ErrorKind) {
    e in {InvalidEmail, InvalidName, InvalidStatus, InvalidStatusChange, InvalidTemplateField}
  }

  /** handleError's status: the cases are tried top down and the first match
      wins, so every kind gets exactly one of four statuses. NotFound is the
      only 404 and Unauthorized the only 403; the e-mail, name, status and
      template-field errors are 400; everything else, TemplateInUse,
      RequiredFieldEmpty, TitleRequired, OwnerRequired and opaque storage
      errors included, is 500. */
  function StatusFor(e: ErrorKind): (code: int)
    ensures code in {StatusBadRequest, StatusForbidden, StatusNotFound, StatusInternalServerError}
    ensures code == StatusNotFound <==> e == NotFound
    ensures code == StatusForbidden <==> e == Unauthorized
    ensures code == StatusBadRequest <==> IsBadRequest(e)
    ensures code == StatusInternalServerError <==> !(e == NotFound || e == Unauthorized || IsBadRequest(e))
  {
    match e
    case NotFound => StatusNotFound
    case Unauthorized => StatusForbidden
    case InvalidEmail | InvalidName => StatusBadRequest
    case InvalidStatus | InvalidStatusChange | InvalidTemplateField => StatusBadRequest
    case _ => StatusInternalServerError
  }

  /** One case of handleError's switch: the kinds it matches and the status
      it answers with. */
  datatype ErrorCase = ErrorCase(kinds: set<ErrorKind>, status: int)

  /** handleError's cases in source order; the default is 500. */
  const ErrorCases: seq<ErrorCase> := [
    ErrorCase({NotFound}, StatusNotFound),
    ErrorCase({Unauthorized}, StatusForbidden),
    ErrorCase({InvalidEmail, InvalidName}, StatusBadRequest),
    ErrorCase({InvalidStatus, InvalidStatusChange, InvalidTemplateField}, StatusBadRequest)
  ]

  /** A switch without a fallthrough: the status of the first case that
      matches, or the default when none does. */
  function FirstMatch(cases: seq<ErrorCase>, e: ErrorKind, default: int): int {
    if cases == [] then default
    else if e in cases[0].kinds then cases[0].status
    else FirstMatch(cases[1..], e, default)
  }

  /** StatusFor answers every kind as handleError's ordered case list does. */
  lemma StatusForIsFirstMatch(e: ErrorKind)
    ensures StatusFor(e) == FirstMatch(ErrorCases, e, StatusInternalServerError)
  {
    var d := StatusInternalServerError;
    var c3 := [ErrorCases[3]];
    assert c3[1..] == [];
    var c2 := [ErrorCases[2]] + c3;
    var c1 := [ErrorCases[1]] + c2;
    assert ErrorCases == [ErrorCases[0]] + c1;
    assert ErrorCases[1..] == c1 && c1[1..] == c2 && c2[1..] == c3;
    assert FirstMatch(c3, e, d) == if e in ErrorCases[3].kinds then StatusBadRequest else d;
    assert FirstMatch(c2, e, d) == if e in ErrorCases[2].kinds then StatusBadRequest else FirstMatch(c3, e, d);
    assert FirstMatch(c1, e, d) == if e == Unauthorized then StatusForbidden else FirstMatch(c2, e, d);
    assert FirstMatch(ErrorCases, e, d) == if e == NotFound then StatusNotFound else FirstMatch(c1, e, d);
  }

  /** Go's int32(x): the low 32 bits of x read as a two's-complement number. */
  function Int32(x: int): (r: int)
    ensures -0x8000_0000 <= r < 0x8000_0000
    ensures (x - r) % 0x1_0000_0000 == 0
    ensures -0x8000_0000 <= x < 0x8000_0000 ==> r == x
  {
    var low := x % 0x1_0000_0000;
    if low >= 0x8000_0000 then low - 0x1_0000_0000 else low
  }

  datatype FieldResponse = FieldResponse(id: string, fieldLabel: string, order: int, isRequired: bool)

  datatype AccountSummary = AccountSummary(id: string, firstName: string, lastName: string)

  datatype TemplateResponse = TemplateResponse(
    id: string,
    name: string,
    ownerId: string,
    owner: AccountSummary,
    fields: seq<FieldResponse>,
    isUsed: bool,
    updatedAt: Time)

  datatype SectionResponse = SectionResponse(
    id: string,
    fieldId: string,
    fieldLabel: string,
    content: string,
    isRequired: bool)

  datatype NoteResponse = NoteResponse(
    id: string,
    title: string,
    templateId: string,
    templateName: string,
    ownerId: string,
    owner: AccountSummary,
    status: NoteStatus,
    sections: seq<SectionResponse>,
    createdAt: Time,
    updatedAt: Time)

  datatype AccountResponse = AccountResponse(
    id: string,
    email: string,
    firstName: string,
    lastName: string,
    fullName: string,
    thumbnail: Option<string>,
    lastLoginAt: Time,
    createdAt: Time,
    updatedAt: Time)

  /** One response field per field, in order, with the order narrowed to
      32 bits. */
  function FieldResponses(fields: seq<Field>): (r: seq<FieldResponse>)
    ensures |r| == |fields|
    ensures forall i :: 0 <= i < |r| ==>
              r[i] == FieldResponse(fields[i].id, fields[i].fieldLabel, Int32(fields[i].order), fields[i].isRequired)
  {
    if fields == [] then []
    else [FieldResponse(fields[0].id, fields[0].fieldLabel, Int32(fields[0].order), fields[0].isRequired)]
         + FieldResponses(fields[1..])
  }

  /** One response section per section, in order. */
  function SectionResponses(sections: seq<SectionWithField>): (r: seq<SectionResponse>)
    ensures |r| == |sections|
    ensures forall i :: 0 <= i < |r| ==>
              r[i] == SectionResponse(sections[i].section.id, sections[i].section.fieldId,
                                      sections[i].fieldLabel, sections[i].section.content,
                                      sections[i].isRequired)
  {
    if sections == [] then []
    else [SectionResponse(sections[0].section.id, sections[0].section.fieldId, sections[0].fieldLabel,
                          sections[0].section.content, sections[0].isRequired)]
         + SectionResponses(sections[1..])
  }

  /** toTemplateResponse: the usage record's own field list (not the
      template's) in number and order, and the template's id, name, owner,
      usage flag and timestamp. */
  function ToTemplateResponse(t: WithUsage): (r: TemplateResponse)
    ensures |r.fields| == |t.fields|
    ensures forall i :: 0 <= i < |t.fields| ==>
              r.fields[i].id == t.fields[i].id && r.fields[i].fieldLabel == t.fields[i].fieldLabel &&
              r.fields[i].isRequired == t.fields[i].isRequired
    ensures r.id == t.template.id && r.name == t.template.name && r.isUsed == t.isUsed
    ensures r.ownerId == t.template.ownerId && r.owner.id == t.template.ownerId
    ensures r.owner.firstName == "" && r.owner.lastName == ""
    ensures r.updatedAt == t.template.updatedAt
    ensures forall i :: 0 <= i < |t.fields| ==> r.fields[i].order == Int32(t.fields[i].order)
  {
    TemplateResponse(t.template.id, t.template.name, t.template.ownerId,
                     AccountSummary(t.template.ownerId, "", ""), FieldResponses(t.fields),
                     t.isUsed, t.template.updatedAt)
  }

  /** toNoteResponse: the joined sections in number and order, with id, field
      id, label, content and required flag copied per section, and the note's
      own values; the owner summary carries only the id. */
  function ToNoteResponse(n: WithMeta): (r: NoteResponse)
    ensures |r.sections| == |n.sections|
    ensures forall i :: 0 <= i < |n.sections| ==>
              r.sections[i].id == n.sections[i].section.id &&
              r.sections[i].fieldId == n.sections[i].section.fieldId &&
              r.sections[i].content == n.sections[i].section.content
    ensures r.id == n.note.id && r.title == n.note.title && r.status == n.note.status
    ensures r.templateId == n.note.templateId && r.templateName == n.templateName
    ensures r.owner == AccountSummary(n.note.ownerId, "", "")
    ensures r.ownerId == n.note.ownerId && r.createdAt == n.note.createdAt && r.updatedAt == n.note.updatedAt
  {
    NoteResponse(n.note.id, n.note.title, n.note.templateId, n.templateName, n.note.ownerId,
                 AccountSummary(n.note.ownerId, "", ""), n.note.status, SectionResponses(n.sections),
                 n.note.createdAt, n.note.updatedAt)
  }

  // ---- reading responses back ----

  /** The field a response field describes. */
  function FieldOf(r: FieldResponse): Field {
    Field(r.id, r.fieldLabel, r.order, r.isRequired)
  }

  /** The fields a list of response fields describes, in order. */
  function FieldsOf(rs: seq<FieldResponse>): (fs: seq<Field>)
    ensures |fs| == |rs|
    ensures forall i :: 0 <= i < |rs| ==> fs[i] == FieldOf(rs[i])
  {
    if rs == [] then [] else [FieldOf(rs[0])] + FieldsOf(rs[1..])
  }

  /** The usage record a template response describes, its template carrying
      the listed fields. */
  function FromTemplateResponse(r: TemplateResponse): WithUsage {
    var fields := FieldsOf(r.fields);
    WithUsage(Template(r.id, r.name, r.ownerId, fields, r.updatedAt), fields, r.isUsed)
  }

  /** Every field order fits Go's int32. */
  predicate OrdersFit32(fields: seq<Field>) {
    forall i :: 0 <= i < |fields| ==> -0x8000_0000 <= fields[i].order < 0x8000_0000
  }

  /** A template response loses nothing of a usage record as the store reads
      it (the template's fields and the record's fields agree) as long as
      every field order fits 32 bits. */
  lemma TemplateResponseRoundTrip(t: WithUsage)
    requires t.template.fields == t.fields
    requires OrdersFit32(t.fields)
    ensures FromTemplateResponse(ToTemplateResponse(t)) == t
  {
    var back := FieldsOf(ToTemplateResponse(t).fields);
    assert |back| == |t.fields|;
    forall i | 0 <= i < |back|
      ensures back[i] == t.fields[i]
    {
    }
  }

  /** Without the 32-bit bound the round trip fails: an order of 2^31 comes
      back as -2^31. */
  lemma LargeOrderWraps()
    ensures var t := Template("t", "name", "owner", [Field("f", "Label", 0x8000_0000, false)], ZeroTime);
            FromTemplateResponse(ToTemplateResponse(WithUsage(t, t.fields, false))).fields[0].order
              == -0x8000_0000
  {
  }

  /** Two notes give the same response exactly when they agree on everything
      but the note's own section list, the owner's full name, and each joined
      section's note id and field order: those are all a response drops. */
  lemma NoteResponseShowsExactly(a: WithMeta, b: WithMeta)
    ensures ToNoteResponse(a) == ToNoteResponse(b) <==>
              && a.note.(sections := []) == b.note.(sections := [])
              && a.templateName == b.templateName
              && |a.sections| == |b.sections|
              && forall i :: 0 <= i < |a.sections| ==>
                   && a.sections[i].section.(noteId := "") == b.sections[i].section.(noteId := "")
                   && a.sections[i].fieldLabel == b.sections[i].fieldLabel
                   && a.sections[i].isRequired == b.sections[i].isRequired
  {
    var ra, rb := SectionResponses(a.sections), SectionResponses(b.sections);
    if ToNoteResponse(a) == ToNoteResponse(b) {
      assert ra == rb;
      forall i | 0 <= i < |a.sections|
        ensures a.sections[i].section.(noteId := "") == b.sections[i].section.(noteId := "")
      {
        assert ra[i] == rb[i];
      }
    }
    if && a.note.(sections := []) == b.note.(sections := [])
       && a.templateName == b.templateName
       && |a.sections| == |b.sections|
       && forall i :: 0 <= i < |a.sections| ==>
            && a.sections[i].section.(noteId := "") == b.sections[i].section.(noteId := "")
            && a.sections[i].fieldLabel == b.sections[i].fieldLabel
            && a.sections[i].isRequired == b.sections[i].isRequired
    {
      forall i | 0 <= i < |ra|
        ensures ra[i] == rb[i]
      {
        assert a.sections[i].section.(noteId := "") == b.sections[i].section.(noteId := "");
      }
      assert ra == rb;
    }
  }

  /** toAccountResponse: the full name is the two names joined by a space
      and trimmed, an empty thumbnail becomes nil, and a nil last login
      becomes the zero time. */
  function ToAccountResponse(a: Account): (r: AccountResponse)
    ensures r.thumbnail.None? <==> a.thumbnail == ""
    ensures ValueOrEmpty(r.thumbnail) == a.thumbnail
    ensures a.lastLoginAt.None? ==> r.lastLoginAt == ZeroTime
    ensures a.lastLoginAt.Some? ==> r.lastLoginAt == a.lastLoginAt.value
    ensures r.id == a.id && r.email == a.email.address
    ensures r.firstName == a.firstName && r.lastName == a.lastName
    ensures r.createdAt == a.createdAt && r.updatedAt == a.updatedAt
  {
    AccountResponse(a.id, a.email.address, a.firstName, a.lastName, TrimSpace(a.firstName + " " + a.lastName),
                    StrPtrOrNil(a.thumbnail), a.lastLoginAt.GetOr(ZeroTime), a.createdAt, a.updatedAt)
  }

  /** The full name is empty exactly when both names are blank. */
  lemma FullNameEmptyIffNamesBlank(a: Account)
    ensures ToAccountResponse(a).fullName == "" <==> Blank(a.firstName) && Blank(a.lastName)
  {
    BlankConcat(a.firstName, " ");
    BlankConcat(a.firstName + " ", a.lastName);
  }

  /** Two names without surrounding white space are joined by one space. */
  lemma FullNameOfTrimmedNames(a: Account)
    requires |a.firstName| > 0 && !IsSpace(a.firstName[0]) && !IsSpace(a.firstName[|a.firstName| - 1])
    requires |a.lastName| > 0 && !IsSpace(a.lastName[0]) && !IsSpace(a.lastName[|a.lastName| - 1])
    ensures ToAccountResponse(a).fullName == a.firstName + " " + a.lastName
  {
    var joined := a.firstName + " " + a.lastName;
    assert joined[0] == a.firstName[0];
    assert joined[|joined| - 1] == a.lastName[|a.lastName| - 1];
    TrimSpaceKeepsTrimmed(joined);
  }
}
