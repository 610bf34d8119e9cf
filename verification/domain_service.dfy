/** Domain services shared by the note and template aggregates
    (backend-clean/internal/domain/service). */
module DomainService {

  import opened DomainErrors
  import opened Timestamps
  import opened TemplateDomain
  import opened NoteDomain
  import opened Rules

  /** The section a template field starts with: no id, no note, no content. */
  function EmptySection(fieldId: string): Section {
    Section("", "", fieldId, "")
  }

  /** One empty section per template field, in field order. Only the field ids
      are read. */
  function BuildSectionsFromTemplate(fields: seq<Field>): (r: seq<Section>)
    ensures |r| == |fields|
    ensures forall i :: 0 <= i < |fields| ==>
              r[i].fieldId == fields[i].id && r[i].content == "" && r[i].noteId == "" && r[i].id == ""
  {
    if fields == [] then []
    else [EmptySection(fields[0].id)] + BuildSectionsFromTemplate(fields[1..])
  }

  /** Two field lists with the same ids, in the same order, give the same
      sections: labels, orders and required flags are ignored. */
  lemma {:induction false} BuildSectionsReadsOnlyIds(a: seq<Field>, b: seq<Field>)
    requires FieldIds(a) == FieldIds(b)
    ensures BuildSectionsFromTemplate(a) == BuildSectionsFromTemplate(b)
  {
    var ra, rb := BuildSectionsFromTemplate(a), BuildSectionsFromTemplate(b);
    assert |a| == |FieldIds(a)| == |FieldIds(b)| == |b|;
    forall i | 0 <= i < |ra|
      ensures ra[i] == rb[i]
    {
      assert FieldIds(a)[i] == FieldIds(b)[i];
    }
  }

  /** Checks the note for creation, then its owner, and builds the Draft note.
      ValidateNoteForCreate's error wins over the owner check; any failure
      returns Go's zero Note. On success the note carries exactly the given
      title, template id, owner and sections, and its id and timestamps are
      still zero for the store to assign. */
  function BuildNote(v: Validators, title: string, tpl: Template, ownerId: string,
                     sections: seq<Section>): (r: Returns<Note>)
    ensures r.err == FirstFailure([v.validateNoteForCreate(title, tpl, sections),
                                   Need(ownerId != "", OwnerRequired)])
    ensures r.err.Fail? ==> r.value == ZeroNote
    ensures r.err.Pass? ==>
              && r.value.status == StatusDraft
              && r.value.title == title
              && r.value.templateId == tpl.id
              && r.value.ownerId == ownerId
              && r.value.sections == sections
              && r.value.id == ""
              && r.value.createdAt == ZeroTime && r.value.updatedAt == ZeroTime
  {
    var checked := v.validateNoteForCreate(title, tpl, sections);
    if checked.Fail? then Returns(ZeroNote, checked)
    else if ownerId == "" then Returns(ZeroNote, Fail(OwnerRequired))
    else Returns(Note("", title, tpl.id, ownerId, StatusDraft, sections, ZeroTime, ZeroTime), Pass)
  }

  /** The BuildNote test's cases: a valid request gives a Draft note of
      "owner-1" on "tpl-1"; an empty owner fails with OwnerRequired; an empty
      required section fails with RequiredFieldEmpty. */
  lemma BuildNotePinnedCases(v: Validators)
    requires PinnedByTests(v)
    ensures var ok := BuildNote(v, "Note title", PinnedTemplate, "owner-1",
                                [Section("", "", "f1", "value")]);
            ok.err == Pass && ok.value.status == StatusDraft &&
            ok.value.ownerId == "owner-1" && ok.value.templateId == "tpl-1"
    ensures BuildNote(v, "Note title", PinnedTemplate, "", [Section("", "", "f1", "value")]).err
              == Fail(OwnerRequired)
    ensures BuildNote(v, "Note title", PinnedTemplate, "owner-1", [Section("", "", "f1", "")]).err
              == Fail(RequiredFieldEmpty)
  {
  }

  /** Sections synthesised from the fields f1 "Title" (order 1) and f2
      "Body" (order 2) are two empty sections in the order f1, f2. */
  lemma SynthesisedSectionsExample()
    ensures BuildSectionsFromTemplate([Field("f1", "Title", 1, false), Field("f2", "Body", 2, false)])
              == [EmptySection("f1"), EmptySection("f2")]
  {
  }
}
