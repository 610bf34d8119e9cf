/** The template aggregate's mutators
    (backend-clean/internal/domain/template/aggregate.go). Go's pointer
    receiver becomes an explicit template in and out. */
module TemplateAggregate {

  import opened Wrappers
  import opened DomainErrors
  import opened TemplateDomain
  import opened Rules

  /** Replaces the field list with its normalised form. The normaliser's error
      comes back untouched and leaves the template as it was; on success the
      fields are exactly the normaliser's output (nil read as empty). Only the
      field list ever changes. */
  function ReplaceFields(v: Validators, t: Template, fields: seq<Field>): (r: Returns<Template>)
    ensures v.normalizeAndValidate(fields).Err? ==>
              r == Returns(t, Fail(v.normalizeAndValidate(fields).error))
    ensures v.normalizeAndValidate(fields).Ok? ==>
              r.err == Pass && r.value.fields == Elements(v.normalizeAndValidate(fields).value)
    ensures r.value.(fields := t.fields) == t
  {
    match v.normalizeAndValidate(fields)
    case Err(e) => Returns(t, Fail(e))
    case Ok(normalized) => Returns(t.(fields := Elements(normalized)), Pass)
  }

  /** Sets the owner. An empty id fails with TemplateOwnerRequired and changes
      nothing; any other id replaces the owner, even one already set (the
      "set owner if empty" doc comment is not enforced). Only the owner ever
      changes. */
  function EnsureOwner(t: Template, ownerId: string): (r: Returns<Template>)
    ensures r.err.Pass? <==> ownerId != ""
    ensures r.err.Fail? ==> r.err.error == TemplateOwnerRequired && r.value == t
    ensures r.err.Pass? ==> r.value.ownerId == ownerId
    ensures r.value.(ownerId := t.ownerId) == t
  {
    if ownerId == "" then Returns(t, Fail(TemplateOwnerRequired))
    else Returns(t.(ownerId := ownerId), Pass)
  }

  /** The aggregate test's cases: the valid two-field list is accepted and
      stored with its two fields; the list with an empty label is refused with
      FieldLabelRequired and the template keeps its fields. */
  lemma ReplaceFieldsPinnedCases(v: Validators, t: Template)
    requires PinnedByTests(v)
    ensures ReplaceFields(v, t, ValidFieldList).err == Pass
    ensures |ReplaceFields(v, t, ValidFieldList).value.fields| == |ValidFieldList|
    ensures ReplaceFields(v, t, UnlabelledFieldList) == Returns(t, Fail(FieldLabelRequired))
  {
  }
}
