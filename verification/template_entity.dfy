/** Template entities (backend-clean/internal/domain/template/entity.go and
    types.go). */
module TemplateDomain {

  import opened Timestamps

  /** One labelled field of a template; `id` is empty until persisted. (Go's
      `Label`; `label` is a Dafny keyword.) */
  datatype Field = Field(id: string, fieldLabel: string, order: int, isRequired: bool)

  datatype Template = Template(
    id: string,
    name: string,
    ownerId: string,
    fields: seq<Field>,
    updatedAt: Time)

  /** A template as the store returns it: the template, its fields once more,
      and whether any note refers to it. */
  datatype WithUsage = WithUsage(template: Template, fields: seq<Field>, isUsed: bool)

  /** The identifiers of a field list, in order. */
  function FieldIds(fields: seq<Field>): (r: seq<string>)
    ensures |r| == |fields|
    ensures forall i :: 0 <= i < |fields| ==> r[i] == fields[i].id
  {
    seq(|fields|, i requires 0 <= i < |fields| => fields[i].id)
  }
}
