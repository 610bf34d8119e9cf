/** Use-case input structs (backend-clean/internal/port/note_port.go and
    template_port.go). A nil slice that the use case tests with `!= nil` is an
    `Option`; one that is only measured with `len` is a plain sequence. */
module Ports {

  import opened Wrappers
  import opened TemplateDomain
  import opened NoteDomain

  /** Caller-supplied content for one field. */
  datatype SectionInput = SectionInput(fieldId: string, content: string)

  datatype NoteCreateInput = NoteCreateInput(
    title: string,
    templateId: string,
    ownerId: string,
    sections: seq<SectionInput>)

  /** The port declares the update's sections as `[]SectionUpdateInput`
      (section id, content), yet note_interactor.go hands them to
      `buildSections`, whose parameter is `[]SectionInput`; the source does not
      type-check there. Section edits are read as (field id, content) pairs,
      the only reading under which that call means anything. */
  datatype NoteUpdateInput = NoteUpdateInput(
    id: string,
    title: string,
    ownerId: string,
    sections: Option<seq<SectionInput>>)

  datatype NoteStatusChangeInput = NoteStatusChangeInput(
    id: string,
    ownerId: string,
    status: NoteStatus)

  datatype TemplateCreateInput = TemplateCreateInput(
    name: string,
    ownerId: string,
    fields: seq<Field>)

  /** `ownerId` is carried but never read by the use case. */
  datatype TemplateUpdateInput = TemplateUpdateInput(
    id: string,
    name: string,
    fields: Option<seq<Field>>,
    ownerId: string)
}
