/** Note entities (backend-clean/internal/domain/note/entity.go and types.go). */
module NoteDomain {

  import opened Timestamps

  /** A note status is any string; only "Draft" and "Publish" are named. */
  type NoteStatus = string

  const StatusDraft: NoteStatus := "Draft"
  const StatusPublish: NoteStatus := "Publish"

  /** A note's content for one template field; `id` is empty until persisted. */
  datatype Section = Section(id: string, noteId: string, fieldId: string, content: string)

  datatype Note = Note(
    id: string,
    title: string,
    templateId: string,
    ownerId: string,
    status: NoteStatus,
    sections: seq<Section>,
    createdAt: Time,
    updatedAt: Time)

  /** Go's zero `note.Note{}`. */
  const ZeroNote := Note("", "", "", "", "", [], ZeroTime, ZeroTime)

  /** A section joined with its field's label, order and required flag. */
  datatype SectionWithField = SectionWithField(
    section: Section,
    fieldLabel: string,
    fieldOrder: int,
    isRequired: bool)

  /** A note as the store presents it, with read-side metadata. */
  datatype WithMeta = WithMeta(
    note: Note,
    templateName: string,
    ownerFullName: string,
    sections: seq<SectionWithField>)
}
