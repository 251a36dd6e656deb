/** The records exchanged with the backend and the shapes of the generated
    form, as declared in src/types/api.ts. */
module ApiTypes {
  import opened Wrappers

  /** The `id` of a chat message: the backend's number, or the temporary
      string the chat panel stores in the same property for a message the
      backend has not confirmed yet. */
  datatype MessageId = ServerId(n: int) | TempId(token: string)

  datatype ChatMessageResponse = ChatMessageResponse(
    id: MessageId,
    message: string,
    isUserMessage: int,   // 0 for the AI, 1 for the user
    createdAt: string,    // ISO date text
    projectId: int)

  datatype ChatMessageCreate = ChatMessageCreate(message: string, isUserMessage: int)

  datatype ProjectResponse = ProjectResponse(id: int, name: string, totalPages: int, createdAt: string)

  datatype PageResponse = PageResponse(
    id: int,
    pageNumber: int,
    textContent: string,
    generatedFormHtml: Option<string>)

  /** A JSON-encoded object of form values, as stored by the backend. */
  datatype FormDataCreate = FormDataCreate(data: string)

  datatype FormDataResponse = FormDataResponse(id: int, data: string, pageId: int)

  /** One element of a validation error's `loc` path. */
  datatype LocPart = LocKey(key: string) | LocIndex(index: int)

  datatype ValidationError = ValidationError(loc: seq<LocPart>, msg: string, errorType: string)

  /** The field kinds the generator is asked to produce. */
  const TextField := "text"
  const MultiLineTextField := "multi-line text"
  const CheckboxField := "checkbox"
  const RadioField := "radio"
  const DropdownField := "dropdown"

  /** One generated field. The `type` comes from an external generator and is
      kept as the raw text it sent, so that unknown kinds can be modelled. */
  datatype FieldDefinition = FieldDefinition(
    fieldType: string,
    labelText: Option<string>,   // `label`
    options: Option<seq<string>>)

  /** `Record<string, FormFieldDefinition>`, in `Object.entries` order. */
  type GeneratedFormFields = seq<(string, FieldDefinition)>

  /** `string | boolean | number | string[]`; numbers are integers here. */
  datatype FormValue = StringValue(s: string) | BoolValue(b: bool) | NumberValue(n: int) | StringList(items: seq<string>)

  type FormValues = map<string, FormValue>
}
