/** The JSON bodies and statuses the API routes answer with, and the shape of
    a flattened validation error: a list of form-level messages and, per field
    in the order the schema declares its fields, the messages for that field. */
module Api {

  datatype Flattened = Flattened(formErrors: seq<string>, fieldErrors: seq<(string, seq<string>)>)

  datatype ResponseBody =
    | ErrorDetails(details: Flattened)   // { error: <flattened validation error> }
    | ErrorText(text: string)            // { error: "<message>" }
    | MessageText(text: string)          // { message: "<message>" }

  datatype Response = Response(status: int, body: ResponseBody)

  /** The body the list editor posts to a batch-update route. */
  datatype ListDiffRequest = ListDiffRequest(toAdd: seq<string>, toRemove: seq<string>)

  /** Messages the validation library writes itself for its built-in checks;
      the routes only choose where they are used. */
  const RequiredMessage := "Required"
  const ExpectedObjectMessage := "Expected object"

  /** The entry of a field in the flattened error: absent when it has no messages. */
  function FieldEntry(key: string, messages: seq<string>): (entry: seq<(string, seq<string>)>)
    ensures entry == [] <==> messages == []
    ensures entry != [] ==> entry == [(key, messages)]
  {
    if messages == [] then [] else [(key, messages)]
  }

  /** Every message of a flattened error, form errors first, then each field's
      messages in field order. */
  function AllMessages(f: Flattened): seq<string> {
    f.formErrors + FieldValues(f.fieldErrors)
  }

  /** The values of the field map concatenated in key order (`Object.values(..).flat()`). */
  function FieldValues(entries: seq<(string, seq<string>)>): seq<string> {
    if entries == [] then [] else entries[0].1 + FieldValues(entries[1..])
  }
}
