/** The trade-list batch endpoint of
    src/app/api/user/tradelist/batch-update/route.ts: the session check, the
    500-item bound, the insert and delete operations it issues against the
    user_trade_list table, and how their errors become one message. The store
    is a function from an operation to its result. */
module TradeListBatchUpdate {
  import opened Types
  import opened Strings
  import opened Api

  const MaxItems := 500
  const Table := "user_trade_list"
  const UnauthorizedMessage := "Unauthorized"
  const UpdatedMessage := "Tradelist updated successfully."
  /** The validation library's message for an over-long array. */
  const TooManyMessage := "Array must contain at most 500 element(s)"

  /** The request body: not an object, or an object whose two fields are each
      an array of strings or missing (None also stands for a value of another type). */
  datatype BatchBody =
    | NotAnObject
    | Fields(toAdd: Option<seq<string>>, toRemove: Option<seq<string>>)

  datatype Record = Record(userId: string, cardIdentifier: string)

  datatype Operation =
    | Insert(table: string, records: seq<Record>)
    | Delete(table: string, userId: string, cardIdentifiers: seq<string>)

  /** The store's answer to one operation: fine, or an error with its message. */
  datatype OpResult = Ok | Failed(message: string)

  // ---------------------------------------------------------------------------
  // Validation

  function ListIssues(list: Option<seq<string>>): (issues: seq<string>)
    ensures issues == [] <==> list.Some? && |list.value| <= MaxItems
  {
    if list.None? then [RequiredMessage]
    else if |list.value| > MaxItems then [TooManyMessage] else []
  }

  datatype Validation = Valid(toAdd: seq<string>, toRemove: seq<string>) | Invalid(errors: Flattened)

  /** `batchUpdateSchema.safeParse(body)`. */
  function Validate(body: BatchBody): (v: Validation)
    ensures v.Valid? <==>
      body.Fields? && body.toAdd.Some? && body.toRemove.Some? &&
      |body.toAdd.value| <= 500 && |body.toRemove.value| <= 500
    ensures v.Valid? ==> v.toAdd == body.toAdd.value && v.toRemove == body.toRemove.value
    ensures v.Invalid? && body.Fields? ==> v.errors.formErrors == [] && v.errors.fieldErrors != []
  {
    match body
    case NotAnObject => Invalid(Flattened([ExpectedObjectMessage], []))
    case Fields(toAdd, toRemove) =>
      var fieldErrors := FieldEntry("toAdd", ListIssues(toAdd)) + FieldEntry("toRemove", ListIssues(toRemove));
      if fieldErrors == [] then Valid(toAdd.value, toRemove.value)
      else Invalid(Flattened([], fieldErrors))
  }

  // ---------------------------------------------------------------------------
  // The plan

  /** `toAdd.map((card_identifier) => ({ user_id: userId, card_identifier }))`. */
  function Records(userId: string, ids: seq<string>): (records: seq<Record>)
    ensures |records| == |ids|
    ensures forall i :: 0 <= i < |ids| ==> records[i] == Record(userId, ids[i])
  {
    if ids == [] then [] else [Record(userId, ids[0])] + Records(userId, ids[1..])
  }

  /** The store operations for one request: an insert of the new records when
      there are any, then a delete of the user's rows for the removed ids when
      there are any. */
  function PlanOf(userId: string, toAdd: seq<string>, toRemove: seq<string>): (ops: seq<Operation>)
    ensures |ops| == (if |toAdd| > 0 then 1 else 0) + (if |toRemove| > 0 then 1 else 0)
    ensures |toAdd| > 0 <==> |ops| > 0 && ops[0] == Insert(Table, Records(userId, toAdd))
    ensures |toRemove| > 0 <==> |ops| > 0 && ops[|ops| - 1] == Delete(Table, userId, toRemove)
  {
    (if |toAdd| > 0 then [Insert(Table, Records(userId, toAdd))] else [])
    + (if |toRemove| > 0 then [Delete(Table, userId, toRemove)] else [])
  }

  /** The operations array, built by conditional pushes. */
  method PlanOperations(userId: string, toAdd: seq<string>, toRemove: seq<string>) returns (ops: seq<Operation>)
    ensures ops == PlanOf(userId, toAdd, toRemove)
  {
    ops := [];
    if |toAdd| > 0 {
      var recordsToAdd := Records(userId, toAdd);
      ops := ops + [Insert(Table, recordsToAdd)];
    }
    if |toRemove| > 0 {
      ops := ops + [Delete(Table, userId, toRemove)];
    }
  }

  /** The messages of the failed results, in operation order. */
  function ErrorMessages(results: seq<OpResult>): (messages: seq<string>)
    ensures |messages| <= |results|
    ensures messages == [] <==> forall k :: 0 <= k < |results| ==> results[k].Ok?
  {
    if results == [] then []
    else if results[0].Failed? then [results[0].message] + ErrorMessages(results[1..])
    else ErrorMessages(results[1..])
  }

  /** `errors.map((e) => e.message).join(", ")` when there is an error. */
  function FoldErrors(results: seq<OpResult>): (folded: Option<string>)
    ensures folded.None? <==> forall k :: 0 <= k < |results| ==> results[k].Ok?
  {
    var messages := ErrorMessages(results);
    if |messages| > 0 then Some(Join(messages, ", ")) else None
  }

  function ResultsOf(ops: seq<Operation>, execute: Operation -> OpResult): (results: seq<OpResult>)
    ensures |results| == |ops|
    ensures forall k :: 0 <= k < |ops| ==> results[k] == execute(ops[k])
  {
    seq(|ops|, k requires 0 <= k < |ops| => execute(ops[k]))
  }

  // ---------------------------------------------------------------------------
  // The handler

  /** POST. `session` is the signed-in user's id, if any; `issued` lists the
      store operations made, in order. */
  method Post(session: Option<string>, body: BatchBody, execute: Operation -> OpResult)
    returns (response: Response, issued: seq<Operation>)
    ensures session.None? ==> response == Response(401, ErrorText(UnauthorizedMessage)) && issued == []
    ensures session.Some? && Validate(body).Invalid? ==>
      response == Response(400, ErrorDetails(Validate(body).errors)) && issued == []
    ensures session.Some? && Validate(body).Valid? ==>
      var v := Validate(body);
      && issued == PlanOf(session.value, v.toAdd, v.toRemove)
      && match FoldErrors(ResultsOf(issued, execute))
         case None => response == Response(200, MessageText(UpdatedMessage))
         case Some(message) => response == Response(500, ErrorText(message))
  {
    if session.None? {
      return Response(401, ErrorText(UnauthorizedMessage)), [];
    }
    var validation := Validate(body);
    if validation.Invalid? {
      return Response(400, ErrorDetails(validation.errors)), [];
    }
    var userId := session.value;
    var operations := PlanOperations(userId, validation.toAdd, validation.toRemove);
    issued := operations;
    var results := ResultsOf(operations, execute);
    var folded := FoldErrors(results);
    if folded.Some? {
      response := Response(500, ErrorText(folded.value));
    } else {
      response := Response(200, MessageText(UpdatedMessage));
    }
  }

  // ---------------------------------------------------------------------------
  // Properties of the handler

  /** Every id of toAdd is inserted, with the session's user id, in order;
      the route applies no rarity rule of its own. */
  lemma InsertsEveryId(userId: string, toAdd: seq<string>, toRemove: seq<string>, i: int)
    requires 0 <= i < |toAdd|
    ensures PlanOf(userId, toAdd, toRemove)[0].Insert?
    ensures PlanOf(userId, toAdd, toRemove)[0].records[i] == Record(userId, toAdd[i])
  {
  }

  /** Two empty lists make no store call and succeed. */
  lemma EmptyBatchSucceeds(userId: string, execute: Operation -> OpResult)
    ensures PlanOf(userId, [], []) == []
    ensures FoldErrors(ResultsOf(PlanOf(userId, [], []), execute)).None?
  {
  }

  /** With both operations failing, the message lists the insert's error first. */
  lemma BothFailJoined(results: seq<OpResult>)
    requires |results| == 2 && results[0].Failed? && results[1].Failed?
    ensures FoldErrors(results) == Some(results[0].message + ", " + results[1].message)
  {
    var a, b := results[0].message, results[1].message;
    assert results[1..][1..] == [];
    assert ErrorMessages(results) == [a, b];
    assert [a, b][1..] == [b];
    assert Join([a, b], ", ") == a + ", " + Join([b], ", ");
  }

  /** With exactly one operation failing, its message is the whole message. */
  lemma OneFailureAlone(results: seq<OpResult>, k: int)
    requires 0 <= k < |results| && results[k].Failed?
    requires forall j :: 0 <= j < |results| && j != k ==> results[j].Ok?
    ensures FoldErrors(results) == Some(results[k].message)
  {
    OnlyFailureMessage(results, k);
  }

  lemma {:induction false} OnlyFailureMessage(results: seq<OpResult>, k: int)
    requires 0 <= k < |results| && results[k].Failed?
    requires forall j :: 0 <= j < |results| && j != k ==> results[j].Ok?
    ensures ErrorMessages(results) == [results[k].message]
  {
    if k > 0 {
      OnlyFailureMessage(results[1..], k - 1);
    } else {
      assert ErrorMessages(results[1..]) == [];
    }
  }

  /** A list over the bound is refused before anything reaches the store. */
  lemma OverBoundRefused(session: string, toAdd: seq<string>, toRemove: seq<string>)
    requires |toAdd| > 500 || |toRemove| > 500
    ensures Validate(Fields(Some(toAdd), Some(toRemove))).Invalid?
    ensures Validate(Fields(Some(toAdd), Some(toRemove))).errors.fieldErrors != []
  {
  }

  /** A request the list editor sends with at most 500 ids each way passes validation unchanged. */
  lemma EditorRequestAccepted(request: ListDiffRequest)
    requires |request.toAdd| <= 500 && |request.toRemove| <= 500
    ensures Validate(Fields(Some(request.toAdd), Some(request.toRemove))) == Valid(request.toAdd, request.toRemove)
  {
  }
}
