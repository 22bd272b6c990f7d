/** The application's last middleware: it turns whatever a handler threw
    into an ApiError and answers with that error's status. */
module ErrorHandler {
  import opened Common

  /** A thrown value, as far as the handler inspects it. An ApiError always
      carries a status; any other error (an ORM error, a TypeError, a JWT
      error, a cast error) may carry an ORM `code`, the ORM's `meta.target`,
      a `statusCode`, a message and an `errors` list. */
  datatype Thrown =
    | ApiError(statusCode: int, message: string, errors: seq<string>, stack: string)
    | Other(code: Option<string>, metaTarget: Option<seq<string>>, status: Option<int>,
            message: string, errorList: Option<seq<string>>, stack: string)

  /** The JSON body of an error response. */
  datatype Body = Body(statusCode: int, message: string, errors: seq<string>, success: bool, stack: Option<string>)

  /** What goes on the wire: the HTTP status and the body. */
  datatype Response = Response(status: int, body: Body)

  function Code(err: Thrown): Option<string> {
    if err.Other? then err.code else None
  }

  /** `meta?.target?.[0] || 'Field'`. */
  function DuplicateField(err: Thrown): (f: string)
    ensures f != ""
    ensures err.Other? && err.metaTarget.Some? && |err.metaTarget.value| > 0 && err.metaTarget.value[0] != "" ==> f == err.metaTarget.value[0]
  {
    if err.Other? && err.metaTarget.Some? && |err.metaTarget.value| > 0 && err.metaTarget.value[0] != ""
    then err.metaTarget.value[0] else "Field"
  }

  /** The ORM error codes the handler maps: P2002 (unique constraint) and
      P2025 (record not found). A mapped error gets a stack of its own,
      `freshStack`. */
  function MapOrmError(err: Thrown, freshStack: string): (e: Thrown)
    ensures Code(err) == Some("P2002") ==> e == ApiError(409, DuplicateField(err) + " already exists", [], freshStack)
    ensures Code(err) == Some("P2025") ==> e == ApiError(404, "Record not found", [], freshStack)
    ensures Code(err) != Some("P2002") && Code(err) != Some("P2025") ==> e == err
  {
    if Code(err) == Some("P2002") then ApiError(409, DuplicateField(err) + " already exists", [], freshStack)
    else if Code(err) == Some("P2025") then ApiError(404, "Record not found", [], freshStack)
    else err
  }

  /** Any error that is not an ApiError becomes one: its own status if it
      has a truthy one, else 500; its own message if non-empty, else the
      default; its own `errors` or none; and its original stack. */
  function Normalise(err: Thrown): (e: Thrown)
    ensures e.ApiError?
    ensures err.ApiError? ==> e == err
    ensures err.Other? ==> e.stack == err.stack && e.errors == err.errorList.GetOr([])
    ensures err.Other? ==> (e.statusCode == 500 <==> err.status.None? || err.status.value in {0, 500})
    ensures err.Other? && err.status.Some? && err.status.value != 0 ==> e.statusCode == err.status.value
    ensures err.Other? ==> (e.message == "Something went wrong" <==> err.message in {"", "Something went wrong"})
    ensures err.Other? && err.message != "" ==> e.message == err.message
  {
    match err
    case ApiError(_, _, _, _) => err
    case Other(_, _, statusCode, message, errors, stack) =>
      var status := if statusCode.Some? && statusCode.value != 0 then statusCode.value else 500;
      var msg := if message != "" then message else "Something went wrong";
      ApiError(status, msg, errors.GetOr([]), stack)
  }

  /** Normalising an error twice is the same as normalising it once. */
  lemma NormaliseIdempotent(err: Thrown)
    ensures Normalise(Normalise(err)) == Normalise(err)
  {
  }

  /** `errorHandler`: map ORM codes, normalise, and answer with the
      normalised status; the stack is exposed only in development. */
  function Handle(err: Thrown, nodeEnv: string, freshStack: string): (r: Response)
    ensures r.status == r.body.statusCode
    ensures r.body.stack.Some? <==> nodeEnv == "development"
    ensures !r.body.success
    ensures Code(err) == Some("P2002") ==> r.status == 409 && r.body.message == DuplicateField(err) + " already exists"
    ensures Code(err) == Some("P2025") ==> r.status == 404 && r.body.message == "Record not found"
    ensures err.ApiError? ==> r.status == err.statusCode && r.body.message == err.message && r.body.errors == err.errors
    ensures err.Other? && Code(err) != Some("P2002") && Code(err) != Some("P2025") ==>
      && r.status == (if err.status.Some? && err.status.value != 0 then err.status.value else 500)
      && r.body.message == (if err.message != "" then err.message else "Something went wrong")
      && r.body.errors == err.errorList.GetOr([])
  {
    var e := Normalise(MapOrmError(err, freshStack));
    Response(e.statusCode, Body(e.statusCode, e.message, e.errors, false,
                                if nodeEnv == "development" then Some(e.stack) else None))
  }

  /** The answer to an error does not depend on the environment except for
      the stack. */
  lemma OnlyStackDependsOnMode(err: Thrown, env1: string, env2: string, freshStack: string)
    ensures Handle(err, env1, freshStack).status == Handle(err, env2, freshStack).status
    ensures Handle(err, env1, freshStack).body.(stack := None) == Handle(err, env2, freshStack).body.(stack := None)
  {
  }
}
