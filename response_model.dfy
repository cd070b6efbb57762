/** `NecoResponse` of `apis/response/response_model.rs`: the JSON envelope
    every versioned API handler answers with. */
module ResponseModel {
  import opened Wrappers

  /** The HTTP statuses the handlers use. */
  datatype StatusCode = OK | BadRequest | InternalServerError {
    /** `StatusCode::as_u16`: the numeric HTTP status, which fits a `u16`. */
    function AsU16(): (code: nat)
      ensures code < 0x1_0000
      ensures this.OK? ==> code == 200
      ensures this.BadRequest? ==> code == 400
      ensures this.InternalServerError? ==> code == 500
    {
      match this
      case OK => 200
      case BadRequest => 400
      case InternalServerError => 500
    }
  }

  datatype NecoResponse<T> = NecoResponse(status: nat, message: string, data: Option<T>)

  /** `NecoResponse::err`: the status code, the message copied, no data. */
  function Err<T>(status: StatusCode, message: string): (r: NecoResponse<T>)
    ensures r.status == status.AsU16() && r.message == message && r.data.None?
  {
    NecoResponse(status.AsU16(), message, None)
  }

  /** `NecoResponse::ok`: status 200, message "success", the data wrapped in `Some`. */
  function Ok<T>(data: T): (r: NecoResponse<T>)
    ensures r.status == 200 && r.message == "success" && r.data == Some(data)
  {
    NecoResponse(StatusCode.OK.AsU16(), "success", Some(data))
  }

  /** A response carries data exactly when it was built by `ok`; an error
      response is never mistaken for a success. */
  lemma OkAndErrDiffer<T>(data: T, status: StatusCode, message: string)
    ensures Ok(data) != Err<T>(status, message)
    ensures Ok(data).data.Some? && Err<T>(status, message).data.None?
  {
  }

  /** Every status the handlers use is distinct from the others on the wire. */
  lemma StatusCodesDistinct(a: StatusCode, b: StatusCode)
    ensures a.AsU16() == b.AsU16() <==> a == b
  {
  }
}
