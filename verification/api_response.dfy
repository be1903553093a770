/** The success envelope {status, message, data}. The class is serialised
    with NON_NULL inclusion, so a null field is left out of the JSON object
    rather than written as null: each field is an Option, and EmittedKeys
    says which keys appear. */
module ApiResponses {
  import opened Wrappers

  const SuccessStatus := "success"
  const ErrorStatus := "error"

  datatype ApiResponse<T> = ApiResponse(
    status: Option<string>,
    message: Option<string>,
    data: Option<T>)

  /** The keys of the emitted JSON object: exactly the non-null fields. */
  function EmittedKeys<T>(r: ApiResponse<T>): (keys: set<string>)
    ensures "status" in keys <==> r.status.Some?
    ensures "message" in keys <==> r.message.Some?
    ensures "data" in keys <==> r.data.Some?
    ensures keys <= {"status", "message", "data"}
  {
    (if r.status.Some? then {"status"} else {})
    + (if r.message.Some? then {"message"} else {})
    + (if r.data.Some? then {"data"} else {})
  }

  /** The no-argument constructor: all three fields null. */
  function Empty<T>(): (r: ApiResponse<T>)
    ensures EmittedKeys(r) == {}
  {
    ApiResponse(None, None, None)
  }

  /** new ApiResponse(status, message): data stays null. */
  function WithStatus<T>(status: string, message: string): (r: ApiResponse<T>)
    ensures r.status == Some(status) && r.message == Some(message)
    ensures r.data.None? && "data" !in EmittedKeys(r)
  {
    ApiResponse(Some(status), Some(message), None)
  }

  /** new ApiResponse(status, message, data): a null data argument leaves
      the data field null. */
  function WithData<T>(status: string, message: string, data: Option<T>): (r: ApiResponse<T>)
    ensures r.status == Some(status) && r.message == Some(message)
    ensures r.data == data
    ensures "data" in EmittedKeys(r) <==> data.Some?
  {
    ApiResponse(Some(status), Some(message), data)
  }

  /** ApiResponse.success(message). */
  function Success<T>(message: string): (r: ApiResponse<T>)
    ensures r.status == Some("success") && r.message == Some(message)
    ensures EmittedKeys(r) == {"status", "message"}
  {
    WithStatus(SuccessStatus, message)
  }

  /** ApiResponse.success(message, data). */
  function SuccessWith<T>(message: string, data: Option<T>): (r: ApiResponse<T>)
    ensures r.status == Some("success") && r.message == Some(message)
    ensures r.data == data
    ensures data.None? ==> EmittedKeys(r) == {"status", "message"}
    ensures data.Some? ==> EmittedKeys(r) == {"status", "message", "data"}
  {
    WithData(SuccessStatus, message, data)
  }

  /** ApiResponse.error(message). */
  function Error<T>(message: string): (r: ApiResponse<T>)
    ensures r.status == Some("error") && r.message == Some(message)
    ensures EmittedKeys(r) == {"status", "message"}
  {
    WithStatus(ErrorStatus, message)
  }

  /** setStatus: only status changes. */
  function SetStatus<T>(r: ApiResponse<T>, status: Option<string>): (r': ApiResponse<T>)
    ensures r'.status == status
    ensures r'.message == r.message && r'.data == r.data
  {
    r.(status := status)
  }

  /** setMessage: only message changes. */
  function SetMessage<T>(r: ApiResponse<T>, message: Option<string>): (r': ApiResponse<T>)
    ensures r'.message == message
    ensures r'.status == r.status && r'.data == r.data
  {
    r.(message := message)
  }

  /** setData: only data changes. */
  function SetData<T>(r: ApiResponse<T>, data: Option<T>): (r': ApiResponse<T>)
    ensures r'.data == data
    ensures r'.status == r.status && r'.message == r.message
  {
    r.(data := data)
  }

  /** Setting a field to what it already holds changes nothing, and the three
      setters commute, so a response is determined by the last value given to
      each field. */
  lemma SettersCommute<T>(r: ApiResponse<T>, s: Option<string>, m: Option<string>, d: Option<T>)
    ensures SetStatus(r, r.status) == r && SetMessage(r, r.message) == r && SetData(r, r.data) == r
    ensures SetData(SetMessage(SetStatus(r, s), m), d) == SetStatus(SetMessage(SetData(r, d), m), s)
    ensures SetData(SetMessage(SetStatus(Empty(), s), m), d) == ApiResponse(s, m, d)
  {
  }
}
