/**
 * Protocol messages: a status and an optional key and value, set once when
 * the message is built and only read afterwards.
 */
module Messages {
  import opened Wrappers

  /** The nine message statuses: two requests, seven responses. */
  datatype StatusType =
    | Get | GetError | GetSuccess
    | Put | PutSuccess | PutUpdate | PutError
    | DeleteSuccess | DeleteError

  /** The enum constant's name, the token that opens a frame on the wire. */
  function StatusName(s: StatusType): string {
    match s
    case Get => "GET"
    case GetError => "GET_ERROR"
    case GetSuccess => "GET_SUCCESS"
    case Put => "PUT"
    case PutSuccess => "PUT_SUCCESS"
    case PutUpdate => "PUT_UPDATE"
    case PutError => "PUT_ERROR"
    case DeleteSuccess => "DELETE_SUCCESS"
    case DeleteError => "DELETE_ERROR"
  }

  /** Responses that carry a key and a value. */
  predicate IsSuccess(s: StatusType) {
    s == GetSuccess || s == PutSuccess || s == PutUpdate || s == DeleteSuccess
  }

  /** Responses that carry only a message text. */
  predicate IsError(s: StatusType) {
    s == GetError || s == PutError || s == DeleteError
  }

  /**
   * The switch of the string constructor: a known name selects its status,
   * anything else leaves the status unset (null) without throwing.
   */
  function ParseStatus(t: string): (r: Option<StatusType>)
    ensures r.Some? ==> StatusName(r.value) == t
    ensures r.None? <==> forall s: StatusType :: StatusName(s) != t
  {
    match t
    case "GET" => Some(Get)
    case "GET_ERROR" => Some(GetError)
    case "GET_SUCCESS" => Some(GetSuccess)
    case "PUT" => Some(Put)
    case "PUT_SUCCESS" => Some(PutSuccess)
    case "PUT_UPDATE" => Some(PutUpdate)
    case "PUT_ERROR" => Some(PutError)
    case "DELETE_SUCCESS" => Some(DeleteSuccess)
    case "DELETE_ERROR" => Some(DeleteError)
    case _ => None
  }

  /** A message; `None` in any field stands for Java's null. */
  datatype KVMessage = KVMessage(key: Option<string>, value: Option<string>, status: Option<StatusType>) {
    function GetKey(): Option<string> { key }
    function GetValue(): Option<string> { value }
    function GetStatus(): Option<StatusType> { status }
  }

  /** The constructor taking a status constant: the getters return its arguments. */
  function FromStatus(key: Option<string>, value: Option<string>, status: StatusType): (m: KVMessage)
    ensures m.GetKey() == key && m.GetValue() == value && m.GetStatus() == Some(status)
  {
    KVMessage(key, value, Some(status))
  }

  /**
   * The constructor taking a status name: key and value are kept, and an
   * unknown name leaves the status unset (null) without failing.
   */
  function FromStatusName(key: Option<string>, value: Option<string>, status: string): (m: KVMessage)
    ensures m.GetKey() == key && m.GetValue() == value
    ensures m.GetStatus().None? <==> forall s: StatusType :: StatusName(s) != status
    ensures m.GetStatus().Some? ==> StatusName(m.GetStatus().value) == status
  {
    KVMessage(key, value, ParseStatus(status))
  }

  /** Each of the nine names builds the same message as its constant. */
  lemma NamedConstructorAgreesWithEnum(key: Option<string>, value: Option<string>, s: StatusType)
    ensures FromStatusName(key, value, StatusName(s)) == FromStatus(key, value, s)
  {
  }
}
