/**
 * The wire codec: a message becomes newline-terminated lines closed by a
 * blank line, and a decoder turns an array of lines back into a message.
 */
module Serialization {
  import opened Wrappers
  import opened Lines
  import opened Messages

  /** Java's string concatenation writes a null reference as "null". */
  function Render(s: Option<string>): string {
    match s
    case Some(x) => x
    case None => "null"
  }

  /**
   * The content lines of a serialized message, ahead of its blank
   * terminator: requests carry the key (and for PUT always a value line),
   * success responses key and value, error responses only their text.
   */
  function ContentLines(m: KVMessage): (ls: seq<string>)
    requires m.status.Some?
    ensures |ls| >= 2 && ls[0] == StatusName(m.status.value)
  {
    var s := m.status.value;
    if s == Get then [StatusName(s), Render(m.key)]
    else if s == Put || IsSuccess(s) then [StatusName(s), Render(m.key), Render(m.value)]
    else [StatusName(s), Render(m.value)]
  }

  /** Two lines and a blank terminator, joined. */
  lemma JoinTwoFramed(a: string, b: string)
    ensures JoinLines([a, b, ""]) == a + "\n" + b + "\n\n"
  {
    JoinThree(a, b, "");
    assert a + "\n" + b + "\n" + "" + "\n" == a + "\n" + b + "\n\n";
  }

  /** Three lines and a blank terminator, joined. */
  lemma JoinThreeFramed(a: string, b: string, c: string)
    ensures JoinLines([a, b, c, ""]) == a + "\n" + b + "\n" + c + "\n\n"
  {
    JoinFour(a, b, c, "");
    assert a + "\n" + b + "\n" + c + "\n" + "" + "\n" == a + "\n" + b + "\n" + c + "\n\n";
  }

  /**
   * Encoding by string building; a null status fails the switch with a
   * NullPointerException, so callers must supply one.
   */
  function Serialize(m: KVMessage): (r: string)
    requires m.status.Some?
    ensures r == JoinLines(ContentLines(m) + [""])
  {
    match m.status.value
    case Get =>
      var k := Render(m.key);
      assert ContentLines(m) + [""] == ["GET", k, ""];
      JoinTwoFramed("GET", k);
      "GET\n" + k + "\n\n"
    case Put =>
      var (k, v) := (Render(m.key), Render(m.value));
      assert ContentLines(m) + [""] == ["PUT", k, v, ""];
      JoinThreeFramed("PUT", k, v);
      "PUT\n" + k + "\n" + v + "\n\n"
    case GetSuccess | PutSuccess | PutUpdate | DeleteSuccess =>
      var (t, k, v) := (StatusName(m.status.value), Render(m.key), Render(m.value));
      assert ContentLines(m) + [""] == [t, k, v, ""];
      JoinThreeFramed(t, k, v);
      t + "\n" + k + "\n" + v + "\n\n"
    case GetError | PutError | DeleteError =>
      var (t, v) := (StatusName(m.status.value), Render(m.value));
      assert ContentLines(m) + [""] == [t, v, ""];
      JoinTwoFramed(t, v);
      t + "\n" + v + "\n\n"
  }

  /** Why a line array was not decoded. */
  datatype DecodeError =
    | MissingStatusLine      // lines[0] does not exist
    | InvalidStatusType      // lines[0] is not one of the nine names
    | InvalidArgumentCount   // the line count does not fit the status

  /** Three lines: the status, the key and the blank terminator. */
  function ParseGetRequest(lines: seq<string>): (r: Result<KVMessage, DecodeError>)
    ensures r.Success? <==> |lines| == 3
    ensures r.Failure? ==> r.error == InvalidArgumentCount
    ensures r.Success? ==> r.value.key == Some(lines[1]) && r.value.value.None?
    ensures r.Success? ==> r.value.status == ParseStatus(lines[0])
  {
    if |lines| != 3 then Failure(InvalidArgumentCount)
    else Success(FromStatusName(Some(lines[1]), None, lines[0]))
  }

  /** Three or four lines; the value is present exactly when there are four. */
  function ParsePutRequest(lines: seq<string>): (r: Result<KVMessage, DecodeError>)
    ensures r.Success? <==> 3 <= |lines| <= 4
    ensures r.Failure? ==> r.error == InvalidArgumentCount
    ensures r.Success? ==> r.value.key == Some(lines[1])
    ensures r.Success? ==> (r.value.value.Some? <==> |lines| == 4)
    ensures r.Success? && |lines| == 4 ==> r.value.value == Some(lines[2])
    ensures r.Success? ==> r.value.status == ParseStatus(lines[0])
  {
    if |lines| < 3 || |lines| > 4 then Failure(InvalidArgumentCount)
    else Success(FromStatusName(Some(lines[1]), if |lines| == 4 then Some(lines[2]) else None, lines[0]))
  }

  /** Four lines: status, key, value and the blank terminator. */
  function ParseSuccessResponse(lines: seq<string>): (r: Result<KVMessage, DecodeError>)
    ensures r.Success? <==> |lines| == 4
    ensures r.Failure? ==> r.error == InvalidArgumentCount
    ensures r.Success? ==> r.value.key == Some(lines[1]) && r.value.value == Some(lines[2])
    ensures r.Success? ==> r.value.status == ParseStatus(lines[0])
  {
    if |lines| != 4 then Failure(InvalidArgumentCount)
    else Success(FromStatusName(Some(lines[1]), Some(lines[2]), lines[0]))
  }

  /**
   * Three lines; the key is null and the value is taken from `lines[2]`,
   * the blank terminator, rather than from the message line `lines[1]`.
   */
  function ParseErrorResponse(lines: seq<string>): (r: Result<KVMessage, DecodeError>)
    ensures r.Success? <==> |lines| == 3
    ensures r.Failure? ==> r.error == InvalidArgumentCount
    ensures r.Success? ==> r.value.key.None? && r.value.value == Some(lines[2])
    ensures r.Success? ==> r.value.status == ParseStatus(lines[0])
  {
    if |lines| != 3 then Failure(InvalidArgumentCount)
    else Success(FromStatusName(None, Some(lines[2]), lines[0]))
  }

  /**
   * Decoding dispatches on the status token. An empty array has no
   * `lines[0]` and fails like a malformed one.
   */
  function Unserialize(lines: seq<string>): (r: Result<KVMessage, DecodeError>)
    ensures |lines| == 0 ==> r == Failure(MissingStatusLine)
    ensures |lines| > 0 && ParseStatus(lines[0]).None? ==> r == Failure(InvalidStatusType)
    ensures r.Success? ==> |lines| > 0 && r.value.status == ParseStatus(lines[0]) && r.value.status.Some?
  {
    if |lines| == 0 then Failure(MissingStatusLine)
    else
      match ParseStatus(lines[0])
      case None => Failure(InvalidStatusType)
      case Some(s) =>
        if s == Get then ParseGetRequest(lines)
        else if s == Put then ParsePutRequest(lines)
        else if IsSuccess(s) then ParseSuccessResponse(lines)
        else ParseErrorResponse(lines)
  }

  /** GET decodes exactly from three lines, with key `lines[1]` and a null value. */
  lemma DecodeGetRequest(lines: seq<string>)
    requires |lines| > 0 && lines[0] == "GET"
    ensures Unserialize(lines).Success? <==> |lines| == 3
    ensures |lines| == 3 ==> Unserialize(lines) == Success(KVMessage(Some(lines[1]), None, Some(Get)))
  {
  }

  /** PUT decodes from three or four lines; only four lines carry a value. */
  lemma DecodePutRequest(lines: seq<string>)
    requires |lines| > 0 && lines[0] == "PUT"
    ensures Unserialize(lines).Success? <==> 3 <= |lines| <= 4
    ensures |lines| == 3 ==> Unserialize(lines) == Success(KVMessage(Some(lines[1]), None, Some(Put)))
    ensures |lines| == 4 ==> Unserialize(lines) == Success(KVMessage(Some(lines[1]), Some(lines[2]), Some(Put)))
  {
  }

  /** A success response decodes exactly from four lines. */
  lemma DecodeSuccessResponse(lines: seq<string>, s: StatusType)
    requires IsSuccess(s) && |lines| > 0 && lines[0] == StatusName(s)
    ensures Unserialize(lines).Success? <==> |lines| == 4
    ensures |lines| == 4 ==> Unserialize(lines) == Success(KVMessage(Some(lines[1]), Some(lines[2]), Some(s)))
  {
  }

  /** An error response decodes exactly from three lines, taking `lines[2]` as its value. */
  lemma DecodeErrorResponse(lines: seq<string>, s: StatusType)
    requires IsError(s) && |lines| > 0 && lines[0] == StatusName(s)
    ensures Unserialize(lines).Success? <==> |lines| == 3
    ensures |lines| == 3 ==> Unserialize(lines) == Success(KVMessage(None, Some(lines[2]), Some(s)))
  {
  }

  /** The messages the codec reads back unchanged. */
  predicate RoundTrips(m: KVMessage) {
    && m.status.Some?
    && m.key.Some? && IsLine(m.key.value)
    && match m.status.value
       case Get => m.value.None?
       case Put => m.value.Some? && IsLine(m.value.value)
       case _ => IsSuccess(m.status.value) && m.value.Some? && IsLine(m.value.value)
  }

  lemma StatusNameIsLine(s: StatusType)
    ensures IsLine(StatusName(s))
  {
  }

  /** The lines read back from a serialized message, blank terminator included. */
  lemma ReadBackLines(m: KVMessage)
    requires m.status.Some?
    requires m.key.Some? ==> IsLine(m.key.value)
    requires m.value.Some? ==> IsLine(m.value.value)
    ensures ReadLines(Serialize(m)) == ContentLines(m) + [""]
  {
    StatusNameIsLine(m.status.value);
    var ls := ContentLines(m) + [""];
    forall k | 0 <= k < |ls| ensures IsLine(ls[k]) {
    }
    ReadLinesOfJoinLines(ls);
  }

  /**
   * Round trip: a GET, a PUT with a value, or a success response, read back
   * line by line with its blank terminator, decodes to itself.
   */
  lemma RoundTrip(m: KVMessage)
    requires RoundTrips(m)
    ensures Unserialize(ReadLines(Serialize(m))) == Success(m)
  {
    ReadBackLines(m);
    var lines := ReadLines(Serialize(m));
    var s := m.status.value;
    if s == Get {
      assert lines == ["GET", m.key.value, ""];
      DecodeGetRequest(lines);
    } else if s == Put {
      assert lines == ["PUT", m.key.value, m.value.value, ""];
      DecodePutRequest(lines);
    } else {
      assert lines == [StatusName(s), m.key.value, m.value.value, ""];
      DecodeSuccessResponse(lines, s);
    }
  }

  /** A PUT whose value is null is written with the text "null" as its value line. */
  lemma DeleteRequestReadsBackAsNullText(key: string)
    requires IsLine(key)
    ensures Unserialize(ReadLines(Serialize(KVMessage(Some(key), None, Some(Put)))))
         == Success(KVMessage(Some(key), Some("null"), Some(Put)))
  {
    ReadBackLines(KVMessage(Some(key), None, Some(Put)));
  }

  /** An error response reads back with an empty text: `lines[2]` is the blank terminator. */
  lemma ErrorResponseReadsBackWithoutText(s: StatusType, text: string)
    requires IsError(s) && IsLine(text)
    ensures Unserialize(ReadLines(Serialize(KVMessage(None, Some(text), Some(s)))))
         == Success(KVMessage(None, Some(""), Some(s)))
  {
    var m := KVMessage(None, Some(text), Some(s));
    ReadBackLines(m);
    var lines := ReadLines(Serialize(m));
    assert lines == [StatusName(s), text, ""];
    DecodeErrorResponse(lines, s);
  }
}
