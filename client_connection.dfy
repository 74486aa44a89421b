/**
 * One client connection on the server side: lines read from the socket are
 * gathered into frames ended by a blank line, each frame is decoded, and
 * each GET or PUT request is answered with exactly one message.
 */
module Connection {
  import opened Wrappers
  import opened Lines
  import opened Messages
  import opened Serialization
  import opened PersistentStorage
  import opened StrategyCache
  import opened CachedStore
  import opened Server

  /** The most lines a frame may have before its blank line. */
  const MAX_REQUEST_LINES: nat := 1024

  const INVALID_REQUEST: string := "Invalid request"
  const KEY_NOT_FOUND: string := "Specified key not found"
  const PROCESSING_ERROR: string := "Error while processing request"

  /** The answer to a frame that does not decode. */
  const InvalidRequestResponse: KVMessage := KVMessage(None, Some(INVALID_REQUEST), Some(GetError))

  // ---------------------------------------------------------------------
  // Choosing the response

  /**
   * The answer to a GET: the key and the fetched value when the read
   * succeeded; otherwise an error without a key, whose text says whether
   * the key was missing.
   */
  function GetResponse(key: Option<string>, fetched: Result<Option<string>, StorageError>): (m: KVMessage)
    ensures m.status == Some(if fetched.Success? then GetSuccess else GetError)
    ensures fetched.Success? ==> m.key == key && m.value == fetched.value
    ensures fetched.Failure? ==>
      m.key.None? && m.value == Some(if fetched.error == NotFound then KEY_NOT_FOUND else PROCESSING_ERROR)
  {
    match fetched
    case Success(value) => KVMessage(key, value, Some(GetSuccess))
    case Failure(NotFound) => KVMessage(None, Some(KEY_NOT_FOUND), Some(GetError))
    case Failure(_) => KVMessage(None, Some(PROCESSING_ERROR), Some(GetError))
  }

  /**
   * The answer to a PUT, given whether the key was stored before the
   * write: on success it echoes the key and value and says whether the
   * key was new, updated or deleted; on failure it is an error without a
   * key, a delete error exactly when the value was null.
   */
  function PutResponse(key: Option<string>, value: Option<string>, wasStored: bool,
                       outcome: Outcome<StorageError>): (m: KVMessage)
    ensures m.status.Some? && (IsSuccess(m.status.value) <==> outcome.Pass?)
    ensures outcome.Pass? ==> m.key == key && m.value == value
    ensures outcome.Pass? ==> (m.status == Some(PutSuccess) <==> !wasStored)
    ensures outcome.Pass? ==> (m.status == Some(PutUpdate) <==> wasStored && value.Some?)
    ensures outcome.Pass? ==> (m.status == Some(DeleteSuccess) <==> wasStored && value.None?)
    ensures outcome.Fail? ==> m.key.None? && m.value == Some(PROCESSING_ERROR)
    ensures outcome.Fail? ==> m.status == Some(if value.None? then DeleteError else PutError)
  {
    if outcome.Fail? then
      KVMessage(None, Some(PROCESSING_ERROR), Some(if value.None? then DeleteError else PutError))
    else if !wasStored then KVMessage(key, value, Some(PutSuccess))
    else if value.None? then KVMessage(key, value, Some(DeleteSuccess))
    else KVMessage(key, value, Some(PutUpdate))
  }

  /**
   * A delete of a key that is not stored is never answered with success:
   * the server reports it as not found, which the connection turns into a
   * delete error.
   */
  lemma DeleteOfMissingKeyIsAnError(directory: map<string, string>, key: string, faults: FsFaults)
    requires key !in directory
    ensures PutResponse(Some(key), None, key in directory, PutOutcome(directory, key, None, faults))
         == KVMessage(None, Some(PROCESSING_ERROR), Some(DeleteError))
  {
  }

  /** Whether the frame decodes to a request with status `s`. */
  predicate IsRequest(lines: seq<string>, s: StatusType) {
    Unserialize(lines).Success? && Unserialize(lines).value.status == Some(s)
  }

  /** Frames that get an answer: those that do not decode, and GET and PUT requests. */
  predicate Responds(lines: seq<string>) {
    Unserialize(lines).Failure? || IsRequest(lines, Get) || IsRequest(lines, Put)
  }

  /** A decoded request carries the key of its second line. */
  lemma RequestKey(lines: seq<string>)
    requires IsRequest(lines, Get) || IsRequest(lines, Put)
    ensures 1 < |lines| && Unserialize(lines).value.key == Some(lines[1])
  {
    if IsRequest(lines, Get) {
      DecodeGetRequest(lines);
    } else {
      DecodePutRequest(lines);
    }
  }

  /**
   * The answer a frame gets from a server in state `view`: the invalid
   * request error when it does not decode, the answer to the read for a
   * GET, the answer to the put, which samples whether the key was stored
   * beforehand, for a PUT, and nothing for any other status.
   */
  function FrameAnswer(lines: seq<string>, view: ServerView, faults: FsFaults): (a: seq<KVMessage>)
    ensures |a| == if Responds(lines) then 1 else 0
  {
    if Unserialize(lines).Failure? then [InvalidRequestResponse]
    else if IsRequest(lines, Get) then
      RequestKey(lines);
      [GetResponse(Some(lines[1]), ReadThrough(view.cached, view.stored, lines[1], faults))]
    else if IsRequest(lines, Put) then
      RequestKey(lines);
      var value := Unserialize(lines).value.value;
      [PutResponse(Some(lines[1]), value, lines[1] in view.stored,
                   PutOutcome(view.stored, lines[1], value, faults))]
    else []
  }

  /**
   * How a frame changes both tiers: only a PUT changes the pairs, as the
   * put does. (A GET hit also updates the policy's own data, which a
   * `ServerView` does not hold.)
   */
  ghost predicate FrameStep(lines: seq<string>, faults: FsFaults, before: ServerView, after: ServerView) {
    if IsRequest(lines, Put) then
      RequestKey(lines);
      PutStep(before, lines[1], Unserialize(lines).value.value, faults, after)
    else after == before
  }

  // ---------------------------------------------------------------------
  // Gathering frames

  /**
   * The frames handed on so far, the lines buffered since the last blank
   * line, and whether a line arrived with the buffer already full.
   */
  datatype Accumulation = Accumulation(frames: seq<seq<string>>, buffer: seq<string>, overflow: bool)

  /**
   * One line more: a blank line hands on the buffer and empties it; any
   * other line is buffered unless the buffer is full, which ends the
   * connection; after that nothing changes.
   */
  function Feed(acc: Accumulation, line: string): Accumulation {
    if acc.overflow then acc
    else if line == "" then Accumulation(acc.frames + [acc.buffer], [], false)
    else if |acc.buffer| == MAX_REQUEST_LINES then acc.(overflow := true)
    else acc.(buffer := acc.buffer + [line])
  }

  /** The result of feeding the lines in order to an empty accumulation. */
  function Accumulate(received: seq<string>): Accumulation
    decreases |received|
  {
    if received == [] then Accumulation([], [], false)
    else Feed(Accumulate(received[..|received| - 1]), received[|received| - 1])
  }

  /** No frame or buffer holds a blank line or more than the maximum number of lines. */
  ghost predicate WellFormed(acc: Accumulation) {
    && |acc.buffer| <= MAX_REQUEST_LINES && "" !in acc.buffer
    && forall k :: 0 <= k < |acc.frames| ==> |acc.frames[k]| <= MAX_REQUEST_LINES && "" !in acc.frames[k]
  }

  lemma {:induction false} AccumulateIsWellFormed(received: seq<string>)
    ensures WellFormed(Accumulate(received))
  {
    if received != [] {
      AccumulateIsWellFormed(received[..|received| - 1]);
    }
  }

  lemma AccumulateSnoc(received: seq<string>, line: string)
    ensures Accumulate(received + [line]) == Feed(Accumulate(received), line)
  {
    assert (received + [line])[..|received|] == received;
  }

  /** The lines read so far, one more. */
  lemma AccumulateNext(received: seq<string>, n: nat)
    requires n < |received|
    ensures Accumulate(received[..n + 1]) == Feed(Accumulate(received[..n]), received[n])
  {
    assert received[..n + 1] == received[..n] + [received[n]];
    AccumulateSnoc(received[..n], received[n]);
  }

  /** Reading may stop early only once a line has overflowed the buffer. */
  lemma AccumulateDone(received: seq<string>, n: nat)
    requires n <= |received| && (n == |received| || Accumulate(received[..n]).overflow)
    ensures Accumulate(received) == Accumulate(received[..n])
  {
    if n < |received| {
      OverflowIsFinal(received[..n], received[n..]);
      assert received[..n] + received[n..] == received;
    } else {
      assert received[..n] == received;
    }
  }

  /** Once a line has overflowed the buffer, whatever follows is ignored. */
  lemma {:induction false} OverflowIsFinal(received: seq<string>, rest: seq<string>)
    requires Accumulate(received).overflow
    ensures Accumulate(received + rest) == Accumulate(received)
  {
    if rest != [] {
      var front := rest[..|rest| - 1];
      OverflowIsFinal(received, front);
      assert received + rest == (received + front) + [rest[|rest| - 1]];
      AccumulateSnoc(received + front, rest[|rest| - 1]);
    } else {
      assert received + rest == received;
    }
  }

  /** Lines that may form a frame: at most the maximum, none blank. */
  predicate IsFrame(f: seq<string>) {
    |f| <= MAX_REQUEST_LINES && "" !in f
  }

  /** Frames as a client sends them: each followed by a blank line. */
  function Framed(fs: seq<seq<string>>): seq<string>
    decreases |fs|
  {
    if fs == [] then [] else Framed(fs[..|fs| - 1]) + fs[|fs| - 1] + [""]
  }

  /** Lines of one frame join the buffer in order. */
  lemma {:induction false} AccumulateBuffers(received: seq<string>, f: seq<string>)
    requires !Accumulate(received).overflow && Accumulate(received).buffer == []
    requires IsFrame(f)
    ensures Accumulate(received + f) == Accumulate(received).(buffer := f)
  {
    if f != [] {
      var front, last := f[..|f| - 1], f[|f| - 1];
      AccumulateBuffers(received, front);
      var acc := Accumulate(received + front);
      assert acc == Accumulate(received).(buffer := front);
      assert last in f && last != "" && |front| < MAX_REQUEST_LINES;
      assert Feed(acc, last) == Accumulate(received).(buffer := f) by {
        assert front + [last] == f;
      }
      assert received + f == (received + front) + [last];
      AccumulateSnoc(received + front, last);
    } else {
      assert received + f == received;
    }
  }

  /** Frames sent with their blank lines are gathered back exactly, with nothing left over. */
  lemma {:induction false} AccumulateFramed(fs: seq<seq<string>>)
    requires forall k :: 0 <= k < |fs| ==> IsFrame(fs[k])
    ensures Accumulate(Framed(fs)) == Accumulation(fs, [], false)
  {
    if fs != [] {
      var front, f := fs[..|fs| - 1], fs[|fs| - 1];
      AccumulateFramed(front);
      AccumulateBuffers(Framed(front), f);
      AccumulateSnoc(Framed(front) + f, "");
      assert front + [f] == fs;
    }
  }

  /** How many of the frames get an answer. */
  function CountResponding(frames: seq<seq<string>>): nat
    decreases |frames|
  {
    if frames == [] then 0
    else CountResponding(frames[..|frames| - 1]) + (if Responds(frames[|frames| - 1]) then 1 else 0)
  }

  /** The faults given for the frame with this number; none unless given. */
  function FaultsFor(faults: map<nat, FsFaults>, frameNo: nat): FsFaults {
    if frameNo in faults then faults[frameNo] else NoFaults
  }

  /**
   * `views` is the server state before each of the frames and after the
   * last one, each state following from the one before by handling that
   * frame.
   */
  ghost predicate Steps(frames: seq<seq<string>>, faults: map<nat, FsFaults>, views: seq<ServerView>) {
    && |views| == |frames| + 1
    && forall k :: 0 <= k < |frames| ==> FrameStep(frames[k], FaultsFor(faults, k), views[k], views[k + 1])
  }

  /** The answers to the frames in order, each given by the state `views` holds before it. */
  function Answers(frames: seq<seq<string>>, faults: map<nat, FsFaults>, views: seq<ServerView>)
    : seq<KVMessage>
    requires |frames| < |views|
    decreases |frames|
  {
    if frames == [] then []
    else
      var n := |frames| - 1;
      Answers(frames[..n], faults, views) + FrameAnswer(frames[n], views[n], FaultsFor(faults, n))
  }

  /** States after the last frame play no part in the answers. */
  lemma {:induction false} AnswersIgnoreLaterViews(frames: seq<seq<string>>, faults: map<nat, FsFaults>,
                                                   views: seq<ServerView>, later: seq<ServerView>)
    requires |frames| < |views|
    ensures Answers(frames, faults, views + later) == Answers(frames, faults, views)
  {
    if frames != [] {
      var n := |frames| - 1;
      AnswersIgnoreLaterViews(frames[..n], faults, views, later);
      assert (views + later)[n] == views[n];
    }
  }

  /** One frame more adds that frame's answer, given by the state before it. */
  lemma AnswersSnoc(frames: seq<seq<string>>, f: seq<string>, faults: map<nat, FsFaults>,
                    views: seq<ServerView>, v: ServerView)
    requires |views| == |frames| + 1
    ensures Answers(frames + [f], faults, views + [v])
         == Answers(frames, faults, views) + FrameAnswer(f, views[|frames|], FaultsFor(faults, |frames|))
  {
    assert (frames + [f])[..|frames|] == frames;
    AnswersIgnoreLaterViews(frames, faults, views, [v]);
  }

  /** One frame more, handled from the last state, extends the steps. */
  lemma StepsSnoc(frames: seq<seq<string>>, f: seq<string>, faults: map<nat, FsFaults>,
                  views: seq<ServerView>, v: ServerView)
    requires Steps(frames, faults, views)
    requires FrameStep(f, FaultsFor(faults, |frames|), views[|frames|], v)
    ensures Steps(frames + [f], faults, views + [v])
  {
    var frames', views' := frames + [f], views + [v];
    forall k | 0 <= k < |frames'|
      ensures FrameStep(frames'[k], FaultsFor(faults, k), views'[k], views'[k + 1])
    {
      if k < |frames| {
        assert frames'[k] == frames[k] && views'[k] == views[k] && views'[k + 1] == views[k + 1];
      }
    }
  }

  /**
   * Starting from `handled0` handled, `sent0` sent and the state `view0`,
   * exactly `frames` were handled, leaving `handled`; the server went
   * through the states `views`, ending in `view`; and `output` is what
   * was sent before plus the frames' answers.
   */
  ghost predicate Replayed(frames: seq<seq<string>>, faults: map<nat, FsFaults>, handled0: seq<seq<string>>,
                           sent0: seq<KVMessage>, view0: ServerView, views: seq<ServerView>,
                           handled: seq<seq<string>>, output: seq<KVMessage>, view: ServerView)
  {
    && handled == handled0 + frames
    && Steps(frames, faults, views) && views[0] == view0 && views[|frames|] == view
    && output == sent0 + Answers(frames, faults, views)
  }

  /** Handling one more frame from the last state extends the replay by its step and its answer. */
  lemma ReplayedSnoc(frames: seq<seq<string>>, f: seq<string>, faults: map<nat, FsFaults>,
                     handled0: seq<seq<string>>, sent0: seq<KVMessage>, view0: ServerView,
                     views: seq<ServerView>, handled: seq<seq<string>>, output: seq<KVMessage>,
                     view: ServerView, view': ServerView)
    requires Replayed(frames, faults, handled0, sent0, view0, views, handled, output, view)
    requires FrameStep(f, FaultsFor(faults, |frames|), view, view')
    ensures Replayed(frames + [f], faults, handled0, sent0, view0, views + [view'], handled + [f],
                     output + FrameAnswer(f, view, FaultsFor(faults, |frames|)), view')
  {
    StepsSnoc(frames, f, faults, views, view');
    AnswersSnoc(frames, f, faults, views, view');
    assert handled0 + (frames + [f]) == handled0 + frames + [f];
  }

  /** Every frame that gets an answer gets exactly one, and no other frame gets one. */
  lemma {:induction false} AnswersCount(frames: seq<seq<string>>, faults: map<nat, FsFaults>,
                                        views: seq<ServerView>)
    requires |frames| < |views|
    ensures |Answers(frames, faults, views)| == CountResponding(frames)
  {
    if frames != [] {
      AnswersCount(frames[..|frames| - 1], faults, views);
    }
  }

  // ---------------------------------------------------------------------
  // What a client's own messages turn into

  /**
   * A GET as the client serializes it arrives as the two-line frame
   * status, key, which decoding rejects: decoding a GET wants the blank
   * terminator as a third line, and the connection strips it.
   */
  lemma ClientGetIsRejected(key: string)
    requires IsLine(key) && key != ""
    ensures Accumulate(ReadLines(Serialize(KVMessage(Some(key), None, Some(Get))))).frames == [["GET", key]]
    ensures Unserialize(["GET", key]) == Failure(InvalidArgumentCount)
  {
    var m := KVMessage(Some(key), None, Some(Get));
    ReadBackLines(m);
    assert ReadLines(Serialize(m)) == Framed([["GET", key]]);
    AccumulateFramed([["GET", key]]);
    DecodeGetRequest(["GET", key]);
  }

  /**
   * A PUT with a value arrives as the three-line frame status, key,
   * value, which decodes as a PUT with a null value, that is a delete.
   */
  lemma ClientPutArrivesAsDelete(key: string, value: string)
    requires IsLine(key) && key != "" && IsLine(value) && value != ""
    ensures Accumulate(ReadLines(Serialize(KVMessage(Some(key), Some(value), Some(Put))))).frames
         == [["PUT", key, value]]
    ensures Unserialize(["PUT", key, value]) == Success(KVMessage(Some(key), None, Some(Put)))
  {
    var m := KVMessage(Some(key), Some(value), Some(Put));
    ReadBackLines(m);
    assert ReadLines(Serialize(m)) == Framed([["PUT", key, value]]);
    AccumulateFramed([["PUT", key, value]]);
    DecodePutRequest(["PUT", key, value]);
  }

  class ClientConnection {
    const server: KVServer
    var isOpen: bool
    /** The messages sent back, in order. */
    var output: seq<KVMessage>
    /** The frames handed to `HandleRequest`, in order. */
    ghost var handled: seq<seq<string>>

    ghost predicate Valid()
      reads this, server, server.Repr
    {
      server.Valid() && this !in server.Repr
    }

    constructor (server: KVServer)
      requires server.Valid()
      ensures Valid() && this.server == server && isOpen && output == [] && handled == []
    {
      this.server := server;
      isOpen := true;
      output := [];
      handled := [];
    }

    /** Sending is appending to the output. */
    method SendResponse(response: KVMessage)
      modifies this`output
      ensures output == old(output) + [response]
    {
      output := output + [response];
    }

    /** Reads the key and answers with its value or with the reason it could not be read. */
    method HandleGetRequest(request: KVMessage, faults: FsFaults)
      requires Valid() && request.key.Some?
      modifies this`output, server.cachedStorage.cache.Repr
      ensures Valid()
      ensures output == old(output) + [GetResponse(request.key,
                                                   ReadThrough(old(server.Cached()), old(server.Stored()),
                                                               request.key.value, faults))]
      ensures server.View() == old(server.View())
      ensures request.key.value in old(server.Cached()) ==> server.cachedStorage.cache.Touched(request.key.value)
      ensures request.key.value !in old(server.Cached()) ==> unchanged(server.cachedStorage.cache.Repr)
    {
      ghost var view0 := server.View();
      var value := server.GetKV(request.key.value, faults);
      assert server.View() == view0;
      SendResponse(GetResponse(request.key, value));
    }

    /** Samples whether the key is stored, then performs the put on the server. */
    method PerformPut(key: string, value: Option<string>, faults: FsFaults)
      returns (isInStorage: bool, outcome: Outcome<StorageError>)
      requires Valid()
      modifies server.Repr
      ensures Valid()
      ensures isInStorage == (key in old(server.Stored()))
      ensures outcome == PutOutcome(old(server.Stored()), key, value, faults)
      ensures PutStep(old(server.View()), key, value, faults, server.View())
      ensures outcome.Fail? ==> unchanged(server.cachedStorage.cache.Repr)
    {
      isInStorage := server.InStorage(key);
      outcome := server.PutKV(key, value, faults);
    }

    /** Samples whether the key is stored, performs the put, and answers with the outcome. */
    method HandlePutRequest(request: KVMessage, faults: FsFaults)
      requires Valid() && request.key.Some?
      modifies this`output, server.Repr
      ensures Valid()
      ensures output == old(output) + [PutResponse(request.key, request.value,
                                                   request.key.value in old(server.Stored()),
                                                   PutOutcome(old(server.Stored()), request.key.value,
                                                              request.value, faults))]
      ensures PutStep(old(server.View()), request.key.value, request.value, faults, server.View())
      ensures PutOutcome(old(server.Stored()), request.key.value, request.value, faults).Fail? ==>
        unchanged(server.cachedStorage.cache.Repr)
    {
      ghost var view0 := server.View();
      var isInStorage, outcome := PerformPut(request.key.value, request.value, faults);
      ghost var view1 := server.View();
      SendResponse(PutResponse(request.key, request.value, isInStorage, outcome));
      assert server.View() == view1;
    }

    /**
     * What handling `lines` did beyond the pairs, given the state before:
     * a GET of a cached key touched the policy's data as `Touched` says, a
     * PUT that failed left the cache untouched, and any frame other than a
     * PUT or such a GET left the server untouched.
     */
    twostate predicate PolicyEffect(lines: seq<string>, faults: FsFaults,
                                    cachedBefore: map<string, string>, storedBefore: map<string, string>)
      requires server.Valid()
      reads server, server.Repr
    {
      if IsRequest(lines, Get) && 1 < |lines| && lines[1] in cachedBefore then
        server.cachedStorage.cache.Touched(lines[1])
      else if IsRequest(lines, Put) && 1 < |lines| then
        PutOutcome(storedBefore, lines[1], Unserialize(lines).value.value, faults).Fail? ==>
          unchanged(server.cachedStorage.cache.Repr)
      else
        unchanged(server.Repr)
    }

    /**
     * Decodes one frame: a frame that does not decode gets the invalid
     * request error, a GET or PUT gets its one answer, any other status
     * gets none. Only a PUT changes the pairs either tier holds; a GET of
     * a cached key updates the policy's recency or usage data, a PUT
     * that failed leaves the cache untouched, and every frame other than a
     * PUT leaves the server untouched.
     */
    method HandleRequest(lines: seq<string>, faults: FsFaults)
      requires Valid()
      modifies this`output, server.Repr
      ensures Valid()
      ensures output == old(output) + FrameAnswer(lines, old(server.View()), faults)
      ensures FrameStep(lines, faults, old(server.View()), server.View())
      ensures PolicyEffect(lines, faults, old(server.Cached()), old(server.Stored()))
    {
      var decoded := Unserialize(lines);
      if decoded.Failure? {
        SendResponse(InvalidRequestResponse);
        return;
      }
      var request := decoded.value;
      match request.status.value {
        case Get =>
          RequestKey(lines);
          HandleGetRequest(request, faults);
        case Put =>
          RequestKey(lines);
          HandlePutRequest(request, faults);
        case _ =>
      }
    }

    /**
     * Since the read loop started with `handled0` handled, `sent0` sent and
     * the server in state `view0`, exactly `frames` were handled, the
     * server went through the states `views`, and the answers sent are
     * theirs.
     */
    ghost predicate Replays(frames: seq<seq<string>>, faults: map<nat, FsFaults>, handled0: seq<seq<string>>,
                            sent0: seq<KVMessage>, view0: ServerView, views: seq<ServerView>)
      reads this, server, server.Repr
      requires Valid()
    {
      Replayed(frames, faults, handled0, sent0, view0, views, handled, output, server.View())
    }

    /**
     * The read loop's state agrees with the lines read so far: the first
     * `i` slots hold the buffered lines, `frameNo` frames were handled,
     * and the connection is still open.
     */
    ghost predicate Reading(lines: array<string>, i: nat, frameNo: nat, faults: map<nat, FsFaults>,
                            acc: Accumulation, handled0: seq<seq<string>>, sent0: seq<KVMessage>,
                            view0: ServerView, views: seq<ServerView>)
      reads this, lines, server, server.Repr
    {
      && Valid() && isOpen && lines.Length == MAX_REQUEST_LINES && lines !in server.Repr
      && !acc.overflow && i <= MAX_REQUEST_LINES && lines[..i] == acc.buffer
      && frameNo == |acc.frames| && Replays(acc.frames, faults, handled0, sent0, view0, views)
    }

    /**
     * The blank line: the filled slots are handed on as one frame, with
     * the faults given for its number, and the slots start over.
     */
    method EndFrame(lines: array<string>, i: nat, frameNo: nat, faults: map<nat, FsFaults>,
                    ghost acc: Accumulation, ghost handled0: seq<seq<string>>,
                    ghost sent0: seq<KVMessage>, ghost view0: ServerView, ghost views: seq<ServerView>)
      returns (ghost views': seq<ServerView>)
      requires Reading(lines, i, frameNo, faults, acc, handled0, sent0, view0, views)
      modifies this`output, this`handled, server.Repr
      ensures Reading(lines, 0, frameNo + 1, faults, Feed(acc, ""), handled0, sent0, view0, views')
    {
      ghost var handled1, sent1, view1 := handled, output, server.View();
      var actualLines := lines[..i];
      HandleRequest(actualLines, FaultsFor(faults, frameNo));
      handled := handled + [actualLines];
      views' := views + [server.View()];
      ReplayedSnoc(acc.frames, acc.buffer, faults, handled0, sent0, view0, views,
                   handled1, sent1, view1, server.View());
    }

    /**
     * The body of the read loop for one line: a blank line hands the
     * filled slots on as one frame and starts over; another line fills
     * the next slot, or ends the connection when every slot is taken.
     * Before and after, the slots, the frames handed on, the states the
     * server went through and the answers sent agree with the
     * accumulation of the lines read so far.
     */
    method ReceiveLine(lines: array<string>, i: nat, frameNo: nat, line: string, faults: map<nat, FsFaults>,
                       ghost acc: Accumulation, ghost handled0: seq<seq<string>>,
                       ghost sent0: seq<KVMessage>, ghost view0: ServerView, ghost views: seq<ServerView>)
      returns (i': nat, frameNo': nat, ghost views': seq<ServerView>)
      requires Reading(lines, i, frameNo, faults, acc, handled0, sent0, view0, views)
      modifies lines, this`output, this`handled, this`isOpen, server.Repr
      ensures Valid() && (isOpen <==> !Feed(acc, line).overflow)
      ensures isOpen ==> Reading(lines, i', frameNo', faults, Feed(acc, line), handled0, sent0, view0, views')
      ensures Replays(Feed(acc, line).frames, faults, handled0, sent0, view0, views')
    {
      i', frameNo', views' := i, frameNo, views;
      if line == "" {
        views' := EndFrame(lines, i, frameNo, faults, acc, handled0, sent0, view0, views);
        i', frameNo' := 0, frameNo + 1;
      } else if i == MAX_REQUEST_LINES {
        isOpen := false;
      } else {
        lines[i] := line;
        i' := i + 1;
        assert lines[..i'] == acc.buffer + [line];
      }
    }

    /**
     * Reads the lines one by one into a fixed array of `MAX_REQUEST_LINES`
     * slots, handing each frame to `HandleRequest` with the faults given
     * for that frame's number. A line that finds the array full ends the
     * connection.
     */
    method ReadFrames(received: seq<string>, faults: map<nat, FsFaults>, ghost handled0: seq<seq<string>>,
                      ghost sent0: seq<KVMessage>, ghost view0: ServerView)
      returns (ghost views: seq<ServerView>)
      requires Valid() && isOpen && Replays([], faults, handled0, sent0, view0, [view0])
      modifies this`output, this`handled, this`isOpen, server.Repr
      ensures Valid() && (isOpen <==> !Accumulate(received).overflow)
      ensures Replays(Accumulate(received).frames, faults, handled0, sent0, view0, views)
    {
      var lines := new string[MAX_REQUEST_LINES];
      var i := 0;
      var n := 0;
      var frameNo := 0;
      ghost var acc := Accumulation([], [], false);
      views := [view0];
      assert received[..0] == [];
      while n < |received|
        invariant 0 <= n <= |received| && acc == Accumulate(received[..n])
        invariant Reading(lines, i, frameNo, faults, acc, handled0, sent0, view0, views)
        decreases |received| - n
      {
        AccumulateNext(received, n);
        i, frameNo, views := ReceiveLine(lines, i, frameNo, received[n], faults, acc, handled0, sent0, view0, views);
        acc := Feed(acc, received[n]);
        n := n + 1;
        if !isOpen {
          AccumulateDone(received, n);
          return;
        }
      }
      AccumulateDone(received, n);
    }

    /**
     * Reads the stream as lines and answers its frames. The answers sent
     * are those of the frames in order, each given by the state the server
     * was in when that frame arrived; `views` lists those states and the
     * final one.
     */
    method HandleRequests(stream: string, faults: map<nat, FsFaults>) returns (ghost views: seq<ServerView>)
      requires Valid() && isOpen
      modifies this, server.Repr
      ensures Valid()
      ensures handled == old(handled) + Accumulate(ReadLines(stream)).frames
      ensures isOpen <==> !Accumulate(ReadLines(stream)).overflow
      ensures && Steps(Accumulate(ReadLines(stream)).frames, faults, views)
              && views[0] == old(server.View()) && views[|views| - 1] == server.View()
      ensures output == old(output) + Answers(Accumulate(ReadLines(stream)).frames, faults, views)
    {
      ghost var handled0, sent0, view0 := handled, output, server.View();
      assert handled0 + [] == handled0 && sent0 + [] == sent0;
      views := ReadFrames(ReadLines(stream), faults, handled0, sent0, view0);
    }
  }

  // ---------------------------------------------------------------------
  // Whole connections

  /** "X" names no status, so the frame ["X"] does not decode. */
  lemma UnknownStatusIsInvalid()
    ensures Unserialize(["X"]).Failure?
  {
  }

  /**
   * A blank line with nothing buffered hands on the empty frame, which has
   * no status line: it gets the "Invalid request" answer and changes
   * nothing, and the connection stays open.
   */
  lemma EmptyFrameIsInvalid(acc: Accumulation, view: ServerView, faults: FsFaults)
    requires !acc.overflow && acc.buffer == []
    ensures Feed(acc, "") == Accumulation(acc.frames + [[]], [], false)
    ensures FrameAnswer([], view, faults) == [InvalidRequestResponse]
    ensures forall after :: FrameStep([], faults, view, after) <==> after == view
  {
    assert Unserialize([]) == Failure(MissingStatusLine);
  }

  /** The stream "X", blank line arrives as the one frame ["X"]. */
  lemma UnknownStatusFrame()
    ensures Accumulate(ReadLines("X\n\n")).frames == [["X"]]
  {
    assert "X\n\n" == "X" + "\n" + "\n" && "\n" == "" + "\n" + "";
    ReadLinesCons("", "");
    assert ReadLines("\n") == [""];
    ReadLinesCons("X", "\n");
    assert ReadLines("X\n\n") == ["X", ""];
    assert [["X"]][..0] == [] && Framed([["X"]]) == ["X", ""];
    AccumulateFramed([["X"]]);
  }

  /** A frame whose status line names no status is answered with the invalid request error. */
  method InvalidFrameScenario(persisted: map<string, string>) returns (answers: seq<KVMessage>)
    ensures answers == [InvalidRequestResponse]
  {
    var server := new KVServer(4000, FIFO, 4, persisted);
    var connection := new ClientConnection(server);
    UnknownStatusFrame();
    UnknownStatusIsInvalid();
    ghost var views := connection.HandleRequests("X\n\n", map[]);
    assert Answers([["X"]], map[], views) == FrameAnswer(["X"], views[0], NoFaults);
    answers := connection.output;
  }

  /**
   * Handling that one frame against a state that stores the key deletes
   * it, and the answer is the delete's success.
   */
  lemma PutAsDeleteAnswers(key: string, value: string, views: seq<ServerView>)
    requires IsLine(key) && key != "" && IsLine(value) && value != ""
    requires Steps([["PUT", key, value]], map[], views) && key in views[0].stored
    ensures Answers([["PUT", key, value]], map[], views) == [KVMessage(Some(key), None, Some(DeleteSuccess))]
    ensures key !in views[1].stored
  {
    var frame := ["PUT", key, value];
    ClientPutArrivesAsDelete(key, value);
    assert IsRequest(frame, Put) && Unserialize(frame).value.value == None;
    assert FaultsFor(map[], 0) == NoFaults;
    var outcome := PutOutcome(views[0].stored, key, None, NoFaults);
    assert outcome == Pass;
    assert [frame][..0] == [];
    assert Answers([frame], map[], views) == FrameAnswer(frame, views[0], NoFaults);
    assert FrameAnswer(frame, views[0], NoFaults) == [PutResponse(Some(key), None, true, outcome)];
    assert FrameStep(frame, NoFaults, views[0], views[1]);
  }

  /**
   * A client's PUT of foo=bar2 to a server that stores foo arrives without
   * its value, so the server deletes foo and answers that the delete
   * succeeded.
   */
  method ClientPutDeletesScenario() returns (answers: seq<KVMessage>, stillStored: bool)
    ensures answers == [KVMessage(Some("foo"), None, Some(DeleteSuccess))]
    ensures !stillStored
  {
    var server := new KVServer(4000, LRU, 4, map["foo" := "bar"]);
    var connection := new ClientConnection(server);
    var stream := Serialize(KVMessage(Some("foo"), Some("bar2"), Some(Put)));
    ClientPutArrivesAsDelete("foo", "bar2");
    ghost var views := connection.HandleRequests(stream, map[]);
    PutAsDeleteAnswers("foo", "bar2", views);
    answers := connection.output;
    stillStored := server.InStorage("foo");
  }
}
