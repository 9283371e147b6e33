/** The device protocol of src/connection.rs as values: the request and reply
    records, the JSON object a request is serialised to, and the socket as an
    inbound message queue plus an outbound log. The functions here say what
    each `Connection` step does to the socket; the class in connection.dfy
    is proved against them. */
module Protocol {
  import opened Common

  /** `CmdType`, serialised by `serde_repr` as its discriminant. */
  datatype CmdType = Get | Set {
    function Code(): Byte {
      match this
      case Get => 0
      case Set => 1
    }
  }

  datatype CmdCtx = CmdCtx(value: Byte)

  datatype Request = Request(cmdType: CmdType, cmdNum: Byte, cmdCtx: Option<CmdCtx>)

  /** A reply once JSON decoding has succeeded. */
  datatype Response = Response(resCode: Word, cmdType: CmdType, cmdNum: Byte, data: Option<Byte>)

  /** `serde_json::from_str::<Response>`: a partial map from message text to
      a reply, left abstract. */
  type Decoder = string -> Option<Response>

  /** The request `Connection::get` builds. */
  function GetRequest(num: Byte): Request {
    Request(Get, num, None)
  }

  /** The request `Connection::set` builds. */
  function SetRequest(num: Byte, value: Byte): Request {
    Request(Set, num, Some(CmdCtx(value)))
  }

  /** A JSON document at the level of detail serde's derived serialiser
      produces for `Request`: numbers and objects with ordered members. */
  datatype Json = Number(n: nat) | Object(members: seq<(string, Json)>)

  /** `serde_json::to_string(&request)`, as a document: the fields in
      declaration order under their renamed keys, `cmdCtx` skipped when absent. */
  function Serialize(request: Request): Json {
    var head := [("cmdType", Number(request.cmdType.Code())), ("cmdNum", Number(request.cmdNum))];
    match request.cmdCtx
    case None => Object(head)
    case Some(ctx) => Object(head + [("cmdCtx", Object([("value", Number(ctx.value))]))])
  }

  /** The keys of a document's members, in order. */
  function Keys(j: Json): seq<string> {
    if j.Object? then KeysOf(j.members) else []
  }

  function KeysOf(members: seq<(string, Json)>): seq<string> {
    if members == [] then [] else [members[0].0] + KeysOf(members[1..])
  }

  /** The value of the first member named `key`. */
  function Field(j: Json, key: string): Option<Json> {
    if j.Object? then Lookup(j.members, key) else None
  }

  function Lookup(members: seq<(string, Json)>, key: string): Option<Json> {
    if members == [] then None
    else if members[0].0 == key then Some(members[0].1)
    else Lookup(members[1..], key)
  }

  /** Serialisation loses nothing: distinct requests are distinct documents. */
  lemma SerializeInjective(a: Request, b: Request)
    requires Serialize(a) == Serialize(b)
    ensures a == b
  {
    assert Serialize(a).members[0] == Serialize(b).members[0];
    assert Serialize(a).members[1] == Serialize(b).members[1];
    if a.cmdCtx.Some? {
      assert Serialize(a).members[2] == Serialize(b).members[2];
    }
  }

  lemma DistinctKeys()
    ensures "cmdType" != "cmdNum" && "cmdType" != "cmdCtx" && "cmdNum" != "cmdCtx"
  {
  }

  /** A `get` request carries `cmdType` 0 and the channel, and no `cmdCtx` key. */
  lemma GetRequestWire(num: Byte)
    ensures Keys(Serialize(GetRequest(num))) == ["cmdType", "cmdNum"]
    ensures Field(Serialize(GetRequest(num)), "cmdType") == Some(Number(0))
    ensures Field(Serialize(GetRequest(num)), "cmdNum") == Some(Number(num))
    ensures Field(Serialize(GetRequest(num)), "cmdCtx") == None
  {
    var ms := Serialize(GetRequest(num)).members;
    assert ms[1..][1..] == [];
    assert KeysOf(ms[1..]) == ["cmdNum"];
    DistinctKeys();
    assert Lookup(ms[1..][1..], "cmdCtx") == None;
    assert Lookup(ms[1..], "cmdCtx") == None;
    assert Lookup(ms[1..], "cmdNum") == Some(Number(num));
  }

  /** A `set` request carries `cmdType` 1, the channel and `cmdCtx.value`. */
  lemma SetRequestWire(num: Byte, value: Byte)
    ensures Keys(Serialize(SetRequest(num, value))) == ["cmdType", "cmdNum", "cmdCtx"]
    ensures Field(Serialize(SetRequest(num, value)), "cmdType") == Some(Number(1))
    ensures Field(Serialize(SetRequest(num, value)), "cmdNum") == Some(Number(num))
    ensures Field(Serialize(SetRequest(num, value)), "cmdCtx") == Some(Object([("value", Number(value))]))
  {
    var ms := Serialize(SetRequest(num, value)).members;
    assert ms[1..][1..][1..] == [];
    assert KeysOf(ms[1..][1..]) == ["cmdCtx"];
    assert KeysOf(ms[1..]) == ["cmdNum", "cmdCtx"];
    DistinctKeys();
    assert Lookup(ms[1..][1..], "cmdCtx") == Some(Object([("value", Number(value))]));
    assert Lookup(ms[1..], "cmdCtx") == Some(Object([("value", Number(value))]));
    assert Lookup(ms[1..], "cmdNum") == Some(Number(num));
  }

  /** The WebSocket as the client sees it: the text messages the device has
      sent and the client has not read yet, the requests sent so far (oldest
      first), and whether sending still succeeds. */
  datatype Socket = Socket(inbound: seq<string>, outbound: seq<Json>, writable: bool)

  /** What `tungstenite::connect` yields for the server URL: a refusal, or an
      upgraded socket with the messages the device will send. */
  datatype Dial = Refused | Opened(inbound: seq<string>, writable: bool)

  /** `Connection::connect`: parse the URL, open the socket, then read and
      discard two messages (an empty line and the greeting). */
  function Open(server: string, parses: string -> bool, dial: Dial): Result<Socket> {
    if !parses(server) then Err("Cannot parse url")
    else if dial.Refused? then Err("Cannot connect to server")
    else if |dial.inbound| < 2 then Err("Cannot read message")
    else Ok(Socket(dial.inbound[2..], [], dial.writable))
  }

  /** `Connection::request`: send one message, then read one. */
  function Exchange(s: Socket, message: Json): (Result<string>, Socket) {
    if !s.writable then (Err("Cannot send message"), s)
    else
      var sent := s.(outbound := s.outbound + [message]);
      if sent.inbound == [] then (Err("Cannot read message"), sent)
      else (Ok(sent.inbound[0]), sent.(inbound := sent.inbound[1..]))
  }

  /** `Connection::get`: exchange a get request and return the reply's `data`. */
  function GetStep(s: Socket, num: Byte, decode: Decoder): (Result<Byte>, Socket) {
    var (reply, s') := Exchange(s, Serialize(GetRequest(num)));
    var result :=
      if reply.Err? then Err(reply.error)
      else match decode(reply.value)
        case None => Err("Cannot parse json response")
        case Some(response) =>
          if response.data.None? then Err("Missing data") else Ok(response.data.value);
    (result, s')
  }

  /** `Connection::set`: exchange a set request and report whether the reply's
      `resCode` is 200. */
  function SetStep(s: Socket, num: Byte, value: Byte, decode: Decoder): (Result<bool>, Socket) {
    var (reply, s') := Exchange(s, Serialize(SetRequest(num, value)));
    var result :=
      if reply.Err? then Err(reply.error)
      else match decode(reply.value)
        case None => Err("Cannot parse json response")
        case Some(response) => Ok(response.resCode == 200);
    (result, s')
  }

  /** A reply that makes `set` report success. */
  predicate Accepted(decode: Decoder, text: string) {
    decode(text).Some? && decode(text).value.resCode == 200
  }

  /** `connect` succeeds exactly when the URL parses, the server accepts and
      two messages arrive; it then has consumed exactly those two, sent
      nothing, and its URL check comes before any use of the socket. */
  lemma OpenConsumesGreeting(server: string, parses: string -> bool, dial: Dial)
    ensures !parses(server) ==> Open(server, parses, dial) == Err("Cannot parse url")
    ensures Open(server, parses, dial).Ok? <==> parses(server) && dial.Opened? && |dial.inbound| >= 2
    ensures Open(server, parses, dial).Ok? ==>
              var s := Open(server, parses, dial).value;
              dial.inbound == dial.inbound[..2] + s.inbound && s.outbound == [] && s.writable == dial.writable
  {
  }

  /** One request, one reply: an exchange appends at most its own message to
      the log and takes at most the head of the queue; it answers with that
      head exactly when both the send and the read succeed. */
  lemma ExchangeOneForOne(s: Socket, message: Json)
    ensures var (reply, s') := Exchange(s, message);
      && s'.writable == s.writable
      && (reply.Ok? <==> s.writable && s.inbound != [])
      && (s'.outbound == s.outbound + [message] <==> s.writable)
      && (!s.writable ==> s'.outbound == s.outbound && reply == Err("Cannot send message"))
      && (reply.Ok? ==> [reply.value] + s'.inbound == s.inbound)
      && (reply.Err? ==> s'.inbound == s.inbound)
  {
  }

  /** `get` returns `v` exactly when the one reply it reads decodes and
      carries `data` = `v`; it never substitutes a default. */
  lemma GetStepReturnsData(s: Socket, num: Byte, decode: Decoder, v: Byte)
    ensures GetStep(s, num, decode).0 == Ok(v) <==>
              s.writable && s.inbound != [] && decode(s.inbound[0]).Some? &&
              decode(s.inbound[0]).value.data == Some(v)
  {
  }

  /** A reply without `data` makes `get` fail with "Missing data", and a
      reply that does not decode makes it fail with "Cannot parse json response". */
  lemma GetStepErrors(s: Socket, num: Byte, decode: Decoder)
    requires s.writable && s.inbound != []
    ensures decode(s.inbound[0]).None? ==> GetStep(s, num, decode).0 == Err("Cannot parse json response")
    ensures decode(s.inbound[0]).Some? && decode(s.inbound[0]).value.data.None? ==>
              GetStep(s, num, decode).0 == Err("Missing data")
  {
  }

  /** `set` reports `true` exactly when its reply decodes with `resCode` 200
      and `false` exactly when it decodes with any other code: a non-200 reply
      is an answer, not an error. */
  lemma SetStepReportsResCode(s: Socket, num: Byte, value: Byte, decode: Decoder)
    ensures SetStep(s, num, value, decode).0 == Ok(true) <==>
              s.writable && s.inbound != [] && Accepted(decode, s.inbound[0])
    ensures SetStep(s, num, value, decode).0 == Ok(false) <==>
              s.writable && s.inbound != [] && decode(s.inbound[0]).Some? && !Accepted(decode, s.inbound[0])
    ensures s.writable && s.inbound != [] && decode(s.inbound[0]).None? ==>
              SetStep(s, num, value, decode).0 == Err("Cannot parse json response")
  {
  }
}
