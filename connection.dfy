/** `Connection` of src/connection.rs: an object owning the one socket to the
    device, whose methods advance it step by step. Each method is proved to do
    what the matching function of `Protocol` describes. */
module Connections {
  import opened Common
  import opened Configuration
  import opened Protocol

  class Connection {
    var socket: Socket

    constructor (socket: Socket)
      ensures this.socket == socket
    {
      this.socket := socket;
    }

    /** `Connection::connect`: parse the URL, open the socket, and read and
        discard the two handshake messages before handing the connection out. */
    static method Connect(config: Config, parses: string -> bool, dial: Dial) returns (r: Result<Connection>)
      ensures r.Ok? <==> Open(config.server, parses, dial).Ok?
      ensures r.Err? ==> r.error == Open(config.server, parses, dial).error
      ensures r.Ok? ==> fresh(r.value) && r.value.socket == Open(config.server, parses, dial).value
    {
      if !parses(config.server) {
        return Err("Cannot parse url");
      }
      if dial.Refused? {
        return Err("Cannot connect to server");
      }
      var socket := Socket(dial.inbound, [], dial.writable);
      // read the empty line and the greeting
      for i := 0 to 2
        invariant i <= |dial.inbound|
        invariant socket == Socket(dial.inbound[i..], [], dial.writable)
      {
        if socket.inbound == [] {
          return Err("Cannot read message");
        }
        socket := socket.(inbound := socket.inbound[1..]);
      }
      var connection := new Connection(socket);
      r := Ok(connection);
    }

    /** `Connection::request`: send the message, then block for one reply. */
    method Request(message: Json) returns (r: Result<string>)
      modifies this
      ensures (r, socket) == Exchange(old(socket), message)
    {
      if !socket.writable {
        return Err("Cannot send message");
      }
      socket := socket.(outbound := socket.outbound + [message]);
      if socket.inbound == [] {
        return Err("Cannot read message");
      }
      r := Ok(socket.inbound[0]);
      socket := socket.(inbound := socket.inbound[1..]);
    }

    /** `Connection::get`: the current brightness of channel `brightness.num`. */
    method Get(config: Config, decode: Decoder) returns (r: Result<Byte>)
      modifies this
      ensures (r, socket) == GetStep(old(socket), config.brightness.num, decode)
    {
      var request := GetRequest(config.brightness.num);
      var reply := Request(Serialize(request));
      if reply.Err? {
        return Err(reply.error);
      }
      var response := decode(reply.value);
      if response.None? {
        return Err("Cannot parse json response");
      }
      if response.value.data.None? {
        return Err("Missing data");
      }
      r := Ok(response.value.data.value);
    }

    /** `Connection::set`: ask channel `brightness.num` to show `value`;
        `true` when the device answers with `resCode` 200. */
    method Set(config: Config, value: Byte, decode: Decoder) returns (r: Result<bool>)
      modifies this
      ensures (r, socket) == SetStep(old(socket), config.brightness.num, value, decode)
    {
      var request := SetRequest(config.brightness.num, value);
      var reply := Request(Serialize(request));
      if reply.Err? {
        return Err(reply.error);
      }
      var response := decode(reply.value);
      if response.None? {
        return Err("Cannot parse json response");
      }
      r := Ok(response.value.resCode == 200);
    }
  }
}
