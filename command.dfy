/** The commands of src/command.rs. Each opens its own connection, so the
    model takes what the outside world would answer (the URL check, the
    socket the server hands out, the JSON decoder and, for the automatic
    mode, the sun computation) and returns the command's result together
    with `sent`, every request the command sent over its connection. */
module Commands {
  import opened Common
  import opened Configuration
  import opened Sun
  import opened BrightnessPolicy
  import opened Stepping
  import opened Protocol
  import opened Connections

  /** The documents of the set requests for `values`, in order. */
  function SetMessages(num: Byte, values: seq<Byte>): seq<Json>
  {
    if values == [] then [] else [Serialize(SetRequest(num, values[0]))] + SetMessages(num, values[1..])
  }

  /** The stepping loop of `default`: set each value in turn, propagate any
      error, and stop (successfully) right after the first refused set. */
  function Ramp(s: Socket, num: Byte, values: seq<Byte>, decode: Decoder): (Result<()>, Socket)
    decreases |values|
  {
    if values == [] then (Ok(()), s)
    else
      var (changed, s1) := SetStep(s, num, values[0], decode);
      if changed.Err? then (Err(changed.error), s1)
      else if !changed.value then (Ok(()), s1)
      else Ramp(s1, num, values[1..], decode)
  }

  /** What `default` does once connected: read the current brightness and,
      when it differs from `target`, ramp towards it. */
  function Adjust(s: Socket, num: Byte, target: Byte, decode: Decoder): (Result<()>, Socket)
  {
    var (current, s1) := GetStep(s, num, decode);
    if current.Err? then (Err(current.error), s1)
    else if current.value == target then (Ok(()), s1)
    else Ramp(s1, num, Transition(current.value, target), decode)
  }

  /** One accepted set: the ramp sends the head value, consumes one reply
      and goes on with the rest. */
  lemma RampAcceptedStep(s: Socket, num: Byte, values: seq<Byte>, decode: Decoder)
    requires s.writable && values != [] && s.inbound != []
    requires Accepted(decode, s.inbound[0])
    ensures Ramp(s, num, values, decode) ==
              Ramp(s.(inbound := s.inbound[1..], outbound := s.outbound + [Serialize(SetRequest(num, values[0]))]),
                   num, values[1..], decode)
  {
    SetStepReportsResCode(s, num, values[0], decode);
  }

  /** Any other first step ends the ramp after that one exchange: with `Ok`
      when the reply decoded (a refusal), with the step's error otherwise. */
  lemma RampLastStep(s: Socket, num: Byte, values: seq<Byte>, decode: Decoder)
    requires values != []
    requires !(s.writable && s.inbound != [] && Accepted(decode, s.inbound[0]))
    ensures Ramp(s, num, values, decode).1 == Exchange(s, Serialize(SetRequest(num, values[0]))).1
    ensures Ramp(s, num, values, decode).0.Ok? <==> s.writable && s.inbound != [] && decode(s.inbound[0]).Some?
    ensures Ramp(s, num, values, decode).0.Err? ==>
              SetStep(s, num, values[0], decode).0.Err? &&
              Ramp(s, num, values, decode).0.error == SetStep(s, num, values[0], decode).0.error
  {
    SetStepReportsResCode(s, num, values[0], decode);
  }

  /** The ramp sends a prefix of its values, in order, one request each, and
      never more than one request beyond the replies available. */
  lemma {:induction false} RampSendsPrefix(s: Socket, num: Byte, values: seq<Byte>, decode: Decoder)
    ensures var k := |Ramp(s, num, values, decode).1.outbound| - |s.outbound|;
      && 0 <= k <= |values|
      && k <= |s.inbound| + 1
      && Ramp(s, num, values, decode).1.outbound == s.outbound + SetMessages(num, values[..k])
    decreases |values|
  {
    if values != [] {
      var m := Serialize(SetRequest(num, values[0]));
      ExchangeOneForOne(s, m);
      if s.writable && s.inbound != [] && Accepted(decode, s.inbound[0]) {
        var s1 := s.(inbound := s.inbound[1..], outbound := s.outbound + [m]);
        RampAcceptedStep(s, num, values, decode);
        RampSendsPrefix(s1, num, values[1..], decode);
        var k' := |Ramp(s1, num, values[1..], decode).1.outbound| - |s1.outbound|;
        assert values[..k' + 1][1..] == values[1..][..k'];
      } else {
        RampLastStep(s, num, values, decode);
        assert values[..1][1..] == [];
      }
    }
  }

  /** The ramp reads exactly one reply per request: on success the queue has
      lost exactly the replies to the `k` requests sent; every reply before
      the last one read accepted its set; and a successful ramp that did not
      send every value stopped right after a decoded refusal. */
  lemma {:induction false} RampReadsOnePerSend(s: Socket, num: Byte, values: seq<Byte>, decode: Decoder)
    ensures var k := |Ramp(s, num, values, decode).1.outbound| - |s.outbound|;
      var ok := Ramp(s, num, values, decode).0.Ok?;
      && 0 <= k <= |values|
      && k <= |s.inbound| + 1
      && (ok ==> k <= |s.inbound| && Ramp(s, num, values, decode).1.inbound == s.inbound[k..])
      && (forall j :: 0 <= j < k - 1 ==> Accepted(decode, s.inbound[j]))
      && (ok && k < |values| ==> 0 < k && decode(s.inbound[k - 1]).Some? && !Accepted(decode, s.inbound[k - 1]))
    decreases |values|
  {
    RampSendsPrefix(s, num, values, decode);
    if values != [] {
      var m := Serialize(SetRequest(num, values[0]));
      ExchangeOneForOne(s, m);
      if s.writable && s.inbound != [] && Accepted(decode, s.inbound[0]) {
        var s1 := s.(inbound := s.inbound[1..], outbound := s.outbound + [m]);
        RampAcceptedStep(s, num, values, decode);
        RampReadsOnePerSend(s1, num, values[1..], decode);
        var k' := |Ramp(s1, num, values[1..], decode).1.outbound| - |s1.outbound|;
        if Ramp(s1, num, values[1..], decode).0.Ok? {
          assert s1.inbound[k'..] == s.inbound[k' + 1..];
        }
        forall j | 0 <= j < k' ensures Accepted(decode, s.inbound[j]) {
          if j > 0 {
            assert s.inbound[j] == s1.inbound[j - 1];
          }
        }
      } else {
        RampLastStep(s, num, values, decode);
      }
    }
  }

  /** A refusal of the `i`-th set, after `i` accepted ones, ends the ramp with
      `Ok`: exactly `i + 1` sets were sent and later values never are. */
  lemma {:induction false} RampStopsAtFirstRefusal(s: Socket, num: Byte, values: seq<Byte>, decode: Decoder, i: nat)
    requires s.writable
    requires i < |values| && i < |s.inbound|
    requires forall j :: 0 <= j < i ==> Accepted(decode, s.inbound[j])
    requires decode(s.inbound[i]).Some? && !Accepted(decode, s.inbound[i])
    ensures Ramp(s, num, values, decode).0 == Ok(())
    ensures Ramp(s, num, values, decode).1.outbound == s.outbound + SetMessages(num, values[..i + 1])
    ensures Ramp(s, num, values, decode).1.inbound == s.inbound[i + 1..]
    decreases i
  {
    var m := Serialize(SetRequest(num, values[0]));
    var s1 := s.(inbound := s.inbound[1..], outbound := s.outbound + [m]);
    if i > 0 {
      RampAcceptedStep(s, num, values, decode);
      forall j | 0 <= j < i - 1 ensures Accepted(decode, s1.inbound[j]) {
        assert s1.inbound[j] == s.inbound[j + 1];
      }
      RampStopsAtFirstRefusal(s1, num, values[1..], decode, i - 1);
      assert s1.inbound[i..] == s.inbound[i + 1..];
      assert values[..i + 1][1..] == values[1..][..i];
      assert s1.outbound + SetMessages(num, values[1..][..i]) == s.outbound + SetMessages(num, values[..i + 1]);
    } else {
      SetStepReportsResCode(s, num, values[0], decode);
      assert values[..1][1..] == [];
      assert SetMessages(num, values[..1]) == [m];
      RampLastStep(s, num, values, decode);
    }
  }

  /** When every set is accepted the ramp sends every value, in order, and
      reads one reply for each. */
  lemma {:induction false} RampAllAccepted(s: Socket, num: Byte, values: seq<Byte>, decode: Decoder)
    requires s.writable
    requires |values| <= |s.inbound|
    requires forall j :: 0 <= j < |values| ==> Accepted(decode, s.inbound[j])
    ensures Ramp(s, num, values, decode).0 == Ok(())
    ensures Ramp(s, num, values, decode).1.outbound == s.outbound + SetMessages(num, values)
    ensures Ramp(s, num, values, decode).1.inbound == s.inbound[|values|..]
    decreases |values|
  {
    if values == [] {
      assert Ramp(s, num, values, decode) == (Ok(()), s);
      assert s.inbound[0..] == s.inbound;
      assert s.outbound + SetMessages(num, values) == s.outbound;
    } else {
      var m := Serialize(SetRequest(num, values[0]));
      var s1 := s.(inbound := s.inbound[1..], outbound := s.outbound + [m]);
      RampAcceptedStep(s, num, values, decode);
      forall j | 0 <= j < |values| - 1 ensures Accepted(decode, s1.inbound[j]) {
        assert s1.inbound[j] == s.inbound[j + 1];
      }
      RampAllAccepted(s1, num, values[1..], decode);
      assert s1.inbound[|values| - 1..] == s.inbound[|values|..];
      assert s1.outbound + SetMessages(num, values[1..]) == s.outbound + SetMessages(num, values);
    }
  }

  /** A failed read of the current brightness ends `default` with that very
      error, before any set request. */
  lemma AdjustGetFails(s: Socket, num: Byte, target: Byte, decode: Decoder)
    requires GetStep(s, num, decode).0.Err?
    ensures Adjust(s, num, target, decode).0 == Err(GetStep(s, num, decode).0.error)
    ensures Adjust(s, num, target, decode).1 == GetStep(s, num, decode).1
    ensures |Adjust(s, num, target, decode).1.outbound| <= |s.outbound| + 1
  {
    ExchangeOneForOne(s, Serialize(GetRequest(num)));
  }

  /** When the device already shows the target, `default` sends the get
      request and no set, and succeeds. */
  lemma AdjustUnchanged(s: Socket, num: Byte, target: Byte, decode: Decoder)
    requires GetStep(s, num, decode).0 == Ok(target)
    ensures Adjust(s, num, target, decode).0 == Ok(())
    ensures Adjust(s, num, target, decode).1.outbound == s.outbound + [Serialize(GetRequest(num))]
  {
    ExchangeOneForOne(s, Serialize(GetRequest(num)));
  }

  /** When it shows another value, `default` sends the get request followed by
      set requests for a prefix of the ramp; every value it sets lies between
      the current brightness and the target. */
  lemma AdjustRamps(s: Socket, num: Byte, target: Byte, decode: Decoder, current: Byte)
    requires GetStep(s, num, decode).0 == Ok(current) && current != target
    ensures var s' := Adjust(s, num, target, decode).1;
      var k := |s'.outbound| - |s.outbound| - 1;
      && 0 <= k <= |Transition(current, target)|
      && s'.outbound == s.outbound + [Serialize(GetRequest(num))] + SetMessages(num, Transition(current, target)[..k])
      && forall i :: 0 <= i < k ==> Min(current, target) <= Transition(current, target)[i] <= Max(current, target)
  {
    var s1 := GetStep(s, num, decode).1;
    ExchangeOneForOne(s, Serialize(GetRequest(num)));
    RampSendsPrefix(s1, num, Transition(current, target), decode);
    TransitionInRange(current, target);
  }

  /** `command::get`: connect, read the brightness, and print it (the printed
      value is the `Ok` payload). */
  method Get(config: Config, parses: string -> bool, dial: Dial, decode: Decoder)
    returns (r: Result<Byte>, sent: seq<Json>)
    ensures Open(config.server, parses, dial).Err? ==>
              r == Err(Open(config.server, parses, dial).error) && sent == []
    ensures Open(config.server, parses, dial).Ok? ==>
              var (current, s') := GetStep(Open(config.server, parses, dial).value, config.brightness.num, decode);
              r == current && sent == s'.outbound
    ensures sent == [] || sent == [Serialize(GetRequest(config.brightness.num))]
  {
    var connected := Connection.Connect(config, parses, dial);
    if connected.Err? {
      return Err(connected.error), [];
    }
    var connection := connected.value;
    ExchangeOneForOne(connection.socket, Serialize(GetRequest(config.brightness.num)));
    r := connection.Get(config, decode);
    sent := connection.socket.outbound;
  }

  /** `command::set`: connect and set once; a refusal is only warned about,
      so the command succeeds unless a step fails. */
  method Set(config: Config, value: Byte, parses: string -> bool, dial: Dial, decode: Decoder)
    returns (r: Result<()>, sent: seq<Json>)
    ensures Open(config.server, parses, dial).Err? ==>
              r == Err(Open(config.server, parses, dial).error) && sent == []
    ensures Open(config.server, parses, dial).Ok? ==>
              var (changed, s') := SetStep(Open(config.server, parses, dial).value, config.brightness.num, value, decode);
              sent == s'.outbound && r == (if changed.Err? then Err(changed.error) else Ok(()))
    ensures sent == [] || sent == [Serialize(SetRequest(config.brightness.num, value))]
  {
    var connected := Connection.Connect(config, parses, dial);
    if connected.Err? {
      return Err(connected.error), [];
    }
    var connection := connected.value;
    ExchangeOneForOne(connection.socket, Serialize(SetRequest(config.brightness.num, value)));
    var changed := connection.Set(config, value, decode);
    sent := connection.socket.outbound;
    if changed.Err? {
      return Err(changed.error), sent;
    }
    // `false` is only logged as a warning
    r := Ok(());
  }

  /** `command::default`: compute the sun times before connecting, derive the
      target, read the current brightness and, when it differs, ramp towards
      the target, stopping after the first refused step. */
  method Default(config: Config, sun: Result<SunInfo>, parses: string -> bool, dial: Dial, decode: Decoder)
    returns (r: Result<()>, sent: seq<Json>)
    requires sun.Ok? && Open(config.server, parses, dial).Ok? ==> InDomain(sun.value)
    ensures sun.Err? ==> r == Err(sun.error) && sent == []
    ensures sun.Ok? && Open(config.server, parses, dial).Err? ==>
              r == Err(Open(config.server, parses, dial).error) && sent == []
    ensures sun.Ok? && Open(config.server, parses, dial).Ok? ==>
              var (result, s') := Adjust(Open(config.server, parses, dial).value, config.brightness.num,
                                         Calculate(config.brightness, sun.value), decode);
              r == result && sent == s'.outbound
  {
    if sun.Err? {
      return Err(sun.error), [];
    }
    var connected := Connection.Connect(config, parses, dial);
    if connected.Err? {
      return Err(connected.error), [];
    }
    var connection := connected.value;
    var target := Calculate(config.brightness, sun.value);
    var current := connection.Get(config, decode);
    if current.Err? {
      return Err(current.error), connection.socket.outbound;
    }
    if target != current.value {
      var values := Transition(current.value, target);
      ghost var start := connection.socket;
      for i := 0 to |values|
        invariant Ramp(start, config.brightness.num, values, decode) ==
                  Ramp(connection.socket, config.brightness.num, values[i..], decode)
      {
        var changed := connection.Set(config, values[i], decode);
        if changed.Err? {
          return Err(changed.error), connection.socket.outbound;
        }
        if !changed.value {
          // "Brightness not changed": stop, but the command still succeeds
          return Ok(()), connection.socket.outbound;
        }
      }
    }
    return Ok(()), connection.socket.outbound;
  }
}
