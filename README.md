# gixie-bright-control, modelled in Dafny

A model of the core of `gixie-bright-control`, a command-line client that
sets the brightness of a Gixie nixie-tube clock over a WebSocket. The core
has three parts:

- the **brightness policy** (`src/brightness.rs`). It compares the current
  time with today's sunrise and sunset and picks `brightness.max` between them
  and `brightness.min` otherwise.
- the **commands** (`src/command.rs`): `get`, `set`, `suninfo` and the
  automatic mode `default`. In automatic mode the client reads the clock's
  current brightness. When that differs from the policy's target, it steps
  towards the target ten units at a time and stops after the first step the
  clock refuses.
- the **protocol client** (`src/connection.rs`). It connects and discards the
  two greeting messages. Each request is then one JSON message sent and one
  reply read. `get` returns the reply's `data` and `set` reports whether
  `resCode` is 200.

The files:

| file | module | contents |
|---|---|---|
| `common.dfy` | `Common` | bytes, 16-bit words, `Option`, `Result` with a string error |
| `configuration.dfy` | `Configuration` | the `brightness` and `server` parts of the configuration |
| `sun.dfy` | `Sun` | instants in nanoseconds and `TimeDelta::num_seconds` (truncation toward zero) |
| `brightness.dfy` | `BrightnessPolicy` | `calculate` and its three regions |
| `transition.dfy` | `Stepping` | the `transition` closure: `(lo..=hi).step_by(10)`, reversed for a ramp down |
| `protocol.dfy` | `Protocol` | requests, replies, their JSON form, and the socket as a value; one pure step function per connection operation |
| `connection.dfy` | `Connections` | class `Connection`: one socket field, whose methods are proved equal to the step functions |
| `command.dfy` | `Commands` | `get`, `set` and `default` as methods, with the stepping loop of `default` specified by the function `Ramp` |

The socket is a value `Socket(inbound, outbound, writable)`:

- `inbound` holds the messages the clock will send, in order.
- `outbound` logs every request sent so far.
- `writable` says whether sending succeeds.

A command opens its own connection. So each command method takes the
outside world as inputs: whether the URL parses, what the server hands out
on connect (`Dial`), and the JSON decoder. It returns its result together
with `sent`, the requests it put on the wire.

## Behaviour as the code defines it

The model keeps each of these behaviours of the code.

- The ramp's stride is the constant 10 (`src/command.rs:53`). The configured
  `brightness.step` is never read.
- A ramp going up, or going down by a multiple of 10, includes the start
  value: going from 0 to 100 sends 0, 10, ..., 100, so the first set request
  repeats the current brightness.
- When the distance is not a multiple of 10, a ramp going up never sends
  the target: it stops short of it. A ramp going down ends at the target but
  never sends the current value: the sampled range is reversed, so it starts
  below the current value.
- Time differences are truncated to whole seconds (`src/brightness.rs:10`).
  So a `now` less than a second before sunrise already gets `max`
  (`SubSecondBeforeSunriseIsDaytime`).
- `main` calls `command::set` with an extra `smooth` argument
  (`src/main.rs:23`) that `command::set` does not take. The model follows
  `command::set` (`src/command.rs:14-23`): one set request and no ramp.

## Model

| member | source | states |
|---|---|---|
| Sun.NumSeconds | src/brightness.rs:10 | the whole seconds of a difference, truncated toward zero, bracket the difference from below (or from above, when negative) |
| Sun.PositiveSeconds | src/brightness.rs:10-16 | a difference counts as "ahead" exactly when it is at least one full second |
| BrightnessPolicy.Calculate | src/brightness.rs:4-25 | the target is always `min` or `max`; it is defined exactly off the `unreachable!()` arm |
| BrightnessPolicy.OrderedDayInDomain | src/brightness.rs:16-23 | when sunrise is not after sunset, the unreachable arm is never reached |
| BrightnessPolicy.InDomainCharacterised | src/brightness.rs:16-23 | the arm is avoided exactly when "sunrise a second or more ahead" implies "sunset a second or more ahead" |
| BrightnessPolicy.BeforeSunrise | src/brightness.rs:16-18 | region 1: a second or more before sunrise the target is `min` |
| BrightnessPolicy.Daytime | src/brightness.rs:16-20 | region 2: from sunrise until a second before sunset the target is `max` |
| BrightnessPolicy.AfterSunset | src/brightness.rs:16-22 | region 3: within a second of sunset or later the target is `min` |
| BrightnessPolicy.MaxExactlyInDaytime | src/brightness.rs:16-24 | when `min != max`, the target is `max` if and only if `now` lies in region 2 |
| BrightnessPolicy.SubSecondBeforeSunriseIsDaytime | src/brightness.rs:10-20 | because of truncation, less than a second before sunrise already gets `max` |
| BrightnessPolicy.IgnoresStepAndNum | src/brightness.rs:16-24 | the target depends on `min` and `max` only, not on `step` or `num` |
| Stepping.ReversedInvolutive | src/command.rs:54-56 | reversing the sampled values twice gives them back |
| Stepping.ReversedPermutes | src/command.rs:54-56 | reversing only reorders: the reversed values are the same values, each as often |
| Stepping.Transition | src/command.rs:52-58 | the ramp is never empty; going up it starts at the current value, going down it ends at the target |
| Stepping.StepByShape | src/command.rs:53 | `step_by` yields `n > 0` values; the `i`-th is `lo + i*step`; the last is at most `hi` and one more stride would pass it |
| Stepping.TransitionInRange | src/command.rs:52-58 | the ramp is never empty, has one value more than the number of whole strides of 10 between the endpoints, and every value lies between them |
| Stepping.AscendingClosedForm | src/command.rs:52-58 | going up, the ramp has `(to - from) / 10 + 1` values, the `i`-th being `i` strides above `from` |
| Stepping.TransitionAscending | src/command.rs:52-58 | going up, the ramp starts at `from`, rises by exactly 10 each step, and ends at `to` if and only if the distance is a multiple of 10 |
| Stepping.TransitionMirror | src/command.rs:52-58 | going down, the ramp is the exact reverse of the ramp up between the same endpoints |
| Stepping.DescendingClosedForm | src/command.rs:52-58 | going down, the ramp has `(from - to) / 10 + 1` values, the `i`-th being `i` strides below the highest aligned value |
| Stepping.TransitionDescending | src/command.rs:52-58 | going down, the ramp falls by exactly 10 each step, always ends at `to`, and starts at `from` if and only if the distance is a multiple of 10 |
| Stepping.AlignedRampUp | src/command.rs:52-58 | 0 to 100 is 0, 10, ..., 100 |
| Stepping.AlignedRampDown | src/command.rs:52-58 | 100 to 0 is 100, 90, ..., 0 |
| Stepping.UnalignedRamps | src/command.rs:52-58 | 0 to 15 is 0, 10 (the target is missed); 15 to 0 is 10, 0 |
| Protocol.SerializeInjective | src/connection.rs:36-45 | `Serialize`: distinct requests serialise to distinct JSON documents |
| Protocol.GetRequestWire | src/connection.rs:83-86 | `Serialize` of a get request: it has exactly the keys `cmdType` (0) and `cmdNum` (the channel); `cmdCtx` is absent |
| Protocol.SetRequestWire | src/connection.rs:95-99 | `Serialize` of a set request: it has the keys `cmdType` (1), `cmdNum` and `cmdCtx` with `value`, in that order |
| Protocol.OpenConsumesGreeting | src/connection.rs:53-70 | `Open` (connecting): a bad URL fails with "Cannot parse url" whatever the server does; connecting succeeds exactly when the URL parses, the server accepts and two messages arrive, and then it has consumed exactly those two and sent nothing |
| Protocol.ExchangeOneForOne | src/connection.rs:72-81 | `Exchange` (one request): it appends its own message only when sending works, and consumes exactly the head of the queue only when it answers with it; on a send failure nothing changes |
| Protocol.GetStepReturnsData | src/connection.rs:83-93 | `GetStep`: `get` returns `v` if and only if the one reply it reads decodes and carries `data = v` |
| Protocol.GetStepErrors | src/connection.rs:88-92 | `GetStep`: an undecodable reply gives "Cannot parse json response"; a reply without `data` gives "Missing data" |
| Protocol.SetStepReportsResCode | src/connection.rs:101-105 | `SetStep`: `set` gives `true` if and only if the reply decodes with `resCode` 200, `false` if and only if it decodes with another code, and an error if it does not decode |
| Connections.Connection.Connect | src/connection.rs:53-70 | the connect method's loop reads the two greeting messages; it fails exactly when `Open` does, with the same error, and otherwise holds a fresh connection on `Open`'s socket |
| Connections.Connection.Request | src/connection.rs:72-81 | the reply and the new socket are those of `Exchange` |
| Connections.Connection.Get | src/connection.rs:83-93 | the result and the new socket are those of `GetStep` |
| Connections.Connection.Set | src/connection.rs:95-106 | the result and the new socket are those of `SetStep` |
| Commands.RampAcceptedStep | src/command.rs:61-66 | `Ramp` (the stepping loop): after an accepted set, it sends that value, consumes one reply and goes on with the remaining values |
| Commands.RampLastStep | src/command.rs:61-66 | `Ramp`: any other first step is the loop's last exchange; the loop succeeds if and only if that reply decoded (a refusal), and otherwise fails with that set's own error |
| Commands.RampSendsPrefix | src/command.rs:61-66 | `Ramp`: the loop sends set requests for a prefix of the values, in order, and at most one more than the replies available |
| Commands.RampReadsOnePerSend | src/command.rs:61-66 | `Ramp`: the loop reads one reply per request; every reply but the last was accepted; a successful early stop was a decoded refusal |
| Commands.RampStopsAtFirstRefusal | src/command.rs:61-66 | `Ramp`: after `i` accepted sets, a refusal ends the loop successfully with exactly `i + 1` sets sent; later values are never sent |
| Commands.RampAllAccepted | src/command.rs:61-66 | `Ramp`: when every set is accepted, every value is sent in order and one reply is read for each |
| Commands.AdjustGetFails | src/command.rs:47 | `Adjust` (`default` once connected): a failed read of the current brightness ends it with that very error, and no set request follows |
| Commands.AdjustUnchanged | src/command.rs:47-50 | `Adjust`: when the clock already shows the target, only the get request is sent, and the command succeeds |
| Commands.AdjustRamps | src/command.rs:47-66 | `Adjust`: otherwise the get request is followed by set requests for a prefix of the ramp, all between the current value and the target |
| Commands.Get | src/command.rs:5-12 | fails with the connect error and sends nothing, or returns `GetStep`'s result; sends at most the one get request |
| Commands.Set | src/command.rs:14-23 | fails with the connect error and sends nothing, or fails with the step's error, or succeeds even when the clock refuses; sends at most the one set request |
| Commands.Default | src/command.rs:36-70 | the sun error comes before any connection; a connect error sends nothing, whatever the sun times; otherwise the result and the requests sent are those of `Adjust` towards `Calculate`'s target |

## Left out

- The sun computation (`src/suninfo.rs`: timezone, local midday, the solar
  position algorithm) is not modelled. `SunInfo` and its possible error are
  inputs to `Default`, because the computation is floating point
  and calendar arithmetic.
- Configuration loading (`src/config.rs`) and argument parsing
  (`src/args.rs`, `src/main.rs`) are not modelled. The configuration is a
  value, and only `clock.server` and `brightness` are kept; the coordinates,
  timezone and `date_fmt` feed only the sun computation and printing.
- The error types of `src/error.rs` are not modelled; errors are the strings
  the core returns.
- `command::suninfo` (`src/command.rs:25-34`) is not modelled as a member:
  with the sun computation an input and printing left out, it only passes
  the sun result through and opens no connection.
- Logging and printing are not modelled. What `get` prints is
  the `Ok` payload, and date formatting is left out.
- JSON text is not modelled. Decoding a reply (`serde_json::from_str`) is an
  abstract `Decoder` parameter. A request is serialised to a JSON document
  value, not to text. That serialisation is total, so "Cannot serialize json"
  cannot occur in the model.
- WebSocket details are not modelled: the HTTP upgrade, TLS, ping and close
  frames, blocking reads, and closing the socket on exit. A read with no
  message left fails with "Cannot read message". A send fails with
  "Cannot send message" exactly when the socket's fixed `writable` flag is
  false.
- URL parsing is not modelled; it is the `parses` parameter.
- `Stepping.Reversed`: `Vec::reverse` works in place; the model returns the
  reversed sequence as a new value.
- `Commands.Default`: the `unreachable!()` panic of `calculate` (sunrise still
  ahead while sunset is already past) is not modelled. The precondition
  excludes those sun times only when the connection opens, which is when
  the source reaches `calculate`; on every earlier failure the model returns
  the same error the source does.
- The `cmdType` and `cmdNum` fields of a reply are decoded but never
  checked, as in the source.
