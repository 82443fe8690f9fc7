/** Registering a device over the network: the request loop of VitaMTP_Get_Wireless_Device
    (src/wireless.c:1376-1539). */
module Registration {
  /** One read from a client, with what the callbacks answer to it and whether the reply can be sent.
      A connection that has no more messages has been closed. */
  datatype Message =
    | Connect(guid: string, port: int, parsed: bool, known: bool, writes: bool)
    | ShowPin(deviceId: string, okay: bool, newPin: int, writes: bool)
    | Register(deviceId: string, pinTry: int, writes: bool)
    | Standby
    | Other
    | Malformed
    | ReadError

  datatype Answer = Silent | Ok200 | Ok210 | Ng605 | Ng610 | Cancel

  /** What a step depends on and what it leaves. */
  datatype State = State(guid: string, registered: bool, pin: int)

  /** One message served: the connection and the message, the answer to it, the state around it. */
  datatype Step = Step(conn: nat, msg: nat, answer: Answer, before: State, after: State)

  /** The fields of struct vita_device that the loop sets. */
  class VitaDevice {
    var guid: string
    var registered: bool            // network_device.registered
    var dataPort: int               // network_device.data_port
    var connected: bool             // network_device.addr is set

    constructor ()
      ensures guid == "" && !registered && !connected
    {
      guid, registered, dataPort, connected := "", false, 0, false;
    }
  }

  function Cut(s: string): string {
    if |s| <= 32 then s else s[..32]
  }

  // ---------- What the history says ----------

  /** The PIN of the latest SHOWPIN among the first `n` messages of a connection, -1 if there was none. */
  function LatestPin(conn: seq<Message>, n: nat): int
    requires n <= |conn|
  {
    if n == 0 then -1
    else if conn[n - 1].ShowPin? then conn[n - 1].newPin
    else LatestPin(conn, n - 1)
  }

  lemma {:induction false} LatestPinIs(conn: seq<Message>, n: nat, j: nat)
    requires n <= |conn|
    ensures (forall i :: 0 <= i < n ==> !conn[i].ShowPin?) ==> LatestPin(conn, n) == -1
    ensures j < n && conn[j].ShowPin? && (forall i :: j < i < n ==> !conn[i].ShowPin?) ==>
              LatestPin(conn, n) == conn[j].newPin
  {
    if n > 0 {
      LatestPinIs(conn, n - 1, j);
    }
  }

  /** A message after which no further connection is accepted. */
  predicate EndsListening(m: Message) {
    match m
    case Connect(_, _, parsed, _, writes) => !parsed || !writes
    case ShowPin(_, okay, newPin, writes) => !okay || (newPin < 0 && !writes)
    case Register(_, _, writes) => !writes
    case Standby => true
    case Other => false
    case Malformed => true
    case ReadError => true
  }

  /** A message behind which the connection is not served any further. */
  predicate Abrupt(m: Message) {
    EndsListening(m) && !m.Standby?
  }

  /** These are the steps for a connection: one for each message in order, up to its end or to the first
      abrupt message. */
  predicate Covers(conn: seq<Message>, index: nat, steps: seq<Step>) {
    && |steps| <= |conn| && (forall k :: 0 <= k < |steps| ==> steps[k].conn == index && steps[k].msg == k)
    && (forall j :: 0 <= j < |steps| - 1 ==> !Abrupt(conn[j]))
    && (|steps| < |conn| ==> steps != [] && Abrupt(conn[|steps| - 1]))
  }

  /** The message is the right REGISTER for the device id stored and the PIN shown. */
  predicate RightRegister(m: Message, before: State) {
    m.Register? && m.deviceId == before.guid && before.pin >= 0 && m.pinTry == before.pin
  }

  /** What one step may do. */
  predicate StepRight(m: Message, conn: seq<Message>, s: Step)
    requires s.msg < |conn| && conn[s.msg] == m
  {
    && s.before.pin == LatestPin(conn, s.msg)
    && (s.after.registered <==> s.before.registered || RightRegister(m, s.before))
    && (s.answer == Ok210 <==> m.Connect? && m.parsed && (s.before.registered || m.known))
    && (s.answer == Ok200 <==> RightRegister(m, s.before))
    && (s.answer == Ng610 <==> m.Register? && !RightRegister(m, s.before))
    && s.after.guid == (match m
                        case Connect(guid, _, parsed, _, _) => if parsed then Cut(guid) else s.before.guid
                        case ShowPin(deviceId, _, _, _) => Cut(deviceId)
                        case _ => s.before.guid)
  }

  ghost predicate TraceRight(connections: seq<seq<Message>>, trace: seq<Step>) {
    && (forall k {:trigger trace[k]} :: 0 <= k < |trace| ==>
          && trace[k].conn < |connections| && trace[k].msg < |connections[trace[k].conn]|
          && StepRight(connections[trace[k].conn][trace[k].msg], connections[trace[k].conn], trace[k]))
    && (forall k {:trigger trace[k]} :: 0 < k < |trace| ==>
          && trace[k].before.guid == trace[k - 1].after.guid
          && trace[k].before.registered == trace[k - 1].after.registered)
    && (trace != [] ==> !trace[0].before.registered)
  }

  /** Once registered, there was a right REGISTER. */
  lemma {:induction false} RegisteredByRegister(connections: seq<seq<Message>>, trace: seq<Step>, n: nat)
    requires TraceRight(connections, trace) && n < |trace| && trace[n].after.registered
    ensures exists k :: 0 <= k <= n && RightRegister(connections[trace[k].conn][trace[k].msg], trace[k].before)
  {
    if !RightRegister(connections[trace[n].conn][trace[n].msg], trace[n].before) {
      assert trace[n].before.registered;
      assert n > 0 && trace[n - 1].after.registered;
      RegisteredByRegister(connections, trace, n - 1);
    }
  }

  /** A 210 answer goes to a device that is known, or behind a right REGISTER. */
  lemma Answer210(connections: seq<seq<Message>>, trace: seq<Step>, n: nat)
    requires TraceRight(connections, trace) && n < |trace| && trace[n].answer == Ok210
    ensures var m := connections[trace[n].conn][trace[n].msg];
            m.Connect? &&
            (m.known ||
             exists k :: 0 <= k < n && RightRegister(connections[trace[k].conn][trace[k].msg], trace[k].before))
  {
    if trace[n].before.registered {
      assert n > 0 && trace[n - 1].after.registered;
      RegisteredByRegister(connections, trace, n - 1);
    }
  }

  // ---------- The loop ----------

  /** One message: the answer that is sent, if any, and whether the connection is still to be served. */
  method ServeMessage(device: VitaDevice, m: Message, pin: int) returns (answer: Answer, newPin: int, listen: bool,
                      going: bool)
    modifies device
    ensures answer == Ok210 <==> m.Connect? && m.parsed && (old(device.registered) || m.known)
    ensures answer == Ng605 <==> m.Connect? && m.parsed && !(old(device.registered) || m.known)
    ensures answer == Ok200 <==> m.Register? && m.deviceId == old(device.guid) && 0 <= pin == m.pinTry
    ensures answer == Ng610 <==> m.Register? && !(m.deviceId == old(device.guid) && 0 <= pin == m.pinTry)
    ensures answer == Cancel <==> m.ShowPin? && m.okay && m.newPin < 0
    ensures device.registered <==>
              old(device.registered) || (m.Register? && m.deviceId == old(device.guid) && 0 <= pin == m.pinTry)
    ensures m.Connect? && m.parsed ==> device.guid == if |m.guid| <= 32 then m.guid else m.guid[..32]
    ensures m.ShowPin? ==> device.guid == if |m.deviceId| <= 32 then m.deviceId else m.deviceId[..32]
    ensures !(m.Connect? && m.parsed) && !m.ShowPin? ==> device.guid == old(device.guid)
    ensures m.Connect? && m.parsed ==> device.dataPort == m.port
    ensures !(m.Connect? && m.parsed) ==> device.dataPort == old(device.dataPort)
    ensures newPin == if m.ShowPin? && m.okay then m.newPin else pin
    ensures !going <==>
              || m.ReadError? || m.Malformed? || (m.Connect? && !(m.parsed && m.writes)) || (m.Register? && !m.writes)
              || (m.ShowPin? && (!m.okay || (m.newPin < 0 && !m.writes)))
    ensures !listen <==> !going || m.Standby?
    ensures listen <==> !EndsListening(m)
    ensures going <==> !Abrupt(m)
    ensures device.connected <==> old(device.connected) || m.Standby?
  {
    answer, newPin, listen, going := Silent, pin, true, true;
    var writes := true;
    match m {
      case ReadError =>
        listen, going := false, false;
        return;
      case Malformed =>
        listen, going := false, false;
        return;
      case Connect(guid, port, parsed, known, w) =>
        if !parsed {
          listen, going := false, false;
          return;
        }
        device.guid, device.dataPort := Cut(guid), port;
        answer := if device.registered || known then Ok210 else Ng605;
        writes := w;
      case ShowPin(deviceId, okay, p, w) =>
        device.guid := Cut(deviceId);
        if !okay {
          listen, going := false, false;
          return;
        }
        newPin := p;
        if newPin >= 0 {
          return;
        }
        answer := Cancel;
        writes := w;
      case Register(deviceId, pinTry, w) =>
        if device.guid != deviceId {
          answer := Ng610;
        } else if pin < 0 {
          answer := Ng610;
        } else if pin != pinTry {
          answer := Ng610;
        } else {
          device.registered := true;
          answer := Ok200;
        }
        writes := w;
      case Standby =>
        listen := false;
        device.connected := true;
        return;
      case Other =>
        return;
    }
    if !writes {
      listen, going := false, false;
    }
  }

  /** A device that shows the PIN and sends it back is registered: an id of up to 32 chars comes through whole. */
  method ShowThenRegister(device: VitaDevice, deviceId: string, pin: int) returns (answer: Answer)
    requires |deviceId| <= 32 && 0 <= pin
    modifies device
    ensures answer == Ok200 && device.registered && device.guid == deviceId
  {
    var newPin, listen, going;
    answer, newPin, listen, going := ServeMessage(device, ShowPin(deviceId, true, pin, true), -1);
    answer, newPin, listen, going := ServeMessage(device, Register(deviceId, pin, true), newPin);
  }

  /** And one with a longer id never is, although it sends the PIN it has been shown. */
  method LongIdRefused(device: VitaDevice, deviceId: string, pin: int) returns (answer: Answer)
    requires 32 < |deviceId|
    modifies device
    ensures answer == Ng610 && device.registered == old(device.registered)
  {
    var newPin, listen, going;
    answer, newPin, listen, going := ServeMessage(device, ShowPin(deviceId, true, pin, true), -1);
    answer, newPin, listen, going := ServeMessage(device, Register(deviceId, pin, true), newPin);
  }

  /** The inner loop: one connection, until it is closed or cannot go on. */
  method ServeClient(device: VitaDevice, ghost connections: seq<seq<Message>>, ghost index: nat, conn: seq<Message>,
                     pin0: int, ghost trace0: seq<Step>)
    returns (pin: int, listen: bool, ghost trace: seq<Step>)
    requires index < |connections| && connections[index] == conn && pin0 == -1
    requires TraceRight(connections, trace0) && Behind(trace0, device.guid, device.registered)
    modifies device
    ensures TraceRight(connections, trace) && trace0 <= trace && Behind(trace, device.guid, device.registered)
    ensures Covers(conn, index, trace[|trace0|..])
    ensures listen ==> pin == -1
    ensures listen <==> forall m :: m in conn[..|trace| - |trace0|] ==> !EndsListening(m)
    ensures device.connected <==> old(device.connected) || Standby in conn[..|trace| - |trace0|]
  {
    hide TraceRight, StepRight, RightRegister, Behind, EndsListening;
    pin, listen, trace := pin0, true, trace0;
    var i := 0;
    while true
      invariant 0 <= i <= |conn| && |trace| == |trace0| + i && trace0 <= trace
      invariant TraceRight(connections, trace) && Behind(trace, device.guid, device.registered)
      invariant pin == LatestPin(conn, i)
      invariant listen <==> forall m :: m in conn[..i] ==> !EndsListening(m)
      invariant forall j :: 0 <= j < i ==> !Abrupt(conn[j])
      invariant forall k :: |trace0| <= k < |trace| ==> trace[k].conn == index && trace[k].msg == k - |trace0|
      invariant device.connected <==> old(device.connected) || Standby in conn[..i]
      decreases |conn| - i
    {
      if i == |conn| {
        pin := -1;
        break;
      }
      ghost var before := State(device.guid, device.registered, pin);
      assert conn[i] in conn;
      var answer, newPin, still, going := ServeMessage(device, conn[i], pin);
      ghost var step := Step(index, i, answer, before, State(device.guid, device.registered, newPin));
      StepIsRight(conn[i], conn, step);
      NextPin(conn, i);
      OneMoreStep(connections, trace, step);
      trace := trace + [step];
      assert conn[..i + 1] == conn[..i] + [conn[i]];
      pin, listen := newPin, listen && still;
      if !going {
        return;
      }
      i := i + 1;
    }
  }

  /** The trace ends in this state. */
  ghost predicate Behind(trace: seq<Step>, guid: string, registered: bool) {
    if trace == [] then !registered
    else trace[|trace| - 1].after.guid == guid && trace[|trace| - 1].after.registered == registered
  }

  lemma NextPin(conn: seq<Message>, i: nat)
    requires i < |conn|
    ensures LatestPin(conn, i + 1) == if conn[i].ShowPin? then conn[i].newPin else LatestPin(conn, i)
    ensures conn[i].ShowPin? && !EndsListening(conn[i]) ==> conn[i].okay
  {
  }

  lemma StepIsRight(m: Message, conn: seq<Message>, s: Step)
    requires s.msg < |conn| && conn[s.msg] == m && s.before.pin == LatestPin(conn, s.msg)
    requires s.after.registered <==>
               s.before.registered || (m.Register? && m.deviceId == s.before.guid && 0 <= s.before.pin == m.pinTry)
    requires s.answer == Ok210 <==> m.Connect? && m.parsed && (s.before.registered || m.known)
    requires s.answer == Ok200 <==> m.Register? && m.deviceId == s.before.guid && 0 <= s.before.pin == m.pinTry
    requires s.answer == Ng610 <==> m.Register? && !(m.deviceId == s.before.guid && 0 <= s.before.pin == m.pinTry)
    requires m.Connect? && m.parsed ==> s.after.guid == if |m.guid| <= 32 then m.guid else m.guid[..32]
    requires m.ShowPin? ==> s.after.guid == if |m.deviceId| <= 32 then m.deviceId else m.deviceId[..32]
    requires !(m.Connect? && m.parsed) && !m.ShowPin? ==> s.after.guid == s.before.guid
    ensures StepRight(m, conn, s)
  {
  }

  lemma OneMoreStep(connections: seq<seq<Message>>, trace: seq<Step>, s: Step)
    requires TraceRight(connections, trace) && Behind(trace, s.before.guid, s.before.registered)
    requires s.conn < |connections| && s.msg < |connections[s.conn]|
    requires StepRight(connections[s.conn][s.msg], connections[s.conn], s)
    ensures TraceRight(connections, trace + [s]) && Behind(trace + [s], s.after.guid, s.after.registered)
  {
    hide StepRight;
    var more := trace + [s];
    assert more[|trace|] == s && forall k {:trigger more[k]} :: 0 <= k < |trace| ==> more[k] == trace[k];
  }

  /** The steps for connection `i` are those between two starts. */
  predicate Part(connections: seq<seq<Message>>, i: nat, starts: seq<nat>, trace: seq<Step>)
    requires i < |connections| && i + 1 < |starts|
  {
    starts[i] <= starts[i + 1] <= |trace| && Covers(connections[i], i, trace[starts[i]..starts[i + 1]])
  }

  /** The trace falls into the steps for the first `n` connections, one after the other. */
  ghost predicate Divided(connections: seq<seq<Message>>, n: nat, starts: seq<nat>, trace: seq<Step>) {
    && n <= |connections| && |starts| == n + 1 && starts[0] == 0 && starts[n] == |trace|
    && forall i :: 0 <= i < n ==> Part(connections, i, starts, trace)
  }

  lemma DividedOnce(connections: seq<seq<Message>>, n: nat, starts: seq<nat>, before: seq<Step>, trace: seq<Step>)
    requires Divided(connections, n, starts, before) && before <= trace && n < |connections|
    requires Covers(connections[n], n, trace[|before|..])
    ensures Divided(connections, n + 1, starts + [|trace|], trace)
  {
    hide Covers;
    var more := starts + [|trace|];
    forall i | 0 <= i < n + 1
      ensures Part(connections, i, more, trace)
    {
      if i < n {
        assert Part(connections, i, starts, before);
        assert trace[more[i]..more[i + 1]] == before[starts[i]..starts[i + 1]];
      } else {
        assert trace[more[i]..more[i + 1]] == trace[|before|..];
      }
    }
  }

  /** No message of the first `n` connections ends the listening. */
  ghost predicate Quiet(connections: seq<seq<Message>>, n: nat)
    requires n <= |connections|
  {
    forall i, m :: 0 <= i < n && m in connections[i] ==> !EndsListening(m)
  }

  predicate Ended(conn: seq<Message>) {
    exists m :: m in conn && EndsListening(m)
  }

  /** VitaMTP_Get_Wireless_Device, from the first accept on.  `accepted` are the connections that have been
      accepted, with the PIN at that moment; `starts` tells where in the trace each one's steps begin. */
  method GetWirelessDevice(connections: seq<seq<Message>>)
    returns (device: VitaDevice, accepted: seq<int>, ghost trace: seq<Step>, ghost starts: seq<nat>)
    ensures |accepted| <= |connections| && forall i :: 0 <= i < |accepted| ==> accepted[i] == -1
    ensures Divided(connections, |accepted|, starts, trace) && TraceRight(connections, trace)
    ensures accepted != [] ==> Quiet(connections, |accepted| - 1)
    ensures |accepted| < |connections| ==> accepted != [] && Ended(connections[|accepted| - 1])
    ensures device.registered ==>
              exists k :: 0 <= k < |trace| && RightRegister(connections[trace[k].conn][trace[k].msg], trace[k].before)
    ensures device.connected ==> exists i :: 0 <= i < |accepted| && Standby in connections[i]
  {
    hide StepRight, EndsListening, RightRegister, TraceRight, Covers, Divided, Quiet, Ended, Behind;
    device := new VitaDevice();
    accepted, trace, starts := [], [], [0];
    NoSteps(connections);
    var pin, listen := -1, true;
    while listen && |accepted| < |connections|
      invariant |accepted| <= |connections| && forall i :: 0 <= i < |accepted| ==> accepted[i] == -1
      invariant Divided(connections, |accepted|, starts, trace)
      invariant accepted != [] ==> Quiet(connections, |accepted| - 1)
      invariant if listen then pin == -1 && Quiet(connections, |accepted|)
                else accepted != [] && Ended(connections[|accepted| - 1])
      invariant TraceRight(connections, trace) && Behind(trace, device.guid, device.registered) && fresh(device)
      invariant device.connected ==> exists i :: 0 <= i < |accepted| && Standby in connections[i]
      decreases |connections| - |accepted|
    {
      var index := |accepted|;
      ghost var before := trace;
      accepted := accepted + [pin];
      pin, listen, trace := ServeClient(device, connections, index, connections[index], pin, trace);
      WholeConnection(connections, index, trace[|before|..], listen);
      DividedOnce(connections, index, starts, before, trace);
      starts := starts + [|trace|];
    }
    if device.registered {
      HasTrace(connections, trace, device.guid);
      RegisteredByRegister(connections, trace, |trace| - 1);
    }
  }

  lemma NoSteps(connections: seq<seq<Message>>)
    ensures TraceRight(connections, []) && Behind([], "", false) && Divided(connections, 0, [0], []) &&
              Quiet(connections, 0)
  {
  }

  lemma HasTrace(connections: seq<seq<Message>>, trace: seq<Step>, guid: string)
    requires Behind(trace, guid, true)
    ensures trace != [] && trace[|trace| - 1].after.registered
  {
  }

  /** Who is still listening has served the whole connection, and met nothing that ends it. */
  lemma WholeConnection(connections: seq<seq<Message>>, index: nat, steps: seq<Step>, listen: bool)
    requires index < |connections| && Quiet(connections, index) && Covers(connections[index], index, steps)
    requires listen <==> forall m :: m in connections[index][..|steps|] ==> !EndsListening(m)
    ensures if listen then Quiet(connections, index + 1) else Ended(connections[index])
    ensures forall m :: m in connections[index][..|steps|] ==> m in connections[index]
  {
    hide EndsListening;
    var conn := connections[index];
    assert steps != [] ==> conn[|steps| - 1] in conn[..|steps|];
    assert |steps| == |conn| ==> conn[..|steps|] == conn;
  }
}
