/**
 * Finding the Arduino among the serial ports and opening it, retrying every
 * five seconds until it opens (`detectar_puerto_arduino`, `conectar_serial`).
 * The port listing and the outcome of each open are inputs: one `Attempt`
 * per turn of the retry loop.
 */
module Serial {
  import opened Wrappers

  /** The USB vendor and product ids of the board. */
  const ArduinoVid: int := 0x2341
  const ArduinoPid: int := 0x1002
  /** The line settings of `serial.Serial(puerto, 115200, timeout=2)`. */
  const BaudRate: nat := 115200
  const ReadTimeout: nat := 2
  /** Seconds slept after a turn of the retry loop that did not connect. */
  const RetryDelay: nat := 5

  /** One entry of `comports()`; a port without USB ids has `None` for them. */
  datatype PortInfo = PortInfo(device: string, vid: Option<int>, pid: Option<int>)

  /** An open serial connection: the device, its settings and a handle naming it. */
  datatype Connection = Connection(device: string, baud: nat, timeout: nat, handle: nat)

  /** One turn of the retry loop: the ports listed, and whether opening the device raises. */
  datatype Attempt = Attempt(ports: seq<PortInfo>, openFails: bool, handle: nat)

  /** The port carries the board's vendor and product ids. */
  predicate IsArduino(p: PortInfo) {
    p.vid == Some(ArduinoVid) && p.pid == Some(ArduinoPid)
  }

  /** The device of the first port that is the board, if any. */
  function FirstArduino(ports: seq<PortInfo>): (r: Option<string>)
    ensures r.Some? <==> exists i :: 0 <= i < |ports| && IsArduino(ports[i])
    ensures r.Some? ==> exists i :: 0 <= i < |ports| && IsArduino(ports[i]) && r.value == ports[i].device &&
                                    forall j :: 0 <= j < i ==> !IsArduino(ports[j])
  {
    if ports == [] then None
    else if IsArduino(ports[0]) then Some(ports[0].device)
    else
      var r := FirstArduino(ports[1..]);
      assert forall i :: 0 < i < |ports| ==> ports[i] == ports[1..][i - 1];
      if r.Some? then
        var i :| 0 <= i < |ports[1..]| && IsArduino(ports[1..][i]) && r.value == ports[1..][i].device &&
                 forall j :: 0 <= j < i ==> !IsArduino(ports[1..][j]);
        assert IsArduino(ports[i + 1]) && forall j :: 0 <= j < i + 1 ==> !IsArduino(ports[j]);
        r
      else r
  }

  /** `detectar_puerto_arduino()`: scan the ports in order, return the first board's device. */
  method DetectArduino(ports: seq<PortInfo>) returns (r: Option<string>)
    ensures r == FirstArduino(ports)
  {
    for i := 0 to |ports|
      invariant FirstArduino(ports) == FirstArduino(ports[i..])
    {
      assert ports[i..][1..] == ports[i + 1..];
      if IsArduino(ports[i]) {
        return Some(ports[i].device);
      }
    }
    return None;
  }

  /** The turn connects: a board is found with a non-empty device name (`if puerto:`) and opening it does not raise. */
  predicate Connects(a: Attempt) {
    var found := FirstArduino(a.ports);
    found.Some? && found.value != "" && !a.openFails
  }

  /** The connection a connecting turn opens. */
  function Opened(a: Attempt): Connection
    requires Connects(a)
  {
    Connection(FirstArduino(a.ports).value, BaudRate, ReadTimeout, a.handle)
  }

  /** The index of the first turn that connects, if any does. */
  function FirstSuccess(attempts: seq<Attempt>): (r: Option<nat>)
    ensures r.Some? <==> exists i :: 0 <= i < |attempts| && Connects(attempts[i])
    ensures r.Some? ==> r.value < |attempts| && Connects(attempts[r.value]) &&
                        forall j :: 0 <= j < r.value ==> !Connects(attempts[j])
  {
    if attempts == [] then None
    else if Connects(attempts[0]) then Some(0)
    else
      var r := FirstSuccess(attempts[1..]);
      assert forall i :: 0 < i < |attempts| ==> attempts[i] == attempts[1..][i - 1];
      if r.Some? then Some(r.value + 1) else None
  }

  /**
   * The connection `conectar_serial()` returns once some turn connects: the
   * board's device, opened at 115200 baud with a two-second timeout.
   */
  function Established(attempts: seq<Attempt>): (c: Connection)
    requires FirstSuccess(attempts).Some?
    ensures c.baud == 115200 && c.timeout == 2 && c.device != ""
    ensures exists i, j :: 0 <= i < |attempts| && 0 <= j < |attempts[i].ports| &&
                           IsArduino(attempts[i].ports[j]) && attempts[i].ports[j].device == c.device
  {
    var k := FirstSuccess(attempts).value;
    var j :| 0 <= j < |attempts[k].ports| && IsArduino(attempts[k].ports[j]) &&
             FirstArduino(attempts[k].ports).value == attempts[k].ports[j].device &&
             forall j' :: 0 <= j' < j ==> !IsArduino(attempts[k].ports[j']);
    Opened(attempts[k])
  }

  /**
   * `conectar_serial()` over the turns given: the connection opened by the first
   * turn that connects and the seconds slept before it (five per earlier turn);
   * `None` when no given turn connects, where the source is still retrying.
   */
  method ConnectSerial(attempts: seq<Attempt>) returns (conn: Option<Connection>, slept: nat)
    ensures conn.Some? <==> FirstSuccess(attempts).Some?
    ensures conn.Some? ==> conn.value == Opened(attempts[FirstSuccess(attempts).value]) &&
                           slept == RetryDelay * FirstSuccess(attempts).value
    ensures conn.None? ==> slept == RetryDelay * |attempts|
  {
    slept := 0;
    var k := 0;
    while k < |attempts|
      invariant 0 <= k <= |attempts|
      invariant forall j :: 0 <= j < k ==> !Connects(attempts[j])
      invariant slept == RetryDelay * k
    {
      var puerto := DetectArduino(attempts[k].ports);
      if puerto.Some? && puerto.value != "" {
        if !attempts[k].openFails {
          assert Connects(attempts[k]);
          FirstSuccessAt(attempts, k);
          return Some(Connection(puerto.value, BaudRate, ReadTimeout, attempts[k].handle)), slept;
        }
      }
      assert !Connects(attempts[k]);
      slept := slept + RetryDelay;
      k := k + 1;
    }
    return None, slept;
  }

  /** The first turn that connects is the one after a run of turns that do not. */
  lemma FirstSuccessAt(attempts: seq<Attempt>, k: nat)
    requires k < |attempts| && Connects(attempts[k])
    requires forall j :: 0 <= j < k ==> !Connects(attempts[j])
    ensures FirstSuccess(attempts) == Some(k)
  {
    var r := FirstSuccess(attempts);
    assert r.Some?;
    if r.value < k {
      assert false;
    } else if r.value > k {
      assert false;
    }
  }

  /** With no ports listed nothing is detected. */
  lemma NoPortsNoBoard()
    ensures FirstArduino([]) == None
  {
  }

  /**
   * A board listed on every turn, whose first open raises and whose second
   * succeeds, yields the second handle after one five-second sleep.
   */
  lemma ReconnectAfterOpenFailure(port: PortInfo, h1: nat, h2: nat)
    requires IsArduino(port) && port.device != ""
    ensures FirstSuccess([Attempt([port], true, h1), Attempt([port], false, h2)]) == Some(1)
    ensures Opened(Attempt([port], false, h2)) == Connection(port.device, 115200, 2, h2)
  {
    assert FirstArduino([port]) == Some(port.device);
  }
}
