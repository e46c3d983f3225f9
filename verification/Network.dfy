/**
 The network bring-up of main.c as a state machine. Tasks meet in one event group; every step below is
 one atomic access to it, to a global or to non-volatile storage. Task creation succeeds. What a call
 into another component answers is part of the action, so a run may have any answers in any order.
 */
module Network {
  import opened Options

  /** The bits of `xNetworkEventGroup`. */
  datatype Bits = Bits(
    init: bool,
    wifiConnected: bool, wifiDisconnected: bool, ipGot: bool,
    keyFail: bool, keySuccess: bool,
    certFail: bool, certSuccess: bool,
    tlsConnected: bool, tlsDisconnected: bool,
    mqttConnected: bool, mqttDisconnected: bool)

  const NO_BITS := Bits(false, false, false, false, false, false, false, false, false, false, false, false)

  type Key = nat

  /** A certificate names the key whose signing request it answers. */
  datatype Cert = Cert(key: Key, serial: nat)

  /**
   `pcDevKey`, `pcDevCert`, the key made by claiming, which is that of the signing request behind
   `pxSelfClaimData`, and the certificate `get_self_claim_certificate` returns.
   */
  datatype Ram = Ram(devKey: Option<Key>, devCert: Option<Cert>, claim: Option<Key>, issued: Option<Cert>)

  /** The runtime partition: the only thing that outlives a reboot. */
  datatype Nvs = Nvs(key: Option<Key>, cert: Option<Cert>)

  // ------------------------------------------------------ program counters

  /** `Spawning`: the bits returned by the wait, and the next of the five tests. */
  datatype Handler = Boot | Waiting | Spawning(seen: Bits, next: Stage)

  datatype Stage = ForWifi | ForKey | ForCert | ForTls | ForMqtt

  datatype KeyTask = ReadKey | ReadCert | Test | Generate | TakeKey | Store | Report(ok: bool)

  datatype CertTask = CertRead | CertTest | CertWait | CertClaim | CertTake | CertStore | CertReport(ok: bool)

  datatype TlsTask = TlsWait | TlsTest | TlsClose | TlsConnect | TlsReport(ok: bool)

  datatype MqttStatus = Success | NoMemory | SendOrRecvFailed | OtherError

  /** `Dropped`: TLS_CONNECTED_BIT is cleared, the failure bits are not yet set. */
  datatype MqttTask = MqttWait | MqttConnect | MqttReport(status: MqttStatus) | Dropped

  datatype Sender = SendWait | Publish | PublishFailed | SendDropped

  /** The event loop between the two halves of a Wi-Fi disconnect. */
  datatype Radio = Quiet | Dropping

  datatype State = State(
    bits: Bits, handler: Handler,
    key: seq<KeyTask>, cert: seq<CertTask>, tls: seq<TlsTask>, mqtt: seq<MqttTask>,
    sender: Sender, radio: Radio, tlsOpen: bool, ram: Ram, nvs: Nvs)

  // ------------------------------------------------------------- the steps

  /** What a foreign call answers: success or not, whether a failed store took effect, a new key or serial. */
  datatype Answer = Answer(ok: bool, took: bool, value: nat)

  /** Which task takes its next step; `i` numbers the live tasks of a kind. */
  datatype Action =
    | HandlerStep
    | KeyStep(i: nat, a: Answer)
    | CertStep(i: nat, a: Answer)
    | TlsStep(i: nat, a: Answer)
    | MqttStep(i: nat, status: MqttStatus)
    | SenderStep(ok: bool)
    | WifiUp | WifiDown | GotIp
    | Reboot

  function Start(nvs: Nvs): State {
    State(NO_BITS, Boot, [], [], [], [], SendWait, Quiet, false, Ram(None, None, None, None), nvs)
  }

  function Without<T>(q: seq<T>, i: nat): (r: seq<T>)
    requires i < |q|
    ensures |r| == |q| - 1
  {
    q[..i] + q[i + 1..]
  }

  /** One of the bits the handler waits for is set. */
  predicate Wakes(b: Bits) {
    b.init || b.wifiDisconnected || b.keyFail || b.certFail || b.tlsDisconnected || b.mqttDisconnected
  }

  /** What clearing them on exit leaves. */
  function Cleared(b: Bits): Bits {
    b.(init := false, wifiDisconnected := false, keyFail := false, certFail := false, tlsDisconnected := false,
       mqttDisconnected := false)
  }

  /** `prvNetworkHandlingTask`. */
  function ApplyHandler(s: State): State {
    match s.handler
    case Boot => s.(bits := s.bits.(init := true), handler := Waiting)
    case Waiting =>
      if Wakes(s.bits) then s.(bits := Cleared(s.bits), handler := Spawning(s.bits, ForWifi)) else s
    case Spawning(seen, next) =>
      match next
      case ForWifi => s.(handler := Spawning(seen, ForKey))
      case ForKey =>
        s.(handler := Spawning(seen, ForCert),
           key := if seen.init || seen.keyFail then s.key + [ReadKey] else s.key)
      case ForCert =>
        s.(handler := Spawning(seen, ForTls),
           cert := if seen.init || seen.certFail then s.cert + [CertRead] else s.cert)
      case ForTls =>
        s.(handler := Spawning(seen, ForMqtt),
           tls := if seen.init || seen.tlsDisconnected then s.tls + [TlsWait] else s.tls)
      case ForMqtt =>
        s.(handler := Waiting,
           mqtt := if seen.init || seen.mqttDisconnected then s.mqtt + [MqttWait] else s.mqtt)
  }

  /** `prvNvsGetStr`: null when nothing is stored, or when reading fails. */
  function Read<T>(stored: Option<T>, a: Answer): Option<T> {
    if a.ok then stored else None
  }

  /** `prvNvsSetStr`. A store that reports failure may or may not have taken effect. */
  function Stored<T>(before: Option<T>, now: Option<T>, a: Answer): Option<T> {
    if a.ok || a.took then now else before
  }

  /** `prvGetPrivKeyTask`. */
  function ApplyKey(s: State, i: nat, a: Answer): State
    requires i < |s.key|
  {
    match s.key[i]
    case ReadKey => s.(ram := s.ram.(devKey := Read(s.nvs.key, a)), key := s.key[i := ReadCert])
    case ReadCert => s.(ram := s.ram.(devCert := Read(s.nvs.cert, a)), key := s.key[i := Test])
    case Test =>
      s.(key := s.key[i := if s.ram.devKey.None? || s.ram.devCert.None? then Generate else Report(true)])
    case Generate =>
      if a.ok
      then s.(ram := s.ram.(claim := Some(a.value)), key := s.key[i := TakeKey])
      else s.(ram := s.ram.(claim := None), key := s.key[i := Report(false)])
    case TakeKey => s.(ram := s.ram.(devKey := s.ram.claim), key := s.key[i := Store])
    case Store =>
      s.(nvs := s.nvs.(key := Stored(s.nvs.key, s.ram.devKey, a)), key := s.key[i := Report(a.ok)])
    case Report(ok) =>
      s.(bits := if ok then s.bits.(keySuccess := true) else s.bits.(keyFail := true), key := Without(s.key, i))
  }

  /** `prvGetCertTask`. The claim service certifies the key of the signing request it is given. */
  function ApplyCert(s: State, i: nat, a: Answer): State
    requires i < |s.cert|
  {
    match s.cert[i]
    case CertRead => s.(ram := s.ram.(devCert := Read(s.nvs.cert, a)), cert := s.cert[i := CertTest])
    case CertTest => s.(cert := s.cert[i := if s.ram.devCert.None? then CertWait else CertReport(true)])
    case CertWait =>
      if s.bits.keySuccess && s.bits.ipGot then s.(cert := s.cert[i := CertClaim]) else s
    case CertClaim =>
      if a.ok && s.ram.claim.Some?
      then s.(ram := s.ram.(issued := Some(Cert(s.ram.claim.value, a.value))), cert := s.cert[i := CertTake])
      else s.(cert := s.cert[i := CertReport(false)])
    case CertTake => s.(ram := s.ram.(devCert := s.ram.issued), cert := s.cert[i := CertStore])
    case CertStore =>
      s.(nvs := s.nvs.(cert := Stored(s.nvs.cert, s.ram.devCert, a)), cert := s.cert[i := CertReport(a.ok)])
    case CertReport(ok) =>
      s.(bits := if ok then s.bits.(certSuccess := true) else s.bits.(certFail := true), cert := Without(s.cert, i))
  }

  /** `prvTlsConnectionTask`. `a.took` says whether the handle is set after connecting. */
  function ApplyTls(s: State, i: nat, a: Answer): State
    requires i < |s.tls|
  {
    match s.tls[i]
    case TlsWait =>
      if s.bits.keySuccess && s.bits.certSuccess && s.bits.ipGot
      then s.(tls := s.tls[i := TlsTest]) else s
    case TlsTest => s.(tls := s.tls[i := if s.tlsOpen then TlsClose else TlsConnect])
    case TlsClose => s.(tls := s.tls[i := TlsConnect])
    case TlsConnect => s.(tlsOpen := a.ok || a.took, tls := s.tls[i := TlsReport(a.ok)])
    case TlsReport(ok) =>
      s.(bits := if ok then s.bits.(tlsConnected := true) else s.bits.(tlsDisconnected := true),
         tls := Without(s.tls, i))
  }

  /** `prvMqttConnectionTask`. */
  function ApplyMqtt(s: State, i: nat, status: MqttStatus): State
    requires i < |s.mqtt|
  {
    match s.mqtt[i]
    case MqttWait => if s.bits.tlsConnected then s.(mqtt := s.mqtt[i := MqttConnect]) else s
    case MqttConnect => s.(mqtt := s.mqtt[i := MqttReport(status)])
    case MqttReport(r) =>
      (match r
       case Success => s.(bits := s.bits.(mqttConnected := true), mqtt := Without(s.mqtt, i))
       case NoMemory => s.(mqtt := Without(s.mqtt, i))
       case SendOrRecvFailed => s.(bits := s.bits.(tlsConnected := false), mqtt := s.mqtt[i := Dropped])
       case OtherError => s.(bits := s.bits.(mqttDisconnected := true), mqtt := Without(s.mqtt, i)))
    case Dropped => s.(bits := s.bits.(tlsDisconnected := true, mqttDisconnected := true), mqtt := Without(s.mqtt, i))
  }

  /** The waiting, publishing and failing of `prvQuickConnectSendingTask`. */
  function ApplySender(s: State, ok: bool): State {
    match s.sender
    case SendWait => if s.bits.mqttConnected then s.(sender := Publish) else s
    case Publish => s.(sender := if ok then SendWait else PublishFailed)
    case PublishFailed => s.(bits := s.bits.(tlsConnected := false, mqttConnected := false), sender := SendDropped)
    case SendDropped => s.(bits := s.bits.(tlsDisconnected := true, mqttDisconnected := true), sender := SendWait)
  }

  /** One step. An action that is not possible changes nothing. */
  function Apply(s: State, x: Action): State {
    match x
    case HandlerStep => ApplyHandler(s)
    case KeyStep(i, a) => if i < |s.key| then ApplyKey(s, i, a) else s
    case CertStep(i, a) => if i < |s.cert| then ApplyCert(s, i, a) else s
    case TlsStep(i, a) => if i < |s.tls| then ApplyTls(s, i, a) else s
    case MqttStep(i, r) => if i < |s.mqtt| then ApplyMqtt(s, i, r) else s
    case SenderStep(ok) => ApplySender(s, ok)
    case WifiUp => if s.radio.Quiet? then s.(bits := s.bits.(wifiConnected := true)) else s
    case WifiDown =>
      if s.radio.Quiet? then s.(bits := s.bits.(wifiConnected := false, ipGot := false), radio := Dropping)
      else s.(bits := s.bits.(wifiDisconnected := true), radio := Quiet)
    case GotIp => if s.radio.Quiet? then s.(bits := s.bits.(ipGot := true)) else s
    case Reboot => Start(s.nvs)
  }

  function ApplyAll(s: State, xs: seq<Action>): State
    decreases |xs|
  {
    if xs == [] then s else ApplyAll(Apply(s, xs[0]), xs[1..])
  }
}
