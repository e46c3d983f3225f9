/**
 From answers to bits: what the event group says of a worker is what the calls of that worker answered,
 whatever steps other tasks take between the call and the report.
 */
module Answers {
  import opened Network
  import opened Options
  import opened NetworkSafety
  import Credentials

  // ------------------------------------------------------- what the calls answered

  /** Success or failure of the private key, when the step decides it: main.c:474-502. */
  function KeyVerdict(ram: Ram, k: KeyTask, a: Answer): Option<bool> {
    match k
    case Test => if ram.devKey.Some? && ram.devCert.Some? then Some(true) else None
    case Generate => if a.ok then None else Some(false)
    case Store => Some(a.ok)
    case _ => None
  }

  /** The same of the certificate: main.c:551-577. */
  function CertVerdict(ram: Ram, c: CertTask, a: Answer): Option<bool> {
    match c
    case CertTest => if ram.devCert.Some? then Some(true) else None
    case CertClaim => if a.ok && ram.claim.Some? then None else Some(false)
    case CertStore => Some(a.ok)
    case _ => None
  }

  function Later<T>(last: Option<T>, now: Option<T>): Option<T> {
    if now.Some? then now else last
  }

  /**
   The last verdicts and answers since power-up; the signing request of the last key that was made, none
   after a failure, and the last certificate issued; `unclosed` while a connect left a TLS context behind
   that was not closed since; `up` and `ip` what the radio said last.
   */
  datatype Past = Past(key: Option<bool>, cert: Option<bool>, tls: Option<bool>, mqtt: Option<MqttStatus>,
                       claim: Option<Key>, issued: Option<Cert>, unclosed: bool, up: bool, ip: bool)

  const NO_PAST := Past(None, None, None, None, None, None, false, false, false)

  function NoteKey(p: Past, ram: Ram, k: KeyTask, a: Answer): Past {
    p.(key := Later(p.key, KeyVerdict(ram, k, a)),
       claim := if !k.Generate? then p.claim else if a.ok then Some(a.value) else None)
  }

  function NoteCert(p: Past, ram: Ram, c: CertTask, a: Answer): Past {
    p.(cert := Later(p.cert, CertVerdict(ram, c, a)),
       issued := if c.CertClaim? && a.ok && p.claim.Some? then Some(Cert(p.claim.value, a.value)) else p.issued)
  }

  function NoteTls(p: Past, k: TlsTask, a: Answer): Past {
    match k
    case TlsClose => p.(unclosed := false)
    case TlsConnect => p.(tls := Some(a.ok), unclosed := a.ok || a.took)
    case _ => p
  }

  function Note(p: Past, s: State, x: Action): Past {
    match x
    case KeyStep(i, a) => if i < |s.key| then NoteKey(p, s.ram, s.key[i], a) else p
    case CertStep(i, a) => if i < |s.cert| then NoteCert(p, s.ram, s.cert[i], a) else p
    case TlsStep(i, a) => if i < |s.tls| then NoteTls(p, s.tls[i], a) else p
    case MqttStep(i, r) => if i < |s.mqtt| && s.mqtt[i].MqttConnect? then p.(mqtt := Some(r)) else p
    case WifiUp => if s.radio.Quiet? then p.(up := true) else p
    case WifiDown => p.(up := false, ip := false)
    case GotIp => if s.radio.Quiet? then p.(ip := true) else p
    case Reboot => NO_PAST
    case _ => p
  }

  function History(s: State, xs: seq<Action>, p: Past): Past
    decreases |xs|
  {
    if xs == [] then p else History(Apply(s, xs[0]), xs[1..], Note(p, s, xs[0]))
  }

  // ------------------------------------------------------------ bits and history

  predicate KeyTold(success: bool, fail: bool, q: seq<KeyTask>, last: Option<bool>) {
    && (success ==> last == Some(true)) && (fail ==> last == Some(false))
    && forall k :: 0 <= k < |q| && q[k].Report? ==> last == Some(q[k].ok)
  }

  predicate CertTold(success: bool, fail: bool, q: seq<CertTask>, last: Option<bool>) {
    && (success ==> last == Some(true)) && (fail ==> last == Some(false))
    && forall k :: 0 <= k < |q| && q[k].CertReport? ==> last == Some(q[k].ok)
  }

  predicate TlsTold(connected: bool, open: bool, q: seq<TlsTask>, last: Option<bool>, unclosed: bool) {
    && (connected ==> last == Some(true))
    && (forall k :: 0 <= k < |q| && q[k].TlsReport? ==> last == Some(q[k].ok))
    && unclosed == (open && q != [TlsConnect])
    && (q == [TlsClose] ==> open)
  }

  predicate MqttTold(connected: bool, q: seq<MqttTask>, last: Option<MqttStatus>) {
    && (connected ==> last == Some(Success))
    && (forall k :: 0 <= k < |q| && q[k].MqttReport? ==> last == Some(q[k].status))
    && (forall k :: 0 <= k < |q| && q[k].Dropped? ==> last == Some(SendOrRecvFailed))
  }

  /** What a worker does after its wait, it does with the bits waited for: those are never cleared. */
  predicate Awaited(key: bool, both: bool, cert: seq<CertTask>, tls: seq<TlsTask>) {
    && (forall k :: 0 <= k < |cert| && Claiming(cert[k]) ==> key)
    && (forall k :: 0 <= k < |tls| && !tls[k].TlsWait? ==> both)
  }

  predicate Claiming(c: CertTask) {
    c.CertClaim? || c.CertTake? || c.CertStore?
  }

  ghost predicate Told(s: State, p: Past) {
    && KeyTold(s.bits.keySuccess, s.bits.keyFail, s.key, p.key)
    && CertTold(s.bits.certSuccess, s.bits.certFail, s.cert, p.cert)
    && TlsTold(s.bits.tlsConnected, s.tlsOpen, s.tls, p.tls, p.unclosed)
    && MqttTold(s.bits.mqttConnected, s.mqtt, p.mqtt)
    && Awaited(s.bits.keySuccess, s.bits.keySuccess && s.bits.certSuccess, s.cert, s.tls)
    && s.ram.claim == p.claim && s.ram.issued == p.issued
    && s.bits.wifiConnected == p.up && s.bits.ipGot == p.ip
  }

  lemma StartTold(nvs: Nvs)
    ensures Told(Start(nvs), NO_PAST)
  {
  }

  // ------------------------------------------------------------------ one worker

  /** A live worker is the only one of its kind, and no bit says yet what became of it. */
  lemma KeyOnly(s: State, i: nat)
    requires Control(s) && i < |s.key|
    ensures i == 0 && s.key == [s.key[0]] && !s.bits.keySuccess && !s.bits.keyFail
  {
    Reported(s.handler, ForKey, s.bits.init, s.bits.keyFail, |s.key|, s.bits.keySuccess, 0);
  }

  lemma CertOnly(s: State, i: nat)
    requires Control(s) && i < |s.cert|
    ensures i == 0 && s.cert == [s.cert[0]] && !s.bits.certSuccess && !s.bits.certFail
  {
    Reported(s.handler, ForCert, s.bits.init, s.bits.certFail, |s.cert|, s.bits.certSuccess, 0);
  }

  lemma TlsOnly(s: State, i: nat)
    requires Control(s) && i < |s.tls|
    ensures i == 0 && s.tls == [s.tls[0]] && !s.bits.tlsConnected && !s.bits.tlsDisconnected
  {
    Reported(s.handler, ForTls, s.bits.init, s.bits.tlsDisconnected, |s.tls|, s.bits.tlsConnected,
             Drops(s.mqtt) + One(s.sender.SendDropped?));
  }

  lemma MqttOnly(s: State, i: nat)
    requires Control(s) && i < |s.mqtt|
    ensures i == 0 && s.mqtt == [s.mqtt[0]] && !s.bits.mqttConnected && !s.bits.mqttDisconnected
  {
    MqttOnlyWorker(s, i);
  }

  /** The report of a key worker, and what every other step of it is. */
  lemma KeyReports(s: State, a: Answer)
    requires |s.key| == 1 && s.key[0].Report?
    ensures var b, ok := s.bits, s.key[0].ok;
            ApplyKey(s, 0, a)
              == s.(key := [], bits := b.(keySuccess := b.keySuccess || ok, keyFail := b.keyFail || !ok))
    ensures KeyVerdict(s.ram, s.key[0], a) == None
  {
    assert Without(s.key, 0) == [];
  }

  lemma KeyMoves(s: State, a: Answer)
    requires |s.key| == 1 && !s.key[0].Report?
    ensures var t, v := ApplyKey(s, 0, a), KeyVerdict(s.ram, s.key[0], a);
            && t == s.(ram := t.ram, nvs := t.nvs, key := t.key) && |t.key| == 1 && t.ram.issued == s.ram.issued
            && t.ram.claim == (if !s.key[0].Generate? then s.ram.claim else if a.ok then Some(a.value) else None)
            && if v.Some? then t.key[0] == Report(v.value) else !t.key[0].Report?
  {
  }

  lemma CertReports(s: State, a: Answer)
    requires |s.cert| == 1 && s.cert[0].CertReport?
    ensures var b, ok := s.bits, s.cert[0].ok;
            ApplyCert(s, 0, a)
              == s.(cert := [], bits := b.(certSuccess := b.certSuccess || ok, certFail := b.certFail || !ok))
    ensures CertVerdict(s.ram, s.cert[0], a) == None
  {
    assert Without(s.cert, 0) == [];
  }

  lemma CertMoves(s: State, a: Answer)
    requires |s.cert| == 1 && !s.cert[0].CertReport?
    ensures var t, v := ApplyCert(s, 0, a), CertVerdict(s.ram, s.cert[0], a);
            && t == s.(ram := t.ram, nvs := t.nvs, cert := t.cert) && |t.cert| == 1 && t.ram.claim == s.ram.claim
            && t.ram.issued == (if s.cert[0].CertClaim? && a.ok && s.ram.claim.Some?
                                then Some(Cert(s.ram.claim.value, a.value)) else s.ram.issued)
            && (if v.Some? then t.cert[0] == CertReport(v.value) else !t.cert[0].CertReport?)
            && (Claiming(t.cert[0]) ==> Claiming(s.cert[0]) || s.bits.keySuccess)
  {
  }

  lemma TlsReports(s: State, a: Answer)
    requires |s.tls| == 1 && s.tls[0].TlsReport?
    ensures var b, ok := s.bits, s.tls[0].ok;
            ApplyTls(s, 0, a)
              == s.(tls := [], bits := b.(tlsConnected := b.tlsConnected || ok,
                                          tlsDisconnected := b.tlsDisconnected || !ok))
  {
    assert Without(s.tls, 0) == [];
  }

  lemma TlsMoves(s: State, a: Answer)
    requires |s.tls| == 1
    ensures var t := ApplyTls(s, 0, a);
            match s.tls[0]
            case TlsWait =>
              t == s || (t == s.(tls := [TlsTest]) && s.bits.keySuccess && s.bits.certSuccess && s.bits.ipGot)
            case TlsTest => t == s.(tls := [if s.tlsOpen then TlsClose else TlsConnect])
            case TlsClose => t == s.(tls := [TlsConnect])
            case TlsConnect => t == s.(tls := [TlsReport(a.ok)], tlsOpen := a.ok || a.took)
            case TlsReport(_) => true
  {
  }

  lemma MqttReports(s: State, status: MqttStatus)
    requires |s.mqtt| == 1
    ensures var t, b := ApplyMqtt(s, 0, status), s.bits;
            match s.mqtt[0]
            case MqttReport(Success) => t == s.(mqtt := [], bits := b.(mqttConnected := true))
            case MqttReport(NoMemory) => t == s.(mqtt := [])
            case MqttReport(SendOrRecvFailed) => t == s.(mqtt := [Dropped], bits := b.(tlsConnected := false))
            case MqttReport(OtherError) => t == s.(mqtt := [], bits := b.(mqttDisconnected := true))
            case Dropped => t == s.(mqtt := [], bits := b.(tlsDisconnected := true, mqttDisconnected := true))
            case _ => true
  {
    assert Without(s.mqtt, 0) == [];
  }

  lemma MqttConnects(s: State, status: MqttStatus)
    requires |s.mqtt| == 1
    ensures var t := ApplyMqtt(s, 0, status);
            match s.mqtt[0]
            case MqttWait => t == s || (t == s.(mqtt := [MqttConnect]) && s.bits.tlsConnected)
            case MqttConnect => t == s.(mqtt := [MqttReport(status)])
            case _ => true
  {
  }

  /** What a key or a certificate worker may change leaves the other parts of the history as they are. */
  lemma KeyPart(s: State, t: State, p: Past, q: Past)
    requires Told(s, p) && KeyTold(t.bits.keySuccess, t.bits.keyFail, t.key, q.key)
    requires t == s.(ram := t.ram, nvs := t.nvs, key := t.key, bits := t.bits)
    requires t.bits == s.bits.(keySuccess := t.bits.keySuccess, keyFail := t.bits.keyFail)
    requires (s.bits.keySuccess ==> t.bits.keySuccess) && q == p.(key := q.key, claim := q.claim)
    requires t.ram.claim == q.claim && t.ram.issued == s.ram.issued
    ensures Told(t, q)
  {
    hide KeyTold, CertTold, TlsTold, MqttTold, Claiming;
  }

  lemma CertPart(s: State, t: State, p: Past, q: Past)
    requires Told(s, p) && CertTold(t.bits.certSuccess, t.bits.certFail, t.cert, q.cert)
    requires t == s.(ram := t.ram, nvs := t.nvs, cert := t.cert, bits := t.bits)
    requires t.bits == s.bits.(certSuccess := t.bits.certSuccess, certFail := t.bits.certFail)
    requires (s.bits.certSuccess ==> t.bits.certSuccess) && q == p.(cert := q.cert, issued := q.issued)
    requires forall k :: 0 <= k < |t.cert| && Claiming(t.cert[k]) ==> s.bits.keySuccess
    requires t.ram.claim == s.ram.claim && t.ram.issued == q.issued
    ensures Told(t, q)
  {
    hide KeyTold, CertTold, TlsTold, MqttTold, Claiming;
  }

  lemma KeyTells(s: State, i: nat, a: Answer, p: Past)
    requires Control(s) && Told(s, p) && i < |s.key|
    ensures Told(ApplyKey(s, i, a), NoteKey(p, s.ram, s.key[i], a))
  {
    hide ApplyKey, KeyVerdict, Control, CertTold, TlsTold, MqttTold, Awaited;
    KeyOnly(s, i);
    if s.key[0].Report? { KeyReports(s, a); } else { KeyMoves(s, a); }
    KeyPart(s, ApplyKey(s, i, a), p, NoteKey(p, s.ram, s.key[i], a));
  }

  lemma CertTells(s: State, i: nat, a: Answer, p: Past)
    requires Control(s) && Told(s, p) && i < |s.cert|
    ensures Told(ApplyCert(s, i, a), NoteCert(p, s.ram, s.cert[i], a))
  {
    hide ApplyCert, CertVerdict, Control, KeyTold, TlsTold, MqttTold, Claiming;
    CertOnly(s, i);
    if s.cert[0].CertReport? { CertReports(s, a); } else { CertMoves(s, a); }
    assert Claiming(s.cert[0]) ==> s.bits.keySuccess;
    CertPart(s, ApplyCert(s, i, a), p, NoteCert(p, s.ram, s.cert[i], a));
  }

  lemma TlsTells(s: State, i: nat, a: Answer, p: Past)
    requires Control(s) && Told(s, p) && i < |s.tls|
    ensures Told(ApplyTls(s, i, a), NoteTls(p, s.tls[i], a))
  {
    hide ApplyTls, Control, KeyTold, CertTold, MqttTold;
    TlsOnly(s, i);
    if s.tls[0].TlsReport? { TlsReports(s, a); } else { TlsMoves(s, a); }
  }

  /** An MQTT worker and the sender touch the four bits of the connection, and clear TLS_CONNECTED at most. */
  predicate Connections(b: Bits, c: Bits) {
    && c == b.(tlsConnected := c.tlsConnected, tlsDisconnected := c.tlsDisconnected,
               mqttConnected := c.mqttConnected, mqttDisconnected := c.mqttDisconnected)
    && (c.tlsConnected ==> b.tlsConnected)
  }

  lemma MqttPart(s: State, t: State, p: Past, last: Option<MqttStatus>)
    requires Told(s, p) && MqttTold(t.bits.mqttConnected, t.mqtt, last) && Connections(s.bits, t.bits)
    requires t == s.(mqtt := t.mqtt, sender := t.sender, bits := t.bits)
    ensures Told(t, p.(mqtt := last))
  {
    hide KeyTold, CertTold, MqttTold, Awaited;
  }

  predicate MqttSaid(s: State, t: State, last: Option<MqttStatus>) {
    && t == s.(mqtt := t.mqtt, bits := t.bits) && Connections(s.bits, t.bits)
    && MqttTold(t.bits.mqttConnected, t.mqtt, last)
  }

  lemma SaidWith(s: State, b: Bits, q: seq<MqttTask>, last: Option<MqttStatus>)
    requires b == s.bits.(tlsConnected := b.tlsConnected, tlsDisconnected := b.tlsDisconnected,
                          mqttConnected := b.mqttConnected, mqttDisconnected := b.mqttDisconnected)
    requires (b.tlsConnected ==> s.bits.tlsConnected) && MqttTold(b.mqttConnected, q, last)
    ensures MqttSaid(s, s.(bits := b, mqtt := q), last)
  {
  }

  lemma MqttReportSays(s: State, r: MqttStatus, status: MqttStatus)
    requires s.mqtt == [MqttReport(status)] && !s.bits.mqttConnected
    ensures MqttSaid(s, ApplyMqtt(s, 0, r), Some(status))
  {
    var b, rest, dropped := s.bits, Without(s.mqtt, 0), s.mqtt[0 := Dropped];
    assert rest == [] && dropped == [Dropped];
    hide Without, MqttSaid, Connections;
    match status
    case Success => SaidWith(s, b.(mqttConnected := true), rest, Some(Success));
    case NoMemory => SaidWith(s, b, rest, Some(NoMemory));
    case SendOrRecvFailed => SaidWith(s, b.(tlsConnected := false), dropped, Some(SendOrRecvFailed));
    case OtherError => SaidWith(s, b.(mqttDisconnected := true), rest, Some(OtherError));
  }

  lemma MqttMoveSays(s: State, r: MqttStatus, last: Option<MqttStatus>)
    requires |s.mqtt| == 1 && (s.mqtt[0].MqttWait? || s.mqtt[0].MqttConnect?) && !s.bits.mqttConnected
    ensures MqttSaid(s, ApplyMqtt(s, 0, r), if s.mqtt[0].MqttConnect? then Some(r) else last)
  {
    hide MqttSaid, Connections;
    var b := s.bits;
    if s.mqtt[0].MqttConnect? {
      SaidWith(s, b, s.mqtt[0 := MqttReport(r)], Some(r));
    } else {
      SaidWith(s, b, s.mqtt, last);
      SaidWith(s, b, s.mqtt[0 := MqttConnect], last);
    }
  }

  lemma MqttDropSays(s: State, r: MqttStatus, last: Option<MqttStatus>)
    requires s.mqtt == [Dropped] && !s.bits.mqttConnected
    ensures MqttSaid(s, ApplyMqtt(s, 0, r), last)
  {
    var rest := Without(s.mqtt, 0);
    assert rest == [];
    hide Without, MqttSaid, Connections;
    SaidWith(s, s.bits.(tlsDisconnected := true, mqttDisconnected := true), rest, last);
  }

  lemma MqttSays(s: State, r: MqttStatus, last: Option<MqttStatus>)
    requires |s.mqtt| == 1 && !s.bits.mqttConnected && MqttTold(false, s.mqtt, last)
    ensures MqttSaid(s, ApplyMqtt(s, 0, r), if s.mqtt[0].MqttConnect? then Some(r) else last)
  {
    hide ApplyMqtt, MqttSaid;
    assert s.mqtt == [s.mqtt[0]];
    match s.mqtt[0]
    case Dropped => MqttDropSays(s, r, last);
    case MqttReport(status) => MqttReportSays(s, r, status);
    case _ => MqttMoveSays(s, r, last);
  }

  lemma MqttTells(s: State, i: nat, r: MqttStatus, p: Past)
    requires Control(s) && Told(s, p) && i < |s.mqtt|
    ensures Told(ApplyMqtt(s, i, r), Note(p, s, MqttStep(i, r)))
  {
    hide ApplyMqtt, Control, KeyTold, CertTold, TlsTold, MqttTold, Awaited, Connections;
    MqttOnly(s, i);
    MqttSays(s, r, p.mqtt);
    var last := if s.mqtt[0].MqttConnect? then Some(r) else p.mqtt;
    MqttPart(s, ApplyMqtt(s, i, r), p, last);
  }

  lemma SenderTells(s: State, ok: bool, p: Past)
    requires Told(s, p)
    ensures Told(ApplySender(s, ok), p)
  {
    hide KeyTold, CertTold, Awaited;
    var b := s.bits;
    match s.sender
    case SendWait => assert Told(s.(sender := Publish), p);
    case Publish => assert Told(s.(sender := if ok then SendWait else PublishFailed), p);
    case PublishFailed =>
      assert Told(s.(bits := b.(tlsConnected := false, mqttConnected := false), sender := SendDropped), p);
    case SendDropped =>
      assert Told(s.(bits := b.(tlsDisconnected := true, mqttDisconnected := true), sender := SendWait), p);
  }

  lemma KeyStarts(s: State, p: Past, asked: bool)
    requires Told(s, p)
    ensures KeyTold(s.bits.keySuccess, s.bits.keyFail, s.key + When(asked, ReadKey), p.key)
  {
    hide CertTold, TlsTold, MqttTold, Awaited;
  }

  lemma CertStarts(s: State, p: Past, asked: bool)
    requires Told(s, p)
    ensures var q := s.cert + When(asked, CertRead);
            && CertTold(s.bits.certSuccess, s.bits.certFail, q, p.cert)
            && Awaited(s.bits.keySuccess, s.bits.keySuccess && s.bits.certSuccess, q, s.tls)
  {
    hide KeyTold, TlsTold, MqttTold;
  }

  lemma TlsStarts(s: State, p: Past, asked: bool)
    requires Told(s, p) && |s.tls + When(asked, TlsWait)| <= 1
    ensures var q := s.tls + When(asked, TlsWait);
            && TlsTold(s.bits.tlsConnected, s.tlsOpen, q, p.tls, p.unclosed)
            && Awaited(s.bits.keySuccess, s.bits.keySuccess && s.bits.certSuccess, s.cert, q)
  {
    hide KeyTold, CertTold, MqttTold;
    if s.tls == [] || !asked { assert s.tls + When(asked, TlsWait) == if asked then [TlsWait] else s.tls; }
  }

  lemma MqttStarts(s: State, p: Past, asked: bool)
    requires Told(s, p)
    ensures MqttTold(s.bits.mqttConnected, s.mqtt + When(asked, MqttWait), p.mqtt)
  {
    hide KeyTold, CertTold, TlsTold, Awaited;
  }

  /** A test starts a worker, beside none of its kind. */
  lemma TestTells(s: State, p: Past)
    requires Control(ApplyHandler(s)) && Told(s, p) && s.handler.Spawning?
    ensures Told(ApplyHandler(s), p)
  {
    hide KeyTold, CertTold, TlsTold, MqttTold, Awaited, Control, ApplyHandler, When;
    var t, seen := ApplyHandler(s), s.handler.seen;
    TestFrame(s);
    match s.handler.next
    case ForWifi =>
    case ForKey => KeyStarts(s, p, seen.init || seen.keyFail);
    case ForCert => CertStarts(s, p, seen.init || seen.certFail);
    case ForTls =>
      if t.tls != [] { TlsOnly(t, 0); }
      TlsStarts(s, p, seen.init || seen.tlsDisconnected);
    case ForMqtt => MqttStarts(s, p, seen.init || seen.mqttDisconnected);
  }

  lemma HandlerTells(s: State, p: Past)
    requires Control(s) && Told(s, p)
    ensures Told(ApplyHandler(s), p)
  {
    HandlerKeeps(s);
    hide TlsTold, MqttTold, Awaited, Control;
    match s.handler
    case Boot => assert Told(s.(bits := s.bits.(init := true), handler := Waiting), p);
    case Waiting => assert Told(s.(bits := Cleared(s.bits), handler := Spawning(s.bits, ForWifi)), p);
    case Spawning(_, _) =>
      hide Told, ApplyHandler;
      TestTells(s, p);
  }

  lemma RadioTells(s: State, x: Action, p: Past)
    requires Told(s, p) && (x.WifiUp? || x.WifiDown? || x.GotIp?)
    requires s.radio.Dropping? ==> !p.up && !p.ip
    ensures Told(Apply(s, x), Note(p, s, x))
  {
    hide KeyTold, CertTold, TlsTold, MqttTold, Awaited, ApplyHandler, ApplyKey, ApplyCert, ApplyTls, ApplyMqtt,
      ApplySender;
    var b := s.bits;
    if s.radio.Quiet? {
      match x
      case WifiUp => assert Told(s.(bits := b.(wifiConnected := true)), Note(p, s, x));
      case WifiDown =>
        assert Told(s.(bits := b.(wifiConnected := false, ipGot := false), radio := Dropping), Note(p, s, x));
      case GotIp => assert Told(s.(bits := b.(ipGot := true)), Note(p, s, x));
    } else if x.WifiDown? {
      assert Told(s.(bits := b.(wifiDisconnected := true), radio := Quiet), Note(p, s, x));
    }
  }

  /** Between the two halves of a disconnect there is no link. */
  predicate LinkDown(s: State) {
    s.radio.Dropping? ==> !s.bits.wifiConnected && !s.bits.ipGot
  }

  lemma OthersLeaveRadio(s: State, x: Action)
    requires !x.WifiUp? && !x.WifiDown? && !x.GotIp? && !x.Reboot?
    ensures Apply(s, x).radio == s.radio
  {
    hide Without, ApplyMqtt, ApplyHandler;
    match x
    case HandlerStep => assert ApplyHandler(s).radio == s.radio by { HandlerLeavesRadio(s); }
    case KeyStep(i, a) => if i < |s.key| { assert ApplyKey(s, i, a).radio == s.radio; }
    case CertStep(i, a) => if i < |s.cert| { assert ApplyCert(s, i, a).radio == s.radio; }
    case TlsStep(i, a) => if i < |s.tls| { assert ApplyTls(s, i, a).radio == s.radio; }
    case MqttStep(i, r) => if i < |s.mqtt| { MqttLeavesRadio(s, i, r); }
    case SenderStep(_) =>
  }

  lemma HandlerLeavesRadio(s: State)
    ensures ApplyHandler(s).radio == s.radio
  {
  }

  lemma MqttLeavesRadio(s: State, i: nat, r: MqttStatus)
    requires i < |s.mqtt|
    ensures ApplyMqtt(s, i, r).radio == s.radio
  {
    hide Without;
  }

  ghost predicate Settled(s: State, p: Past) {
    Control(s) && Told(s, p) && LinkDown(s)
  }

  lemma WorkerTold(s: State, x: Action, p: Past)
    requires Control(s) && Told(s, p) && (x.KeyStep? || x.CertStep? || x.TlsStep? || x.MqttStep?)
    ensures Told(Apply(s, x), Note(p, s, x))
  {
    hide Control, Told, ApplyHandler, ApplyKey, ApplyCert, ApplyTls, ApplyMqtt, ApplySender, NoteKey, NoteCert, NoteTls;
    match x
    case KeyStep(i, a) => if i < |s.key| { KeyTells(s, i, a, p); }
    case CertStep(i, a) => if i < |s.cert| { CertTells(s, i, a, p); }
    case TlsStep(i, a) => if i < |s.tls| { TlsTells(s, i, a, p); }
    case MqttStep(i, r) => if i < |s.mqtt| { MqttTells(s, i, r, p); }
  }

  lemma StepTold(s: State, x: Action, p: Past)
    requires Settled(s, p)
    ensures Told(Apply(s, x), Note(p, s, x))
  {
    assert s.radio.Dropping? ==> !p.up && !p.ip;
    hide Control, Told;
    if x.KeyStep? || x.CertStep? || x.TlsStep? || x.MqttStep? {
      hide Apply, Note;
      WorkerTold(s, x, p);
    } else if x.WifiUp? || x.WifiDown? || x.GotIp? {
      hide Apply, Note;
      RadioTells(s, x, p);
    } else {
      hide ApplyHandler, ApplySender;
      match x
      case HandlerStep => HandlerTells(s, p);
      case SenderStep(ok) => SenderTells(s, ok, p);
      case Reboot => StartTold(s.nvs);
    }
  }

  lemma OthersLeaveLink(s: State, x: Action, p: Past)
    requires !x.WifiUp? && !x.WifiDown? && !x.GotIp? && !x.Reboot?
    ensures Note(p, s, x).up == p.up && Note(p, s, x).ip == p.ip
  {
  }

  lemma RadioLink(s: State, x: Action)
    requires LinkDown(s) && (x.WifiUp? || x.WifiDown? || x.GotIp? || x.Reboot?)
    ensures LinkDown(Apply(s, x))
  {
    hide ApplyHandler, ApplyKey, ApplyCert, ApplyTls, ApplyMqtt, ApplySender;
  }

  lemma StepTells(s: State, x: Action, p: Past)
    requires Settled(s, p)
    ensures Settled(Apply(s, x), Note(p, s, x))
  {
    hide Control, Apply, Note, KeyTold, CertTold, TlsTold, MqttTold, Awaited;
    StepKeeps(s, x);
    StepTold(s, x, p);
    if x.WifiUp? || x.WifiDown? || x.GotIp? || x.Reboot? {
      RadioLink(s, x);
    } else {
      OthersLeaveRadio(s, x);
      OthersLeaveLink(s, x, p);
    }
  }

  lemma {:induction false} RunTells(s: State, xs: seq<Action>, p: Past)
    requires Settled(s, p)
    ensures Settled(ApplyAll(s, xs), History(s, xs, p))
    decreases |xs|
  {
    hide Settled, Apply, Note;
    if xs == [] {
    } else {
      StepTells(s, xs[0], p);
      RunTells(Apply(s, xs[0]), xs[1..], Note(p, s, xs[0]));
    }
  }

  /**
   On every run from power-up, with any answers in any order: a bit of success or failure stands only
   for what the calls of its worker answered last since the last reboot, the two radio bits are exactly
   what the radio said last, and the signing request and the certificate held are those answered last. A
   worker connects TLS only when every context an earlier connect left open was closed, and closes only
   one that was left open.
   */
  lemma BitsTellAnswers(nvs: Nvs, xs: seq<Action>)
    ensures var s, p := ApplyAll(Start(nvs), xs), History(Start(nvs), xs, NO_PAST);
            && (s.bits.keySuccess ==> p.key == Some(true)) && (s.bits.keyFail ==> p.key == Some(false))
            && (s.bits.certSuccess ==> p.cert == Some(true)) && (s.bits.certFail ==> p.cert == Some(false))
            && (s.bits.tlsConnected ==> p.tls == Some(true))
            && (s.bits.mqttConnected ==> p.mqtt == Some(Success))
            && s.ram.claim == p.claim && s.ram.issued == p.issued
            && s.bits.wifiConnected == p.up && s.bits.ipGot == p.ip
            && (forall i :: 0 <= i < |s.tls| ==>
                  (s.tls[i].TlsConnect? ==> !p.unclosed) && (s.tls[i].TlsClose? ==> p.unclosed))
  {
    var s, p := ApplyAll(Start(nvs), xs), History(Start(nvs), xs, NO_PAST);
    StartControl(nvs);
    StartTold(nvs);
    RunTells(Start(nvs), xs, NO_PAST);
    hide Control, ApplyAll, History, Awaited, MqttUsesTls;
    forall i | 0 <= i < |s.tls|
      ensures (s.tls[i].TlsConnect? ==> !p.unclosed) && (s.tls[i].TlsClose? ==> p.unclosed)
    {
      TlsOnly(s, i);
    }
  }
}