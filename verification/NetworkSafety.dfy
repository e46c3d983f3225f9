/**
 What every run of the network bring-up keeps: no restart is lost or doubled, the TLS handle has one
 user at a time, and stored credentials belong together.
 */
module NetworkSafety {
  import opened Network
  import opened Options

  // ------------------------------------------------------------------ tokens

  function One(b: bool): nat {
    if b then 1 else 0
  }

  function Rank(g: Stage): nat {
    match g
    case ForWifi => 0
    case ForKey => 1
    case ForCert => 2
    case ForTls => 3
    case ForMqtt => 4
  }

  /** The failure bit that restarts a kind of worker. */
  predicate Asks(b: Bits, g: Stage) {
    match g
    case ForWifi => b.wifiDisconnected
    case ForKey => b.keyFail
    case ForCert => b.certFail
    case ForTls => b.tlsDisconnected
    case ForMqtt => b.mqttDisconnected
  }

  /** The handler has seen the bit and will still act on it. */
  predicate Pending(h: Handler, g: Stage) {
    h.Spawning? && Rank(h.next) <= Rank(g) && (h.seen.init || Asks(h.seen, g))
  }

  /**
   Everywhere the right to run one kind of worker can be: not handed out yet, in the failure bit, seen
   by the handler, with a live worker, spent in the success bit, or with a task that has cleared the
   success bit and not yet set the failure bit.
   */
  function Account(h: Handler, g: Stage, init: bool, fail: bool, live: nat, success: bool, transit: nat): nat {
    One(h.Boot?) + One(init) + One(fail) + One(Pending(h, g)) + live + One(success) + transit
  }

  function Drops(q: seq<MqttTask>): nat {
    if q == [] then 0 else One(q[0].Dropped?) + Drops(q[1..])
  }

  function KeyTokens(s: State): nat {
    Account(s.handler, ForKey, s.bits.init, s.bits.keyFail, |s.key|, s.bits.keySuccess, 0)
  }

  function CertTokens(s: State): nat {
    Account(s.handler, ForCert, s.bits.init, s.bits.certFail, |s.cert|, s.bits.certSuccess, 0)
  }

  function TlsTokens(s: State): nat {
    Account(s.handler, ForTls, s.bits.init, s.bits.tlsDisconnected, |s.tls|, s.bits.tlsConnected,
            Drops(s.mqtt) + One(s.sender.SendDropped?))
  }

  function MqttTokens(s: State): nat {
    Account(s.handler, ForMqtt, s.bits.init, s.bits.mqttDisconnected, |s.mqtt|, s.bits.mqttConnected,
            One(s.sender.SendDropped?))
  }

  predicate Tokens(s: State) {
    KeyTokens(s) == 1 && CertTokens(s) == 1 && TlsTokens(s) == 1 && MqttTokens(s) <= 1
  }

  // How a token moves: a worker reports, a connection is lost, its loss is flagged, the handler boots,
  // wakes up, and goes from one test to the next.

  lemma Reported(h: Handler, g: Stage, init: bool, fail: bool, live: nat, success: bool, transit: nat)
    requires Account(h, g, init, fail, live, success, transit) <= 1 && live >= 1
    ensures Account(h, g, init, fail, live, success, transit) == 1 && live == 1 && !fail && !success && transit == 0
    ensures Account(h, g, init, true, live - 1, success, transit) == 1
    ensures Account(h, g, init, fail, live - 1, true, transit) == 1
    ensures Account(h, g, init, fail, live - 1, success, transit) == 0
  {
  }

  lemma Lost(h: Handler, g: Stage, init: bool, fail: bool, live: nat, transit: nat)
    requires Account(h, g, init, fail, live, true, transit) <= 1
    ensures Account(h, g, init, fail, live, true, transit) == 1 && live == 0 && transit == 0 && !fail
    ensures Account(h, g, init, fail, live, false, 1) == 1
  {
  }

  lemma Flagged(h: Handler, g: Stage, init: bool, fail: bool, live: nat, success: bool, transit: nat)
    requires Account(h, g, init, fail, live, success, transit) <= 1 && transit >= 1
    ensures Account(h, g, init, fail, live, success, transit) == 1 && transit == 1 && live == 0 && !fail && !success
    ensures Account(h, g, init, true, live, success, 0) == 1
  {
  }

  lemma Booted(g: Stage, init: bool, fail: bool, live: nat, success: bool, transit: nat)
    requires Account(Boot, g, init, fail, live, success, transit) <= 1
    ensures !init
    ensures Account(Waiting, g, true, fail, live, success, transit)
         == Account(Boot, g, init, fail, live, success, transit)
  {
  }

  lemma Woken(seen: Bits, g: Stage, live: nat, success: bool, transit: nat)
    requires Account(Waiting, g, seen.init, Asks(seen, g), live, success, transit) <= 1
    ensures Account(Spawning(seen, ForWifi), g, false, false, live, success, transit)
         == Account(Waiting, g, seen.init, Asks(seen, g), live, success, transit)
  {
  }

  function Next(seen: Bits, n: Stage): Handler {
    match n
    case ForWifi => Spawning(seen, ForKey)
    case ForKey => Spawning(seen, ForCert)
    case ForCert => Spawning(seen, ForTls)
    case ForTls => Spawning(seen, ForMqtt)
    case ForMqtt => Waiting
  }

  lemma Tested(seen: Bits, n: Stage, g: Stage, init: bool, fail: bool, live: nat, success: bool, transit: nat)
    requires g != ForWifi
    ensures Account(Next(seen, n), g, init, fail, live + One(n == g && (seen.init || Asks(seen, g))), success, transit)
         == Account(Spawning(seen, n), g, init, fail, live, success, transit)
  {
  }

  // ------------------------------------------------------------------- links

  /** An MQTT worker that uses the TLS connection, or has used it and not reported. */
  predicate UsesTls(m: MqttTask) {
    m.MqttConnect? || m.MqttReport?
  }

  predicate MqttUsesTls(q: seq<MqttTask>) {
    exists i :: 0 <= i < |q| && UsesTls(q[i])
  }

  predicate Links(s: State) {
    && (s.bits.mqttConnected ==> s.bits.tlsConnected)
    && (MqttUsesTls(s.mqtt) ==> s.bits.tlsConnected)
    && (s.sender.Publish? || s.sender.PublishFailed? ==> s.bits.mqttConnected)
  }

  ghost predicate Control(s: State) {
    Tokens(s) && Links(s)
  }

  /** The MQTT worker is about to end without setting a bit. */
  predicate GivesUp(s: State, x: Action) {
    x.MqttStep? && x.i < |s.mqtt| && s.mqtt[x.i] == MqttReport(NoMemory)
  }

  /** One step keeps the invariant; every token is conserved, but for the one an MQTT worker gives up. */
  ghost predicate Kept(s: State, x: Action) {
    var t := Apply(s, x);
    && Control(t)
    && MqttTokens(t) == if x.Reboot? then 1 else if GivesUp(s, x) then 0 else MqttTokens(s)
  }

  lemma StartControl(nvs: Nvs)
    ensures Control(Start(nvs)) && MqttTokens(Start(nvs)) == 1
  {
  }

  lemma Appended(q: seq<MqttTask>)
    ensures Drops(q + [MqttWait]) == Drops(q) && MqttUsesTls(q + [MqttWait]) == MqttUsesTls(q)
  {
    assert forall i :: 0 <= i < |q| ==> (q + [MqttWait])[i] == q[i];
    if q == [] {
    } else {
      assert (q + [MqttWait])[1..] == q[1..] + [MqttWait];
      Appended(q[1..]);
    }
  }

  // ------------------------------------------------- what a step can change

  /** From `s` to `t` the invariant is kept, and so is every token. */
  ghost predicate Conserved(s: State, t: State) {
    Control(t) && MqttTokens(t) == MqttTokens(s)
  }

  /** Tasks that move on without touching the event group. */
  lemma Unchanged(s: State, t: State)
    requires Control(s) && t.handler == s.handler && t.sender == s.sender && t.mqtt == s.mqtt
    requires t.bits == s.bits.(wifiConnected := t.bits.wifiConnected, wifiDisconnected := t.bits.wifiDisconnected,
                               ipGot := t.bits.ipGot)
    requires |t.key| == |s.key| && |t.cert| == |s.cert| && |t.tls| == |s.tls|
    ensures Conserved(s, t)
  {
    hide Account, Drops, MqttUsesTls, Without, One;
  }

  lemma KeySucceeded(s: State, q: seq<KeyTask>)
    requires Control(s) && |q| == |s.key| - 1
    ensures Conserved(s, s.(key := q, bits := s.bits.(keySuccess := true)))
  {
    hide Account, Drops, MqttUsesTls, One;
    Reported(s.handler, ForKey, s.bits.init, s.bits.keyFail, |s.key|, s.bits.keySuccess, 0);
  }

  lemma KeyFailed(s: State, q: seq<KeyTask>)
    requires Control(s) && |q| == |s.key| - 1
    ensures Conserved(s, s.(key := q, bits := s.bits.(keyFail := true)))
  {
    hide Account, Drops, MqttUsesTls, One;
    Reported(s.handler, ForKey, s.bits.init, s.bits.keyFail, |s.key|, s.bits.keySuccess, 0);
  }

  lemma CertSucceeded(s: State, q: seq<CertTask>)
    requires Control(s) && |q| == |s.cert| - 1
    ensures Conserved(s, s.(cert := q, bits := s.bits.(certSuccess := true)))
  {
    hide Account, Drops, MqttUsesTls, One;
    Reported(s.handler, ForCert, s.bits.init, s.bits.certFail, |s.cert|, s.bits.certSuccess, 0);
  }

  lemma CertFailed(s: State, q: seq<CertTask>)
    requires Control(s) && |q| == |s.cert| - 1
    ensures Conserved(s, s.(cert := q, bits := s.bits.(certFail := true)))
  {
    hide Account, Drops, MqttUsesTls, One;
    Reported(s.handler, ForCert, s.bits.init, s.bits.certFail, |s.cert|, s.bits.certSuccess, 0);
  }

  lemma TlsSucceeded(s: State, q: seq<TlsTask>)
    requires Control(s) && |q| == |s.tls| - 1
    ensures Conserved(s, s.(tls := q, bits := s.bits.(tlsConnected := true)))
  {
    hide Account, Drops, MqttUsesTls, One;
    Reported(s.handler, ForTls, s.bits.init, s.bits.tlsDisconnected, |s.tls|, s.bits.tlsConnected,
             Drops(s.mqtt) + One(s.sender.SendDropped?));
  }

  lemma TlsFailed(s: State, q: seq<TlsTask>)
    requires Control(s) && |q| == |s.tls| - 1
    ensures Conserved(s, s.(tls := q, bits := s.bits.(tlsDisconnected := true)))
  {
    hide Account, Drops, MqttUsesTls, One;
    Reported(s.handler, ForTls, s.bits.init, s.bits.tlsDisconnected, |s.tls|, s.bits.tlsConnected,
             Drops(s.mqtt) + One(s.sender.SendDropped?));
  }

  /** There is at most one MQTT worker, so its list can be told from its only element. */
  lemma MqttAlone(q: seq<MqttTask>, i: nat, m: MqttTask)
    requires |q| == 1 && i == 0
    ensures Drops(q) == One(q[0].Dropped?) && MqttUsesTls(q) == UsesTls(q[0])
    ensures Drops(q[i := m]) == One(m.Dropped?) && MqttUsesTls(q[i := m]) == UsesTls(m)
    ensures Drops(Without(q, i)) == 0 && !MqttUsesTls(Without(q, i))
  {
    assert q[i := m][0] == m && q[i := m][1..] == [] && q[1..] == [];
    assert Without(q, i) == [];
    assert UsesTls(q[0]) ==> MqttUsesTls(q);
    assert UsesTls(m) ==> MqttUsesTls(q[i := m]);
  }

  lemma MqttOnlyWorker(s: State, i: nat)
    requires Control(s) && i < |s.mqtt|
    ensures |s.mqtt| == 1 && i == 0 && MqttTokens(s) == 1 && !s.bits.mqttConnected && !s.bits.mqttDisconnected
    ensures !s.sender.Publish? && !s.sender.PublishFailed?
    ensures UsesTls(s.mqtt[i]) ==> s.bits.tlsConnected
  {
    Reported(s.handler, ForMqtt, s.bits.init, s.bits.mqttDisconnected, |s.mqtt|, s.bits.mqttConnected,
             One(s.sender.SendDropped?));
    MqttAlone(s.mqtt, i, MqttWait);
  }

  lemma MqttMoves(s: State, i: nat, m: MqttTask)
    requires Control(s) && i < |s.mqtt| && s.mqtt[i] != Dropped && m != Dropped && (UsesTls(m) ==> s.bits.tlsConnected)
    ensures Conserved(s, s.(mqtt := s.mqtt[i := m]))
  {
    hide Account, Drops, MqttUsesTls, Without;
    MqttOnlyWorker(s, i);
    MqttAlone(s.mqtt, i, m);
  }

  lemma MqttSucceeded(s: State, i: nat)
    requires Control(s) && i < |s.mqtt| && UsesTls(s.mqtt[i])
    ensures Conserved(s, s.(mqtt := Without(s.mqtt, i), bits := s.bits.(mqttConnected := true)))
  {
    hide Account, Drops, MqttUsesTls, Without;
    Reported(s.handler, ForMqtt, s.bits.init, s.bits.mqttDisconnected, |s.mqtt|, s.bits.mqttConnected,
             One(s.sender.SendDropped?));
    MqttOnlyWorker(s, i);
    MqttAlone(s.mqtt, i, MqttWait);
  }

  lemma MqttRefused(s: State, i: nat)
    requires Control(s) && i < |s.mqtt| && UsesTls(s.mqtt[i])
    ensures Conserved(s, s.(mqtt := Without(s.mqtt, i), bits := s.bits.(mqttDisconnected := true)))
  {
    hide Account, Drops, MqttUsesTls, Without;
    Reported(s.handler, ForMqtt, s.bits.init, s.bits.mqttDisconnected, |s.mqtt|, s.bits.mqttConnected,
             One(s.sender.SendDropped?));
    MqttOnlyWorker(s, i);
    MqttAlone(s.mqtt, i, MqttWait);
  }

  lemma MqttGivesUp(s: State, i: nat)
    requires Control(s) && i < |s.mqtt| && UsesTls(s.mqtt[i])
    ensures var t := s.(mqtt := Without(s.mqtt, i)); Control(t) && MqttTokens(t) == 0
  {
    hide Account, Drops, MqttUsesTls, Without;
    Reported(s.handler, ForMqtt, s.bits.init, s.bits.mqttDisconnected, |s.mqtt|, s.bits.mqttConnected,
             One(s.sender.SendDropped?));
    MqttOnlyWorker(s, i);
    MqttAlone(s.mqtt, i, MqttWait);
  }

  lemma MqttDrops(s: State, i: nat)
    requires Control(s) && i < |s.mqtt| && UsesTls(s.mqtt[i])
    ensures Conserved(s, s.(mqtt := s.mqtt[i := Dropped], bits := s.bits.(tlsConnected := false)))
  {
    hide Account, Drops, MqttUsesTls, Without;
    MqttOnlyWorker(s, i);
    MqttAlone(s.mqtt, i, Dropped);
    Lost(s.handler, ForTls, s.bits.init, s.bits.tlsDisconnected, |s.tls|, Drops(s.mqtt) + One(s.sender.SendDropped?));
  }

  lemma MqttFlags(s: State, i: nat)
    requires Control(s) && i < |s.mqtt| && s.mqtt[i] == Dropped
    ensures Conserved(s, s.(mqtt := Without(s.mqtt, i),
                            bits := s.bits.(tlsDisconnected := true, mqttDisconnected := true)))
  {
    hide Account, Drops, MqttUsesTls, Without;
    Reported(s.handler, ForMqtt, s.bits.init, s.bits.mqttDisconnected, |s.mqtt|, s.bits.mqttConnected,
             One(s.sender.SendDropped?));
    MqttOnlyWorker(s, i);
    MqttAlone(s.mqtt, i, MqttWait);
    Flagged(s.handler, ForTls, s.bits.init, s.bits.tlsDisconnected, |s.tls|, s.bits.tlsConnected,
            Drops(s.mqtt) + One(s.sender.SendDropped?));
  }

  lemma NoMqttUse(q: seq<MqttTask>)
    ensures q == [] ==> !MqttUsesTls(q)
  {
  }

  lemma SenderDrops(s: State)
    requires Control(s) && s.sender.PublishFailed?
    ensures Conserved(s, s.(bits := s.bits.(tlsConnected := false, mqttConnected := false), sender := SendDropped))
  {
    hide Account, Drops, MqttUsesTls, Without;
    Lost(s.handler, ForTls, s.bits.init, s.bits.tlsDisconnected, |s.tls|, Drops(s.mqtt) + One(s.sender.SendDropped?));
    Lost(s.handler, ForMqtt, s.bits.init, s.bits.mqttDisconnected, |s.mqtt|, One(s.sender.SendDropped?));
    NoMqttUse(s.mqtt);
  }

  lemma SenderFlags(s: State)
    requires Control(s) && s.sender.SendDropped?
    ensures Conserved(s, s.(bits := s.bits.(tlsDisconnected := true, mqttDisconnected := true), sender := SendWait))
  {
    hide Account, Drops, MqttUsesTls, Without;
    Flagged(s.handler, ForTls, s.bits.init, s.bits.tlsDisconnected, |s.tls|, s.bits.tlsConnected,
            Drops(s.mqtt) + One(s.sender.SendDropped?));
    Flagged(s.handler, ForMqtt, s.bits.init, s.bits.mqttDisconnected, |s.mqtt|, s.bits.mqttConnected,
            One(s.sender.SendDropped?));
  }

  lemma SenderMoves(s: State, m: Sender)
    requires Control(s) && !s.sender.SendDropped? && !m.SendDropped?
    requires m.Publish? || m.PublishFailed? ==> s.bits.mqttConnected
    ensures Conserved(s, s.(sender := m))
  {
    hide Account, Drops, MqttUsesTls, Without;
  }

  // ----------------------------------------------------------------- the handler

  lemma HandlerBoots(s: State)
    requires Control(s) && s.handler.Boot?
    ensures Conserved(s, ApplyHandler(s))
  {
    hide Account, Drops, MqttUsesTls, Without, One;
    var b, tls, mqtt := s.bits, Drops(s.mqtt) + One(s.sender.SendDropped?), One(s.sender.SendDropped?);
    Booted(ForKey, b.init, b.keyFail, |s.key|, b.keySuccess, 0);
    Booted(ForCert, b.init, b.certFail, |s.cert|, b.certSuccess, 0);
    Booted(ForTls, b.init, b.tlsDisconnected, |s.tls|, b.tlsConnected, tls);
    Booted(ForMqtt, b.init, b.mqttDisconnected, |s.mqtt|, b.mqttConnected, mqtt);
  }

  lemma HandlerWakes(s: State)
    requires Control(s) && s.handler.Waiting? && Wakes(s.bits)
    ensures Conserved(s, ApplyHandler(s))
  {
    hide Account, Drops, MqttUsesTls, Without, One;
    var b, tls, mqtt := s.bits, Drops(s.mqtt) + One(s.sender.SendDropped?), One(s.sender.SendDropped?);
    Woken(b, ForKey, |s.key|, b.keySuccess, 0);
    Woken(b, ForCert, |s.cert|, b.certSuccess, 0);
    Woken(b, ForTls, |s.tls|, b.tlsConnected, tls);
    Woken(b, ForMqtt, |s.mqtt|, b.mqttConnected, mqtt);
  }

  /** The handler's next test: one list may grow, by a worker at its start. */
  lemma HandlerFrame(s: State)
    requires s.handler.Spawning?
    ensures var t, seen, n := ApplyHandler(s), s.handler.seen, s.handler.next;
            && t == s.(handler := Next(seen, n), key := t.key, cert := t.cert, tls := t.tls, mqtt := t.mqtt)
            && |t.key| == |s.key| + One(n == ForKey && (seen.init || Asks(seen, ForKey)))
            && |t.cert| == |s.cert| + One(n == ForCert && (seen.init || Asks(seen, ForCert)))
            && |t.tls| == |s.tls| + One(n == ForTls && (seen.init || Asks(seen, ForTls)))
            && |t.mqtt| == |s.mqtt| + One(n == ForMqtt && (seen.init || Asks(seen, ForMqtt)))
            && (t.mqtt == s.mqtt || t.mqtt == s.mqtt + [MqttWait])
  {
  }

  lemma HandlerTests(s: State)
    requires Control(s) && s.handler.Spawning?
    ensures Conserved(s, ApplyHandler(s))
  {
    hide Account, Drops, MqttUsesTls, ApplyHandler, Next, One, Asks;
    HandlerFrame(s);
    Appended(s.mqtt);
    var b, tls, mqtt := s.bits, Drops(s.mqtt) + One(s.sender.SendDropped?), One(s.sender.SendDropped?);
    var seen, next, t := s.handler.seen, s.handler.next, ApplyHandler(s);
    assert KeyTokens(t) == KeyTokens(s) by {
      Tested(seen, next, ForKey, b.init, b.keyFail, |s.key|, b.keySuccess, 0);
    }
    assert CertTokens(t) == CertTokens(s) by {
      Tested(seen, next, ForCert, b.init, b.certFail, |s.cert|, b.certSuccess, 0);
    }
    assert TlsTokens(t) == TlsTokens(s) by {
      Tested(seen, next, ForTls, b.init, b.tlsDisconnected, |s.tls|, b.tlsConnected, tls);
    }
    assert MqttTokens(t) == MqttTokens(s) by {
      Tested(seen, next, ForMqtt, b.init, b.mqttDisconnected, |s.mqtt|, b.mqttConnected, mqtt);
    }
    hide KeyTokens, CertTokens, TlsTokens, MqttTokens;
  }

  // ---------------------------------------------------------------- every step

  lemma HandlerKeeps(s: State)
    requires Control(s)
    ensures Conserved(s, ApplyHandler(s))
  {
    hide Conserved, Control;
    match s.handler
    case Boot => HandlerBoots(s);
    case Spawning(_, _) => HandlerTests(s);
    case Waiting => if Wakes(s.bits) { HandlerWakes(s); } else { Unchanged(s, s); }
  }

  /** Until it reports, a worker leaves the event group alone. */
  lemma KeyFrame(s: State, i: nat, a: Answer)
    requires i < |s.key| && !s.key[i].Report?
    ensures var t := ApplyKey(s, i, a);
            t == s.(ram := t.ram, nvs := t.nvs, key := t.key) && |t.key| == |s.key|
  {
  }

  lemma KeyKeeps(s: State, i: nat, a: Answer)
    requires Control(s) && i < |s.key|
    ensures Conserved(s, ApplyKey(s, i, a))
  {
    hide Conserved, Control, Without;
    if s.key[i].Report? {
      if s.key[i].ok { KeySucceeded(s, Without(s.key, i)); } else { KeyFailed(s, Without(s.key, i)); }
    } else {
      KeyFrame(s, i, a);
      hide ApplyKey;
      Unchanged(s, ApplyKey(s, i, a));
    }
  }

  /** Until it reports, a worker leaves the event group alone. */
  lemma CertFrame(s: State, i: nat, a: Answer)
    requires i < |s.cert| && !s.cert[i].CertReport?
    ensures var t := ApplyCert(s, i, a);
            t == s.(ram := t.ram, nvs := t.nvs, cert := t.cert) && |t.cert| == |s.cert|
  {
  }

  lemma CertKeeps(s: State, i: nat, a: Answer)
    requires Control(s) && i < |s.cert|
    ensures Conserved(s, ApplyCert(s, i, a))
  {
    hide Conserved, Control, Without;
    if s.cert[i].CertReport? {
      if s.cert[i].ok { CertSucceeded(s, Without(s.cert, i)); } else { CertFailed(s, Without(s.cert, i)); }
    } else {
      CertFrame(s, i, a);
      hide ApplyCert;
      Unchanged(s, ApplyCert(s, i, a));
    }
  }

  /** Until it reports, a worker leaves the event group alone. */
  lemma TlsFrame(s: State, i: nat, a: Answer)
    requires i < |s.tls| && !s.tls[i].TlsReport?
    ensures var t := ApplyTls(s, i, a);
            t == s.(tlsOpen := t.tlsOpen, tls := t.tls) && |t.tls| == |s.tls|
  {
  }

  lemma TlsKeeps(s: State, i: nat, a: Answer)
    requires Control(s) && i < |s.tls|
    ensures Conserved(s, ApplyTls(s, i, a))
  {
    hide Conserved, Control, Without;
    if s.tls[i].TlsReport? {
      if s.tls[i].ok { TlsSucceeded(s, Without(s.tls, i)); } else { TlsFailed(s, Without(s.tls, i)); }
    } else {
      TlsFrame(s, i, a);
      hide ApplyTls;
      Unchanged(s, ApplyTls(s, i, a));
    }
  }

  lemma MqttKeeps(s: State, i: nat, status: MqttStatus)
    requires Control(s) && i < |s.mqtt|
    ensures var t := ApplyMqtt(s, i, status);
            if s.mqtt[i] == MqttReport(NoMemory) then Control(t) && MqttTokens(t) == 0 else Conserved(s, t)
  {
    hide Conserved, Control, MqttTokens;
    MqttOnlyWorker(s, i);
    match s.mqtt[i]
    case MqttWait => if s.bits.tlsConnected { MqttMoves(s, i, MqttConnect); } else { Unchanged(s, s); }
    case MqttConnect => MqttMoves(s, i, MqttReport(status));
    case Dropped => MqttFlags(s, i);
    case MqttReport(r) =>
      match r {
        case Success => MqttSucceeded(s, i);
        case OtherError => MqttRefused(s, i);
        case NoMemory => MqttGivesUp(s, i);
        case SendOrRecvFailed => MqttDrops(s, i);
      }
  }

  lemma SenderKeeps(s: State, ok: bool)
    requires Control(s)
    ensures Conserved(s, ApplySender(s, ok))
  {
    assert s.sender.Publish? ==> s.bits.mqttConnected;
    hide Conserved, Control;
    match s.sender
    case SendWait => if s.bits.mqttConnected { SenderMoves(s, Publish); } else { Unchanged(s, s); }
    case Publish => SenderMoves(s, if ok then SendWait else PublishFailed);
    case PublishFailed => SenderDrops(s);
    case SendDropped => SenderFlags(s);
  }

  lemma RadioKeeps(s: State, x: Action)
    requires Control(s) && (x.WifiUp? || x.WifiDown? || x.GotIp?)
    ensures Conserved(s, Apply(s, x))
  {
    hide Conserved, Control, ApplyHandler, ApplyKey, ApplyCert, ApplyTls, ApplyMqtt, ApplySender;
    var b := s.bits;
    if s.radio.Dropping? {
      if x.WifiDown? {
        Unchanged(s, s.(bits := b.(wifiDisconnected := true), radio := Quiet));
      } else {
        Unchanged(s, s);
      }
    } else {
      match x
      case WifiUp => Unchanged(s, s.(bits := b.(wifiConnected := true)));
      case WifiDown => Unchanged(s, s.(bits := b.(wifiConnected := false, ipGot := false), radio := Dropping));
      case GotIp => Unchanged(s, s.(bits := b.(ipGot := true)));
    }
  }

  /**
   One step of any task, with any answer: the invariant is kept and every token conserved. Only an
   MQTT worker that ends without setting a bit loses its token, and only a reboot makes a new one.
   */
  lemma StepKeeps(s: State, x: Action)
    requires Control(s)
    ensures Kept(s, x)
  {
    hide Control, MqttTokens, ApplyHandler, ApplyKey, ApplyCert, ApplyTls, ApplyMqtt, ApplySender;
    match x
    case HandlerStep => HandlerKeeps(s);
    case KeyStep(i, a) => if i < |s.key| { KeyKeeps(s, i, a); }
    case CertStep(i, a) => if i < |s.cert| { CertKeeps(s, i, a); }
    case TlsStep(i, a) => if i < |s.tls| { TlsKeeps(s, i, a); }
    case MqttStep(i, r) => if i < |s.mqtt| { MqttKeeps(s, i, r); }
    case SenderStep(ok) => SenderKeeps(s, ok);
    case Reboot => StartControl(s.nvs);
    case _ => RadioKeeps(s, x);
  }

  // -------------------------------------------------------------- exclusive use

  /** The TLS context has one user at a time, and so has the MQTT context. */
  ghost predicate Exclusive(s: State) {
    && |s.tls| <= 1 && |s.mqtt| <= 1
    && (s.tls != [] ==> !MqttUsesTls(s.mqtt) && !s.sender.Publish? && !s.bits.tlsConnected)
    && (s.sender.Publish? ==> !MqttUsesTls(s.mqtt))
    && (s.bits.mqttConnected ==> s.bits.tlsConnected)
  }

  lemma ControlIsExclusive(s: State)
    requires Control(s)
    ensures Exclusive(s)
  {
    hide Account, Drops, MqttUsesTls;
    var b, tls, mqtt := s.bits, Drops(s.mqtt) + One(s.sender.SendDropped?), One(s.sender.SendDropped?);
    if s.tls != [] {
      Reported(s.handler, ForTls, b.init, b.tlsDisconnected, |s.tls|, b.tlsConnected, tls);
    }
    if s.mqtt != [] {
      Reported(s.handler, ForMqtt, b.init, b.mqttDisconnected, |s.mqtt|, b.mqttConnected, mqtt);
    } else {
      NoMqttUse(s.mqtt);
    }
  }

  /** Whether an MQTT worker has ended without setting a bit since the last reboot. */
  function GaveUp(s: State, xs: seq<Action>, before: bool): bool
    decreases |xs|
  {
    if xs == [] then before
    else GaveUp(Apply(s, xs[0]), xs[1..], if xs[0].Reboot? then false else before || GivesUp(s, xs[0]))
  }

  lemma {:induction false} RunKeeps(s: State, xs: seq<Action>, before: bool)
    requires Control(s) && (MqttTokens(s) == 0 <==> before)
    ensures Control(ApplyAll(s, xs))
    ensures MqttTokens(ApplyAll(s, xs)) == 0 <==> GaveUp(s, xs, before)
    decreases |xs|
  {
    hide Control, MqttTokens, Apply;
    if xs == [] {
    } else {
      StepKeeps(s, xs[0]);
      assert GivesUp(s, xs[0]) ==> !xs[0].Reboot?;
      RunKeeps(Apply(s, xs[0]), xs[1..], if xs[0].Reboot? then false else before || GivesUp(s, xs[0]));
    }
  }

  /**
   Every run from power-up, reboots included: exactly one token for the key, the certificate and TLS,
   exactly one for MQTT unless a worker gave up since the last reboot, when there is none; and the
   TLS and MQTT contexts are never used by two tasks at a time.
   */
  lemma RunsAreSafe(nvs: Nvs, xs: seq<Action>)
    ensures var s := ApplyAll(Start(nvs), xs);
            && KeyTokens(s) == CertTokens(s) == TlsTokens(s) == 1
            && MqttTokens(s) == (if GaveUp(Start(nvs), xs, false) then 0 else 1)
            && Exclusive(s)
  {
    hide Links, Exclusive, KeyTokens, CertTokens, TlsTokens, MqttTokens, GaveUp;
    StartControl(nvs);
    RunKeeps(Start(nvs), xs, false);
    ControlIsExclusive(ApplyAll(Start(nvs), xs));
  }

  // ------------------------------------------------------------------ restarts

  /** The next step of the action sets the failure bit that restarts a worker of kind `g`. */
  predicate Flags(s: State, x: Action, g: Stage) {
    match g
    case ForWifi => false
    case ForKey => x.KeyStep? && x.i < |s.key| && s.key[x.i] == Report(false)
    case ForCert => x.CertStep? && x.i < |s.cert| && s.cert[x.i] == CertReport(false)
    case ForTls => (x.TlsStep? && x.i < |s.tls| && s.tls[x.i] == TlsReport(false)) || BothDropped(s, x)
    case ForMqtt => (x.MqttStep? && x.i < |s.mqtt| && s.mqtt[x.i] == MqttReport(OtherError)) || BothDropped(s, x)
  }

  predicate BothDropped(s: State, x: Action) {
    (x.MqttStep? && x.i < |s.mqtt| && s.mqtt[x.i] == Dropped) || (x.SenderStep? && s.sender.SendDropped?)
  }

  /** No restart is lost in another: a failure bit is clear, and no restart pending, whenever it is set. */
  lemma FlagsOnce(s: State, x: Action, g: Stage)
    requires Control(s) && Flags(s, x, g)
    ensures !s.bits.init && !Asks(s.bits, g) && !Pending(s.handler, g)
    ensures Asks(Apply(s, x).bits, g)
  {
    hide Drops, Links, Without;
    if x.MqttStep? {
      MqttOnlyWorker(s, x.i);
      MqttAlone(s.mqtt, x.i, MqttWait);
    }
    var b := s.bits;
    match g
    case ForKey => Alone(s.handler, ForKey, b.init, b.keyFail, |s.key|, b.keySuccess, 0);
    case ForCert => Alone(s.handler, ForCert, b.init, b.certFail, |s.cert|, b.certSuccess, 0);
    case ForTls =>
      Alone(s.handler, ForTls, b.init, b.tlsDisconnected, |s.tls|, b.tlsConnected,
            Drops(s.mqtt) + One(s.sender.SendDropped?));
    case ForMqtt =>
      Alone(s.handler, ForMqtt, b.init, b.mqttDisconnected, |s.mqtt|, b.mqttConnected, One(s.sender.SendDropped?));
  }

  lemma Alone(h: Handler, g: Stage, init: bool, fail: bool, live: nat, success: bool, transit: nat)
    requires Account(h, g, init, fail, live, success, transit) <= 1 && live + transit >= 1
    ensures !init && !fail && !success && !Pending(h, g)
  {
  }

  function When<T>(asked: bool, worker: T): seq<T> {
    if asked then [worker] else []
  }

  lemma TestFrame(s: State)
    requires s.handler.Spawning?
    ensures var t, seen := ApplyHandler(s), s.handler.seen;
            match s.handler.next
            case ForWifi => t == s.(handler := Spawning(seen, ForKey))
            case ForKey =>
              t == s.(handler := Spawning(seen, ForCert), key := s.key + When(seen.init || seen.keyFail, ReadKey))
            case ForCert =>
              t == s.(handler := Spawning(seen, ForTls), cert := s.cert + When(seen.init || seen.certFail, CertRead))
            case ForTls =>
              t == s.(handler := Spawning(seen, ForMqtt),
                      tls := s.tls + When(seen.init || seen.tlsDisconnected, TlsWait))
            case ForMqtt =>
              t == s.(handler := Waiting, mqtt := s.mqtt + When(seen.init || seen.mqttDisconnected, MqttWait))
  {
  }

  /** The live workers of a kind. */
  function Workers(s: State, g: Stage): nat {
    match g
    case ForWifi => 0
    case ForKey => |s.key|
    case ForCert => |s.cert|
    case ForTls => |s.tls|
    case ForMqtt => |s.mqtt|
  }

  /** How often the handler starts a worker of a kind on a run. */
  function Started(s: State, xs: seq<Action>, g: Stage): nat
    decreases |xs|
  {
    if xs == [] then 0
    else
      var t := Apply(s, xs[0]);
      One(xs[0].HandlerStep? && Workers(t, g) > Workers(s, g)) + Started(t, xs[1..], g)
  }

  function HandlerSteps(xs: seq<Action>): nat {
    if xs == [] then 0 else One(xs[0].HandlerStep?) + HandlerSteps(xs[1..])
  }

  lemma OthersLeaveHandler(s: State, x: Action)
    requires !x.HandlerStep? && !x.Reboot?
    ensures Apply(s, x).handler == s.handler
  {
    hide Without, ApplyHandler;
    match x
    case KeyStep(i, a) => if i < |s.key| { assert ApplyKey(s, i, a).handler == s.handler; }
    case CertStep(i, a) => if i < |s.cert| { assert ApplyCert(s, i, a).handler == s.handler; }
    case TlsStep(i, a) => if i < |s.tls| { assert ApplyTls(s, i, a).handler == s.handler; }
    case MqttStep(i, r) => if i < |s.mqtt| { assert ApplyMqtt(s, i, r).handler == s.handler; }
    case _ =>
  }

  /** One test starts a worker of its kind, when that was asked for, and none of another. */
  lemma TestStarts(s: State, g: Stage)
    requires s.handler.Spawning? && g != ForWifi
    ensures var t, seen := ApplyHandler(s), s.handler.seen;
            && t.handler == Next(seen, s.handler.next)
            && (Workers(t, g) > Workers(s, g) <==> s.handler.next == g && (seen.init || Asks(seen, g)))
  {
    TestFrame(s);
    hide ApplyHandler;
  }

  lemma {:induction false} TestsAnswer(s: State, xs: seq<Action>, g: Stage)
    requires s.handler.Spawning? && g != ForWifi && (forall i :: 0 <= i < |xs| ==> !xs[i].Reboot?)
    requires HandlerSteps(xs) == 5 - Rank(s.handler.next)
    ensures ApplyAll(s, xs).handler == Waiting
    ensures var seen := s.handler.seen;
            Started(s, xs, g) == One(Rank(s.handler.next) <= Rank(g) && (seen.init || Asks(seen, g)))
    decreases |xs|
  {
    hide Apply, ApplyHandler, Workers, Asks;
    var x, t, ys := xs[0], Apply(s, xs[0]), xs[1..];
    assert forall i :: 0 <= i < |ys| ==> ys[i] == xs[i + 1];
    if !x.HandlerStep? {
      OthersLeaveHandler(s, x);
      TestsAnswer(t, ys, g);
    } else {
      IsHandler(s);
      TestStarts(s, g);
      if s.handler.next == ForMqtt {
        OthersOnly(t, ys, g);
      } else {
        TestsAnswer(t, ys, g);
      }
    }
  }

  lemma IsHandler(s: State)
    ensures Apply(s, HandlerStep) == ApplyHandler(s)
  {
  }

  lemma {:induction false} OthersOnly(s: State, xs: seq<Action>, g: Stage)
    requires HandlerSteps(xs) == 0 && forall i :: 0 <= i < |xs| ==> !xs[i].Reboot?
    ensures ApplyAll(s, xs).handler == s.handler && Started(s, xs, g) == 0
    decreases |xs|
  {
    hide Apply, Workers;
    if xs == [] {
    } else {
      OthersLeaveHandler(s, xs[0]);
      assert forall i :: 0 <= i < |xs| - 1 ==> xs[1..][i] == xs[i + 1];
      OthersOnly(Apply(s, xs[0]), xs[1..], g);
    }
  }

  /**
   No restart is forgotten: from the moment the handler wakes, one round of it, a wait and five tests,
   starts a worker of a kind exactly once if its failure bit was set and never otherwise, whatever steps
   the other tasks take between; the wait clears every bit it saw.
   */
  lemma RoundAnswers(s: State, xs: seq<Action>, g: Stage)
    requires s.handler.Waiting? && Wakes(s.bits) && g != ForWifi
    requires xs != [] && xs[0].HandlerStep? && HandlerSteps(xs) == 6
    requires forall i :: 0 <= i < |xs| ==> !xs[i].Reboot?
    ensures ApplyAll(s, xs).handler == Waiting && !Wakes(Apply(s, xs[0]).bits)
    ensures Started(s, xs, g) == One(s.bits.init || Asks(s.bits, g))
  {
    var t := s.(bits := Cleared(s.bits), handler := Spawning(s.bits, ForWifi));
    assert Apply(s, xs[0]) == t;
    assert Workers(t, g) == Workers(s, g);
    hide Apply, Asks, Workers;
    assert forall i :: 0 <= i < |xs| - 1 ==> xs[1..][i] == xs[i + 1];
    TestsAnswer(t, xs[1..], g);
  }

  // ------------------------------------------------------------ before the network

  predicate Local(c: CertTask) {
    !c.CertClaim? && !c.CertTake? && !c.CertStore?
  }

  /** Nothing has used the network: no claim, no TLS connection, no MQTT connection, no publish. */
  ghost predicate Offline(s: State) {
    && !s.bits.ipGot && !s.bits.tlsConnected && !s.bits.mqttConnected && s.sender == SendWait
    && (forall i :: 0 <= i < |s.cert| ==> Local(s.cert[i]))
    && (forall i :: 0 <= i < |s.tls| ==> s.tls[i] == TlsWait)
    && (forall i :: 0 <= i < |s.mqtt| ==> s.mqtt[i] == MqttWait)
  }

  lemma OfflineGrows(s: State, t: State, cert: seq<CertTask>, tls: seq<TlsTask>, mqtt: seq<MqttTask>)
    requires Offline(s) && t.cert == s.cert + cert && t.tls == s.tls + tls && t.mqtt == s.mqtt + mqtt
    requires t.bits.ipGot == s.bits.ipGot && t.bits.tlsConnected == s.bits.tlsConnected
    requires t.bits.mqttConnected == s.bits.mqttConnected && t.sender == s.sender
    requires (cert == [] || cert == [CertRead]) && (tls == [] || tls == [TlsWait]) && (mqtt == [] || mqtt == [MqttWait])
    ensures Offline(t)
  {
    forall i | 0 <= i < |t.cert| ensures Local(t.cert[i]) { assert i < |s.cert| ==> t.cert[i] == s.cert[i]; }
    forall i | 0 <= i < |t.tls| ensures t.tls[i] == TlsWait { assert i < |s.tls| ==> t.tls[i] == s.tls[i]; }
    forall i | 0 <= i < |t.mqtt| ensures t.mqtt[i] == MqttWait { assert i < |s.mqtt| ==> t.mqtt[i] == s.mqtt[i]; }
  }

  lemma TestOffline(s: State)
    requires Offline(s) && s.handler.Spawning?
    ensures Offline(ApplyHandler(s))
  {
    TestFrame(s);
    assert s.cert + [] == s.cert && s.tls + [] == s.tls && s.mqtt + [] == s.mqtt;
    hide ApplyHandler, Offline;
    var t, seen := ApplyHandler(s), s.handler.seen;
    match s.handler.next
    case ForCert => OfflineGrows(s, t, When(seen.init || seen.certFail, CertRead), [], []);
    case ForTls => OfflineGrows(s, t, [], When(seen.init || seen.tlsDisconnected, TlsWait), []);
    case ForMqtt => OfflineGrows(s, t, [], [], When(seen.init || seen.mqttDisconnected, MqttWait));
    case _ => OfflineGrows(s, t, [], [], []);
  }

  lemma HandlerOffline(s: State)
    requires Offline(s)
    ensures Offline(ApplyHandler(s))
  {
    if s.handler.Spawning? {
      hide Offline, ApplyHandler;
      TestOffline(s);
    } else if s.handler.Boot? {
      assert Offline(s.(bits := s.bits.(init := true), handler := Waiting));
    } else {
      assert Offline(s.(bits := Cleared(s.bits), handler := Spawning(s.bits, ForWifi)));
    }
  }

  lemma KeyOffline(s: State, i: nat, a: Answer)
    requires Offline(s) && i < |s.key|
    ensures Offline(ApplyKey(s, i, a))
  {
    if !s.key[i].Report? {
      KeyFrame(s, i, a);
      hide ApplyKey;
      assert Offline(ApplyKey(s, i, a));
    } else if s.key[i].ok {
      assert Offline(ApplyKey(s, i, a));
    }
  }

  lemma CertStaysLocal(s: State, i: nat, a: Answer)
    requires i < |s.cert| && Local(s.cert[i]) && !s.cert[i].CertReport? && !s.bits.ipGot
    ensures var t := ApplyCert(s, i, a);
            exists c :: Local(c) && t == s.(ram := t.ram, cert := s.cert[i := c])
  {
    var t := ApplyCert(s, i, a);
    match s.cert[i]
    case CertRead => assert Local(CertTest) && t == s.(ram := t.ram, cert := s.cert[i := CertTest]);
    case CertTest =>
      var c := if s.ram.devCert.None? then CertWait else CertReport(true);
      assert Local(c) && t == s.(ram := t.ram, cert := s.cert[i := c]);
    case CertWait => assert Local(CertWait) && s.cert[i := CertWait] == s.cert;
  }

  lemma CertOffline(s: State, i: nat, a: Answer)
    requires Offline(s) && i < |s.cert|
    ensures Offline(ApplyCert(s, i, a))
  {
    assert Local(s.cert[i]);
    var rest := Without(s.cert, i);
    assert forall j :: 0 <= j < |rest| ==> rest[j] == if j < i then s.cert[j] else s.cert[j + 1];
    hide Without;
    if s.cert[i].CertReport? {
      if s.cert[i].ok {
        assert Offline(s.(bits := s.bits.(certSuccess := true), cert := rest));
      } else {
        assert Offline(s.(bits := s.bits.(certFail := true), cert := rest));
      }
    } else {
      CertStaysLocal(s, i, a);
      hide ApplyCert;
      var t := ApplyCert(s, i, a);
      var c :| Local(c) && t == s.(ram := t.ram, cert := s.cert[i := c]);
      assert Offline(t);
    }
  }

  lemma RadioOffline(s: State, x: Action)
    requires Offline(s) && (x.WifiUp? || x.WifiDown?)
    ensures Offline(Apply(s, x))
  {
    hide ApplyHandler, ApplyKey, ApplyCert, ApplyTls, ApplyMqtt, ApplySender;
    var b := s.bits;
    if x.WifiUp? {
      assert Offline(s.(bits := b.(wifiConnected := true)));
    } else if s.radio.Quiet? {
      assert Offline(s.(bits := b.(wifiConnected := false, ipGot := false), radio := Dropping));
    } else {
      assert Offline(s.(bits := b.(wifiDisconnected := true), radio := Quiet));
    }
  }

  lemma StepOffline(s: State, x: Action)
    requires Offline(s) && !x.GotIp?
    ensures Offline(Apply(s, x))
  {
    match x
    case HandlerStep => HandlerOffline(s);
    case KeyStep(i, a) => if i < |s.key| { KeyOffline(s, i, a); }
    case CertStep(i, a) => if i < |s.cert| { CertOffline(s, i, a); }
    case TlsStep(i, a) => assert Apply(s, x) == s;
    case MqttStep(i, r) => assert Apply(s, x) == s;
    case SenderStep(ok) => assert Apply(s, x) == s;
    case Reboot => assert Offline(Start(s.nvs));
    case _ => RadioOffline(s, x);
  }

  lemma {:induction false} RunOffline(s: State, xs: seq<Action>)
    requires Offline(s) && forall i :: 0 <= i < |xs| ==> !xs[i].GotIp?
    ensures Offline(ApplyAll(s, xs))
    decreases |xs|
  {
    hide Offline, Apply;
    if xs == [] {
    } else {
      StepOffline(s, xs[0]);
      RunOffline(Apply(s, xs[0]), xs[1..]);
    }
  }

  /** Until an IP address was received, no run from power-up claims, connects or publishes anything. */
  lemma NothingWithoutIp(nvs: Nvs, xs: seq<Action>)
    requires forall i :: 0 <= i < |xs| ==> !xs[i].GotIp?
    ensures Offline(ApplyAll(Start(nvs), xs))
  {
    assert Offline(Start(nvs));
    hide Offline, ApplyAll, Apply;
    RunOffline(Start(nvs), xs);
  }
}
