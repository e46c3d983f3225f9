/**
 What a call answered is what its task reports next, whatever steps of whatever other tasks come between:
 the two halves of every report of a worker, and the three of a failed publish.
 */
module Reports {
  import opened Network
  import opened Options
  import opened NetworkSafety
  import opened Answers
  import Progress

  /** Any step but a reboot and those of worker `i` of the kind. */
  predicate Spares(x: Action, g: Stage, i: nat) {
    !x.Reboot? &&
    match g
    case ForWifi => true
    case ForKey => !(x.KeyStep? && x.i == i)
    case ForCert => !(x.CertStep? && x.i == i)
    case ForTls => !(x.TlsStep? && x.i == i)
    case ForMqtt => !(x.MqttStep? && x.i == i)
  }

  predicate AllSpare(xs: seq<Action>, g: Stage, i: nat) {
    forall k :: 0 <= k < |xs| ==> Spares(xs[k], g, i)
  }

  // ------------------------------------------------------- other tasks' steps

  lemma OthersLeaveKey(s: State, x: Action)
    requires !x.HandlerStep? && !x.KeyStep? && !x.Reboot?
    ensures Apply(s, x).key == s.key
  {
    hide Without, ApplyHandler, ApplyKey;
    match x
    case CertStep(i, a) => if i < |s.cert| { assert ApplyCert(s, i, a).key == s.key; }
    case TlsStep(i, a) => if i < |s.tls| { assert ApplyTls(s, i, a).key == s.key; }
    case MqttStep(i, r) => if i < |s.mqtt| { assert ApplyMqtt(s, i, r).key == s.key; }
    case _ =>
  }

  lemma OthersLeaveCert(s: State, x: Action)
    requires !x.HandlerStep? && !x.CertStep? && !x.Reboot?
    ensures Apply(s, x).cert == s.cert
  {
    hide Without, ApplyHandler, ApplyCert;
    match x
    case KeyStep(i, a) => if i < |s.key| { assert ApplyKey(s, i, a).cert == s.cert; }
    case TlsStep(i, a) => if i < |s.tls| { assert ApplyTls(s, i, a).cert == s.cert; }
    case MqttStep(i, r) => if i < |s.mqtt| { assert ApplyMqtt(s, i, r).cert == s.cert; }
    case _ =>
  }

  lemma OthersLeaveTls(s: State, x: Action)
    requires !x.HandlerStep? && !x.TlsStep? && !x.Reboot?
    ensures Apply(s, x).tls == s.tls && Apply(s, x).tlsOpen == s.tlsOpen
  {
    hide Without, ApplyHandler, ApplyTls;
    match x
    case KeyStep(i, a) => if i < |s.key| { KeyLeavesTls(s, i, a); }
    case CertStep(i, a) => if i < |s.cert| { CertLeavesTls(s, i, a); }
    case MqttStep(i, r) => if i < |s.mqtt| { MqttLeavesTls(s, i, r); }
    case _ =>
  }

  lemma KeyLeavesTls(s: State, i: nat, a: Answer)
    requires i < |s.key|
    ensures ApplyKey(s, i, a).tls == s.tls && ApplyKey(s, i, a).tlsOpen == s.tlsOpen
  {
    hide Without;
  }

  lemma CertLeavesTls(s: State, i: nat, a: Answer)
    requires i < |s.cert|
    ensures ApplyCert(s, i, a).tls == s.tls && ApplyCert(s, i, a).tlsOpen == s.tlsOpen
  {
    hide Without;
  }

  lemma MqttLeavesTls(s: State, i: nat, r: MqttStatus)
    requires i < |s.mqtt|
    ensures ApplyMqtt(s, i, r).tls == s.tls && ApplyMqtt(s, i, r).tlsOpen == s.tlsOpen
  {
    hide Without;
  }

  lemma OthersLeaveSender(s: State, x: Action)
    requires !x.SenderStep? && !x.Reboot?
    ensures Apply(s, x).sender == s.sender
  {
    hide Without, ApplyHandler, ApplySender;
    match x
    case HandlerStep => HandlerLeavesSender(s);
    case KeyStep(i, a) => if i < |s.key| { assert ApplyKey(s, i, a).sender == s.sender; }
    case CertStep(i, a) => if i < |s.cert| { assert ApplyCert(s, i, a).sender == s.sender; }
    case TlsStep(i, a) => if i < |s.tls| { assert ApplyTls(s, i, a).sender == s.sender; }
    case MqttStep(i, r) => if i < |s.mqtt| { assert ApplyMqtt(s, i, r).sender == s.sender; }
    case _ =>
  }

  lemma HandlerLeavesSender(s: State)
    ensures ApplyHandler(s).sender == s.sender
  {
  }

  /** A handler step: no list shrinks, and at most one grows. */
  lemma HandlerGrows(s: State)
    ensures var t := ApplyHandler(s);
            && (t.key == s.key || |t.key| == |s.key| + 1) && (t.cert == s.cert || |t.cert| == |s.cert| + 1)
            && (t.tls == s.tls || |t.tls| == |s.tls| + 1) && (t.mqtt == s.mqtt || |t.mqtt| == |s.mqtt| + 1)
  {
    if s.handler.Spawning? {
      TestFrame(s);
      hide ApplyHandler;
    }
  }

  /** No step of another task ends or doubles a live worker. */
  lemma KeyStays(s: State, x: Action)
    requires Control(s) && |s.key| == 1 && Spares(x, ForKey, 0)
    ensures Control(Apply(s, x)) && Apply(s, x).key == s.key
  {
    hide Control, ApplyHandler, ApplyKey, ApplyCert, ApplyTls, ApplyMqtt, ApplySender;
    StepKeeps(s, x);
    if x.HandlerStep? {
      HandlerGrows(s);
      KeyOnly(Apply(s, x), 0);
    } else if !x.KeyStep? {
      OthersLeaveKey(s, x);
    }
  }

  lemma CertStays(s: State, x: Action)
    requires Control(s) && |s.cert| == 1 && Spares(x, ForCert, 0)
    ensures Control(Apply(s, x)) && Apply(s, x).cert == s.cert
  {
    hide Control, ApplyHandler, ApplyKey, ApplyCert, ApplyTls, ApplyMqtt, ApplySender;
    StepKeeps(s, x);
    if x.HandlerStep? {
      HandlerGrows(s);
      CertOnly(Apply(s, x), 0);
    } else if !x.CertStep? {
      OthersLeaveCert(s, x);
    }
  }

  lemma TlsStays(s: State, x: Action)
    requires Control(s) && |s.tls| == 1 && Spares(x, ForTls, 0)
    ensures Control(Apply(s, x)) && Apply(s, x).tls == s.tls
  {
    hide Control, ApplyHandler, ApplyKey, ApplyCert, ApplyTls, ApplyMqtt, ApplySender;
    StepKeeps(s, x);
    if x.HandlerStep? {
      HandlerGrows(s);
      TlsOnly(Apply(s, x), 0);
    } else if !x.TlsStep? {
      OthersLeaveTls(s, x);
    }
  }

  lemma MqttStays(s: State, x: Action)
    requires Control(s) && |s.mqtt| == 1 && Spares(x, ForMqtt, 0)
    ensures Control(Apply(s, x)) && Apply(s, x).mqtt == s.mqtt
  {
    hide Control, ApplyHandler, ApplyKey, ApplyCert, ApplyTls, ApplyMqtt, ApplySender;
    StepKeeps(s, x);
    if x.HandlerStep? {
      HandlerGrows(s);
      MqttOnly(Apply(s, x), 0);
    } else if !x.MqttStep? {
      Progress.OthersLeaveMqtt(s, x);
    }
  }

  lemma SpareTail(xs: seq<Action>, g: Stage, i: nat)
    requires xs != [] && AllSpare(xs, g, i)
    ensures Spares(xs[0], g, i) && AllSpare(xs[1..], g, i)
  {
    hide Spares;
    assert forall k :: 0 <= k < |xs| - 1 ==> xs[1..][k] == xs[k + 1];
  }

  lemma {:induction false} KeyWaits(s: State, xs: seq<Action>)
    requires Control(s) && |s.key| == 1 && AllSpare(xs, ForKey, 0)
    ensures var t := ApplyAll(s, xs); Control(t) && t.key == s.key && !t.bits.keySuccess && !t.bits.keyFail
    decreases |xs|
  {
    hide Control, Apply, AllSpare, Spares;
    if xs == [] {
      KeyOnly(s, 0);
    } else {
      SpareTail(xs, ForKey, 0);
      KeyStays(s, xs[0]);
      KeyWaits(Apply(s, xs[0]), xs[1..]);
    }
  }

  lemma {:induction false} CertWaits(s: State, xs: seq<Action>)
    requires Control(s) && |s.cert| == 1 && AllSpare(xs, ForCert, 0)
    ensures var t := ApplyAll(s, xs); Control(t) && t.cert == s.cert && !t.bits.certSuccess && !t.bits.certFail
    decreases |xs|
  {
    hide Control, Apply, AllSpare, Spares;
    if xs == [] {
      CertOnly(s, 0);
    } else {
      SpareTail(xs, ForCert, 0);
      CertStays(s, xs[0]);
      CertWaits(Apply(s, xs[0]), xs[1..]);
    }
  }

  lemma {:induction false} TlsWaits(s: State, xs: seq<Action>)
    requires Control(s) && |s.tls| == 1 && AllSpare(xs, ForTls, 0)
    ensures var t := ApplyAll(s, xs);
            Control(t) && t.tls == s.tls && !t.bits.tlsConnected && !t.bits.tlsDisconnected
    decreases |xs|
  {
    hide Control, Apply, AllSpare, Spares;
    if xs == [] {
      TlsOnly(s, 0);
    } else {
      SpareTail(xs, ForTls, 0);
      TlsStays(s, xs[0]);
      TlsWaits(Apply(s, xs[0]), xs[1..]);
    }
  }

  lemma {:induction false} MqttWaits(s: State, xs: seq<Action>)
    requires Control(s) && |s.mqtt| == 1 && AllSpare(xs, ForMqtt, 0)
    ensures var t := ApplyAll(s, xs);
            Control(t) && t.mqtt == s.mqtt && !t.bits.mqttConnected && !t.bits.mqttDisconnected
    decreases |xs|
  {
    hide Control, Apply, AllSpare, Spares;
    if xs == [] {
      MqttOnly(s, 0);
    } else {
      SpareTail(xs, ForMqtt, 0);
      MqttStays(s, xs[0]);
      MqttWaits(Apply(s, xs[0]), xs[1..]);
    }
  }

  // ------------------------------------------------------------------ the laws

  /**
   Key worker: once a call has decided success or failure, neither bit is set until the worker's next
   step, and that step sets the one that was decided and nothing else.
   */
  lemma KeyAnswered(s: State, i: nat, a: Answer, xs: seq<Action>, b: Answer)
    requires Control(s) && i < |s.key| && KeyVerdict(s.ram, s.key[i], a).Some? && AllSpare(xs, ForKey, i)
    ensures var ok := KeyVerdict(s.ram, s.key[i], a).value;
            var t := ApplyAll(Apply(s, KeyStep(i, a)), xs);
            && !t.bits.keySuccess && !t.bits.keyFail
            && Apply(t, KeyStep(i, b)) == t.(key := [], bits := t.bits.(keySuccess := ok, keyFail := !ok))
  {
    hide Control, ApplyAll, ApplyKey, AllSpare, KeyVerdict;
    KeyOnly(s, i);
    StepKeeps(s, KeyStep(i, a));
    if s.key[0].Report? { KeyReports(s, a); }
    KeyMoves(s, a);
    var u := ApplyKey(s, 0, a);
    KeyWaits(u, xs);
    KeyReports(ApplyAll(u, xs), b);
  }

  lemma CertAnswered(s: State, i: nat, a: Answer, xs: seq<Action>, b: Answer)
    requires Control(s) && i < |s.cert| && CertVerdict(s.ram, s.cert[i], a).Some? && AllSpare(xs, ForCert, i)
    ensures var ok := CertVerdict(s.ram, s.cert[i], a).value;
            var t := ApplyAll(Apply(s, CertStep(i, a)), xs);
            && !t.bits.certSuccess && !t.bits.certFail
            && Apply(t, CertStep(i, b)) == t.(cert := [], bits := t.bits.(certSuccess := ok, certFail := !ok))
  {
    hide Control, ApplyAll, ApplyCert, AllSpare, CertVerdict;
    CertOnly(s, i);
    StepKeeps(s, CertStep(i, a));
    if s.cert[0].CertReport? { CertReports(s, a); }
    CertMoves(s, a);
    var u := ApplyCert(s, 0, a);
    CertWaits(u, xs);
    CertReports(ApplyAll(u, xs), b);
  }

  /**
   TLS worker: from the answer of the connect to the worker's next step no bit tells of a connection,
   and that step sets TLS_CONNECTED if the connect succeeded, TLS_DISCONNECTED if it failed, and nothing else.
   */
  lemma TlsAnswered(s: State, i: nat, a: Answer, xs: seq<Action>, b: Answer)
    requires Control(s) && i < |s.tls| && s.tls[i].TlsConnect? && AllSpare(xs, ForTls, i)
    ensures var t := ApplyAll(Apply(s, TlsStep(i, a)), xs);
            && !t.bits.tlsConnected && !t.bits.tlsDisconnected
            && Apply(t, TlsStep(i, b)) == t.(tls := [], bits := t.bits.(tlsConnected := a.ok, tlsDisconnected := !a.ok))
  {
    hide Control, ApplyAll, ApplyTls, AllSpare;
    TlsOnly(s, i);
    StepKeeps(s, TlsStep(i, a));
    TlsMoves(s, a);
    var u := ApplyTls(s, 0, a);
    TlsWaits(u, xs);
    TlsReports(ApplyAll(u, xs), b);
  }

  /**
   MQTT worker: what its next step after the connect does with each status. A lost connection is
   flagged in two steps, see `MqttLost`.
   */
  lemma MqttAnswered(s: State, i: nat, r: MqttStatus, xs: seq<Action>, any: MqttStatus)
    requires Control(s) && i < |s.mqtt| && s.mqtt[i].MqttConnect? && AllSpare(xs, ForMqtt, i)
    ensures var t := ApplyAll(Apply(s, MqttStep(i, r)), xs);
            var u, b := Apply(t, MqttStep(i, any)), t.bits;
            && b.tlsConnected && !b.mqttConnected && !b.mqttDisconnected
            && match r
               case Success => u == t.(mqtt := [], bits := b.(mqttConnected := true))
               case NoMemory => u == t.(mqtt := [])
               case SendOrRecvFailed => u == t.(mqtt := [Dropped], bits := b.(tlsConnected := false))
               case OtherError => u == t.(mqtt := [], bits := b.(mqttDisconnected := true))
  {
    hide Control, ApplyAll, ApplyMqtt, AllSpare, UsesTls;
    MqttOnly(s, i);
    StepKeeps(s, MqttStep(i, r));
    MqttConnects(s, r);
    var u := ApplyMqtt(s, 0, r);
    MqttWaits(u, xs);
    var t := ApplyAll(u, xs);
    UserIsConnected(t);
    MqttReports(t, any);
  }

  lemma UserIsConnected(t: State)
    requires Control(t) && |t.mqtt| == 1 && t.mqtt[0].MqttReport?
    ensures t.bits.tlsConnected
  {
    hide Account, Drops;
    MqttOnlyWorker(t, 0);
  }

  /** After a send or receive failure the second step of the worker sets both failure bits, with TLS_CONNECTED clear. */
  lemma MqttLost(s: State, i: nat, xs: seq<Action>, any: MqttStatus)
    requires Control(s) && i < |s.mqtt| && s.mqtt[i].Dropped? && AllSpare(xs, ForMqtt, i)
    ensures var t := ApplyAll(s, xs);
            && !t.bits.tlsConnected && !t.bits.tlsDisconnected && !t.bits.mqttConnected && !t.bits.mqttDisconnected
            && Apply(t, MqttStep(i, any))
               == t.(mqtt := [], bits := t.bits.(tlsDisconnected := true, mqttDisconnected := true))
  {
    hide Control, ApplyAll, ApplyMqtt, AllSpare;
    MqttOnly(s, i);
    MqttWaits(s, xs);
    var t := ApplyAll(s, xs);
    DropIsDown(t);
    MqttReports(t, any);
  }

  lemma DropIsDown(t: State)
    requires Control(t) && t.mqtt == [Dropped]
    ensures !t.bits.tlsConnected && !t.bits.tlsDisconnected
  {
    MqttAlone(t.mqtt, 0, MqttWait);
    Flagged(t.handler, ForTls, t.bits.init, t.bits.tlsDisconnected, |t.tls|, t.bits.tlsConnected,
            Drops(t.mqtt) + One(t.sender.SendDropped?));
  }

  // ---------------------------------------------------------------- the sender

  predicate SparesSender(xs: seq<Action>) {
    forall k :: 0 <= k < |xs| ==> !xs[k].SenderStep? && !xs[k].Reboot?
  }

  lemma {:induction false} SenderWaits(s: State, xs: seq<Action>)
    requires Control(s) && SparesSender(xs)
    ensures Control(ApplyAll(s, xs)) && ApplyAll(s, xs).sender == s.sender
    decreases |xs|
  {
    hide Control, Apply;
    if xs == [] {
    } else {
      assert forall k :: 0 <= k < |xs| - 1 ==> xs[1..][k] == xs[k + 1];
      StepKeeps(s, xs[0]);
      OthersLeaveSender(s, xs[0]);
      SenderWaits(Apply(s, xs[0]), xs[1..]);
    }
  }

  lemma SenderUp(s: State)
    requires Control(s) && (s.sender.Publish? || s.sender.PublishFailed?)
    ensures s.bits.tlsConnected && s.bits.mqttConnected
  {
    hide Account, Drops, MqttUsesTls;
  }

  lemma SenderDown(s: State)
    requires Control(s) && s.sender.SendDropped?
    ensures var b := s.bits; !b.tlsConnected && !b.mqttConnected && !b.tlsDisconnected && !b.mqttDisconnected
  {
    hide MqttUsesTls, Drops;
    Flagged(s.handler, ForTls, s.bits.init, s.bits.tlsDisconnected, |s.tls|, s.bits.tlsConnected,
            Drops(s.mqtt) + One(s.sender.SendDropped?));
    Flagged(s.handler, ForMqtt, s.bits.init, s.bits.mqttDisconnected, |s.mqtt|, s.bits.mqttConnected,
            One(s.sender.SendDropped?));
  }

  lemma SenderActs(s: State, ok: bool)
    ensures var t, b := Apply(s, SenderStep(ok)), s.bits;
            match s.sender
            case SendWait => t == s.(sender := if b.mqttConnected then Publish else SendWait)
            case Publish => t == s.(sender := if ok then SendWait else PublishFailed)
            case PublishFailed =>
              t == s.(bits := b.(tlsConnected := false, mqttConnected := false), sender := SendDropped)
            case SendDropped =>
              t == s.(bits := b.(tlsDisconnected := true, mqttDisconnected := true), sender := SendWait)
  {
  }

  /** A publish that succeeds changes no bit, and the sender goes back to waiting. */
  lemma GoodPublish(s: State, xs: seq<Action>)
    requires Control(s) && s.sender.Publish? && SparesSender(xs)
    ensures var t := ApplyAll(s, xs);
            && t.bits.tlsConnected && t.bits.mqttConnected
            && Apply(t, SenderStep(true)) == t.(sender := SendWait)
  {
    hide Control, ApplyAll, ApplySender;
    SenderWaits(s, xs);
    SenderUp(ApplyAll(s, xs));
    SenderActs(ApplyAll(s, xs), true);
  }

  /**
   A publish that fails, whatever steps the other tasks take before, between and after the sender's
   three: the second clears TLS_CONNECTED and MQTT_CONNECTED, the third sets TLS_DISCONNECTED and
   MQTT_DISCONNECTED while both are still clear, and the sender is back at its wait.
   */
  lemma FailedPublish(s: State, xs: seq<Action>, ys: seq<Action>, zs: seq<Action>, ok1: bool, ok2: bool)
    requires Control(s) && s.sender.Publish? && SparesSender(xs) && SparesSender(ys) && SparesSender(zs)
    ensures var s0 := ApplyAll(s, xs);
            var s1 := Apply(s0, SenderStep(false));
            var s2 := ApplyAll(s1, ys);
            var s3 := Apply(s2, SenderStep(ok1));
            var s4 := ApplyAll(s3, zs);
            var s5 := Apply(s4, SenderStep(ok2));
            && s1 == s0.(sender := PublishFailed)
            && s3 == s2.(sender := SendDropped, bits := s2.bits.(tlsConnected := false, mqttConnected := false))
            && !s4.bits.tlsConnected && !s4.bits.mqttConnected
            && s5 == s4.(sender := SendWait, bits := s4.bits.(tlsDisconnected := true, mqttDisconnected := true))
  {
    hide Control, ApplyAll, Apply;
    SenderWaits(s, xs);
    var s0 := ApplyAll(s, xs);
    SenderActs(s0, false);
    StepKeeps(s0, SenderStep(false));
    var s1 := Apply(s0, SenderStep(false));
    SenderWaits(s1, ys);
    var s2 := ApplyAll(s1, ys);
    SenderActs(s2, ok1);
    StepKeeps(s2, SenderStep(ok1));
    var s3 := Apply(s2, SenderStep(ok1));
    SenderWaits(s3, zs);
    var s4 := ApplyAll(s3, zs);
    SenderDown(s4);
    SenderActs(s4, ok2);
  }

  /** The step sets MQTT_CONNECTED: an MQTT worker reports that its connect succeeded. */
  predicate Reconnects(s: State, x: Action) {
    x.MqttStep? && x.i < |s.mqtt| && s.mqtt[x.i] == MqttReport(Success)
  }

  predicate NeverReconnects(s: State, xs: seq<Action>)
    decreases |xs|
  {
    xs == [] || (!Reconnects(s, xs[0]) && NeverReconnects(Apply(s, xs[0]), xs[1..]))
  }

  predicate Unconnected(s: State) {
    !s.bits.mqttConnected && !s.sender.Publish?
  }

  predicate NotRaised(s: State, t: State) {
    t.bits.mqttConnected ==> s.bits.mqttConnected
  }

  lemma NotRaisedWith(s: State, b: Bits, q: seq<MqttTask>)
    requires b.mqttConnected == s.bits.mqttConnected
    ensures NotRaised(s, s.(bits := b, mqtt := q))
  {
  }

  lemma OnlyReportConnects(s: State, i: nat, r: MqttStatus)
    requires i < |s.mqtt|
    ensures NotRaised(s, ApplyMqtt(s, i, r)) || s.mqtt[i] == MqttReport(Success)
  {
    hide Without, NotRaised;
    var b, rest := s.bits, Without(s.mqtt, i);
    match s.mqtt[i]
    case MqttWait =>
      NotRaisedWith(s, b, s.mqtt);
      NotRaisedWith(s, b, s.mqtt[i := MqttConnect]);
    case MqttConnect => NotRaisedWith(s, b, s.mqtt[i := MqttReport(r)]);
    case Dropped => NotRaisedWith(s, b.(tlsDisconnected := true, mqttDisconnected := true), rest);
    case MqttReport(status) =>
      match status {
        case Success =>
        case NoMemory => NotRaisedWith(s, b, rest);
        case SendOrRecvFailed => NotRaisedWith(s, b.(tlsConnected := false), s.mqtt[i := Dropped]);
        case OtherError => NotRaisedWith(s, b.(mqttDisconnected := true), rest);
      }
  }

  lemma HandlerConnectsNot(s: State)
    ensures NotRaised(s, ApplyHandler(s))
  {
    match s.handler
    case Boot => assert NotRaised(s, s.(bits := s.bits.(init := true), handler := Waiting));
    case Waiting => assert NotRaised(s, s.(bits := Cleared(s.bits), handler := Spawning(s.bits, ForWifi)));
    case Spawning(_, _) =>
      TestFrame(s);
      hide ApplyHandler;
  }

  lemma KeyConnectsNot(s: State, i: nat, a: Answer)
    requires i < |s.key|
    ensures NotRaised(s, ApplyKey(s, i, a))
  {
    hide Without;
    if !s.key[i].Report? {
      KeyFrame(s, i, a);
      hide ApplyKey;
    } else if s.key[i].ok {
      assert NotRaised(s, s.(bits := s.bits.(keySuccess := true), key := Without(s.key, i)));
    } else {
      assert NotRaised(s, s.(bits := s.bits.(keyFail := true), key := Without(s.key, i)));
    }
  }

  lemma CertConnectsNot(s: State, i: nat, a: Answer)
    requires i < |s.cert|
    ensures NotRaised(s, ApplyCert(s, i, a))
  {
    hide Without;
    if !s.cert[i].CertReport? {
      CertFrame(s, i, a);
      hide ApplyCert;
    } else if s.cert[i].ok {
      assert NotRaised(s, s.(bits := s.bits.(certSuccess := true), cert := Without(s.cert, i)));
    } else {
      assert NotRaised(s, s.(bits := s.bits.(certFail := true), cert := Without(s.cert, i)));
    }
  }

  lemma TlsConnectsNot(s: State, i: nat, a: Answer)
    requires i < |s.tls|
    ensures NotRaised(s, ApplyTls(s, i, a))
  {
    hide Without;
    if !s.tls[i].TlsReport? {
      TlsFrame(s, i, a);
      hide ApplyTls;
    } else if s.tls[i].ok {
      assert NotRaised(s, s.(bits := s.bits.(tlsConnected := true), tls := Without(s.tls, i)));
    } else {
      assert NotRaised(s, s.(bits := s.bits.(tlsDisconnected := true), tls := Without(s.tls, i)));
    }
  }

  lemma RadioConnectsNot(s: State, x: Action)
    requires x.WifiUp? || x.WifiDown? || x.GotIp?
    ensures NotRaised(s, Apply(s, x))
  {
    hide ApplyHandler, ApplyMqtt, ApplyKey, ApplyCert, ApplyTls, ApplySender;
    var b := s.bits;
    match x
    case WifiUp => assert NotRaised(s, s.(bits := b.(wifiConnected := true)));
    case GotIp => assert NotRaised(s, s.(bits := b.(ipGot := true)));
    case WifiDown =>
      assert NotRaised(s, s.(bits := b.(wifiConnected := false, ipGot := false), radio := Dropping));
      assert NotRaised(s, s.(bits := b.(wifiDisconnected := true), radio := Quiet));
  }

  lemma OthersConnectNot(s: State, x: Action)
    requires !x.SenderStep? && !x.Reboot? && !Reconnects(s, x)
    ensures NotRaised(s, Apply(s, x))
  {
    hide NotRaised, ApplyHandler, ApplyKey, ApplyCert, ApplyTls, ApplyMqtt, ApplySender;
    assert NotRaised(s, s) by { NotRaisedWith(s, s.bits, s.mqtt); }
    match x
    case HandlerStep => HandlerConnectsNot(s);
    case KeyStep(i, a) => if i < |s.key| { KeyConnectsNot(s, i, a); }
    case CertStep(i, a) => if i < |s.cert| { CertConnectsNot(s, i, a); }
    case TlsStep(i, a) => if i < |s.tls| { TlsConnectsNot(s, i, a); }
    case MqttStep(i, r) => if i < |s.mqtt| { OnlyReportConnects(s, i, r); }
    case _ => RadioConnectsNot(s, x);
  }

  lemma SenderStaysDown(s: State, ok: bool)
    requires Unconnected(s)
    ensures Unconnected(ApplySender(s, ok))
  {
    var b := s.bits;
    if s.sender.PublishFailed? {
      assert Unconnected(s.(bits := b.(tlsConnected := false, mqttConnected := false), sender := SendDropped));
    } else if s.sender.SendDropped? {
      assert Unconnected(s.(bits := b.(tlsDisconnected := true, mqttDisconnected := true), sender := SendWait));
    }
  }

  lemma StepStaysDown(s: State, x: Action)
    requires Unconnected(s) && !Reconnects(s, x)
    ensures Unconnected(Apply(s, x))
  {
    if x.SenderStep? {
      hide Unconnected, ApplySender;
      SenderStaysDown(s, x.ok);
    } else if x.Reboot? {
      assert Unconnected(Start(s.nvs));
    } else {
      hide Apply, Reconnects;
      OthersConnectNot(s, x);
      OthersLeaveSender(s, x);
    }
  }

  /** While MQTT_CONNECTED is clear nothing is published, until an MQTT worker reports a new connection. */
  lemma {:induction false} NoPublishUntilReconnected(s: State, xs: seq<Action>)
    requires Unconnected(s) && NeverReconnects(s, xs)
    ensures Unconnected(ApplyAll(s, xs))
    decreases |xs|
  {
    hide Apply, Unconnected, Reconnects;
    if xs == [] {
    } else {
      StepStaysDown(s, xs[0]);
      NoPublishUntilReconnected(Apply(s, xs[0]), xs[1..]);
    }
  }

  // ----------------------------------------------------------------- the radio

  predicate SparesRadio(xs: seq<Action>) {
    forall k :: 0 <= k < |xs| ==> !xs[k].WifiDown? && !xs[k].Reboot?
  }

  lemma DroppingStays(s: State, x: Action)
    requires s.radio.Dropping? && !x.WifiDown? && !x.Reboot?
    ensures Apply(s, x).radio.Dropping?
  {
    if x.WifiUp? || x.GotIp? {
      assert Apply(s, x) == s;
    } else {
      OthersLeaveRadio(s, x);
    }
  }

  lemma {:induction false} DroppingWaits(s: State, xs: seq<Action>, p: Past)
    requires Settled(s, p) && s.radio.Dropping? && SparesRadio(xs)
    ensures var t := ApplyAll(s, xs); t.radio.Dropping? && LinkDown(t)
    decreases |xs|
  {
    hide Apply, Told, Control, Note;
    if xs == [] {
    } else {
      assert forall k :: 0 <= k < |xs| - 1 ==> xs[1..][k] == xs[k + 1];
      DroppingStays(s, xs[0]);
      StepTells(s, xs[0], p);
      DroppingWaits(Apply(s, xs[0]), xs[1..], Note(p, s, xs[0]));
    }
  }

  /**
   A lost link, from any state of a run: WIFI_CONNECTED and IP_GOT are cleared at once, both stay clear
   whatever the tasks do between, and then WIFI_DISCONNECTED is set, and nothing else by either half.
   */
  lemma LinkLost(s: State, p: Past, xs: seq<Action>)
    requires Settled(s, p) && s.radio.Quiet? && SparesRadio(xs)
    ensures var u := Apply(s, WifiDown);
            var t := ApplyAll(u, xs);
            && u == s.(radio := Dropping, bits := s.bits.(wifiConnected := false, ipGot := false))
            && !t.bits.wifiConnected && !t.bits.ipGot
            && Apply(t, WifiDown) == t.(radio := Quiet, bits := t.bits.(wifiDisconnected := true))
  {
    hide ApplyAll, Told, Control, Note, ApplyHandler, ApplyKey, ApplyCert, ApplyTls, ApplyMqtt, ApplySender;
    StepTells(s, WifiDown, p);
    DroppingWaits(Apply(s, WifiDown), xs, Note(p, s, WifiDown));
  }
}
