/**
 Bring-up never gets stuck: from every state a device can be in, unless an MQTT worker has ended or is
 about to end without setting a bit, the tasks can go on until MQTT is connected, without a reboot.
 */
module Progress {
  import opened Network
  import opened Options
  import opened NetworkSafety
  import opened Credentials

  /** No MQTT worker is about to give up. */
  predicate Willing(s: State) {
    forall i :: 0 <= i < |s.mqtt| ==> s.mqtt[i] != MqttReport(NoMemory)
  }

  ghost predicate Live(s: State) {
    Control(s) && Creds(s) && Fresh(s) && MqttTokens(s) == 1 && Willing(s)
  }

  /** No failing read of a stored item, no reboot, no connect that runs out of memory. */
  predicate Fair(s: State, x: Action) {
    Reliable(s, x) && !x.Reboot? && (x.MqttStep? ==> x.status != NoMemory)
  }

  predicate AllFair(s: State, xs: seq<Action>)
    decreases |xs|
  {
    xs == [] || (Fair(s, xs[0]) && AllFair(Apply(s, xs[0]), xs[1..]))
  }

  ghost predicate Reach(s: State, t: State) {
    exists xs :: AllFair(s, xs) && ApplyAll(s, xs) == t
  }

  lemma ReachSelf(s: State)
    ensures Reach(s, s)
  {
    assert AllFair(s, []) && ApplyAll(s, []) == s;
  }

  lemma {:induction false} RunTrans(s: State, xs: seq<Action>, ys: seq<Action>)
    requires AllFair(s, xs) && AllFair(ApplyAll(s, xs), ys)
    ensures AllFair(s, xs + ys) && ApplyAll(s, xs + ys) == ApplyAll(ApplyAll(s, xs), ys)
    decreases |xs|
  {
    hide Apply, Fair;
    if xs == [] {
      assert xs + ys == ys;
    } else {
      assert (xs + ys)[0] == xs[0] && (xs + ys)[1..] == xs[1..] + ys;
      RunTrans(Apply(s, xs[0]), xs[1..], ys);
    }
  }

  lemma ReachTrans(s: State, t: State, u: State)
    requires Reach(s, t) && Reach(t, u)
    ensures Reach(s, u)
  {
    hide Apply, Fair, AllFair, ApplyAll;
    var xs :| AllFair(s, xs) && ApplyAll(s, xs) == t;
    var ys :| AllFair(t, ys) && ApplyAll(t, ys) == u;
    RunTrans(s, xs, ys);
  }

  lemma ReachOne(s: State, x: Action)
    requires Fair(s, x)
    ensures Reach(s, Apply(s, x))
  {
    hide Apply, Fair;
    var xs := [x];
    assert xs[1..] == [];
    assert AllFair(s, xs) && ApplyAll(s, xs) == Apply(s, x);
  }

  // ------------------------------------------------------------------- one step

  lemma MqttStepWilling(s: State, i: nat, r: MqttStatus)
    requires Willing(s) && i < |s.mqtt| && r != NoMemory
    ensures Willing(ApplyMqtt(s, i, r))
  {
    hide Without;
    MqttFrame(s, i, r);
    hide ApplyMqtt;
    var t := ApplyMqtt(s, i, r);
    if t.mqtt == Without(s.mqtt, i) { WithoutWilling(s.mqtt, i); }
  }

  lemma WithoutWilling(q: seq<MqttTask>, i: nat)
    requires i < |q| && forall j :: 0 <= j < |q| ==> q[j] != MqttReport(NoMemory)
    ensures forall j :: 0 <= j < |Without(q, i)| ==> Without(q, i)[j] != MqttReport(NoMemory)
  {
  }

  /** What an MQTT worker does to its list and to the bits. */
  lemma MqttFrame(s: State, i: nat, r: MqttStatus)
    requires i < |s.mqtt|
    ensures var q := ApplyMqtt(s, i, r).mqtt;
            q == s.mqtt || q == s.mqtt[i := MqttConnect] || q == s.mqtt[i := MqttReport(r)] ||
            q == s.mqtt[i := Dropped] || q == Without(s.mqtt, i)
  {
    hide Without;
  }

  lemma HandlerMqtt(s: State)
    ensures ApplyHandler(s).mqtt == s.mqtt || ApplyHandler(s).mqtt == s.mqtt + [MqttWait]
  {
    if s.handler.Spawning? { TestFrame(s); }
  }

  lemma OthersLeaveMqtt(s: State, x: Action)
    requires !x.HandlerStep? && !x.MqttStep? && !x.Reboot?
    ensures Apply(s, x).mqtt == s.mqtt
  {
    hide Without, ApplyHandler, ApplyMqtt;
    match x
    case KeyStep(i, a) => if i < |s.key| { assert ApplyKey(s, i, a).mqtt == s.mqtt; }
    case CertStep(i, a) => if i < |s.cert| { assert ApplyCert(s, i, a).mqtt == s.mqtt; }
    case TlsStep(i, a) => if i < |s.tls| { assert ApplyTls(s, i, a).mqtt == s.mqtt; }
    case _ =>
  }

  lemma StepWilling(s: State, x: Action)
    requires Willing(s) && Fair(s, x)
    ensures Willing(Apply(s, x))
  {
    hide ApplyHandler, ApplyMqtt, ApplyKey, ApplyCert, ApplyTls, ApplySender;
    match x
    case HandlerStep => HandlerMqtt(s);
    case MqttStep(i, r) => if i < |s.mqtt| { MqttStepWilling(s, i, r); }
    case _ => OthersLeaveMqtt(s, x);
  }

  lemma StepLive(s: State, x: Action)
    requires Live(s) && Fair(s, x)
    ensures Live(Apply(s, x))
  {
    assert !GivesUp(s, x);
    assert Matched(s.nvs);
    hide Control, Creds, Fresh, Willing, Guarded, Reliable, Apply, MqttTokens;
    StepKeeps(s, x);
    FreshIsGuarded(s, x);
    StepCreds(s, x);
    StepFresh(s, x);
    StepWilling(s, x);
  }

  // ---------------------------------------------------------- what is not undone

  /** What was achieved on the way stays. */
  predicate Onward(s: State, t: State) {
    && (s.bits.ipGot ==> t.bits.ipGot)
    && (s.bits.keySuccess ==> t.bits.keySuccess)
    && (s.bits.certSuccess ==> t.bits.certSuccess)
  }

  lemma MqttOnly(s: State, b: Bits, q: seq<MqttTask>)
    requires b.ipGot == s.bits.ipGot && b.keySuccess == s.bits.keySuccess && b.certSuccess == s.bits.certSuccess
    ensures Onward(s, s.(bits := b, mqtt := q))
  {
  }

  lemma MqttOnward(s: State, i: nat, r: MqttStatus)
    requires i < |s.mqtt|
    ensures Onward(s, ApplyMqtt(s, i, r))
  {
    hide Without, Onward;
    var b, rest := s.bits, Without(s.mqtt, i);
    match s.mqtt[i]
    case MqttWait =>
      MqttOnly(s, b, s.mqtt[i := MqttConnect]);
      MqttOnly(s, b, s.mqtt);
    case MqttConnect => MqttOnly(s, b, s.mqtt[i := MqttReport(r)]);
    case Dropped => MqttOnly(s, b.(tlsDisconnected := true, mqttDisconnected := true), rest);
    case MqttReport(status) =>
      match status {
        case Success => MqttOnly(s, b.(mqttConnected := true), rest);
        case NoMemory => MqttOnly(s, b, rest);
        case SendOrRecvFailed => MqttOnly(s, b.(tlsConnected := false), s.mqtt[i := Dropped]);
        case OtherError => MqttOnly(s, b.(mqttDisconnected := true), rest);
      }
  }

  lemma HandlerOnward(s: State)
    ensures Onward(s, ApplyHandler(s))
  {
    if s.handler.Spawning? { TestFrame(s); }
  }

  lemma KeyOnward(s: State, i: nat, a: Answer)
    requires i < |s.key|
    ensures Onward(s, ApplyKey(s, i, a))
  {
    hide Without;
    if !s.key[i].Report? {
      KeyFrame(s, i, a);
      hide ApplyKey;
    } else if s.key[i].ok {
      assert Onward(s, s.(bits := s.bits.(keySuccess := true), key := Without(s.key, i)));
    } else {
      assert Onward(s, s.(bits := s.bits.(keyFail := true), key := Without(s.key, i)));
    }
  }

  lemma CertOnward(s: State, i: nat, a: Answer)
    requires i < |s.cert|
    ensures Onward(s, ApplyCert(s, i, a))
  {
    hide Without;
    if !s.cert[i].CertReport? {
      CertFrame(s, i, a);
      hide ApplyCert;
    } else if s.cert[i].ok {
      assert Onward(s, s.(bits := s.bits.(certSuccess := true), cert := Without(s.cert, i)));
    } else {
      assert Onward(s, s.(bits := s.bits.(certFail := true), cert := Without(s.cert, i)));
    }
  }

  lemma TlsOnward(s: State, i: nat, a: Answer)
    requires i < |s.tls|
    ensures Onward(s, ApplyTls(s, i, a))
  {
    hide Without;
    if !s.tls[i].TlsReport? {
      TlsFrame(s, i, a);
      hide ApplyTls;
    } else if s.tls[i].ok {
      assert Onward(s, s.(bits := s.bits.(tlsConnected := true), tls := Without(s.tls, i)));
    } else {
      assert Onward(s, s.(bits := s.bits.(tlsDisconnected := true), tls := Without(s.tls, i)));
    }
  }

  lemma SenderOnward(s: State, ok: bool)
    ensures Onward(s, ApplySender(s, ok))
  {
    var b := s.bits;
    match s.sender
    case SendWait => assert Onward(s, s.(sender := Publish));
    case Publish => assert Onward(s, s.(sender := if ok then SendWait else PublishFailed));
    case PublishFailed =>
      assert Onward(s, s.(bits := b.(tlsConnected := false, mqttConnected := false), sender := SendDropped));
    case SendDropped =>
      assert Onward(s, s.(bits := b.(tlsDisconnected := true, mqttDisconnected := true), sender := SendWait));
  }

  lemma RadioOnward(s: State, x: Action)
    requires x.WifiUp? || x.GotIp?
    ensures Onward(s, Apply(s, x))
  {
    hide ApplyHandler, ApplyMqtt, ApplyKey, ApplyCert, ApplyTls, ApplySender;
    if x.WifiUp? {
      assert Onward(s, s.(bits := s.bits.(wifiConnected := true)));
    } else {
      assert Onward(s, s.(bits := s.bits.(ipGot := true)));
    }
  }

  lemma OnwardSelf(s: State)
    ensures Onward(s, s)
  {
  }

  lemma StepOnward(s: State, x: Action)
    requires !x.Reboot? && !x.WifiDown?
    ensures Onward(s, Apply(s, x))
  {
    hide ApplyHandler, ApplyMqtt, ApplyKey, ApplyCert, ApplyTls, ApplySender, Onward;
    OnwardSelf(s);
    match x
    case HandlerStep => HandlerOnward(s);
    case KeyStep(i, a) => if i < |s.key| { KeyOnward(s, i, a); }
    case CertStep(i, a) => if i < |s.cert| { CertOnward(s, i, a); }
    case TlsStep(i, a) => if i < |s.tls| { TlsOnward(s, i, a); }
    case MqttStep(i, r) => if i < |s.mqtt| { MqttOnward(s, i, r); }
    case SenderStep(ok) => SenderOnward(s, ok);
    case _ => RadioOnward(s, x);
  }

  /** `t` can be reached from `s`, and nothing achieved is lost on the way. */
  ghost predicate Leads(s: State, t: State) {
    Live(t) && Reach(s, t) && Onward(s, t)
  }

  lemma LeadsSelf(s: State)
    requires Live(s)
    ensures Leads(s, s)
  {
    ReachSelf(s);
  }

  lemma LeadsTrans(s: State, t: State, u: State)
    requires Leads(s, t) && Leads(t, u)
    ensures Leads(s, u)
  {
    hide Live, Reach;
    ReachTrans(s, t, u);
  }

  lemma LeadsOne(s: State, x: Action)
    requires Live(s) && Fair(s, x) && !x.WifiDown?
    ensures Leads(s, Apply(s, x))
  {
    hide Live, Reach, Apply, Onward;
    StepLive(s, x);
    ReachOne(s, x);
    StepOnward(s, x);
  }

  // --------------------------------------------------------------- the handler

  predicate Extends<T(==)>(a: seq<T>, b: seq<T>, x: T) {
    |a| <= |b| && b[..|a|] == a && forall i :: |a| <= i < |b| ==> b[i] == x
  }

  /** The handler only starts workers, and touches no bit of success. */
  predicate Grown(s: State, t: State) {
    && Extends(s.key, t.key, ReadKey) && Extends(s.cert, t.cert, CertRead)
    && Extends(s.tls, t.tls, TlsWait) && Extends(s.mqtt, t.mqtt, MqttWait)
    && t.sender == s.sender && t.ram == s.ram && t.nvs == s.nvs
    && t.bits.keySuccess == s.bits.keySuccess && t.bits.certSuccess == s.bits.certSuccess
    && t.bits.tlsConnected == s.bits.tlsConnected && t.bits.mqttConnected == s.bits.mqttConnected
  }

  lemma ExtendsTrans<T>(a: seq<T>, b: seq<T>, c: seq<T>, x: T)
    requires Extends(a, b, x) && Extends(b, c, x)
    ensures Extends(a, c, x)
  {
    assert c[..|a|] == c[..|b|][..|a|];
    forall i | |a| <= i < |c| ensures c[i] == x {
      if i < |b| { assert c[i] == c[..|b|][i]; }
    }
  }

  lemma GrownTrans(s: State, t: State, u: State)
    requires Grown(s, t) && Grown(t, u)
    ensures Grown(s, u)
  {
    hide Extends;
    ExtendsTrans(s.key, t.key, u.key, ReadKey);
    ExtendsTrans(s.cert, t.cert, u.cert, CertRead);
    ExtendsTrans(s.tls, t.tls, u.tls, TlsWait);
    ExtendsTrans(s.mqtt, t.mqtt, u.mqtt, MqttWait);
  }

  lemma TestGrown(s: State)
    requires s.handler.Spawning?
    ensures Grown(s, ApplyHandler(s))
  {
    TestFrame(s);
    hide ApplyHandler;
  }

  lemma HandlerGrown(s: State)
    ensures Grown(s, ApplyHandler(s))
  {
    if s.handler.Spawning? {
      hide Grown, ApplyHandler;
      TestGrown(s);
    } else if s.handler.Boot? {
      assert Grown(s, s.(bits := s.bits.(init := true), handler := Waiting));
    } else {
      assert Grown(s, s.(bits := Cleared(s.bits), handler := Spawning(s.bits, ForWifi)));
    }
  }

  /** How far the handler is from waiting with nothing to wake it. */
  function Busy(s: State): nat {
    match s.handler
    case Boot => 8
    case Waiting => if Wakes(s.bits) then 7 else 0
    case Spawning(_, n) => 6 - Rank(n) + if Wakes(s.bits) then 7 else 0
  }

  predicate Idle(s: State) {
    s.handler == Waiting && !Wakes(s.bits)
  }

  lemma HandlerLessBusy(s: State)
    requires !Idle(s)
    ensures Busy(ApplyHandler(s)) < Busy(s)
  {
    if s.handler.Spawning? {
      TestFrame(s);
      hide ApplyHandler;
    }
  }

  /** The handler can run until it waits for something new. */
  lemma {:induction false} Settle(s: State) returns (t: State)
    requires Live(s)
    ensures Leads(s, t) && Idle(t) && Grown(s, t)
    decreases Busy(s)
  {
    hide Live, Onward, Reach, Grown, Leads, Wakes, ApplyHandler, Busy;
    if Idle(s) {
      t := s;
      LeadsSelf(s);
      GrownSelf(s);
    } else {
      HandlerLessBusy(s);
      LeadsOne(s, HandlerStep);
      HandlerGrown(s);
      var u := ApplyHandler(s);
      LeadsLive(s, u);
      t := Settle(u);
      LeadsTrans(s, u, t);
      GrownTrans(s, u, t);
    }
  }

  lemma LeadsLive(s: State, t: State)
    requires Leads(s, t)
    ensures Live(t) && Onward(s, t)
  {
  }

  lemma GrownSelf(s: State)
    ensures Grown(s, s)
  {
  }

  /** When the handler is idle, a right that is not spent is with a worker, or with a task that lost its connection. */
  lemma IdleTokens(s: State)
    requires Live(s) && Idle(s)
    ensures |s.key| + One(s.bits.keySuccess) == 1
    ensures |s.cert| + One(s.bits.certSuccess) == 1
    ensures |s.tls| + One(s.bits.tlsConnected) + Drops(s.mqtt) + One(s.sender.SendDropped?) == 1
    ensures |s.mqtt| + One(s.bits.mqttConnected) + One(s.sender.SendDropped?) == 1
  {
    hide Creds, Fresh, Willing, Links, Drops;
  }

  const GOOD := Answer(true, true, 0)

  // ------------------------------------------------------------ the key worker

  function KeyRank(k: KeyTask): nat {
    match k
    case Report(ok) => if ok then 0 else 7
    case Store => 1
    case TakeKey => 2
    case Generate => 3
    case Test => 4
    case ReadCert => 5
    case ReadKey => 6
  }

  /** One good step of the key worker takes it nearer to success, or ends it. */
  lemma KeyAdvances(s: State)
    requires |s.key| == 1
    ensures var t := ApplyKey(s, 0, GOOD);
            match s.key[0]
            case Report(ok) => t.key == [] && (ok ==> t.bits.keySuccess)
            case k => |t.key| == 1 && KeyRank(t.key[0]) < KeyRank(k)
  {
  }

  lemma GrownKey(s: State, t: State)
    requires Live(t) && Idle(t) && Grown(s, t)
    ensures t.bits.keySuccess || (if |s.key| == 1 then t.key == s.key else t.key == [ReadKey])
  {
    hide Live, Extends;
    IdleTokens(t);
    assert Extends(s.key, t.key, ReadKey);
    ExtendsOne(s.key, t.key, ReadKey);
  }

  lemma ExtendsOne<T>(a: seq<T>, b: seq<T>, x: T)
    requires Extends(a, b, x)
    ensures |b| == 1 ==> if |a| == 1 then b == a else b == [x]
  {
    if |b| == 1 && |a| == 1 { assert b == b[..1]; }
  }

  lemma {:induction false} DriveKey(s: State) returns (t: State)
    requires Live(s) && Idle(s) && (s.bits.keySuccess || |s.key| == 1)
    ensures Leads(s, t) && Idle(t) && t.bits.keySuccess
    decreases if s.bits.keySuccess then 0 else KeyRank(s.key[0]) + 1
  {
    hide Live, Onward, Reach, Grown, Leads, Wakes, ApplyKey, Idle;
    if s.bits.keySuccess {
      t := s;
      LeadsSelf(s);
    } else {
      KeyAdvances(s);
      LeadsOne(s, KeyStep(0, GOOD));
      var u := ApplyKey(s, 0, GOOD);
      LeadsLive(s, u);
      var v := Settle(u);
      LeadsLive(u, v);
      LeadsTrans(s, u, v);
      GrownKey(u, v);
      GrownBits(u, v);
      t := DriveKey(v);
      LeadsTrans(s, v, t);
    }
  }

  lemma GrownBits(s: State, t: State)
    requires Grown(s, t)
    ensures t.bits.keySuccess == s.bits.keySuccess && t.bits.certSuccess == s.bits.certSuccess
    ensures t.bits.tlsConnected == s.bits.tlsConnected && t.bits.mqttConnected == s.bits.mqttConnected
    ensures t.sender == s.sender && t.ram == s.ram && t.nvs == s.nvs
  {
  }

  // ------------------------------------------------------ the certificate worker

  /** `stored`: there is a certificate in storage; `used`: there is one in use. */
  function CertRank(c: CertTask, stored: bool, used: bool): nat {
    match c
    case CertReport(ok) => if ok then 0 else if stored then 3 else 15
    case CertRead => if stored then 2 else 14
    case CertTest => if !stored then 13 else if used then 1 else 8
    case CertWait => if stored then 7 else 12
    case CertClaim => if stored then 6 else 11
    case CertTake => if stored then 5 else 10
    case CertStore => if stored then 4 else 9
  }

  function CertDistance(s: State): nat
    requires |s.cert| == 1
  {
    CertRank(s.cert[0], s.nvs.cert.Some?, s.ram.devCert.Some?)
  }

  /** One good step of the certificate worker takes it nearer to success, or ends it. */
  predicate CertNearer(s: State, t: State)
    requires |s.cert| == 1
  {
    match s.cert[0]
    case CertReport(ok) => t.cert == [] && t.nvs == s.nvs && t.ram == s.ram && (ok ==> t.bits.certSuccess)
    case _ => |t.cert| == 1 && CertDistance(t) < CertDistance(s)
  }

  lemma CertAdvances(s: State)
    requires Creds(s) && |s.cert| == 1 && s.bits.keySuccess && s.bits.ipGot
    ensures CertNearer(s, ApplyCert(s, 0, GOOD))
  {
    var c := s.cert[0];
    assert CertOk(s.ram, s.nvs, s.key, s.bits.keySuccess, c);
    assert Held(s.ram, s.nvs);
    assert s.cert == [c];
    hide Creds, Certified, CertOk, Held;
    var ram, nvs := s.ram, s.nvs;
    match c
    case CertRead => assert CertNearer(s, s.(ram := ram.(devCert := nvs.cert), cert := [CertTest]));
    case CertTest =>
      if ram.devCert.None? {
        assert CertNearer(s, s.(cert := [CertWait]));
      } else {
        TestedIsStored(s);
        assert CertNearer(s, s.(cert := [CertReport(true)]));
      }
    case CertWait => assert CertNearer(s, s.(cert := [CertClaim]));
    case CertClaim =>
      if ram.claim.Some? {
        assert CertNearer(s, s.(ram := ram.(issued := Some(Cert(ram.claim.value, 0))), cert := [CertTake]));
      } else {
        UnclaimedIsStored(s);
        assert CertNearer(s, s.(cert := [CertReport(false)]));
      }
    case CertTake => assert CertNearer(s, s.(ram := ram.(devCert := ram.issued), cert := [CertStore]));
    case CertStore => assert CertNearer(s, s.(nvs := nvs.(cert := ram.devCert), cert := [CertReport(true)]));
    case CertReport(ok) =>
      if ok {
        assert CertNearer(s, s.(bits := s.bits.(certSuccess := true), cert := []));
      } else {
        assert CertNearer(s, s.(bits := s.bits.(certFail := true), cert := []));
      }
      assert Without(s.cert, 0) == [];
  }

  lemma TestedIsStored(s: State)
    requires CertOk(s.ram, s.nvs, s.key, s.bits.keySuccess, CertTest) && s.ram.devCert.Some?
    ensures s.nvs.cert.Some?
  {
  }

  lemma UnclaimedIsStored(s: State)
    requires Held(s.ram, s.nvs) && s.ram.claim.None?
    ensures s.nvs.cert.Some?
  {
  }

  lemma GrownCert(s: State, t: State)
    requires Live(t) && Idle(t) && Grown(s, t)
    ensures t.bits.certSuccess || (if |s.cert| == 1 then t.cert == s.cert else t.cert == [CertRead])
  {
    hide Live, Extends;
    IdleTokens(t);
    assert Extends(s.cert, t.cert, CertRead);
    ExtendsOne(s.cert, t.cert, CertRead);
  }

  lemma ReadAgain(stored: bool, used: bool)
    ensures CertRank(CertRead, stored, used) < CertRank(CertReport(false), stored, used)
  {
  }

  lemma {:induction false} DriveCert(s: State) returns (t: State)
    requires Live(s) && Idle(s) && s.bits.keySuccess && s.bits.ipGot && (s.bits.certSuccess || |s.cert| == 1)
    ensures Leads(s, t) && Idle(t) && t.bits.certSuccess
    decreases if s.bits.certSuccess then 0 else CertDistance(s) + 1
  {
    assert Creds(s);
    hide Live, Creds, Reach, Grown, Leads, Wakes, ApplyCert, Idle, CertRank;
    ReadAgain(s.nvs.cert.Some?, s.ram.devCert.Some?);
    if s.bits.certSuccess {
      t := s;
      LeadsSelf(s);
    } else {
      CertAdvances(s);
      LeadsOne(s, CertStep(0, GOOD));
      var u := ApplyCert(s, 0, GOOD);
      LeadsLive(s, u);
      var v := Settle(u);
      LeadsLive(u, v);
      LeadsTrans(s, u, v);
      GrownCert(u, v);
      GrownBits(u, v);
      t := DriveCert(v);
      LeadsTrans(s, v, t);
    }
  }

  // -------------------------------------------------------------- the TLS worker

  function TlsRank(k: TlsTask): nat {
    match k
    case TlsReport(ok) => if ok then 0 else 5
    case TlsConnect => 1
    case TlsClose => 2
    case TlsTest => 3
    case TlsWait => 4
  }

  predicate Provisioned(s: State) {
    s.bits.keySuccess && s.bits.certSuccess && s.bits.ipGot
  }

  lemma TlsAdvances(s: State)
    requires |s.tls| == 1 && Provisioned(s)
    ensures var t := ApplyTls(s, 0, GOOD);
            && t.mqtt == s.mqtt && t.sender == s.sender
            && match s.tls[0]
               case TlsReport(ok) => t.tls == [] && (ok ==> t.bits.tlsConnected)
               case k => |t.tls| == 1 && TlsRank(t.tls[0]) < TlsRank(k)
  {
  }

  /** The MQTT worker waits for a connection, and nobody has lost one. */
  predicate Awaiting(s: State) {
    s.mqtt == [MqttWait] && !s.sender.SendDropped?
  }

  lemma GrownTls(s: State, t: State)
    requires Live(t) && Idle(t) && Grown(s, t) && Awaiting(s)
    ensures Awaiting(t)
    ensures t.bits.tlsConnected || (if |s.tls| == 1 then t.tls == s.tls else t.tls == [TlsWait])
  {
    hide Live, Extends;
    IdleTokens(t);
    assert Extends(s.tls, t.tls, TlsWait) && Extends(s.mqtt, t.mqtt, MqttWait);
    ExtendsOne(s.tls, t.tls, TlsWait);
    ExtendsOne(s.mqtt, t.mqtt, MqttWait);
    ExtendsLonger(s.mqtt, t.mqtt, MqttWait);
  }

  lemma ExtendsLonger<T>(a: seq<T>, b: seq<T>, x: T)
    requires Extends(a, b, x)
    ensures |a| <= |b|
  {
  }

  lemma {:induction false} DriveTls(s: State) returns (t: State)
    requires Live(s) && Idle(s) && Provisioned(s) && Awaiting(s) && (s.bits.tlsConnected || |s.tls| == 1)
    ensures Leads(s, t) && Idle(t) && t.bits.tlsConnected && Awaiting(t)
    decreases if s.bits.tlsConnected then 0 else TlsRank(s.tls[0]) + 1
  {
    hide Live, Reach, Grown, Leads, Wakes, ApplyTls, Idle;
    if s.bits.tlsConnected {
      t := s;
      LeadsSelf(s);
    } else {
      TlsAdvances(s);
      LeadsOne(s, TlsStep(0, GOOD));
      var u := ApplyTls(s, 0, GOOD);
      LeadsLive(s, u);
      var v := Settle(u);
      LeadsLive(u, v);
      LeadsTrans(s, u, v);
      GrownTls(u, v);
      GrownBits(u, v);
      t := DriveTls(v);
      LeadsTrans(s, v, t);
    }
  }

  // ------------------------------------------------------------- the MQTT worker

  function MqttRank(k: MqttTask): nat {
    match k
    case MqttReport(r) => if r == Success then 0 else if r == SendOrRecvFailed then 4 else 3
    case MqttConnect => 1
    case MqttWait => 2
    case Dropped => 3
  }

  lemma MqttAdvances(s: State)
    requires |s.mqtt| == 1 && s.mqtt[0] != MqttReport(NoMemory) && (s.mqtt[0].MqttWait? ==> s.bits.tlsConnected)
    ensures var t := ApplyMqtt(s, 0, Success);
            && t.sender == s.sender
            && match s.mqtt[0]
               case MqttReport(r) =>
                 if r == SendOrRecvFailed then t.mqtt == [Dropped]
                 else t.mqtt == [] && (r == Success ==> t.bits.mqttConnected)
               case Dropped => t.mqtt == []
               case k => |t.mqtt| == 1 && MqttRank(t.mqtt[0]) < MqttRank(k)
  {
    match s.mqtt[0]
    case MqttReport(r) =>
    case _ =>
  }

  lemma GrownMqtt(s: State, t: State)
    requires Live(t) && Idle(t) && Grown(s, t) && !s.sender.SendDropped?
    ensures !t.sender.SendDropped?
    ensures t.bits.mqttConnected || (if |s.mqtt| == 1 then t.mqtt == s.mqtt else t.mqtt == [MqttWait])
  {
    hide Live, Extends;
    IdleTokens(t);
    assert Extends(s.mqtt, t.mqtt, MqttWait);
    ExtendsOne(s.mqtt, t.mqtt, MqttWait);
  }

  lemma IdleMqtt(s: State)
    requires Live(s) && Idle(s) && !s.bits.mqttConnected
    ensures s.sender.SendWait? || s.sender.SendDropped?
    ensures !s.sender.SendDropped? ==> |s.mqtt| == 1 && s.mqtt[0] != MqttReport(NoMemory)
    ensures Awaiting(s) ==> s.bits.tlsConnected || |s.tls| == 1
  {
    IdleTokens(s);
    assert s.mqtt == [MqttWait] ==> s.mqtt[1..] == [] && Drops(s.mqtt) == 0;
    hide Creds, Fresh, Tokens;
  }

  /** With a worker that may use the connection: on to MQTT. */
  lemma {:induction false} DriveMqtt(s: State) returns (t: State)
    requires Live(s) && Idle(s) && Provisioned(s) && !s.sender.SendDropped? && (s.bits.mqttConnected || |s.mqtt| == 1)
    ensures Leads(s, t) && t.bits.mqttConnected
    decreases if s.bits.mqttConnected then 0 else MqttRank(s.mqtt[0]) + 1
  {
    hide Live, Reach, Grown, Leads, Wakes, ApplyMqtt, Idle;
    if s.bits.mqttConnected {
      t := s;
      LeadsSelf(s);
    } else {
      IdleMqtt(s);
      var r := s;
      LeadsSelf(s);
      if s.mqtt[0].MqttWait? {
        assert s.mqtt == [MqttWait];
        r := DriveTls(s);
        LeadsLive(s, r);
      }
      MqttAdvances(r);
      LeadsOne(r, MqttStep(0, Success));
      var u := ApplyMqtt(r, 0, Success);
      LeadsTrans(s, r, u);
      LeadsLive(s, u);
      var v := Settle(u);
      LeadsLive(u, v);
      LeadsTrans(s, u, v);
      GrownMqtt(u, v);
      GrownBits(u, v);
      t := DriveMqtt(v);
      LeadsTrans(s, v, t);
    }
  }

  // ------------------------------------------------------------------ all the way

  lemma StepReaches(s: State, x: Action)
    requires Live(s) && Fair(s, x)
    ensures Live(Apply(s, x)) && Reach(s, Apply(s, x))
  {
    hide Live, Reach, Apply;
    StepLive(s, x);
    ReachOne(s, x);
  }

  lemma DownUp(s: State)
    ensures s.radio.Dropping? ==> Apply(s, WifiDown).radio.Quiet?
    ensures s.radio.Quiet? ==> Apply(s, GotIp).bits.ipGot
  {
    hide ApplyHandler, ApplyKey, ApplyCert, ApplyTls, ApplyMqtt, ApplySender;
  }

  /** The interface gets an address, after finishing a disconnect that has begun. */
  lemma GetIp(s: State) returns (t: State)
    requires Live(s)
    ensures Live(t) && Reach(s, t) && t.bits.ipGot
  {
    hide Live, Reach, Apply;
    DownUp(s);
    var u := s;
    ReachSelf(s);
    if s.radio.Dropping? {
      StepReaches(s, WifiDown);
      u := Apply(s, WifiDown);
    }
    DownUp(u);
    StepReaches(u, GotIp);
    t := Apply(u, GotIp);
    ReachTrans(s, u, t);
  }

  /** A lost connection is flagged, and an MQTT worker started for it. */
  lemma Flagged(s: State) returns (t: State)
    requires Live(s) && Idle(s)
    ensures Leads(s, t) && Idle(t) && !t.sender.SendDropped? && (t.bits.mqttConnected || |t.mqtt| == 1)
  {
    hide Live, Reach, Grown, Leads, Wakes, Idle, Onward;
    if s.bits.mqttConnected {
      t := s;
      LeadsSelf(s);
      ConnectedNotDropped(s);
    } else if s.sender.SendDropped? {
      LeadsOne(s, SenderStep(true));
      var u := ApplySender(s, true);
      LeadsLive(s, u);
      t := Settle(u);
      LeadsLive(u, t);
      LeadsTrans(s, u, t);
      GrownMqtt(u, t);
    } else {
      t := s;
      LeadsSelf(s);
      IdleMqtt(s);
    }
  }

  lemma ConnectedNotDropped(s: State)
    requires Live(s) && s.bits.mqttConnected
    ensures !s.sender.SendDropped?
  {
    hide Creds, Fresh, Drops;
  }

  lemma KeyToDo(s: State)
    requires Live(s) && Idle(s)
    ensures s.bits.keySuccess || |s.key| == 1
    ensures s.bits.certSuccess || |s.cert| == 1
  {
    hide Live;
    IdleTokens(s);
  }

  /** From every live state the tasks can go on until MQTT is connected. */
  lemma Connects(s: State) returns (t: State)
    requires Live(s)
    ensures Reach(s, t) && t.bits.mqttConnected
  {
    hide Live, Reach, Leads, Idle, Grown;
    var a := GetIp(s);
    var b := Settle(a);
    LeadsLive(a, b);
    KeyToDo(b);
    var c := DriveKey(b);
    LeadsLive(b, c);
    KeyToDo(c);
    var d := DriveCert(c);
    LeadsLive(c, d);
    var e := Flagged(d);
    LeadsLive(d, e);
    t := DriveMqtt(e);
    LeadsTrans(a, b, c);
    LeadsTrans(a, c, d);
    LeadsTrans(a, d, e);
    LeadsTrans(a, e, t);
    LeadsReach(a, t);
    ReachTrans(s, a, t);
  }

  lemma LeadsReach(s: State, t: State)
    requires Leads(s, t)
    ensures Reach(s, t)
  {
  }

  // ------------------------------------------------------------------ or not at all

  predicate NoReboot(xs: seq<Action>) {
    forall i :: 0 <= i < |xs| ==> !xs[i].Reboot?
  }

  lemma {:induction false} FairMeansNoReboot(s: State, xs: seq<Action>)
    requires AllFair(s, xs)
    ensures NoReboot(xs)
    decreases |xs|
  {
    hide Apply;
    if xs == [] {
    } else {
      FairMeansNoReboot(Apply(s, xs[0]), xs[1..]);
      assert forall i :: 0 < i < |xs| ==> xs[i] == xs[1..][i - 1];
    }
  }

  /** The MQTT worker has given up, or is about to. */
  ghost predicate Lost(s: State) {
    MqttTokens(s) == 0 || s.mqtt == [MqttReport(NoMemory)]
  }

  lemma LostNotConnected(s: State)
    requires Control(s) && Lost(s)
    ensures !s.bits.mqttConnected
  {
    hide Drops, Links, KeyTokens, CertTokens, TlsTokens;
  }

  lemma StepLost(s: State, x: Action)
    requires Control(s) && Lost(s) && !x.Reboot?
    ensures Lost(Apply(s, x))
  {
    StepKeeps(s, x);
    if MqttTokens(s) == 0 || GivesUp(s, x) {
      GivenUp(s, x);
    } else {
      StillThere(s, x);
    }
  }

  lemma GivenUp(s: State, x: Action)
    requires Control(s) && Kept(s, x) && !x.Reboot? && (MqttTokens(s) == 0 || GivesUp(s, x))
    ensures Lost(Apply(s, x))
  {
    hide Control, MqttTokens, Apply;
  }

  lemma StillThere(s: State, x: Action)
    requires Control(s) && Kept(s, x) && !x.Reboot? && s.mqtt == [MqttReport(NoMemory)] && !GivesUp(s, x)
    ensures Apply(s, x).mqtt == s.mqtt
  {
    var t := Apply(s, x);
    AtMostOne(t);
    hide Control, MqttTokens, ApplyHandler, ApplyKey, ApplyCert, ApplyTls, ApplyMqtt, ApplySender;
    if x.HandlerStep? {
      HandlerMqtt(s);
    } else if !x.MqttStep? {
      OthersLeaveMqtt(s, x);
    }
  }

  lemma AtMostOne(s: State)
    requires Control(s)
    ensures |s.mqtt| <= 1
  {
    hide Drops, Links, KeyTokens, CertTokens, TlsTokens;
  }

  lemma {:induction false} RunLost(s: State, xs: seq<Action>)
    requires Control(s) && Lost(s) && NoReboot(xs)
    ensures !ApplyAll(s, xs).bits.mqttConnected
    decreases |xs|
  {
    hide Control, Lost, Apply, MqttTokens;
    if xs == [] {
      LostNotConnected(s);
    } else {
      StepKeeps(s, xs[0]);
      StepLost(s, xs[0]);
      assert forall i :: 0 <= i < |xs| - 1 ==> xs[1..][i] == xs[i + 1];
      RunLost(Apply(s, xs[0]), xs[1..]);
    }
  }

  /**
   Bring-up never sticks, exactly: from any state a run with reliable reads leads to, whatever failed on
   it, some continuation without a reboot connects MQTT if and only if no MQTT worker has ended with
   MQTTNoMemory since the last reboot, nor has one just been told so.
   */
  lemma BringUpNeverSticks(nvs: Nvs, xs: seq<Action>)
    requires Matched(nvs) && AllReliable(Start(nvs), xs)
    ensures var s := ApplyAll(Start(nvs), xs);
            (exists ys :: NoReboot(ys) && ApplyAll(s, ys).bits.mqttConnected)
            <==> !GaveUp(Start(nvs), xs, false) && MqttReport(NoMemory) !in s.mqtt
  {
    var s := ApplyAll(Start(nvs), xs);
    RunsAreSafe(nvs, xs);
    StartReliable(nvs);
    ReliableRuns(Start(nvs), xs);
    if !GaveUp(Start(nvs), xs, false) && MqttReport(NoMemory) !in s.mqtt {
      assert Live(s) by { assert Willing(s); }
      hide Live, NoReboot, ApplyAll, AllFair, Control, Creds, Fresh, GaveUp, Exclusive, AllReliable, MqttTokens;
      var t := Connects(s);
      var ys :| AllFair(s, ys) && ApplyAll(s, ys) == t;
      FairMeansNoReboot(s, ys);
    } else {
      LostWhenAbout(s);
      hide Control, Creds, Fresh, Lost, ApplyAll, NoReboot, MqttTokens, GaveUp;
      forall ys | NoReboot(ys) ensures !ApplyAll(s, ys).bits.mqttConnected { RunLost(s, ys); }
    }
  }

  lemma StartReliable(nvs: Nvs)
    requires Matched(nvs)
    ensures Control(Start(nvs)) && Creds(Start(nvs)) && Fresh(Start(nvs))
  {
    StartControl(nvs);
  }

  lemma LostWhenAbout(s: State)
    requires Control(s)
    ensures MqttReport(NoMemory) in s.mqtt || MqttTokens(s) == 0 ==> Lost(s)
  {
    AtMostOne(s);
    hide Control, MqttTokens;
    if MqttReport(NoMemory) in s.mqtt { assert s.mqtt == [s.mqtt[0]]; }
  }
}
