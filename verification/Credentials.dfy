/**
 The key and the certificate: whatever the interleaving, and wherever a reboot cuts it, the stored
 certificate belongs to the stored key, and a TLS connection is made with a matching pair.
 */
module Credentials {
  import opened Network
  import opened Options
  import opened NetworkSafety

  /** A stored certificate was issued for the stored key. */
  predicate Matched(nvs: Nvs) {
    nvs.cert.Some? ==> nvs.key == Some(nvs.cert.value.key)
  }

  /**
   The key in use is the stored one; a signing request there may be is for it, and there is one while
   there is no certificate.
   */
  predicate Held(ram: Ram, nvs: Nvs) {
    && ram.devKey.Some? && ram.devKey == nvs.key
    && (ram.claim.None? || ram.claim == ram.devKey)
    && (nvs.cert.None? ==> ram.claim == ram.devKey)
  }

  /** As long as no key was acquired, nothing was claimed beside a stored certificate. */
  predicate Untouched(ram: Ram, nvs: Nvs) {
    (nvs.cert.Some? ==> ram.claim.None?) && (ram.devCert.None? || ram.devCert == nvs.cert)
  }

  predicate KeyOk(ram: Ram, nvs: Nvs, k: KeyTask) {
    match k
    case ReadKey => true
    case ReadCert => ram.devKey.None? || ram.devKey == nvs.key
    case Test => ram.devKey.None? || ram.devKey == nvs.key
    case Generate => nvs.cert.None?
    case TakeKey => nvs.cert.None? && ram.claim.Some?
    case Store => nvs.cert.None? && ram.devKey.Some? && ram.claim == ram.devKey
    case Report(ok) => ok ==> Held(ram, nvs)
  }

  /** The certificate in use is the stored one, or the key worker is about to see that there is none in use. */
  predicate Certified(ram: Ram, nvs: Nvs, key: seq<KeyTask>) {
    nvs.cert.Some? && (ram.devCert == nvs.cert || (ram.devCert.None? && key == [Test]))
  }

  predicate CertOk(ram: Ram, nvs: Nvs, key: seq<KeyTask>, keySuccess: bool, c: CertTask) {
    match c
    case CertRead => true
    case CertTest => ram.devCert.None? || ram.devCert == nvs.cert
    case CertWait => true
    case CertClaim => keySuccess
    case CertTake => keySuccess && ram.issued.Some? && nvs.key == Some(ram.issued.value.key)
    case CertStore => keySuccess && ram.devCert.Some? && nvs.key == Some(ram.devCert.value.key)
    case CertReport(ok) => ok ==> Certified(ram, nvs, key)
  }

  predicate TlsOk(b: Bits, t: TlsTask) {
    t.TlsWait? || (b.keySuccess && b.certSuccess)
  }

  ghost predicate Creds(s: State) {
    && Matched(s.nvs)
    && (if s.bits.keySuccess then Held(s.ram, s.nvs) else Untouched(s.ram, s.nvs))
    && (s.bits.certSuccess ==> Certified(s.ram, s.nvs, s.key))
    && (forall i :: 0 <= i < |s.key| ==> KeyOk(s.ram, s.nvs, s.key[i]))
    && (forall i :: 0 <= i < |s.cert| ==> CertOk(s.ram, s.nvs, s.key, s.bits.keySuccess, s.cert[i]))
    && (forall i :: 0 <= i < |s.tls| ==> TlsOk(s.bits, s.tls[i]))
  }

  /** The step does not take the key worker into making a key while a certificate is stored. */
  predicate Guarded(s: State, x: Action) {
    x.KeyStep? && x.i < |s.key| && s.key[x.i].Test? && s.nvs.cert.Some? ==>
      s.ram.devKey.Some? && s.ram.devCert.Some?
  }

  predicate AllGuarded(s: State, xs: seq<Action>)
    decreases |xs|
  {
    xs == [] || (Guarded(s, xs[0]) && AllGuarded(Apply(s, xs[0]), xs[1..]))
  }

  // --------------------------------------------------------------- the workers

  /** While a key worker lives, it is the only one and no certificate is being claimed. */
  lemma KeyWorkerAlone(s: State, i: nat)
    requires Control(s) && i < |s.key|
    ensures |s.key| == 1 && i == 0 && !s.bits.keySuccess
  {
    hide Drops, Links, CertTokens, TlsTokens, MqttTokens;
    Reported(s.handler, ForKey, s.bits.init, s.bits.keyFail, |s.key|, s.bits.keySuccess, 0);
  }

  lemma CertWorkerAlone(s: State, i: nat)
    requires Control(s) && i < |s.cert|
    ensures |s.cert| == 1 && i == 0 && !s.bits.certSuccess
  {
    hide Drops, Links, KeyTokens, TlsTokens, MqttTokens;
    Reported(s.handler, ForCert, s.bits.init, s.bits.certFail, |s.cert|, s.bits.certSuccess, 0);
  }

  lemma KeyDone(s: State)
    requires Control(s) && s.bits.keySuccess
    ensures s.key == []
  {
    hide Control;
    if s.key != [] { KeyWorkerAlone(s, 0); }
  }

  lemma KeyStepCreds(s: State, i: nat, a: Answer)
    requires Control(s) && Creds(s) && i < |s.key| && Guarded(s, KeyStep(i, a))
    ensures Creds(ApplyKey(s, i, a))
  {
    KeyWorkerAlone(s, i);
    hide Control;
    var k := s.key[i];
    assert KeyOk(s.ram, s.nvs, k);
    assert s.key == [k];
    var t := ApplyKey(s, i, a);
    match k
    case ReadKey => assert t == s.(ram := s.ram.(devKey := Read(s.nvs.key, a)), key := [ReadCert]);
    case ReadCert => assert t == s.(ram := s.ram.(devCert := Read(s.nvs.cert, a)), key := [Test]);
    case Test =>
    case Generate =>
    case TakeKey =>
    case Store =>
    case Report(ok) =>
  }

  lemma CertStepCreds(s: State, i: nat, a: Answer)
    requires Control(s) && Creds(s) && i < |s.cert|
    ensures Creds(ApplyCert(s, i, a))
  {
    CertWorkerAlone(s, i);
    if s.bits.keySuccess { KeyDone(s); }
    hide Control;
    var c := s.cert[i];
    assert CertOk(s.ram, s.nvs, s.key, s.bits.keySuccess, c);
    assert s.cert == [c];
    var t := ApplyCert(s, i, a);
    match c
    case CertRead => assert t == s.(ram := s.ram.(devCert := Read(s.nvs.cert, a)), cert := [CertTest]);
    case CertTest =>
    case CertWait =>
    case CertClaim =>
    case CertTake =>
    case CertStore =>
    case CertReport(ok) =>
  }

  lemma TlsStepCreds(s: State, i: nat, a: Answer)
    requires Creds(s) && i < |s.tls|
    ensures Creds(ApplyTls(s, i, a))
  {
    hide KeyOk, CertOk, Held, Matched;
    var t := ApplyTls(s, i, a);
    assert TlsOk(s.bits, s.tls[i]);
    assert t == s.(tls := t.tls, bits := t.bits, tlsOpen := t.tlsOpen);
    forall j | 0 <= j < |t.tls| ensures TlsOk(t.bits, t.tls[j]) {
      if |t.tls| == |s.tls| {
        assert j == i || t.tls[j] == s.tls[j];
      } else {
        assert t.tls[j] == if j < i then s.tls[j] else s.tls[j + 1];
      }
    }
  }

  lemma HandlerShape(s: State)
    ensures var t := ApplyHandler(s);
            && t.ram == s.ram && t.nvs == s.nvs
            && t.bits.keySuccess == s.bits.keySuccess && t.bits.certSuccess == s.bits.certSuccess
            && (t.key == s.key || t.key == s.key + [ReadKey])
            && (t.cert == s.cert || t.cert == s.cert + [CertRead])
            && (t.tls == s.tls || t.tls == s.tls + [TlsWait])
  {
    if s.handler.Spawning? {
      TestFrame(s);
      hide ApplyHandler;
      assert s.key + [] == s.key && s.cert + [] == s.cert && s.tls + [] == s.tls;
    }
  }

  /** The handler starts a worker at the end of its list, and a key worker only when there is none. */
  lemma HandlerStarts(s: State)
    requires Control(s)
    ensures var t := ApplyHandler(s);
            && t.ram == s.ram && t.nvs == s.nvs
            && t.bits.keySuccess == s.bits.keySuccess && t.bits.certSuccess == s.bits.certSuccess
            && (t.key == s.key || (s.key == [] && t.key == [ReadKey]))
            && (t.cert == s.cert || t.cert == s.cert + [CertRead])
            && (t.tls == s.tls || t.tls == s.tls + [TlsWait])
  {
    hide Control, ApplyHandler, MqttTokens;
    HandlerKeeps(s);
    HandlerShape(s);
    var t := ApplyHandler(s);
    if t.key != [] { KeyWorkerAlone(t, 0); }
  }

  lemma HandlerStepCreds(s: State)
    requires Control(s) && Creds(s)
    ensures Creds(ApplyHandler(s))
  {
    hide ApplyHandler, Control, Held, Untouched, Matched;
    HandlerStarts(s);
    var t := ApplyHandler(s);
    forall i | 0 <= i < |t.key| ensures KeyOk(t.ram, t.nvs, t.key[i]) {
      assert i < |s.key| ==> t.key[i] == s.key[i];
    }
    forall i | 0 <= i < |t.cert| ensures CertOk(t.ram, t.nvs, t.key, t.bits.keySuccess, t.cert[i]) {
      assert i < |s.cert| ==> t.cert[i] == s.cert[i];
      assert i < |s.cert| ==> CertOk(s.ram, s.nvs, s.key, s.bits.keySuccess, s.cert[i]);
    }
    forall i | 0 <= i < |t.tls| ensures TlsOk(t.bits, t.tls[i]) {
      assert i < |s.tls| ==> t.tls[i] == s.tls[i];
    }
  }

  /** The other tasks touch neither the credentials nor the bits about them. */
  predicate SameCreds(s: State, t: State) {
    && t.ram == s.ram && t.nvs == s.nvs && t.key == s.key && t.cert == s.cert && t.tls == s.tls
    && t.bits.keySuccess == s.bits.keySuccess && t.bits.certSuccess == s.bits.certSuccess
  }

  lemma SameCredsKeep(s: State, t: State)
    requires Creds(s) && SameCreds(s, t)
    ensures Creds(t)
  {
    hide KeyOk, CertOk, Held, Matched;
  }

  lemma MqttOnly(s: State, b: Bits, q: seq<MqttTask>)
    requires b.keySuccess == s.bits.keySuccess && b.certSuccess == s.bits.certSuccess
    ensures SameCreds(s, s.(bits := b, mqtt := q))
  {
  }

  lemma MqttSame(s: State, i: nat, r: MqttStatus)
    requires i < |s.mqtt|
    ensures SameCreds(s, ApplyMqtt(s, i, r))
  {
    hide Without, SameCreds;
    var b, rest := s.bits, Without(s.mqtt, i);
    match s.mqtt[i]
    case MqttWait =>
      MqttOnly(s, b, s.mqtt[i := MqttConnect]);
      MqttOnly(s, b, s.mqtt);
    case MqttConnect => MqttOnly(s, b, s.mqtt[i := MqttReport(r)]);
    case Dropped => MqttOnly(s, b.(tlsDisconnected := true, mqttDisconnected := true), rest);
    case MqttReport(status) =>
      match status {
        case Success => MqttOnly(s, b.(mqttConnected := true), rest);
        case NoMemory => MqttOnly(s, b, rest);
        case SendOrRecvFailed => MqttOnly(s, b.(tlsConnected := false), s.mqtt[i := Dropped]);
        case OtherError => MqttOnly(s, b.(mqttDisconnected := true), rest);
      }
  }

  lemma SenderSame(s: State, ok: bool)
    ensures SameCreds(s, ApplySender(s, ok))
  {
    match s.sender
    case SendWait => assert SameCreds(s, s.(sender := Publish));
    case Publish => assert SameCreds(s, s.(sender := if ok then SendWait else PublishFailed));
    case PublishFailed =>
      assert SameCreds(s, s.(bits := s.bits.(tlsConnected := false, mqttConnected := false), sender := SendDropped));
    case SendDropped =>
      assert SameCreds(s, s.(bits := s.bits.(tlsDisconnected := true, mqttDisconnected := true), sender := SendWait));
  }

  lemma RadioSame(s: State, x: Action)
    requires x.WifiUp? || x.WifiDown? || x.GotIp?
    ensures SameCreds(s, Apply(s, x))
  {
    hide ApplyHandler, ApplyKey, ApplyCert, ApplyTls, ApplyMqtt, ApplySender;
    match x
    case WifiUp => assert SameCreds(s, Apply(s, WifiUp));
    case WifiDown => assert SameCreds(s, Apply(s, WifiDown));
    case GotIp => assert SameCreds(s, Apply(s, GotIp));
  }

  lemma OtherStepCreds(s: State, x: Action)
    requires Creds(s) && (x.MqttStep? || x.SenderStep? || x.WifiUp? || x.WifiDown? || x.GotIp?)
    ensures Creds(Apply(s, x))
  {
    hide Creds, SameCreds, ApplyHandler, ApplyKey, ApplyCert, ApplyTls, ApplyMqtt, ApplySender;
    match x
    case MqttStep(i, r) =>
      if i < |s.mqtt| {
        MqttSame(s, i, r);
        SameCredsKeep(s, ApplyMqtt(s, i, r));
      }
    case SenderStep(ok) =>
      SenderSame(s, ok);
      SameCredsKeep(s, ApplySender(s, ok));
    case _ =>
      RadioSame(s, x);
      SameCredsKeep(s, Apply(s, x));
  }

  lemma StepCreds(s: State, x: Action)
    requires Control(s) && Creds(s) && Guarded(s, x)
    ensures Creds(Apply(s, x))
  {
    assert x.Reboot? ==> Matched(s.nvs) && Creds(Start(s.nvs));
    hide Control, Creds, ApplyHandler, ApplyKey, ApplyCert, ApplyTls, ApplyMqtt, ApplySender;
    match x
    case HandlerStep => HandlerStepCreds(s);
    case KeyStep(i, a) => if i < |s.key| { KeyStepCreds(s, i, a); }
    case CertStep(i, a) => if i < |s.cert| { CertStepCreds(s, i, a); }
    case TlsStep(i, a) => if i < |s.tls| { TlsStepCreds(s, i, a); }
    case Reboot =>
    case _ => OtherStepCreds(s, x);
  }

  lemma {:induction false} RunCreds(s: State, xs: seq<Action>)
    requires Control(s) && Creds(s) && AllGuarded(s, xs)
    ensures Control(ApplyAll(s, xs)) && Creds(ApplyAll(s, xs))
    decreases |xs|
  {
    hide Control, Creds, Guarded, Apply, MqttTokens;
    if xs == [] {
    } else {
      StepKeeps(s, xs[0]);
      StepCreds(s, xs[0]);
      RunCreds(Apply(s, xs[0]), xs[1..]);
    }
  }

  /** `xTlsConnect` is about to be called, or being called. */
  predicate Connecting(s: State) {
    exists i :: 0 <= i < |s.tls| && s.tls[i] == TlsConnect
  }

  /** The pair handed to `xTlsConnect`: both there, the certificate issued for the key, and both stored. */
  predicate GoodPair(s: State) {
    && s.ram.devKey.Some? && s.ram.devCert.Some?
    && s.ram.devCert.value.key == s.ram.devKey.value
    && s.nvs == Nvs(s.ram.devKey, s.ram.devCert)
  }

  /**
   Crash-safe credentials: on every run in which the key worker makes no key beside a stored
   certificate, with reads and stores that fail, with or without effect, and reboots anywhere, the
   stored pair always matches, and every TLS connection is attempted with a matching key and
   certificate. The success bits stand for a key in use that is stored, and for a stored certificate.
   */
  lemma CredentialsAreSafe(nvs: Nvs, xs: seq<Action>)
    requires Matched(nvs) && AllGuarded(Start(nvs), xs)
    ensures var s := ApplyAll(Start(nvs), xs);
            && Matched(s.nvs) && (Connecting(s) ==> GoodPair(s))
            && (s.bits.keySuccess ==> s.nvs.key.Some? && s.ram.devKey == s.nvs.key)
            && (s.bits.certSuccess ==> s.nvs.cert.Some?)
  {
    StartControl(nvs);
    assert Creds(Start(nvs));
    RunCreds(Start(nvs), xs);
    var s := ApplyAll(Start(nvs), xs);
    if s.bits.keySuccess { KeyDone(s); }
    hide Control, AllGuarded, ApplyAll;
    if Connecting(s) {
      var i :| 0 <= i < |s.tls| && s.tls[i] == TlsConnect;
      assert TlsOk(s.bits, s.tls[i]);
    }
  }

  // ------------------------------------------------------- the guard is needed

  /**
   Once the key worker is about to make a key while a certificate is stored, three steps of it, with
   answers that all succeed, leave a stored pair that does not match.
   */
  lemma GenerateBreaksPair(s: State, i: nat, k: Key)
    requires i < |s.key| && s.key[i] == Generate && s.nvs.cert.Some? && k != s.nvs.cert.value.key
    ensures var make, go := KeyStep(i, Answer(true, false, k)), KeyStep(i, Answer(true, false, 0));
            !Matched(ApplyAll(s, [make, go, go]).nvs)
  {
    var make, go := KeyStep(i, Answer(true, false, k)), KeyStep(i, Answer(true, false, 0));
    var s1 := s.(ram := s.ram.(claim := Some(k)), key := s.key[i := TakeKey]);
    assert Apply(s, make) == s1;
    var s2 := s1.(ram := s1.ram.(devKey := Some(k)), key := s1.key[i := Store]);
    assert Apply(s1, go) == s2;
    assert !Matched(Apply(s2, go).nvs);
    hide Apply, Matched;
    var xs := [make, go, go];
    TwoSteps(s, xs, 0);
    assert xs[0..] == xs && xs[2..] == [go] && xs[2..][1..] == [];
  }

  /**
   The guard is exact: a step that breaks it, from any state, can be followed by three that leave a
   stored pair that does not match; with `CredentialsAreSafe`, a pair is safe on all continuations of
   its runs just when they keep the guard.
   */
  lemma BreakingTheGuardBreaksPair(s: State, x: Action, k: Key)
    requires !Guarded(s, x) && k != s.nvs.cert.value.key
    ensures var make, go := KeyStep(x.i, Answer(true, false, k)), KeyStep(x.i, Answer(true, false, 0));
            !Matched(ApplyAll(s, [x, make, go, go]).nvs)
  {
    var make, go := KeyStep(x.i, Answer(true, false, k)), KeyStep(x.i, Answer(true, false, 0));
    var t := s.(key := s.key[x.i := Generate]);
    assert Apply(s, x) == t;
    GenerateBreaksPair(t, x.i, k);
    hide Apply, Matched, Guarded;
    var xs := [x, make, go, go];
    assert xs[1..] == [make, go, go];
  }

  // ------------------------------------------------------------- reliable reads

  /** The step does not fail to read something that is stored. */
  predicate Reliable(s: State, x: Action) {
    match x
    case KeyStep(i, a) =>
      i < |s.key| ==>
        && (s.key[i].ReadKey? ==> a.ok || s.nvs.key.None?)
        && (s.key[i].ReadCert? ==> a.ok || s.nvs.cert.None?)
    case CertStep(i, a) => i < |s.cert| && s.cert[i].CertRead? ==> a.ok || s.nvs.cert.None?
    case _ => true
  }

  predicate AllReliable(s: State, xs: seq<Action>)
    decreases |xs|
  {
    xs == [] || (Reliable(s, xs[0]) && AllReliable(Apply(s, xs[0]), xs[1..]))
  }

  /** The key worker has in use what is stored, from its reads to its test. */
  predicate FreshTask(ram: Ram, nvs: Nvs, k: KeyTask) {
    && (k.ReadCert? || k.Test? ==> ram.devKey == nvs.key)
    && (k.Test? ==> ram.devCert == nvs.cert)
  }

  ghost predicate Fresh(s: State) {
    forall i :: 0 <= i < |s.key| ==> FreshTask(s.ram, s.nvs, s.key[i])
  }

  lemma FreshIsGuarded(s: State, x: Action)
    requires Matched(s.nvs) && Fresh(s)
    ensures Guarded(s, x)
  {
    if x.KeyStep? && x.i < |s.key| { assert FreshTask(s.ram, s.nvs, s.key[x.i]); }
  }

  lemma KeyStepFresh(s: State, i: nat, a: Answer)
    requires Control(s) && i < |s.key| && Reliable(s, KeyStep(i, a)) && Fresh(s)
    ensures Fresh(ApplyKey(s, i, a))
  {
    KeyWorkerAlone(s, i);
    hide Control;
    assert FreshTask(s.ram, s.nvs, s.key[i]) && s.key == [s.key[i]];
    match s.key[i]
    case ReadKey =>
    case ReadCert =>
    case Report(_) =>
    case _ =>
  }

  /** What a certificate worker does to the other worker's world. */
  lemma CertShape(s: State, i: nat, a: Answer)
    requires i < |s.cert|
    ensures var t := ApplyCert(s, i, a);
            && t.key == s.key && t.ram.devKey == s.ram.devKey && t.nvs.key == s.nvs.key
            && (s.cert[i].CertTake? || s.cert[i].CertStore? ||
                (t.nvs == s.nvs &&
                 t.ram.devCert == if s.cert[i].CertRead? then Read(s.nvs.cert, a) else s.ram.devCert))
  {
    hide Without;
    match s.cert[i]
    case CertTake =>
    case CertStore =>
    case CertReport(_) =>
    case _ =>
  }

  lemma CertStepFresh(s: State, i: nat, a: Answer)
    requires Control(s) && Creds(s) && i < |s.cert| && Reliable(s, CertStep(i, a)) && Fresh(s)
    ensures Fresh(ApplyCert(s, i, a))
  {
    assert CertOk(s.ram, s.nvs, s.key, s.bits.keySuccess, s.cert[i]);
    hide Control, Creds, ApplyCert;
    if s.bits.keySuccess { KeyDone(s); }
    CertShape(s, i, a);
    var t := ApplyCert(s, i, a);
    forall j | 0 <= j < |t.key| ensures FreshTask(t.ram, t.nvs, t.key[j]) {
      assert FreshTask(s.ram, s.nvs, s.key[j]);
    }
  }

  lemma SameFresh(s: State, t: State)
    requires Fresh(s) && t.ram == s.ram && t.nvs == s.nvs && (t.key == s.key || t.key == [] || t.key == [ReadKey])
    ensures Fresh(t)
  {
  }

  lemma TlsSame(s: State, i: nat, a: Answer)
    requires i < |s.tls|
    ensures var t := ApplyTls(s, i, a); t.ram == s.ram && t.nvs == s.nvs && t.key == s.key
  {
    hide Without;
  }

  lemma StepFresh(s: State, x: Action)
    requires Control(s) && Creds(s) && Reliable(s, x) && Fresh(s)
    ensures Fresh(Apply(s, x))
  {
    hide Control, Creds, Fresh, Reliable, ApplyHandler, ApplyKey, ApplyCert, ApplyTls, ApplyMqtt, ApplySender;
    match x
    case HandlerStep =>
      HandlerStarts(s);
      SameFresh(s, ApplyHandler(s));
    case KeyStep(i, a) => if i < |s.key| { KeyStepFresh(s, i, a); }
    case CertStep(i, a) => if i < |s.cert| { CertStepFresh(s, i, a); }
    case TlsStep(i, a) =>
      if i < |s.tls| {
        TlsSame(s, i, a);
        SameFresh(s, ApplyTls(s, i, a));
      }
    case MqttStep(i, r) =>
      if i < |s.mqtt| {
        MqttSame(s, i, r);
        SameFresh(s, ApplyMqtt(s, i, r));
      }
    case SenderStep(ok) =>
      SenderSame(s, ok);
      SameFresh(s, ApplySender(s, ok));
    case Reboot => StartFresh(s.nvs);
    case _ =>
      RadioSame(s, x);
      SameFresh(s, Apply(s, x));
  }

  lemma StartFresh(nvs: Nvs)
    ensures Fresh(Start(nvs))
  {
  }

  /** Reads of stored items that succeed keep the guard, whatever else fails. */
  lemma {:induction false} ReliableRuns(s: State, xs: seq<Action>)
    requires Control(s) && Creds(s) && Fresh(s) && AllReliable(s, xs)
    ensures AllGuarded(s, xs)
    ensures var t := ApplyAll(s, xs); Control(t) && Creds(t) && Fresh(t)
    decreases |xs|
  {
    assert Matched(s.nvs);
    hide Control, Creds, Fresh, Reliable, Guarded, Apply, MqttTokens;
    if xs == [] {
    } else {
      FreshIsGuarded(s, xs[0]);
      StepKeeps(s, xs[0]);
      StepCreds(s, xs[0]);
      StepFresh(s, xs[0]);
      ReliableRuns(Apply(s, xs[0]), xs[1..]);
    }
  }

  lemma ReliableRunsAreGuarded(nvs: Nvs, xs: seq<Action>)
    requires Matched(nvs) && AllReliable(Start(nvs), xs)
    ensures AllGuarded(Start(nvs), xs)
  {
    StartControl(nvs);
    StartFresh(nvs);
    assert Creds(Start(nvs));
    hide Control, Creds, Fresh, AllReliable, AllGuarded, Start;
    ReliableRuns(Start(nvs), xs);
  }

  /** A run that starts the key worker, and in which it fails to read the certificate and makes key `k`. */
  function UnluckyRun(k: Key): seq<Action> {
    [HandlerStep, HandlerStep, HandlerStep, HandlerStep, KeyStep(0, Answer(true, false, 0)),
     KeyStep(0, Answer(false, false, 0)), KeyStep(0, Answer(false, false, 0)),
     KeyStep(0, Answer(true, false, k)), KeyStep(0, Answer(false, false, 0)), KeyStep(0, Answer(true, false, 0))]
  }

  /** A device after power-up, when the handler has just started the key worker. */
  function KeyTaskStarted(nvs: Nvs): State {
    Start(nvs).(handler := Spawning(NO_BITS.(init := true), ForCert), key := [ReadKey])
  }

  lemma PowerUp(nvs: Nvs)
    ensures ApplyHandler(ApplyHandler(ApplyHandler(ApplyHandler(Start(nvs))))) == KeyTaskStarted(nvs)
  {
    var b := NO_BITS.(init := true);
    var s1 := Start(nvs).(bits := b, handler := Waiting);
    assert ApplyHandler(Start(nvs)) == s1;
    var s2 := Start(nvs).(handler := Spawning(b, ForWifi));
    assert ApplyHandler(s1) == s2;
  }

  lemma UnluckyKeyTask(nvs: Nvs, k: Key)
    requires nvs.cert.Some? && k != nvs.cert.value.key
    ensures var s5 := ApplyKey(KeyTaskStarted(nvs), 0, Answer(true, false, 0));
            var s6 := ApplyKey(s5, 0, Answer(false, false, 0));
            var s7 := ApplyKey(s6, 0, Answer(false, false, 0));
            var s8 := ApplyKey(s7, 0, Answer(true, false, k));
            var s9 := ApplyKey(s8, 0, Answer(false, false, 0));
            var s10 := ApplyKey(s9, 0, Answer(true, false, 0));
            |s5.key| == |s6.key| == |s7.key| == |s8.key| == |s9.key| == 1 && !Matched(s10.nvs)
  {
    var s4 := KeyTaskStarted(nvs);
    assert ApplyKey(s4, 0, Answer(true, false, 0)) == s4.(key := [ReadCert], ram := Ram(nvs.key, None, None, None));
  }

  /**
   Why reads have to succeed: on every device that has its certificate, one failing read of it after
   power-up, followed by a new key, leaves a stored pair that does not match.
   */
  lemma FailedReadBreaksPair(nvs: Nvs, k: Key)
    requires nvs.cert.Some? && k != nvs.cert.value.key
    ensures !Matched(ApplyAll(Start(nvs), UnluckyRun(k)).nvs)
  {
    hide ApplyHandler, ApplyKey, ApplyCert, ApplyTls, ApplyMqtt, ApplySender, Matched, Start, KeyTaskStarted;
    PowerUp(nvs);
    UnluckyKeyTask(nvs, k);
    var run := UnluckyRun(k);
    var s2 := ApplyHandler(ApplyHandler(Start(nvs)));
    TwoSteps(Start(nvs), run, 0);
    TwoSteps(s2, run, 2);
    var s4 := KeyTaskStarted(nvs);
    assert |s4.key| == 1 by { KeyTaskReady(nvs); }
    TwoSteps(s4, run, 4);
    var s6 := ApplyKey(ApplyKey(s4, 0, run[4].a), 0, run[5].a);
    TwoSteps(s6, run, 6);
    var s8 := ApplyKey(ApplyKey(s6, 0, run[6].a), 0, run[7].a);
    TwoSteps(s8, run, 8);
    assert run[10..] == [];
  }

  lemma KeyTaskReady(nvs: Nvs)
    ensures KeyTaskStarted(nvs).key == [ReadKey]
  {
  }

  lemma TwoSteps(s: State, xs: seq<Action>, n: nat)
    requires n + 2 <= |xs|
    ensures ApplyAll(s, xs[n..]) == ApplyAll(Apply(Apply(s, xs[n]), xs[n + 1]), xs[n + 2..])
  {
    hide Apply;
    assert xs[n..][1..] == xs[n + 1..] && xs[n + 1..][1..] == xs[n + 2..];
  }
}
