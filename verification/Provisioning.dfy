/**
 Claiming happens once: a device that powers up with a key and a certificate stored keeps both and makes
 and claims nothing, on every run whose reads of them succeed.
 */
module Provisioning {
  import opened Network
  import opened Options
  import opened NetworkSafety
  import opened Credentials

  /** A key worker that only reads, and finds both. */
  predicate Reading(ram: Ram, k: KeyTask) {
    match k
    case ReadKey => true
    case ReadCert => ram.devKey.Some?
    case Test => ram.devKey.Some? && ram.devCert.Some?
    case Report(ok) => ok
    case _ => false
  }

  predicate Finding(ram: Ram, c: CertTask) {
    match c
    case CertRead => true
    case CertTest => ram.devCert.Some?
    case CertReport(ok) => ok
    case _ => false
  }

  /** Key and certificate are stored; no worker makes or claims one, fails, or has failed. */
  ghost predicate Stocked(s: State, nvs: Nvs) {
    && s.nvs == nvs && nvs.key.Some? && nvs.cert.Some? && s.ram.claim.None? && s.ram.issued.None?
    && (s.ram.devKey.Some? ==> s.ram.devKey == nvs.key) && (s.ram.devCert.Some? ==> s.ram.devCert == nvs.cert)
    && (forall i :: 0 <= i < |s.key| ==> Reading(s.ram, s.key[i]))
    && (forall i :: 0 <= i < |s.cert| ==> Finding(s.ram, s.cert[i]))
  }

  lemma KeyStocked(s: State, i: nat, a: Answer, nvs: Nvs)
    requires Control(s) && Stocked(s, nvs) && i < |s.key| && Reliable(s, KeyStep(i, a))
    ensures Stocked(ApplyKey(s, i, a), nvs)
  {
    KeyWorkerAlone(s, i);
    hide Control;
    assert Reading(s.ram, s.key[i]) && s.key == [s.key[i]];
    var t := ApplyKey(s, i, a);
    match s.key[i]
    case ReadKey => assert t == s.(ram := s.ram.(devKey := nvs.key), key := [ReadCert]);
    case ReadCert => assert t == s.(ram := s.ram.(devCert := nvs.cert), key := [Test]);
    case Test => assert t == s.(key := [Report(true)]);
    case Report(ok) => assert t == s.(key := [], bits := s.bits.(keySuccess := true));
    case _ =>
  }

  lemma CertStocked(s: State, i: nat, a: Answer, nvs: Nvs)
    requires Control(s) && Stocked(s, nvs) && i < |s.cert| && Reliable(s, CertStep(i, a))
    ensures Stocked(ApplyCert(s, i, a), nvs)
  {
    CertWorkerAlone(s, i);
    hide Control;
    assert Finding(s.ram, s.cert[i]) && s.cert == [s.cert[i]];
    var t := ApplyCert(s, i, a);
    match s.cert[i]
    case CertRead => assert t == s.(ram := s.ram.(devCert := nvs.cert), cert := [CertTest]);
    case CertTest => assert t == s.(cert := [CertReport(true)]);
    case CertReport(ok) => assert t == s.(cert := [], bits := s.bits.(certSuccess := true));
    case _ =>
  }

  lemma SameStocked(s: State, t: State, nvs: Nvs)
    requires Stocked(s, nvs) && t.ram == s.ram && t.nvs == s.nvs
    requires t.key == s.key || t.key == s.key + [ReadKey]
    requires t.cert == s.cert || t.cert == s.cert + [CertRead]
    ensures Stocked(t, nvs)
  {
    forall i | 0 <= i < |t.key| ensures Reading(t.ram, t.key[i]) { assert i < |s.key| ==> t.key[i] == s.key[i]; }
    forall i | 0 <= i < |t.cert| ensures Finding(t.ram, t.cert[i]) { assert i < |s.cert| ==> t.cert[i] == s.cert[i]; }
  }

  lemma TlsLeaves(s: State, i: nat, a: Answer)
    requires i < |s.tls|
    ensures var t := ApplyTls(s, i, a); t.ram == s.ram && t.nvs == s.nvs && t.key == s.key && t.cert == s.cert
  {
    hide Without;
  }

  lemma StepStocked(s: State, x: Action, nvs: Nvs)
    requires Control(s) && Stocked(s, nvs) && Reliable(s, x)
    ensures Stocked(Apply(s, x), nvs)
  {
    assert x.Reboot? ==> Stocked(Start(s.nvs), nvs);
    hide Control, Stocked, Reliable, ApplyHandler, ApplyKey, ApplyCert, ApplyTls, ApplyMqtt, ApplySender;
    match x
    case HandlerStep =>
      HandlerShape(s);
      SameStocked(s, ApplyHandler(s), nvs);
    case KeyStep(i, a) => if i < |s.key| { KeyStocked(s, i, a, nvs); }
    case CertStep(i, a) => if i < |s.cert| { CertStocked(s, i, a, nvs); }
    case TlsStep(i, a) =>
      if i < |s.tls| {
        TlsLeaves(s, i, a);
        SameStocked(s, ApplyTls(s, i, a), nvs);
      }
    case MqttStep(i, r) =>
      if i < |s.mqtt| {
        MqttSame(s, i, r);
        SameStocked(s, ApplyMqtt(s, i, r), nvs);
      }
    case SenderStep(ok) =>
      SenderSame(s, ok);
      SameStocked(s, ApplySender(s, ok), nvs);
    case Reboot =>
    case _ =>
      RadioSame(s, x);
      SameStocked(s, Apply(s, x), nvs);
  }

  lemma {:induction false} RunStocked(s: State, xs: seq<Action>, nvs: Nvs)
    requires Control(s) && Stocked(s, nvs) && AllReliable(s, xs)
    ensures Stocked(ApplyAll(s, xs), nvs)
    decreases |xs|
  {
    hide Control, Stocked, Apply, Reliable, MqttTokens;
    if xs == [] {
    } else {
      StepKeeps(s, xs[0]);
      StepStocked(s, xs[0], nvs);
      RunStocked(Apply(s, xs[0]), xs[1..], nvs);
    }
  }

  /**
   From power-up with both stored, reboots anywhere, whatever else fails: both stay stored, no key is
   made and no certificate claimed, and no worker is at any other step than reading and reporting success.
   */
  lemma ClaimsOnce(nvs: Nvs, xs: seq<Action>)
    requires nvs.key.Some? && nvs.cert.Some? && AllReliable(Start(nvs), xs)
    ensures Stocked(ApplyAll(Start(nvs), xs), nvs)
  {
    StartControl(nvs);
    hide AllReliable, ApplyAll, Control;
    RunStocked(Start(nvs), xs, nvs);
  }
}
