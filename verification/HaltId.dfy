/**
 The bytes hashed into a halt id (src/bolt_v3_kill_switch.rs). Text enters as its bytes. The fields are set apart by
 zero bytes, and the timestamp in the middle is eight bytes of anything, so a source that holds a zero byte can be
 mistaken for a shorter one.
 */
module HaltId {
  import opened Common
  import opened ByteStrings
  import opened KillSwitch

  datatype HaltTrigger = HaltTrigger(
    kind: TriggerKind,
    source: Bytes,
    timestampNs: nat,
    reason: Bytes,
    lossHaltReason: Option<string>)

  /** "bolt_v3.kill_switch.halt_id.v1" */
  const DOMAIN: Bytes := [
    98, 111, 108, 116, 95, 118, 51, 46, 107, 105, 108, 108, 95, 115, 119, 105, 116, 99, 104, 46, 104, 97, 108, 116, 95,
    105, 100, 46, 118, 49]

  /** "loss_governor_breach" */
  const BREACH: Bytes := [
    108, 111, 115, 115, 95, 103, 111, 118, 101, 114, 110, 111, 114, 95, 98, 114, 101, 97, 99, 104]

  /** "provider_collateral_allowance_runtime_failure" */
  const FAILURE: Bytes :=
    [112, 114, 111, 118, 105, 100, 101, 114, 95]
    + [99, 111, 108, 108, 97, 116, 101, 114, 97, 108, 95]
    + [97, 108, 108, 111, 119, 97, 110, 99, 101, 95]
    + [114, 117, 110, 116, 105, 109, 101, 95, 102, 97, 105, 108, 117, 114, 101]

  const ZERO: Bytes := [0]

  function KindText(kind: TriggerKind): Bytes {
    match kind
    case LossGovernorBreach => BREACH
    case ProviderCollateralAllowanceRuntimeFailure => FAILURE
  }

  /** What follows the kind: source, timestamp and reason, zero bytes between them. */
  function Tail(t: HaltTrigger): Bytes {
    t.source + (ZERO + (BigEndian(t.timestampNs, 8) + (ZERO + t.reason)))
  }

  function Preimage(t: HaltTrigger): Bytes {
    DOMAIN + (ZERO + (KindText(t.kind) + (ZERO + Tail(t))))
  }

  predicate ZeroFree(s: Bytes) {
    forall i :: 0 <= i < |s| ==> s[i] != 0
  }

  /** Kinds differ in their first byte. */
  lemma KindSplits(t: TriggerKind, x: Bytes, u: TriggerKind, y: Bytes)
    requires KindText(t) + x == KindText(u) + y
    ensures t == u && x == y
  {
    assert (KindText(t) + x)[0] == KindText(t)[0] && (KindText(u) + y)[0] == KindText(u)[0];
    assert BREACH[0] == 108 && FAILURE[0] == 112;
    SplitEqual(KindText(t), x, KindText(u), y);
  }

  lemma FirstZero(a: Bytes, x: Bytes, n: nat)
    requires ZeroFree(a) && n < |a + x| && (a + x)[n] == 0
    ensures |a| <= n
  {
    assert forall i :: 0 <= i < |a| ==> (a + x)[i] == a[i];
  }

  /** Zero-free texts before a zero byte are found again. */
  lemma ZeroSplits(a: Bytes, x: Bytes, b: Bytes, y: Bytes)
    requires ZeroFree(a) && ZeroFree(b) && a + (ZERO + x) == b + (ZERO + y)
    ensures a == b && x == y
  {
    var s, t := a + (ZERO + x), b + (ZERO + y);
    assert s[|a|] == 0 && t[|b|] == 0;
    FirstZero(a, ZERO + x, |b|);
    FirstZero(b, ZERO + y, |a|);
    SplitEqual(a, ZERO + x, b, ZERO + y);
    SplitEqual(ZERO, x, ZERO, y);
  }

  /** Two triggers share their bytes exactly when their kinds and tails agree; the loss reason never counts. */
  lemma SameBytesExactly(t: HaltTrigger, u: HaltTrigger)
    ensures Preimage(t) == Preimage(u) <==> t.kind == u.kind && Tail(t) == Tail(u)
  {
    if Preimage(t) == Preimage(u) {
      var x, y := KindText(t.kind) + (ZERO + Tail(t)), KindText(u.kind) + (ZERO + Tail(u));
      SplitEqual(DOMAIN, ZERO + x, DOMAIN, ZERO + y);
      SplitEqual(ZERO, x, ZERO, y);
      KindSplits(t.kind, ZERO + Tail(t), u.kind, ZERO + Tail(u));
      SplitEqual(ZERO, Tail(t), ZERO, Tail(u));
    }
  }

  /** With sources of one length a tail determines source, timestamp and reason. */
  lemma TailParses(t: HaltTrigger, u: HaltTrigger)
    requires |t.source| == |u.source| && t.timestampNs < Pow256(8) && u.timestampNs < Pow256(8)
    requires Tail(t) == Tail(u)
    ensures t.source == u.source && t.timestampNs == u.timestampNs && t.reason == u.reason
  {
    var a, b := BigEndian(t.timestampNs, 8), BigEndian(u.timestampNs, 8);
    SplitEqual(t.source, ZERO + (a + (ZERO + t.reason)), u.source, ZERO + (b + (ZERO + u.reason)));
    SplitEqual(ZERO, a + (ZERO + t.reason), ZERO, b + (ZERO + u.reason));
    SplitEqual(a, ZERO + t.reason, b, ZERO + u.reason);
    SplitEqual(ZERO, t.reason, ZERO, u.reason);
    BigEndianInjective(t.timestampNs, u.timestampNs, 8);
  }

  /** Triggers whose sources hold no zero byte share their bytes exactly when they agree on everything hashed. */
  lemma ZeroFreeSourcesIdentify(t: HaltTrigger, u: HaltTrigger)
    requires ZeroFree(t.source) && ZeroFree(u.source)
    requires t.timestampNs < Pow256(8) && u.timestampNs < Pow256(8)
    ensures Preimage(t) == Preimage(u) <==> t.(lossHaltReason := None) == u.(lossHaltReason := None)
  {
    SameBytesExactly(t, u);
    if Tail(t) == Tail(u) {
      ZeroSplits(t.source, BigEndian(t.timestampNs, 8) + (ZERO + t.reason),
                 u.source, BigEndian(u.timestampNs, 8) + (ZERO + u.reason));
      TailParses(t, u);
    }
  }

  // ---------- Which triggers share a halt ----------

  /** A trigger that can exist: its texts are texts and its timestamp is a 64-bit number. */
  predicate Exists(t: HaltTrigger, isText: Bytes -> bool) {
    isText(t.source) && isText(t.reason) && t.timestampNs < Pow256(8)
  }

  /** A tail can be cut as if its source ended at `p`. */
  predicate CutsAt(tail: Bytes, p: nat, isText: Bytes -> bool) {
    p + 10 <= |tail| && tail[p] == 0 && tail[p + 9] == 0 && isText(tail[..p]) && isText(tail[p + 10..])
  }

  lemma TailCutsAtSource(t: HaltTrigger, isText: Bytes -> bool)
    requires Exists(t, isText)
    ensures CutsAt(Tail(t), |t.source|, isText)
  {
    var tail, n := Tail(t), |t.source|;
    var stamp := BigEndian(t.timestampNs, 8);
    assert tail == t.source + ZERO + stamp + ZERO + t.reason;
    assert tail[..n] == t.source && tail[n + 10..] == t.reason;
  }

  /** The trigger a cut reads. */
  function CutTrigger(t: HaltTrigger, p: nat): HaltTrigger
    requires p + 10 <= |Tail(t)|
  {
    var tail := Tail(t);
    HaltTrigger(t.kind, tail[..p], ValueOf(tail[p + 1..p + 9]), tail[p + 10..], t.lossHaltReason)
  }

  lemma CutsReassemble(tail: Bytes, p: nat)
    requires p + 10 <= |tail| && tail[p] == 0 && tail[p + 9] == 0
    ensures tail == tail[..p] + (ZERO + (tail[p + 1..p + 9] + (ZERO + tail[p + 10..])))
  {
    assert tail[p..] == ZERO + tail[p + 1..];
    assert tail[p + 1..] == tail[p + 1..p + 9] + tail[p + 9..];
    assert tail[p + 9..] == ZERO + tail[p + 10..];
  }

  lemma CutKeepsTail(t: HaltTrigger, p: nat, isText: Bytes -> bool)
    requires CutsAt(Tail(t), p, isText)
    ensures Exists(CutTrigger(t, p), isText) && Tail(CutTrigger(t, p)) == Tail(t)
  {
    var tail := Tail(t);
    BigEndianCovers(tail[p + 1..p + 9]);
    CutsReassemble(tail, p);
  }

  /**
   A trigger shares its halt id's bytes with a different one exactly when its tail can be cut at another place than
   the end of its source.
   */
  lemma SharesBytesExactly(t: HaltTrigger, isText: Bytes -> bool)
    requires Exists(t, isText)
    ensures (exists u :: Exists(u, isText) && Preimage(u) == Preimage(t)
                         && u.(lossHaltReason := None) != t.(lossHaltReason := None))
       <==> (exists p :: 0 <= p != |t.source| && CutsAt(Tail(t), p, isText))
  {
    forall u | Exists(u, isText) && Preimage(u) == Preimage(t) && u.(lossHaltReason := None) != t.(lossHaltReason := None)
      ensures |u.source| != |t.source| && CutsAt(Tail(t), |u.source|, isText)
    {
      SameBytesExactly(u, t);
      TailCutsAtSource(u, isText);
      if |u.source| == |t.source| {
        TailParses(u, t);
      }
    }
    forall p: nat | p != |t.source| && CutsAt(Tail(t), p, isText)
      ensures var u := CutTrigger(t, p);
              Exists(u, isText) && Preimage(u) == Preimage(t) && |u.source| != |t.source|
    {
      CutKeepsTail(t, p, isText);
      SameBytesExactly(CutTrigger(t, p), t);
    }
  }

  /** Two different triggers with one halt id: source "a" with a zero byte for its reason, and "a" and zero with none. */
  lemma SharedHaltExample(kind: TriggerKind)
    ensures Preimage(HaltTrigger(kind, [97], 0, [0], None)) == Preimage(HaltTrigger(kind, [97, 0], 0, [], None))
  {
    var t, u := HaltTrigger(kind, [97], 0, [0], None), HaltTrigger(kind, [97, 0], 0, [], None);
    var zeros := BigEndian(0, 8);
    ZeroEncodes(8);
    assert Tail(t)[0] == 97 && Tail(u)[0] == 97 && |Tail(t)| == |Tail(u)| == 12;
    assert Tail(t) == Tail(u);
  }

  lemma {:induction false} ZeroEncodes(width: nat)
    ensures forall i :: 0 <= i < width ==> BigEndian(0, width)[i] == 0
  {
    if width > 0 {
      ZeroEncodes(width - 1);
    }
  }
}
