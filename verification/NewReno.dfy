/**
 The New Reno congestion window (newreno.c; section 3.1 of RFC 5681).

 In congestion avoidance the window grows by mtu * acked / window bytes; what the division
 leaves over is kept for the next acknowledgement.
 */
module NewReno {
  import opened Powers

  const MAX_PACKET_SIZE: nat := 1536
  const CWIN_INITIAL: nat := 10 * MAX_PACKET_SIZE
  const CWIN_MINIMUM: nat := 2 * MAX_PACKET_SIZE

  datatype State = State(cwin: nat, ssthresh: nat, residualAck: nat, slowStart: bool, recoveryStart: nat,
                         lastSequenceBlocked: nat)

  /** What the algorithm is told, with what it reads of the path; of a round-trip time, whether the
      samples have risen too much. */
  datatype Notification =
    | Acknowledgement(bytes: nat, sendMtu: nat, ackNumber: nat)
    | Loss(timeout: bool, now: nat, smoothedRtt: nat)
    | SpuriousRepeat(now: nat, smoothedRtt: nat)
    | RttMeasurement(risen: bool)
    | CwinBlocked(sequence: nat)

  function Init(): State {
    State(CWIN_INITIAL, TWO_TO_64 - 1, 0, true, 0, 0)
  }

  /** Unsigned subtraction of times. */
  function Since(now: nat, start: nat): int {
    (now - start) % TWO_TO_64
  }

  predicate WasCwinBlocked(ackNumber: nat, last: nat) {
    last == 0 || ackNumber <= last
  }

  function EnterRecovery(s: State, timeout: bool, now: nat): State {
    var half := s.cwin / 2;
    var ssthresh := if half < CWIN_MINIMUM then CWIN_MINIMUM else half;
    s.(ssthresh := ssthresh, cwin := if timeout then CWIN_MINIMUM else ssthresh, slowStart := timeout,
       recoveryStart := now, residualAck := 0)
  }

  /** What acknowledged bytes add to the window, and what they leave over. */
  function Increment(s: State, bytes: nat, mtu: nat): nat
    requires s.cwin > 0
  {
    (bytes * mtu + s.residualAck) / s.cwin
  }

  function Residue(s: State, bytes: nat, mtu: nat): nat
    requires s.cwin > 0
  {
    (bytes * mtu + s.residualAck) % s.cwin
  }

  function Avoidance(s: State, bytes: nat, mtu: nat): State
    requires s.cwin > 0
  {
    s.(residualAck := Residue(s, bytes, mtu), cwin := s.cwin + Increment(s, bytes, mtu))
  }

  lemma Divided(s: State, bytes: nat, mtu: nat)
    requires s.cwin > 0
    ensures s.cwin * Increment(s, bytes, mtu) + Residue(s, bytes, mtu) == bytes * mtu + s.residualAck
    ensures Residue(s, bytes, mtu) < s.cwin
  {
  }

  function Notified(s: State, n: Notification): State
    requires s.cwin > 0
  {
    match n
    case Acknowledgement(bytes, mtu, ackNumber) =>
      if s.slowStart then
        if WasCwinBlocked(ackNumber, s.lastSequenceBlocked) then
          var cwin := s.cwin + bytes;
          s.(cwin := cwin, slowStart := cwin < s.ssthresh)
        else s
      else Avoidance(s, bytes, mtu)
    case Loss(timeout, now, rtt) => if Since(now, s.recoveryStart) > rtt then EnterRecovery(s, timeout, now) else s
    case SpuriousRepeat(now, rtt) =>
      var twice := 2 * s.ssthresh % TWO_TO_64;
      if Since(now, s.recoveryStart) < rtt && s.cwin < twice then s.(cwin := twice, slowStart := false) else s
    case RttMeasurement(risen) =>
      if s.slowStart && s.ssthresh == TWO_TO_64 - 1 && risen then s.(slowStart := false) else s
    case CwinBlocked(sequence) => s.(lastSequenceBlocked := sequence)
  }

  /** The window stays at or above the minimum, and the residue below the window. */
  predicate Kept(s: State) {
    s.cwin >= CWIN_MINIMUM && s.residualAck < s.cwin && s.ssthresh >= CWIN_MINIMUM
  }

  lemma NotifiedKeeps(s: State, n: Notification)
    requires Kept(s)
    ensures Kept(Notified(s, n))
  {
    if n.Acknowledgement? {
      Divided(s, n.bytes, n.sendMtu);
    }
  }

  ghost function Run(s: State, ns: seq<Notification>): (t: State)
    requires Kept(s)
    ensures Kept(t)
    decreases |ns|
  {
    if ns == [] then s
    else
      var k := |ns| - 1;
      var t := Run(s, ns[..k]);
      NotifiedKeeps(t, ns[k]);
      Notified(t, ns[k])
  }

  // ---------- congestion avoidance ----------

  /** A notification that neither enters recovery nor takes a recovery back. */
  predicate Steady(s: State, n: Notification) {
    match n
    case Loss(_, now, rtt) => Since(now, s.recoveryStart) <= rtt
    case SpuriousRepeat(now, rtt) => Since(now, s.recoveryStart) >= rtt || s.cwin >= 2 * s.ssthresh % TWO_TO_64
    case _ => true
  }

  /** A run in congestion avoidance that enters no recovery. */
  ghost predicate Calm(s: State, ns: seq<Notification>)
    requires Kept(s)
    decreases |ns|
  {
    if ns == [] then !s.slowStart
    else Calm(s, ns[..|ns| - 1]) && Steady(Run(s, ns[..|ns| - 1]), ns[|ns| - 1])
  }

  lemma {:induction false} StaysInAvoidance(s: State, ns: seq<Notification>)
    requires Kept(s) && Calm(s, ns)
    ensures !Run(s, ns).slowStart
    decreases |ns|
  {
    if ns != [] {
      StaysInAvoidance(s, ns[..|ns| - 1]);
    }
  }

  lemma DivNatural(a: nat, b: nat)
    requires b > 0
    ensures a / b >= 0 && a % b >= 0 && a == b * (a / b) + a % b
  {
  }

  /** What an acknowledgement is worth: its bytes times the mtu of its time. */
  function Worth(n: Notification): nat {
    if n.Acknowledgement? then n.bytes * n.sendMtu else 0
  }

  function Credit(ns: seq<Notification>): nat {
    if ns == [] then 0 else Credit(ns[..|ns| - 1]) + Worth(ns[|ns| - 1])
  }

  function Step(t: State, n: Notification): nat
    requires t.cwin > 0
  {
    if n.Acknowledgement? then Increment(t, n.bytes, n.sendMtu) else 0
  }

  /** The sum of each increment times the window it was added to. */
  ghost function Work(s: State, ns: seq<Notification>): int
    requires Kept(s)
    decreases |ns|
  {
    if ns == [] then 0
    else
      var k := |ns| - 1;
      var t := Run(s, ns[..k]);
      Work(s, ns[..k]) + t.cwin * Step(t, ns[k])
  }

  lemma SteadyStep(t: State, n: Notification)
    requires t.cwin > 0 && !t.slowStart && Steady(t, n)
    ensures var u := Notified(t, n);
      u.cwin == t.cwin + Step(t, n) && t.cwin * Step(t, n) + u.residualAck == Worth(n) + t.residualAck
  {
    if n.Acknowledgement? {
      Divided(t, n.bytes, n.sendMtu);
    } else {
      assert t.cwin * 0 == 0;
    }
  }

  /** Nothing is lost to rounding: the work done and the residue left are what the acknowledgements
      were worth, and the residue there was. */
  lemma {:induction false} Conserved(s: State, ns: seq<Notification>)
    requires Kept(s) && Calm(s, ns)
    ensures Work(s, ns) + Run(s, ns).residualAck == Credit(ns) + s.residualAck
    decreases |ns|
  {
    if ns != [] {
      var k := |ns| - 1;
      Conserved(s, ns[..k]);
      StaysInAvoidance(s, ns[..k]);
      SteadyStep(Run(s, ns[..k]), ns[k]);
    }
  }

  lemma Distribute(a: int, b: int, c: int)
    ensures (a + b) * c == a * c + b * c && c * (a + b) == c * a + c * b
  {
  }

  lemma {:induction false} WorkAtLeast(s: State, ns: seq<Notification>)
    requires Kept(s) && Calm(s, ns)
    ensures Run(s, ns).cwin >= s.cwin && s.cwin * (Run(s, ns).cwin - s.cwin) <= Work(s, ns)
    decreases |ns|
  {
    if ns == [] {
      assert s.cwin * 0 == 0;
    } else {
      var k := |ns| - 1;
      WorkAtLeast(s, ns[..k]);
      StaysInAvoidance(s, ns[..k]);
      var t := Run(s, ns[..k]);
      SteadyStep(t, ns[k]);
      MulMonotone(s.cwin, t.cwin, Step(t, ns[k]));
      Distribute(t.cwin - s.cwin, Step(t, ns[k]), s.cwin);
    }
  }

  lemma MulMonotone(a: nat, b: nat, i: nat)
    requires a <= b
    ensures a * i <= b * i
  {
  }

  lemma GrowthWork(s: State, ns: seq<Notification>) returns (g: nat, credit: nat)
    requires Kept(s) && Calm(s, ns)
    ensures Run(s, ns).cwin - s.cwin == g && credit == Credit(ns) + s.residualAck && s.cwin * g <= credit
  {
    Conserved(s, ns);
    WorkAtLeast(s, ns);
    g, credit := Run(s, ns).cwin - s.cwin, Credit(ns) + s.residualAck;
  }

  /** So a run of acknowledgements, with whatever else that is not a recovery, grows the window W by
      at most (what they are worth + residue) / W. */
  lemma GrowthBound(s: State, ns: seq<Notification>)
    requires Kept(s) && Calm(s, ns)
    ensures 0 <= Run(s, ns).cwin - s.cwin <= (Credit(ns) + s.residualAck) / s.cwin
  {
    var g, credit := GrowthWork(s, ns);
    QuotientAtLeast(s.cwin, g, credit);
  }

  lemma QuotientAtLeast(w: nat, g: nat, total: nat)
    requires w > 0 && w * g <= total
    ensures g <= total / w
  {
    DivNatural(total, w);
    var q := total / w;
    Distribute(g - q, q, w);
    AtLeastOnce(w, g - q);
  }

  lemma AtLeastOnce(w: nat, x: int)
    ensures x >= 1 ==> w * x >= w
  {
  }

  // ---------- the algorithm ----------

  // ---------- slow start and recovery ----------

  /** The bytes acknowledged by notifications that are acknowledgements. */
  function AckedBytes(ns: seq<Notification>): nat {
    if ns == [] then 0
    else AckedBytes(ns[..|ns| - 1]) + if ns[|ns| - 1].Acknowledgement? then ns[|ns| - 1].bytes else 0
  }

  /** Only acknowledgements, of packets up to the last that filled the window, or when none is known. */
  ghost predicate AllBlocked(ns: seq<Notification>, last: nat) {
    forall i :: 0 <= i < |ns| ==> ns[i].Acknowledgement? && (last == 0 || ns[i].ackNumber <= last)
  }

  /** In slow start the window grows by exactly the bytes acknowledged, up to and including the acknowledgement
      with which it reaches the threshold; that one ends slow start. */
  lemma {:induction false} SlowStartGrows(s: State, ns: seq<Notification>)
    requires Kept(s) && s.slowStart && s.cwin < s.ssthresh && AllBlocked(ns, s.lastSequenceBlocked)
    requires ns != [] ==> s.cwin + AckedBytes(ns[..|ns| - 1]) < s.ssthresh
    ensures var t := Run(s, ns);
      && t.cwin == s.cwin + AckedBytes(ns) && (t.slowStart <==> t.cwin < s.ssthresh)
      && t == s.(cwin := t.cwin, slowStart := t.slowStart)
    decreases |ns|
  {
    if ns != [] {
      var k := |ns| - 1;
      var front := ns[..k];
      if front != [] {
        assert front[..k - 1] == ns[..k - 1] && AckedBytes(front) >= AckedBytes(front[..k - 1]);
      }
      SlowStartGrows(s, front);
    }
  }

  /** Acknowledgements of packets sent when the window was not full change nothing in slow start. */
  lemma NotBlockedNoGrowth(s: State, bytes: nat, mtu: nat, ackNumber: nat)
    requires Kept(s) && s.slowStart && 0 < s.lastSequenceBlocked < ackNumber
    ensures Notified(s, Acknowledgement(bytes, mtu, ackNumber)) == s
  {
  }

  /** A loss more than a round trip after the last recovery halves the window, down to two packets; after a timeout
      it is two packets, and slow start begins again. */
  lemma LossHalves(s: State, timeout: bool, now: nat, rtt: nat)
    requires Kept(s) && s.recoveryStart <= now < TWO_TO_64 && now - s.recoveryStart > rtt
    ensures var t := Notified(s, Loss(timeout, now, rtt));
      && t.ssthresh == (if s.cwin >= 4 * 1536 then s.cwin / 2 else 2 * 1536)
      && t.cwin == (if timeout then 2 * 1536 else t.ssthresh)
      && t.slowStart == timeout && t.recoveryStart == now && t.residualAck == 0
  {
  }

  ghost predicate AllLosses(ns: seq<Notification>, start: nat) {
    forall i :: 0 <= i < |ns| ==>
      ns[i].Loss? && start <= ns[i].now < TWO_TO_64 && ns[i].now - start <= ns[i].smoothedRtt
  }

  /** Any number of losses within a round trip of a recovery change nothing. */
  lemma {:induction false} HalvedOnce(s: State, ns: seq<Notification>)
    requires Kept(s) && AllLosses(ns, s.recoveryStart)
    ensures Run(s, ns) == s
    decreases |ns|
  {
    if ns != [] {
      HalvedOnce(s, ns[..|ns| - 1]);
    }
  }

  /** A loss that turns out to be spurious within a round trip is taken back, but for the last byte of an odd window;
      a window of less than four packets comes back as four. */
  lemma SpuriousTakenBack(s: State, now: nat, rtt: nat, later: nat, rtt': nat)
    requires Kept(s) && s.cwin < TWO_TO_64 && s.recoveryStart <= now <= later < TWO_TO_64
    requires now - s.recoveryStart > rtt && later - now < rtt'
    ensures var t := Notified(s, Loss(false, now, rtt));
      && t.cwin > 0
      && Notified(t, SpuriousRepeat(later, rtt')).cwin == if s.cwin >= 4 * 1536 then s.cwin - s.cwin % 2 else 4 * 1536
  {
    LossHalves(s, false, now, rtt);
  }

  class Reno {
    var cwin: nat
    var ssthresh: nat
    var residualAck: nat
    var slowStart: bool
    var recoveryStart: nat
    var lastSequenceBlocked: nat

    function Now(): State
      reads this
    {
      State(cwin, ssthresh, residualAck, slowStart, recoveryStart, lastSequenceBlocked)
    }

    constructor ()
      ensures Now() == Init() && Kept(Now())
    {
      cwin, ssthresh, residualAck, slowStart := CWIN_INITIAL, TWO_TO_64 - 1, 0, true;
      recoveryStart, lastSequenceBlocked := 0, 0;
    }

    method Enter(timeout: bool, now: nat)
      modifies this
      ensures Now() == EnterRecovery(old(Now()), timeout, now)
    {
      ssthresh := cwin / 2;
      if ssthresh < CWIN_MINIMUM {
        ssthresh := CWIN_MINIMUM;
      }
      if timeout {
        cwin := CWIN_MINIMUM;
        slowStart := true;
      } else {
        cwin := ssthresh;
        slowStart := false;
      }
      recoveryStart := now;
      residualAck := 0;
    }

    method Acknowledge(bytes: nat, sendMtu: nat, ackNumber: nat)
      requires cwin > 0
      modifies this
      ensures Now() == Notified(old(Now()), Acknowledgement(bytes, sendMtu, ackNumber))
    {
      if slowStart {
        if WasCwinBlocked(ackNumber, lastSequenceBlocked) {
          cwin := cwin + bytes;
          if cwin >= ssthresh {
            slowStart := false;
          }
        }
      } else {
        var completeDelta := bytes * sendMtu + residualAck;
        residualAck := completeDelta % cwin;
        cwin := cwin + completeDelta / cwin;
      }
    }

    method Notify(n: Notification)
      requires Kept(Now())
      modifies this
      ensures Now() == Notified(old(Now()), n) && Kept(Now())
      ensures n.Acknowledgement? && old(slowStart) ==>
        old(lastSequenceBlocked) == 0 || n.ackNumber <= old(lastSequenceBlocked) ==>
        cwin == old(cwin) + n.bytes && (slowStart <==> cwin < old(ssthresh))
      ensures n.Loss? && old(recoveryStart) <= n.now < TWO_TO_64 && n.now - old(recoveryStart) > n.smoothedRtt ==>
        && ssthresh == (if old(cwin) >= 4 * 1536 then old(cwin) / 2 else 2 * 1536)
        && cwin == if n.timeout then 2 * 1536 else ssthresh
    {
      if n.Loss? && recoveryStart <= n.now < TWO_TO_64 && n.now - recoveryStart > n.smoothedRtt {
        LossHalves(Now(), n.timeout, n.now, n.smoothedRtt);
      }
      NotifiedKeeps(Now(), n);
      match n
      case Acknowledgement(bytes, sendMtu, ackNumber) =>
        Acknowledge(bytes, sendMtu, ackNumber);
      case Loss(timeout, now, smoothedRtt) =>
        if Since(now, recoveryStart) > smoothedRtt {
          Enter(timeout, now);
        }
      case SpuriousRepeat(now, smoothedRtt) =>
        if Since(now, recoveryStart) < smoothedRtt {
          if cwin < 2 * ssthresh % TWO_TO_64 {
            cwin := 2 * ssthresh % TWO_TO_64;
            slowStart := false;
          }
        }
      case RttMeasurement(risen) =>
        if slowStart && ssthresh == TWO_TO_64 - 1 {
          if risen {
            slowStart := false;
          }
        }
      case CwinBlocked(sequence) =>
        lastSequenceBlocked := sequence;
    }
  }
}
