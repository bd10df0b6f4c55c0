/** Two BFD sessions over a network that may drop, duplicate and reorder the
    packets of each, and deliver them late, but not make any up. */
module BfdPeers {
  import opened BfdSession

  datatype Peer = A | B

  function Other(p: Peer): Peer {
    if p == A then B else A
  }

  /** A step of one peer: an operation of its own, the transmission of a
      control packet, or the arrival of the packet that the other peer sent
      at step 'sentAt'. */
  datatype Step =
    | Local(peer: Peer, event: Event, env: Env)
    | Send(peer: Peer, env: Env)
    | Deliver(peer: Peer, sentAt: nat, ttl: nat, env: Env)

  datatype Pair = Pair(a: Session, b: Session) {
    function Of(p: Peer): Session {
      if p == A then a else b
    }

    function With(p: Peer, s: Session): Pair {
      if p == A then Pair(s, b) else Pair(a, s)
    }
  }

  /** How the two sessions were created. */
  datatype Setup = Setup(discA: nat, cfgA: Cfg, envA: Env, discB: nat, cfgB: Cfg, envB: Env) {
    function Disc(p: Peer): nat {
      if p == A then discA else discB
    }
  }

  type Trace = seq<Step>

  /** Packets come only from the other peer's transmissions. */
  ghost predicate Genuine(t: Trace) {
    forall k :: 0 <= k < |t| && t[k].Deliver? ==>
      t[k].sentAt < k && t[t[k].sentAt].Send? && t[t[k].sentAt].peer == Other(t[k].peer)
  }

  ghost predicate LocalOnly(t: Trace) {
    forall k :: 0 <= k < |t| && t[k].Local? ==> !t[k].event.Received? && !t[k].event.SentPacket?
  }

  /** The two sessions before step n. */
  ghost function At(u: Setup, t: Trace, n: nat): Pair
    requires n <= |t|
    decreases n
  {
    if n == 0 then Pair(Configure(Create(u.discA, u.envA), u.cfgA, u.envA), Configure(Create(u.discB, u.envB), u.cfgB, u.envB))
    else
      var pair, step := At(u, t, n - 1), t[n - 1];
      var s := pair.Of(step.peer);
      match step
      case Local(p, ev, e) => pair.With(p, BfdSession.Step(s, ev, e))
      case Send(p, e) => pair.With(p, Sent(s, e))
      case Deliver(p, j, ttl, e) =>
        if j < n - 1 then pair.With(p, Receive(s, ttl, Full(MsgOf(At(u, t, j).Of(Other(p)))), e)) else pair
  }

  /** The packet of the transmission at step j. */
  ghost function Packet(u: Setup, t: Trace, j: nat): Msg
    requires j < |t|
  {
    MsgOf(At(u, t, j).Of(t[j].peer))
  }

  /** At step k, p received a packet past validation. */
  ghost predicate Heard(u: Setup, t: Trace, k: nat, p: Peer)
    requires k < |t|
  {
    t[k].Deliver? && t[k].peer == p && t[k].sentAt < k && Accepts(At(u, t, k).Of(p), t[k].ttl, Packet(u, t, t[k].sentAt))
  }

  // ------------------------------------------------ one step

  /** Without a heard packet a session keeps its peer or forgets it, and does
      not come up. */
  lemma QuietDisc(s: Session, ev: Event, e: Env)
    requires !BfdSession.Heard(s, ev)
    ensures var s' := BfdSession.Step(s, ev, e);
            s'.disc == s.disc && (s'.rmt.disc == s.rmt.disc || s'.rmt.disc == 0) && (s'.state == Up ==> s.state == Up)
  {
    hide Accept, SetState, Max, Accepts;
    if ev.Configured? {
      QuietConfigure(s, ev.cfg, e);
    } else {
      SetStateDetect(s, Down, Expired, e);
    }
  }

  /** A heard packet names the peer; it brings the session up only if the
      packet was sent in Init or Up. */
  lemma HeardDisc(s: Session, ttl: nat, m: Msg, e: Env)
    requires Accepts(s, ttl, m)
    ensures var s' := Receive(s, ttl, Full(m), e);
            s'.disc == s.disc && (s'.rmt.disc == m.myDisc || s'.rmt.disc == 0) && (s'.state == Up && s.state != Up ==> Above(m.state))
  {
    hide Learn, SetState, Accepts;
    var s1 := Forwarding(s.(decay := s.decay.(rxCtl := s.decay.rxCtl + 1)), e);
    LearnDisc(s1, m, e);
    var s2 := Learn(s1, m, e);
    SetStateDetect(s2, Down, RmtDown, e);
    SetStateDetect(s2, Init, s2.diag, e);
    SetStateDetect(s2, Up, s2.diag, e);
  }

  lemma LearnDisc(s: Session, m: Msg, e: Env)
    ensures var s' := Learn(s, m, e); s'.disc == s.disc && s'.rmt.disc == m.myDisc && s'.state == s.state
  {
    hide NextTx, DetectSpan, TxInterval, Max;
  }

  // ------------------------------------------------ over a run

  /** What holds of p's session before step n. */
  ghost predicate Fine(u: Setup, t: Trace, n: nat, p: Peer)
    requires n <= |t|
  {
    var s := At(u, t, n).Of(p);
    && Inv(s) && s.disc == u.Disc(p)
    && (s.rmt.disc != 0 ==> s.rmt.disc == u.Disc(Other(p)) && exists i :: 0 <= i < n && Heard(u, t, i, p))
  }

  lemma StartFine(u: Setup, t: Trace, p: Peer)
    ensures Fine(u, t, 0, p)
  {
    hide Configure, Inv;
    var disc, c, e := u.Disc(p), if p == A then u.cfgA else u.cfgB, if p == A then u.envA else u.envB;
    CreateUnconfigured(disc, e);
    ConfigureInv(Create(disc, e), c, e);
    QuietConfigure(Create(disc, e), c, e);
    assert Create(disc, e).rmt.disc == 0 && Create(disc, e).disc == disc;
  }

  lemma {:induction false} AlwaysFine(u: Setup, t: Trace, n: nat, p: Peer)
    requires n <= |t| && Genuine(t) && LocalOnly(t)
    ensures Fine(u, t, n, p)
    decreases n
  {
    hide Inv, Configure, Create, Receive, BfdSession.Step, Sent, Accepts;
    if n == 0 {
      StartFine(u, t, p);
    } else {
      AlwaysFine(u, t, n - 1, p);
      var s, step := At(u, t, n - 1).Of(p), t[n - 1];
      if step.peer == p {
        match step
        case Local(_, ev, e) =>
          StepInv(s, ev, e);
          LocalQuiet(s, ev);
          QuietDisc(s, ev, e);
        case Send(_, e) =>
          SentFine(s, e);
        case Deliver(_, j, ttl, e) =>
          AlwaysFine(u, t, j, Other(p));
          var m := Packet(u, t, j);
          PacketDisc(u, t, j);
          ReceiveInv(s, ttl, Full(m), e);
          if Accepts(s, ttl, m) {
            HeardDisc(s, ttl, m, e);
            assert Heard(u, t, n - 1, p);
          } else {
            Ignored(s, ttl, m, e);
          }
      }
    }
  }

  lemma LocalQuiet(s: Session, ev: Event)
    requires !ev.Received?
    ensures !BfdSession.Heard(s, ev)
  {
  }

  lemma SentFine(s: Session, e: Env)
    requires Inv(s)
    ensures Inv(Sent(s, e)) && Sent(s, e).disc == s.disc && Sent(s, e).rmt == s.rmt && Sent(s, e).state == s.state
  {
    hide NextTx;
  }

  lemma PacketDisc(u: Setup, t: Trace, j: nat)
    requires j < |t|
    ensures var s, m := At(u, t, j).Of(t[j].peer), Packet(u, t, j);
            m.myDisc == s.disc && m.yourDisc == s.rmt.disc && m.state == s.state
  {
  }

  lemma Ignored(s: Session, ttl: nat, m: Msg, e: Env)
    requires !Accepts(s, ttl, m)
    ensures var s' := Receive(s, ttl, Full(m), e); s'.disc == s.disc && s'.rmt == s.rmt && s'.state == s.state
  {
    hide Accepts;
  }

  /** p is Up from step k on, where it heard a packet of Init or Up. */
  ghost predicate UpSince(u: Setup, t: Trace, n: nat, p: Peer, k: nat)
    requires n <= |t|
  {
    && k < n && Heard(u, t, k, p) && Above(Packet(u, t, t[k].sentAt).state)
    && forall i :: k < i <= n ==> At(u, t, i).Of(p).state == Up
  }

  lemma {:induction false} UpSinceWhen(u: Setup, t: Trace, n: nat, p: Peer) returns (k: nat)
    requires n <= |t| && Genuine(t) && LocalOnly(t) && At(u, t, n).Of(p).state == Up
    ensures UpSince(u, t, n, p, k)
    decreases n
  {
    hide Inv, Configure, Create, Receive, BfdSession.Step, Sent, Accepts;
    if n == 0 {
      NotAboveYet(u.discA, u.cfgA, u.envA);
      NotAboveYet(u.discB, u.cfgB, u.envB);
      assert false;
    } else {
      var s, step := At(u, t, n - 1).Of(p), t[n - 1];
      if s.state == Up {
        k := UpSinceWhen(u, t, n - 1, p);
      } else {
        k := n - 1;
        RisesOnlyByPacket(u, t, n - 1, p);
      }
    }
  }

  lemma RisesOnlyByPacket(u: Setup, t: Trace, n: nat, p: Peer)
    requires n < |t| && Genuine(t) && LocalOnly(t)
    requires At(u, t, n).Of(p).state != Up && At(u, t, n + 1).Of(p).state == Up
    ensures Heard(u, t, n, p) && Above(Packet(u, t, t[n].sentAt).state)
  {
    hide Inv, Configure, Create, Receive, BfdSession.Step, Sent, Accepts;
    var s, step := At(u, t, n).Of(p), t[n];
    AlwaysFine(u, t, n, p);
    assert step.peer == p;
    match step
    case Local(_, ev, e) =>
      LocalQuiet(s, ev);
      QuietDisc(s, ev, e);
    case Send(_, e) =>
      SentFine(s, e);
    case Deliver(_, j, ttl, e) =>
      var m := Packet(u, t, j);
      if Accepts(s, ttl, m) {
        HeardDisc(s, ttl, m, e);
      } else {
        Ignored(s, ttl, m, e);
      }
  }

  /** The three-way handshake of section 6.2: whenever p is Up, there are
      steps i < j < k such that its peer heard p at i, sent at j a packet in
      Init or Up carrying p's discriminator, which p heard at k, and p has
      been Up ever since. */
  lemma UpMeansHandshake(u: Setup, t: Trace, n: nat, p: Peer) returns (i: nat, j: nat, k: nat)
    requires n <= |t| && Genuine(t) && LocalOnly(t)
    requires At(u, t, n).Of(p).state == Up
    ensures i < j < k < n && t[k].Deliver? && t[k].sentAt == j && t[j].Send? && t[j].peer == Other(p)
    ensures Heard(u, t, i, Other(p)) && Heard(u, t, k, p)
    ensures Above(Packet(u, t, j).state) && Packet(u, t, j).yourDisc == u.Disc(p)
    ensures forall x :: k < x <= n ==> At(u, t, x).Of(p).state == Up
  {
    hide At, Accepts, Packet;
    var q := Other(p);
    k := UpSinceWhen(u, t, n, p);
    j := t[k].sentAt;
    AlwaysFine(u, t, j, q);
    PacketDisc(u, t, j);
    var s := At(u, t, j).Of(q);
    assert s.rmt.disc == u.Disc(p);
    i :| 0 <= i < j && Heard(u, t, i, q);
  }

  /** A session above Down knows its peer's discriminator, and no other. */
  lemma AboveDownKnowsPeer(u: Setup, t: Trace, n: nat, p: Peer)
    requires n <= |t| && Genuine(t) && LocalOnly(t) && Above(At(u, t, n).Of(p).state)
    ensures At(u, t, n).Of(p).rmt.disc == u.Disc(Other(p)) != 0
  {
    hide At;
    AlwaysFine(u, t, n, p);
  }

  // ------------------------------------------------ coming up

  /** Two sessions that have heard nobody but each other. */
  ghost predicate Peers(a: Session, b: Session) {
    && Inv(a) && Inv(b) && a.disc != 0 && b.disc != 0
    && (a.rmt.disc != 0 ==> a.rmt.disc == b.disc) && (b.rmt.disc != 0 ==> b.rmt.disc == a.disc)
  }

  /** So are the two at every point of every run. */
  lemma AlwaysPeers(u: Setup, t: Trace, n: nat)
    requires n <= |t| && Genuine(t) && LocalOnly(t) && u.discA != 0 && u.discB != 0
    ensures Peers(At(u, t, n).a, At(u, t, n).b)
  {
    hide At, Inv;
    AlwaysFine(u, t, n, A);
    AlwaysFine(u, t, n, B);
  }

  /** No packet of the peer is refused, however late or often it arrives. */
  lemma NoneRefused(u: Setup, t: Trace, k: nat)
    requires k < |t| && Genuine(t) && LocalOnly(t) && u.discA != 0 && u.discB != 0
    requires t[k].Deliver? && t[k].ttl == 255
    ensures Heard(u, t, k, t[k].peer)
  {
    hide At;
    var p, j := t[k].peer, t[k].sentAt;
    AlwaysFine(u, t, k, p);
    AlwaysFine(u, t, j, Other(p));
  }

  function Hear(s: Session, from: Session, e: Env): Session {
    Receive(s, 255, Full(MsgOf(from)), e)
  }

  /** The state machine of section 6.2. */
  function NextState(own: State, peer: State): State {
    match (own, peer)
    case (Down, Down) => Init
    case (Down, Init) => Up
    case (Init, Init) => Up
    case (Init, Up) => Up
    case (Up, Init) => Up
    case (Up, Up) => Up
    case (Init, Down) => Init
    case (_, _) => Down
  }

  lemma HearPeer(s: Session, from: Session, e: Env)
    requires Peers(s, from)
    ensures var s' := Hear(s, from, e);
            Peers(s', from) && s'.state == NextState(s.state, from.state) && s'.disc == s.disc
  {
    hide Learn, SetState, Forwarding;
    var m := MsgOf(from);
    ReceiveInv(s, 255, Full(m), e);
    HeardDisc(s, 255, m, e);
    var s0 := s.(decay := s.decay.(rxCtl := s.decay.rxCtl + 1));
    var s1 := Forwarding(s0, e);
    ForwardingKeeps(s0, e);
    LearnDisc(s1, m, e);
    var s2 := Learn(s1, m, e);
    SetStateDetect(s2, Down, RmtDown, e);
    SetStateDetect(s2, Init, s2.diag, e);
    SetStateDetect(s2, Up, s2.diag, e);
    ForwardingKeeps(Accept(s1, m, e), e);
  }

  /** What a session that stays above Down has learned of its peer's rates. */
  lemma HeardRates(s: Session, from: Session, e: Env)
    requires Peers(s, from) && Small(from.rates) && Above(Hear(s, from, e).state)
    ensures var r, sent := Hear(s, from, e).rmt, from.rates;
            if from.flags.poll then r.minTx == sent.pollMinTx && r.minRx == sent.pollMinRx
            else r.minRx == sent.minRx && r.minTx == if from.state == Up then sent.minTx else Max(sent.minTx, 1000)
  {
    hide Learn, SetState, Forwarding, MsgOf;
    var m := MsgOf(from);
    MsgIntervals(from);
    MsgFits(from);
    HearPeer(s, from, e);
    var s0 := s.(decay := s.decay.(rxCtl := s.decay.rxCtl + 1));
    var s1 := Forwarding(s0, e);
    ForwardingKeeps(s0, e);
    LearnRates(s1, m, e);
    var s2 := Learn(s1, m, e);
    Learned(s2, m.state, e);
    ForwardingKeeps(Accept(s1, m, e), e);
    assert Accepts(s, 255, m) by { Accepted(s, from); }
  }

  lemma Accepted(s: Session, from: Session)
    requires Peers(s, from)
    ensures Accepts(s, 255, MsgOf(from))
  {
  }

  lemma MsgFits(s: Session)
    requires Inv(s)
    ensures MsgOf(s).state == s.state && (s.flags.poll ==> s.rates.pollMinTx >= 100 && s.rates.pollMinRx >= 100)
    ensures s.rates.minTx >= 100 && s.rates.minRx >= 100
  {
  }

  lemma LearnRates(s: Session, m: Msg, e: Env)
    ensures var s' := Learn(s, m, e);
            s'.state == s.state && s'.rmt.minRx == Max(m.minRx / 1000, 1) && s'.rmt.minTx == Max(m.minTx / 1000, 1)
  {
    hide NextTx, DetectSpan, TxInterval, Max;
  }

  lemma Learned(s: Session, st: State, e: Env)
    ensures Above(Transition(s, st, e).state) ==> Transition(s, st, e).rmt == s.rmt
  {
  }

  /** Two sessions that are Up outside a poll sequence, the first just heard by
      the second and knowing its rate: the second waits for three of the
      intervals at which the first sends. */
  lemma ThreeIntervals(s: Session, from: Session, e: Env)
    requires Peers(s, from) && Small(from.rates) && from.state == Up && !from.flags.poll && !s.flags.poll && Hear(s, from, e).state == Up
    requires from.rmt.minRx == s.rates.minRx
    ensures Hear(s, from, e).detectTime == e.now + 3 * TxInterval(from.state, from.rates.minTx, from.rmt.minRx)
  {
    hide Accepts, Receive, MsgOf, FlapsOk, DecayOk;
    var m := MsgOf(from);
    Accepted(s, from);
    MsgIntervals(from);
    MsgFits(from);
    HeardStep(s, Received(255, Full(m)), e);
    assert m.minTx / 1000 == from.rates.minTx;
  }

  datatype Times = Times(sendA: Env, hearB: Env, sendB: Env, hearA: Env)

  /** A sends, B hears it and sends, and A hears that. */
  function Exchange(pair: Pair, x: Times): Pair {
    var b := Hear(pair.b, pair.a, x.hearB);
    Pair(Hear(Sent(pair.a, x.sendA), b, x.hearA), Sent(b, x.sendB))
  }

  function Exchanges(pair: Pair, xs: seq<Times>): Pair {
    if xs == [] then pair else Exchange(Exchanges(pair, xs[..|xs| - 1]), xs[|xs| - 1])
  }

  lemma ExchangeStates(pair: Pair, x: Times)
    requires Peers(pair.a, pair.b)
    ensures var p := Exchange(pair, x); var b := NextState(pair.b.state, pair.a.state);
            Peers(p.a, p.b) && p.b.state == b && p.a.state == NextState(pair.a.state, b)
  {
    hide Hear, NextState, Sent, Inv;
    var b := Hear(pair.b, pair.a, x.hearB);
    HearPeer(pair.b, pair.a, x.hearB);
    SentFine(pair.a, x.sendA);
    SentFine(b, x.sendB);
    HearPeer(Sent(pair.a, x.sendA), b, x.hearA);
  }

  /** How far two states are from both being Up, in exchanges. */
  function Distance(a: State, b: State): nat {
    if a == Up && b == Up then 0
    else if b == Init || (a == Init && b == Down) || (a == Init && b == Up) then if a == Down then 2 else 1
    else if a == Up then 3
    else 2
  }

  lemma DistanceShrinks(a: State, b: State)
    requires a != AdminDown && b != AdminDown
    ensures var b' := NextState(b, a); var a' := NextState(a, b');
            Distance(a, b) <= 3 && (Distance(a', b') < Distance(a, b) || Distance(a', b') == 0)
  {
  }

  /** From whatever states a run left them in, two sessions that hear each
      other three times in turn are both Up, and stay so. */
  lemma {:induction false} ComeUp(pair: Pair, xs: seq<Times>)
    requires Peers(pair.a, pair.b)
    ensures var p := Exchanges(pair, xs);
            && Peers(p.a, p.b) && Distance(p.a.state, p.b.state) <= (if |xs| < 3 then 3 - |xs| else 0)
            && (|xs| >= 3 ==> p.a.state == Up && p.b.state == Up)
    decreases |xs|
  {
    hide Exchange, NextState, Peers, Distance;
    PeersStates(pair.a, pair.b);
    DistanceShrinks(pair.a.state, pair.b.state);
    if xs != [] {
      var n := |xs| - 1;
      ComeUp(pair, xs[..n]);
      var p := Exchanges(pair, xs[..n]);
      ExchangeStates(p, xs[n]);
      PeersStates(p.a, p.b);
      DistanceShrinks(p.a.state, p.b.state);
      Arrived(Exchanges(pair, xs).a.state, Exchanges(pair, xs).b.state);
    }
  }

  lemma PeersStates(a: Session, b: Session)
    requires Peers(a, b)
    ensures a.state != AdminDown && b.state != AdminDown
  {
  }

  lemma Arrived(a: State, b: State)
    ensures Distance(a, b) == 0 ==> a == Up && b == Up
  {
  }
}
