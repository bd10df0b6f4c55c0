/** One BFD session, section 6.8 of RFC 5880: its state and what each
    operation on it does.  The clock, the packet counter of the interface and
    the transmission jitter are parameters of the operations. */
module BfdSession {
  const BFD_VERSION: nat := 1
  const BFD_PACKET_LEN: nat := 24
  const U32: nat := 0x1_0000_0000
  const U64: nat := 0x1_0000_0000_0000_0000

  datatype State = AdminDown | Down | Init | Up

  datatype Diag = NoDiag | Expired | EchoFailed | RmtDown | FwdReset | PathDown | CpathDown | DiagAdminDown | RcpathDown
                | Unassigned(code: nat)

  datatype Flags = Flags(multipoint: bool, demand: bool, auth: bool, ctl: bool, final: bool, poll: bool)

  const NO_FLAGS := Flags(false, false, false, false, false, false)

  datatype Msg = Msg(version: nat, diag: Diag, state: State, flags: Flags, mult: nat, length: nat,
                     myDisc: nat, yourDisc: nat, minTx: nat, minRx: nat)

  /** What follows the IP header: no UDP payload, one too short for a control
      packet, or a control packet. */
  datatype Payload = NoUdp | Short | Full(msg: Msg)

  type Jitter = n: nat | n < 26

  datatype Env = Env(now: int, rx: int, jitter: Jitter)

  datatype Cfg = Cfg(minTx: int, minRx: int, decayMinRx: int, cpathDown: bool, forwardingIfRx: bool)

  datatype Override = Normal | Forced(value: bool)

  /** What the session knows of its peer. */
  datatype Remote = Remote(state: State, diag: Diag, flags: Flags, disc: nat, minRx: int, minTx: int)

  /** Configured, proposed in a poll sequence, and in effect. */
  datatype Rates = Rates(cfgMinTx: int, cfgMinRx: int, pollMinTx: int, pollMinRx: int, minTx: int, minRx: int)

  datatype Forward = Forward(last: bool, override: Override, ifRx: bool, ifRxDetectTime: int, demandTime: int, flaps: nat)

  datatype Decay = Decay(on: bool, minRx: int, rxCtl: int, rxPackets: int, detectTime: int)

  datatype Session = Session(disc: nat, cpathDown: bool, mult: nat, state: State, diag: Diag, flags: Flags,
                             rmt: Remote, rates: Rates, lastTx: int, nextTx: int, detectTime: int,
                             fwd: Forward, decay: Decay, statusChanged: bool)

  function Max(a: int, b: int): int {
    if a > b then a else b
  }

  predicate Above(st: State) {
    st == Init || st == Up
  }

  // ------------------------------------------------ helpers

  /** bfd_min_tx. */
  function MinTx(st: State, minTx: int): int {
    if st == Up then minTx else Max(minTx, 1000)
  }

  function TxInterval(st: State, minTx: int, rmtMinRx: int): int {
    Max(MinTx(st, minTx), rmtMinRx)
  }

  function RxInterval(minRx: int, rmtMinTx: int): int {
    Max(minRx, rmtMinTx)
  }

  /** The detection time of section 6.8.4, from the local multiplier. */
  function DetectSpan(minRx: int, rmtMinTx: int, mult: nat): int {
    RxInterval(minRx, rmtMinTx) * mult
  }

  /** The time of the next transmission: up to a quarter early. */
  function NextTx(lastTx: int, interval: int, jitter: Jitter): (r: int)
    ensures interval >= 0 ==> 4 * lastTx + 3 * interval <= 4 * r <= 4 * (lastTx + interval)
  {
    lastTx + interval - interval * jitter / 100
  }

  function DecayUpdate(d: Decay, e: Env): Decay {
    Decay(d.on, d.minRx, 0, e.rx, Max(d.minRx, 2000) + e.now)
  }

  function ForwardingIfRxUpdate(s: Session, e: Env): Session {
    s.(fwd := s.fwd.(ifRxDetectTime := Max(DetectSpan(s.rates.minRx, s.rmt.minTx, s.mult), 2000) + e.now))
  }

  predicate Usable(d: Diag) {
    d != PathDown && d != CpathDown && d != RcpathDown
  }

  /** The forwarding verdict. */
  predicate Verdict(s: Session, now: int) {
    && (s.state == Up || (s.fwd.ifRx && s.fwd.ifRxDetectTime > now && s.fwd.demandTime > now))
    && Usable(s.rmt.diag)
  }

  /** bfd_forwarding__: a changed verdict counts as a flap. */
  function Forwarding(s: Session, e: Env): Session {
    if s.fwd.override == Normal && Verdict(s, e.now) != s.fwd.last
    then s.(fwd := s.fwd.(last := !s.fwd.last, flaps := (s.fwd.flaps + 1) % U64), statusChanged := true)
    else s
  }

  /** bfd_poll. */
  function Poll(s: Session): Session {
    if Above(s.state) && !s.flags.poll && !s.flags.final then
      var minRx := if s.decay.on then s.decay.minRx else s.rates.cfgMinRx;
      s.(rates := s.rates.(pollMinTx := s.rates.cfgMinTx, pollMinRx := minRx),
         flags := s.flags.(poll := true), nextTx := 0)
    else s
  }

  /** What a session that is Down knows of its peer. */
  const NOBODY := Remote(Down, NoDiag, NO_FLAGS, 0, 1, 0)

  /** bfd_set_state. */
  function SetState(s: Session, st: State, diag0: Diag, e: Env): Session {
    var diag := if s.cpathDown then CpathDown else diag0;
    if s.state == st && s.diag == diag then s else
    s.(state := st, diag := diag, statusChanged := true,
       rmt := if Above(st) then s.rmt else NOBODY,
       rates := if !Above(st) && s.decay.on then s.rates.(minRx := s.rates.cfgMinRx) else s.rates,
       decay := if !Above(st) then s.decay.(on := false)
                else if st == Up && s.decay.minRx != 0 then DecayUpdate(s.decay, e) else s.decay)
  }

  // ------------------------------------------------ configuration

  /** The zeroed record, in state AdminDown, with what is set in it at once. */
  function Blank(disc: nat): Session {
    Session(disc, false, 3, AdminDown, NoDiag, NO_FLAGS, Remote(AdminDown, NoDiag, NO_FLAGS, 0, 0, 0),
            Rates(0, 0, 0, 0, 1000, 0), 0, 0, 0, Forward(false, Normal, false, 0, 0, 0), Decay(false, 0, 0, 0, 0), false)
  }

  /** A new session. */
  function Create(disc: nat, e: Env): Session {
    SetState(Blank(disc), Down, NoDiag, e)
  }

  /** The new rates; outside a poll sequence, a session that is Up may at once
      send faster or ask for less, and a session that is not Up does both. */
  function ConfigureRates(s: Session, minTx0: int, minRx0: int): Rates {
    var r, tx, rx := s.rates, Max(minTx0, 100), Max(minRx0, 100);
    r.(cfgMinTx := tx, cfgMinRx := rx,
       minTx := if r.cfgMinTx != tx && (s.state != Up || (!s.flags.poll && tx < r.minTx)) then tx else r.minTx,
       minRx := if r.cfgMinRx != rx && (s.state != Up || (!s.flags.poll && rx > r.minRx)) then rx else r.minRx)
  }

  function ConfigureDecay(d: Decay, minRx: int, cfgMinRx: int, rxChanged: bool, e: Env): Decay {
    if d.minRx == minRx && !rxChanged then d
    else DecayUpdate(d.(minRx := if 0 < minRx < cfgMinRx then 0 else minRx, on := false), e)
  }

  function ConfigureCpath(s: Session, cpathDown: bool, e: Env): Session {
    if s.cpathDown == cpathDown then s else SetState(s.(cpathDown := cpathDown), s.state, NoDiag, e)
  }

  function ConfigureIfRx(s: Session, ifRx: bool, e: Env): Session {
    if s.fwd.ifRx == ifRx then s else
    var s1 := s.(fwd := s.fwd.(ifRx := ifRx, ifRxDetectTime := 0));
    if s1.state == Up && ifRx then ForwardingIfRxUpdate(s1, e) else s1
  }

  /** bfd_configure on an enabled session. */
  function Configure(s: Session, c: Cfg, e: Env): Session {
    var rates := ConfigureRates(s, c.minTx, c.minRx);
    var txChanged, rxChanged := s.rates.cfgMinTx != rates.cfgMinTx, s.rates.cfgMinRx != rates.cfgMinRx;
    var s1 := s.(rates := rates, decay := ConfigureDecay(s.decay, c.decayMinRx, rates.cfgMinRx, rxChanged, e));
    var s2 := ConfigureIfRx(ConfigureCpath(s1, c.cpathDown, e), c.forwardingIfRx, e);
    if txChanged || rxChanged || s.decay.minRx != c.decayMinRx || s.cpathDown != c.cpathDown then Poll(s2) else s2
  }

  // ------------------------------------------------ running

  function TryDecay(d: Decay, e: Env): Decay {
    DecayUpdate(d.(on := e.rx - d.rxPackets <= 2 * Max(d.rxCtl, 1)), e)
  }

  /** bfd_run. */
  function Run(s: Session, e: Env): Session {
    var s1 := if Above(s.state) && e.now >= s.detectTime then SetState(s, Down, Expired, e) else s;
    var s2 := Forwarding(s1, e);
    var due := s2.state == Up && s2.decay.minRx > 0 && e.now >= s2.decay.detectTime;
    var s3 := s2.(decay := if due then TryDecay(s2.decay, e) else s2.decay);
    var r := s3.rates;
    if r.minTx != r.cfgMinTx || (r.minRx != r.cfgMinRx && r.minRx != s3.decay.minRx) || s3.decay.on != s.decay.on
    then Poll(s3) else s3
  }

  /** The control packet of bfd_put_packet; the intervals go out in
      microseconds, cut to 32 bits. */
  function MsgOf(s: Session): Msg {
    Msg(BFD_VERSION, s.diag, s.state, s.flags, s.mult, BFD_PACKET_LEN, s.disc, s.rmt.disc,
        (if s.flags.poll then s.rates.pollMinTx else MinTx(s.state, s.rates.minTx)) * 1000 % U32,
        (if s.flags.poll then s.rates.pollMinRx else s.rates.minRx) * 1000 % U32)
  }

  /** The intervals fit in 32 bits as microseconds. */
  predicate Small(r: Rates) {
    r.minTx <= 4294967 && r.minRx <= 4294967 && r.pollMinTx <= 4294967 && r.pollMinRx <= 4294967
  }

  /** The intervals that go out: those proposed during a poll sequence, those
      in effect otherwise, but never less than a second unless Up. */
  lemma MsgIntervals(s: Session)
    requires Inv(s) && s.state != AdminDown
    ensures var m, r := MsgOf(s), s.rates;
            && (Small(r) && s.flags.poll ==> m.minTx == 1000 * r.pollMinTx && m.minRx == 1000 * r.pollMinRx)
            && (Small(r) && !s.flags.poll ==>
                  && m.minRx == 1000 * r.minRx && (s.state == Up ==> m.minTx == 1000 * r.minTx)
                  && (s.state != Up ==> m.minTx == 1000 * Max(r.minTx, 1000)))
  {
    if Small(s.rates) {
      if s.flags.poll {
        Whole(s.rates.pollMinTx);
        Whole(s.rates.pollMinRx);
      } else {
        Whole(s.rates.minRx);
        Whole(s.rates.minTx);
        Whole(1000);
      }
    }
  }

  lemma Whole(x: int)
    requires 0 <= x <= 4294967
    ensures x * 1000 % U32 == 1000 * x
  {
  }

  /** What sending it does to the session. */
  function Sent(s: Session, e: Env): Session {
    s.(flags := s.flags.(final := false), lastTx := e.now, nextTx := NextTx(e.now, TxInterval(s.state, s.rates.minTx, s.rmt.minRx), e.jitter))
  }

  // ------------------------------------------------ reception, section 6.8.6

  predicate Accepts(s: Session, ttl: nat, m: Msg) {
    && ttl == 255 && m.version == BFD_VERSION && !m.flags.auth && m.length >= BFD_PACKET_LEN
    && m.mult != 0 && !m.flags.multipoint && m.myDisc != 0
    && (if m.yourDisc != 0 then m.yourDisc == s.disc else !Above(m.state))
  }

  /** The reasons to discard a packet. */
  lemma Discarded(s: Session, ttl: nat, m: Msg)
    ensures !Accepts(s, ttl, m) <==>
              || ttl != 255 || m.version != 1 || m.flags.auth || m.length < 24 || m.mult == 0 || m.flags.multipoint || m.myDisc == 0
              || (m.yourDisc != 0 && m.yourDisc != s.disc) || (m.yourDisc == 0 && (m.state == Init || m.state == Up))
  {
  }

  /** The part of an accepted packet's processing before the state change:
      a Final ends a poll sequence, a Poll is to be answered by a Final. */
  function Learn(s: Session, m: Msg, e: Env): Session {
    var r, ended := s.rates, m.flags.final && s.flags.poll;
    var s1 := s.(rmt := Remote(m.state, m.diag, m.flags, m.myDisc, Max(m.minRx / 1000, 1), Max(m.minTx / 1000, 1)),
                 rates := if ended then r.(minTx := r.pollMinTx, minRx := r.pollMinRx) else r,
                 flags := s.flags.(poll := s.flags.poll && !ended && !m.flags.poll, final := s.flags.final || m.flags.poll),
                 statusChanged := s.statusChanged || s.rmt.state != m.state);
    var again := s.rmt.minRx != s1.rmt.minRx && s.nextTx != 0;
    s1.(nextTx := if again then NextTx(s.lastTx, TxInterval(s.state, s1.rates.minTx, s1.rmt.minRx), e.jitter) else s.nextTx,
        detectTime := DetectSpan(s1.rates.minRx, s1.rmt.minTx, s.mult) + e.now)
  }

  /** The state machine of section 6.8.6. */
  function Transition(s: Session, st: State, e: Env): Session {
    if st == AdminDown then
      if s.state != Down then SetState(s, Down, RmtDown, e) else s
    else match s.state
      case Down => if st == Down then SetState(s, Init, s.diag, e)
                   else if st == Init then SetState(s, Up, s.diag, e) else s
      case Init => if Above(st) then SetState(s, Up, s.diag, e) else s
      case Up => if !Above(st) then SetState(s, Down, RmtDown, e) else s
      case AdminDown => s
  }

  function Accept(s: Session, m: Msg, e: Env): Session {
    var s1 := Learn(s, m, e);
    if s1.state == AdminDown then s1 else
    var s2 := Transition(s1, m.state, e);
    if s2.fwd.ifRx then s2.(fwd := s2.fwd.(demandTime := e.now + 100 * s2.rates.cfgMinRx)) else s2
  }

  /** bfd_process_packet. */
  function Receive(s: Session, ttl: nat, p: Payload, e: Env): Session {
    if p.NoUdp? then s else
    var s1 := Forwarding(s.(decay := s.decay.(rxCtl := s.decay.rxCtl + 1)), e);
    Forwarding(if p.Full? && Accepts(s, ttl, p.msg) then Accept(s1, p.msg, e) else s1, e)
  }

  /** bfd_account_rx. */
  function AccountRx(s: Session, packets: nat, e: Env): Session {
    if packets == 0 || !s.fwd.ifRx then s
    else Forwarding(ForwardingIfRxUpdate(Forwarding(s, e), e), e)
  }

  /** bfd_set_netdev, when the device changes. */
  function SetNetdev(s: Session, e: Env): Session {
    var s1 := if s.decay.minRx != 0 && s.state == Up then s.(decay := DecayUpdate(s.decay, e)) else s;
    if s1.fwd.ifRx && s1.state == Up then ForwardingIfRxUpdate(s1, e) else s1
  }

  // ------------------------------------------------ runs

  datatype Event =
    | Configured(cfg: Cfg)
    | Ran
    | SentPacket
    | Received(ttl: nat, payload: Payload)
    | Accounted(packets: nat)
    | NetdevChanged
    | Overridden(override: Override)
    | Queried
    | StatusRead

  function Step(s: Session, ev: Event, e: Env): Session {
    match ev
    case Configured(c) => Configure(s, c, e)
    case Ran => Run(s, e)
    case SentPacket => Sent(s, e)
    case Received(ttl, p) => Receive(s, ttl, p, e)
    case Accounted(n) => AccountRx(s, n, e)
    case NetdevChanged => SetNetdev(s, e)
    case Overridden(o) => s.(fwd := s.fwd.(override := o), statusChanged := true)
    case Queried => Forwarding(s, e)
    case StatusRead => s.(statusChanged := false)
  }

  type History = seq<(Event, Env)>

  /** A session created with 'disc' and then configured, after 'h'. */
  function After(disc: nat, c: Cfg, e0: Env, h: History): Session {
    if h == [] then Configure(Create(disc, e0), c, e0)
    else var n := |h| - 1; Step(After(disc, c, e0, h[..n]), h[n].0, h[n].1)
  }

  // ------------------------------------------------ what every run keeps

  /** Sections 6.5 and 6.8.1: never Poll and Final together; never AdminDown;
      a session above Down knows its peer; the parity of the flap count is the
      forwarding verdict; the intervals are in range. */
  ghost predicate Inv(s: Session) {
    && !(s.flags.poll && s.flags.final) && !s.flags.auth && !s.flags.multipoint
    && s.state != AdminDown
    && (Above(s.state) ==> s.rmt.disc != 0)
    && FlapsOk(s.fwd)
    && RatesOk(s.rates, s.flags.poll) && DecayOk(s) && s.mult == 3
  }

  ghost predicate FlapsOk(f: Forward) {
    f.last <==> f.flaps % 2 == 1
  }

  ghost predicate RatesOk(r: Rates, poll: bool) {
    && r.cfgMinTx >= 100 && r.cfgMinRx >= 100 && r.minTx >= 100 && r.minRx >= 100
    && (poll ==> r.pollMinTx >= 100 && r.pollMinRx >= 100)
  }

  ghost predicate DecayOk(s: Session) {
    && (s.decay.on ==> s.decay.minRx > 0 && s.state == Up)
    && (s.decay.minRx > 0 ==> s.decay.minRx >= s.rates.cfgMinRx)
  }

  lemma ForwardingInv(s: Session, e: Env)
    requires Inv(s)
    ensures Inv(Forwarding(s, e))
  {
    assert (s.fwd.flaps + 1) % U64 % 2 == (s.fwd.flaps + 1) % 2;
  }

  lemma SetStateInv(s: Session, st: State, diag: Diag, e: Env)
    requires Inv(s) && st != AdminDown && (Above(st) ==> s.rmt.disc != 0) && (s.decay.on ==> st != Init)
    ensures Inv(SetState(s, st, diag, e))
  {
  }

  ghost predicate Unconfigured(s: Session) {
    && s.state == Down && s.flags == NO_FLAGS && FlapsOk(s.fwd) && s.mult == 3
    && s.rates == Rates(0, 0, 0, 0, 1000, 0) && s.decay == Decay(false, 0, 0, 0, 0)
  }

  lemma ConfigureInv(s: Session, c: Cfg, e: Env)
    requires Inv(s) || Unconfigured(s)
    ensures Inv(Configure(s, c, e))
  {
    hide Poll, ConfigureCpath, ConfigureIfRx;
    var rates := ConfigureRates(s, c.minTx, c.minRx);
    var rxChanged := s.rates.cfgMinRx != rates.cfgMinRx;
    var s1 := s.(rates := rates, decay := ConfigureDecay(s.decay, c.decayMinRx, rates.cfgMinRx, rxChanged, e));
    assert Inv(s1);
    ConfigureRest(s1, c, e);
  }

  /** The tail of a configuration. */
  lemma ConfigureRest(s: Session, c: Cfg, e: Env)
    requires Inv(s)
    ensures var t := ConfigureIfRx(ConfigureCpath(s, c.cpathDown, e), c.forwardingIfRx, e);
            Inv(t) && Inv(Poll(t))
  {
    hide *;
    CpathInv(s, c.cpathDown, e);
    var s1 := ConfigureCpath(s, c.cpathDown, e);
    IfRxInv(s1, c.forwardingIfRx, e);
    PollInv(ConfigureIfRx(s1, c.forwardingIfRx, e));
  }

  lemma CpathInv(s: Session, cpathDown: bool, e: Env)
    requires Inv(s)
    ensures Inv(ConfigureCpath(s, cpathDown, e))
  {
    hide SetState, RatesOk, FlapsOk;
    SetStateInv(s.(cpathDown := cpathDown), s.state, NoDiag, e);
  }

  lemma IfRxInv(s: Session, ifRx: bool, e: Env)
    requires Inv(s)
    ensures Inv(ConfigureIfRx(s, ifRx, e))
  {
    hide RatesOk, Max, DetectSpan;
  }

  lemma PollInv(s: Session)
    requires Inv(s)
    ensures Inv(Poll(s))
  {
  }

  lemma RunInv(s: Session, e: Env)
    requires Inv(s)
    ensures Inv(Run(s, e))
  {
    hide SetState, Forwarding, Poll, FlapsOk, RatesOk, Max;
    var s1 := if Above(s.state) && e.now >= s.detectTime then SetState(s, Down, Expired, e) else s;
    SetStateInv(s, Down, Expired, e);
    ForwardingInv(s1, e);
    var s2 := Forwarding(s1, e);
    var s3 := s2.(decay := TryDecay(s2.decay, e));
    PollInv(s2);
    if s2.state == Up && s2.decay.minRx > 0 {
      PollInv(s3);
    }
  }

  lemma LearnInv(s: Session, m: Msg, e: Env)
    requires Inv(s) && m.myDisc != 0
    ensures Inv(Learn(s, m, e)) && Learn(s, m, e).rmt.disc != 0
  {
    hide NextTx, DetectSpan, TxInterval, Max;
  }

  lemma TransitionInv(s: Session, st: State, e: Env)
    requires Inv(s) && s.rmt.disc != 0
    ensures Inv(Transition(s, st, e))
  {
    hide SetState, FlapsOk, RatesOk;
    SetStateInv(s, Down, RmtDown, e);
    SetStateInv(s, Up, s.diag, e);
    if s.state == Down {
      SetStateInv(s, Init, s.diag, e);
    }
  }

  lemma AcceptInv(s: Session, m: Msg, e: Env)
    requires Inv(s) && m.myDisc != 0
    ensures Inv(Accept(s, m, e))
  {
    hide Learn, Transition, RatesOk;
    LearnInv(s, m, e);
    TransitionInv(Learn(s, m, e), m.state, e);
  }

  lemma ReceiveInv(s: Session, ttl: nat, p: Payload, e: Env)
    requires Inv(s)
    ensures Inv(Receive(s, ttl, p, e))
  {
    hide Accept, Forwarding;
    var s0 := s.(decay := s.decay.(rxCtl := s.decay.rxCtl + 1));
    var s1 := Forwarding(s0, e);
    ForwardingInv(s0, e);
    ForwardingInv(s1, e);
    if p.Full? && Accepts(s, ttl, p.msg) {
      AcceptInv(s1, p.msg, e);
      ForwardingInv(Accept(s1, p.msg, e), e);
    }
  }

  lemma StepInv(s: Session, ev: Event, e: Env)
    requires Inv(s)
    ensures Inv(Step(s, ev, e))
  {
    hide Configure, Run, Receive, Forwarding, Sent, Max;
    match ev
    case Configured(c) => ConfigureInv(s, c, e);
    case Ran => RunInv(s, e);
    case Received(ttl, p) => ReceiveInv(s, ttl, p, e);
    case Accounted(n) =>
      ForwardingInv(s, e);
      ForwardingInv(ForwardingIfRxUpdate(Forwarding(s, e), e), e);
    case Queried => ForwardingInv(s, e);
    case SentPacket => SentInv(s, e);
    case _ =>
  }

  lemma SentInv(s: Session, e: Env)
    requires Inv(s)
    ensures Inv(Sent(s, e))
  {
  }

  lemma CreateUnconfigured(disc: nat, e: Env)
    ensures Unconfigured(Create(disc, e))
  {
  }

  /** The invariants hold after every history. */
  lemma {:induction false} AfterInv(disc: nat, c: Cfg, e0: Env, h: History)
    ensures Inv(After(disc, c, e0, h))
  {
    hide Inv, Step, Configure, Create;
    if h == [] {
      CreateUnconfigured(disc, e0);
      ConfigureInv(Create(disc, e0), c, e0);
    } else {
      var n := |h| - 1;
      AfterInv(disc, c, e0, h[..n]);
      StepInv(After(disc, c, e0, h[..n]), h[n].0, h[n].1);
    }
  }

  lemma AfterNext(disc: nat, c: Cfg, e0: Env, h: History, ev: Event, e: Env)
    ensures After(disc, c, e0, h + [(ev, e)]) == Step(After(disc, c, e0, h), ev, e)
  {
    hide Step, Configure, Create;
    assert (h + [(ev, e)])[..|h|] == h;
  }

  // ------------------------------------------------ poll sequences, section 6.5

  /** A poll sequence goes on with the intervals it proposed until a packet
      with Poll or Final is heard; a Final puts them into effect. */
  lemma PollStep(s: Session, ev: Event, e: Env)
    requires Inv(s) && s.flags.poll
    ensures var s' := Step(s, ev, e);
            && (s'.flags.poll ==> s'.rates.pollMinTx == s.rates.pollMinTx && s'.rates.pollMinRx == s.rates.pollMinRx)
            && (!s'.flags.poll <==> Heard(s, ev) && (ev.payload.msg.flags.poll || ev.payload.msg.flags.final))
            && (Heard(s, ev) && ev.payload.msg.flags.final ==>
                  s'.rates.minTx == s.rates.pollMinTx && (Above(s'.state) ==> s'.rates.minRx == s.rates.pollMinRx))
  {
    hide Configure, Run, Receive, Forwarding, Inv, Max, DetectSpan, NextTx, Accepts;
    match ev
    case Configured(c) => ConfigurePoll(s, c, e);
    case Ran => RunPoll(s, e);
    case Received(ttl, p) => ReceivePoll(s, ttl, p, e);
    case _ =>
      ForwardingKeeps(s, e);
      ForwardingKeeps(ForwardingIfRxUpdate(Forwarding(s, e), e), e);
  }

  ghost predicate SamePoll(s: Session, s': Session) {
    s'.flags.poll == s.flags.poll && s'.rates.pollMinTx == s.rates.pollMinTx && s'.rates.pollMinRx == s.rates.pollMinRx
  }

  lemma ForwardingKeeps(s: Session, e: Env)
    ensures var s' := Forwarding(s, e);
            && s' == s.(fwd := s'.fwd, statusChanged := s'.statusChanged)
            && s'.fwd == s.fwd.(last := s'.fwd.last, flaps := s'.fwd.flaps)
  {
  }

  lemma ConfigurePoll(s: Session, c: Cfg, e: Env)
    requires s.flags.poll
    ensures SamePoll(s, Configure(s, c, e))
  {
    hide SetState, Max, ConfigureRates, ConfigureDecay, ConfigureCpath, DetectSpan;
    var rates := ConfigureRates(s, c.minTx, c.minRx);
    KeepsPoll(s, c.minTx, c.minRx);
    var rxChanged := s.rates.cfgMinRx != rates.cfgMinRx;
    CpathKeepsPoll(s.(rates := rates, decay := ConfigureDecay(s.decay, c.decayMinRx, rates.cfgMinRx, rxChanged, e)), c.cpathDown, e);
  }

  lemma RunPoll(s: Session, e: Env)
    requires s.flags.poll
    ensures SamePoll(s, Run(s, e))
  {
    hide SetState, Forwarding, Max;
    StateKeepsPoll(s, Down, Expired, e);
    ForwardingKeeps(s, e);
    ForwardingKeeps(SetState(s, Down, Expired, e), e);
  }

  lemma ReceivePoll(s: Session, ttl: nat, p: Payload, e: Env)
    requires s.flags.poll
    ensures var s', heard := Receive(s, ttl, p, e), p.Full? && Accepts(s, ttl, p.msg);
            && (s'.flags.poll ==> SamePoll(s, s'))
            && (!s'.flags.poll <==> heard && (p.msg.flags.poll || p.msg.flags.final))
            && (heard && p.msg.flags.final ==>
                  s'.rates.minTx == s.rates.pollMinTx && (Above(s'.state) ==> s'.rates.minRx == s.rates.pollMinRx))
  {
    hide SetState, Learn, Forwarding, Accepts;
    var s1 := Forwarding(s.(decay := s.decay.(rxCtl := s.decay.rxCtl + 1)), e);
    ForwardingKeeps(s.(decay := s.decay.(rxCtl := s.decay.rxCtl + 1)), e);
    if p.Full? && Accepts(s, ttl, p.msg) {
      LearnPoll(s1, p.msg, e);
      var s2 := Learn(s1, p.msg, e);
      StateKeepsPoll(s2, Down, RmtDown, e);
      StateKeepsPoll(s2, Init, s2.diag, e);
      StateKeepsPoll(s2, Up, s2.diag, e);
      ForwardingKeeps(Accept(s1, p.msg, e), e);
    } else {
      ForwardingKeeps(s1, e);
    }
  }

  lemma KeepsPoll(s: Session, minTx: int, minRx: int)
    ensures var r := ConfigureRates(s, minTx, minRx); r.pollMinTx == s.rates.pollMinTx && r.pollMinRx == s.rates.pollMinRx
  {
  }

  lemma StateKeepsPoll(s: Session, st: State, diag: Diag, e: Env)
    ensures var s' := SetState(s, st, diag, e);
            && s'.flags == s.flags && s'.state == st && s'.rates.minTx == s.rates.minTx
            && s'.rates.pollMinTx == s.rates.pollMinTx && s'.rates.pollMinRx == s.rates.pollMinRx
            && (Above(st) ==> s'.rates.minRx == s.rates.minRx)
  {
  }

  lemma CpathKeepsPoll(s: Session, cpathDown: bool, e: Env)
    ensures var s' := ConfigureCpath(s, cpathDown, e);
            s'.flags == s.flags && s'.rates.pollMinTx == s.rates.pollMinTx && s'.rates.pollMinRx == s.rates.pollMinRx
  {
    hide SetState;
    StateKeepsPoll(s.(cpathDown := cpathDown), s.state, NoDiag, e);
  }

  lemma LearnPoll(s: Session, m: Msg, e: Env)
    requires s.flags.poll
    ensures var s' := Learn(s, m, e);
            && s'.state == s.state && s'.fwd == s.fwd
            && s'.rates.pollMinTx == s.rates.pollMinTx && s'.rates.pollMinRx == s.rates.pollMinRx
            && (s'.flags.poll <==> !m.flags.final && !m.flags.poll)
            && (m.flags.final ==> s'.rates.minTx == s.rates.pollMinTx && s'.rates.minRx == s.rates.pollMinRx)
  {
    hide NextTx, DetectSpan, TxInterval, Max;
  }

  // ------------------------------------------------ the detection time, section 6.8.4

  /** An event that delivers a packet past validation. */
  predicate Heard(s: Session, ev: Event) {
    ev.Received? && ev.payload.Full? && Accepts(s, ev.ttl, ev.payload.msg)
  }

  /** The interval agreed on at reception, times the multiplier, from then. */
  function Deadline(s: Session, m: Msg, e: Env): int {
    var minRx := if m.flags.final && s.flags.poll then s.rates.pollMinRx else s.rates.minRx;
    e.now + s.mult * Max(minRx, Max(m.minTx / 1000, 1))
  }

  lemma SetStateDetect(s: Session, st: State, diag: Diag, e: Env)
    ensures var s' := SetState(s, st, diag, e);
            s'.detectTime == s.detectTime && s'.state == st && s'.disc == s.disc && (s'.rmt.disc == s.rmt.disc || s'.rmt.disc == 0)
  {
  }

  /** Only a heard packet moves the deadline or raises the state. */
  lemma QuietStep(s: Session, ev: Event, e: Env)
    requires !Heard(s, ev)
    ensures Step(s, ev, e).detectTime == s.detectTime
    ensures Above(Step(s, ev, e).state) ==> Above(s.state)
  {
    hide Accept, SetState, Max, Accepts;
    if ev.Configured? {
      QuietConfigure(s, ev.cfg, e);
    } else {
      SetStateDetect(s, Down, Expired, e);
    }
  }

  lemma QuietConfigure(s: Session, c: Cfg, e: Env)
    ensures var s' := Configure(s, c, e);
            s'.detectTime == s.detectTime && s'.state == s.state && s'.disc == s.disc && (s'.rmt.disc == s.rmt.disc || s'.rmt.disc == 0)
  {
    hide SetState, Max, ConfigureRates, ConfigureDecay, ConfigureCpath, DetectSpan;
    var rates := ConfigureRates(s, c.minTx, c.minRx);
    var rxChanged := s.rates.cfgMinRx != rates.cfgMinRx;
    var s1 := s.(rates := rates, decay := ConfigureDecay(s.decay, c.decayMinRx, rates.cfgMinRx, rxChanged, e));
    QuietCpath(s1, c.cpathDown, e);
  }

  lemma QuietCpath(s: Session, cpathDown: bool, e: Env)
    ensures var s' := ConfigureCpath(s, cpathDown, e);
            s'.detectTime == s.detectTime && s'.state == s.state && s'.disc == s.disc && (s'.rmt.disc == s.rmt.disc || s'.rmt.disc == 0)
  {
    hide SetState;
    SetStateDetect(s.(cpathDown := cpathDown), s.state, NoDiag, e);
  }

  lemma HeardStep(s: Session, ev: Event, e: Env)
    requires Heard(s, ev)
    ensures Step(s, ev, e).detectTime == Deadline(s, ev.payload.msg, e)
  {
    hide Transition, Learn;
    var s1 := Forwarding(s.(decay := s.decay.(rxCtl := s.decay.rxCtl + 1)), e);
    var m := ev.payload.msg;
    LearnDetect(s1, m, e);
    TransitionDetect(Learn(s1, m, e), m.state, e);
  }

  lemma LearnDetect(s: Session, m: Msg, e: Env)
    ensures Learn(s, m, e).detectTime == Deadline(s, m, e)
  {
    hide NextTx, TxInterval, Max;
  }

  lemma TransitionDetect(s: Session, st: State, e: Env)
    ensures Transition(s, st, e).detectTime == s.detectTime
  {
    hide SetState;
    SetStateDetect(s, Down, RmtDown, e);
    SetStateDetect(s, Init, s.diag, e);
    SetStateDetect(s, Up, s.diag, e);
  }

  /** Event 'i' is the last that was heard. */
  ghost predicate LastHeard(disc: nat, c: Cfg, e0: Env, h: History, i: nat) {
    && i < |h| && Heard(After(disc, c, e0, h[..i]), h[i].0)
    && forall j :: i < j < |h| ==> !Heard(After(disc, c, e0, h[..j]), h[j].0)
  }

  function DeadlineOf(disc: nat, c: Cfg, e0: Env, h: History, i: nat): int
    requires i < |h| && Heard(After(disc, c, e0, h[..i]), h[i].0)
  {
    Deadline(After(disc, c, e0, h[..i]), h[i].0.payload.msg, h[i].1)
  }

  /** Above Down, the detection time is that of the last packet heard. */
  lemma {:induction false} DeadlineKept(disc: nat, c: Cfg, e0: Env, h: History) returns (i: nat)
    requires Above(After(disc, c, e0, h).state)
    ensures LastHeard(disc, c, e0, h, i) && After(disc, c, e0, h).detectTime == DeadlineOf(disc, c, e0, h, i)
  {
    hide Step, Heard, Deadline, Configure, Create;
    if h == [] {
      NotAboveYet(disc, c, e0);
      assert false;
    } else {
      var n := |h| - 1;
      var s := After(disc, c, e0, h[..n]);
      if Heard(s, h[n].0) {
        i := n;
        HeardStep(s, h[n].0, h[n].1);
        HeardIsFull(s, h[n].0);
      } else {
        QuietStep(s, h[n].0, h[n].1);
        i := DeadlineKept(disc, c, e0, h[..n]);
        assert h[..n][..i] == h[..i];
        forall j | i < j < |h| ensures !Heard(After(disc, c, e0, h[..j]), h[j].0) {
          assert j < n ==> h[..n][..j] == h[..j];
        }
      }
    }
  }

  lemma HeardIsFull(s: Session, ev: Event)
    requires Heard(s, ev)
    ensures ev.Received? && ev.payload.Full?
  {
  }

  lemma NotAboveYet(disc: nat, c: Cfg, e: Env)
    ensures !Above(Configure(Create(disc, e), c, e).state)
  {
    hide Configure;
    QuietConfigure(Create(disc, e), c, e);
  }

  /** After bfd_run, a session above Down heard its peer within the detection
      time, counted from the last packet it heard. */
  lemma Detection(disc: nat, c: Cfg, e0: Env, h: History, e: Env) returns (i: nat)
    requires Above(After(disc, c, e0, h + [(Ran, e)]).state)
    ensures LastHeard(disc, c, e0, h, i) && e.now < DeadlineOf(disc, c, e0, h, i)
  {
    hide LastHeard, Heard, Deadline, Configure, Create;
    assert (h + [(Ran, e)])[..|h|] == h;
    var s := After(disc, c, e0, h);
    RunDetects(s, e);
    i := DeadlineKept(disc, c, e0, h);
  }

  lemma RunDetects(s: Session, e: Env)
    ensures Above(Run(s, e).state) ==> Above(s.state) && e.now < s.detectTime
  {
    hide SetState, Max;
    SetStateDetect(s, Down, Expired, e);
  }
}
