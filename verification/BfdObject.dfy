/** The BFD session as an object whose fields the operations update one by
    one.  The object remembers, for the proof, how it was configured and what
    has happened to it since; its fields are those of the session model after
    that history, so whatever holds of every history holds of the object. */
module BfdObject {
  import opened BfdSession

  class Bfd {
    const disc: nat
    const mult: nat
    var cpathDown: bool
    var state: State
    var diag: Diag
    var flags: Flags
    var rmt: Remote
    var rates: Rates
    var lastTx: int
    var nextTx: int
    var detectTime: int
    var fwd: Forward
    var decay: Decay
    var statusChanged: bool
    ghost var cfg0: Cfg
    ghost var env0: Env
    ghost var h: History

    function View(): Session
      reads this
    {
      Session(disc, cpathDown, mult, state, diag, flags, rmt, rates, lastTx, nextTx, detectTime, fwd, decay, statusChanged)
    }

    ghost predicate Valid()
      reads this
    {
      View() == After(disc, cfg0, env0, h)
    }

    /** bfd_configure with no session yet. */
    constructor (disc: nat, c: Cfg, e: Env)
      ensures Valid() && h == [] && this.disc == disc && cfg0 == c && env0 == e
      ensures state == Down && rmt.disc == 0 && !flags.poll && !flags.final && !fwd.last
      ensures rates.cfgMinTx >= 100 && rates.cfgMinRx >= 100
    {
      this.disc, mult := disc, 3;
      cpathDown, state, diag, flags := false, AdminDown, NoDiag, NO_FLAGS;
      rmt := Remote(AdminDown, NoDiag, NO_FLAGS, 0, 0, 0);
      rates := Rates(0, 0, 0, 0, 1000, 0);
      lastTx, nextTx, detectTime := 0, 0, 0;
      fwd := Forward(false, Normal, false, 0, 0, 0);
      decay := Decay(false, 0, 0, 0, 0);
      statusChanged := false;
      cfg0, env0, h := c, e, [];
      new;
      hide Configure, Create, Max, After;
      Begin(c, e);
      Newborn(disc, c, e);
    }

    method Begin(c: Cfg, e: Env)
      requires View() == Blank(disc)
      modifies this`cpathDown, this`state, this`diag, this`flags, this`rmt, this`rates, this`nextTx, this`fwd, this`decay, this`statusChanged
      ensures View() == Configure(Create(disc, e), c, e)
    {
      hide SetState, Configure, Above, Blank;
      ChangeState(Down, NoDiag, e);
      Apply(c, e);
    }

    /** Whatever happened, the session is as the standard wants it. */
    lemma Sound()
      requires Valid()
      ensures Inv(View())
    {
      AfterInv(disc, cfg0, env0, h);
    }

    ghost method Note(ev: Event, e: Env, s: Session)
      requires s == After(disc, cfg0, env0, h) && View() == Step(s, ev, e)
      modifies this`h
      ensures Valid() && h == old(h) + [(ev, e)]
    {
      hide Step, After;
      AfterNext(disc, cfg0, env0, h, ev, e);
      h := h + [(ev, e)];
    }

    method UpdateDecay(e: Env)
      modifies this`decay
      ensures decay == DecayUpdate(old(decay), e)
    {
      decay := decay.(rxPackets := e.rx);
      decay := decay.(rxCtl := 0);
      decay := decay.(detectTime := Max(decay.minRx, 2000) + e.now);
    }

    /** What bfd_set_state resets in a session that is not above Down. */
    method ForgetPeer()
      modifies this`rmt, this`rates, this`decay
      ensures rmt == NOBODY && decay == old(decay).(on := false)
      ensures rates == if old(decay).on then old(rates).(minRx := old(rates).cfgMinRx) else old(rates)
    {
      rmt := Remote(Down, NoDiag, NO_FLAGS, 0, 1, 0);
      if decay.on {
        rates := rates.(minRx := rates.cfgMinRx);
        decay := decay.(on := false);
      }
    }

    /** bfd_set_state. */
    method ChangeState(st: State, diag0: Diag, e: Env)
      modifies this`state, this`diag, this`rmt, this`rates, this`decay, this`statusChanged
      ensures View() == SetState(old(View()), st, diag0, e)
    {
      hide DecayUpdate;
      var d := if cpathDown then CpathDown else diag0;
      if state != st || diag != d {
        state := st;
        diag := d;
        if !Above(state) {
          ForgetPeer();
        }
        if state == Up && decay.minRx != 0 {
          UpdateDecay(e);
        }
        statusChanged := true;
      }
    }

    /** bfd_forwarding__. */
    method UpdateForwarding(e: Env) returns (r: bool)
      modifies this`fwd, this`statusChanged
      ensures View() == Forwarding(old(View()), e)
      ensures r == if fwd.override.Forced? then fwd.override.value else Verdict(View(), e.now)
    {
      var last := fwd.last;
      if fwd.override.Forced? {
        return fwd.override.value;
      }
      var ifRx := fwd.ifRx && fwd.ifRxDetectTime > e.now && fwd.demandTime > e.now;
      fwd := fwd.(last := (state == Up || ifRx) && rmt.diag != PathDown && rmt.diag != CpathDown && rmt.diag != RcpathDown);
      if fwd.last != last {
        fwd := fwd.(flaps := (fwd.flaps + 1) % U64);
        statusChanged := true;
      }
      r := fwd.last;
    }

    /** bfd_forwarding: the verdict, which without an override needs a peer
        that reports no failure; the number of flaps tells it too. */
    method Query(e: Env) returns (r: bool)
      requires Valid()
      modifies this`fwd, this`statusChanged, this`h
      ensures Valid() && h == old(h) + [(Queried, e)]
      ensures fwd.override.Forced? ==> r == fwd.override.value && fwd == old(fwd)
      ensures fwd.override == Normal ==> r == fwd.last
      ensures fwd.override == Normal ==>
                (r <==> && (state == Up || (fwd.ifRx && e.now < fwd.ifRxDetectTime && e.now < fwd.demandTime))
                        && rmt.diag !in {PathDown, CpathDown, RcpathDown})
      ensures fwd.last <==> fwd.flaps % 2 == 1
      ensures fwd.flaps == old(fwd.flaps) <==> fwd.last == old(fwd.last)
    {
      hide After, Inv, Forwarding;
      ghost var s := View();
      Sound();
      r := UpdateForwarding(e);
      Note(Queried, e, s);
      Flapped(s, e);
    }

    method UpdateForwardingIfRx(e: Env)
      modifies this`fwd
      ensures View() == ForwardingIfRxUpdate(old(View()), e)
    {
      fwd := fwd.(ifRxDetectTime := Max(DetectSpan(rates.minRx, rmt.minTx, mult), 2000) + e.now);
    }

    /** bfd_poll. */
    method StartPoll()
      modifies this`rates, this`flags, this`nextTx
      ensures View() == Poll(old(View()))
    {
      if Above(state) && !flags.poll && !flags.final {
        rates := rates.(pollMinTx := rates.cfgMinTx);
        rates := rates.(pollMinRx := if decay.on then decay.minRx else rates.cfgMinRx);
        flags := flags.(poll := true);
        nextTx := 0;
      }
    }

    /** bfd_run.  A session that stays above Down heard its peer within the
        detection time of the last packet it heard; one that did not is Down
        and knows no peer; and above Down, intervals that are configured but
        not in effect are being negotiated. */
    method RunOnce(e: Env)
      requires Valid()
      modifies this
      ensures Valid() && h == old(h) + [(Ran, e)] && cfg0 == old(cfg0) && env0 == old(env0)
      ensures Above(state) ==> exists i :: LastHeard(disc, cfg0, env0, old(h), i) && e.now < DeadlineOf(disc, cfg0, env0, old(h), i)
      ensures Above(old(state)) && e.now >= old(detectTime) ==> state == Down && rmt == Remote(Down, NoDiag, NO_FLAGS, 0, 1, 0) && diag == (if cpathDown then CpathDown else Expired)
      ensures Above(old(state)) && e.now < old(detectTime) ==> state == old(state) && rmt == old(rmt)
      ensures Above(state) && rates.minTx != rates.cfgMinTx ==> flags.poll || flags.final
      ensures RanFor(old(View()), View(), e)
    {
      hide Run, After, LastHeard, DeadlineOf, Above, RanFor;
      ghost var s := View();
      Tick(e);
      RunMeans(s, e);
      RunDetails(s, e);
      Note(Ran, e, s);
      if Above(state) {
        ghost var i := Detection(disc, cfg0, env0, old(h), e);
      }
    }

    method Tick(e: Env)
      modifies this`state, this`diag, this`flags, this`rmt, this`rates, this`nextTx, this`fwd, this`decay, this`statusChanged
      ensures View() == Run(old(View()), e)
    {
      hide SetState, Forwarding, Poll, Max;
      var oldInDecay := decay.on;
      if Above(state) && e.now >= detectTime {
        ChangeState(Down, Expired, e);
      }
      var _ := UpdateForwarding(e);
      if state == Up && decay.minRx > 0 && e.now >= decay.detectTime {
        decay := decay.(on := e.rx - decay.rxPackets <= 2 * Max(decay.rxCtl, 1));
        UpdateDecay(e);
      }
      if rates.minTx != rates.cfgMinTx || (rates.minRx != rates.cfgMinRx && rates.minRx != decay.minRx) || decay.on != oldInDecay {
        StartPoll();
      }
    }

    /** bfd_put_packet; the assertion is the source's own. */
    method PutPacket(e: Env) returns (m: Msg)
      requires Valid()
      modifies this`flags, this`lastTx, this`nextTx, this`h
      ensures Valid() && h == old(h) + [(SentPacket, e)]
      ensures !(m.flags.poll && m.flags.final) && m.state == state != AdminDown && m.myDisc == disc && m.yourDisc == rmt.disc
      ensures Above(m.state) ==> m.yourDisc != 0
      ensures m == MsgOf(old(View())) && !flags.final && flags.poll == old(flags).poll && lastTx == e.now
      ensures m.version == 1 && m.length == 24 && m.mult == 3 && m.diag == diag && m.flags == old(flags)
      ensures Small(rates) && flags.poll ==> m.minTx == 1000 * rates.pollMinTx && m.minRx == 1000 * rates.pollMinRx
      ensures Small(rates) && !flags.poll ==>
                && m.minRx == 1000 * rates.minRx && (state == Up ==> m.minTx == 1000 * rates.minTx)
                && (state != Up ==> m.minTx >= 1000000 && m.minTx >= 1000 * rates.minTx)
      ensures var interval := TxInterval(state, rates.minTx, rmt.minRx);
              interval >= 100 && 4 * e.now + 3 * interval <= 4 * nextTx <= 4 * (e.now + interval)
    {
      hide NextTx, After;
      ghost var s := View();
      Sound();
      MsgIntervals(s);
      assert !flags.poll || !flags.final;
      var tx, rx;
      if flags.poll {
        tx, rx := rates.pollMinTx, rates.pollMinRx;
      } else {
        tx, rx := MinTx(state, rates.minTx), rates.minRx;
      }
      m := Msg(BFD_VERSION, diag, state, flags, mult, BFD_PACKET_LEN, disc, rmt.disc, tx * 1000 % U32, rx * 1000 % U32);
      flags := flags.(final := false);
      lastTx := e.now;
      nextTx := NextTx(lastTx, TxInterval(state, rates.minTx, rmt.minRx), e.jitter);
      Note(SentPacket, e, s);
    }

    /** The Poll and Final bits of an accepted packet. */
    method RecordPoll(f: Flags)
      modifies this`rates, this`flags
      ensures var ended := f.final && old(flags).poll;
              && rates == (if ended then old(rates).(minTx := old(rates).pollMinTx, minRx := old(rates).pollMinRx) else old(rates))
              && flags == old(flags).(poll := old(flags).poll && !ended && !f.poll, final := old(flags).final || f.poll)
    {
      if f.final && flags.poll {
        rates := rates.(minTx := rates.pollMinTx, minRx := rates.pollMinRx);
        flags := flags.(poll := false);
      }
      if f.poll {
        flags := flags.(poll := false);
        flags := flags.(final := true);
      }
    }

    /** The intervals of an accepted packet. */
    method RecordIntervals(minRx: int, minTx: int, e: Env)
      modifies this`rmt, this`nextTx, this`detectTime
      ensures rmt == old(rmt).(minRx := minRx, minTx := minTx)
      ensures nextTx == if old(rmt).minRx != minRx && old(nextTx) != 0
                        then NextTx(lastTx, TxInterval(state, rates.minTx, minRx), e.jitter) else old(nextTx)
      ensures detectTime == DetectSpan(rates.minRx, minTx, mult) + e.now
    {
      hide NextTx, TxInterval, DetectSpan;
      if rmt.minRx != minRx {
        rmt := rmt.(minRx := minRx);
        if nextTx != 0 {
          nextTx := NextTx(lastTx, TxInterval(state, rates.minTx, rmt.minRx), e.jitter);
        }
      }
      rmt := rmt.(minTx := minTx);
      detectTime := DetectSpan(rates.minRx, rmt.minTx, mult) + e.now;
    }

    /** Recording an accepted packet. */
    method Record(m: Msg, e: Env)
      modifies this`rmt, this`rates, this`flags, this`nextTx, this`detectTime, this`statusChanged
      ensures View() == Learn(old(View()), m, e)
    {
      hide NextTx, Max, TxInterval, DetectSpan;
      if rmt.state != m.state {
        statusChanged := true;
      }
      rmt := rmt.(disc := m.myDisc, state := m.state, flags := m.flags, diag := m.diag);
      RecordPoll(m.flags);
      RecordIntervals(Max(m.minRx / 1000, 1), Max(m.minTx / 1000, 1), e);
    }

    /** The state machine; the last case is the source's unreachable one. */
    method React(st: State, e: Env)
      requires state != AdminDown
      modifies this`state, this`diag, this`rmt, this`rates, this`decay, this`statusChanged
      ensures View() == Transition(old(View()), st, e)
    {
      hide SetState;
      if st == AdminDown {
        if state != Down {
          ChangeState(Down, RmtDown, e);
        }
      } else {
        match state
        case Down =>
          if st == Down {
            ChangeState(Init, diag, e);
          } else if st == Init {
            ChangeState(Up, diag, e);
          }
        case Init =>
          if Above(st) {
            ChangeState(Up, diag, e);
          }
        case Up =>
          if !Above(st) {
            ChangeState(Down, RmtDown, e);
          }
        case AdminDown =>
          assert false;
      }
    }

    /** bfd_process_packet.  A packet that fails validation changes nothing that
        counts.  One that passes sets the detection time; its Poll is going
        to be answered, its Final ends a poll sequence; a session it leaves
        above Down knows its sender, and comes up only if that is above Down. */
    method ProcessPacket(ttl: nat, p: Payload, e: Env)
      requires Valid()
      modifies this
      ensures Valid() && h == old(h) + [(Received(ttl, p), e)] && cfg0 == old(cfg0) && env0 == old(env0)
      ensures !(p.Full? && Accepts(old(View()), ttl, p.msg)) ==>
                state == old(state) && rmt == old(rmt) && rates == old(rates) && flags == old(flags) && detectTime == old(detectTime) && nextTx == old(nextTx)
      ensures p.Full? && Accepts(old(View()), ttl, p.msg) ==>
                && detectTime == Deadline(old(View()), p.msg, e)
                && flags.final == (old(flags).final || p.msg.flags.poll)
                && flags.poll == (old(flags).poll && !p.msg.flags.final && !p.msg.flags.poll)
                && (Above(state) && !(p.msg.flags.final && old(flags).poll) ==> rates == old(rates))
                && (Above(state) ==> p.msg.state != AdminDown && Heeds(rmt, p.msg))
                && (state == Up ==> Above(p.msg.state))
                && (old(rmt).minRx == Max(p.msg.minRx / 1000, 1) || old(nextTx) == 0 ==> nextTx == old(nextTx))
                && (old(rmt).minRx != Max(p.msg.minRx / 1000, 1) && old(nextTx) != 0 ==> OnTime(old(View()), View(), p.msg))
                && (Above(old(state)) && state == Down ==> diag == if cpathDown then CpathDown else RmtDown)
                && (fwd.ifRx ==> fwd.demandTime == e.now + 100 * rates.cfgMinRx)
      ensures state == Up && old(state) != Up && decay.minRx != 0 ==> decay == Fresher(old(decay), e)
      ensures state == old(state) && !p.NoUdp? ==> decay == old(decay).(rxCtl := old(decay).rxCtl + 1)
    {
      hide Receive, Fresher, Accepts, After, Deadline, Inv, Above;
      ghost var s := View();
      Sound();
      ReceiveMeans(s, ttl, p, e);
      Handle(ttl, p, e);
      Note(Received(ttl, p), e, s);
    }

    method Handle(ttl: nat, p: Payload, e: Env)
      modifies this`state, this`diag, this`flags, this`rmt, this`rates, this`nextTx, this`detectTime, this`fwd, this`decay, this`statusChanged
      ensures View() == Receive(old(View()), ttl, p, e)
    {
      hide Learn, Transition, Forwarding, Accepts;
      if p.NoUdp? {
        return;
      }
      decay := decay.(rxCtl := decay.rxCtl + 1);
      var _ := UpdateForwarding(e);
      SameDisc(old(View()), View(), ttl, p);
      if p.Full? && Accepts(View(), ttl, p.msg) {
        Record(p.msg, e);
        if state != AdminDown {
          React(p.msg.state, e);
          if fwd.ifRx {
            fwd := fwd.(demandTime := e.now + 100 * rates.cfgMinRx);
          }
        }
      }
      var _ := UpdateForwarding(e);
    }

    method NewRates(c: Cfg)
      modifies this`rates
      ensures rates == ConfigureRates(old(View()), c.minTx, c.minRx)
    {
      hide Max;
      var tx := Max(c.minTx, 100);
      if rates.cfgMinTx != tx {
        rates := rates.(cfgMinTx := tx);
        if state != Up || (!flags.poll && rates.cfgMinTx < rates.minTx) {
          rates := rates.(minTx := rates.cfgMinTx);
        }
      }
      var rx := Max(c.minRx, 100);
      if rates.cfgMinRx != rx {
        rates := rates.(cfgMinRx := rx);
        if state != Up || (!flags.poll && rates.cfgMinRx > rates.minRx) {
          rates := rates.(minRx := rates.cfgMinRx);
        }
      }
    }

    method NewDecay(c: Cfg, rxChanged: bool, e: Env)
      modifies this`decay
      ensures decay == ConfigureDecay(old(decay), c.decayMinRx, rates.cfgMinRx, rxChanged, e)
    {
      if decay.minRx != c.decayMinRx || rxChanged {
        decay := decay.(minRx := if 0 < c.decayMinRx < rates.cfgMinRx then 0 else c.decayMinRx);
        decay := decay.(on := false);
        UpdateDecay(e);
      }
    }

    /** bfd_configure on an existing, enabled session.  Its state, its peer's
        and the deadline stay; while it is Up it may at once send faster or
        ask for less, never the other way round (section 6.8.3). */
    method Reconfigure(c: Cfg, e: Env)
      requires Valid()
      modifies this
      ensures Valid() && h == old(h) + [(Configured(c), e)] && cfg0 == old(cfg0) && env0 == old(env0)
      ensures state == old(state) && detectTime == old(detectTime) && (Above(state) ==> rmt == old(rmt))
      ensures rates.cfgMinTx == Max(c.minTx, 100) && rates.cfgMinRx == Max(c.minRx, 100)
      ensures state == Up ==> rates.minTx <= old(rates.minTx) && rates.minRx >= old(rates.minRx)
      ensures Above(state) && NewTerms(old(View()), c) ==> flags.poll || flags.final
      ensures ConfiguredTo(old(View()), View(), c, e)
    {
      hide Configure, After, ConfiguredTo;
      ghost var s := View();
      Apply(c, e);
      ConfigureMeans(s, c, e);
      ConfigureDetails(s, c, e);
      Note(Configured(c), e, s);
    }

    method Apply(c: Cfg, e: Env)
      modifies this`cpathDown, this`state, this`diag, this`flags, this`rmt, this`rates, this`nextTx, this`fwd, this`decay, this`statusChanged
      ensures View() == Configure(old(View()), c, e)
    {
      hide Poll, ConfigureRates, ConfigureDecay, ConfigureCpath, ConfigureIfRx;
      var tx, rx := rates.cfgMinTx, rates.cfgMinRx;
      NewRates(c);
      var rxChanged := rates.cfgMinRx != rx;
      var needPoll := rates.cfgMinTx != tx || rxChanged || decay.minRx != c.decayMinRx || cpathDown != c.cpathDown;
      NewDecay(c, rxChanged, e);
      ReconfigureRest(c, e);
      if needPoll {
        StartPoll();
      }
    }

    method ReconfigureRest(c: Cfg, e: Env)
      modifies this`cpathDown, this`state, this`diag, this`rmt, this`rates, this`fwd, this`decay, this`statusChanged
      ensures View() == ConfigureIfRx(ConfigureCpath(old(View()), c.cpathDown, e), c.forwardingIfRx, e)
    {
      hide SetState, Max, DetectSpan;
      if cpathDown != c.cpathDown {
        cpathDown := c.cpathDown;
        ChangeState(state, NoDiag, e);
      }
      if fwd.ifRx != c.forwardingIfRx {
        fwd := fwd.(ifRx := c.forwardingIfRx);
        if state == Up && fwd.ifRx {
          UpdateForwardingIfRx(e);
        } else {
          fwd := fwd.(ifRxDetectTime := 0);
        }
      }
    }

    /** bfd_account_rx. */
    method AccountRx(packets: nat, e: Env)
      requires Valid()
      modifies this`fwd, this`statusChanged, this`h
      ensures Valid() && h == old(h) + [(Accounted(packets), e)]
      ensures packets > 0 && fwd.ifRx ==> fwd.ifRxDetectTime == e.now + Max(mult * Max(rates.minRx, rmt.minTx), 2000)
      ensures packets == 0 || !fwd.ifRx ==> fwd == old(fwd)
      ensures fwd.last <==> fwd.flaps % 2 == 1
    {
      hide Forwarding, After, Inv;
      ghost var s := View();
      if packets != 0 && fwd.ifRx {
        var _ := UpdateForwarding(e);
        UpdateForwardingIfRx(e);
        var _ := UpdateForwarding(e);
      }
      Note(Accounted(packets), e, s);
      AccountMeans(s, packets, e);
      Sound();
      FlapParity(View());
    }

    /** bfd_set_netdev, when the device changes. */
    method SetDevice(e: Env)
      requires Valid()
      modifies this`fwd, this`decay, this`h
      ensures Valid() && h == old(h) + [(NetdevChanged, e)]
      ensures decay == if state == Up && old(decay).minRx != 0 then Fresher(old(decay), e) else old(decay)
      ensures fwd == if state == Up && old(fwd).ifRx
                     then old(fwd).(ifRxDetectTime := e.now + Max(mult * Max(rates.minRx, rmt.minTx), 2000)) else old(fwd)
    {
      hide After, Max;
      ghost var s := View();
      if decay.minRx != 0 && state == Up {
        UpdateDecay(e);
      }
      if fwd.ifRx && state == Up {
        UpdateForwardingIfRx(e);
      }
      Note(NetdevChanged, e, s);
    }

    /** bfd_unixctl_set_forwarding_override. */
    method SetOverride(o: Override, e: Env)
      requires Valid()
      modifies this`fwd, this`statusChanged, this`h
      ensures Valid() && h == old(h) + [(Overridden(o), e)] && fwd.override == o && fwd.flaps == old(fwd).flaps
    {
      hide After;
      ghost var s := View();
      fwd := fwd.(override := o);
      statusChanged := true;
      Note(Overridden(o), e, s);
    }

    /** bfd_check_status_change. */
    method CheckStatusChange(e: Env) returns (r: bool)
      requires Valid()
      modifies this`statusChanged, this`h
      ensures Valid() && h == old(h) + [(StatusRead, e)] && r == old(statusChanged) && !statusChanged
    {
      hide After;
      ghost var s := View();
      r := statusChanged;
      statusChanged := false;
      Note(StatusRead, e, s);
    }
  }

  // ------------------------------------------------ what the operations mean

  lemma Newborn(disc: nat, c: Cfg, e: Env)
    ensures var s := Configure(Create(disc, e), c, e);
            && s == After(disc, c, e, [])
            && s.disc == disc && s.state == Down && s.rmt.disc == 0 && !s.flags.poll && !s.flags.final && !s.fwd.last
            && s.rates.cfgMinTx >= 100 && s.rates.cfgMinRx >= 100
  {
    hide Configure, Create;
    CreateMeans(disc, e);
    ConfigureMeans(Create(disc, e), c, e);
  }

  lemma CreateMeans(disc: nat, e: Env)
    ensures var s := Create(disc, e);
            s.disc == disc && s.state == Down && s.rmt.disc == 0 && s.flags == NO_FLAGS && !s.fwd.last
  {
  }

  /** A new period of watching the traffic. */
  function Fresher(d: Decay, e: Env): Decay {
    Decay(d.on, d.minRx, 0, e.rx, e.now + Max(d.minRx, 2000))
  }

  /** The fields that a state change leaves, and the peer it forgets. */
  lemma SetStateMeans(s: Session, st: State, diag: Diag, e: Env)
    ensures var s' := SetState(s, st, diag, e);
            && s'.state == st && s'.diag == (if s.cpathDown then CpathDown else diag)
            && s'.disc == s.disc && s'.flags == s.flags && s'.fwd == s.fwd && s'.detectTime == s.detectTime && s'.cpathDown == s.cpathDown
            && s'.rates == s.rates.(minRx := s'.rates.minRx) && s'.nextTx == s.nextTx
            && (Above(st) ==> s'.rmt == s.rmt && s'.rates == s.rates)
            && (s'.rmt == s.rmt || s'.rmt == NOBODY) && (!Above(st) && s.state != st ==> s'.rmt == NOBODY)
            && s'.decay.minRx == s.decay.minRx && (s.state != Up && st == Up && s.decay.minRx != 0 ==> s'.decay == Fresher(s.decay, e))
  {
  }

  lemma ConfigureRatesMeans(s: Session, minTx: int, minRx: int)
    ensures var r := ConfigureRates(s, minTx, minRx);
            && r.cfgMinTx == Max(minTx, 100) && r.cfgMinRx == Max(minRx, 100)
            && r.cfgMinTx >= 100 && r.cfgMinRx >= 100
            && (s.state == Up ==> r.minTx <= s.rates.minTx && r.minRx >= s.rates.minRx)
  {
  }

  lemma CpathMeans(s: Session, cpathDown: bool, e: Env)
    ensures var s' := ConfigureCpath(s, cpathDown, e);
            && s'.disc == s.disc && s'.state == s.state && s'.detectTime == s.detectTime && s'.flags == s.flags && s'.fwd == s.fwd
            && s'.rates == s.rates.(minRx := s'.rates.minRx) && (s'.rmt == s.rmt || s'.rmt == NOBODY)
            && (Above(s.state) ==> s'.rmt == s.rmt && s'.rates == s.rates)
  {
    hide SetState;
    SetStateMeans(s.(cpathDown := cpathDown), s.state, NoDiag, e);
  }

  lemma IfRxMeans(s: Session, ifRx: bool, e: Env)
    ensures var s' := ConfigureIfRx(s, ifRx, e); s' == s.(fwd := s'.fwd) && s'.fwd.last == s.fwd.last
  {
    hide Max, DetectSpan;
  }

  lemma PollMeans(s: Session)
    ensures var s' := Poll(s);
            && s' == s.(rates := s'.rates, flags := s'.flags, nextTx := s'.nextTx)
            && s'.rates == s.rates.(pollMinTx := s'.rates.pollMinTx, pollMinRx := s'.rates.pollMinRx)
            && (!Above(s.state) ==> s' == s) && (Above(s.state) ==> s'.flags.poll || s'.flags.final)
  {
  }

  /** Something the peer has to be told of. */
  predicate NewTerms(s: Session, c: Cfg) {
    || Max(c.minTx, 100) != s.rates.cfgMinTx || Max(c.minRx, 100) != s.rates.cfgMinRx
    || c.decayMinRx != s.decay.minRx || c.cpathDown != s.cpathDown
  }

  lemma ConfigureMeans(s: Session, c: Cfg, e: Env)
    ensures var s' := Configure(s, c, e);
            && s'.disc == s.disc && s'.state == s.state && s'.detectTime == s.detectTime && s'.fwd.last == s.fwd.last
            && (s'.rmt == s.rmt || s'.rmt == NOBODY) && (Above(s.state) ==> s'.rmt == s.rmt) && (!Above(s.state) ==> s'.flags == s.flags)
            && s'.rates.cfgMinTx == Max(c.minTx, 100) && s'.rates.cfgMinRx == Max(c.minRx, 100)
            && s'.rates.cfgMinTx >= 100 && s'.rates.cfgMinRx >= 100
            && (s.state == Up ==> s'.rates.minTx <= s.rates.minTx && s'.rates.minRx >= s.rates.minRx)
            && (Above(s.state) && NewTerms(s, c) ==> s'.flags.poll || s'.flags.final)
  {
    hide Max, ConfigureRates, ConfigureDecay, ConfigureCpath, ConfigureIfRx, Poll;
    ConfigureRatesMeans(s, c.minTx, c.minRx);
    var rates := ConfigureRates(s, c.minTx, c.minRx);
    var s1 := s.(rates := rates, decay := ConfigureDecay(s.decay, c.decayMinRx, rates.cfgMinRx, s.rates.cfgMinRx != rates.cfgMinRx, e));
    CpathMeans(s1, c.cpathDown, e);
    var s2 := ConfigureCpath(s1, c.cpathDown, e);
    IfRxMeans(s2, c.forwardingIfRx, e);
    PollMeans(ConfigureIfRx(s2, c.forwardingIfRx, e));
  }

  lemma RunMeans(s: Session, e: Env)
    ensures var s' := Run(s, e);
            && (Above(s.state) && e.now >= s.detectTime ==>
                  s'.state == Down && s'.rmt == Remote(Down, NoDiag, NO_FLAGS, 0, 1, 0) && s'.diag == (if s'.cpathDown then CpathDown else Expired))
            && (Above(s.state) && e.now < s.detectTime ==> s'.state == s.state && s'.rmt == s.rmt)
            && (Above(s'.state) && s'.rates.minTx != s'.rates.cfgMinTx ==> s'.flags.poll || s'.flags.final)
  {
    hide SetState, Forwarding, Max;
    var s1 := if Above(s.state) && e.now >= s.detectTime then SetState(s, Down, Expired, e) else s;
    SetStateMeans(s, Down, Expired, e);
    ForwardingKeeps(s1, e);
  }

  /** A poll sequence begins with the configured intervals, or the slower one
      while decaying, and is sent at once.  Whether to decay is decided when
      due: exactly if hardly more came in than control packets. */
  ghost predicate RanFor(s: Session, s': Session, e: Env) {
    && (Above(s'.state) ==> (Wanting(s, s') ==> s'.flags.poll || s'.flags.final) && (!Wanting(s, s') ==> s'.flags == s.flags))
    && (s'.flags.poll && !s.flags.poll ==>
          && s'.rates.pollMinTx == s'.rates.cfgMinTx && s'.nextTx == 0
          && s'.rates.pollMinRx == if s'.decay.on then s'.decay.minRx else s'.rates.cfgMinRx)
    && (s'.decay.on != s.decay.on && s'.state == Up ==> s'.flags.poll || s'.flags.final)
    && (s.state == Up && e.now < s.detectTime ==>
          if s.decay.minRx > 0 && e.now >= s.decay.detectTime
          then s'.decay == Decay(e.rx - s.decay.rxPackets <= 2 * Max(s.decay.rxCtl, 1), s.decay.minRx, 0, e.rx, e.now + Max(s.decay.minRx, 2000))
          else s'.decay == s.decay)
  }

  /** Intervals in effect are not those configured, or decay began or ended. */
  predicate Wanting(s: Session, s': Session) {
    || s'.rates.minTx != s'.rates.cfgMinTx || s'.rates.minRx !in {s'.rates.cfgMinRx, s'.decay.minRx}
    || s'.decay.on != s.decay.on
  }

  lemma RunDetails(s: Session, e: Env)
    ensures RanFor(s, Run(s, e), e)
  {
    hide SetState, Forwarding, Max;
    var s1 := if Above(s.state) && e.now >= s.detectTime then SetState(s, Down, Expired, e) else s;
    SetStateMeans(s, Down, Expired, e);
    ForwardingKeeps(s1, e);
  }

  /** What a configuration sets, and what it brings into effect at once. */
  ghost predicate ConfiguredTo(s: Session, s': Session, c: Cfg, e: Env) {
    var tx, rx := Max(c.minTx, 100), Max(c.minRx, 100);
    && (s.state != Up && s.rates.cfgMinTx != tx ==> s'.rates.minTx == tx) && (s.state != Up && s.rates.cfgMinRx != rx ==> s'.rates.minRx == rx)
    && (s.state == Up && s.rates.cfgMinTx != tx && !s.flags.poll ==> s'.rates.minTx == if tx < s.rates.minTx then tx else s.rates.minTx)
    && (s.state == Up && s.rates.cfgMinRx != rx && !s.flags.poll ==> s'.rates.minRx == Max(rx, s.rates.minRx))
    && (s.rates.cfgMinTx == tx || (s.state == Up && s.flags.poll) ==> s'.rates.minTx == s.rates.minTx)
    && (s.decay.minRx == c.decayMinRx && s.rates.cfgMinRx == rx && Above(s.state) ==> s'.decay.minRx == s.decay.minRx)
    && (s.decay.minRx != c.decayMinRx || s.rates.cfgMinRx != rx ==> s'.decay.minRx == (if 0 < c.decayMinRx < rx then 0 else c.decayMinRx) && !s'.decay.on)
    && s'.cpathDown == c.cpathDown && (s.cpathDown != c.cpathDown ==> s'.diag == if c.cpathDown then CpathDown else NoDiag)
    && s'.fwd.ifRx == c.forwardingIfRx
    && (s.fwd.ifRx != c.forwardingIfRx && !(c.forwardingIfRx && s.state == Up) ==> s'.fwd.ifRxDetectTime == 0)
    && (!s.fwd.ifRx && c.forwardingIfRx && s.state == Up ==> s'.fwd.ifRxDetectTime == e.now + Max(s.mult * Max(s'.rates.minRx, s'.rmt.minTx), 2000))
  }

  lemma ConfigureDetails(s: Session, c: Cfg, e: Env)
    ensures ConfiguredTo(s, Configure(s, c, e), c, e)
  {
    hide Max, ConfigureRates, ConfigureDecay, ConfigureCpath, ConfigureIfRx, Poll;
    RatesDetails(s, c.minTx, c.minRx);
    var rates := ConfigureRates(s, c.minTx, c.minRx);
    var rxChanged := s.rates.cfgMinRx != rates.cfgMinRx;
    var s1 := s.(rates := rates, decay := ConfigureDecay(s.decay, c.decayMinRx, rates.cfgMinRx, rxChanged, e));
    DecayDetails(s.decay, c.decayMinRx, rates.cfgMinRx, rxChanged, e);
    CpathMeans(s1, c.cpathDown, e);
    CpathDetails(s1, c.cpathDown, e);
    var s2 := ConfigureCpath(s1, c.cpathDown, e);
    IfRxMeans(s2, c.forwardingIfRx, e);
    IfRxDetails(s2, c.forwardingIfRx, e);
    PollMeans(ConfigureIfRx(s2, c.forwardingIfRx, e));
  }

  lemma RatesDetails(s: Session, minTx: int, minRx: int)
    ensures var r, tx, rx := ConfigureRates(s, minTx, minRx), Max(minTx, 100), Max(minRx, 100);
            && r.cfgMinTx == tx && r.cfgMinRx == rx
            && (s.state != Up && s.rates.cfgMinTx != tx ==> r.minTx == tx) && (s.state != Up && s.rates.cfgMinRx != rx ==> r.minRx == rx)
            && (s.state == Up && s.rates.cfgMinTx != tx && !s.flags.poll ==> r.minTx == if tx < s.rates.minTx then tx else s.rates.minTx)
            && (s.state == Up && s.rates.cfgMinRx != rx && !s.flags.poll ==> r.minRx == Max(rx, s.rates.minRx))
            && (s.rates.cfgMinTx == tx || (s.state == Up && s.flags.poll) ==> r.minTx == s.rates.minTx)
  {
  }

  lemma DecayDetails(d: Decay, minRx: int, cfgMinRx: int, rxChanged: bool, e: Env)
    ensures var d' := ConfigureDecay(d, minRx, cfgMinRx, rxChanged, e);
            if d.minRx == minRx && !rxChanged then d' == d else d'.minRx == (if 0 < minRx < cfgMinRx then 0 else minRx) && !d'.on
  {
  }

  lemma CpathDetails(s: Session, cpathDown: bool, e: Env)
    ensures var s' := ConfigureCpath(s, cpathDown, e);
            && s'.cpathDown == cpathDown && (s.cpathDown != cpathDown ==> s'.diag == if cpathDown then CpathDown else NoDiag)
            && s'.decay.minRx == s.decay.minRx && (!s.decay.on ==> !s'.decay.on && s'.rates == s.rates) && s'.mult == s.mult
  {
  }

  lemma IfRxDetails(s: Session, ifRx: bool, e: Env)
    ensures var s' := ConfigureIfRx(s, ifRx, e);
            && s'.fwd.ifRx == ifRx && (s.fwd.ifRx != ifRx && !(ifRx && s.state == Up) ==> s'.fwd.ifRxDetectTime == 0)
            && (!s.fwd.ifRx && ifRx && s.state == Up ==> s'.fwd.ifRxDetectTime == e.now + Max(s.mult * Max(s.rates.minRx, s.rmt.minTx), 2000))
  {
    hide Max;
  }

  lemma ReceiveMeans(s: Session, ttl: nat, p: Payload, e: Env)
    requires Inv(s)
    ensures var s', heard := Receive(s, ttl, p, e), p.Full? && Accepts(s, ttl, p.msg);
            && (!heard ==> s'.state == s.state && s'.rmt == s.rmt && s'.rates == s.rates && s'.flags == s.flags
                           && s'.detectTime == s.detectTime && s'.nextTx == s.nextTx)
            && (heard ==>
                  && s'.detectTime == Deadline(s, p.msg, e)
                  && s'.flags.final == (s.flags.final || p.msg.flags.poll)
                  && s'.flags.poll == (s.flags.poll && !p.msg.flags.final && !p.msg.flags.poll)
                  && (Above(s'.state) && !(p.msg.flags.final && s.flags.poll) ==> s'.rates == s.rates)
                  && (Above(s'.state) ==> p.msg.state != AdminDown && Heeds(s'.rmt, p.msg))
                  && (s'.state == Up ==> Above(p.msg.state))
                  && (s.rmt.minRx == Max(p.msg.minRx / 1000, 1) || s.nextTx == 0 ==> s'.nextTx == s.nextTx)
                  && (s.rmt.minRx != Max(p.msg.minRx / 1000, 1) && s.nextTx != 0 ==> OnTime(s, s', p.msg))
                  && (Above(s.state) && s'.state == Down ==> s'.diag == if s'.cpathDown then CpathDown else RmtDown)
                  && (s'.fwd.ifRx ==> s'.fwd.demandTime == e.now + 100 * s'.rates.cfgMinRx))
            && (s'.state == Up && s.state != Up && s'.decay.minRx != 0 ==> s'.decay == Fresher(s.decay, e))
            && (s'.state == s.state && !p.NoUdp? ==> s'.decay == s.decay.(rxCtl := s.decay.rxCtl + 1))
  {
    hide Transition, Learn, Forwarding, Accepts, Inv, Deadline, Fresher, Heeds;
    var s0 := s.(decay := s.decay.(rxCtl := s.decay.rxCtl + 1));
    var s1 := Forwarding(s0, e);
    ForwardingKeeps(s0, e);
    if p.Full? && Accepts(s, ttl, p.msg) {
      HeardStep(s, Received(ttl, p), e);
      LearnMeans(s1, p.msg, e);
      if s.rmt.minRx != Max(p.msg.minRx / 1000, 1) && s.nextTx != 0 {
        LearnOnTime(s1, p.msg, e);
      }
      NotAdminDown(s);
      TransitionMeans(Learn(s1, p.msg, e), p.msg.state, e);
      FresherSame(s.decay, s.decay.rxCtl + 1, e);
      ForwardingKeeps(Accept(s1, p.msg, e), e);
    } else {
      ForwardingKeeps(s1, e);
    }
  }

  lemma FresherSame(d: Decay, n: int, e: Env)
    ensures Fresher(d.(rxCtl := n), e) == Fresher(d, e)
  {
  }

  lemma NotAdminDown(s: Session)
    requires Inv(s)
    ensures s.state != AdminDown
  {
  }

  /** All that a packet says of its sender. */
  predicate Heeds(r: Remote, m: Msg) {
    && r.state == m.state && r.diag == m.diag && r.flags == m.flags && r.disc == m.myDisc
    && r.minRx == Max(m.minRx / 1000, 1) && r.minTx == Max(m.minTx / 1000, 1)
  }

  /** The next transmission keeps to what the peer is now willing to receive. */
  ghost predicate OnTime(s: Session, s': Session, m: Msg) {
    var minTx := if m.flags.final && s.flags.poll then s.rates.pollMinTx else s.rates.minTx;
    var interval := Max(if s.state == Up then minTx else Max(minTx, 1000), Max(m.minRx / 1000, 1));
    4 * s.lastTx + 3 * interval <= 4 * s'.nextTx <= 4 * (s.lastTx + interval)
  }

  lemma LearnOnTime(s: Session, m: Msg, e: Env)
    requires s.rmt.minRx != Max(m.minRx / 1000, 1) && s.nextTx != 0
    ensures OnTime(s, Learn(s, m, e), m)
  {
    hide NextTx, DetectSpan;
  }

  lemma LearnMeans(s: Session, m: Msg, e: Env)
    ensures var s' := Learn(s, m, e);
            && s'.state == s.state && Heeds(s'.rmt, m) && s'.decay == s.decay && s'.cpathDown == s.cpathDown && s'.flags.final == (s.flags.final || m.flags.poll)
            && (!(m.flags.final && s.flags.poll) ==> s'.rates == s.rates)
            && (s.rmt.minRx == Max(m.minRx / 1000, 1) || s.nextTx == 0 ==> s'.nextTx == s.nextTx)
            && s'.flags.poll == (s.flags.poll && !m.flags.final && !m.flags.poll)
  {
    hide NextTx, DetectSpan, TxInterval, Max;
  }

  /** Up is reached and kept only against a peer above Down, and a peer in
      AdminDown takes any session Down. */
  lemma TransitionMeans(s: Session, st: State, e: Env)
    requires s.state != AdminDown
    ensures var s' := Transition(s, st, e);
            && s'.state != AdminDown && s'.flags == s.flags && s'.nextTx == s.nextTx && (st == AdminDown ==> s'.state == Down)
            && (s'.state == Up ==> Above(st)) && (Above(s'.state) ==> s'.rmt == s.rmt && s'.rates == s.rates) && s'.cpathDown == s.cpathDown
            && (Above(s.state) && s'.state == Down ==> s'.diag == if s.cpathDown then CpathDown else RmtDown)
            && s'.decay.minRx == s.decay.minRx && (s'.state == s.state ==> s'.decay == s.decay)
            && (s.state != Up && s'.state == Up && s.decay.minRx != 0 ==> s'.decay == Fresher(s.decay, e))
            && (Above(s.state) && Above(st) ==> s'.state == Up)
  {
    hide SetState;
    SetStateMeans(s, Down, RmtDown, e);
    SetStateMeans(s, Init, s.diag, e);
    SetStateMeans(s, Up, s.diag, e);
  }

  lemma Flapped(s: Session, e: Env)
    requires Inv(s)
    ensures var s' := Forwarding(s, e);
            && FlapsOk(s'.fwd) && (s'.fwd.flaps == s.fwd.flaps <==> s'.fwd.last == s.fwd.last)
            && s'.fwd.override == s.fwd.override && Verdict(s', e.now) == Verdict(s, e.now)
            && (s.fwd.override == Normal ==> s'.fwd.last == Verdict(s, e.now)) && (s.fwd.override != Normal ==> s' == s)
  {
    ForwardingInv(s, e);
  }

  lemma AccountMeans(s: Session, packets: nat, e: Env)
    ensures var s' := AccountRx(s, packets, e);
            && s'.fwd.ifRx == s.fwd.ifRx && (packets == 0 || !s.fwd.ifRx ==> s' == s)
            && (packets > 0 && s.fwd.ifRx ==> s'.fwd.ifRxDetectTime == e.now + Max(s.mult * Max(s.rates.minRx, s.rmt.minTx), 2000))
  {
    hide Forwarding, Max;
    ForwardingKeeps(s, e);
    ForwardingKeeps(ForwardingIfRxUpdate(Forwarding(s, e), e), e);
  }

  lemma FlapParity(s: Session)
    requires Inv(s)
    ensures s.fwd.last <==> s.fwd.flaps % 2 == 1
  {
  }

  lemma SameDisc(s: Session, s': Session, ttl: nat, p: Payload)
    requires s.disc == s'.disc
    ensures p.Full? ==> Accepts(s, ttl, p.msg) == Accepts(s', ttl, p.msg)
  {
  }
}
