/** What executing a list of actions looks like from outside: which packets go
    to which ports and to user space, which numbers are drawn and which keys
    are looked up, in which order, whatever the lists entered on the way do. */
module ActionTrace {
  import opened Options
  import opened ActionModel

  /** The events a list itself causes, as opposed to what comes of a lookup. */
  predicate Own(e: Event) {
    e.Emitted? || e.Upcalled? || e.Sampled? || e.Asked?
  }

  /** Those of the lists at one depth. */
  function Direct(evs: seq<Event>, d: nat): seq<Event> {
    if evs == [] then [] else
    var e := evs[|evs| - 1];
    Direct(evs[..|evs| - 1], d) + if Own(e) && e.depth == d then [e] else []
  }

  function Since(w: World, w': World): seq<Event>
    requires w.log <= w'.log
  {
    w'.log[|w.log|..]
  }

  ghost predicate Deep(evs: seq<Event>, d: nat) {
    forall i :: 0 <= i < |evs| && Own(evs[i]) ==> evs[i].depth >= d
  }

  lemma {:induction false} DirectAppend(a: seq<Event>, b: seq<Event>, d: nat)
    ensures Direct(a + b, d) == Direct(a, d) + Direct(b, d)
    decreases |b|
  {
    if b == [] {
      assert a + b == a;
    } else {
      var n := |b| - 1;
      DirectAppend(a, b[..n], d);
      assert (a + b)[..|a + b| - 1] == a + b[..n];
    }
  }

  lemma {:induction false} NoneDirect(evs: seq<Event>, d: nat)
    requires Deep(evs, d + 1)
    ensures Direct(evs, d) == []
  {
    if evs != [] {
      NoneDirect(evs[..|evs| - 1], d);
    }
  }

  lemma DirectOne(e: Event, d: nat)
    ensures Direct([e], d) == if Own(e) && e.depth == d then [e] else []
  {
    assert [e][..0] == [];
  }

  lemma SinceTrans(a: World, b: World, c: World)
    requires a.log <= b.log <= c.log
    ensures Since(a, c) == Since(a, b) + Since(b, c)
  {
  }

  /** The events of two stretches, one after the other. */
  lemma DirectTrans(a: World, b: World, c: World, d: nat, rest: seq<Event>)
    requires a.log <= b.log <= c.log
    ensures Direct(Since(a, c), d) + rest == Direct(Since(a, b), d) + (Direct(Since(b, c), d) + rest)
  {
    hide Direct, Since;
    SinceTrans(a, b, c);
    DirectAppend(Since(a, b), Since(b, c), d);
    Assoc(Direct(Since(a, b), d), Direct(Since(b, c), d), rest);
  }

  lemma Assoc(x: seq<Event>, y: seq<Event>, z: seq<Event>)
    ensures x + y + z == x + (y + z)
  {
  }

  lemma DeepAppend(a: seq<Event>, b: seq<Event>, d: nat)
    requires Deep(a, d) && Deep(b, d)
    ensures Deep(a + b, d)
  {
  }

  // ------------------------------------------------ lists entered on the way

  lemma {:induction false} ExecDeep(env: Env, w: World, pkt: Packet, hash: nat, acts: seq<Action>)
    requires Running(w)
    ensures Deep(Since(w, Exec(env, w, pkt, hash, acts).w), w.depth)
    decreases MAX_STACK_COST - w.cost, 2 * Size(acts) + 2
  {
    hide Deep, Since, Running;
    if acts == [] {
      Nothing(w);
    } else {
      var o := One(env, w, pkt, hash, acts[0]);
      OneDeep(env, w, pkt, hash, acts[0]);
      if !o.0.err {
        StillRunning(w, o.0.w);
        ExecDeep(env, o.0.w, o.1, o.0.hash, acts[1..]);
        var w2 := Exec(env, o.0.w, o.1, o.0.hash, acts[1..]).w;
        SinceTrans(w, o.0.w, w2);
        DeepAppend(Since(w, o.0.w), Since(o.0.w, w2), w.depth);
      }
    }
  }

  lemma StillRunning(w: World, w': World)
    requires Running(w) && Restored(w, w')
    ensures Running(w')
  {
  }

  lemma Nothing(w: World)
    ensures Since(w, w) == [] && Deep([], w.depth)
  {
  }

  lemma {:induction false} OneDeep(env: Env, w: World, pkt: Packet, hash: nat, a: Action)
    requires Running(w)
    ensures Deep(Since(w, One(env, w, pkt, hash, a).0.w), w.depth)
    decreases MAX_STACK_COST - w.cost, 2 * SizeOf(a) + 1
  {
    hide Deep, Exec, Process, Emit;
    Nothing(w);
    match a
    case Output(port) => EmitDeep(env, w, port, pkt);
    case Userspace(u) => LogDeep(w, Upcalled(w.depth, u, pkt, hash));
    case Recirc(id) =>
      if env.extract(pkt) {
        ProcessDeep(env, w, pkt, hash, id, true);
      }
    case Sample(prob, nested) =>
      LogDeep(w, Sampled(w.depth, env.random(w.draws)));
      var w1 := Draw(env, w);
      if env.random(w.draws) < prob {
        ExecDeep(env, w1, pkt, hash, nested);
        var w2 := Exec(env, w1, pkt, hash, nested).w;
        SinceTrans(w, w1, w2);
        DeepAppend(Since(w, w1), Since(w1, w2), w.depth);
      }
    case _ =>
  }

  lemma LogDeep(w: World, e: Event)
    requires e.depth == w.depth
    ensures Since(w, Log(w, e)) == [e] && Deep([e], w.depth)
  {
  }

  lemma {:induction false} EmitDeep(env: Env, w: World, port: nat, pkt: Packet)
    requires Running(w)
    ensures Deep(Since(w, Emit(env, w, port, pkt)), w.depth)
    decreases MAX_STACK_COST - w.cost, 2
  {
    hide Deep, Process;
    Nothing(w);
    var e := Emitted(w.depth, port, pkt);
    LogDeep(w, e);
    var w1, again := Log(w, e), env.reenter(port, pkt);
    if again.Some? && env.extract(again.value) {
      ProcessDeep(env, w1, again.value, 0, 0, false);
      var w2 := Process(env, w1, again.value, 0, 0, false);
      SinceTrans(w, w1, w2);
      DeepAppend(Since(w, w1), Since(w1, w2), w.depth);
    }
  }

  lemma {:induction false} ProcessDeep(env: Env, w: World, pkt: Packet, hash: nat, id: nat, recirc: bool)
    requires Running(w) || (w.cost == w.depth == 0 && !recirc)
    ensures var seg := Since(w, Process(env, w, pkt, hash, id, recirc));
            Deep(seg, w.depth) && seg != [] && seg[0] == Asked(w.depth, pkt, id, hash) && Deep(seg[1..], w.depth + 1)
    decreases MAX_STACK_COST - w.cost, 1
  {
    hide Execute;
    var w1, flow := Ask(w, pkt, id, hash), env.lookup(w.lookups, pkt, id, hash);
    if flow.Some? {
      ExecuteDeep(env, w1, flow.value, pkt, hash, recirc);
    }
  }

  lemma {:induction false} ExecuteDeep(env: Env, w: World, flow: nat, pkt: Packet, hash: nat, recirc: bool)
    requires Running(w) || (w.cost == w.depth == 0 && !recirc)
    ensures Deep(Since(w, Execute(env, w, flow, pkt, hash, recirc)), w.depth + 1)
    decreases MAX_STACK_COST - w.cost, 0
  {
    hide Exec;
    var cost := w.cost + CostOf(recirc);
    if !w.looping && cost <= MAX_STACK_COST {
      var w1 := Entered(w, cost, flow);
      ExecDeep(env, w1, pkt.(tunKey := None), hash, Actions(env, w, flow));
      SinceTrans(w, w1, Exec(env, w1, pkt.(tunKey := None), hash, Actions(env, w, flow)).w);
    }
  }

  // ------------------------------------------------ what a list prescribes

  /** Where the reading of the events got to. */
  datatype Trail = Trail(rest: seq<Event>, hash: nat, err: bool)

  function Take(evs: seq<Event>, e: Event): Option<seq<Event>> {
    if evs != [] && evs[0] == e then Some(evs[1..]) else None
  }

  /** Reads off the events that a list prescribes for a packet: an output hands
      the packet as it is then to the port, if there is one, and what the port
      hands back is looked up afresh; a recirculation looks it up with its
      identifier and the hash so far; a sample's list counts exactly if the
      number drawn is below the probability; an edit that fails ends it. */
  function Follow(env: Env, d: nat, pkt: Packet, hash: nat, acts: seq<Action>, evs: seq<Event>): Option<Trail>
    decreases Size(acts)
  {
    if acts == [] then Some(Trail(evs, hash, false)) else
    Sizes(acts);
    match acts[0]
    case Output(port) =>
      if !env.present(port) then Follow(env, d, pkt, hash, acts[1..], evs) else
      var sent, again := Take(evs, Emitted(d, port, pkt)), env.reenter(port, pkt);
      if sent.None? then None
      else if again.None? || !env.extract(again.value) then Follow(env, d, pkt, hash, acts[1..], sent.value)
      else
        var asked := Take(sent.value, Asked(d, again.value, 0, 0));
        if asked.None? then None else Follow(env, d, pkt, hash, acts[1..], asked.value)
    case Userspace(u) =>
      var told := Take(evs, Upcalled(d, u, pkt, hash));
      if told.None? then None else Follow(env, d, pkt, hash, acts[1..], told.value)
    case Hash(basis) =>
      var h := env.hash(pkt, basis);
      Follow(env, d, pkt, if h == 0 then 1 else h, acts[1..], evs)
    case Recirc(id) =>
      if !env.extract(pkt) then Some(Trail(evs, hash, true)) else
      var asked := Take(evs, Asked(d, pkt, id, hash));
      if asked.None? then None else Follow(env, d, pkt, hash, acts[1..], asked.value)
    case Sample(prob, nested) =>
      if evs == [] || !evs[0].Sampled? then None
      else if evs[0].draw >= prob then Follow(env, d, pkt, hash, acts[1..], evs[1..])
      else
        var inner := Follow(env, d, pkt, hash, nested, evs[1..]);
        if inner.None? || inner.value.err then inner
        else Follow(env, d, pkt, inner.value.hash, acts[1..], inner.value.rest)
    case a =>
      var edited := env.edit(a, pkt);
      if edited.None? then Some(Trail(evs, hash, true)) else Follow(env, d, edited.value, hash, acts[1..], evs)
  }

  /** The events of a list, read off completely. */
  ghost predicate Followed(env: Env, w: World, pkt: Packet, hash: nat, acts: seq<Action>, o: Outcome, rest: seq<Event>)
    requires w.log <= o.w.log
  {
    Follow(env, w.depth, pkt, hash, acts, Direct(Since(w, o.w), w.depth) + rest) == Some(Trail(rest, o.hash, o.err))
  }

  /** Whatever the list, the packet, the tables and the ports: the events are
      those the list prescribes, in its order, no more and no fewer, and so
      are the error and the hash it ends with. */
  lemma {:induction false} ExecFollowed(env: Env, w: World, pkt: Packet, hash: nat, acts: seq<Action>, rest: seq<Event>)
    requires Running(w)
    ensures Followed(env, w, pkt, hash, acts, Exec(env, w, pkt, hash, acts), rest)
    decreases Size(acts), 2
  {
    hide Direct, Since, One, Running, Size;
    Sizes(acts);
    if acts == [] {
      Nothing(w);
      DirectNothing(w.depth);
      assert [] + rest == rest;
    } else {
      var d, o := w.depth, One(env, w, pkt, hash, acts[0]);
      var evs := Direct(Since(w, o.0.w), d);
      if o.0.err {
        OneFollowed(env, w, pkt, hash, acts, rest);
      } else {
        StillRunning(w, o.0.w);
        var o2 := Exec(env, o.0.w, o.1, o.0.hash, acts[1..]);
        ExecFollowed(env, o.0.w, o.1, o.0.hash, acts[1..], rest);
        DirectTrans(w, o.0.w, o2.w, d, rest);
        var more := Direct(Since(o.0.w, o2.w), d) + rest;
        OneFollowed(env, w, pkt, hash, acts, more);
      }
    }
  }

  lemma Sizes(acts: seq<Action>)
    ensures acts != [] ==> Size(acts[1..]) < Size(acts) && (acts[0].Sample? ==> Size(acts[0].actions) < Size(acts))
  {
  }

  lemma DirectNothing(d: nat)
    ensures Direct([], d) == []
  {
  }

  /** The events of the first action of a list. */
  lemma {:induction false} OneFollowed(env: Env, w: World, pkt: Packet, hash: nat, acts: seq<Action>, rest: seq<Event>)
    requires Running(w) && acts != []
    ensures var o := One(env, w, pkt, hash, acts[0]);
            var read := Follow(env, w.depth, pkt, hash, acts, Direct(Since(w, o.0.w), w.depth) + rest);
            read == if o.0.err then Some(Trail(rest, o.0.hash, true)) else Follow(env, w.depth, o.1, o.0.hash, acts[1..], rest)
    decreases Size(acts), 1
  {
    hide Direct, Since, Exec, Process, Emit, Size, Take, Restored, Running;
    Nothing(w);
    DirectNothing(w.depth);
    assert [] + rest == rest;
    match acts[0]
    case Output(port) => EmitFollowed(env, w, port, pkt, rest);
    case Userspace(u) => FirstEvent(w, Upcalled(w.depth, u, pkt, hash), rest);
    case Recirc(id) =>
      if env.extract(pkt) {
        ProcessFirst(env, w, pkt, hash, id, true, rest);
      }
    case Sample(prob, nested) => SampleFollowed(env, w, pkt, hash, acts, rest);
    case _ =>
  }

  lemma FirstEvent(w: World, e: Event, rest: seq<Event>)
    requires e.depth == w.depth && Own(e)
    ensures Direct(Since(w, Log(w, e)), w.depth) + rest == [e] + rest && Take([e] + rest, e) == Some(rest)
  {
    LogDeep(w, e);
    DirectOne(e, w.depth);
  }

  /** A lookup is one event of the list, whatever comes of it. */
  lemma ProcessFirst(env: Env, w: World, pkt: Packet, hash: nat, id: nat, recirc: bool, rest: seq<Event>)
    requires Running(w)
    ensures var e := Asked(w.depth, pkt, id, hash);
            Direct(Since(w, Process(env, w, pkt, hash, id, recirc)), w.depth) + rest == [e] + rest && Take([e] + rest, e) == Some(rest)
  {
    hide Process, Direct, Since, Deep;
    var seg, e := Since(w, Process(env, w, pkt, hash, id, recirc)), Asked(w.depth, pkt, id, hash);
    ProcessDeep(env, w, pkt, hash, id, recirc);
    assert seg == [e] + seg[1..];
    DirectAppend([e], seg[1..], w.depth);
    DirectOne(e, w.depth);
    NoneDirect(seg[1..], w.depth);
  }

  lemma EmitFollowed(env: Env, w: World, port: nat, pkt: Packet, rest: seq<Event>)
    requires Running(w)
    ensures var evs, e := Direct(Since(w, Emit(env, w, port, pkt)), w.depth) + rest, Emitted(w.depth, port, pkt);
            var again := env.reenter(port, pkt);
            if !env.present(port) then evs == rest
            else if again.Some? && env.extract(again.value) then
              Take(evs, e).Some? && Take(Take(evs, e).value, Asked(w.depth, again.value, 0, 0)) == Some(rest)
            else Take(evs, e) == Some(rest)
  {
    hide Direct, Since, Process, Take;
    Nothing(w);
    DirectNothing(w.depth);
    assert [] + rest == rest;
    var e, again := Emitted(w.depth, port, pkt), env.reenter(port, pkt);
    FirstEvent(w, e, rest);
    if env.present(port) && again.Some? && env.extract(again.value) {
      var w1 := Log(w, e);
      var w2 := Process(env, w1, again.value, 0, 0, false);
      ProcessFirst(env, w1, again.value, 0, 0, false, rest);
      DirectTrans(w, w1, w2, w.depth, rest);
      FirstEvent(w, e, Direct(Since(w1, w2), w.depth) + rest);
    }
  }

  lemma {:induction false} SampleFollowed(env: Env, w: World, pkt: Packet, hash: nat, acts: seq<Action>, rest: seq<Event>)
    requires Running(w) && acts != [] && acts[0].Sample?
    ensures var o := One(env, w, pkt, hash, acts[0]).0;
            var read := Follow(env, w.depth, pkt, hash, acts, Direct(Since(w, o.w), w.depth) + rest);
            read == if o.err then Some(Trail(rest, o.hash, true)) else Follow(env, w.depth, pkt, o.hash, acts[1..], rest)
    decreases Size(acts), 0
  {
    hide Direct, Since, Exec, Size, Follow, Take;
    Sizes(acts);
    var e, w1, nested := Sampled(w.depth, env.random(w.draws)), Draw(env, w), acts[0].actions;
    FirstEvent(w, e, rest);
    assert Since(w, w1) == Since(w, Log(w, e)) by { SinceLog(w, w1, Log(w, e)); }
    if env.random(w.draws) < acts[0].probability {
      var o := Exec(env, w1, pkt, hash, nested);
      ExecFollowed(env, w1, pkt, hash, nested, rest);
      DirectTrans(w, w1, o.w, w.depth, rest);
      var more := Direct(Since(w1, o.w), w.depth) + rest;
      FirstEvent(w, e, more);
      SampleRead(env, w.depth, pkt, hash, acts, e.draw, more);
    } else {
      SampleRead(env, w.depth, pkt, hash, acts, e.draw, rest);
    }
  }

  lemma SampleRead(env: Env, d: nat, pkt: Packet, hash: nat, acts: seq<Action>, draw: nat, rest: seq<Event>)
    requires acts != [] && acts[0].Sample?
    ensures var read, inner := Follow(env, d, pkt, hash, acts, [Sampled(d, draw)] + rest), Follow(env, d, pkt, hash, acts[0].actions, rest);
            if draw >= acts[0].probability then read == Follow(env, d, pkt, hash, acts[1..], rest)
            else if inner.None? || inner.value.err then read == inner
            else read == Follow(env, d, pkt, inner.value.hash, acts[1..], inner.value.rest)
  {
    hide Size;
    assert ([Sampled(d, draw)] + rest)[1..] == rest;
  }

  lemma SinceLog(w: World, a: World, b: World)
    requires w.log <= a.log && a.log == b.log
    ensures Since(w, a) == Since(w, b)
  {
  }

  // ------------------------------------------------ a lookup

  /** A flow found too deep is cut off; otherwise its list begins, with the
      tunnel forgotten, and is followed. */
  ghost predicate Entering(env: Env, w: World, flow: nat, pkt: Packet, hash: nat, recirc: bool, seg: seq<Event>) {
    var d, cost := w.depth, w.cost + if recirc then 1 else 4;
    if w.looping || cost > 19 then seg == [Suppressed(d, cost, flow)]
    else
      && seg != [] && seg[0] == Begun(d + 1, cost, flow)
      && var acts := if flow in w.emptied then [] else env.acts(flow);
         var read := Follow(env, d + 1, pkt.(tunKey := None), hash, acts, Direct(seg[1..], d + 1));
         read.Some? && read.value.rest == []
  }

  lemma ExecuteFollowed(env: Env, w: World, flow: nat, pkt: Packet, hash: nat, recirc: bool)
    requires Running(w) || (w.cost == w.depth == 0 && !recirc)
    ensures Entering(env, w, flow, pkt, hash, recirc, Since(w, Execute(env, w, flow, pkt, hash, recirc)))
  {
    hide Exec, Follow, Direct;
    var cost := w.cost + CostOf(recirc);
    if !w.looping && cost <= MAX_STACK_COST {
      var w2, acts := Entered(w, cost, flow), Actions(env, w, flow);
      ExecFollowed(env, w2, pkt.(tunKey := None), hash, acts, []);
      var o := Exec(env, w2, pkt.(tunKey := None), hash, acts);
      var evs := Direct(Since(w2, o.w), w.depth + 1);
      assert evs + [] == evs;
      assert Since(w, Execute(env, w, flow, pkt, hash, recirc))[1..] == Since(w2, o.w);
    }
  }

  /** A packet is looked up with the key given; without a flow it goes to user
      space, and that is all. */
  ghost predicate LookedUp(env: Env, w: World, pkt: Packet, hash: nat, id: nat, recirc: bool, seg: seq<Event>) {
    var flow := env.lookup(w.lookups, pkt, id, hash);
    && seg != [] && seg[0] == Asked(w.depth, pkt, id, hash)
    && (flow.None? ==> seg[1..] == [Missed(w.depth, pkt)])
    && (flow.Some? ==> Entering(env, w, flow.value, pkt, hash, recirc, seg[1..]))
  }

  lemma ProcessFollowed(env: Env, w: World, pkt: Packet, hash: nat, id: nat, recirc: bool)
    requires Running(w) || (w.cost == w.depth == 0 && !recirc)
    ensures LookedUp(env, w, pkt, hash, id, recirc, Since(w, Process(env, w, pkt, hash, id, recirc)))
  {
    hide Execute, Entering;
    var w1, flow := Ask(w, pkt, id, hash), env.lookup(w.lookups, pkt, id, hash);
    if flow.Some? {
      ExecuteFollowed(env, w1, flow.value, pkt, hash, recirc);
      EnteringSame(env, w, w1, flow.value, pkt, hash, recirc, Since(w1, Execute(env, w1, flow.value, pkt, hash, recirc)));
      assert Since(w, Process(env, w, pkt, hash, id, recirc))[1..] == Since(w1, Execute(env, w1, flow.value, pkt, hash, recirc));
    }
  }

  lemma EnteringSame(env: Env, w: World, w1: World, flow: nat, pkt: Packet, hash: nat, recirc: bool, seg: seq<Event>)
    requires w1.depth == w.depth && w1.cost == w.cost && w1.looping == w.looping && w1.emptied == w.emptied
    ensures Entering(env, w1, flow, pkt, hash, recirc, seg) == Entering(env, w, flow, pkt, hash, recirc, seg)
  {
  }

  /** A port that is there gets the packet; what it hands back is looked up
      with identifier and hash zero. */
  ghost predicate Sent(env: Env, w: World, port: nat, pkt: Packet, seg: seq<Event>) {
    var again := env.reenter(port, pkt);
    if !env.present(port) then seg == []
    else
      && seg != [] && seg[0] == Emitted(w.depth, port, pkt)
      && if again.Some? && env.extract(again.value) then LookedUp(env, w, again.value, 0, 0, false, seg[1..]) else seg[1..] == []
  }

  lemma EmitSent(env: Env, w: World, port: nat, pkt: Packet)
    requires Running(w)
    ensures Sent(env, w, port, pkt, Since(w, Emit(env, w, port, pkt)))
  {
    hide Process, LookedUp;
    var w1, again := Log(w, Emitted(w.depth, port, pkt)), env.reenter(port, pkt);
    if env.present(port) && again.Some? && env.extract(again.value) {
      var seg := Since(w1, Process(env, w1, again.value, 0, 0, false));
      ProcessFollowed(env, w1, again.value, 0, 0, false);
      LookedUpSame(env, w, w1, again.value, seg);
      assert Since(w, Emit(env, w, port, pkt))[1..] == seg;
    }
  }

  lemma LookedUpSame(env: Env, w: World, w1: World, pkt: Packet, seg: seq<Event>)
    requires w1.depth == w.depth && w1.cost == w.cost && w1.looping == w.looping && w1.emptied == w.emptied && w1.lookups == w.lookups
    requires LookedUp(env, w1, pkt, 0, 0, false, seg)
    ensures LookedUp(env, w, pkt, 0, 0, false, seg)
  {
    hide Entering;
    var flow := env.lookup(w.lookups, pkt, 0, 0);
    if flow.Some? {
      EnteringSame(env, w, w1, flow.value, pkt, 0, false, seg[1..]);
    }
  }

  // ------------------------------------------------ flows cut off

  /** Without a loop no flow loses its actions. */
  ghost predicate Spared(w: World, w': World) {
    !w'.looping ==> w'.emptied == w.emptied && !w.looping
  }

  lemma {:induction false} ExecSpared(env: Env, w: World, pkt: Packet, hash: nat, acts: seq<Action>)
    requires Running(w)
    ensures Spared(w, Exec(env, w, pkt, hash, acts).w)
    decreases MAX_STACK_COST - w.cost, 2 * Size(acts) + 2
  {
    hide One;
    if acts != [] {
      var o := One(env, w, pkt, hash, acts[0]);
      OneSpared(env, w, pkt, hash, acts[0]);
      if !o.0.err {
        ExecSpared(env, o.0.w, o.1, o.0.hash, acts[1..]);
      }
    }
  }

  lemma {:induction false} OneSpared(env: Env, w: World, pkt: Packet, hash: nat, a: Action)
    requires Running(w)
    ensures Spared(w, One(env, w, pkt, hash, a).0.w)
    decreases MAX_STACK_COST - w.cost, 2 * SizeOf(a) + 1
  {
    hide Exec, Process;
    match a
    case Output(port) =>
      var again := env.reenter(port, pkt);
      if again.Some? {
        ProcessSpared(env, Log(w, Emitted(w.depth, port, pkt)), again.value, 0, 0, false);
      }
    case Recirc(id) => ProcessSpared(env, w, pkt, hash, id, true);
    case Sample(prob, nested) => ExecSpared(env, Draw(env, w), pkt, hash, nested);
    case _ =>
  }

  lemma {:induction false} ProcessSpared(env: Env, w: World, pkt: Packet, hash: nat, id: nat, recirc: bool)
    requires Running(w)
    ensures Spared(w, Process(env, w, pkt, hash, id, recirc))
    decreases MAX_STACK_COST - w.cost, 1
  {
    hide Exec;
    var w1, flow := Ask(w, pkt, id, hash), env.lookup(w.lookups, pkt, id, hash);
    var cost := w.cost + CostOf(recirc);
    if flow.Some? && !w.looping && cost <= MAX_STACK_COST {
      ExecSpared(env, Entered(w1, cost, flow.value), pkt.(tunKey := None), hash, Actions(env, w1, flow.value));
    }
  }

  /** A flow whose list ended in a loop has no actions from then on; if there
      was no loop every flow still has its own. */
  lemma LoopCutsOff(env: Env, w: World, flow: nat, pkt: Packet, hash: nat, recirc: bool)
    requires Running(w) || (w.cost == w.depth == 0 && !recirc)
    ensures var w' := Execute(env, w, flow, pkt, hash, recirc);
            if ResultOf(env, w, flow, pkt, hash, recirc) == Looped then flow in w'.emptied else w'.emptied == w.emptied
  {
    hide Exec;
    var cost := w.cost + CostOf(recirc);
    if !w.looping && cost <= MAX_STACK_COST {
      ExecSpared(env, Entered(w, cost, flow), pkt.(tunKey := None), hash, Actions(env, w, flow));
    }
  }

  // ------------------------------------------------ plain lists, place by place

  /** An output, upcall, hash or edit; the port hands nothing back. */
  ghost predicate PlainAction(env: Env, a: Action) {
    !a.Recirc? && !a.Sample? && (a.Output? ==> env.present(a.port) && forall p :: env.reenter(a.port, p) == None)
  }

  ghost predicate Plain(env: Env, acts: seq<Action>) {
    forall i :: 0 <= i < |acts| ==> PlainAction(env, acts[i])
  }

  predicate Edits(a: Action) {
    a.PushVlan? || a.PopVlan? || a.Set?
  }

  /** The packet before the i-th action, None after an edit that failed. */
  function PacketAt(env: Env, pkt: Packet, acts: seq<Action>, i: nat): Option<Packet>
    requires i <= |acts|
  {
    if i == 0 then Some(pkt) else
    var p := PacketAt(env, pkt, acts, i - 1);
    if p.Some? && Edits(acts[i - 1]) then env.edit(acts[i - 1], p.value) else p
  }

  /** The hash before the i-th action: that of the last hash action. */
  function HashAt(env: Env, pkt: Packet, hash: nat, acts: seq<Action>, i: nat): nat
    requires i <= |acts|
  {
    if i == 0 then hash else
    var p := PacketAt(env, pkt, acts, i - 1);
    if p.Some? && acts[i - 1].Hash? then NonZero(env.hash(p.value, acts[i - 1].basis))
    else HashAt(env, pkt, hash, acts, i - 1)
  }

  /** What one action of such a list does. */
  function Report(d: nat, pkt: Packet, hash: nat, a: Action): seq<Event> {
    if a.Output? then [Emitted(d, a.port, pkt)] else if a.Userspace? then [Upcalled(d, a.upcall, pkt, hash)] else []
  }

  /** What the first i actions do. */
  function Reports(env: Env, d: nat, pkt: Packet, hash: nat, acts: seq<Action>, i: nat): seq<Event>
    requires i <= |acts|
  {
    if i == 0 then [] else
    var p, before := PacketAt(env, pkt, acts, i - 1), Reports(env, d, pkt, hash, acts, i - 1);
    if p.None? then before else before + Report(d, p.value, HashAt(env, pkt, hash, acts, i - 1), acts[i - 1])
  }

  /** Such a list does exactly that, and fails exactly if an edit does. */
  lemma {:induction false} PlainLog(env: Env, w: World, pkt: Packet, hash: nat, acts: seq<Action>, i: nat, w1: World)
    requires Running(w) && Restored(w, w1) && Plain(env, acts) && i <= |acts|
    requires PacketAt(env, pkt, acts, i).Some? && w1.log == w.log + Reports(env, w.depth, pkt, hash, acts, i)
    ensures var o := Exec(env, w1, PacketAt(env, pkt, acts, i).value, HashAt(env, pkt, hash, acts, i), acts[i..]);
            && o.w.log == w.log + Reports(env, w.depth, pkt, hash, acts, |acts|)
            && o.err == PacketAt(env, pkt, acts, |acts|).None?
            && (!o.err ==> o.hash == HashAt(env, pkt, hash, acts, |acts|))
    decreases |acts| - i
  {
    hide HashAt, One, PacketAt, Reports;
    if i < |acts| {
      var p, h := PacketAt(env, pkt, acts, i).value, HashAt(env, pkt, hash, acts, i);
      assert acts[i..][0] == acts[i] && acts[i..][1..] == acts[i + 1..];
      var o := One(env, w1, p, h, acts[i]);
      assert PlainAction(env, acts[i]);
      PlainOne(env, w1, p, h, acts[i]);
      HashNext(env, pkt, hash, acts, i);
      PlainNext(env, w.depth, pkt, hash, acts, i);
      assert o.0.w.log == w.log + Reports(env, w.depth, pkt, hash, acts, i + 1);
      if o.0.err {
        NoMore(env, w.depth, pkt, hash, acts, i + 1, |acts|);
      } else {
        PlainLog(env, w, pkt, hash, acts, i + 1, o.0.w);
      }
    }
  }

  lemma PlainOne(env: Env, w: World, pkt: Packet, hash: nat, a: Action)
    requires Running(w) && !a.Recirc? && !a.Sample? && (a.Output? ==> env.present(a.port) && env.reenter(a.port, pkt) == None)
    ensures var o := One(env, w, pkt, hash, a);
            && o.0.w.log == w.log + Report(w.depth, pkt, hash, a)
            && (o.0.err <==> Edits(a) && env.edit(a, pkt) == None)
            && (!o.0.err ==> o.1 == if Edits(a) then env.edit(a, pkt).value else pkt)
            && o.0.hash == if a.Hash? then NonZero(env.hash(pkt, a.basis)) else hash
  {
  }

  lemma PlainNext(env: Env, d: nat, pkt: Packet, hash: nat, acts: seq<Action>, i: nat)
    requires i < |acts| && PacketAt(env, pkt, acts, i).Some?
    ensures var p := PacketAt(env, pkt, acts, i).value;
            && PacketAt(env, pkt, acts, i + 1) == (if Edits(acts[i]) then env.edit(acts[i], p) else Some(p))
            && Reports(env, d, pkt, hash, acts, i + 1) == Reports(env, d, pkt, hash, acts, i) + Report(d, p, HashAt(env, pkt, hash, acts, i), acts[i])
  {
  }

  lemma HashNext(env: Env, pkt: Packet, hash: nat, acts: seq<Action>, i: nat)
    requires i < |acts| && PacketAt(env, pkt, acts, i).Some?
    ensures HashAt(env, pkt, hash, acts, i + 1)
         == if acts[i].Hash? then NonZero(env.hash(PacketAt(env, pkt, acts, i).value, acts[i].basis)) else HashAt(env, pkt, hash, acts, i)
  {
    hide PacketAt;
  }

  /** Nothing happens after an edit that failed. */
  lemma {:induction false} NoMore(env: Env, d: nat, pkt: Packet, hash: nat, acts: seq<Action>, i: nat, n: nat)
    requires i <= n <= |acts| && PacketAt(env, pkt, acts, i).None?
    ensures PacketAt(env, pkt, acts, n).None? && Reports(env, d, pkt, hash, acts, n) == Reports(env, d, pkt, hash, acts, i)
    decreases n
  {
    if i < n {
      NoMore(env, d, pkt, hash, acts, i, n - 1);
    }
  }

  // ------------------------------------------------ all of it

  /** A world, a hash and an error that a list explains. */
  ghost predicate Explained(env: Env, w: World, pkt: Packet, hash: nat, acts: seq<Action>, w': World, hash': nat, err: bool) {
    && w.log <= w'.log
    && Follow(env, w.depth, pkt, hash, acts, Direct(Since(w, w'), w.depth)) == Some(Trail([], hash', err))
    && (Plain(env, acts) ==> w'.log == w.log + Reports(env, w.depth, pkt, hash, acts, |acts|) && err == PacketAt(env, pkt, acts, |acts|).None?)
  }

  lemma ExecExplained(env: Env, w: World, pkt: Packet, hash: nat, acts: seq<Action>)
    requires Running(w)
    ensures var o := Exec(env, w, pkt, hash, acts); Explained(env, w, pkt, hash, acts, o.w, o.hash, o.err)
  {
    hide Exec, Follow, Direct, Reports, HashAt, Plain;
    ExecFollowed(env, w, pkt, hash, acts, []);
    var evs := Direct(Since(w, Exec(env, w, pkt, hash, acts).w), w.depth);
    assert evs + [] == evs;
    if Plain(env, acts) {
      NoReports(env, w.depth, pkt, hash, acts);
      assert w.log + [] == w.log && acts[0..] == acts;
      PlainLog(env, w, pkt, hash, acts, 0, w);
    }
  }

  lemma NoReports(env: Env, d: nat, pkt: Packet, hash: nat, acts: seq<Action>)
    ensures Reports(env, d, pkt, hash, acts, 0) == [] && HashAt(env, pkt, hash, acts, 0) == hash && PacketAt(env, pkt, acts, 0) == Some(pkt)
  {
  }
}
