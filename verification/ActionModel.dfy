/** What executing a flow's actions means: the interpreter that hands every
    output its own copy of the packet at once.  Outputs may re-enter the
    datapath and recirculation may pick the same flow again; a stack cost per
    CPU stops both. */
module ActionModel {
  import opened Options

  const RECIRC_STACK_COST: nat := 1
  const DEFAULT_STACK_COST: nat := 4
  const MAX_STACK_COST: nat := 19

  datatype Packet = Packet(data: seq<nat>, inPort: nat, tunKey: Option<nat>)

  datatype Action =
    | Output(port: nat)
    | Userspace(upcall: nat)
    | Hash(basis: nat)
    | PushVlan(tci: nat)
    | PopVlan
    | Recirc(id: nat)
    | Set(attr: nat, value: nat)
    | Sample(probability: nat, actions: seq<Action>)

  /** The code and tables around the actions: editing a packet (None when it
      fails), extracting a key, the flow found by the n-th lookup, the actions
      of a flow, whether there is such a port, what a port hands straight back
      to the datapath, the n-th random number, and the hash of a packet. */
  datatype Env = Env(
    edit: (Action, Packet) -> Option<Packet>,
    extract: Packet -> bool,
    lookup: (nat, Packet, nat, nat) -> Option<nat>,
    acts: nat -> seq<Action>,
    present: nat -> bool,
    reenter: (nat, Packet) -> Option<Packet>,
    random: nat -> nat,
    hash: (Packet, nat) -> nat)

  /** What can be seen from outside, with the depth of the list it belongs to:
      a packet handed to a port or to user space, a random number drawn, a key
      looked up, and what came of that. */
  datatype Event =
    | Emitted(depth: nat, port: nat, pkt: Packet)
    | Upcalled(depth: nat, upcall: nat, pkt: Packet, hash: nat)
    | Sampled(depth: nat, draw: nat)
    | Asked(depth: nat, pkt: Packet, id: nat, hash: nat)
    | Missed(depth: nat, pkt: Packet)
    | Begun(depth: nat, cost: nat, flow: nat)
    | Suppressed(depth: nat, cost: nat, flow: nat)

  /** Per-CPU loop counter, the flows whose actions were cut to nothing, the
      numbers of lookups and of random draws, the number of action lists being
      executed, and all that happened. */
  datatype World = World(cost: nat, looping: bool, emptied: set<nat>, lookups: nat, draws: nat, depth: nat, log: seq<Event>)

  /** The datapath hash belongs to the key, which copies of a packet share. */
  datatype Outcome = Outcome(w: World, hash: nat, err: bool)

  function Size(acts: seq<Action>): nat {
    if acts == [] then 0 else SizeOf(acts[0]) + Size(acts[1..])
  }

  function SizeOf(a: Action): nat {
    if a.Sample? then 1 + Size(a.actions) else 1
  }

  function Log(w: World, e: Event): World {
    w.(log := w.log + [e])
  }

  function Draw(env: Env, w: World): World {
    Log(w, Sampled(w.depth, env.random(w.draws))).(draws := w.draws + 1)
  }

  function Ask(w: World, pkt: Packet, id: nat, hash: nat): World {
    Log(w, Asked(w.depth, pkt, id, hash)).(lookups := w.lookups + 1)
  }

  function NonZero(h: nat): nat {
    if h == 0 then 1 else h
  }

  ghost predicate Running(w: World) {
    1 <= w.depth && w.depth + 3 <= w.cost <= MAX_STACK_COST
  }

  /** What every call leaves as it was; inside a list a detected loop stays. */
  ghost predicate Restored(w: World, w': World) {
    w'.cost == w.cost && w'.depth == w.depth && (w.cost > 0 && w.looping ==> w'.looping) && w.log <= w'.log
  }

  /** The actions one by one. */
  ghost function Exec(env: Env, w: World, pkt: Packet, hash: nat, acts: seq<Action>): (o: Outcome)
    requires Running(w)
    ensures Restored(w, o.w)
    decreases MAX_STACK_COST - w.cost, 2 * Size(acts) + 2
  {
    if acts == [] then Outcome(w, hash, false) else
    var o := One(env, w, pkt, hash, acts[0]);
    if o.0.err then o.0 else Exec(env, o.0.w, o.1, o.0.hash, acts[1..])
  }

  /** One action, and the packet after it. */
  ghost function One(env: Env, w: World, pkt: Packet, hash: nat, a: Action): (o: (Outcome, Packet))
    requires Running(w)
    ensures Restored(w, o.0.w)
    decreases MAX_STACK_COST - w.cost, 2 * SizeOf(a) + 1
  {
    match a
    case Output(port) => (Outcome(Emit(env, w, port, pkt), hash, false), pkt)
    case Userspace(u) => (Outcome(Log(w, Upcalled(w.depth, u, pkt, hash)), hash, false), pkt)
    case Hash(basis) => (Outcome(w, NonZero(env.hash(pkt, basis)), false), pkt)
    case Recirc(id) =>
      if env.extract(pkt) then (Outcome(Process(env, w, pkt, hash, id, true), hash, false), pkt)
      else (Outcome(w, hash, true), pkt)
    case Sample(prob, nested) =>
      var w1 := Draw(env, w);
      if env.random(w.draws) >= prob then (Outcome(w1, hash, false), pkt)
      else (Exec(env, w1, pkt, hash, nested), pkt)
    case _ =>
      match env.edit(a, pkt)
      case None => (Outcome(w, hash, true), pkt)
      case Some(edited) => (Outcome(w, hash, false), edited)
  }

  /** A packet leaves through a port. */
  ghost function Emit(env: Env, w: World, port: nat, pkt: Packet): (w': World)
    requires Running(w)
    ensures Restored(w, w')
    decreases MAX_STACK_COST - w.cost, 2
  {
    if !env.present(port) then w else
    var w1 := Log(w, Emitted(w.depth, port, pkt));
    match env.reenter(port, pkt)
    case None => w1
    case Some(again) => if env.extract(again) then Process(env, w1, again, 0, 0, false) else w1
  }

  /** ovs_dp_process_packet_with_key. */
  ghost function Process(env: Env, w: World, pkt: Packet, hash: nat, id: nat, recirc: bool): (w': World)
    requires Running(w) || (w.cost == w.depth == 0 && !recirc)
    ensures Restored(w, w')
    decreases MAX_STACK_COST - w.cost, 1
  {
    var w1 := Ask(w, pkt, id, hash);
    match env.lookup(w.lookups, pkt, id, hash)
    case None => Log(w1, Missed(w.depth, pkt))
    case Some(flow) => Execute(env, w1, flow, pkt, hash, recirc)
  }

  function CostOf(recirc: bool): nat {
    if recirc then RECIRC_STACK_COST else DEFAULT_STACK_COST
  }

  function Actions(env: Env, w: World, flow: nat): seq<Action> {
    if flow in w.emptied then [] else env.acts(flow)
  }

  /** Leaving a list: the cost back as it was, and at the outermost level no
      more loop. */
  function Leave(w: World, cost: nat, depth: nat): World {
    w.(cost := cost, depth := depth, looping := w.looping && cost != 0)
  }

  /** loop_suppress: the flow loses its actions. */
  function Suppress(w: World, flow: nat): World {
    w.(emptied := w.emptied + {flow})
  }

  function Entered(w: World, cost: nat, flow: nat): World {
    Log(w, Begun(w.depth + 1, cost, flow)).(cost := cost, depth := w.depth + 1)
  }

  /** ovs_execute_actions; the counter has eight bits. */
  ghost function Execute(env: Env, w: World, flow: nat, pkt: Packet, hash: nat, recirc: bool): (w': World)
    requires Running(w) || (w.cost == w.depth == 0 && !recirc)
    ensures Restored(w, w')
    decreases MAX_STACK_COST - w.cost, 0
  {
    var cost := (w.cost + CostOf(recirc)) % 256;
    if w.looping || cost > MAX_STACK_COST then
      Leave(Suppress(Log(w, Suppressed(w.depth, cost, flow)).(looping := true), flow), w.cost, w.depth)
    else
      var w2 := Exec(env, Entered(w, cost, flow), pkt.(tunKey := None), hash, Actions(env, w, flow)).w;
      Leave(if w2.looping then Suppress(w2, flow) else w2, w.cost, w.depth)
  }

  /** What ovs_execute_actions returns. */
  datatype Result = Done | Erred | Looped

  ghost function ResultOf(env: Env, w: World, flow: nat, pkt: Packet, hash: nat, recirc: bool): Result
    requires Running(w) || (w.cost == w.depth == 0 && !recirc)
  {
    var cost := (w.cost + CostOf(recirc)) % 256;
    if w.looping || cost > MAX_STACK_COST then Looped else
    var o := Exec(env, Entered(w, cost, flow), pkt.(tunKey := None), hash, Actions(env, w, flow));
    if o.w.looping then Looped else if o.err then Erred else Done
  }

  // ------------------------------------------------ what bounds every packet

  /** At most sixteen lists at a time, and a counter of at most 23. */
  predicate EventOk(e: Event) {
    match e
    case Begun(depth, cost, _) => cost <= MAX_STACK_COST && 1 <= depth <= 16
    case Suppressed(_, cost, _) => cost <= 23
    case _ => true
  }

  ghost predicate Bounded(log: seq<Event>, from: nat) {
    forall i :: from <= i < |log| ==> EventOk(log[i])
  }

  /** No list begins once a loop was detected. */
  ghost predicate QuietAfterLoop(log: seq<Event>, from: nat) {
    forall i, j :: from <= i < j < |log| && log[i].Suppressed? ==> !log[j].Begun?
  }

  ghost predicate LoopSeen(log: seq<Event>, from: nat) {
    exists i :: from <= i < |log| && log[i].Suppressed?
  }

  ghost predicate LogOk(w: World, from: nat) {
    from <= |w.log| && Bounded(w.log, from) && QuietAfterLoop(w.log, from) && (w.looping <==> LoopSeen(w.log, from))
  }

  lemma LogOne(w: World, e: Event, from: nat)
    requires LogOk(w, from) && EventOk(e) && (e.Begun? ==> !w.looping)
    ensures LogOk(Log(w, e).(looping := w.looping || e.Suppressed?), from)
  {
    var log := w.log + [e];
    assert forall i :: 0 <= i < |w.log| ==> log[i] == w.log[i];
    assert log[|w.log|] == e;
  }

  lemma {:induction false} ExecLog(env: Env, w: World, pkt: Packet, hash: nat, acts: seq<Action>, from: nat)
    requires Running(w) && LogOk(w, from)
    ensures LogOk(Exec(env, w, pkt, hash, acts).w, from)
    decreases MAX_STACK_COST - w.cost, 2 * Size(acts) + 2
  {
    hide LogOk;
    if acts != [] {
      var o := One(env, w, pkt, hash, acts[0]);
      OneLog(env, w, pkt, hash, acts[0], from);
      if !o.0.err {
        ExecLog(env, o.0.w, o.1, o.0.hash, acts[1..], from);
      }
    }
  }

  lemma {:induction false} OneLog(env: Env, w: World, pkt: Packet, hash: nat, a: Action, from: nat)
    requires Running(w) && LogOk(w, from)
    ensures LogOk(One(env, w, pkt, hash, a).0.w, from)
    decreases MAX_STACK_COST - w.cost, 2 * SizeOf(a) + 1
  {
    hide Bounded, QuietAfterLoop, LoopSeen;
    match a
    case Output(port) => EmitLog(env, w, port, pkt, from);
    case Userspace(u) => LogOne(w, Upcalled(w.depth, u, pkt, hash), from);
    case Recirc(id) =>
      if env.extract(pkt) {
        ProcessLog(env, w, pkt, hash, id, true, from);
      }
    case Sample(prob, nested) =>
      LogOne(w, Sampled(w.depth, env.random(w.draws)), from);
      if env.random(w.draws) < prob {
        ExecLog(env, Draw(env, w), pkt, hash, nested, from);
      }
    case _ =>
  }

  lemma {:induction false} EmitLog(env: Env, w: World, port: nat, pkt: Packet, from: nat)
    requires Running(w) && LogOk(w, from)
    ensures LogOk(Emit(env, w, port, pkt), from)
    decreases MAX_STACK_COST - w.cost, 2
  {
    hide LogOk;
    LogOne(w, Emitted(w.depth, port, pkt), from);
    var w1 := Log(w, Emitted(w.depth, port, pkt));
    assert w1.(looping := w1.looping) == w1;
    var again := env.reenter(port, pkt);
    if env.present(port) && again.Some? && env.extract(again.value) {
      ProcessLog(env, w1, again.value, 0, 0, false, from);
    }
  }

  lemma {:induction false} ProcessLog(env: Env, w: World, pkt: Packet, hash: nat, id: nat, recirc: bool, from: nat)
    requires Running(w) && LogOk(w, from)
    ensures LogOk(Process(env, w, pkt, hash, id, recirc), from)
    decreases MAX_STACK_COST - w.cost, 1
  {
    hide Bounded, QuietAfterLoop, LoopSeen;
    LogOne(w, Asked(w.depth, pkt, id, hash), from);
    var w1 := Ask(w, pkt, id, hash);
    var flow := env.lookup(w.lookups, pkt, id, hash);
    if flow.None? {
      LogOne(w1, Missed(w.depth, pkt), from);
    } else {
      ExecuteLog(env, w1, flow.value, pkt, hash, recirc, from);
    }
  }

  lemma {:induction false} ExecuteLog(env: Env, w: World, flow: nat, pkt: Packet, hash: nat, recirc: bool, from: nat)
    requires Running(w) && LogOk(w, from)
    ensures LogOk(Execute(env, w, flow, pkt, hash, recirc), from)
    decreases MAX_STACK_COST - w.cost, 0
  {
    hide Bounded, QuietAfterLoop, LoopSeen;
    var cost := w.cost + CostOf(recirc);
    if w.looping || cost > MAX_STACK_COST {
      LogOne(w, Suppressed(w.depth, cost, flow), from);
    } else {
      LogOne(w, Begun(w.depth + 1, cost, flow), from);
      ExecLog(env, Entered(w, cost, flow), pkt.(tunKey := None), hash, Actions(env, w, flow), from);
    }
  }

  /** A loop is reported exactly when some list was suppressed on the way. */
  lemma LoopReported(env: Env, w: World, flow: nat, pkt: Packet, hash: nat, recirc: bool)
    requires Running(w) || (w.cost == w.depth == 0 && !recirc)
    ensures ResultOf(env, w, flow, pkt, hash, recirc) == Looped <==> LoopSeen(Execute(env, w, flow, pkt, hash, recirc).log, |w.log|)
  {
    hide Bounded, QuietAfterLoop, Exec;
    var cost, from := w.cost + CostOf(recirc), |w.log|;
    if w.looping || cost > MAX_STACK_COST {
      assert (w.log + [Suppressed(w.depth, cost, flow)])[from].Suppressed?;
    } else {
      NothingLogged(w);
      LogOne(w, Begun(w.depth + 1, cost, flow), from);
      ExecLog(env, Entered(w, cost, flow), pkt.(tunKey := None), hash, Actions(env, w, flow), from);
    }
  }

  ghost predicate Idle(w: World) {
    w.cost == 0 && w.depth == 0 && !w.looping
  }

  /** A packet received while no list is being executed: the loop counter is
      back to idle afterwards; in between, at most sixteen lists were active at
      a time, the counter stayed below 24, and after the detection of a loop no
      list began.  That the processing ends is part of Process being total. */
  lemma ReceivedPacketBounded(env: Env, w: World, pkt: Packet)
    requires Idle(w)
    ensures var w' := Process(env, w, pkt, 0, 0, false);
            Idle(w') && w.log <= w'.log && Bounded(w'.log, |w.log|) && QuietAfterLoop(w'.log, |w.log|)
  {
    hide Bounded, QuietAfterLoop, LoopSeen;
    var from, w1 := |w.log|, Ask(w, pkt, 0, 0);
    NothingLogged(w);
    LogOne(w, Asked(0, pkt, 0, 0), from);
    var flow := env.lookup(w.lookups, pkt, 0, 0);
    if flow.None? {
      LogOne(w1, Missed(0, pkt), from);
    } else {
      LogOne(w1, Begun(1, 4, flow.value), from);
      ExecLog(env, Entered(w1, 4, flow.value), pkt.(tunKey := None), 0, Actions(env, w1, flow.value), from);
    }
  }

  lemma NothingLogged(w: World)
    requires !w.looping
    ensures LogOk(w, |w.log|)
  {
  }
}
