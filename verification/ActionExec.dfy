/** Action execution as the datapath does it: socket buffers with reference
    counts, one output always deferred so that the last one needs no copy. */
module ActionExec {
  import opened Options
  import opened ActionModel
  import opened ActionTrace

  datatype Buffer = Buffer(refs: nat, pkt: Packet)

  type Buffers = map<nat, Buffer>

  /** One reference to buffer b released. */
  function Drop(bufs: Buffers, b: nat): Buffers
    requires b in bufs
  {
    if bufs[b].refs <= 1 then bufs - {b} else bufs[b := Buffer(bufs[b].refs - 1, bufs[b].pkt)]
  }

  /** The lists a sample executes without copying the packet. */
  predicate Harmless(acts: seq<Action>) {
    acts == [] || (acts[0].Userspace? && |acts| == 1)
  }

  /** How one action ended: go on, stop and release the buffer, or stop with
      the buffer already released. */
  datatype Status = Next | Failed | Consumed(err: bool)

  lemma SizeAt(acts: seq<Action>, i: nat)
    requires i < |acts|
    ensures Size(acts) >= SizeOf(acts[i]) >= 1
  {
    if i > 0 {
      SizeAt(acts[1..], i - 1);
    }
  }

  lemma DropEdited(bufs: Buffers, b: nat, pkt: Packet)
    requires b in bufs && bufs[b].refs == 1
    ensures Drop(bufs[b := Buffer(1, pkt)], b) == Drop(bufs, b)
  {
  }

  lemma ExecStep(env: Env, w: World, pkt: Packet, hash: nat, acts: seq<Action>)
    requires Running(w) && acts != []
    ensures var o := One(env, w, pkt, hash, acts[0]);
            Exec(env, w, pkt, hash, acts) == if o.0.err then o.0 else Exec(env, o.0.w, o.1, o.0.hash, acts[1..])
  {
    hide One;
  }

  lemma NoEvents(log: seq<Event>)
    ensures Bounded(log, |log|) && QuietAfterLoop(log, |log|)
  {
  }

  lemma ExecDone(env: Env, w: World, pkt: Packet, hash: nat)
    requires Running(w)
    ensures Exec(env, w, pkt, hash, []) == Outcome(w, hash, false)
  {
  }

  lemma ExecuteIs(env: Env, w: World, flow: nat, pkt: Packet, hash: nat, recirc: bool)
    requires Running(w) || (w.cost == w.depth == 0 && !recirc)
    ensures var cost, w' := w.cost + CostOf(recirc), Execute(env, w, flow, pkt, hash, recirc);
            if w.looping || cost > MAX_STACK_COST
            then w' == World(w.cost, w.cost != 0, w.emptied + {flow}, w.lookups, w.draws, w.depth, w.log + [Suppressed(w.depth, cost, flow)])
            else
              var w2 := Exec(env, Entered(w, cost, flow), pkt.(tunKey := None), hash, Actions(env, w, flow)).w;
              w' == World(w.cost, w2.looping && w.cost != 0, if w2.looping then w2.emptied + {flow} else w2.emptied,
                          w2.lookups, w2.draws, w.depth, w2.log)
  {
    hide Exec;
  }

  /** An output first in the list happens at once. */
  lemma OutputFirst(env: Env, w: World, pkt: Packet, hash: nat, acts: seq<Action>)
    requires Running(w) && acts != [] && acts[0].Output?
    ensures Exec(env, w, pkt, hash, acts) == Exec(env, Emit(env, w, acts[0].port, pkt), pkt, hash, acts[1..])
  {
    hide Emit;
  }

  class Datapath {
    const env: Env
    var cost: nat
    var looping: bool
    var emptied: set<nat>
    var lookups: nat
    var draws: nat
    var bufs: Buffers
    var next: nat
    ghost var depth: nat
    ghost var log: seq<Event>

    constructor (env: Env)
      ensures BufsOk() && bufs == map[] && Idle(View()) && this.env == env
    {
      this.env := env;
      cost, looping, emptied, lookups, draws, bufs, next := 0, false, {}, 0, 0, map[], 0;
      depth, log := 0, [];
    }

    ghost function View(): World
      reads this
    {
      World(cost, looping, emptied, lookups, draws, depth, log)
    }

    ghost predicate BufsOk()
      reads this`bufs, this`next
    {
      forall b :: b in bufs ==> b < next && bufs[b].refs > 0
    }

    /** skb_clone, which is assumed to find memory. */
    method Clone(b: nat) returns (c: nat)
      requires BufsOk() && b in bufs
      modifies this`bufs, this`next
      ensures BufsOk() && c !in old(bufs) && bufs == old(bufs)[c := Buffer(1, old(bufs)[b].pkt)]
    {
      c := next;
      bufs := bufs[c := Buffer(1, bufs[b].pkt)];
      next := next + 1;
    }

    /** kfree_skb, consume_skb. */
    method Release(b: nat)
      requires BufsOk() && b in bufs
      modifies this`bufs
      ensures BufsOk() && bufs == Drop(old(bufs), b)
    {
      bufs := if bufs[b].refs == 1 then bufs - {b} else bufs[b := Buffer(bufs[b].refs - 1, bufs[b].pkt)];
    }

    /** do_output. */
    method DoOutput(b: nat, port: nat)
      requires BufsOk() && b in bufs && bufs[b].refs == 1 && Running(View())
      modifies this
      ensures BufsOk() && bufs == Drop(old(bufs), b)
      ensures View() == Emit(env, old(View()), port, old(bufs)[b].pkt)
      ensures old(log) <= log && Sent(env, old(View()), port, old(bufs)[b].pkt, log[|old(log)|..])
      decreases MAX_STACK_COST - cost, 2
    {
      hide Process, Sent;
      var pkt := bufs[b].pkt;
      EmitSent(env, View(), port, pkt);
      if !env.present(port) {
        Release(b);
        return;
      }
      log := log + [Emitted(depth, port, pkt)];
      var again := env.reenter(port, pkt);
      if again.Some? {
        DropEdited(bufs, b, again.value);
        bufs := bufs[b := Buffer(1, again.value)];
        if env.extract(again.value) {
          ProcessPacket(b, 0, 0, false);
          return;
        }
      }
      Release(b);
    }

    /** ovs_dp_process_packet_with_key. */
    method ProcessPacket(b: nat, hash: nat, id: nat, recirc: bool)
      requires BufsOk() && b in bufs && bufs[b].refs == 1
      requires Running(View()) || (cost == depth == 0 && !recirc)
      modifies this
      ensures BufsOk() && bufs == Drop(old(bufs), b)
      ensures View() == Process(env, old(View()), old(bufs)[b].pkt, hash, id, recirc)
      ensures old(log) <= log && LookedUp(env, old(View()), old(bufs)[b].pkt, hash, id, recirc, log[|old(log)|..])
      decreases MAX_STACK_COST - cost, 1
    {
      hide Execute, LookedUp;
      ProcessFollowed(env, View(), bufs[b].pkt, hash, id, recirc);
      log := log + [Asked(depth, bufs[b].pkt, id, hash)];
      var flow := env.lookup(lookups, bufs[b].pkt, id, hash);
      lookups := lookups + 1;
      if flow.None? {
        log := log + [Missed(depth, bufs[b].pkt)];
        Release(b);
      } else {
        var _ := ExecuteActions(b, flow.value, hash, recirc);
      }
    }

    /** ovs_dp_process_received_packet, on an idle CPU: whatever the flows do,
        the buffer and every copy of it are gone afterwards, and the loop
        counter kept its bounds. */
    method ReceivePacket(b: nat)
      requires BufsOk() && b in bufs && bufs[b].refs == 1 && Idle(View())
      modifies this
      ensures BufsOk() && bufs == old(bufs) - {b}
      ensures Idle(View()) && old(log) <= log && Bounded(log, |old(log)|) && QuietAfterLoop(log, |old(log)|)
    {
      hide Process, Bounded, QuietAfterLoop;
      if env.extract(bufs[b].pkt) {
        ReceivedPacketBounded(env, View(), bufs[b].pkt);
        ProcessPacket(b, 0, 0, false);
      } else {
        NoEvents(log);
        Release(b);
      }
    }

    /** ovs_execute_actions: besides what it does, it reports a loop exactly
        when a list was suppressed during the call. */
    method ExecuteActions(b: nat, flow: nat, hash: nat, recirc: bool) returns (r: Result)
      requires BufsOk() && b in bufs && bufs[b].refs == 1
      requires Running(View()) || (cost == depth == 0 && !recirc)
      modifies this
      ensures BufsOk() && bufs == Drop(old(bufs), b)
      ensures View() == Execute(env, old(View()), flow, old(bufs)[b].pkt, hash, recirc)
      ensures r == ResultOf(env, old(View()), flow, old(bufs)[b].pkt, hash, recirc) && (r == Looped <==> LoopSeen(log, |old(log)|))
      ensures if r == Looped then flow in emptied else emptied == old(emptied)
      decreases MAX_STACK_COST - cost, 0
    {
      hide Exec, Execute, Drop, Datapath.BufsOk, Restored, LoopSeen;
      LoopReported(env, View(), flow, bufs[b].pkt, hash, recirc);
      LoopCutsOff(env, View(), flow, bufs[b].pkt, hash, recirc);
      ExecuteIs(env, View(), flow, bufs[b].pkt, hash, recirc);
      var acts := if flow in emptied then [] else env.acts(flow);
      cost := (cost + CostOf(recirc)) % 256;
      if cost > MAX_STACK_COST {
        looping := true;
      }
      if looping {
        SuppressLoop(b, flow);
        r := Looped;
      } else {
        r := RunList(b, flow, hash, acts);
      }
      cost := cost - CostOf(recirc);
      if cost == 0 {
        looping := false;
      }
    }

    method SuppressLoop(b: nat, flow: nat)
      requires BufsOk() && b in bufs
      modifies this`log, this`emptied, this`bufs
      ensures BufsOk() && bufs == Drop(old(bufs), b)
      ensures log == old(log) + [Suppressed(depth, cost, flow)] && emptied == old(emptied) + {flow}
    {
      log := log + [Suppressed(depth, cost, flow)];
      emptied := emptied + {flow};
      Release(b);
    }

    /** The list itself, once the cost is paid. */
    method RunList(b: nat, flow: nat, hash: nat, acts: seq<Action>) returns (r: Result)
      requires BufsOk() && b in bufs && bufs[b].refs == 1 && depth + 4 <= cost <= MAX_STACK_COST
      modifies this
      ensures BufsOk() && bufs == Drop(old(bufs), b)
      ensures var o := Exec(env, Entered(old(View()), old(cost), flow), old(bufs)[b].pkt.(tunKey := None), hash, acts);
              && View() == (if o.w.looping then Suppress(o.w, flow) else o.w).(depth := old(depth)) && cost == old(cost)
              && r == if o.w.looping then Looped else if o.err then Erred else Done
      decreases MAX_STACK_COST - cost, 2 * Size(acts) + 3
    {
      hide Exec, Size;
      log, depth := log + [Begun(depth + 1, cost, flow)], depth + 1;
      var pkt := bufs[b].pkt.(tunKey := None);
      DropEdited(bufs, b, pkt);
      bufs := bufs[b := Buffer(1, pkt)];
      assert View() == Entered(old(View()), cost, flow);
      var err, _ := DoExecuteActions(b, hash, acts);
      r := if err then Erred else Done;
      if looping {
        emptied := emptied + {flow};
        r := Looped;
      }
      depth := depth - 1;
    }

    /** execute_recirc: the buffer is consumed either way. */
    method ExecuteRecirc(b: nat, hash: nat, id: nat) returns (err: bool)
      requires BufsOk() && b in bufs && bufs[b].refs == 1 && Running(View())
      modifies this
      ensures BufsOk() && bufs == Drop(old(bufs), b)
      ensures One(env, old(View()), old(bufs)[b].pkt, hash, Recirc(id)) == (Outcome(View(), hash, err), old(bufs)[b].pkt)
      decreases MAX_STACK_COST - cost, 2
    {
      hide Process;
      err := !env.extract(bufs[b].pkt);
      if err {
        Release(b);
      } else {
        ProcessPacket(b, hash, id, true);
      }
    }

    /** sample: a list without side effects on the packet runs on the buffer
        itself, under one more reference, any other on a copy. */
    method ExecuteSample(b: nat, hash: nat, prob: nat, acts: seq<Action>) returns (err: bool, hash': nat)
      requires BufsOk() && b in bufs && Running(View())
      modifies this
      ensures BufsOk() && bufs == old(bufs)
      ensures One(env, old(View()), old(bufs)[b].pkt, hash, Sample(prob, acts)) == (Outcome(View(), hash', err), old(bufs)[b].pkt)
      decreases MAX_STACK_COST - cost, 2 * Size(acts) + 3, 0
    {
      hide Exec, Size;
      var r := env.random(draws);
      log := log + [Sampled(depth, r)];
      draws := draws + 1;
      if r >= prob {
        return false, hash;
      }
      var s: nat;
      if Harmless(acts) {
        s := b;
        bufs := bufs[b := Buffer(bufs[b].refs + 1, bufs[b].pkt)];
      } else {
        s := Clone(b);
      }
      assert Drop(bufs, s) == old(bufs);
      err, hash' := DoExecuteActions(s, hash, acts);
    }

    /** One turn of the switch in do_execute_actions, for all but Output. */
    method Perform(b: nat, hash: nat, a: Action, last: bool) returns (st: Status, hash': nat)
      requires BufsOk() && b in bufs && Running(View()) && !a.Output? && (a.Userspace? || bufs[b].refs == 1)
      modifies this
      ensures BufsOk()
      ensures var o := One(env, old(View()), old(bufs)[b].pkt, hash, a);
              && o.0.w == View() && o.0.hash == hash' && (st.Next? ==> !o.0.err && bufs == old(bufs)[b := Buffer(old(bufs)[b].refs, o.1)])
              && (st.Failed? ==> o.0.err && bufs == old(bufs))
              && (st.Consumed? ==> st.err == o.0.err && (last || st.err) && bufs == Drop(old(bufs), b))
      ensures a.Userspace? ==> st.Next? && bufs == old(bufs)
      decreases MAX_STACK_COST - cost, 2 * SizeOf(a) + 1, 1
    {
      hide Exec, Process, Emit;
      var pkt := bufs[b].pkt;
      hash' := hash;
      var err := false;
      if a.Userspace? {
        log := log + [Upcalled(depth, a.upcall, pkt, hash)];
      } else if a.Hash? {
        hash' := NonZero(env.hash(pkt, a.basis));
      } else if a.Recirc? {
        if last {
          err := ExecuteRecirc(b, hash, a.id);
          return Consumed(err), hash';
        }
        var c := Clone(b);
        err := ExecuteRecirc(c, hash, a.id);
      } else if a.Sample? {
        err, hash' := ExecuteSample(b, hash, a.probability, a.actions);
      } else {
        var edited := env.edit(a, pkt);
        if edited.Some? {
          bufs := bufs[b := Buffer(1, edited.value)];
        } else if a.PushVlan? {
          Release(b);
          return Consumed(true), hash';
        } else {
          err := true;
        }
      }
      st := if err then Failed else Next;
    }

    /** The output still owed goes out on a copy. */
    method Flush(b: nat, port: nat)
      requires BufsOk() && b in bufs && Running(View())
      modifies this
      ensures BufsOk() && bufs == old(bufs) && View() == Emit(env, old(View()), port, bufs[b].pkt)
      decreases MAX_STACK_COST - cost, 3
    {
      hide Emit;
      var c := Clone(b);
      DoOutput(c, port);
    }

    /** do_execute_actions: what the interpreter does that copies at once, and
        so exactly the events that the list prescribes. */
    method DoExecuteActions(b: nat, hash: nat, acts: seq<Action>) returns (err: bool, hash': nat)
      requires BufsOk() && b in bufs && Running(View()) && (bufs[b].refs == 1 || Harmless(acts))
      modifies this
      ensures BufsOk() && bufs == Drop(old(bufs), b)
      ensures Exec(env, old(View()), old(bufs)[b].pkt, hash, acts) == Outcome(View(), hash', err)
      ensures Explained(env, old(View()), old(bufs)[b].pkt, hash, acts, View(), hash', err)
      decreases MAX_STACK_COST - cost, 2 * Size(acts) + 2
    {
      hide Exec, One, Emit, Size, Explained;
      ExecExplained(env, View(), bufs[b].pkt, hash, acts);
      ghost var goal := Exec(env, View(), bufs[b].pkt, hash, acts);
      ghost var refs := bufs[b].refs;
      var prev: Option<nat> := None;
      var i := 0;
      hash' := hash;
      while i < |acts|
        invariant i <= |acts| && BufsOk() && b in bufs && bufs == old(bufs)[b := Buffer(refs, bufs[b].pkt)]
        invariant refs > 1 ==> bufs[b].pkt == old(bufs)[b].pkt && prev.None?
        invariant Running(View()) && cost == old(cost)
        invariant prev.Some? ==> Size(acts) > 0
        invariant goal == Exec(env, Pending(env, View(), prev, bufs[b].pkt), bufs[b].pkt, hash', acts[i..])
      {
        SizeAt(acts, i);
        if prev.Some? {
          Flush(b, prev.value);
          prev := None;
        }
        var a := acts[i];
        assert acts[i..][1..] == acts[i + 1..];
        ExecStep(env, View(), bufs[b].pkt, hash', acts[i..]);
        if a.Output? {
          OutputFirst(env, View(), bufs[b].pkt, hash', acts[i..]);
          prev := Some(a.port);
        } else {
          ghost var o := One(env, View(), bufs[b].pkt, hash', a);
          var st;
          st, hash' := Perform(b, hash', a, i == |acts| - 1);
          if st.Consumed? {
            assert !st.err ==> acts[i + 1..] == [];
            ExecDone(env, o.0.w, o.1, o.0.hash);
            return st.err, hash';
          }
          if st.Failed? {
            Release(b);
            return true, hash';
          }
        }
        i := i + 1;
      }
      assert acts[i..] == [];
      ExecDone(env, Pending(env, View(), prev, bufs[b].pkt), bufs[b].pkt, hash');
      if prev.Some? {
        DoOutput(b, prev.value);
      } else {
        Release(b);
      }
      err := false;
    }
  }

  /** The world once the output still owed has been made. */
  ghost function Pending(env: Env, w: World, prev: Option<nat>, pkt: Packet): (w': World)
    requires Running(w)
    ensures Running(w')
  {
    if prev.None? then w else Emit(env, w, prev.value, pkt)
  }
}
