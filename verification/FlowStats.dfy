/** A flow's statistics, one record per NUMA node, as the CPUs update and read
    them concurrently: record 0 exists from the start, the others are added
    while its lock is held.  Reading a pointer, taking or dropping a lock,
    reading the counters, writing each of them and publishing a record are
    steps of their own; looking at the last writer and at the pointer again,
    and setting the last writer, is one step, since all of that is done under
    the lock of record 0. */
module FlowStats {
  import opened Options

  /** A record, with the address it was allocated at. */
  datatype Stats = Stats(addr: nat, packets: nat, bytes: nat)

  /** Where a CPU is in ovs_flow_stats_update, with the length of its packet,
      or in ovs_flow_stats_get, with the record it is at and its totals. */
  datatype Pc =
    | Idle
    | Waiting(slot: nat, len: nat)
    | Holding(slot: nat, len: nat)
    | Publishing(len: nat)
    | Updating(slot: nat, len: nat)
    | Loaded(slot: nat, len: nat, packets: nat, bytes: nat)
    | Half(slot: nat, len: nat, bytes: nat)
    | Releasing(slot: nat)
    | Adding(phase: Phase, slot: nat, packets: nat, bytes: nat)

  /** With one record: about to look at the pointer, to lock, to read, to
      unlock. */
  datatype Phase = Look | Lock | Read | Unlock

  datatype Cpu = Cpu(node: nat, pc: Pc)

  datatype Sys = Sys(stats: seq<Option<Stats>>, locks: seq<Option<nat>>, lastWriter: Option<nat>, cpus: seq<Cpu>,
                     begunPackets: nat, begunBytes: nat)

  /** What a CPU does next: start on a packet, take the lock, look at the last
      writer and perhaps allocate a record, publish it, read the counters,
      write them back, drop the lock; or start to add up the records, and for
      each look whether it is there, take its lock, read it, drop the lock. */
  datatype Act = Begin(len: nat) | Acquire | Decide(memory: bool) | Publish(addr: nat) | Load | Store | Release | BeginGet | Visit

  ghost predicate Shape(s: Sys) {
    && |s.stats| == |s.locks| > 0 && s.stats[0].Some?
    && forall c :: 0 <= c < |s.cpus| ==> s.cpus[c].node < |s.stats| && SlotOk(s.cpus[c], |s.stats|)
  }

  predicate SlotOk(cpu: Cpu, n: nat) {
    match cpu.pc
    case Idle => true
    case Publishing(_) => cpu.node != 0
    case Releasing(slot) => slot < n
    case Adding(phase, slot, _, _) => slot <= n && (phase != Look ==> slot < n)
    case pc => pc.slot < n && (pc.slot == cpu.node || pc.slot == 0)
  }

  ghost predicate Enabled(s: Sys, c: nat, a: Act)
    requires Shape(s)
  {
    c < |s.cpus| &&
    match s.cpus[c].pc
    case Idle => a.Begin? || a == BeginGet
    case Waiting(slot, _) => a == Acquire && s.locks[slot] == None
    case Holding(_, _) => a.Decide?
    case Publishing(_) => a.Publish?
    case Updating(slot, _) => a == Load && s.stats[slot].Some?
    case Loaded(slot, _, _, _) => a == Store && s.stats[slot].Some?
    case Half(slot, _, _) => a == Store && s.stats[slot].Some?
    case Releasing(_) => a == Release
    case Adding(phase, slot, _, _) =>
      a == Visit && (phase == Lock ==> s.locks[slot] == None) && (phase == Read ==> s.stats[slot].Some?)
  }

  function At(s: Sys, c: nat, pc: Pc): Sys
    requires c < |s.cpus|
  {
    s.(cpus := s.cpus[c := s.cpus[c].(pc := pc)])
  }

  /** What a CPU that holds the lock does about records. */
  function Decided(s: Sys, c: nat, slot: nat, len: nat, memory: bool): Sys
    requires c < |s.cpus| && s.cpus[c].node < |s.stats|
  {
    var node := s.cpus[c].node;
    if slot == node || s.lastWriter == Some(node) then
      At(if node == 0 then s.(lastWriter := Some(0)) else s, c, Updating(slot, len))
    else if s.lastWriter != None && s.stats[node] == None && memory then At(s, c, Publishing(len))
    else At(s.(lastWriter := Some(node)), c, Updating(slot, len))
  }

  ghost function Next(s: Sys, c: nat, a: Act): Sys
    requires Shape(s) && Enabled(s, c, a)
  {
    var node := s.cpus[c].node;
    match s.cpus[c].pc
    case Idle =>
      if a == BeginGet then At(s, c, Adding(Look, 0, 0, 0)) else
      At(s.(begunPackets := s.begunPackets + 1, begunBytes := s.begunBytes + a.len), c,
         Waiting(if s.stats[node].Some? then node else 0, a.len))
    case Waiting(slot, len) => At(s.(locks := s.locks[slot := Some(c)]), c, Holding(slot, len))
    case Holding(slot, len) => Decided(s, c, slot, len, a.memory)
    case Publishing(len) => At(s.(stats := s.stats[node := Some(Stats(a.addr, 1, len))]), c, Releasing(0))
    case Updating(slot, len) => At(s, c, Loaded(slot, len, s.stats[slot].value.packets, s.stats[slot].value.bytes))
    case Loaded(slot, len, packets, bytes) =>
      At(s.(stats := s.stats[slot := Some(s.stats[slot].value.(packets := packets + 1))]), c, Half(slot, len, bytes))
    case Half(slot, len, bytes) =>
      At(s.(stats := s.stats[slot := Some(s.stats[slot].value.(bytes := bytes + len))]), c, Releasing(slot))
    case Releasing(slot) => At(s.(locks := s.locks[slot := None]), c, Idle)
    case Adding(_, _, _, _) => Add(s, c)
  }

  /** A step of ovs_flow_stats_get. */
  ghost function Add(s: Sys, c: nat): Sys
    requires Shape(s) && c < |s.cpus| && s.cpus[c].pc.Adding?
    requires s.cpus[c].pc.phase == Read ==> s.stats[s.cpus[c].pc.slot].Some?
  {
    var pc := s.cpus[c].pc;
    match pc.phase
    case Look =>
      At(s, c, if pc.slot == |s.stats| then Idle
               else if s.stats[pc.slot] == None then pc.(slot := pc.slot + 1)
               else pc.(phase := Lock))
    case Lock => At(s.(locks := s.locks[pc.slot := Some(c)]), c, pc.(phase := Read))
    case Read =>
      var x := s.stats[pc.slot].value;
      At(s, c, Adding(Unlock, pc.slot, pc.packets + x.packets, pc.bytes + x.bytes))
    case Unlock => At(s.(locks := s.locks[pc.slot := None]), c, pc.(phase := Look, slot := pc.slot + 1))
  }

  // ------------------------------------------------ what every step keeps

  function SlotHeld(pc: Pc): Option<nat> {
    match pc
    case Idle => None
    case Waiting(_, _) => None
    case Publishing(_) => Some(0)
    case Adding(phase, slot, _, _) => if phase == Read || phase == Unlock then Some(slot) else None
    case p => Some(p.slot)
  }

  /** A CPU holds the lock of the record it works on, the record exists and,
      between reading and writing, has not changed; a CPU about to publish a
      record found none and there still is none. */
  ghost predicate CpuOk(s: Sys, c: nat)
    requires Shape(s) && c < |s.cpus|
  {
    var cpu := s.cpus[c];
    && (SlotHeld(cpu.pc).Some? ==> s.locks[SlotHeld(cpu.pc).value] == Some(c))
    && (match cpu.pc
        case Idle => true
        case Adding(phase, slot, _, _) => phase != Look ==> s.stats[slot].Some?
        case Publishing(_) => s.stats[cpu.node] == None
        case Half(slot, _, bytes) => s.stats[slot].Some? && s.stats[slot].value.bytes == bytes
        case Loaded(slot, _, packets, bytes) => s.stats[slot].Some? && s.stats[slot].value.packets == packets && s.stats[slot].value.bytes == bytes
        case pc => s.stats[pc.slot].Some?)
  }

  ghost predicate Inv(s: Sys) {
    && Shape(s) && (forall c :: 0 <= c < |s.cpus| ==> CpuOk(s, c))
    && s.begunPackets == SumPackets(s.stats) + SumOwed(s.cpus, false)
    && s.begunBytes == SumBytes(s.stats) + SumOwed(s.cpus, true)
  }

  function SumPackets(stats: seq<Option<Stats>>): nat {
    if stats == [] then 0 else PacketsOf(stats[0]) + SumPackets(stats[1..])
  }

  function PacketsOf(x: Option<Stats>): nat {
    if x.Some? then x.value.packets else 0
  }

  function SumBytes(stats: seq<Option<Stats>>): nat {
    if stats == [] then 0 else BytesOf(stats[0]) + SumBytes(stats[1..])
  }

  function BytesOf(x: Option<Stats>): nat {
    if x.Some? then x.value.bytes else 0
  }

  /** What a CPU has begun but not yet counted. */
  function Owed(pc: Pc, bytes: bool): nat {
    if pc.Waiting? || pc.Holding? || pc.Publishing? || pc.Updating? || pc.Loaded? then if bytes then pc.len else 1
    else if pc.Half? && bytes then pc.len else 0
  }

  function SumOwed(cpus: seq<Cpu>, bytes: bool): nat {
    if cpus == [] then 0 else Owed(cpus[0].pc, bytes) + SumOwed(cpus[1..], bytes)
  }

  lemma {:induction false} SumStatsUpdate(stats: seq<Option<Stats>>, k: nat, x: Option<Stats>)
    requires k < |stats|
    ensures SumPackets(stats[k := x]) == SumPackets(stats) - PacketsOf(stats[k]) + PacketsOf(x)
    ensures SumBytes(stats[k := x]) == SumBytes(stats) - BytesOf(stats[k]) + BytesOf(x)
  {
    if k == 0 {
      assert stats[k := x][1..] == stats[1..];
    } else {
      SumStatsUpdate(stats[1..], k - 1, x);
      assert stats[k := x][1..] == stats[1..][k - 1 := x];
    }
  }

  lemma {:induction false} SumOwedUpdate(cpus: seq<Cpu>, c: nat, cpu: Cpu, bytes: bool)
    requires c < |cpus|
    ensures SumOwed(cpus[c := cpu], bytes) == SumOwed(cpus, bytes) - Owed(cpus[c].pc, bytes) + Owed(cpu.pc, bytes)
  {
    if c == 0 {
      assert cpus[c := cpu][1..] == cpus[1..];
    } else {
      SumOwedUpdate(cpus[1..], c - 1, cpu, bytes);
      assert cpus[c := cpu][1..] == cpus[1..][c - 1 := cpu];
    }
  }

  lemma NextShape(s: Sys, c: nat, a: Act)
    requires Inv(s) && Enabled(s, c, a)
    ensures Shape(Next(s, c, a))
  {
    hide SumPackets, SumBytes, SumOwed;
  }

  lemma NextSelf(s: Sys, c: nat, a: Act)
    requires Inv(s) && Enabled(s, c, a) && Shape(Next(s, c, a))
    ensures CpuOk(Next(s, c, a), c)
  {
    hide Inv, Add;
    CpusOf(s, c);
    if s.cpus[c].pc.Adding? {
      AddSelf(s, c);
    }
  }

  lemma AddSelf(s: Sys, c: nat)
    requires Shape(s) && c < |s.cpus| && CpuOk(s, c) && s.cpus[c].pc.Adding? && Shape(Add(s, c))
    ensures CpuOk(Add(s, c), c)
  {
  }

  lemma AddQuiet(s: Sys, c: nat)
    requires Shape(s) && c < |s.cpus| && CpuOk(s, c) && s.cpus[c].pc.Adding?
    ensures var t := Add(s, c);
            && t.stats == s.stats && t.begunPackets == s.begunPackets && t.begunBytes == s.begunBytes
            && t.cpus == s.cpus[c := t.cpus[c]] && Owed(t.cpus[c].pc, true) == Owed(t.cpus[c].pc, false) == 0
  {
  }

  /** A step changes a lock only from or to c's, a record only under its lock,
      and adds one only under the lock of record 0. */
  ghost predicate Frame(s: Sys, t: Sys, c: nat) {
    && |t.stats| == |s.stats| == |s.locks| == |t.locks| > 0 && |t.cpus| == |s.cpus|
    && (forall d :: 0 <= d < |s.cpus| && d != c ==> t.cpus[d] == s.cpus[d])
    && (forall k :: 0 <= k < |s.stats| ==>
          && (t.locks[k] == s.locks[k] || s.locks[k] == None || s.locks[k] == Some(c))
          && (s.stats[k].Some? ==> t.stats[k].Some? && (s.locks[k] == Some(c) || t.stats[k] == s.stats[k]))
          && (s.stats[k] == None ==> t.stats[k] == None || s.locks[0] == Some(c)))
  }

  lemma NextFrame(s: Sys, c: nat, a: Act)
    requires Shape(s) && c < |s.cpus| && CpuOk(s, c) && Enabled(s, c, a)
    ensures Frame(s, Next(s, c, a), c)
  {
  }

  /** The other CPUs are not disturbed. */
  lemma NextOthers(s: Sys, c: nat, a: Act, d: nat)
    requires Inv(s) && Enabled(s, c, a) && Shape(Next(s, c, a)) && d < |s.cpus| && d != c
    ensures CpuOk(Next(s, c, a), d)
  {
    hide Inv, Next;
    CpusOf(s, c);
    CpusOf(s, d);
    NextFrame(s, c, a);
  }

  lemma CpusOf(s: Sys, c: nat)
    requires Inv(s) && c < |s.cpus|
    ensures Shape(s) && CpuOk(s, c)
  {
    hide SumPackets, SumBytes, SumOwed;
  }

  lemma NextSums(s: Sys, c: nat, a: Act)
    requires Inv(s) && Enabled(s, c, a)
    ensures var t := Next(s, c, a);
            && t.begunPackets == SumPackets(t.stats) + SumOwed(t.cpus, false)
            && t.begunBytes == SumBytes(t.stats) + SumOwed(t.cpus, true)
  {
    hide SumPackets, SumBytes, SumOwed, Add;
    assert CpuOk(s, c);
    var t := Next(s, c, a);
    if s.cpus[c].pc.Adding? {
      AddQuiet(s, c);
    }
    SumOwedUpdate(s.cpus, c, t.cpus[c], false);
    SumOwedUpdate(s.cpus, c, t.cpus[c], true);
    var pc := s.cpus[c].pc;
    if pc.Publishing? {
      SumStatsUpdate(s.stats, s.cpus[c].node, t.stats[s.cpus[c].node]);
    } else if pc.Loaded? || pc.Half? {
      SumStatsUpdate(s.stats, pc.slot, t.stats[pc.slot]);
    }
  }

  lemma NextInv(s: Sys, c: nat, a: Act)
    requires Inv(s) && Enabled(s, c, a)
    ensures Inv(Next(s, c, a))
  {
    hide SumPackets, SumBytes, SumOwed, CpuOk, Next;
    NextShape(s, c, a);
    NextSums(s, c, a);
    var t := Next(s, c, a);
    NextSize(s, c, a);
    forall d | 0 <= d < |t.cpus| ensures CpuOk(t, d) {
      if d == c {
        NextSelf(s, c, a);
      } else {
        NextOthers(s, c, a, d);
      }
    }
  }

  lemma NextSize(s: Sys, c: nat, a: Act)
    requires Shape(s) && Enabled(s, c, a)
    ensures |Next(s, c, a).cpus| == |s.cpus|
  {
  }

  // ------------------------------------------------ every interleaving

  type Trace = seq<(nat, Act)>

  ghost predicate Runs(s: Sys, t: Trace)
    decreases |t|
  {
    t == [] || (Shape(s) && Enabled(s, t[0].0, t[0].1) && Runs(Next(s, t[0].0, t[0].1), t[1..]))
  }

  ghost function After(s: Sys, t: Trace): Sys
    requires Runs(s, t)
    decreases |t|
  {
    if t == [] then s else After(Next(s, t[0].0, t[0].1), t[1..])
  }

  /** The records that exist stay where they are, and only grow. */
  ghost predicate Grown(s: Sys, t: Sys) {
    && |t.stats| == |s.stats|
    && forall k :: 0 <= k < |s.stats| && s.stats[k].Some? ==>
         && t.stats[k].Some? && t.stats[k].value.addr == s.stats[k].value.addr
         && t.stats[k].value.packets >= s.stats[k].value.packets && t.stats[k].value.bytes >= s.stats[k].value.bytes
  }

  lemma NextGrown(s: Sys, c: nat, a: Act)
    requires Inv(s) && Enabled(s, c, a)
    ensures Grown(s, Next(s, c, a))
  {
    hide SumPackets, SumBytes, SumOwed;
    assert CpuOk(s, c);
  }

  /** In every interleaving, the counters over all nodes are those of the
      packets begun less those still under way, and no record once allocated
      is ever replaced. */
  lemma {:induction false} EveryInterleaving(s: Sys, t: Trace)
    requires Inv(s) && Runs(s, t)
    ensures Inv(After(s, t)) && Grown(s, After(s, t))
    decreases |t|
  {
    hide Inv, Enabled, Next;
    if t != [] {
      NextInv(s, t[0].0, t[0].1);
      NextGrown(s, t[0].0, t[0].1);
      EveryInterleaving(Next(s, t[0].0, t[0].1), t[1..]);
    }
  }

  /** A new flow: record 0 is there, nobody has written it. */
  ghost predicate Fresh(s: Sys) {
    && |s.stats| == |s.locks| > 0 && s.lastWriter == None && s.begunPackets == 0 && s.begunBytes == 0
    && s.stats[0].Some? && s.stats[0].value.packets == 0 && s.stats[0].value.bytes == 0
    && (forall k :: 1 <= k < |s.stats| ==> s.stats[k] == None)
    && forall c :: 0 <= c < |s.cpus| ==> s.cpus[c].node < |s.stats| && s.cpus[c].pc == Idle
  }

  lemma {:induction false} NothingCounted(stats: seq<Option<Stats>>)
    requires forall k :: 0 <= k < |stats| ==> PacketsOf(stats[k]) == 0 && BytesOf(stats[k]) == 0
    ensures SumPackets(stats) == 0 && SumBytes(stats) == 0
  {
    if stats != [] {
      NothingCounted(stats[1..]);
    }
  }

  lemma {:induction false} NothingOwed(cpus: seq<Cpu>)
    requires forall c :: 0 <= c < |cpus| ==> cpus[c].pc == Idle
    ensures SumOwed(cpus, false) == 0 && SumOwed(cpus, true) == 0
  {
    if cpus != [] {
      NothingOwed(cpus[1..]);
    }
  }

  /** Whenever no CPU is in the middle of an update, every packet of every
      update has been counted, once. */
  lemma AllCounted(s: Sys, t: Trace)
    requires Fresh(s) && Runs(s, t)
    requires forall c :: 0 <= c < |After(s, t).cpus| ==> After(s, t).cpus[c].pc == Idle
    ensures SumPackets(After(s, t).stats) == After(s, t).begunPackets && SumBytes(After(s, t).stats) == After(s, t).begunBytes
  {
    hide Runs, After, SumPackets, SumBytes, SumOwed;
    NothingCounted(s.stats);
    NothingOwed(s.cpus);
    assert Inv(s);
    EveryInterleaving(s, t);
    NothingOwed(After(s, t).cpus);
  }

  // ------------------------------------------------ when records are added

  /** All CPUs are on one node, which alone has written so far. */
  ghost predicate OneNode(s: Sys, n: nat) {
    && (s.lastWriter == None || s.lastWriter == Some(n))
    && forall c :: 0 <= c < |s.cpus| ==> s.cpus[c].node == n && !s.cpus[c].pc.Publishing?
  }

  lemma OneNodeStep(s: Sys, c: nat, a: Act, n: nat)
    requires Shape(s) && Enabled(s, c, a) && OneNode(s, n)
    ensures OneNode(Next(s, c, a), n) && |Next(s, c, a).stats| == |s.stats|
    ensures forall k :: 0 <= k < |s.stats| ==> (Next(s, c, a).stats[k].Some? <==> s.stats[k].Some?)
  {
  }

  /** While only one node writes, it keeps to the record that is there. */
  lemma {:induction false} OnlyWriter(s: Sys, t: Trace, n: nat)
    requires Runs(s, t) && OneNode(s, n)
    ensures OneNode(After(s, t), n) && |After(s, t).stats| == |s.stats|
    ensures forall k :: 0 <= k < |s.stats| ==> (After(s, t).stats[k].Some? <==> s.stats[k].Some?)
    decreases |t|
  {
    hide OneNode, Enabled, Next;
    if t != [] {
      OneNodeStep(s, t[0].0, t[0].1, n);
      OnlyWriter(Next(s, t[0].0, t[0].1), t[1..], n);
    }
  }

  /** A second node gets a record of its own, with the packet that brought it,
      exactly if it has none yet and there is memory. */
  lemma SecondWriter(s: Sys, c: nat, memory: bool, addr: nat, len: nat)
    requires Shape(s) && c < |s.cpus| && s.cpus[c].pc == Holding(0, len) && s.cpus[c].node != 0
    requires s.lastWriter.Some? && s.lastWriter.value != s.cpus[c].node
    ensures Shape(Next(s, c, Decide(memory)))
    ensures var s', node := Next(s, c, Decide(memory)), s.cpus[c].node;
            && (s'.cpus[c].pc.Publishing? <==> memory && s.stats[node] == None)
            && (s'.cpus[c].pc.Publishing? ==> Next(s', c, Publish(addr)).stats == s.stats[node := Some(Stats(addr, 1, len))])
            && (!s'.cpus[c].pc.Publishing? ==> s'.cpus[c].pc == Updating(0, len) && s'.lastWriter == Some(node))
  {
  }

  // ------------------------------------------------ reading the totals

  /** While a CPU holds a record to read it, nobody is writing it. */
  lemma ReadAlone(s: Sys, c: nat, d: nat)
    requires Inv(s) && c < |s.cpus| && d < |s.cpus| && c != d && s.cpus[c].pc.Adding? && s.cpus[c].pc.phase == Read
    ensures SlotHeld(s.cpus[d].pc) != Some(s.cpus[c].pc.slot)
  {
    hide Inv;
    CpusOf(s, c);
    CpusOf(s, d);
  }

  /** CPU c adds up the records all through the trace: it does not finish. */
  ghost predicate Busy(s: Sys, t: Trace, c: nat)
    requires Runs(s, t)
    decreases |t|
  {
    c < |s.cpus| && s.cpus[c].pc.Adding? && (t != [] ==> Busy(Next(s, t[0].0, t[0].1), t[1..], c))
  }

  /** How many records the CPU has dealt with. */
  function Done(pc: Pc): nat
    requires pc.Adding?
  {
    if pc.phase == Unlock then pc.slot + 1 else pc.slot
  }

  /** Its totals lie between those of the records it has dealt with as they
      were at the start and as they are now. */
  ghost predicate Between(s0: Sys, s: Sys, c: nat)
    requires Shape(s) && c < |s.cpus| && |s0.stats| == |s.stats|
  {
    var pc := s.cpus[c].pc;
    pc.Adding? ==>
      && Done(pc) <= |s.stats|
      && SumPackets(s0.stats[..Done(pc)]) <= pc.packets <= SumPackets(s.stats[..Done(pc)])
      && SumBytes(s0.stats[..Done(pc)]) <= pc.bytes <= SumBytes(s.stats[..Done(pc)])
  }

  lemma {:induction false} SumsGrow(s: seq<Option<Stats>>, t: seq<Option<Stats>>, k: nat)
    requires k <= |s| == |t|
    requires forall i :: 0 <= i < |s| ==> PacketsOf(s[i]) <= PacketsOf(t[i]) && BytesOf(s[i]) <= BytesOf(t[i])
    ensures SumPackets(s[..k]) <= SumPackets(t[..k]) && SumBytes(s[..k]) <= SumBytes(t[..k])
  {
    if k > 0 {
      SumsGrow(s[1..], t[1..], k - 1);
      assert s[..k][1..] == s[1..][..k - 1] && t[..k][1..] == t[1..][..k - 1];
    }
  }

  lemma {:induction false} SumsNext(s: seq<Option<Stats>>, k: nat)
    requires k < |s|
    ensures SumPackets(s[..k + 1]) == SumPackets(s[..k]) + PacketsOf(s[k])
    ensures SumBytes(s[..k + 1]) == SumBytes(s[..k]) + BytesOf(s[k])
  {
    if k == 0 {
      assert s[..1][1..] == [];
    } else {
      SumsNext(s[1..], k - 1);
      assert s[..k + 1][1..] == s[1..][..k] && s[..k][1..] == s[1..][..k - 1];
    }
  }

  lemma GrownSums(s: Sys, t: Sys, k: nat)
    requires Grown(s, t) && k <= |s.stats|
    ensures SumPackets(s.stats[..k]) <= SumPackets(t.stats[..k]) && SumBytes(s.stats[..k]) <= SumBytes(t.stats[..k])
  {
    hide SumPackets, SumBytes;
    SumsGrow(s.stats, t.stats, k);
  }

  lemma GrownAt(s: Sys, t: Sys, k: nat)
    requires Grown(s, t) && k < |s.stats|
    ensures PacketsOf(s.stats[k]) <= PacketsOf(t.stats[k]) && BytesOf(s.stats[k]) <= BytesOf(t.stats[k])
    ensures SumPackets(s.stats[..k + 1]) == SumPackets(s.stats[..k]) + PacketsOf(s.stats[k])
    ensures SumBytes(s.stats[..k + 1]) == SumBytes(s.stats[..k]) + BytesOf(s.stats[k])
    ensures SumPackets(t.stats[..k + 1]) == SumPackets(t.stats[..k]) + PacketsOf(t.stats[k])
    ensures SumBytes(t.stats[..k + 1]) == SumBytes(t.stats[..k]) + BytesOf(t.stats[k])
  {
    hide SumPackets, SumBytes;
    SumsNext(s.stats, k);
    SumsNext(t.stats, k);
  }

  lemma NextBetween(s0: Sys, s: Sys, x: nat, a: Act, c: nat)
    requires Inv(s) && Enabled(s, x, a) && Grown(s0, s) && c < |s.cpus| && s.cpus[c].pc.Adding? && Between(s0, s, c)
    requires Inv(Next(s, x, a)) && Grown(s, Next(s, x, a))
    ensures |Next(s, x, a).cpus| == |s.cpus| && Between(s0, Next(s, x, a), c)
  {
    hide SumPackets, SumBytes, SumOwed, Inv, CpuOk;
    CpusOf(s, x);
    var pc := s.cpus[c].pc;
    if x == c {
      if Done(pc) < |s.stats| {
        GrownAt(s0, s, Done(pc));
      }
    } else {
      hide Next;
      NextFrame(s, x, a);
      GrownSums(s, Next(s, x, a), Done(pc));
    }
  }

  lemma {:induction false} StaysBetween(s0: Sys, s: Sys, t: Trace, c: nat)
    requires Inv(s) && Runs(s, t) && Busy(s, t, c) && Grown(s0, s) && Between(s0, s, c)
    ensures Shape(After(s, t)) && c < |After(s, t).cpus| && Inv(After(s, t)) && Grown(s0, After(s, t)) && Between(s0, After(s, t), c)
    decreases |t|
  {
    hide Inv, Enabled, Next, SumPackets, SumBytes;
    CpusOf(s, c);
    if t != [] {
      var s1 := Next(s, t[0].0, t[0].1);
      NextInv(s, t[0].0, t[0].1);
      NextGrown(s, t[0].0, t[0].1);
      NextBetween(s0, s, t[0].0, t[0].1, c);
      StaysBetween(s0, s1, t[1..], c);
    }
  }

  /** ovs_flow_stats_get in any interleaving with updates: the totals it ends
      with are at least what had been counted when it began and at most what
      has been when it ends, hence no more than was ever begun. */
  lemma GetBetween(s: Sys, t: Trace, c: nat)
    requires Inv(s) && Runs(s, t) && Busy(s, t, c) && s.cpus[c].pc == Adding(Look, 0, 0, 0)
    requires c < |After(s, t).cpus| && var pc := After(s, t).cpus[c].pc; pc.Adding? && pc.phase == Look && pc.slot == |After(s, t).stats|
    ensures var s', pc := After(s, t), After(s, t).cpus[c].pc;
            && SumPackets(s.stats) <= pc.packets <= SumPackets(s'.stats) <= s'.begunPackets
            && SumBytes(s.stats) <= pc.bytes <= SumBytes(s'.stats) <= s'.begunBytes
  {
    hide Runs, After, SumPackets, SumBytes, SumOwed;
    StartsBetween(s, c);
    StaysBetween(s, s, t, c);
    var s' := After(s, t);
    assert s.stats[..|s.stats|] == s.stats && s'.stats[..|s'.stats|] == s'.stats;
  }

  lemma StartsBetween(s: Sys, c: nat)
    requires Shape(s) && c < |s.cpus| && s.cpus[c].pc == Adding(Look, 0, 0, 0)
    ensures Grown(s, s) && Between(s, s, c)
  {
  }
}
