/** The joint machine does its work: a packet that fits the long limit goes out, from an empty directory,
    through the queue, the ledger and the radio. The bounds on what goes on the air are not met by silence. */
module FirstPacket {
  import opened Common
  import opened Ledger
  import opened History
  import opened Claims
  import opened Carriage
  import Duty = DutyProtocol
  import Tx = TxPipeline
  import opened Prepayment

  ghost predicate Leads(env: Env, s: State, run: seq<Label>, e: State) {
    env.Valid() && Legal(env, s, run) && Exec(env, s, run) == e
  }

  /** One step in front of a run. */
  lemma First(env: Env, s: State, l: Label, run: seq<Label>, e: State) returns (run': seq<Label>)
    requires env.Valid() && Enabled(env, s, l) && Leads(env, Apply(env, s, l), run, e)
    ensures Leads(env, s, run', e)
  {
    run' := [l] + run;
    assert run'[1..] == run;
  }

  function InPhase(p: nat, ph: Duty.Phase): map<nat, Duty.Phase> {
    map[p := ph]
  }

  /** The packet is out: transmitted, all its frames keyed, and charged once, in full. */
  ghost predicate Out(env: Env, p: nat, data: Bytes, e: State) {
    var c := env.config(p);
    && p in e.nodes && e.nodes[p].tx.finished == [Tx.Done(data, Tx.Transmitted)]
    && FramesFor(c, data, KeyedOf(e.nodes[p].tx.keyed, 0)) && |e.keyed| == |KeyedOf(e.nodes[p].tx.keyed, 0)|
    && e.duty.granted == [Claim(0, PacketAirtime(c, |data|))]
    && |e.duty.history| == 1 && e.duty.history[0].airtime == PacketAirtime(c, |data|)
  }

  // ---------------------------------------------------------------------------
  // On the air

  /** The remaining frames are keyed, one by one, and reception restarts. */
  lemma {:induction false} KeyAll(env: Env, p: nat, data: Bytes, s: State) returns (run: seq<Label>, e: State)
    requires env.Valid() && s.nodes.Keys == {p} && p in s.duty.procs
    requires s.nodes[p].tx.worker.Keying? && s.nodes[p].tx.worker.data == data
    requires s.nodes[p].tx.worker.next <= |s.nodes[p].tx.worker.frames| && s.nodes[p].tx.finished == []
    requires Tx.Reachable(env.config(p), s.nodes[p].tx) && |s.keyed| == |s.nodes[p].tx.keyed|
    ensures Leads(env, s, run, e) && p in e.nodes && e.duty == s.duty
    ensures e.nodes[p].tx.finished == [Tx.Done(data, Tx.Transmitted)]
    ensures Tx.Reachable(env.config(p), e.nodes[p].tx) && |e.keyed| == |e.nodes[p].tx.keyed|
    ensures !e.nodes[p].tx.worker.Keying?
    decreases |s.nodes[p].tx.worker.frames| - s.nodes[p].tx.worker.next
  {
    var c, tx := env.config(p), s.nodes[p].tx;
    if tx.worker.next < |tx.worker.frames| {
      var l := Pipe(p, Tx.Key);
      Tx.ReachableStep(c, tx, Tx.Key);
      run, e := KeyAll(env, p, data, Apply(env, s, l));
      run := First(env, s, l, run, e);
    } else {
      var l := Pipe(p, Tx.Restart);
      Tx.ReachableStep(c, tx, Tx.Restart);
      e := Apply(env, s, l);
      assert Leads(env, e, [], e);
      run := First(env, s, l, [], e);
    }
  }

  // ---------------------------------------------------------------------------
  // Through the ledger

  /** A Duty state of one process on an empty directory, on its way to its first grant. */
  function OnItsWay(p: nat, ph: Duty.Phase, lockFile: bool, holds: bool, disk: Disk, history: seq<Record>,
                    at: Option<Sample>, granted: seq<Claim>): Duty.State
  {
    Duty.State(0.0, lockFile, if holds then Some(p) else None, disk, InPhase(p, ph), history, at,
               if lockFile then 1 else 0, granted)
  }

  /** From the verdict on. */
  lemma Charge(env: Env, p: nat, s: State, now: Sample, airtime: real) returns (run: seq<Label>, e: State)
    requires env.Valid() && s.nodes.Keys == {p} && s.nodes[p].tx.worker.Reserving?
    requires s.duty == OnItsWay(p, Duty.Loaded(airtime, false, false, now, []), true, true,
                                Stored(true, Some(now.clock), []), [], Some(now), [])
    requires airtime > 0.0 && FitsBeside(env.duty.limits, [], airtime, now.clock.wall)
    ensures Leads(env, s, run, e) && e.keyed == s.keyed
    ensures e.duty.granted == [Claim(0, airtime)] && |e.duty.history| == 1 && e.duty.history[0].airtime == airtime
    ensures p in e.duty.procs && e.nodes.Keys == {p}
    ensures e.nodes[p].tx == Tx.Apply(env.config(p), s.nodes[p].tx, Tx.Granted)
  {
    DecideIsFits(env.duty.limits, [], airtime, now.clock.wall);
    var s1 := Apply(env, s, Account(Duty.Verdict(p)));
    assert s1.duty.procs[p] == Duty.Granting(airtime, now, []);
    var s2 := Apply(env, s1, Account(Duty.WriteCharge(p, Written)));
    assert s2.duty.procs[p] == Duty.Leaving(Some(Claim(0, airtime)));
    e := Apply(env, s2, Answer(p, Duty.Return(p, true), Tx.Granted));
    assert Leads(env, e, [], e);
    run := First(env, s2, Answer(p, Duty.Return(p, true), Tx.Granted), [], e);
    run := First(env, s1, Account(Duty.WriteCharge(p, Written)), run, e);
    run := First(env, s, Account(Duty.Verdict(p)), run, e);
  }

  /** From the lock on: the first use reads nothing and writes the empty ledger. */
  lemma Initialise(env: Env, p: nat, s: State, now: Sample, airtime: real) returns (run: seq<Label>, e: State)
    requires env.Valid() && s.nodes.Keys == {p} && s.nodes[p].tx.worker.Reserving?
    requires s.duty == OnItsWay(p, Duty.Holding(Duty.Reserving(airtime), true), true, true, Absent, [], None, [])
    requires now.time == 0.0 && Physical(env.duty.origin, now)
    requires airtime > 0.0 && FitsBeside(env.duty.limits, [], airtime, now.clock.wall)
    ensures Leads(env, s, run, e) && e.keyed == s.keyed
    ensures e.duty.granted == [Claim(0, airtime)] && |e.duty.history| == 1 && e.duty.history[0].airtime == airtime
    ensures p in e.duty.procs && e.nodes.Keys == {p}
    ensures e.nodes[p].tx == Tx.Apply(env.config(p), s.nodes[p].tx, Tx.Granted)
  {
    var s1 := Apply(env, s, Account(Duty.Load(p, now)));
    assert s1.duty.procs[p] == Duty.Loaded(airtime, true, false, now, []);
    var s2 := Apply(env, s1, Account(Duty.WriteInit(p, Written)));
    assert s2.duty.procs == InPhase(p, Duty.Loaded(airtime, false, false, now, []));
    run, e := Charge(env, p, s2, now, airtime);
    run := First(env, s1, Account(Duty.WriteInit(p, Written)), run, e);
    run := First(env, s, Account(Duty.Load(p, now)), run, e);
  }

  /** The whole call. */
  lemma Call(env: Env, p: nat, s: State, now: Sample, airtime: real) returns (run: seq<Label>, e: State)
    requires env.Valid() && s.nodes.Keys == {p} && s.nodes[p].tx.worker.Reserving?
    requires airtime == Tx.AirtimeOf(env.config(p), s.nodes[p].tx.worker.frames)
    requires s.duty == OnItsWay(p, Duty.Idle, false, false, Absent, [], None, [])
    requires now.time == 0.0 && Physical(env.duty.origin, now)
    requires airtime > 0.0 && FitsBeside(env.duty.limits, [], airtime, now.clock.wall)
    ensures Leads(env, s, run, e) && e.keyed == s.keyed
    ensures e.duty.granted == [Claim(0, airtime)] && |e.duty.history| == 1 && e.duty.history[0].airtime == airtime
    ensures p in e.duty.procs && e.nodes.Keys == {p}
    ensures e.nodes[p].tx == Tx.Apply(env.config(p), s.nodes[p].tx, Tx.Granted)
  {
    var ask := Ask(p, Duty.NotFound(p, airtime));
    var s1 := Apply(env, s, ask);
    var s2 := Apply(env, s1, Account(Duty.Create(p)));
    var s3 := Apply(env, s2, Account(Duty.Flock(p)));
    assert s3.duty.procs == InPhase(p, Duty.Holding(Duty.Reserving(airtime), true));
    run, e := Initialise(env, p, s3, now, airtime);
    run := First(env, s2, Account(Duty.Flock(p)), run, e);
    run := First(env, s1, Account(Duty.Create(p)), run, e);
    run := First(env, s, ask, run, e);
  }

  // ---------------------------------------------------------------------------
  // Through the queue

  /** The packet is on its way through a pipeline that has done nothing else, beside an idle account. */
  ghost predicate Fresh(env: Env, p: nat, data: Bytes, s: State, now: Sample) {
    && env.Valid() && |data| <= Tx.MaxPacket(env.config(p))
    && s.nodes.Keys == {p} && Tx.Reachable(env.config(p), s.nodes[p].tx) && s.keyed == []
    && s.nodes[p].tx.finished == [] && s.nodes[p].tx.keyed == [] && s.nodes[p].tx.run
    && s.duty == OnItsWay(p, Duty.Idle, false, false, Absent, [], None, [])
    && now.time == 0.0 && Physical(env.duty.origin, now)
    && FitsBeside(env.duty.limits, [], PacketAirtime(env.config(p), |data|), now.clock.wall)
  }

  /** The worker holds its frames. */
  lemma Framed(env: Env, p: nat, data: Bytes, s: State, now: Sample) returns (run: seq<Label>, e: State)
    requires Fresh(env, p, data, s, now)
    requires s.nodes[p].tx.worker == Tx.Reserving(data, Tx.FramesOf(env.config(p), data, 0))
    ensures Leads(env, s, run, e) && Out(env, p, data, e)
  {
    var c, frames := env.config(p), Tx.FramesOf(env.config(p), data, 0);
    assert FramesFor(c, data, frames);
    AirtimeByLength(c, data, frames);
    var m, mid, rest;
    m, mid := Call(env, p, s, now, PacketAirtime(c, |data|));
    Tx.ReachableStep(c, s.nodes[p].tx, Tx.Granted);
    rest, e := KeyAll(env, p, data, mid);
    run := Joined(env, s, m, mid, rest, e);
    AllKeyed(c, e.nodes[p].tx);
  }

  /** The worker has seen it. */
  lemma Popped(env: Env, p: nat, data: Bytes, s: State, now: Sample) returns (run: seq<Label>, e: State)
    requires Fresh(env, p, data, s, now) && s.nodes[p].tx.worker.Popping? && s.nodes[p].tx.queue == [data]
    ensures Leads(env, s, run, e) && Out(env, p, data, e)
  {
    var l := Pipe(p, Tx.Pop(0));
    Tx.ReachableStep(env.config(p), s.nodes[p].tx, l.t);
    run, e := Framed(env, p, data, Apply(env, s, l), now);
    run := First(env, s, l, run, e);
  }

  /** It is in the queue. */
  lemma Queued(env: Env, p: nat, data: Bytes, s: State, now: Sample) returns (run: seq<Label>, e: State)
    requires Fresh(env, p, data, s, now) && s.nodes[p].tx.worker.Waiting? && s.nodes[p].tx.queue == [data]
    ensures Leads(env, s, run, e) && Out(env, p, data, e)
  {
    var l := Pipe(p, Tx.Look);
    Tx.ReachableStep(env.config(p), s.nodes[p].tx, l.t);
    run, e := Popped(env, p, data, Apply(env, s, l), now);
    run := First(env, s, l, run, e);
  }

  /** It passed the length check, and the queue had room. */
  lemma Accepted(env: Env, p: nat, data: Bytes, s: State, now: Sample) returns (run: seq<Label>, e: State)
    requires Fresh(env, p, data, s, now) && s.nodes[p].tx.worker.Waiting? && s.nodes[p].tx.queue == []
    requires s.nodes[p].tx.producer == Tx.Appending(data)
    ensures Leads(env, s, run, e) && Out(env, p, data, e)
  {
    var l := Pipe(p, Tx.Append);
    Tx.ReachableStep(env.config(p), s.nodes[p].tx, l.t);
    run, e := Queued(env, p, data, Apply(env, s, l), now);
    run := First(env, s, l, run, e);
  }

  lemma {:induction false} Joined(env: Env, s: State, a: seq<Label>, m: State, b: seq<Label>, e: State)
      returns (run: seq<Label>)
    requires Leads(env, s, a, m) && Leads(env, m, b, e)
    ensures Leads(env, s, run, e)
    decreases |a|
  {
    run := b;
    if a != [] {
      run := Joined(env, Apply(env, s, a[0]), a[1..], m, b, e);
      run := First(env, s, a[0], run, e);
    }
  }

  /** A pipeline that has transmitted one packet and holds none has keyed just its frames. */
  lemma AllKeyed(c: Tx.Config, tx: Tx.State)
    requires Tx.Reachable(c, tx) && |tx.finished| == 1 && tx.finished[0].fate.Transmitted? && !tx.worker.Keying?
    ensures FramesFor(c, tx.finished[0].data, KeyedOf(tx.keyed, 0)) && |KeyedOf(tx.keyed, 0)| == |tx.keyed|
  {
    ReachableCarries(c, tx);
    assert WentOut(c, tx.finished[0], KeyedOf(tx.keyed, 0));
    forall k | k in tx.keyed
      ensures k.packet == 0
    {
    }
    OnePacketKeyed(tx.keyed);
  }

  lemma {:induction false} OnePacketKeyed(ks: seq<Tx.Keyed>)
    requires forall k <- ks :: k.packet == 0
    ensures |KeyedOf(ks, 0)| == |ks|
  {
    if ks != [] {
      assert ks[|ks| - 1] in ks;
      OnePacketKeyed(ks[..|ks| - 1]);
    }
  }

  /** From an empty directory, for every configuration, packet and clock: if the packet's airtime fits the
      long limit, a run offers it, charges it, keys all its frames and finishes it as transmitted. */
  lemma FirstPacketGoesOut(env: Env, p: nat, data: Bytes, now: Sample) returns (run: seq<Label>, e: State)
    requires env.Valid() && |data| <= Tx.MaxPacket(env.config(p))
    requires now.time == 0.0 && Physical(env.duty.origin, now)
    requires PacketAirtime(env.config(p), |data|) * 100.0 <= env.duty.limits.longLimit * env.duty.limits.longWindow
    ensures Leads(env, Start({p}, {p}), run, e) && Out(env, p, data, e)
  {
    var c, s, l := env.config(p), Start({p}, {p}), Pipe(p, Tx.Offer(data));
    assert Tx.Legal(c, Tx.START, []) && Tx.Exec(c, Tx.START, []) == Tx.START;
    assert s.duty.procs == InPhase(p, Duty.Idle);
    Tx.ReachableStep(c, s.nodes[p].tx, l.t);
    run, e := Accepted(env, p, data, Apply(env, s, l), now);
    run := First(env, s, l, run, e);
  }
}
