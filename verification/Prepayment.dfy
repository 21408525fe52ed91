/** The interfaces and the account together: any number of processes, each with its transmit pipeline,
    reserve through one ledger, step by step. What is put on the air is tied to the charge that paid it. */
module Prepayment {
  import opened Common
  import opened History
  import opened Claims
  import Duty = DutyProtocol
  import DutyCalls
  import Tx = TxPipeline
  import opened Carriage

  /** The account's surroundings, and the configuration of every interface. */
  datatype Env = Env(duty: Duty.Env, config: nat -> Tx.Config) {
    ghost predicate Valid() {
      duty.limits.Valid() && forall p: nat :: config(p).Valid()
    }
  }

  /** An interface, and the charge of its last grant. */
  datatype Node = Node(tx: Tx.State, charge: nat)

  /** `keyed` is everything ever put on the air, each frame with the charge of its packet; `times` are the
      instants of true time at which that happened. */
  datatype State = State(duty: Duty.State, nodes: map<nat, Node>, keyed: seq<Claim>, times: seq<real>)

  datatype Label =
    | Account(d: Duty.Label)                                     // clock, deletion, others, inside a call
    | Pipe(p: nat, t: Tx.Label)                                  // the interface without the account
    | Ask(p: nat, d: Duty.Label)                                 // `reserve` is called
    | Answer(p: nat, d: Duty.Label, t: Tx.Label)                 // `reserve` returns or raises
    | Crash(p: nat)                                              // the process dies and is started again

  // ---------------------------------------------------------------------------
  // The steps

  /** A step a process takes inside its call. */
  predicate Inner(d: Duty.Label) {
    || d.Create? || d.LostRace? || d.Flock? || d.Load? || d.LoadFails?
    || d.WriteInit? || d.WriteRebase? || d.Verdict? || d.WriteCharge?
  }

  predicate Calls(p: nat, airtime: real, d: Duty.Label) {
    d == Duty.Open(p, Duty.Reserving(airtime)) || d == Duty.NotFound(p, airtime)
  }

  predicate Returns(p: nat, d: Duty.Label) {
    (d.Return? || d.GiveUp?) && d.p == p
  }

  /** The step tells its caller that it may transmit. */
  predicate Grants(s: Duty.State, d: Duty.Label) {
    d.Return? && d.unlocked && d.p in s.procs && s.procs[d.p].Leaving? && s.procs[d.p].grant.Some?
  }

  predicate Replies(t: Tx.Label) {
    t.Granted? || t.Denied? || t.GiveUp? || t.LedgerFault?
  }

  ghost predicate Enabled(env: Env, s: State, l: Label) {
    match l
    case Account(d) => Duty.Enabled(env.duty, s.duty, d) && (d.Tick? || d.Delete? || d.p !in s.nodes || Inner(d))
    case Pipe(p, t) =>
      && p in s.nodes && p in s.duty.procs && Tx.Enabled(env.config(p), s.nodes[p].tx, t) && !Replies(t)
      && (s.nodes[p].tx.worker.Reserving? && t.Stumble? ==> s.duty.procs[p].Idle?)
    case Ask(p, d) =>
      && p in s.nodes && s.nodes[p].tx.worker.Reserving? && Duty.Enabled(env.duty, s.duty, d)
      && Calls(p, Tx.AirtimeOf(env.config(p), s.nodes[p].tx.worker.frames), d)
    case Answer(p, d, t) =>
      && p in s.nodes && s.nodes[p].tx.worker.Reserving? && Duty.Enabled(env.duty, s.duty, d) && Returns(p, d)
      && (Replies(t) || t.Stumble?) && (t.Granted? <==> Grants(s.duty, d))
    case Crash(p) => p in s.nodes && p in s.duty.procs
  }

  /** The frame a step of the pipeline has put on the air, on this charge. */
  function NewlyKeyed(c: Tx.Config, charge: nat, before: Tx.State, after: Tx.State): seq<Claim> {
    if |after.keyed| <= |before.keyed| then [] else [Claim(charge, c.toa(|after.keyed[|before.keyed|].raw|))]
  }

  function Apply(env: Env, s: State, l: Label): State
    requires env.Valid() && Enabled(env, s, l)
  {
    match l
    case Account(d) => s.(duty := Duty.Apply(env.duty, s.duty, d))
    case Pipe(p, t) =>
      var node := s.nodes[p];
      var tx := Tx.Apply(env.config(p), node.tx, t);
      var frames := NewlyKeyed(env.config(p), node.charge, node.tx, tx);
      s.(nodes := s.nodes[p := node.(tx := tx)], keyed := s.keyed + frames,
         times := s.times + if frames == [] then [] else [s.duty.time])
    case Ask(p, d) => s.(duty := Duty.Apply(env.duty, s.duty, d))
    case Answer(p, d, t) =>
      var tx := Tx.Apply(env.config(p), s.nodes[p].tx, t);
      var charge := if t.Granted? then s.duty.procs[p].grant.value.charge else s.nodes[p].charge;
      s.(duty := Duty.Apply(env.duty, s.duty, d), nodes := s.nodes[p := Node(tx, charge)])
    case Crash(p) =>
      s.(duty := Duty.Apply(env.duty, s.duty, Duty.Crash(p)), nodes := s.nodes[p := Node(Tx.START, 0)])
  }

  ghost predicate Legal(env: Env, s: State, run: seq<Label>)
    requires env.Valid()
    decreases |run|
  {
    run == [] || (Enabled(env, s, run[0]) && Legal(env, Apply(env, s, run[0]), run[1..]))
  }

  function Exec(env: Env, s: State, run: seq<Label>): State
    requires env.Valid() && Legal(env, s, run)
    decreases |run|
  {
    if run == [] then s else Exec(env, Apply(env, s, run[0]), run[1..])
  }

  /** An empty directory; of the processes that share it, those in `nodes` are interfaces. */
  function Start(procs: set<nat>, nodes: set<nat>): State {
    State(Duty.Start(procs), map p | p in nodes :: Node(Tx.START, 0), [], [])
  }

  /** Being joined holds nobody back: an interface does whatever its pipeline can do by itself, a reserving
      one included; the other users of the ledger, the clock, a deletion and a crash come at any moment. */
  lemma NobodyIsHeldBack(env: Env, s: State, p: nat, t: Tx.Label, d: Duty.Label)
    requires p in s.nodes && p in s.duty.procs
    ensures Tx.Enabled(env.config(p), s.nodes[p].tx, t) && !Replies(t) && !t.Stumble? ==> Enabled(env, s, Pipe(p, t))
    ensures Tx.Enabled(env.config(p), s.nodes[p].tx, Tx.Stumble) && s.duty.procs[p].Idle? ==>
              Enabled(env, s, Pipe(p, Tx.Stumble))
    ensures Duty.Enabled(env.duty, s.duty, d) && (d.Tick? || d.Delete? || d.p !in s.nodes) ==>
              Enabled(env, s, Account(d))
    ensures Enabled(env, s, Crash(p))
  {
  }

  // ---------------------------------------------------------------------------
  // The account's part of a run is a run of the account

  function DutyPart(l: Label): seq<Duty.Label> {
    match l
    case Account(d) => [d]
    case Pipe(_, _) => []
    case Ask(_, d) => [d]
    case Answer(_, d, _) => [d]
    case Crash(p) => [Duty.Crash(p)]
  }

  function DutyRun(run: seq<Label>): seq<Duty.Label> {
    if run == [] then [] else DutyPart(run[0]) + DutyRun(run[1..])
  }

  lemma AccountSteps(env: Env, s: State, l: Label)
    requires env.Valid() && Enabled(env, s, l)
    ensures var s' := Apply(env, s, l);
            if l.Pipe? then DutyPart(l) == [] && s'.duty == s.duty
            else
              && |DutyPart(l)| == 1 && Duty.Enabled(env.duty, s.duty, DutyPart(l)[0])
              && s'.duty == Duty.Apply(env.duty, s.duty, DutyPart(l)[0])
  {
  }

  /** A step in front of a run of the account. */
  lemma DutyCons(env: Duty.Env, s: Duty.State, d: Duty.Label, rest: seq<Duty.Label>)
    requires env.limits.Valid() && Duty.Enabled(env, s, d) && Duty.Legal(env, Duty.Apply(env, s, d), rest)
    ensures Duty.Legal(env, s, [d] + rest)
    ensures Duty.Exec(env, s, [d] + rest) == Duty.Exec(env, Duty.Apply(env, s, d), rest)
  {
    assert ([d] + rest)[1..] == rest;
  }

  lemma {:induction false} AccountRuns(env: Env, s: State, run: seq<Label>)
    requires env.Valid() && Legal(env, s, run)
    ensures Duty.Legal(env.duty, s.duty, DutyRun(run))
    ensures Duty.Exec(env.duty, s.duty, DutyRun(run)) == Exec(env, s, run).duty
    decreases |run|
  {
    if run != [] {
      var l, s', rest := run[0], Apply(env, s, run[0]), DutyRun(run[1..]);
      AccountRuns(env, s', run[1..]);
      AccountSteps(env, s, l);
      if l.Pipe? {
        assert DutyRun(run) == rest;
      } else {
        assert DutyPart(l) == [DutyPart(l)[0]];
        DutyCons(env.duty, s.duty, DutyPart(l)[0], rest);
      }
    }
  }

  // ---------------------------------------------------------------------------
  // What every step keeps

  predicate Told(gs: seq<Claim>, charge: nat) {
    exists i :: 0 <= i < |gs| && gs[i].charge == charge
  }

  /** A pipeline in the middle of a packet has a granted charge of exactly the packet's airtime, and has
      used as much of it as it has keyed. */
  ghost predicate Spending(c: Tx.Config, w: Tx.Worker, charge: nat, h: seq<Record>, gs: seq<Claim>, keyed: seq<Claim>) {
    && w.Keying? && w.next <= |w.frames| && Told(gs, charge) && charge < |h|
    && h[charge].airtime == Tx.AirtimeOf(c, w.frames)
    && ClaimedOn(keyed, charge) == Tx.AirtimeOf(c, w.frames[..w.next])
  }

  ghost predicate NodeOk(c: Tx.Config, node: Node, ph: Duty.Phase, h: seq<Record>, gs: seq<Claim>, keyed: seq<Claim>) {
    var w := node.tx.worker;
    && (w.Reserving? ==> Duty.Asked(ph).Some? ==> Duty.Asked(ph).value == Tx.AirtimeOf(c, w.frames))
    && (!w.Reserving? ==> ph.Idle?)
    && (w.Keying? ==> Spending(c, w, node.charge, h, gs, keyed))
  }

  /** Everything keyed is within its charge, and that charge was granted. */
  ghost predicate KeyedOk(h: seq<Record>, gs: seq<Claim>, keyed: seq<Claim>) {
    Covered(h, keyed) && forall k <- keyed :: Told(gs, k.charge)
  }

  ghost predicate NodesOk(env: Env, s: State) {
    && (forall p <- s.nodes :: p in s.duty.procs)
    && (forall p <- s.nodes ::
          NodeOk(env.config(p), s.nodes[p], s.duty.procs[p], s.duty.history, s.duty.granted, s.keyed))
    && (forall p <- s.nodes :: Tx.Reachable(env.config(p), s.nodes[p].tx))
    && (forall p, q :: p in s.nodes && q in s.nodes && p != q && OnAir(s, p) && OnAir(s, q) ==>
          s.nodes[p].charge != s.nodes[q].charge)
  }

  /** The interface is in the middle of a packet. */
  predicate OnAir(s: State, p: nat)
    requires p in s.nodes
  {
    s.nodes[p].tx.worker.Keying?
  }

  ghost predicate Inv(env: Env, s: State) {
    && env.Valid() && Duty.Inv(env.duty, s.duty)
    && NodesOk(env, s) && KeyedOk(s.duty.history, s.duty.granted, s.keyed)
  }

  /** What a step of the account leaves alone: charges and grants stay, and so does every other process. */
  ghost predicate Grows(s: Duty.State, s': Duty.State) {
    Extends(s.history, s'.history) && s.granted <= s'.granted
  }

  lemma AccountGrows(env: Duty.Env, s: Duty.State, d: Duty.Label)
    requires env.limits.Valid() && Duty.Enabled(env, s, d)
    ensures Grows(s, Duty.Apply(env, s, d))
  {
    if d.WriteInit? || d.WriteRebase? || d.WriteCharge? {
      DutyCalls.RewrittenSame(s, s.procs[d.p].now, env.limits.longWindow);
    }
  }

  lemma OthersStay(env: Duty.Env, s: Duty.State, d: Duty.Label)
    requires env.limits.Valid() && Duty.Enabled(env, s, d)
    ensures var s' := Duty.Apply(env, s, d);
            && s'.procs.Keys == s.procs.Keys
            && forall q :: q in s.procs && (d.Tick? || d.Delete? || q != d.p) ==> s'.procs[q] == s.procs[q]
  {
  }

  lemma ToldStays(gs: seq<Claim>, gs': seq<Claim>, charge: nat)
    requires gs <= gs' && Told(gs, charge)
    ensures Told(gs', charge)
  {
    var i :| 0 <= i < |gs| && gs[i].charge == charge;
    assert gs'[i].charge == charge;
  }

  lemma KeyedStays(s: Duty.State, s': Duty.State, keyed: seq<Claim>)
    requires Grows(s, s') && KeyedOk(s.history, s.granted, keyed) && forall r <- s'.history :: r.airtime > 0.0
    ensures KeyedOk(s'.history, s'.granted, keyed)
  {
    forall k | k in keyed
      ensures Told(s'.granted, k.charge)
    {
      ToldStays(s.granted, s'.granted, k.charge);
    }
    forall i | 0 <= i < |s'.history|
      ensures ClaimedOn(keyed, i) <= s'.history[i].airtime
    {
      assert s'.history[i] in s'.history;
      if i >= |s.history| {
        UnclaimedIsZero(keyed, i);
      }
    }
  }

  lemma NodeStays(c: Tx.Config, node: Node, ph: Duty.Phase, s: Duty.State, s': Duty.State, keyed: seq<Claim>)
    requires NodeOk(c, node, ph, s.history, s.granted, keyed) && Grows(s, s')
    ensures NodeOk(c, node, ph, s'.history, s'.granted, keyed)
  {
    if node.tx.worker.Keying? {
      ToldStays(s.granted, s'.granted, node.charge);
    }
  }

  // ---------------------------------------------------------------------------
  // Steps of the account

  lemma NodesStay(env: Env, s: State, duty: Duty.State)
    requires NodesOk(env, s) && Grows(s.duty, duty)
    requires forall p <- s.nodes ::
               && p in duty.procs
               && NodeOk(env.config(p), s.nodes[p], duty.procs[p], s.duty.history, s.duty.granted, s.keyed)
    ensures NodesOk(env, s.(duty := duty))
  {
    forall p | p in s.nodes
      ensures NodeOk(env.config(p), s.nodes[p], duty.procs[p], duty.history, duty.granted, s.keyed)
    {
      NodeStays(env.config(p), s.nodes[p], duty.procs[p], s.duty, duty, s.keyed);
    }
  }

  /** The account moves, and process p (if any) keeps its promise to its interface. */
  lemma AccountKeepsInv(env: Env, s: State, d: Duty.Label)
    requires Inv(env, s) && Duty.Enabled(env.duty, s.duty, d)
    requires var duty := Duty.Apply(env.duty, s.duty, d);
             !d.Tick? && !d.Delete? && d.p in s.nodes ==>
               d.p in duty.procs
               && NodeOk(env.config(d.p), s.nodes[d.p], duty.procs[d.p], s.duty.history, s.duty.granted, s.keyed)
    ensures Inv(env, s.(duty := Duty.Apply(env.duty, s.duty, d)))
  {
    var duty := Duty.Apply(env.duty, s.duty, d);
    Duty.StepKeepsInv(env.duty, s.duty, d);
    AccountGrows(env.duty, s.duty, d);
    OthersStay(env.duty, s.duty, d);
    Duty.ChargesArePositive(env.duty, duty);
    KeyedStays(s.duty, duty, s.keyed);
    NodesStay(env, s, duty);
  }

  /** No step inside a call changes what was asked for. */
  lemma InnerKeepsAsked(env: Duty.Env, s: Duty.State, d: Duty.Label)
    requires env.limits.Valid() && Duty.Enabled(env, s, d) && Inner(d)
    ensures var s' := Duty.Apply(env, s, d);
            && d.p in s'.procs && !s.procs[d.p].Idle?
            && (Duty.Asked(s'.procs[d.p]).Some? ==> Duty.Asked(s'.procs[d.p]) == Duty.Asked(s.procs[d.p]))
  {
  }

  lemma AccountStepKeepsInv(env: Env, s: State, d: Duty.Label)
    requires Inv(env, s) && Enabled(env, s, Account(d))
    ensures Inv(env, Apply(env, s, Account(d)))
  {
    if !d.Tick? && !d.Delete? && d.p in s.nodes {
      InnerKeepsAsked(env.duty, s.duty, d);
      assert NodeOk(env.config(d.p), s.nodes[d.p], s.duty.procs[d.p], s.duty.history, s.duty.granted, s.keyed);
    }
    AccountKeepsInv(env, s, d);
  }

  lemma AskKeepsInv(env: Env, s: State, p: nat, d: Duty.Label)
    requires Inv(env, s) && Enabled(env, s, Ask(p, d))
    ensures Inv(env, Apply(env, s, Ask(p, d)))
  {
    assert NodeOk(env.config(p), s.nodes[p], s.duty.procs[p], s.duty.history, s.duty.granted, s.keyed);
    AccountKeepsInv(env, s, d);
  }

  // ---------------------------------------------------------------------------
  // Steps of an interface

  lemma NodeKeepsNodes(env: Env, s: State, p: nat, node: Node, keyed: seq<Claim>)
    requires NodesOk(env, s) && p in s.nodes && Tx.Reachable(env.config(p), node.tx)
    requires NodeOk(env.config(p), node, s.duty.procs[p], s.duty.history, s.duty.granted, keyed)
    requires Undisturbed(s, p, node, keyed)
    ensures NodesOk(env, s.(nodes := s.nodes[p := node], keyed := keyed))
  {
    var nodes := s.nodes[p := node];
    forall q | q in nodes
      ensures NodeOk(env.config(q), nodes[q], s.duty.procs[q], s.duty.history, s.duty.granted, keyed)
    {
      if q != p {
        assert NodeOk(env.config(q), s.nodes[q], s.duty.procs[q], s.duty.history, s.duty.granted, s.keyed);
      }
    }
  }

  /** The charges that other interfaces are spending are not touched. */
  ghost predicate Undisturbed(s: State, p: nat, node: Node, keyed: seq<Claim>) {
    forall q :: q in s.nodes && q != p && OnAir(s, q) ==>
      && ClaimedOn(keyed, s.nodes[q].charge) == ClaimedOn(s.keyed, s.nodes[q].charge)
      && (node.tx.worker.Keying? ==> s.nodes[q].charge != node.charge)
  }

  /** Replacing one node by another that is in order, on a charge nobody else is spending. */
  lemma NodeKeepsInv(env: Env, s: State, p: nat, node: Node, keyed: seq<Claim>, times: seq<real>)
    requires Inv(env, s) && p in s.nodes && Tx.Reachable(env.config(p), node.tx)
    requires NodeOk(env.config(p), node, s.duty.procs[p], s.duty.history, s.duty.granted, keyed)
    requires KeyedOk(s.duty.history, s.duty.granted, keyed)
    requires Undisturbed(s, p, node, keyed)
    ensures Inv(env, s.(nodes := s.nodes[p := node], keyed := keyed, times := times))
  {
    NodeKeepsNodes(env, s, p, node, keyed);
  }

  lemma ClaimMore(keyed: seq<Claim>, k: Claim, charge: nat)
    ensures ClaimedOn(keyed + [k], charge) == ClaimedOn(keyed, charge) + if k.charge == charge then k.airtime else 0.0
  {
    assert (keyed + [k])[..|keyed|] == keyed;
  }

  /** The next frame of a packet stays within the packet's charge. */
  lemma NextFrameFits(c: Tx.Config, w: Tx.Worker, charge: nat, h: seq<Record>, gs: seq<Claim>, keyed: seq<Claim>)
    requires c.Valid() && Spending(c, w, charge, h, gs, keyed) && w.next < |w.frames|
    ensures ClaimedOn(keyed, charge) + c.toa(|w.frames[w.next]|) == Tx.AirtimeOf(c, w.frames[..w.next + 1])
    ensures Tx.AirtimeOf(c, w.frames[..w.next + 1]) <= h[charge].airtime
  {
    Tx.AirtimeGrows(c, w.frames, w.next);
    Tx.AirtimeGrows(c, w.frames, w.next + 1);
  }

  lemma OneMoreIsCovered(h: seq<Record>, gs: seq<Claim>, keyed: seq<Claim>, k: Claim)
    requires KeyedOk(h, gs, keyed) && k.charge < |h| && Told(gs, k.charge)
    requires ClaimedOn(keyed, k.charge) + k.airtime <= h[k.charge].airtime
    ensures KeyedOk(h, gs, keyed + [k])
  {
    forall i | 0 <= i < |h|
      ensures ClaimedOn(keyed + [k], i) <= h[i].airtime
    {
      ClaimMore(keyed, k, i);
    }
  }

  lemma KeyingIsCovered(c: Tx.Config, node: Node, h: seq<Record>, gs: seq<Claim>, keyed: seq<Claim>)
    requires c.Valid() && KeyedOk(h, gs, keyed) && Spending(c, node.tx.worker, node.charge, h, gs, keyed)
    requires node.tx.worker.next < |node.tx.worker.frames|
    ensures var tx := Tx.KeyNext(node.tx);
            var keyed' := keyed + NewlyKeyed(c, node.charge, node.tx, tx);
            && KeyedOk(h, gs, keyed') && Spending(c, tx.worker, node.charge, h, gs, keyed')
            && forall charge :: charge != node.charge ==> ClaimedOn(keyed', charge) == ClaimedOn(keyed, charge)
  {
    var w := node.tx.worker;
    var k := Claim(node.charge, c.toa(|w.frames[w.next]|));
    assert NewlyKeyed(c, node.charge, node.tx, Tx.KeyNext(node.tx)) == [k];
    NextFrameFits(c, w, node.charge, h, gs, keyed);
    OneMoreIsCovered(h, gs, keyed, k);
    forall charge: nat
      ensures ClaimedOn(keyed + [k], charge)
           == ClaimedOn(keyed, charge) + if k.charge == charge then k.airtime else 0.0
    {
      ClaimMore(keyed, k, charge);
    }
  }

  /** A step that keys nothing and does not take a packet to the air. */
  lemma SilentStep(c: Tx.Config, tx: Tx.State, t: Tx.Label)
    requires Tx.Enabled(c, tx, t) && !Replies(t) && !t.Key? && !(t.KeyFault? && t.radiated)
    ensures var tx' := Tx.Apply(c, tx, t);
            && tx'.keyed == tx.keyed
            && (tx'.worker.Keying? ==> tx'.worker == tx.worker)
            && (tx.worker.Reserving? && !t.Stumble? ==> tx'.worker == tx.worker)
  {
  }

  lemma QuietPipeKeepsInv(env: Env, s: State, p: nat, t: Tx.Label)
    requires Inv(env, s) && Enabled(env, s, Pipe(p, t)) && !t.Key? && !(t.KeyFault? && t.radiated)
    ensures Inv(env, Apply(env, s, Pipe(p, t)))
  {
    var c, node := env.config(p), s.nodes[p];
    var tx := Tx.Apply(c, node.tx, t);
    SilentStep(c, node.tx, t);
    Tx.ReachableStep(c, node.tx, t);
    assert NodeOk(c, node, s.duty.procs[p], s.duty.history, s.duty.granted, s.keyed);
    assert s.keyed + NewlyKeyed(c, node.charge, node.tx, tx) == s.keyed;
    assert s.times + [] == s.times;
    NodeKeepsInv(env, s, p, node.(tx := tx), s.keyed, s.times);
  }

  lemma KeyKeepsInv(env: Env, s: State, p: nat, t: Tx.Label)
    requires Inv(env, s) && Enabled(env, s, Pipe(p, t)) && (t.Key? || (t.KeyFault? && t.radiated))
    ensures Inv(env, Apply(env, s, Pipe(p, t)))
  {
    var c, node := env.config(p), s.nodes[p];
    var tx := Tx.Apply(c, node.tx, t);
    assert NodeOk(c, node, s.duty.procs[p], s.duty.history, s.duty.granted, s.keyed);
    KeyingIsCovered(c, node, s.duty.history, s.duty.granted, s.keyed);
    Tx.ReachableStep(c, node.tx, t);
    assert tx.keyed == Tx.KeyNext(node.tx).keyed;
    var frames := NewlyKeyed(c, node.charge, node.tx, tx);
    NodeKeepsInv(env, s, p, node.(tx := tx), s.keyed + frames, s.times + [s.duty.time]);
  }

  // ---------------------------------------------------------------------------
  // Answers

  /** A grant is a charge nobody has used, of exactly the airtime the packet needs. */
  lemma GrantIsFresh(env: Env, s: State, p: nat, d: Duty.Label)
    requires Inv(env, s) && Enabled(env, s, Answer(p, d, Tx.Granted))
    ensures var g := s.duty.procs[p].grant.value;
            var duty := Duty.Apply(env.duty, s.duty, d);
            && g.charge < |s.duty.history| && s.duty.history[g.charge].airtime == g.airtime
            && g.airtime == Tx.AirtimeOf(env.config(p), s.nodes[p].tx.worker.frames)
            && duty.granted == s.duty.granted + [g] && duty.history == s.duty.history && duty.procs[p].Idle?
            && !Told(s.duty.granted, g.charge) && ClaimedOn(s.keyed, g.charge) == 0.0
            && Told(duty.granted, g.charge)
  {
    assert Duty.PhaseOk(env.duty, s.duty, s.duty.procs[p]);
    assert NodeOk(env.config(p), s.nodes[p], s.duty.procs[p], s.duty.history, s.duty.granted, s.keyed);
    var g := s.duty.procs[p].grant.value;
    assert Duty.Apply(env.duty, s.duty, d).granted[|s.duty.granted|] == g;
    assert !Told(s.duty.granted, g.charge);
    UnclaimedIsZero(s.keyed, g.charge);
  }

  /** Nobody else is spending a charge that has not been granted yet. */
  lemma FreshIsUndisturbed(env: Env, s: State, p: nat, node: Node)
    requires NodesOk(env, s) && p in s.nodes && !Told(s.duty.granted, node.charge)
    ensures Undisturbed(s, p, node, s.keyed)
  {
    forall q | q in s.nodes && q != p && OnAir(s, q)
      ensures s.nodes[q].charge != node.charge
    {
      assert NodeOk(env.config(q), s.nodes[q], s.duty.procs[q], s.duty.history, s.duty.granted, s.keyed);
    }
  }

  /** The interface after a grant: in order, and on a charge of its own. */
  lemma GrantedNode(env: Env, s: State, p: nat, d: Duty.Label)
    requires Inv(env, s) && Enabled(env, s, Answer(p, d, Tx.Granted))
    ensures var c, duty := env.config(p), Duty.Apply(env.duty, s.duty, d);
            var node := Node(Tx.Apply(c, s.nodes[p].tx, Tx.Granted), s.duty.procs[p].grant.value.charge);
            && NodeOk(c, node, duty.procs[p], duty.history, duty.granted, s.keyed)
            && Tx.Reachable(c, node.tx) && Undisturbed(s, p, node, s.keyed)
  {
    var c := env.config(p);
    GrantIsFresh(env, s, p, d);
    var node := Node(Tx.Apply(c, s.nodes[p].tx, Tx.Granted), s.duty.procs[p].grant.value.charge);
    Tx.ReachableStep(c, s.nodes[p].tx, Tx.Granted);
    FreshIsUndisturbed(env, s, p, node);
    assert node.tx.worker.frames[..0] == [];
  }

  lemma ReturnKeepsInv(env: Env, s: State, p: nat, d: Duty.Label)
    requires Inv(env, s) && p in s.nodes && s.nodes[p].tx.worker.Reserving?
    requires Duty.Enabled(env.duty, s.duty, d) && Returns(p, d)
    ensures Duty.Apply(env.duty, s.duty, d).procs[p].Idle?
    ensures Inv(env, s.(duty := Duty.Apply(env.duty, s.duty, d)))
  {
    AccountKeepsInv(env, s, d);
  }

  lemma GrantKeepsInv(env: Env, s: State, p: nat, d: Duty.Label)
    requires Inv(env, s) && Enabled(env, s, Answer(p, d, Tx.Granted))
    ensures Inv(env, Apply(env, s, Answer(p, d, Tx.Granted)))
  {
    var c, charge := env.config(p), s.duty.procs[p].grant.value.charge;
    GrantedNode(env, s, p, d);
    ReturnKeepsInv(env, s, p, d);
    var s1 := s.(duty := Duty.Apply(env.duty, s.duty, d));
    NodeKeepsInv(env, s1, p, Node(Tx.Apply(c, s.nodes[p].tx, Tx.Granted), charge), s.keyed, s.times);
  }

  lemma RefusalKeepsInv(env: Env, s: State, p: nat, d: Duty.Label, t: Tx.Label)
    requires Inv(env, s) && Enabled(env, s, Answer(p, d, t)) && !t.Granted?
    ensures Inv(env, Apply(env, s, Answer(p, d, t)))
  {
    var c, node := env.config(p), s.nodes[p];
    var tx := Tx.Apply(c, node.tx, t);
    Tx.ReachableStep(c, node.tx, t);
    ReturnKeepsInv(env, s, p, d);
    var s1 := s.(duty := Duty.Apply(env.duty, s.duty, d));
    NodeKeepsInv(env, s1, p, node.(tx := tx), s.keyed, s.times);
  }

  lemma CrashKeepsInv(env: Env, s: State, p: nat)
    requires Inv(env, s) && Enabled(env, s, Crash(p))
    ensures Inv(env, Apply(env, s, Crash(p)))
  {
    var c := env.config(p);
    assert Tx.Legal(c, Tx.START, []) && Tx.Exec(c, Tx.START, []) == Tx.START;
    assert NodeOk(c, s.nodes[p], s.duty.procs[p], s.duty.history, s.duty.granted, s.keyed);
    AccountKeepsInv(env, s, Duty.Crash(p));
    var s1 := s.(duty := Duty.Apply(env.duty, s.duty, Duty.Crash(p)));
    NodeKeepsInv(env, s1, p, Node(Tx.START, 0), s.keyed, s.times);
  }

  lemma StepKeepsInv(env: Env, s: State, l: Label)
    requires Inv(env, s) && Enabled(env, s, l)
    ensures Inv(env, Apply(env, s, l))
  {
    match l
    case Account(d) => AccountStepKeepsInv(env, s, d);
    case Pipe(p, t) =>
      if t.Key? || (t.KeyFault? && t.radiated) {
        KeyKeepsInv(env, s, p, t);
      } else {
        QuietPipeKeepsInv(env, s, p, t);
      }
    case Ask(p, d) => AskKeepsInv(env, s, p, d);
    case Answer(p, d, t) =>
      if t.Granted? {
        GrantKeepsInv(env, s, p, d);
      } else {
        RefusalKeepsInv(env, s, p, d, t);
      }
    case Crash(p) => CrashKeepsInv(env, s, p);
  }

  lemma {:induction false} RunKeepsInv(env: Env, s: State, run: seq<Label>)
    requires Inv(env, s) && Legal(env, s, run)
    ensures Inv(env, Exec(env, s, run))
    decreases |run|
  {
    if run != [] {
      StepKeepsInv(env, s, run[0]);
      RunKeepsInv(env, Apply(env, s, run[0]), run[1..]);
    }
  }

  // ---------------------------------------------------------------------------
  // Theorems over every run

  lemma StartInv(env: Env, procs: set<nat>, nodes: set<nat>)
    requires env.Valid() && nodes <= procs
    ensures Inv(env, Start(procs, nodes))
  {
    forall p | p in nodes
      ensures Tx.Reachable(env.config(p), Tx.START)
    {
      assert Tx.Legal(env.config(p), Tx.START, []) && Tx.Exec(env.config(p), Tx.START, []) == Tx.START;
    }
  }

  /** Whatever is put on the air by whichever process was granted before, and on every single charge the
      frames keyed take no more time than was charged: nothing goes out twice on one charge, over
      crashes and restarts too. */
  lemma EveryFrameIsCharged(env: Env, procs: set<nat>, nodes: set<nat>, run: seq<Label>)
    requires env.Valid() && nodes <= procs && Legal(env, Start(procs, nodes), run)
    ensures var s := Exec(env, Start(procs, nodes), run);
            && InRange(s.duty.history, s.keyed)
            && (forall k <- s.keyed :: Told(s.duty.granted, k.charge))
            && (forall i :: 0 <= i < |s.duty.history| ==> ClaimedOn(s.keyed, i) <= s.duty.history[i].airtime)
  {
    StartInv(env, procs, nodes);
    RunKeepsInv(env, Start(procs, nodes), run);
  }

  /** The packet an interface is reserving for, or keying: the next one in the order of acceptance. */
  lemma NextPacket(c: Tx.Config, tx: Tx.State)
    requires c.Valid() && Tx.Reachable(c, tx) && (tx.worker.Reserving? || tx.worker.Keying?)
    ensures |tx.finished| < |tx.accepted| && tx.worker.data == tx.accepted[|tx.finished|]
    ensures FramesFor(c, tx.worker.data, tx.worker.frames)
    ensures Tx.AirtimeOf(c, tx.worker.frames) == PacketAirtime(c, |tx.worker.data|)
  {
    ReachableCarries(c, tx);
    Tx.ReachableAccounted(c, tx);
    PacketInHand(c, tx);
    AirtimeByLength(c, tx.worker.data, tx.worker.frames);
  }

  /** The answer to a reservation for `packet`: a grant in the pipeline is one grant of the account, of the
      airtime of the packet's length, on a charge of exactly that airtime, and the packet's own frames are
      next; any other answer grants on neither side. */
  ghost predicate AnswersFor(c: Tx.Config, s: State, s': State, p: nat, packet: Bytes, granted: bool)
    requires p in s.nodes && p in s'.nodes
  {
    var before, after := s.nodes[p], s'.nodes[p];
    if granted then
      var airtime := PacketAirtime(c, |packet|);
      && (exists frames :: FramesFor(c, packet, frames) && after.tx.worker == Tx.Keying(packet, frames, 0))
      && after.tx.grants == before.tx.grants + [Tx.Grant(|before.tx.finished|, airtime)]
      && s'.duty.granted == s.duty.granted + [Claim(after.charge, airtime)]
      && after.charge < |s'.duty.history| && s'.duty.history[after.charge].airtime == airtime
    else after.tx.grants == before.tx.grants && s'.duty.granted == s.duty.granted
  }

  lemma GrantAnswers(env: Env, s: State, p: nat, d: Duty.Label)
    requires Inv(env, s) && Enabled(env, s, Answer(p, d, Tx.Granted))
    ensures AnswersFor(env.config(p), s, Apply(env, s, Answer(p, d, Tx.Granted)), p, s.nodes[p].tx.worker.data, true)
  {
    var c, w := env.config(p), s.nodes[p].tx.worker;
    GrantIsFresh(env, s, p, d);
    NextPacket(c, s.nodes[p].tx);
    var s' := Apply(env, s, Answer(p, d, Tx.Granted));
    assert s'.nodes[p].tx.worker == Tx.Keying(w.data, w.frames, 0);
    assert s'.duty == Duty.Apply(env.duty, s.duty, d);
  }

  lemma RefusalAnswers(env: Env, s: State, p: nat, d: Duty.Label, t: Tx.Label)
    requires Inv(env, s) && Enabled(env, s, Answer(p, d, t)) && !t.Granted?
    ensures AnswersFor(env.config(p), s, Apply(env, s, Answer(p, d, t)), p, s.nodes[p].tx.worker.data, false)
  {
  }

  /** In every run the account answers for the very packet that is next in the order of acceptance. */
  lemma GrantIsTheAccounts(env: Env, procs: set<nat>, nodes: set<nat>, run: seq<Label>,
                           p: nat, d: Duty.Label, t: Tx.Label)
    requires env.Valid() && nodes <= procs && Legal(env, Start(procs, nodes), run)
    requires Enabled(env, Exec(env, Start(procs, nodes), run), Answer(p, d, t))
    ensures var s := Exec(env, Start(procs, nodes), run);
            var tx := s.nodes[p].tx;
            && |tx.finished| < |tx.accepted|
            && AnswersFor(env.config(p), s, Apply(env, s, Answer(p, d, t)), p, tx.accepted[|tx.finished|], t.Granted?)
  {
    StartInv(env, procs, nodes);
    RunKeepsInv(env, Start(procs, nodes), run);
    var s := Exec(env, Start(procs, nodes), run);
    NextPacket(env.config(p), s.nodes[p].tx);
    if t.Granted? {
      GrantAnswers(env, s, p, d);
    } else {
      RefusalAnswers(env, s, p, d, t);
    }
  }

  /** In every window of true time, the frames keyed on its charges take no longer than was charged. */
  lemma KeyedAtMostCharged(env: Env, procs: set<nat>, nodes: set<nat>, run: seq<Label>, end: real, window: real)
    requires env.Valid() && nodes <= procs && Legal(env, Start(procs, nodes), run)
    ensures var s := Exec(env, Start(procs, nodes), run);
            && InRange(s.duty.history, s.keyed)
            && Claimed(s.duty.history, s.keyed, end, window) <= Charged(s.duty.history, end, window)
  {
    EveryFrameIsCharged(env, procs, nodes, run);
    var s := Exec(env, Start(procs, nodes), run);
    ClaimedAtMostCharged(s.duty.history, s.keyed, end, window);
  }

  /** Nothing is keyed off the record: every frame a pipeline keys is recorded, at once, with its time on
      air and the charge of its packet; and nothing else is. */
  lemma EveryKeyIsRecorded(env: Env, s: State, l: Label, q: nat)
    requires env.Valid() && Enabled(env, s, l) && q in s.nodes && !(l.Crash? && l.p == q)
    ensures var s' := Apply(env, s, l);
            && q in s'.nodes
            && var before, after := s.nodes[q].tx.keyed, s'.nodes[q].tx.keyed;
            if l.Pipe? && l.p == q then
              || (after == before && s'.keyed == s.keyed && s'.times == s.times)
              || (&& |after| == |before| + 1 && after[..|before|] == before
                  && s'.keyed == s.keyed + [Claim(s.nodes[q].charge, env.config(q).toa(|after[|before|].raw|))]
                  && s'.times == s.times + [s.duty.time])
            else after == before && (!l.Pipe? ==> s'.keyed == s.keyed && s'.times == s.times)
  {
    if l.Pipe? && l.p == q {
      var tx := Tx.Apply(env.config(q), s.nodes[q].tx, l.t);
      if |tx.keyed| <= |s.nodes[q].tx.keyed| {
        assert s.keyed + [] == s.keyed && s.times + [] == s.times;
      }
    }
  }

  // ---------------------------------------------------------------------------
  // When it goes on the air

  /** Every frame is keyed after its charge, and takes some time. */
  ghost predicate TimesFor(h: seq<Record>, keyed: seq<Claim>, times: seq<real>) {
    && |times| == |keyed| && InRange(h, keyed)
    && (forall i :: 0 <= i < |keyed| ==> h[keyed[i].charge].born <= times[i])
    && (forall k <- keyed :: k.airtime >= 0.0)
  }

  ghost predicate TimesOk(s: State) {
    TimesFor(s.duty.history, s.keyed, s.times)
  }

  lemma OneMoreTime(h: seq<Record>, keyed: seq<Claim>, times: seq<real>, k: Claim, time: real)
    requires TimesFor(h, keyed, times) && k.charge < |h| && h[k.charge].born <= time && k.airtime >= 0.0
    ensures TimesFor(h, keyed + [k], times + [time])
  {
  }

  lemma TimesStay(h: seq<Record>, h': seq<Record>, keyed: seq<Claim>, times: seq<real>)
    requires TimesFor(h, keyed, times) && Extends(h, h')
    ensures TimesFor(h', keyed, times)
  {
    forall i | 0 <= i < |keyed|
      ensures keyed[i].charge < |h'| && h'[keyed[i].charge].born <= times[i]
    {
      assert keyed[i] in keyed;
    }
  }

  lemma StepKeepsTimes(env: Env, s: State, l: Label)
    requires Inv(env, s) && TimesOk(s) && Enabled(env, s, l)
    ensures TimesOk(Apply(env, s, l))
  {
    if l.Pipe? {
      KeyKeepsTimes(env, s, l.p, l.t);
    } else {
      AccountSteps(env, s, l);
      AccountGrows(env.duty, s.duty, DutyPart(l)[0]);
      TimesStay(s.duty.history, Apply(env, s, l).duty.history, s.keyed, s.times);
    }
  }

  /** A frame that is keyed belongs to a packet in the middle of its charge. */
  lemma KeyedOnCharge(c: Tx.Config, node: Node, ph: Duty.Phase, h: seq<Record>, gs: seq<Claim>, keyed: seq<Claim>,
                      t: Tx.Label)
    requires c.Valid() && NodeOk(c, node, ph, h, gs, keyed) && Tx.Enabled(c, node.tx, t)
    ensures var frames := NewlyKeyed(c, node.charge, node.tx, Tx.Apply(c, node.tx, t));
            frames != [] ==> |frames| == 1 && frames[0].charge == node.charge < |h| && frames[0].airtime >= 0.0
  {
  }

  lemma KeyKeepsTimes(env: Env, s: State, p: nat, t: Tx.Label)
    requires Inv(env, s) && TimesOk(s) && Enabled(env, s, Pipe(p, t))
    ensures TimesOk(Apply(env, s, Pipe(p, t)))
  {
    var c, node := env.config(p), s.nodes[p];
    var frames := NewlyKeyed(c, node.charge, node.tx, Tx.Apply(c, node.tx, t));
    KeyedOnCharge(c, node, s.duty.procs[p], s.duty.history, s.duty.granted, s.keyed, t);
    if frames == [] {
      assert s.keyed + frames == s.keyed && s.times + [] == s.times;
    } else {
      BornBefore(env.duty, s.duty, node.charge);
      OneMoreTime(s.duty.history, s.keyed, s.times, frames[0], s.duty.time);
      assert frames == [frames[0]];
    }
  }

  lemma BornBefore(env: Duty.Env, s: Duty.State, charge: nat)
    requires Duty.Inv(env, s) && charge < |s.history|
    ensures s.history[charge].born <= s.time
  {
    assert s.history[charge] in s.history;
    assert SoundRecord(s.history[charge], s.at.value, env.limits.longWindow, PerWrite);
  }

  lemma {:induction false} RunKeepsTimes(env: Env, s: State, run: seq<Label>)
    requires Inv(env, s) && TimesOk(s) && Legal(env, s, run)
    ensures TimesOk(Exec(env, s, run))
    decreases |run|
  {
    if run != [] {
      StepKeepsInv(env, s, run[0]);
      StepKeepsTimes(env, s, run[0]);
      RunKeepsTimes(env, Apply(env, s, run[0]), run[1..]);
    }
  }

  /** Frames that are within their charges, and keyed no later than `delay` after them. */
  lemma OnAirOf(h: seq<Record>, keyed: seq<Claim>, times: seq<real>, end: real, window: real, delay: real)
    requires Covered(h, keyed) && TimesFor(h, keyed, times) && UsedWithin(h, keyed, times, delay)
    ensures UsedDuring(keyed, times, end, window - delay) <= Charged(h, end, window)
  {
    UsedAtMostClaimed(h, keyed, times, end, window, delay);
    ClaimedAtMostCharged(h, keyed, end, window);
  }

  /** Whatever is keyed in a window of true time, no frame later than `delay` after its charge, was charged
      in the window that is longer by the delay. */
  lemma OnAirAtMostCharged(env: Env, procs: set<nat>, nodes: set<nat>, run: seq<Label>, end: real, window: real,
                           delay: real)
    requires env.Valid() && nodes <= procs && Legal(env, Start(procs, nodes), run)
    ensures var s := Exec(env, Start(procs, nodes), run);
            && TimesFor(s.duty.history, s.keyed, s.times)
            && (UsedWithin(s.duty.history, s.keyed, s.times, delay) ==>
                  UsedDuring(s.keyed, s.times, end, window - delay) <= Charged(s.duty.history, end, window))
  {
    StartInv(env, procs, nodes);
    RunKeepsTimes(env, Start(procs, nodes), run);
    EveryFrameIsCharged(env, procs, nodes, run);
    var s := Exec(env, Start(procs, nodes), run);
    if UsedWithin(s.duty.history, s.keyed, s.times, delay) {
      OnAirOf(s.duty.history, s.keyed, s.times, end, window, delay);
    }
  }

  /** The frames keyed on the charges of a window take no longer than the bound; and if no frame is keyed
      later than `delay` after its charge, so do the frames keyed in the window that is shorter by it. */
  ghost predicate OnAirWithin(s: State, end: real, window: real, delay: real, bound: real) {
    && TimesFor(s.duty.history, s.keyed, s.times)
    && Claimed(s.duty.history, s.keyed, end, window) <= bound
    && (UsedWithin(s.duty.history, s.keyed, s.times, delay) ==>
          UsedDuring(s.keyed, s.times, end, window - delay) <= bound)
  }

  /** A bound on what was charged is one on what is keyed. */
  lemma OnAirAtMost(env: Env, procs: set<nat>, nodes: set<nat>, run: seq<Label>, end: real, window: real, delay: real,
                    bound: real)
    requires env.Valid() && nodes <= procs && Legal(env, Start(procs, nodes), run)
    requires Charged(Exec(env, Start(procs, nodes), run).duty.history, end, window) <= bound
    ensures OnAirWithin(Exec(env, Start(procs, nodes), run), end, window, delay, bound)
  {
    KeyedAtMostCharged(env, procs, nodes, run, end, window);
    OnAirAtMostCharged(env, procs, nodes, run, end, window, delay);
  }
}
