/** How long a download can take (src/uriClientEndpoint.cc:116-198). */
module Termination {
  import opened Bytes
  import opened Messages
  import opened Blockwise
  import opened Requests
  import opened ClientSteps
  import opened Sessions
  import opened Download

  /** The blocks that n bytes fill, if none is smaller than least; an empty rest still takes one. */
  function BlocksFor(n: int, least: nat): (r: nat)
    requires least > 0
    ensures r >= 1
    decreases if n > 0 then n else 0
  {
    if n <= least then 1 else 1 + BlocksFor(n - least, least)
  }

  lemma {:induction false} BlocksMonotone(n1: int, n2: int, least: nat)
    requires n1 <= n2 && least > 0
    ensures BlocksFor(n1, least) <= BlocksFor(n2, least)
    decreases if n2 > 0 then n2 else 0
  {
    if n1 > least {
      BlocksMonotone(n1 - least, n2 - least, least);
    }
  }

  /** BlocksFor is max(1, ceil(n / least)). */
  lemma {:induction false} BlocksForIsCeiling(n: nat, least: nat)
    requires least > 0
    ensures BlocksFor(n, least) == if n == 0 then 1 else (n + least - 1) / least
    decreases n
  {
    if n > least {
      BlocksForIsCeiling(n - least, least);
      assert n + least - 1 == (n - least + least - 1) + least;
      QuotientStep(n - 1, least);
    } else if n > 0 {
      QuotientOfSmall(n - 1, least);
    }
  }

  lemma QuotientStep(n: nat, d: nat)
    requires d > 0
    ensures (n + d) / d == n / d + 1
  {
    var q := n / d;
    assert n == d * q + n % d;
    assert d * (q + 1) == d * q + d;
    QuotientUnique(n + d, d, q + 1, n % d);
  }

  lemma QuotientUnique(n: nat, d: nat, q: nat, rest: nat)
    requires n == d * q + rest && rest < d
    ensures n / d == q
  {
    var p := n / d;
    assert n == d * p + n % d;
    ProductGrows(p + 1, q, d);
    ProductGrows(q + 1, p, d);
    assert (p + 1) * d == d * p + d && (q + 1) * d == d * q + d;
  }

  lemma QuotientOfSmall(n: nat, d: nat)
    requires n < d
    ensures (n + d) / d == 1
  {
    QuotientUnique(n + d, d, 1, n);
  }

  /**
   An upper bound on the steps left: blocks, then attempts, then the phase.  Each of the five requests
   for a block takes a sending and a receiving step, and the last step reports the end.
   */
  function Rank(sv: Server, s: ClientState): int
    requires sv.least in SIZES
  {
    var blocks := BlocksFor(|sv.resource| - Offset(s.block), sv.least);
    match s.next
    case SendRequest => 10 * (blocks - 1) + 2 * (RECEIVE_MAX_ATTEMPTS + 1 - s.attempts) + 1
    case ReceiveDataBlock => 10 * (blocks - 1) + 2 * (RECEIVE_MAX_ATTEMPTS + 1 - s.attempts)
    case Error => 1
    case Complete => 1
    case Idle => 0
    case Halted => 0
  }

  lemma SendLowersRank(cfg: Config, sv: Server, base: seq<byte>, w: World, input: Input)
    requires Inv(cfg, sv, base, w) && w.client.next.SendRequest? && Admissible(sv, w, StepCall(input))
    ensures Rank(sv, Act(cfg, w, StepCall(input)).client) < Rank(sv, w.client)
  {
    SendAdvances(cfg, sv, base, w, input);
    SendKeepsAttempts(cfg, w, input);
    assert Offset(Requested(w.client.block)) == Offset(w.client.block);
    hide Act, Inv, Admissible, Progress, Requested, Offset;
  }

  lemma SendKeepsAttempts(cfg: Config, w: World, input: Input)
    requires w.client.pdu.WellFormed() && w.client.next.SendRequest?
    ensures Act(cfg, w, StepCall(input)).client.attempts == w.client.attempts
  {
  }

  lemma OutcomeLowersRank(sv: Server, s: ClientState, t: ClientState)
    requires sv.least in SIZES && s.next.ReceiveDataBlock? && ReceptionEnds(sv, s, t)
    requires s.attempts <= RECEIVE_MAX_ATTEMPTS && t.attempts <= RECEIVE_MAX_ATTEMPTS
    requires t.next.SendRequest? && Offset(t.block) > 0 ==> Offset(t.block) < |sv.resource|
    ensures Rank(sv, t) < Rank(sv, s)
  {
    hide Offset;
    if !Unmoved(s, t) && t.next.SendRequest? {
      FewerBlocks(|sv.resource| - Offset(s.block), |sv.resource| - Offset(t.block), sv.least);
    }
    hide BlocksFor;
  }

  lemma ReceiveLowersRank(cfg: Config, sv: Server, base: seq<byte>, w: World, input: Input)
    requires Inv(cfg, sv, base, w) && w.client.next.ReceiveDataBlock? && Admissible(sv, w, StepCall(input))
    ensures Rank(sv, Act(cfg, w, StepCall(input)).client) < Rank(sv, w.client)
  {
    ReceiveKeepsInv(cfg, sv, base, w, input);
    var v := Act(cfg, w, StepCall(input));
    assert w.client.attempts <= RECEIVE_MAX_ATTEMPTS && v.client.attempts <= RECEIVE_MAX_ATTEMPTS;
    if v.client.next.SendRequest? && Offset(v.client.block) > 0 {
      MoreLeft(cfg, sv, base, v);
    }
    hide Act, Admissible, Inv, Offset, Rank, ReceptionEnds;
    OutcomeLowersRank(sv, w.client, v.client);
  }

  lemma MoreLeft(cfg: Config, sv: Server, base: seq<byte>, v: World)
    requires Inv(cfg, sv, base, v) && v.client.next.SendRequest? && Offset(v.client.block) > 0
    ensures Offset(v.client.block) < |sv.resource|
  {
  }

  lemma FewerBlocks(before: nat, after: nat, least: nat)
    requires 0 < least && 0 < after && after + least <= before
    ensures BlocksFor(after, least) + 1 <= BlocksFor(before, least)
  {
    BlocksMonotone(after, before - least, least);
  }

  /** isComplete() || isError(), which is what the main loop polls. */
  predicate Ended(s: ClientState) {
    s.next.Idle? && s.state in {Complete, Phase.Error}
  }

  function Steps(actions: seq<Action>): nat {
    if actions == [] then 0
    else Steps(actions[..|actions| - 1]) + if actions[|actions| - 1].StepCall? then 1 else 0
  }

  predicate NoControl(actions: seq<Action>) {
    forall k :: 0 <= k < |actions| ==> !actions[k].StartCall? && !actions[k].StopCall?
  }

  /** The end is reported, or an empty datagram has stopped the process. */
  predicate Over(s: ClientState) {
    Ended(s) || s.next.Halted?
  }

  /** The run is over after one of its actions. */
  ghost predicate EndsDuring(cfg: Config, w: World, actions: seq<Action>)
    requires w.client.pdu.WellFormed()
  {
    exists k :: 0 <= k <= |actions| && Over(Run(cfg, w, actions[..k]).client)
  }

  /** The run reports its end after one of its actions. */
  ghost predicate ReportsDuring(cfg: Config, w: World, actions: seq<Action>)
    requires w.client.pdu.WellFormed()
  {
    exists k :: 0 <= k <= |actions| && Ended(Run(cfg, w, actions[..k]).client)
  }

  predicate NoEmptyArrival(actions: seq<Action>) {
    forall k :: 0 <= k < |actions| ==> !EmptyArrival(actions[k])
  }

  lemma EndIsReported(cfg: Config, w: World, actions: seq<Action>)
    requires cfg.build.Intended? && Sound(w.client) && !w.client.next.Halted?
    requires EndsDuring(cfg, w, actions) && NoEmptyArrival(actions)
    ensures ReportsDuring(cfg, w, actions)
  {
    hide Run, EmptyArrival;
    var k :| 0 <= k <= |actions| && Over(Run(cfg, w, actions[..k]).client);
    NeverHalts(cfg, w, actions[..k]);
  }

  lemma ActivePhase(cfg: Config, sv: Server, base: seq<byte>, w: World, a: Action)
    requires Inv(cfg, sv, base, w) && Admissible(sv, w, a) && !w.client.next.Idle? && !w.client.next.Halted?
    requires !a.StartCall? && !a.StopCall?
    ensures
      var v := Act(cfg, w, a);
      || Over(v.client)
      || (!v.client.next.Idle? && !v.client.next.Halted? && Rank(sv, v.client) + (if a.StepCall? then 1 else 0) <= Rank(sv, w.client))
  {
    if a.StepCall? && w.client.next.SendRequest? {
      SendAdvances(cfg, sv, base, w, a.input);
      hide Act, Progress, Inv, Admissible, Offset;
      SendLowersRank(cfg, sv, base, w, a.input);
    } else if a.StepCall? && w.client.next.ReceiveDataBlock? {
      ReceiveKeepsInv(cfg, sv, base, w, a.input);
      hide Act, Inv, Admissible, Offset;
      ReceiveLowersRank(cfg, sv, base, w, a.input);
    }
  }

  lemma {:induction false} RankBoundsRun(cfg: Config, sv: Server, base: seq<byte>, w: World, actions: seq<Action>)
    requires Inv(cfg, sv, base, w) && AdmissibleRun(cfg, sv, w, actions) && NoControl(actions)
    requires !w.client.next.Idle? && !w.client.next.Halted?
    ensures
      var v := Run(cfg, w, actions);
      || EndsDuring(cfg, w, actions)
      || (!v.client.next.Idle? && !v.client.next.Halted? && Steps(actions) + Rank(sv, v.client) <= Rank(sv, w.client))
  {
    assert w.client.pdu.WellFormed();
    hide Act, Inv, Admissible, Rank, Over;
    if actions != [] {
      var front, a := actions[..|actions| - 1], actions[|actions| - 1];
      RankBoundsRun(cfg, sv, base, w, front);
      RunKeepsInv(cfg, sv, base, w, front);
      if EndsDuring(cfg, w, front) {
        var k :| 0 <= k <= |front| && Over(Run(cfg, w, front[..k]).client);
        assert actions[..k] == front[..k];
      } else {
        ActivePhase(cfg, sv, base, Run(cfg, w, front), a);
        assert actions[..|actions|] == actions;
      }
    }
  }

  /**
   From any start() on, whatever the network does, at most ten steps for each block that may still
   have to come, and one more, lead to COMPLETE or ERROR.
   */
  lemma DownloadTerminates(cfg: Config, sv: Server, base: seq<byte>, w: World, actions: seq<Action>)
    requires Inv(cfg, sv, base, w) && w.client.next.SendRequest?
    requires AdmissibleRun(cfg, sv, w, actions) && NoControl(actions)
    requires Steps(actions) >= 10 * BlocksFor(|sv.resource| - Offset(w.client.block), sv.least) + 1
    ensures EndsDuring(cfg, w, actions)
    ensures NoEmptyArrival(actions) ==> ReportsDuring(cfg, w, actions)
  {
    RankBoundsRun(cfg, sv, base, w, actions);
    assert w.client.attempts <= RECEIVE_MAX_ATTEMPTS && cfg.build.Intended? && Sound(w.client);
    AttemptsBounded(cfg, w, actions);
    hide Run, Inv, EndsDuring, ReportsDuring, AdmissibleRun, Rank, BlocksFor, Offset, Steps, NoEmptyArrival, Sound;
    RankBounds(sv, w.client);
    RankBounds(sv, Run(cfg, w, actions).client);
    if NoEmptyArrival(actions) {
      EndIsReported(cfg, w, actions);
    }
  }

  lemma AttemptsBounded(cfg: Config, w: World, actions: seq<Action>)
    requires Sound(w.client)
    ensures Run(cfg, w, actions).client.attempts <= RECEIVE_MAX_ATTEMPTS
  {
    hide Run;
    RunKeepsSound(cfg, w, actions);
  }

  lemma RankBounds(sv: Server, s: ClientState)
    requires sv.least in SIZES && s.attempts <= RECEIVE_MAX_ATTEMPTS
    ensures s.next.SendRequest? ==> Rank(sv, s) <= 10 * BlocksFor(|sv.resource| - Offset(s.block), sv.least) + 1
    ensures !s.next.Idle? && !s.next.Halted? ==> Rank(sv, s) >= 1
  {
  }

  /** With the server's smallest block at 16 bytes this is 10 * max(1, ceil(|resource| / 16)) + 1 steps. */
  lemma FirstDownloadTerminates(cfg: Config, sv: Server, existing: seq<byte>, pdu: Message, actions: seq<Action>)
    requires cfg.build.Intended? && ConfigFits(cfg) && InDomain(sv) && pdu.WellFormed()
    requires
      var w := Act(cfg, Fresh(existing, pdu), StartCall);
      AdmissibleRun(cfg, sv, w, actions) && NoControl(actions)
    requires
      var n := |sv.resource|;
      Steps(actions) >= 10 * (if n == 0 then 1 else (n + sv.least - 1) / sv.least) + 1
    ensures EndsDuring(cfg, Act(cfg, Fresh(existing, pdu), StartCall), actions)
    ensures NoEmptyArrival(actions) ==> ReportsDuring(cfg, Act(cfg, Fresh(existing, pdu), StartCall), actions)
  {
    var w := Act(cfg, Fresh(existing, pdu), StartCall);
    InitialInv(cfg, sv, existing, pdu);
    ActKeepsInv(cfg, sv, existing, Fresh(existing, pdu), StartCall);
    BlocksForIsCeiling(|sv.resource|, sv.least);
    hide Inv, EndsDuring, AdmissibleRun, ConfigFits;
    DownloadTerminates(cfg, sv, existing, w, actions);
  }
}
