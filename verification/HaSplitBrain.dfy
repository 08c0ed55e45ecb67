/** Runs in which the documented failover guarantees fail, and the exact rules under which they hold. */
module HaSplitBrain {
  import opened HaTiming
  import opened HaCluster
  import HaSafety

  /** A run that reaches s. */
  ghost predicate Reaches(m: Protocol, run: seq<Event>, s: Cluster) {
    ValidRun(m, run) && After(m, run) == s
  }

  /** Appends one event to a run: s' is what every node looks like afterwards. */
  lemma Then(m: Protocol, run: seq<Event>, s: Cluster, e: Event, s': Cluster) returns (run': seq<Event>)
    requires Reaches(m, run, s) && Enabled(m, s, e) && |s'.nodes| == m.size
    requires s'.now == (if e.Advance? then s.now + e.ms else s.now)
    requires s'.sent == SentAfter(s, e) && s'.grants == GrantsAfter(s, e)
    requires s'.victories == if e.WinElection? then s.victories + {Victory(s.nodes[e.c].campaign, e.c)} else s.victories
    requires forall i :: 0 <= i < m.size ==> s'.nodes[i] == NodeAfter(m, s, e, i)
    ensures run' == run + [e] && Reaches(m, run', s')
  {
    hide NodeAfter, Enabled;
    run' := run + [e];
    assert run'[..|run'| - 1] == run;
    assert Apply(m, s, e).nodes == s'.nodes;
  }

  /** Appends a wait to a run. */
  lemma ThenWait(m: Protocol, run: seq<Event>, s: Cluster, ms: nat) returns (run': seq<Event>)
    requires Reaches(m, run, s)
    ensures Reaches(m, run', s.(now := s.now + ms))
  {
    run' := Then(m, run, s, Advance(ms), s.(now := s.now + ms));
  }

  /** A tick of an established primary with enough live replicas. */
  lemma TickConfirms(m: Protocol, s: Cluster, p: Id, live: set<Id>)
    requires |s.nodes| == m.size && p < m.size && s.nodes[p].role.Primary? && !s.nodes[p].authorityFenced
    requires live <= s.nodes[p].seen.Keys && 1 + |live| >= Majority(m.size)
    requires forall r <- s.nodes[p].seen :: r in live <==> s.now - s.nodes[p].seen[r] <= m.timing.liveness
    ensures var n := s.nodes[p];
      NodeAfter(m, s, QuorumTick(p), p) ==
      n.(tracking := true, confirmedAt := s.now, fenced := n.fenced && s.now - n.fencedAt < m.timing.liveness,
         seen := map r <- n.seen | r in live :: n.seen[r])
  {
    assert LiveReplicas(m.timing, s.now, s.nodes[p].seen) == live;
  }

  // ---------------------------------------------------------------------------------------------
  // Three members. Of members 1 and 2 only the late one ever speaks to primary 0, at time x; then it is cut off
  // too, its announcement arrives as late as it can, at time h, and only members 1 and 2 can talk.

  function Three(now: int, p: Node, a: Node, b: Node, grants: set<Grant>, victories: set<Victory>): Cluster {
    Cluster(now, [p, a, b], {}, grants, victories)
  }

  function Cut(late: Id, h: int): Node {
    InitialNode(0).(seen := map[late := h], heard := map[late := h])
  }

  /** The primary after a tick at the given time that still counts the late member. */
  function Confirmed(late: Id, h: int, at: int): Node {
    Cut(late, h).(fenced := false, tracking := true, confirmedAt := at)
  }

  function Lost(i: Id, late: Id, x: nat): Node {
    if i != late then InitialNode(i)
    else InitialNode(i).(ackedTo := 0, ackedAt := x, downSince := x, told := map[0 := x])
  }

  lemma ReachCut(m: Protocol, late: Id, x: nat, h: int) returns (run: seq<Event>)
    requires m.size == 3 && (late == 1 || late == 2) && h == x + m.timing.transit
    ensures Reaches(m, run, Three(h, Cut(late, h), Lost(1, late, x), Lost(2, late, x), {}, {}))
  {
    var i0, i1, i2 := InitialNode(0), InitialNode(1), InitialNode(2);
    var s0 := Three(0, i0, i1, i2, {}, {});
    run := [];
    assert After(m, run).nodes == s0.nodes;
    run := ThenWait(m, run, s0, x);
    var linked := Lost(late, late, x).(linked := true, downSince := 0);
    var hello := Message(late, 0, x, true);
    var s1 := Cluster(x, [i0, if late == 1 then linked else i1, if late == 2 then linked else i2], {hello}, {}, {});
    run := Then(m, run, s0.(now := x), Connect(late), s1);
    var s2 := Cluster(x, [i0, Lost(1, late, x), Lost(2, late, x)], {hello}, {}, {});
    run := Then(m, run, s1, Disconnect(late), s2);
    run := ArriveLate(m, run, s2, late, x, h);
  }

  lemma ArriveLate(m: Protocol, prefix: seq<Event>, s: Cluster, late: Id, x: nat, h: int) returns (run: seq<Event>)
    requires m.size == 3 && (late == 1 || late == 2) && h == x + m.timing.transit && Reaches(m, prefix, s)
    requires s == Cluster(x, [InitialNode(0), Lost(1, late, x), Lost(2, late, x)], {Message(late, 0, x, true)}, {}, {})
    ensures Reaches(m, run, Three(h, Cut(late, h), Lost(1, late, x), Lost(2, late, x), {}, {}))
  {
    var hello := Message(late, 0, x, true);
    run := ThenWait(m, prefix, s, m.timing.transit);
    assert {hello} - {hello} == {};
    run := Then(m, run, s.(now := h), Deliver(hello), Three(h, Cut(late, h), s.nodes[1], s.nodes[2], {}, {}));
  }

  lemma Confirm(m: Protocol, prefix: seq<Event>, s: Cluster, late: Id, h: int) returns (run: seq<Event>)
    requires m.size == 3 && Reaches(m, prefix, s) && |s.nodes| == 3 && s.nodes[0] == Cut(late, h)
    requires h <= s.now <= h + m.timing.liveness && m.timing.liveness <= s.now
    ensures Reaches(m, run, s.(nodes := [Confirmed(late, h, s.now), s.nodes[1], s.nodes[2]]))
  {
    TickConfirms(m, s, 0, {late});
    assert map[late := h] == map r <- map[late := h] | r in {late} :: map[late := h][r];
    run := Then(m, prefix, s, QuorumTick(0), s.(nodes := [Confirmed(late, h, s.now), s.nodes[1], s.nodes[2]]));
  }

  /** Member 1 campaigns for term 1 and member 2 votes for it. */
  function Candidate(late: Id, x: nat, at: int): Node {
    Voted(Lost(1, late, x), 1, 1, at).(campaign := 1, campaignAt := at)
  }

  function Voter(late: Id, x: nat, at: int): Node {
    Voted(Lost(2, late, x), 1, 1, at)
  }

  const TwoVotes := {Grant(1, 1, 1), Grant(2, 1, 1)}

  lemma Vote(m: Protocol, prefix: seq<Event>, p: Node, late: Id, x: nat, now: int) returns (run: seq<Event>)
    requires m.size == 3 && Reaches(m, prefix, Three(now, p, Lost(1, late, x), Lost(2, late, x), {}, {}))
    requires now - Lost(1, late, x).downSince >= m.timing.electionBase
    requires now - Lost(2, late, x).downSince >= m.rules.voteWait
    ensures Reaches(m, run, Three(now, p, Candidate(late, x, now), Voter(late, x, now), TwoVotes, {}))
  {
    var s0 := Three(now, p, Lost(1, late, x), Lost(2, late, x), {}, {});
    var s1 := Three(now, p, Candidate(late, x, now), Lost(2, late, x), {Grant(1, 1, 1)}, {});
    run := Then(m, prefix, s0, StartCampaign(1), s1);
    run := Then(m, run, s1, GrantVote(2, 1, 1),
                Three(now, p, Candidate(late, x, now), Voter(late, x, now), TwoVotes, {}));
  }

  /** A voter, or a candidate, that need not wait the hold time: the election can be won while the old
      primary still accepts writes on the strength of that member's announcement. */
  lemma ElectedOverWriter(t: Timing, rules: Rules) returns (run: seq<Event>)
    requires t.fence > 0
    requires rules.voteWait < Hold(t) || t.electionBase < Hold(t)
    ensures ValidRun(Protocol(3, t, rules), run)
    ensures !FencedBeforeElected(Protocol(3, t, rules), After(Protocol(3, t, rules), run))
  {
    var m := Protocol(3, t, rules);
    if rules.voteWait < Hold(t) {
      run := ElectedOverWriterAfter(m, 2, rules.voteWait);
    } else {
      run := ElectedOverWriterAfter(m, 1, t.electionBase);
    }
  }

  lemma ElectedOverWriterAfter(m: Protocol, late: Id, wait: nat) returns (run: seq<Event>)
    requires m.size == 3 && m.timing.fence > 0 && wait < Hold(m.timing)
    requires (late == 1 && wait == m.timing.electionBase) || (late == 2 && wait == m.rules.voteWait)
    ensures ValidRun(m, run) && !FencedBeforeElected(m, After(m, run))
  {
    hide Enabled, NodeAfter, After, ValidRun, FencedBeforeElected;
    var t, x := m.timing, m.timing.liveness + m.timing.electionBase + m.rules.voteWait;
    var h, more := x + t.transit, Rest(wait, t.transit);
    var tick := if more < t.liveness then more else t.liveness;
    var a, b := Lost(1, late, x), Lost(2, late, x);
    run := ReachCut(m, late, x, h);
    run := ThenWait(m, run, Three(h, Cut(late, h), a, b, {}, {}), tick);
    run := Confirm(m, run, Three(h + tick, Cut(late, h), a, b, {}, {}), late, h);
    var p := Confirmed(late, h, h + tick);
    run := ThenWait(m, run, Three(h + tick, p, a, b, {}, {}), more - tick);
    run := Vote(m, run, p, late, x, h + more);
    WinsOver(m, p, late, x, h + more);
  }

  /** How much of a wait is left when the announcement has arrived. */
  function Rest(wait: nat, transit: nat): nat {
    if wait < transit then 0 else wait - transit
  }

  lemma WinsOver(m: Protocol, p: Node, late: Id, x: nat, now: int)
    requires m.size == 3 && p.role.Primary? && p.wonTerm == 0
    requires AdmitsWrites(m.timing, Three(now, p, Candidate(late, x, now), Voter(late, x, now), TwoVotes, {}), 0)
    ensures !FencedBeforeElected(m, Three(now, p, Candidate(late, x, now), Voter(late, x, now), TwoVotes, {}))
  {
    var s := Three(now, p, Candidate(late, x, now), Voter(late, x, now), TwoVotes, {});
    assert Voters(s, 1, 1) == {1, 2};
    assert Enabled(m, s, WinElection(1));
  }

  /** Member 1 has been elected and has rebooted; member 2 has adopted it. */
  function Booted(late: Id, x: nat, at: int): Node {
    Voted(Lost(1, late, x), 1, 1, at).(campaignAt := at, role := Primary, fencedAt := at, confirmedAt := at,
                                       wonTerm := 1)
  }

  function Follower(late: Id, x: nat, at: int): Node {
    Voter(late, x, at).(upstream := 1, downSince := at, fenced := false)
  }

  lemma Elect(m: Protocol, prefix: seq<Event>, p: Node, late: Id, x: nat, now: int) returns (run: seq<Event>)
    requires m.size == 3
    requires Reaches(m, prefix, Three(now, p, Candidate(late, x, now), Voter(late, x, now), TwoVotes, {}))
    ensures Reaches(m, run, Three(now, p, Booted(late, x, now), Follower(late, x, now), TwoVotes, {Victory(1, 1)}))
  {
    var c, v := Candidate(late, x, now), Voter(late, x, now);
    var s0 := Three(now, p, c, v, TwoVotes, {});
    assert Voters(s0, 1, 1) == {1, 2};
    var s1 := Three(now, p, Won(c), v, TwoVotes, {Victory(1, 1)});
    run := Then(m, prefix, s0, WinElection(1), s1);
    run := BootAndFollow(m, run, p, late, x, now);
  }

  /** A winner before it has restarted. */
  function Won(c: Node): Node {
    c.(role := Activating, campaign := 0, authorityFenced := false, fenced := false, wonTerm := c.campaign)
  }

  lemma BootAndFollow(m: Protocol, prefix: seq<Event>, p: Node, late: Id, x: nat, now: int) returns (run: seq<Event>)
    requires m.size == 3
    requires Reaches(m, prefix, Three(now, p, Won(Candidate(late, x, now)), Voter(late, x, now),
                                      TwoVotes, {Victory(1, 1)}))
    ensures Reaches(m, run, Three(now, p, Booted(late, x, now), Follower(late, x, now), TwoVotes, {Victory(1, 1)}))
  {
    var s1 := Three(now, p, Won(Candidate(late, x, now)), Voter(late, x, now), TwoVotes, {Victory(1, 1)});
    var s2 := Three(now, p, Booted(late, x, now), Voter(late, x, now), TwoVotes, {Victory(1, 1)});
    run := Then(m, prefix, s1, BootPrimary(1), s2);
    var s3 := Three(now, p, Booted(late, x, now), Follower(late, x, now), TwoVotes, {Victory(1, 1)});
    run := Then(m, run, s2, AdoptPrimary(2, 1, 1), s3);
  }

  /** Member 2 joins the new primary, which clears its boot fence while the old primary still accepts writes. */
  lemma Join(m: Protocol, prefix: seq<Event>, p: Node, late: Id, x: nat, at: int, now: int) returns (run: seq<Event>)
    requires m.size == 3 && (late == 1 || late == 2) && m.timing.fence > 0
    requires var s := Three(now, p, Booted(late, x, at), Follower(late, x, at), TwoVotes, {Victory(1, 1)});
      Reaches(m, prefix, s) && AdmitsWrites(m.timing, s, 0)
    requires now - at >= m.timing.liveness && (late == 2 ==> now - x >= m.rules.switchWait)
    ensures ValidRun(m, run) && !SingleWriter(m.timing, After(m, run))
  {
    var q, f := Booted(late, x, at), Follower(late, x, at);
    var s0 := Three(now, p, q, f, TwoVotes, {Victory(1, 1)});
    var hello := Message(2, 1, now, true);
    var joined := Spoken(f, 1, now);
    var s1 := Cluster(now, [p, q, joined], {hello}, TwoVotes, {Victory(1, 1)});
    run := Then(m, prefix, s0, Connect(2), s1);
    assert {hello} - {hello} == {};
    var s2 := Three(now, p, q.(seen := map[2 := now], heard := map[2 := now]), joined, TwoVotes, {Victory(1, 1)});
    run := Then(m, run, s1, Deliver(hello), s2);
    run := ClearBootFence(m, run, s2);
  }

  lemma ClearBootFence(m: Protocol, prefix: seq<Event>, s: Cluster) returns (run: seq<Event>)
    requires m.size == 3 && |s.nodes| == 3 && m.timing.fence > 0 && Reaches(m, prefix, s)
    requires AdmitsWrites(m.timing, s, 0)
    requires var q := s.nodes[1];
      && q.role.Primary? && !q.authorityFenced && q.seen == map[2 := s.now] && s.now - q.fencedAt >= m.timing.liveness
    ensures ValidRun(m, run) && !SingleWriter(m.timing, After(m, run))
  {
    var q := s.nodes[1];
    TickConfirms(m, s, 1, {2});
    assert q.seen == map r <- q.seen | r in {2} :: q.seen[r];
    var s' := s.(nodes := [s.nodes[0], q.(tracking := true, confirmedAt := s.now, fenced := false), s.nodes[2]]);
    run := Then(m, prefix, s, QuorumTick(1), s');
    assert AdmitsWrites(m.timing, s', 0) && AdmitsWrites(m.timing, s', 1);
  }

  /** The election and the old primary's last confirmation, at their times and in their order. */
  lemma ElectAndConfirm(m: Protocol, late: Id, x: nat, h: int, more: nat) returns (run: seq<Event>, now: int)
    requires m.size == 3 && (late == 1 || late == 2) && h == x + m.timing.transit
    requires x == m.timing.liveness + m.timing.electionBase + m.rules.voteWait
    requires m.timing.transit + more >= if late == 1 then m.timing.electionBase else m.rules.voteWait
    ensures now == h + if more < m.timing.liveness then m.timing.liveness else more
    ensures Reaches(m, run, Three(now, Confirmed(late, h, h + m.timing.liveness), Booted(late, x, h + more),
                                  Follower(late, x, h + more), TwoVotes, {Victory(1, 1)}))
  {
    hide Enabled, NodeAfter, After, ValidRun, Cut, Confirmed, Booted, Follower;
    var tick, c, p := m.timing.liveness, Cut(late, h), Confirmed(late, h, h + m.timing.liveness);
    var a, b := Lost(1, late, x), Lost(2, late, x);
    run := ReachCut(m, late, x, h);
    if more < tick {
      now := h + tick;
      run := ThenWait(m, run, Three(h, c, a, b, {}, {}), more);
      run := Vote(m, run, c, late, x, h + more);
      run := Elect(m, run, c, late, x, h + more);
      var s := Three(h + more, c, Booted(late, x, h + more), Follower(late, x, h + more), TwoVotes, {Victory(1, 1)});
      run := ThenWait(m, run, s, tick - more);
      run := Confirm(m, run, s.(now := now), late, h);
    } else {
      now := h + more;
      run := ThenWait(m, run, Three(h, c, a, b, {}, {}), tick);
      run := Confirm(m, run, Three(h + tick, c, a, b, {}, {}), late, h);
      run := ThenWait(m, run, Three(h + tick, p, a, b, {}, {}), more - tick);
      run := Vote(m, run, p, late, x, now);
      run := Elect(m, run, p, late, x, now);
    }
  }

  /** Two writers in the smallest cluster. The late member is either the new primary's voter, which votes and
      changes sides too soon, or the new primary itself, which stands for election too soon. */
  lemma TwoWriters(t: Timing, rules: Rules, late: Id) returns (run: seq<Event>)
    requires t.fence > 0
    requires || (late == 1 && t.electionBase < t.fence + t.transit)
             || (late == 2 && rules.voteWait < t.fence + t.transit && rules.switchWait < Hold(t))
    ensures ValidRun(Protocol(3, t, rules), run) && !SingleWriter(t, After(Protocol(3, t, rules), run))
  {
    hide Enabled, NodeAfter, After, ValidRun, SingleWriter, Booted, Follower;
    var m, x := Protocol(3, t, rules), t.liveness + t.electionBase + rules.voteWait;
    var h, more := x + t.transit, Rest(if late == 1 then t.electionBase else rules.voteWait, t.transit);
    var change := if late == 1 then 0 else Rest(rules.switchWait, t.transit);
    var join := if change < more + t.liveness then more + t.liveness else change;
    var now;
    run, now := ElectAndConfirm(m, late, x, h, more);
    var p, q, f := Confirmed(late, h, h + t.liveness), Booted(late, x, h + more), Follower(late, x, h + more);
    run := ThenWait(m, run, Three(now, p, q, f, TwoVotes, {Victory(1, 1)}), h + join - now);
    run := Join(m, run, p, late, x, h + more, h + join);
  }

  // ---------------------------------------------------------------------------------------------
  // Five members, all cut off from primary 0 from the start. Member 3 campaigns twice and reaches only the
  // primary, which raises it to epoch 2; then members 2 and 4 vote for member 1 in term 1.

  function Raised(t: Timing): Node {
    InitialNode(0).(epoch := 2, fencedAt := t.electionBase)
  }

  function Loner(t: Timing): Node {
    Voted(InitialNode(3), 2, 3, t.electionBase).(campaign := 2, campaignAt := t.electionBase)
  }

  /** Member 3's first campaign reaches nobody. */
  function Alone(t: Timing): Cluster {
    Cluster(t.electionBase, [InitialNode(0), InitialNode(1), InitialNode(2),
                             Voted(InitialNode(3), 1, 3, t.electionBase).(campaignAt := t.electionBase),
                             InitialNode(4)],
            {}, {Grant(3, 1, 3)}, {})
  }

  lemma ReachAlone(m: Protocol) returns (run: seq<Event>)
    requires m.size == 5
    ensures Reaches(m, run, Alone(m.timing))
  {
    var i0, i1, i2, i3, i4 := InitialNode(0), InitialNode(1), InitialNode(2), InitialNode(3), InitialNode(4);
    var now := m.timing.electionBase;
    var s0 := Cluster(0, [i0, i1, i2, i3, i4], {}, {}, {});
    run := [];
    assert After(m, run).nodes == s0.nodes;
    run := ThenWait(m, run, s0, now);
    var first := Voted(i3, 1, 3, now).(campaign := 1, campaignAt := now);
    var s1 := Cluster(now, [i0, i1, i2, first, i4], {}, {Grant(3, 1, 3)}, {});
    run := Then(m, run, s0.(now := now), StartCampaign(3), s1);
    run := Then(m, run, s1, AbandonCampaign(3), Alone(m.timing));
  }

  function RaisedAlone(t: Timing): Cluster {
    Cluster(t.electionBase, [Raised(t), InitialNode(1), InitialNode(2), Loner(t), InitialNode(4)],
            {}, {Grant(3, 1, 3), Grant(3, 2, 3)}, {})
  }

  lemma ReachRaised(m: Protocol) returns (run: seq<Event>)
    requires m.size == 5
    ensures Reaches(m, run, RaisedAlone(m.timing))
  {
    var t, s := m.timing, Alone(m.timing);
    run := ReachAlone(m);
    var s1 := RaisedAlone(t).(nodes := [s.nodes[0], s.nodes[1], s.nodes[2], Loner(t), s.nodes[4]]);
    run := Then(m, run, s, StartCampaign(3), s1);
    run := Then(m, run, s1, VoteRequestAtPrimary(0, 3, 2), RaisedAlone(t));
  }

  const FiveVotes := {Grant(3, 1, 3), Grant(3, 2, 3), Grant(1, 1, 1), Grant(2, 1, 1), Grant(4, 1, 1)}

  /** When the votes are cast. */
  function VoteTime(m: Protocol): nat {
    m.timing.electionBase + m.timing.liveness + m.rules.voteWait
  }

  function Cast(m: Protocol, i: Id): Node {
    Voted(InitialNode(i), 1, 1, VoteTime(m))
  }

  function FiveVoted(m: Protocol): Cluster {
    Cluster(VoteTime(m), [Raised(m.timing), Cast(m, 1).(campaign := 1, campaignAt := VoteTime(m)), Cast(m, 2),
                          Loner(m.timing), Cast(m, 4)], {}, FiveVotes, {})
  }

  /** Member 1 campaigns and member 2 votes for it. */
  lemma ReachTwoVoted(m: Protocol) returns (run: seq<Event>)
    requires m.size == 5
    ensures Reaches(m, run, TwoVoted(m))
  {
    var t, s0, v := m.timing, RaisedAlone(m.timing), TwoVoted(m);
    run := ReachRaised(m);
    run := ThenWait(m, run, s0, t.liveness + m.rules.voteWait);
    var s1 := v.(nodes := [v.nodes[0], v.nodes[1], InitialNode(2), v.nodes[3], v.nodes[4]],
                 grants := s0.grants + {Grant(1, 1, 1)});
    run := Then(m, run, s0.(now := VoteTime(m)), StartCampaign(1), s1);
    run := Then(m, run, s1, GrantVote(2, 1, 1), v);
  }

  function TwoVoted(m: Protocol): Cluster {
    Cluster(VoteTime(m), [Raised(m.timing), Cast(m, 1).(campaign := 1, campaignAt := VoteTime(m)), Cast(m, 2),
                          Loner(m.timing), InitialNode(4)], {}, FiveVotes - {Grant(4, 1, 1)}, {})
  }

  lemma ReachFiveVoted(m: Protocol) returns (run: seq<Event>)
    requires m.size == 5
    ensures Reaches(m, run, FiveVoted(m))
  {
    run := ReachTwoVoted(m);
    run := Then(m, run, TwoVoted(m), GrantVote(4, 1, 1), FiveVoted(m));
  }

  /** Replica n is free to connect to primary p of the given epoch: it voted for p, or its waits are over and the
      epoch is above its vote's term. */
  predicate MayJoin(m: Protocol, now: int, n: Node, p: Id, epoch: nat) {
    && n.role.Replica? && !n.linked && n.upstream == p && n.epoch <= epoch
    && (n.votedFor == p || (n.votedTerm < epoch && now - n.votedAt >= m.rules.voteLock))
    && (n.ackedTo == NOBODY || now - n.ackedAt >= m.rules.switchWait)
  }

  /** Members 2 and 4 connect to primary p, one of 0 and 1, and their announcements arrive after the given delay. */
  lemma ConnectBoth(m: Protocol, prefix: seq<Event>, s: Cluster, p: Id, delay: nat)
      returns (run: seq<Event>, s': Cluster)
    requires m.size == 5 && Reaches(m, prefix, s) && |s.nodes| == 5 && p < 2 && delay <= m.timing.transit
    requires s.sent == {}
    requires s.nodes[p].role.Primary? && s.nodes[p].seen == s.nodes[p].heard == map[]
    requires MayJoin(m, s.now, s.nodes[2], p, s.nodes[p].epoch) && MayJoin(m, s.now, s.nodes[4], p, s.nodes[p].epoch)
    ensures Reaches(m, run, s') && s' == s.(now := s.now + delay, nodes := s'.nodes) && |s'.nodes| == 5
    ensures var both := map[2 := s'.now, 4 := s'.now]; s'.nodes[p] == s.nodes[p].(seen := both, heard := both)
    ensures s'.nodes[1 - p] == s.nodes[1 - p]
    ensures s'.nodes[2] == Spoken(s.nodes[2], s.nodes[p].epoch, s.now)
    ensures s'.nodes[4] == Spoken(s.nodes[4], s.nodes[p].epoch, s.now)
  {
    hide Enabled, NodeAfter, After, ValidRun, MayJoin, Spoken;
    run, s' := Announce(m, prefix, s, 2, p);
    run, s' := Announce(m, run, s', 4, p);
    run := ThenWait(m, run, s', delay);
    run, s' := ArriveBoth(m, run, s'.(now := s.now + delay), p, s.now);
  }

  /** Member r, one of 2 and 4, connects to primary p; its announcement is on its way. */
  lemma Announce(m: Protocol, prefix: seq<Event>, s: Cluster, r: Id, p: Id) returns (run: seq<Event>, s': Cluster)
    requires m.size == 5 && Reaches(m, prefix, s) && |s.nodes| == 5 && p < 2 && (r == 2 || r == 4)
    requires s.nodes[p].role.Primary? && MayJoin(m, s.now, s.nodes[r], p, s.nodes[p].epoch)
    ensures s' == s.(nodes := s.nodes[r := Spoken(s.nodes[r], s.nodes[p].epoch, s.now)],
                     sent := s.sent + {Message(r, p, s.now, true)})
    ensures Reaches(m, run, s')
  {
    s' := s.(nodes := s.nodes[r := Spoken(s.nodes[r], s.nodes[p].epoch, s.now)],
             sent := s.sent + {Message(r, p, s.now, true)});
    run := Then(m, prefix, s, Connect(r), s');
  }

  lemma ArriveBoth(m: Protocol, prefix: seq<Event>, s: Cluster, p: Id, at: int) returns (run: seq<Event>, s': Cluster)
    requires m.size == 5 && Reaches(m, prefix, s) && |s.nodes| == 5 && p < 2 && s.now - at <= m.timing.transit
    requires s.nodes[p].role.Primary? && s.nodes[p].seen == s.nodes[p].heard == map[]
    requires s.sent == {Message(2, p, at, true), Message(4, p, at, true)}
    ensures var both := map[2 := s.now, 4 := s.now];
      s' == s.(nodes := s.nodes[p := s.nodes[p].(seen := both, heard := both)], sent := {})
    ensures Reaches(m, run, s')
  {
    var q, hello2, hello4 := s.nodes[p], Message(2, p, at, true), Message(4, p, at, true);
    var one, both := map[2 := s.now], map[2 := s.now, 4 := s.now];
    assert {hello2, hello4} - {hello2} == {hello4} && {hello4} - {hello4} == {};
    var s1 := s.(nodes := s.nodes[p := q.(seen := one, heard := one)], sent := {hello4});
    run := Then(m, prefix, s, Deliver(hello2), s1);
    s' := s.(nodes := s.nodes[p := q.(seen := both, heard := both)], sent := {});
    run := Then(m, run, s1, Deliver(hello4), s');
  }

  /** Members 2 and 4 connect to the old primary, which thereby confirms its quorum and clears its fence. */
  lemma Return(m: Protocol, prefix: seq<Event>, s: Cluster) returns (run: seq<Event>, s': Cluster)
    requires m.size == 5 && Reaches(m, prefix, s) && |s.nodes| == 5 && m.timing.fence > 0 && s.sent == {}
    requires s.nodes[0] == Raised(m.timing) && s.now >= m.timing.electionBase + m.timing.liveness
    requires MayJoin(m, s.now, s.nodes[2], 0, 2) && MayJoin(m, s.now, s.nodes[4], 0, 2)
    ensures Reaches(m, run, s') && AdmitsWrites(m.timing, s', 0) && s'.nodes[0].wonTerm == 0
    ensures s'.now == s.now && s'.grants == s.grants && s'.nodes[1] == s.nodes[1]
  {
    hide Enabled, NodeAfter, After, ValidRun, MayJoin;
    run, s' := ConnectBoth(m, prefix, s, 0, 0);
    run, s' := ConfirmWithTwo(m, run, s', 0, s.now);
  }

  /** A primary that heard members 2 and 4 at the given time and has served its fence clears it by a tick. */
  lemma ConfirmWithTwo(m: Protocol, prefix: seq<Event>, s: Cluster, p: Id, at: int)
      returns (run: seq<Event>, s': Cluster)
    requires m.size == 5 && Reaches(m, prefix, s) && |s.nodes| == 5 && p < 2
    requires s.nodes[p].role.Primary? && !s.nodes[p].authorityFenced && s.nodes[p].seen == map[2 := at, 4 := at]
    requires s.now - at <= m.timing.liveness <= s.now - s.nodes[p].fencedAt
    ensures s' == s.(nodes := s.nodes[p := s.nodes[p].(fenced := false, tracking := true, confirmedAt := s.now)])
    ensures Reaches(m, run, s')
  {
    var n := s.nodes[p];
    TickConfirms(m, s, p, {2, 4});
    assert n.seen == map r <- n.seen | r in {2, 4} :: n.seen[r];
    s' := s.(nodes := s.nodes[p := n.(fenced := false, tracking := true, confirmedAt := s.now)]);
    run := Then(m, prefix, s, QuorumTick(p), s');
  }

  /** However long voters wait before voting, and although they stay away from primaries up to the term they voted
      in: they return to the old primary while their votes can still be counted, and the election can be won. */
  lemma ElectedAfterReturn(t: Timing, rules: Rules) returns (run: seq<Event>)
    requires t.fence > 0 && rules.voteLock <= t.campaign
    ensures ValidRun(Protocol(5, t, rules), run)
    ensures !FencedBeforeElected(Protocol(5, t, rules), After(Protocol(5, t, rules), run))
  {
    var m := Protocol(5, t, rules);
    var s := FiveVoted(m);
    run := ReachFiveVoted(m);
    run := ThenWait(m, run, s, rules.voteLock);
    var s';
    run, s' := Return(m, run, s.(now := s.now + rules.voteLock));
    assert Voters(s', 1, 1) == {1, 2, 4};
    assert Enabled(m, s', WinElection(1));
  }

  /** Member 1 has been elected and has rebooted, and members 2 and 4 have adopted it. */
  function FiveElected(m: Protocol): Cluster {
    var at := VoteTime(m);
    Cluster(at,
            [Raised(m.timing),
             Cast(m, 1).(campaignAt := at, role := Primary, fencedAt := at, confirmedAt := at, wonTerm := 1),
             Cast(m, 2).(upstream := 1, downSince := at, fenced := false),
             Loner(m.timing),
             Cast(m, 4).(upstream := 1, downSince := at, fenced := false)], {}, FiveVotes, {Victory(1, 1)})
  }

  lemma ReachFiveElected(m: Protocol) returns (run: seq<Event>)
    requires m.size == 5
    ensures Reaches(m, run, FiveElected(m))
  {
    var s, e := FiveVoted(m), FiveElected(m);
    run := ReachFiveVoted(m);
    assert Voters(s, 1, 1) == {1, 2, 4};
    var s1 := s.(nodes := [s.nodes[0], Won(s.nodes[1]), s.nodes[2], s.nodes[3], s.nodes[4]],
                 victories := {Victory(1, 1)});
    run := Then(m, run, s, WinElection(1), s1);
    var s2 := s1.(nodes := [s.nodes[0], e.nodes[1], s.nodes[2], s.nodes[3], s.nodes[4]]);
    run := Then(m, run, s1, BootPrimary(1), s2);
    run := FollowBoth(m, run, s2);
  }

  lemma FollowBoth(m: Protocol, prefix: seq<Event>, s: Cluster) returns (run: seq<Event>)
    requires m.size == 5 && Reaches(m, prefix, s)
    requires var e := FiveElected(m); s == e.(nodes := [e.nodes[0], e.nodes[1], Cast(m, 2), e.nodes[3], Cast(m, 4)])
    ensures Reaches(m, run, FiveElected(m))
  {
    var e := FiveElected(m);
    var s1 := s.(nodes := [e.nodes[0], e.nodes[1], e.nodes[2], e.nodes[3], s.nodes[4]]);
    run := Then(m, prefix, s, AdoptPrimary(2, 1, 1), s1);
    run := Then(m, run, s1, AdoptPrimary(4, 1, 1), e);
  }

  /** A replica that voted in term 1 at the given time and last spoke at another. */
  predicate Served(n: Node, votedAt: int, ackedAt: int) {
    n.role.Replica? && n.linked && n.epoch == n.votedTerm == 1 && n.votedAt == votedAt && n.ackedAt == ackedAt
  }

  /** Primary 1 accepts writes on a confirmation of the given time, from members 2 and 4, who announced themselves to
      it liveness + transit before; the old primary is as it was. */
  predicate FiveJoined(m: Protocol, s: Cluster, confirmedAt: int) {
    && |s.nodes| == 5 && s.nodes[0] == Raised(m.timing) && s.sent == {}
    && s.nodes[1].role.Primary? && !s.nodes[1].fenced && !s.nodes[1].authorityFenced
    && s.nodes[1].confirmedAt == confirmedAt
    && Served(s.nodes[2], VoteTime(m), confirmedAt - m.timing.liveness - m.timing.transit)
    && Served(s.nodes[4], VoteTime(m), confirmedAt - m.timing.liveness - m.timing.transit)
  }

  lemma ReachFiveJoined(m: Protocol, wait: nat) returns (run: seq<Event>, s: Cluster)
    requires m.size == 5
    ensures Reaches(m, run, s) && s.now == VoteTime(m) + wait + m.timing.transit + m.timing.liveness
              && FiveJoined(m, s, s.now)
  {
    hide Enabled, NodeAfter, After, ValidRun;
    var e, at := FiveElected(m), VoteTime(m) + wait;
    run := ReachFiveElected(m);
    run := ThenWait(m, run, e, wait);
    run, s := ConnectBoth(m, run, e.(now := at), 1, m.timing.transit);
    var heardAt := s.now;
    run := ThenWait(m, run, s, m.timing.liveness);
    run, s := ConfirmWithTwo(m, run, s.(now := heardAt + m.timing.liveness), 1, heardAt);
  }

  /** However long voters wait and stay locked: members 2 and 4 elect member 1, make it a writer, lose the connection,
      and go over to the old primary as soon as the switch wait allows. They learn of it from member 3, whose answer
      to who-is-primary names it with the higher epoch. */
  lemma TwoWritersWhateverVotersDo(t: Timing, rules: Rules) returns (run: seq<Event>)
    requires t.fence > 0 && rules.switchWait < Hold(t)
    ensures ValidRun(Protocol(5, t, rules), run) && !SingleWriter(t, After(Protocol(5, t, rules), run))
  {
    hide Enabled, NodeAfter, After, ValidRun, SingleWriter, FiveJoined;
    var m, s := Protocol(5, t, rules), Init(5);
    run, s := ReachFiveJoined(m, rules.voteLock);
    var wait := Rest(rules.switchWait, t.liveness + t.transit);
    run := ThenWait(m, run, s, wait);
    FiveJoinedLater(m, s, s.now, wait);
    run := ChangeSides(m, run, s.(now := s.now + wait), s.now);
  }

  lemma FiveJoinedLater(m: Protocol, s: Cluster, confirmedAt: int, wait: nat)
    requires FiveJoined(m, s, confirmedAt)
    ensures FiveJoined(m, s.(now := s.now + wait), confirmedAt)
  {
  }

  lemma ChangeSides(m: Protocol, prefix: seq<Event>, s: Cluster, confirmedAt: int) returns (run: seq<Event>)
    requires m.size == 5 && m.timing.fence > 0 && Reaches(m, prefix, s) && FiveJoined(m, s, confirmedAt)
    requires confirmedAt <= s.now < confirmedAt + m.timing.fence && s.now - VoteTime(m) >= m.rules.voteLock
    requires s.now - confirmedAt + m.timing.liveness + m.timing.transit >= m.rules.switchWait
    ensures ValidRun(m, run) && !SingleWriter(m.timing, After(m, run))
  {
    var s';
    run, s' := GoOver(m, prefix, s, 2);
    run, s' := GoOver(m, run, s', 4);
    run, s' := Return(m, run, s');
    assert AdmitsWrites(m.timing, s', 1);
  }

  /** A connected replica loses its connection and adopts primary 0 at epoch 2. */
  lemma GoOver(m: Protocol, prefix: seq<Event>, s: Cluster, r: Id) returns (run: seq<Event>, s': Cluster)
    requires m.size == 5 && |s.nodes| == 5 && Reaches(m, prefix, s) && (r == 2 || r == 4)
    requires s.nodes[r].role.Replica? && s.nodes[r].linked && s.nodes[r].epoch <= 2
    ensures Reaches(m, run, s') && s' == s.(nodes := s.nodes[r := s'.nodes[r]])
    ensures var n, n' := s.nodes[r], s'.nodes[r];
      && n'.role.Replica? && !n'.linked && n'.upstream == 0 && n'.epoch == 2 && n'.votedTerm == n.votedTerm
      && n'.votedFor == n.votedFor && n'.votedAt == n.votedAt && n'.ackedTo == n.ackedTo && n'.ackedAt == n.ackedAt
  {
    var s1 := s.(nodes := s.nodes[r := s.nodes[r].(linked := false, downSince := s.now)]);
    run := Then(m, prefix, s, Disconnect(r), s1);
    s' := s1.(nodes := s1.nodes[r := NodeAfter(m, s1, AdoptPrimary(r, 0, 2), r)]);
    run := Then(m, run, s1, AdoptPrimary(r, 0, 2), s');
  }

  // ---------------------------------------------------------------------------------------------
  // Exactly when the guarantees hold, over all timings and all rules

  /** No two nodes ever accept writes together exactly when a replica that has acknowledged one primary stays away
      from any other for at least the hold time, and nobody stands for election within fence + transit. How
      long voters wait, and to what they then stay locked, makes no difference. */
  lemma WritersExclusiveIff(t: Timing, rules: Rules)
    ensures WritersAlwaysExclusive(t, rules) <==>
              t.fence == 0 || (rules.switchWait >= Hold(t) && t.electionBase >= t.fence + t.transit)
  {
    if t.fence == 0 || (rules.switchWait >= Hold(t) && t.electionBase >= t.fence + t.transit) {
      forall size: nat, run: seq<Event> | ValidRun(Protocol(size, t, rules), run)
        ensures SingleWriter(t, After(Protocol(size, t, rules), run))
      {
        SingleWriterAfter(Protocol(size, t, rules), run);
      }
    } else if rules.switchWait < Hold(t) {
      var run := TwoWritersWhateverVotersDo(t, rules);
      assert ValidRun(Protocol(5, t, rules), run);
    } else {
      var run := TwoWriters(t, rules, 1);
      assert ValidRun(Protocol(3, t, rules), run);
    }
  }

  lemma SingleWriterAfter(m: Protocol, run: seq<Event>)
    requires ValidRun(m, run)
    requires m.timing.fence == 0 ||
             (m.rules.switchWait >= Hold(m.timing)
              && m.timing.electionBase >= m.timing.fence + m.timing.transit)
    ensures SingleWriter(m.timing, After(m, run))
  {
    var s := After(m, run);
    forall p: Id, q: Id | p < m.size && q < m.size && AdmitsWrites(m.timing, s, p) && AdmitsWrites(m.timing, s, q)
      ensures p == q
    {
      if m.timing.fence == 0 {
        HaSafety.NoWriters(m, run, p);
      } else {
        HaSafety.WritersExclusive(m, run, p, q);
      }
    }
  }

  /** An old primary is always fenced before its replacement is elected exactly when candidates and voters wait at
      least the hold time, and a voter then acknowledges no primary other than its candidate for longer than
      a campaign can last. Staying away from primaries up to the term of the vote makes no difference. */
  lemma FenceBeforeElectionIff(t: Timing, rules: Rules)
    ensures FenceAlwaysPrecedesElection(t, rules) <==>
              t.fence == 0 || (t.electionBase >= Hold(t) && rules.voteWait >= Hold(t) && rules.voteLock > t.campaign)
  {
    if t.fence == 0 || HaSafety.VotersWait(Protocol(0, t, rules)) {
      forall size: nat, run: seq<Event> | ValidRun(Protocol(size, t, rules), run)
        ensures FencedBeforeElected(Protocol(size, t, rules), After(Protocol(size, t, rules), run))
      {
        FencedAfter(Protocol(size, t, rules), run);
      }
    } else if rules.voteLock <= t.campaign {
      var run := ElectedAfterReturn(t, rules);
      assert ValidRun(Protocol(5, t, rules), run);
    } else {
      var run := ElectedOverWriter(t, rules);
      assert ValidRun(Protocol(3, t, rules), run);
    }
  }

  lemma FencedAfter(m: Protocol, run: seq<Event>)
    requires ValidRun(m, run) && (m.timing.fence == 0 || HaSafety.VotersWait(m))
    ensures FencedBeforeElected(m, After(m, run))
  {
    if m.timing.fence == 0 {
      forall p: Id | p < m.size ensures !AdmitsWrites(m.timing, After(m, run), p) {
        HaSafety.NoWriters(m, run, p);
      }
    } else {
      HaSafety.FencedWhenElected(m, run);
    }
  }

  // ---------------------------------------------------------------------------------------------
  // The start-up guard

  /** For every configuration the guard accepts and every transit time: the source's rules give neither guarantee
      (unless nothing is ever written); nothing that voters do makes writers exclusive; without a lock on votes that
      is measured in time, no other precaution fences the old primary before an election; and one election timeout,
      taken as the vote wait, the vote lock and the switch wait, gives both exactly if it is not below the hold time,
      so whenever messages travel no longer than the guard's scheduling margin. */
  lemma GuardedConfiguration(ha: HaConfig, transit: nat)
    requires ValidateHaConfig(ha).Accepted? && ha.autoFailoverEnabled
    ensures WritersAlwaysExclusive(TimingOf(ha, transit), SourceRules) <==> FenceMs(ha) == 0
    ensures FenceAlwaysPrecedesElection(TimingOf(ha, transit), SourceRules) <==> FenceMs(ha) == 0
    ensures forall voteWait, termLock, voteLock ::
              WritersAlwaysExclusive(TimingOf(ha, transit), Rules(voteWait, termLock, voteLock, 0))
              <==> FenceMs(ha) == 0
    ensures forall voteWait, termLock, switchWait ::
              FenceAlwaysPrecedesElection(TimingOf(ha, transit), Rules(voteWait, termLock, 0, switchWait))
              <==> FenceMs(ha) == 0
    ensures var t, base := TimingOf(ha, transit), ElectionBaseMs(ha);
      var safe := Rules(base, false, base, base);
      && (WritersAlwaysExclusive(t, safe) <==> FenceMs(ha) == 0 || Hold(t) <= base)
      && (FenceAlwaysPrecedesElection(t, safe) <==> FenceMs(ha) == 0 || Hold(t) <= base)
      && Hold(t) == transit + 15_000 + ha.quorumLossFenceSeconds * 1_000
      && base == ha.electionTimeoutBaseSeconds * 1_000
      && (transit <= 4_000 ==> Hold(t) <= base)
  {
    assert !Violates(ha, UnsafeFailoverTiming);
    var t := TimingOf(ha, transit);
    forall rules: Rules
      ensures WritersAlwaysExclusive(t, rules) <==>
                t.fence == 0 || (rules.switchWait >= Hold(t) && t.electionBase >= t.fence + t.transit)
    {
      WritersExclusiveIff(t, rules);
    }
    forall rules: Rules
      ensures FenceAlwaysPrecedesElection(t, rules) <==>
                t.fence == 0 || (t.electionBase >= Hold(t) && rules.voteWait >= Hold(t) && rules.voteLock > t.campaign)
    {
      FenceBeforeElectionIff(t, rules);
    }
  }
}
