/** What every run of the failover protocol keeps: one winner per term under the source's own rules,
    and, under rules with a long enough wait, exclusive writers and fencing before election. */
module HaSafety {
  import opened HaTiming
  import opened HaCluster

  // ---------------------------------------------------------------------------------------------
  // Quorums

  /** Two sets of members whose sizes add up to more than the membership share a member. */
  lemma QuorumsIntersect(size: nat, a: set<Id>, b: set<Id>) returns (z: Id)
    requires forall x :: x in a || x in b ==> x < size
    requires |a| >= Majority(size) && |b| >= Majority(size)
    ensures z in a && z in b
  {
    assert |a + b| == |a| + |b| - |a * b|;
    BoundedCardinality(size, a + b);
    z :| z in a * b;
  }

  lemma {:induction false} BoundedCardinality(size: nat, a: set<Id>)
    requires forall x :: x in a ==> x < size
    ensures |a| <= size
  {
    if size > 0 {
      var b := a - {size - 1};
      BoundedCardinality(size - 1, b);
      assert a <= b + {size - 1};
      SubsetCardinality(a, b + {size - 1});
    } else {
      assert a == {};
    }
  }

  lemma {:induction false} SubsetCardinality(a: set<Id>, b: set<Id>)
    requires a <= b
    ensures |a| <= |b|
    decreases a
  {
    if a != {} {
      var x :| x in a;
      SubsetCardinality(a - {x}, b - {x});
    }
  }

  // ---------------------------------------------------------------------------------------------
  // Votes: an inductive invariant under every set of rules

  ghost predicate VotesConsistent(m: Protocol, s: Cluster)
    requires |s.nodes| == m.size
  {
    && (forall g <- s.grants ::
          && g.voter < m.size && g.candidate < m.size
          && 0 < g.term <= s.nodes[g.voter].votedTerm
          && g.term <= s.nodes[g.candidate].epoch
          && (g.term == s.nodes[g.voter].votedTerm ==> g.candidate == s.nodes[g.voter].votedFor))
    && (forall i :: 0 <= i < m.size ==>
          s.nodes[i].votedTerm <= s.nodes[i].epoch && s.nodes[i].campaign <= s.nodes[i].epoch)
    && (forall i :: 0 <= i < m.size ==> VoteRecorded(s, i))
    && (forall g, h :: g in s.grants && h in s.grants && g.voter == h.voter && g.term == h.term ==>
          g.candidate == h.candidate)
  }

  /** A node's persisted vote is one that was granted. */
  ghost predicate VoteRecorded(s: Cluster, i: Id)
    requires i < |s.nodes|
  {
    var n := s.nodes[i];
    if n.votedFor == NOBODY then n.votedTerm == 0 else 0 <= n.votedFor && Grant(i, n.votedTerm, n.votedFor) in s.grants
  }

  ghost predicate VictoriesBacked(m: Protocol, s: Cluster) {
    forall v <- s.victories :: |Voters(s, v.term, v.winner)| >= Majority(m.size)
  }

  /** Epochs never go back, and only the two voting events touch votes. */
  lemma VoteFrame(m: Protocol, s: Cluster, e: Event, i: Id)
    requires |s.nodes| == m.size && Enabled(m, s, e) && i < m.size && s.nodes[i].campaign <= s.nodes[i].epoch
    ensures var n, n' := s.nodes[i], NodeAfter(m, s, e, i);
      && n.epoch <= n'.epoch && n'.campaign <= n'.epoch
      && (!e.StartCampaign? && !e.GrantVote? ==> n'.votedTerm == n.votedTerm && n'.votedFor == n.votedFor)
  {
  }

  lemma VotesStep(m: Protocol, s: Cluster, e: Event)
    requires |s.nodes| == m.size && Enabled(m, s, e) && VotesConsistent(m, s)
    ensures VotesConsistent(m, Apply(m, s, e))
  {
    var s' := Apply(m, s, e);
    forall i | 0 <= i < m.size
      ensures s.nodes[i].epoch <= s'.nodes[i].epoch && s'.nodes[i].campaign <= s'.nodes[i].epoch
      ensures !e.StartCampaign? && !e.GrantVote? ==>
                s'.nodes[i].votedTerm == s.nodes[i].votedTerm && s'.nodes[i].votedFor == s.nodes[i].votedFor
    {
      VoteFrame(m, s, e, i);
    }
    if e.StartCampaign? {
      NewVote(m, s, s', e.c, s.nodes[e.c].epoch + 1, e.c);
    } else if e.GrantVote? {
      NewVote(m, s, s', e.v, e.term, e.c);
    } else {
      NoVote(m, s, s');
    }
  }

  lemma NoVote(m: Protocol, s: Cluster, s': Cluster)
    requires |s.nodes| == |s'.nodes| == m.size && VotesConsistent(m, s) && s'.grants == s.grants
    requires forall i :: 0 <= i < m.size ==>
               && s'.nodes[i].votedTerm == s.nodes[i].votedTerm && s'.nodes[i].votedFor == s.nodes[i].votedFor
               && s.nodes[i].epoch <= s'.nodes[i].epoch && s'.nodes[i].campaign <= s'.nodes[i].epoch
    ensures VotesConsistent(m, s')
  {
    forall i: Id | i < m.size ensures VoteRecorded(s', i) {
      assert VoteRecorded(s, i);
    }
  }

  /** Recording a vote for a fresh term, or the same vote again, keeps votes consistent. */
  lemma NewVote(m: Protocol, s: Cluster, s': Cluster, v: Id, term: nat, c: Id)
    requires |s.nodes| == |s'.nodes| == m.size && VotesConsistent(m, s) && v < m.size && c < m.size
    requires s'.grants == s.grants + {Grant(v, term, c)}
    requires s.nodes[v].votedTerm < term || (s.nodes[v].votedTerm == term && s.nodes[v].votedFor == c)
    requires s'.nodes[v].votedTerm == term && s'.nodes[v].votedFor == c
    requires forall i :: 0 <= i < m.size && i != v ==>
               s'.nodes[i].votedTerm == s.nodes[i].votedTerm && s'.nodes[i].votedFor == s.nodes[i].votedFor
    requires forall i :: 0 <= i < m.size ==>
               s.nodes[i].epoch <= s'.nodes[i].epoch && s'.nodes[i].campaign <= s'.nodes[i].epoch
    requires 0 < term <= s'.nodes[v].epoch && term <= s'.nodes[c].epoch
    ensures VotesConsistent(m, s')
  {
    forall i: Id | i < m.size ensures VoteRecorded(s', i) {
      assert VoteRecorded(s, i);
    }
  }

  lemma VictoriesStep(m: Protocol, s: Cluster, e: Event)
    requires |s.nodes| == m.size && Enabled(m, s, e) && VictoriesBacked(m, s)
    ensures VictoriesBacked(m, Apply(m, s, e))
  {
    var s' := Apply(m, s, e);
    assert s.grants <= s'.grants;
    forall v <- s'.victories ensures |Voters(s', v.term, v.winner)| >= Majority(m.size) {
      SubsetCardinality(Voters(s, v.term, v.winner), Voters(s', v.term, v.winner));
    }
  }

  lemma {:induction false} VotesInvariant(m: Protocol, run: seq<Event>)
    requires ValidRun(m, run)
    ensures VotesConsistent(m, After(m, run)) && VictoriesBacked(m, After(m, run))
  {
    if run != [] {
      VotesInvariant(m, run[..|run| - 1]);
      VotesStep(m, After(m, run[..|run| - 1]), run[|run| - 1]);
      VictoriesStep(m, After(m, run[..|run| - 1]), run[|run| - 1]);
    }
  }

  /** At most one node ever wins the election of a term, whatever the rules and however often nodes
      restart, reconnect, adopt other primaries or campaign again. */
  lemma OneWinnerPerTerm(m: Protocol, run: seq<Event>, v: Victory, w: Victory)
    requires ValidRun(m, run)
    requires v in After(m, run).victories && w in After(m, run).victories && v.term == w.term
    ensures v.winner == w.winner
  {
    var s := After(m, run);
    VotesInvariant(m, run);
    var z := QuorumsIntersect(m.size, Voters(s, v.term, v.winner), Voters(s, w.term, w.winner));
    assert Grant(z, v.term, v.winner) in s.grants && Grant(z, w.term, w.winner) in s.grants;
  }

  // ---------------------------------------------------------------------------------------------
  // Contact: who heard whom, and when

  /** Members whose contact with p is recent enough to back p's last quorum confirmation. */
  ghost function Backers(m: Protocol, s: Cluster, p: Id): set<Id>
    requires |s.nodes| == m.size && p < m.size
  {
    set r | 0 <= r < m.size && Backs(m, s, p, r)
  }

  ghost predicate Backs(m: Protocol, s: Cluster, p: Id, r: Id)
    requires |s.nodes| == m.size && p < m.size
  {
    r == p || (r in s.nodes[p].heard && s.nodes[p].heard[r] + m.timing.liveness >= s.nodes[p].confirmedAt)
  }

  /** A node's own timestamps and link. */
  ghost predicate TimestampsOk(now: int, n: Node) {
    && n.ackedAt <= now && n.downSince <= now && n.confirmedAt <= now
    && n.campaignAt <= now && n.votedAt <= now && n.fencedAt <= now
    && (!n.linked ==> n.ackedAt <= n.downSince)
    && (n.linked ==> n.role.Replica? && n.campaign == 0 && n.ackedTo == n.upstream && n.upstream in n.told)
  }

  /** A campaigner or primary has not acknowledged anyone for the election base, and a primary was fenced for a
      liveness after that. */
  ghost predicate RetiredOk(m: Protocol, now: int, n: Node) {
    && (n.campaign != 0 ==> n.role.Replica?)
    && (n.campaign != 0 || !n.role.Replica? ==> n.ackedTo == NOBODY || n.ackedAt + m.timing.electionBase <= now)
    && (n.role.Primary? ==> n.ackedTo == NOBODY || n.ackedAt + m.timing.electionBase <= n.fencedAt)
    && (n.role.Primary? && !n.fenced ==> n.fencedAt + m.timing.liveness <= now)
  }

  ghost predicate ClockOk(m: Protocol, now: int, n: Node) {
    TimestampsOk(now, n) && RetiredOk(m, now, n)
  }

  ghost predicate ClocksConsistent(m: Protocol, s: Cluster)
    requires |s.nodes| == m.size
  {
    forall i :: 0 <= i < m.size ==> ClockOk(m, s.now, s.nodes[i])
  }

  /** Node r has spoken only to other members, and last at its last acknowledgement. */
  ghost predicate ToldOk(m: Protocol, r: Id, n: Node) {
    forall p <- n.told :: p < m.size && p != r && n.ackedTo != NOBODY && n.told[p] <= n.ackedAt
  }

  ghost predicate SpeechConsistent(m: Protocol, s: Cluster)
    requires |s.nodes| == m.size
  {
    && (forall r: Id :: r < m.size ==> ToldOk(m, r, s.nodes[r]))
    && (forall message <- s.sent :: message.from < m.size && SentOk(s, message))
  }

  /** A message on its way is not younger than what its sender last said. */
  ghost predicate SentOk(s: Cluster, message: Message)
    requires message.from < |s.nodes|
  {
    message.to in s.nodes[message.from].told && message.at <= s.nodes[message.from].told[message.to]
  }

  /** What p has heard of r was really sent, and arrived within the transit time. */
  ghost predicate HeardOk(m: Protocol, s: Cluster, p: Id, r: Id)
    requires |s.nodes| == m.size && p < m.size
  {
    var n := s.nodes[p];
    && (r in n.heard ==> r < m.size && p in s.nodes[r].told && n.heard[r] <= s.nodes[r].told[p] + m.timing.transit)
    && (r in n.seen ==> r in n.heard && n.seen[r] <= n.heard[r])
  }

  /** Nothing was heard in the future. */
  ghost predicate RecordsOk(s: Cluster, p: Id, r: Id)
    requires p < |s.nodes|
  {
    r in s.nodes[p].heard ==> s.nodes[p].heard[r] <= s.now
  }

  ghost predicate HeardConsistent(m: Protocol, s: Cluster)
    requires |s.nodes| == m.size
  {
    forall p: Id, r: Id :: p < m.size ==> HeardOk(m, s, p, r) && RecordsOk(s, p, r)
  }

  /** A primary that is neither fenced nor superseded holds contact records that back its confirmation. */
  ghost predicate ProofOk(m: Protocol, s: Cluster, p: Id)
    requires |s.nodes| == m.size && p < m.size
  {
    s.nodes[p].role.Primary? && !s.nodes[p].fenced && !s.nodes[p].authorityFenced
    ==> s.nodes[p].tracking && |Backers(m, s, p)| >= Majority(m.size)
  }

  ghost predicate QuorumProven(m: Protocol, s: Cluster)
    requires |s.nodes| == m.size
  {
    forall p: Id :: p < m.size ==> ProofOk(m, s, p)
  }

  ghost predicate ContactInvariant(m: Protocol, s: Cluster)
    requires |s.nodes| == m.size
  {
    ClocksConsistent(m, s) && SpeechConsistent(m, s) && HeardConsistent(m, s) && QuorumProven(m, s)
  }

  lemma ClocksStep(m: Protocol, s: Cluster, e: Event)
    requires |s.nodes| == m.size && Enabled(m, s, e) && ClocksConsistent(m, s)
    ensures ClocksConsistent(m, Apply(m, s, e))
  {
    forall i: Id | i < m.size ensures ClockOk(m, Apply(m, s, e).now, NodeAfter(m, s, e, i)) {
      ClockOkStep(m, s, e, i);
    }
  }

  lemma ClockOkStep(m: Protocol, s: Cluster, e: Event, i: Id)
    requires |s.nodes| == m.size && Enabled(m, s, e) && i < m.size && ClockOk(m, s.now, s.nodes[i])
    ensures ClockOk(m, Apply(m, s, e).now, NodeAfter(m, s, e, i))
  {
    TimestampsStep(m, s, e, i);
    RetiredStep(m, s, e, i);
  }

  lemma TimestampsStep(m: Protocol, s: Cluster, e: Event, i: Id)
    requires |s.nodes| == m.size && Enabled(m, s, e) && i < m.size && ClockOk(m, s.now, s.nodes[i])
    ensures TimestampsOk(Apply(m, s, e).now, NodeAfter(m, s, e, i))
  {
  }

  lemma RetiredStep(m: Protocol, s: Cluster, e: Event, i: Id)
    requires |s.nodes| == m.size && Enabled(m, s, e) && i < m.size && ClockOk(m, s.now, s.nodes[i])
    ensures RetiredOk(m, Apply(m, s, e).now, NodeAfter(m, s, e, i))
  {
  }

  /** Only sending changes what a node has said, and only its own. */
  lemma SpeechFrame(m: Protocol, s: Cluster, e: Event, i: Id)
    requires |s.nodes| == m.size && Enabled(m, s, e) && i < m.size
    ensures var n, n' := s.nodes[i], NodeAfter(m, s, e, i);
      if e == Connect(i) || e == Acknowledge(i) then
        n'.told == n.told[n.upstream := s.now] && n'.ackedTo == n.upstream && n'.ackedAt == s.now
      else n'.told == n.told && n'.ackedTo == n.ackedTo && n'.ackedAt == n.ackedAt
  {
    hide Tick, SeenAfterTick, Enabled;
  }

  /** Only a delivery changes what a primary has heard. */
  lemma HeardFrame(m: Protocol, s: Cluster, e: Event, i: Id)
    requires |s.nodes| == m.size && Enabled(m, s, e) && i < m.size
    ensures var n, n' := s.nodes[i], NodeAfter(m, s, e, i);
      n'.heard == if e.Deliver? && e.message.to == i then n.heard[e.message.from := s.now] else n.heard
  {
    hide Tick, SeenAfterTick, Enabled;
  }

  /** A socket entry is an old one or the message arriving right now. */
  lemma SeenFrame(m: Protocol, s: Cluster, e: Event, p: Id, r: Id)
    requires |s.nodes| == m.size && Enabled(m, s, e) && p < m.size && r in NodeAfter(m, s, e, p).seen
    ensures var n, n' := s.nodes[p], NodeAfter(m, s, e, p);
      || (e.Deliver? && e.message.to == p && e.message.from == r && n'.seen[r] == s.now)
      || (r in n.seen && n'.seen[r] == n.seen[r])
  {
    hide Tick, LiveReplicas, Enabled;
  }

  lemma SpeechStep(m: Protocol, s: Cluster, e: Event)
    requires |s.nodes| == m.size && Enabled(m, s, e) && ClocksConsistent(m, s) && SpeechConsistent(m, s)
    ensures SpeechConsistent(m, Apply(m, s, e))
  {
    hide NodeAfter;
    var s' := Apply(m, s, e);
    forall r: Id | r < m.size ensures ToldOk(m, r, s'.nodes[r]) {
      ToldOkStep(m, s, e, r);
    }
    forall message <- s'.sent ensures message.from < m.size && SentOk(s', message) {
      SentOkStep(m, s, e, message);
    }
  }

  lemma ToldOkStep(m: Protocol, s: Cluster, e: Event, r: Id)
    requires |s.nodes| == m.size && Enabled(m, s, e) && r < m.size
    requires ClockOk(m, s.now, s.nodes[r]) && ToldOk(m, r, s.nodes[r])
    ensures ToldOk(m, r, NodeAfter(m, s, e, r))
  {
    hide NodeAfter;
    SpeechFrame(m, s, e, r);
  }

  lemma SentOkStep(m: Protocol, s: Cluster, e: Event, message: Message)
    requires |s.nodes| == m.size && Enabled(m, s, e) && ClocksConsistent(m, s) && SpeechConsistent(m, s)
    requires message in SentAfter(s, e)
    ensures message.from < m.size && SentOk(Apply(m, s, e), message)
  {
    hide NodeAfter;
    SpeechFrame(m, s, e, message.from);
    assert ToldOk(m, message.from, s.nodes[message.from]) && ClockOk(m, s.now, s.nodes[message.from]);
  }

  lemma HeardStep(m: Protocol, s: Cluster, e: Event)
    requires |s.nodes| == m.size && Enabled(m, s, e)
    requires ClocksConsistent(m, s) && SpeechConsistent(m, s) && HeardConsistent(m, s)
    ensures HeardConsistent(m, Apply(m, s, e))
  {
    hide NodeAfter;
    forall p: Id, r: Id | p < m.size ensures HeardOk(m, Apply(m, s, e), p, r) && RecordsOk(Apply(m, s, e), p, r) {
      HeardOkStep(m, s, e, p, r);
    }
  }

  lemma HeardOkStep(m: Protocol, s: Cluster, e: Event, p: Id, r: Id)
    requires |s.nodes| == m.size && Enabled(m, s, e) && p < m.size
    requires ClocksConsistent(m, s) && SpeechConsistent(m, s) && HeardOk(m, s, p, r) && RecordsOk(s, p, r)
    ensures HeardOk(m, Apply(m, s, e), p, r) && RecordsOk(Apply(m, s, e), p, r)
  {
    hide NodeAfter;
    HeardFrame(m, s, e, p);
    if r < m.size {
      SpeechFrame(m, s, e, r);
      assert ToldOk(m, r, s.nodes[r]) && ClockOk(m, s.now, s.nodes[r]);
    }
    if r in NodeAfter(m, s, e, p).seen {
      SeenFrame(m, s, e, p, r);
    }
    if e.Deliver? {
      assert SentOk(s, e.message);
    }
  }

  /** What was heard is only ever replaced by something later. */
  lemma HeardGrows(m: Protocol, s: Cluster, e: Event, p: Id, r: Id)
    requires |s.nodes| == m.size && Enabled(m, s, e) && p < m.size && RecordsOk(s, p, r)
    ensures r in s.nodes[p].heard ==>
              r in NodeAfter(m, s, e, p).heard && s.nodes[p].heard[r] <= NodeAfter(m, s, e, p).heard[r]
  {
    hide NodeAfter;
    HeardFrame(m, s, e, p);
  }

  /** Backing only grows while the confirmation time stays the same. */
  lemma BackersGrow(m: Protocol, s: Cluster, s': Cluster, p: Id)
    requires |s.nodes| == |s'.nodes| == m.size && p < m.size
    requires s'.nodes[p].confirmedAt <= s.nodes[p].confirmedAt
    requires forall r :: r in s.nodes[p].heard ==> r in s'.nodes[p].heard && s.nodes[p].heard[r] <= s'.nodes[p].heard[r]
    ensures |Backers(m, s, p)| <= |Backers(m, s', p)|
  {
    forall r | 0 <= r < m.size && Backs(m, s, p, r) ensures Backs(m, s', p, r) {}
    SubsetCardinality(Backers(m, s, p), Backers(m, s', p));
  }

  lemma TickProves(m: Protocol, s: Cluster, p: Id)
    requires |s.nodes| == m.size && Enabled(m, s, QuorumTick(p)) && ContactInvariant(m, s)
    requires !s.nodes[p].authorityFenced && 1 + |LiveReplicas(m.timing, s.now, s.nodes[p].seen)| >= Majority(m.size)
    ensures |Backers(m, Apply(m, s, QuorumTick(p)), p)| >= Majority(m.size)
  {
    var s' := Apply(m, s, QuorumTick(p));
    var live := LiveReplicas(m.timing, s.now, s.nodes[p].seen);
    assert s'.nodes[p].confirmedAt == s.now;
    forall r <- live ensures r < m.size && r != p && Backs(m, s', p, r) {
      assert HeardOk(m, s, p, r);
      assert ToldOk(m, r, s.nodes[r]);
    }
    assert live + {p} <= Backers(m, s', p);
    SubsetCardinality(live + {p}, Backers(m, s', p));
    assert |live + {p}| == |live| + 1;
  }

  lemma ProofStep(m: Protocol, s: Cluster, e: Event)
    requires |s.nodes| == m.size && Enabled(m, s, e) && ContactInvariant(m, s)
    ensures QuorumProven(m, Apply(m, s, e))
  {
    forall p: Id | p < m.size ensures ProofOk(m, Apply(m, s, e), p) {
      ProofOkStep(m, s, e, p);
    }
  }

  lemma ProofOkStep(m: Protocol, s: Cluster, e: Event, p: Id)
    requires |s.nodes| == m.size && Enabled(m, s, e) && ContactInvariant(m, s) && p < m.size
    ensures ProofOk(m, Apply(m, s, e), p)
  {
    if e == QuorumTick(p) && 1 + |LiveReplicas(m.timing, s.now, s.nodes[p].seen)| >= Majority(m.size) {
      if !s.nodes[p].authorityFenced {
        TickProves(m, s, p);
      }
    } else {
      var s' := Apply(m, s, e);
      UnfencedFrame(m, s, e, p);
      if s'.nodes[p].role.Primary? && !s'.nodes[p].fenced && !s'.nodes[p].authorityFenced {
        forall r <- s.nodes[p].heard ensures r in s'.nodes[p].heard && s.nodes[p].heard[r] <= s'.nodes[p].heard[r] {
          assert RecordsOk(s, p, r);
          HeardGrows(m, s, e, p, r);
        }
        assert ProofOk(m, s, p);
        BackersGrow(m, s, s', p);
      }
    }
  }

  /** A fence comes down only by a tick that confirms the quorum. */
  lemma UnfencedFrame(m: Protocol, s: Cluster, e: Event, p: Id)
    requires |s.nodes| == m.size && Enabled(m, s, e) && p < m.size && ProofOk(m, s, p)
    requires e == QuorumTick(p) ==> 1 + |LiveReplicas(m.timing, s.now, s.nodes[p].seen)| < Majority(m.size)
    ensures var n, n' := s.nodes[p], NodeAfter(m, s, e, p);
      n'.role.Primary? && !n'.fenced && !n'.authorityFenced ==>
        && n.role.Primary? && !n.fenced && !n.authorityFenced
        && n'.tracking == n.tracking && n'.confirmedAt == n.confirmedAt
  {
  }

  lemma {:induction false} ContactAlways(m: Protocol, run: seq<Event>)
    requires ValidRun(m, run)
    ensures ContactInvariant(m, After(m, run))
  {
    if run != [] {
      ContactAlways(m, run[..|run| - 1]);
      var s, e := After(m, run[..|run| - 1]), run[|run| - 1];
      ClocksStep(m, s, e);
      SpeechStep(m, s, e);
      HeardStep(m, s, e);
      ProofStep(m, s, e);
    }
  }

  /** Under the source's rules too, a node accepts writes only on the strength of a majority heard less than
      liveness + fence ago; a cut-off primary stops by itself within that time. */
  lemma WriterHeardMajority(m: Protocol, run: seq<Event>, p: Id)
    requires ValidRun(m, run) && p < m.size && AdmitsWrites(m.timing, After(m, run), p)
    ensures |RecentlyHeard(After(m, run), p, m.timing.liveness + m.timing.fence)| >= Majority(m.size)
  {
    hide RecentlyHeard, Backers, ClocksConsistent, SpeechConsistent, HeardConsistent;
    var s, window := After(m, run), m.timing.liveness + m.timing.fence;
    ContactAlways(m, run);
    assert ProofOk(m, s, p);
    BackersHeard(m, s, p);
    SubsetCardinality(Backers(m, s, p), RecentlyHeard(s, p, window));
  }

  lemma BackersHeard(m: Protocol, s: Cluster, p: Id)
    requires |s.nodes| == m.size && p < m.size && s.now - s.nodes[p].confirmedAt < m.timing.fence
    ensures Backers(m, s, p) <= RecentlyHeard(s, p, m.timing.liveness + m.timing.fence)
  {
  }

  /** p itself and the members it heard less than window ago. */
  ghost function RecentlyHeard(s: Cluster, p: Id, window: int): set<Id>
    requires p < |s.nodes|
  {
    set r | 0 <= r < |s.nodes| && HeardWithin(s, p, r, window)
  }

  ghost predicate HeardWithin(s: Cluster, p: Id, r: Id, window: int)
    requires p < |s.nodes|
  {
    r == p || (r in s.nodes[p].heard && s.now - s.nodes[p].heard[r] < window)
  }

  // ---------------------------------------------------------------------------------------------
  // Fences

  /** A vote request that a primary handles fences it at that term, from now on unless a fence of that term was up
      already. */
  lemma RequestFences(m: Protocol, s: Cluster, p: Id, c: Id, term: nat)
    requires |s.nodes| == m.size && Enabled(m, s, VoteRequestAtPrimary(p, c, term))
    ensures var s' := Apply(m, s, VoteRequestAtPrimary(p, c, term));
      && !AdmitsWrites(m.timing, s', p) && s'.nodes[p].role.Primary? && s'.nodes[p].fenced && s'.nodes[p].epoch == term
      && (s'.nodes[p].fencedAt == s.now || (s.nodes[p].fenced && s.nodes[p].epoch == term))
  {
  }

  /** Since the given time p has been fenced whenever it was a primary, until a liveness has passed. */
  ghost predicate Held(m: Protocol, s: Cluster, p: Id, since: int)
    requires p < |s.nodes|
  {
    || s.now >= since + m.timing.liveness
    || (since <= s.now && (s.nodes[p].role.Primary? ==> s.nodes[p].fenced && s.nodes[p].fencedAt >= since))
  }

  lemma HeldStep(m: Protocol, s: Cluster, e: Event, p: Id, since: int)
    requires |s.nodes| == m.size && Enabled(m, s, e) && p < m.size && Held(m, s, p, since)
    ensures Held(m, Apply(m, s, e), p, since)
  {
    hide LiveReplicas, Voters;
  }

  /** A fence that is up stays up for a liveness, whatever happens: until then the node accepts no writes. */
  lemma {:induction false} FenceHolds(m: Protocol, run: seq<Event>, later: seq<Event>, p: Id)
    requires ValidRun(m, run) && ValidRun(m, run + later) && p < m.size
    requires After(m, run).nodes[p].role.Primary? && After(m, run).nodes[p].fenced
    ensures Held(m, After(m, run + later), p, After(m, run).nodes[p].fencedAt)
    ensures AdmitsWrites(m.timing, After(m, run + later), p) ==>
              After(m, run + later).now >= After(m, run).nodes[p].fencedAt + m.timing.liveness
    decreases |later|
  {
    if later == [] {
      ContactAlways(m, run);
      assert run + later == run && ClockOk(m, After(m, run).now, After(m, run).nodes[p]);
    } else {
      var before := later[..|later| - 1];
      assert (run + later)[..|run + later| - 1] == run + before;
      FenceHolds(m, run, before, p);
      HeldStep(m, After(m, run + before), later[|later| - 1], p, After(m, run).nodes[p].fencedAt);
    }
  }

  /** A primary that met a replica of a newer epoch accepts no writes until it adopts another primary or is elected. */
  lemma {:induction false} AuthorityFenceHolds(m: Protocol, run: seq<Event>, later: seq<Event>, p: Id)
    requires ValidRun(m, run) && ValidRun(m, run + later) && p < m.size && After(m, run).nodes[p].authorityFenced
    requires forall e <- later :: e != WinElection(p) && !(e.AdoptPrimary? && e.i == p)
    ensures After(m, run + later).nodes[p].authorityFenced && !AdmitsWrites(m.timing, After(m, run + later), p)
    decreases |later|
  {
    if later == [] {
      assert run + later == run;
    } else {
      var before, e := later[..|later| - 1], later[|later| - 1];
      assert (run + later)[..|run + later| - 1] == run + before;
      assert forall x <- before :: x in later;
      AuthorityFenceHolds(m, run, before, p);
      AuthorityFrame(m, After(m, run + before), e, p);
    }
  }

  lemma AuthorityFrame(m: Protocol, s: Cluster, e: Event, p: Id)
    requires |s.nodes| == m.size && Enabled(m, s, e) && p < m.size && s.nodes[p].authorityFenced
    requires e != WinElection(p) && !(e.AdoptPrimary? && e.i == p)
    ensures NodeAfter(m, s, e, p).authorityFenced
  {
    hide Tick, SeenAfterTick, Enabled;
  }

  // ---------------------------------------------------------------------------------------------
  // Ticks

  /** A tick that finds a majority makes a primary accept writes, unless a fence has been up for less than a liveness;
      one that does not never makes it accept writes, and after a fence time without one it raises the fence. */
  lemma TickDecides(m: Protocol, s: Cluster, p: Id)
    requires |s.nodes| == m.size && Enabled(m, s, QuorumTick(p)) && !s.nodes[p].authorityFenced && m.timing.fence > 0
    ensures var s', n := Apply(m, s, QuorumTick(p)), s.nodes[p];
      if 1 + |LiveReplicas(m.timing, s.now, n.seen)| >= m.size / 2 + 1 then
        AdmitsWrites(m.timing, s', p) <==> !n.fenced || s.now - n.fencedAt >= m.timing.liveness
      else
        && (AdmitsWrites(m.timing, s', p) ==> !n.fenced && (n.tracking ==> s.now - n.confirmedAt < m.timing.fence))
        && (n.tracking && s.now - n.confirmedAt >= m.timing.fence ==>
              s'.nodes[p].fenced && s'.nodes[p].fencedAt == if n.fenced then n.fencedAt else s.now)
        && (n.tracking ==> s'.nodes[p].confirmedAt == n.confirmedAt)
  {
  }

  // ---------------------------------------------------------------------------------------------
  // What single events achieve

  /** Messages: sending puts one under way, its arrival makes the sender count as live, and a closed socket does not;
      connecting takes over the primary's epoch. A primary boots without connections, fenced and not tracking. */
  lemma MessageEvents(m: Protocol, s: Cluster, e: Event)
    requires |s.nodes| == m.size && Enabled(m, s, e)
    ensures var s' := Apply(m, s, e);
      && (e.Connect? || e.Acknowledge? ==>
            s'.nodes[e.r].linked && Message(e.r, s.nodes[e.r].upstream, s.now, e.Connect?) in s'.sent)
      && (e.Connect? ==> s'.nodes[e.r].epoch == s.nodes[s.nodes[e.r].upstream].epoch)
      && (e.Deliver? ==>
            e.message.from in LiveReplicas(m.timing, s'.now, s'.nodes[e.message.to].seen) && e.message !in s'.sent)
      && (e.DropSocket? ==> e.r !in LiveReplicas(m.timing, s'.now, s'.nodes[e.p].seen))
      && (e.StaleHello? ==> !AdmitsWrites(m.timing, s', s.nodes[e.r].upstream))
      && (e.BootPrimary? ==>
            && !AdmitsWrites(m.timing, s', e.p) && LiveReplicas(m.timing, s'.now, s'.nodes[e.p].seen) == {}
            && !s'.nodes[e.p].tracking && s'.nodes[e.p].confirmedAt == s'.nodes[e.p].fencedAt == s.now)
  {
    hide Tick, SeenAfterTick, Voters;
  }

  /** A replica that knows a newer epoch than its primary cannot connect to it, but can tell it so; one that does not
      can connect, if none of the precautions holds it back. */
  lemma MeetingAPrimary(m: Protocol, s: Cluster, r: Id, p: Id)
    requires |s.nodes| == m.size && r < m.size && p < m.size && r != p
    requires s.nodes[r].role.Replica? && !s.nodes[r].linked && s.nodes[r].upstream == p && s.nodes[p].role.Primary?
    ensures s.nodes[p].epoch < s.nodes[r].epoch ==> Enabled(m, s, StaleHello(r)) && !Enabled(m, s, Connect(r))
    ensures s.nodes[r].epoch <= s.nodes[p].epoch ==> !Enabled(m, s, StaleHello(r))
    ensures s.nodes[r].epoch <= s.nodes[p].epoch && m.rules == SourceRules && ClockOk(m, s.now, s.nodes[r]) ==>
              Enabled(m, s, Connect(r))
  {
  }

  /** Whom a vote request reaches acts on it exactly if the term is not older than its epoch: a primary fences itself;
      a replica votes if it is disconnected and has not voted for another candidate of the term or later. */
  lemma RequestsHandled(m: Protocol, s: Cluster, v: Id, c: Id, term: nat)
    requires |s.nodes| == m.size && v < m.size && v != c && Grant(c, term, c) in s.grants
    requires m.rules == SourceRules && ClockOk(m, s.now, s.nodes[v])
    ensures Enabled(m, s, VoteRequestAtPrimary(v, c, term)) <==>
              s.nodes[v].role == Primary && term >= s.nodes[v].epoch
    ensures Enabled(m, s, GrantVote(v, c, term)) <==>
              && s.nodes[v].role == Replica && !s.nodes[v].linked && term >= s.nodes[v].epoch
              && (term > s.nodes[v].votedTerm || (term == s.nodes[v].votedTerm && s.nodes[v].votedFor == c))
  {
  }

  /** Only a primary takes messages of replicas: an announcement from one it does not list, anything else from one it
      does, and nothing that was under way for longer than the transit time. */
  lemma MessagesTaken(m: Protocol, s: Cluster, message: Message)
    requires |s.nodes| == m.size && message in s.sent && message.to < m.size
    ensures Enabled(m, s, Deliver(message)) <==>
              && s.nodes[message.to].role == Primary && s.now <= message.at + m.timing.transit
              && (message.announcement <==> message.from !in s.nodes[message.to].seen)
  {
  }

  /** Votes and campaigns: a granted vote is no longer open to another candidate of the term, a learnt term closes
      older ones, and a disconnected, restarted or adopting node is unlinked and, in the latter cases, cannot win. */
  lemma CampaignEvents(m: Protocol, s: Cluster, e: Event)
    requires |s.nodes| == m.size && Enabled(m, s, e)
    ensures var s' := Apply(m, s, e);
      && (e.GrantVote? ==> forall c :: c != e.c ==> !Enabled(m, s', GrantVote(e.v, c, e.term)))
      && (e.LearnTerm? ==> forall c, term: nat :: term < e.term ==> !Enabled(m, s', GrantVote(e.r, c, term)))
      && (e.Disconnect? || e.Restart? ==> !s'.nodes[e.r].linked && s'.nodes[e.r].downSince == s.now)
      && (e.Restart? ==> !Enabled(m, s', WinElection(e.r)))
      && (e.AbandonCampaign? ==> !Enabled(m, s', WinElection(e.c)))
      && (e.AdoptPrimary? ==>
            && !Enabled(m, s', WinElection(e.i)) && !Enabled(m, s', QuorumTick(e.i)) && s'.nodes[e.i].upstream == e.p
            && s'.nodes[e.i].epoch == e.epoch && !s'.nodes[e.i].authorityFenced && s'.nodes[e.i].seen == map[])
      && (e.StartCampaign? ==>
            s.nodes[e.c].epoch < s'.nodes[e.c].campaign && e.c in Voters(s', s'.nodes[e.c].campaign, e.c))
      && (e.WinElection? ==>
            && Victory(s.nodes[e.c].campaign, e.c) in s'.victories && !Enabled(m, s', WinElection(e.c))
            && !s'.nodes[e.c].authorityFenced && Enabled(m, s', BootPrimary(e.c)))
  {
    hide Tick, SeenAfterTick;
  }

  // ---------------------------------------------------------------------------------------------
  // Exclusive writers, when a replica waits before acknowledging a different primary

  /** What a node said to different primaries is at least the switch wait apart. */
  ghost predicate ApartOk(m: Protocol, n: Node) {
    var wait := m.rules.switchWait;
    && (forall p <- n.told :: p != n.ackedTo ==> n.told[p] + wait <= n.ackedAt)
    && (forall p, q :: p in n.told && q in n.told && p != q ==>
          n.told[p] + wait <= n.told[q] || n.told[q] + wait <= n.told[p])
  }

  ghost predicate Apart(m: Protocol, s: Cluster)
    requires |s.nodes| == m.size
  {
    forall r: Id :: r < m.size ==> ApartOk(m, s.nodes[r])
  }

  lemma ApartStep(m: Protocol, s: Cluster, e: Event)
    requires |s.nodes| == m.size && Enabled(m, s, e) && ContactInvariant(m, s) && Apart(m, s)
    ensures Apart(m, Apply(m, s, e))
  {
    hide NodeAfter;
    forall r: Id | r < m.size ensures ApartOk(m, NodeAfter(m, s, e, r)) {
      assert ClockOk(m, s.now, s.nodes[r]) && ToldOk(m, r, s.nodes[r]);
      SpeechFrame(m, s, e, r);
    }
  }

  lemma {:induction false} ApartAlways(m: Protocol, run: seq<Event>)
    requires ValidRun(m, run)
    ensures Apart(m, After(m, run))
  {
    if run != [] {
      ApartAlways(m, run[..|run| - 1]);
      ContactAlways(m, run[..|run| - 1]);
      ApartStep(m, After(m, run[..|run| - 1]), run[|run| - 1]);
    }
  }

  /** A member that backs two writers spoke to both within the hold time, which the waits rule out; and
      a writer that the other one heard had first to stand for election and then to outlast its boot fence. */
  lemma WritersExclusive(m: Protocol, run: seq<Event>, p: Id, q: Id)
    requires m.rules.switchWait >= Hold(m.timing)
    requires m.timing.electionBase >= m.timing.fence + m.timing.transit
    requires ValidRun(m, run) && p < m.size && q < m.size
    requires AdmitsWrites(m.timing, After(m, run), p) && AdmitsWrites(m.timing, After(m, run), q)
    ensures p == q
  {
    var s := After(m, run);
    ContactAlways(m, run);
    ApartAlways(m, run);
    assert ProofOk(m, s, p) && ProofOk(m, s, q);
    var z := QuorumsIntersect(m.size, Backers(m, s, p), Backers(m, s, q));
    assert HeardOk(m, s, p, z) && HeardOk(m, s, q, z);
    assert ApartOk(m, s.nodes[z]) && ToldOk(m, z, s.nodes[z]) && ClockOk(m, s.now, s.nodes[z]);
  }

  /** Without a fence time every quorum proof is stale at once. */
  lemma NoWriters(m: Protocol, run: seq<Event>, p: Id)
    requires ValidRun(m, run) && p < m.size && m.timing.fence == 0
    ensures !AdmitsWrites(m.timing, After(m, run), p)
  {
    ContactAlways(m, run);
    assert ProofOk(m, After(m, run), p) && ClockOk(m, After(m, run).now, After(m, run).nodes[p]);
  }

  // ---------------------------------------------------------------------------------------------
  // Fencing before election, when voters wait and then stay with their candidate

  /** The waits that keep a voter's last contact and its vote apart. */
  predicate VotersWait(m: Protocol) {
    && Hold(m.timing) <= m.timing.electionBase
    && Hold(m.timing) <= m.rules.voteWait
    && m.timing.campaign < m.rules.voteLock
  }

  /** A node that is not a replica was elected in the term of its last vote, and nobody voted for it later. */
  ghost predicate TenureOk(s: Cluster, g: Grant)
    requires g.voter < |s.nodes| && g.candidate < |s.nodes|
  {
    && (!s.nodes[g.voter].role.Replica? ==> g.term <= s.nodes[g.voter].wonTerm)
    && (!s.nodes[g.candidate].role.Replica? ==> g.term <= s.nodes[g.candidate].wonTerm)
  }

  /** Elections are won in growing terms, and a vote for a running campaign is not older than the campaign. */
  ghost predicate TenureConsistent(m: Protocol, s: Cluster)
    requires |s.nodes| == m.size
  {
    && (forall i :: 0 <= i < m.size ==> s.nodes[i].wonTerm <= s.nodes[i].epoch)
    && (forall g <- s.grants :: g.voter < m.size && g.candidate < m.size && TenureOk(s, g) && FreshOk(s, g))
  }

  ghost predicate FreshOk(s: Cluster, g: Grant)
    requires g.voter < |s.nodes| && g.candidate < |s.nodes|
  {
    s.nodes[g.candidate].campaign == g.term ==> s.nodes[g.candidate].campaignAt <= s.nodes[g.voter].votedAt
  }

  lemma TenureStep(m: Protocol, s: Cluster, e: Event)
    requires |s.nodes| == m.size && Enabled(m, s, e)
    requires ClocksConsistent(m, s) && VotesConsistent(m, s) && TenureConsistent(m, s)
    ensures TenureConsistent(m, Apply(m, s, e))
  {
    var s' := Apply(m, s, e);
    forall i: Id | i < m.size ensures s'.nodes[i].wonTerm <= s'.nodes[i].epoch {
      TenureFrame(m, s, e, i);
    }
    forall g <- s'.grants ensures g.voter < m.size && g.candidate < m.size && TenureOk(s', g) && FreshOk(s', g) {
      if g in s.grants {
        TenureFrame(m, s, e, g.voter);
        TenureFrame(m, s, e, g.candidate);
        OldVoteTenure(m, s, e, g);
      } else {
        NewVoteTenure(m, s, e, g);
      }
    }
  }

  /** Only winning makes a node more than a replica. */
  lemma RoleFrame(m: Protocol, s: Cluster, e: Event, i: Id)
    requires |s.nodes| == m.size && Enabled(m, s, e) && i < m.size && e != WinElection(i)
    ensures var n, n' := s.nodes[i], NodeAfter(m, s, e, i);
      n'.wonTerm == n.wonTerm && (!n'.role.Replica? ==> !n.role.Replica?)
  {
    if !e.BootPrimary? {
      RoleKept(m, s, e, i);
    }
  }

  lemma RoleKept(m: Protocol, s: Cluster, e: Event, i: Id)
    requires |s.nodes| == m.size && Enabled(m, s, e) && i < m.size && e != WinElection(i) && !e.BootPrimary?
    ensures var n, n' := s.nodes[i], NodeAfter(m, s, e, i);
      n'.wonTerm == n.wonTerm && (n'.role.Replica? || n'.role == n.role)
  {
    hide Tick, SeenAfterTick, Enabled;
  }

  /** An election is won in the term the winner voted and campaigned in. */
  lemma WonFrame(m: Protocol, s: Cluster, e: Event, i: Id)
    requires |s.nodes| == m.size && Enabled(m, s, e) && i < m.size
    requires s.nodes[i].wonTerm <= s.nodes[i].epoch && s.nodes[i].campaign <= s.nodes[i].epoch
    ensures var n, n' := s.nodes[i], NodeAfter(m, s, e, i);
      && n.wonTerm <= n'.wonTerm <= n'.epoch
      && (!n'.role.Replica? ==> !n.role.Replica? || n'.wonTerm == n.epoch == n.votedTerm)
  {
    if e != WinElection(i) {
      hide NodeAfter, Enabled;
      RoleFrame(m, s, e, i);
      VoteFrame(m, s, e, i);
    }
  }

  /** A campaign keeps its start, and a new one is for a new term. */
  lemma CampaignFrame(m: Protocol, s: Cluster, e: Event, i: Id)
    requires |s.nodes| == m.size && Enabled(m, s, e) && i < m.size && TimestampsOk(s.now, s.nodes[i])
    ensures var n, n' := s.nodes[i], NodeAfter(m, s, e, i);
      && n.votedAt <= n'.votedAt
      && (n'.campaign != 0 && e != StartCampaign(i) ==> n'.campaign == n.campaign && n'.campaignAt == n.campaignAt)
      && (e == StartCampaign(i) ==> n'.campaign == n.epoch + 1)
  {
    hide Tick, SeenAfterTick, Enabled;
  }

  lemma TenureFrame(m: Protocol, s: Cluster, e: Event, i: Id)
    requires |s.nodes| == m.size && Enabled(m, s, e) && i < m.size
    requires s.nodes[i].wonTerm <= s.nodes[i].epoch && s.nodes[i].campaign <= s.nodes[i].epoch
    requires ClockOk(m, s.now, s.nodes[i])
    ensures var n, n' := s.nodes[i], NodeAfter(m, s, e, i);
      && n.wonTerm <= n'.wonTerm <= n'.epoch && n.votedAt <= n'.votedAt
      && (!n'.role.Replica? ==> !n.role.Replica? || n'.wonTerm == n.epoch == n.votedTerm)
      && (n'.campaign != 0 && e != StartCampaign(i) ==> n'.campaign == n.campaign && n'.campaignAt == n.campaignAt)
      && (e == StartCampaign(i) ==> n'.campaign == n.epoch + 1)
  {
    hide NodeAfter;
    WonFrame(m, s, e, i);
    CampaignFrame(m, s, e, i);
  }

  lemma OldVoteTenure(m: Protocol, s: Cluster, e: Event, g: Grant)
    requires |s.nodes| == m.size && Enabled(m, s, e) && VotesConsistent(m, s) && ClocksConsistent(m, s)
    requires TenureConsistent(m, s) && g in s.grants
    ensures TenureOk(Apply(m, s, e), g) && FreshOk(Apply(m, s, e), g)
  {
    TenureFrame(m, s, e, g.voter);
    TenureFrame(m, s, e, g.candidate);
    assert TenureOk(s, g) && FreshOk(s, g);
  }

  lemma NewVoteTenure(m: Protocol, s: Cluster, e: Event, g: Grant)
    requires |s.nodes| == m.size && Enabled(m, s, e) && VotesConsistent(m, s) && ClocksConsistent(m, s)
    requires TenureConsistent(m, s) && g in GrantsAfter(s, e) && g !in s.grants
    ensures g.voter < m.size && g.candidate < m.size && TenureOk(Apply(m, s, e), g) && FreshOk(Apply(m, s, e), g)
  {
    if e.GrantVote? {
      var own := Grant(e.c, e.term, e.c);
      assert own in s.grants && TenureOk(s, own);
      assert ClockOk(m, s.now, s.nodes[e.c]);
    }
  }

  /** While a campaign can be won, its voters have said nothing to any primary of an earlier term for
      the hold time. */
  ghost predicate SilentOk(m: Protocol, s: Cluster, g: Grant, p: Id)
    requires |s.nodes| == m.size && p < m.size && g.voter < m.size && g.candidate < m.size
  {
    Running(m, s, g) && p != g.candidate && s.nodes[p].wonTerm < g.term ==>
      && (p in s.nodes[g.voter].told ==>
            s.nodes[g.voter].told[p] + Hold(m.timing) <= s.now)
      && !(s.nodes[g.voter].linked && s.nodes[g.voter].upstream == p)
  }

  /** The vote's campaign is still on and within its time. */
  ghost predicate Running(m: Protocol, s: Cluster, g: Grant)
    requires g.candidate < |s.nodes|
  {
    s.nodes[g.candidate].campaign == g.term && s.now - s.nodes[g.candidate].campaignAt <= m.timing.campaign
  }

  ghost predicate VotersSilent(m: Protocol, s: Cluster)
    requires |s.nodes| == m.size
  {
    forall g, p: Id :: g in s.grants && p < m.size ==> g.voter < m.size && g.candidate < m.size && SilentOk(m, s, g, p)
  }

  lemma SilentStep(m: Protocol, s: Cluster, e: Event)
    requires VotersWait(m) && |s.nodes| == m.size && Enabled(m, s, e)
    requires ContactInvariant(m, s) && VotesConsistent(m, s) && TenureConsistent(m, s) && VotersSilent(m, s)
    ensures VotersSilent(m, Apply(m, s, e))
  {
    var s' := Apply(m, s, e);
    VotesStep(m, s, e);
    forall g, p: Id | g in s'.grants && p < m.size
      ensures g.voter < m.size && g.candidate < m.size && SilentOk(m, s', g, p)
    {
      assert ToldOk(m, g.voter, s.nodes[g.voter]);
      if g in s.grants {
        assert SilentOk(m, s, g, p);
        OldVoteSilent(m, s, e, g, p);
      } else {
        NewVoteSilent(m, s, e, g, p);
      }
    }
  }

  lemma OldVoteSilent(m: Protocol, s: Cluster, e: Event, g: Grant, p: Id)
    requires VotersWait(m) && |s.nodes| == m.size && Enabled(m, s, e) && p < m.size
    requires ClocksConsistent(m, s) && VotesConsistent(m, s) && TenureConsistent(m, s) && g in s.grants
    requires SilentOk(m, s, g, p)
    ensures SilentOk(m, Apply(m, s, e), g, p)
  {
    var s' := Apply(m, s, e);
    if Running(m, s', g) && p != g.candidate && s'.nodes[p].wonTerm < g.term {
      TenureFrame(m, s, e, p);
      TenureFrame(m, s, e, g.candidate);
      assert Running(m, s, g);
      if e == Connect(g.voter) && s.nodes[g.voter].upstream == p {
        StaysAway(m, s, g, p);
      }
      SpeechFrame(m, s, e, g.voter);
      LinkFrame(m, s, e, g.voter);
    }
  }

  /** A voter of a running campaign may not connect to a primary of an earlier term: its lock has not expired,
      and a primary it voted for later would be one of a later term. */
  lemma StaysAway(m: Protocol, s: Cluster, g: Grant, p: Id)
    requires VotersWait(m) && |s.nodes| == m.size && p < m.size && g in s.grants
    requires VotesConsistent(m, s) && TenureConsistent(m, s)
    requires Running(m, s, g) && p != g.candidate && s.nodes[p].wonTerm < g.term && s.nodes[g.voter].upstream == p
    ensures !Enabled(m, s, Connect(g.voter))
  {
    var n := s.nodes[g.voter];
    assert FreshOk(s, g) && VoteRecorded(s, g.voter);
    if n.votedFor == p {
      assert TenureOk(s, Grant(g.voter, n.votedTerm, p));
    }
  }

  /** A link comes up only by connecting. */
  lemma LinkFrame(m: Protocol, s: Cluster, e: Event, i: Id)
    requires |s.nodes| == m.size && Enabled(m, s, e) && i < m.size
    ensures var n, n' := s.nodes[i], NodeAfter(m, s, e, i);
      n'.linked && !(e == Connect(i)) ==> n.linked && n'.upstream == n.upstream
  {
  }

  lemma NewVoteSilent(m: Protocol, s: Cluster, e: Event, g: Grant, p: Id)
    requires VotersWait(m) && |s.nodes| == m.size && Enabled(m, s, e) && p < m.size
    requires ClocksConsistent(m, s) && VotesConsistent(m, s) && g in GrantsAfter(s, e) && g !in s.grants
    requires g.voter < m.size && ToldOk(m, g.voter, s.nodes[g.voter])
    ensures g.candidate < m.size && SilentOk(m, Apply(m, s, e), g, p)
  {
  }

  lemma {:induction false} SilentAlways(m: Protocol, run: seq<Event>)
    requires VotersWait(m) && ValidRun(m, run)
    ensures TenureConsistent(m, After(m, run)) && VotersSilent(m, After(m, run))
  {
    if run != [] {
      SilentAlways(m, run[..|run| - 1]);
      ContactAlways(m, run[..|run| - 1]);
      VotesInvariant(m, run[..|run| - 1]);
      TenureStep(m, After(m, run[..|run| - 1]), run[|run| - 1]);
      SilentStep(m, After(m, run[..|run| - 1]), run[|run| - 1]);
    }
  }

  /** When a candidate has its majority, a writer of an earlier term shares a voter with it; that voter has been
      silent for too long to back the writer. */
  lemma FencedWhenElected(m: Protocol, run: seq<Event>)
    requires VotersWait(m) && ValidRun(m, run)
    ensures FencedBeforeElected(m, After(m, run))
  {
    var s := After(m, run);
    ContactAlways(m, run);
    VotesInvariant(m, run);
    SilentAlways(m, run);
    forall c: Id, p: Id | c < m.size && p < m.size && p != c && Enabled(m, s, WinElection(c))
                          && s.nodes[p].wonTerm < s.nodes[c].campaign
      ensures !AdmitsWrites(m.timing, s, p)
    {
      OldPrimaryFenced(m, s, c, p);
    }
  }

  lemma OldPrimaryFenced(m: Protocol, s: Cluster, c: Id, p: Id)
    requires |s.nodes| == m.size && ContactInvariant(m, s) && VotesConsistent(m, s)
    requires TenureConsistent(m, s) && VotersSilent(m, s)
    requires c < m.size && p < m.size && p != c && Enabled(m, s, WinElection(c))
    requires s.nodes[p].wonTerm < s.nodes[c].campaign
    ensures !AdmitsWrites(m.timing, s, p)
  {
    var n, term := s.nodes[p], s.nodes[c].campaign;
    if n.role.Primary? && !n.fenced && !n.authorityFenced {
      assert ProofOk(m, s, p);
      var z := QuorumsIntersect(m.size, Backers(m, s, p), Voters(s, term, c));
      var g := Grant(z, term, c);
      assert g in s.grants && SilentOk(m, s, g, p) && TenureOk(s, g) && HeardOk(m, s, p, z);
    }
  }
}
