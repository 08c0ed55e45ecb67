/** The automatic-failover protocol as a timed state machine.

    One event is one atomic step of one node: a replica accepting its primary's greeting and announcing
    itself, acknowledging a heartbeat or losing the connection, such a message arriving at the primary, a
    primary's quorum tick, a vote request arriving, an election being won, a restart, the adoption of a
    discovered primary, or the clock moving. Clocks run at the same rate, and a message that arrives does so
    within the transit time; everything else about the network (loss, reordering, partitions, half-open
    sockets) is the freedom of the run to choose which events happen and when.

    `Rules` adds four precautions that the source does NOT have, so that the exact point at which the
    documented guarantees start to hold can be stated. `SourceRules` is the source itself. */
module HaCluster {
  import opened HaTiming

  type Id = nat

  const NOBODY: int := -1

  /** Activating: the election winner has persisted the primary role but has not restarted yet. */
  datatype Role = Replica | Activating | Primary

  datatype Node = Node(
    role: Role,
    epoch: nat,
    // persisted vote
    votedTerm: nat,
    votedFor: int,
    votedAt: int,
    // replica side
    upstream: Id,
    linked: bool,
    downSince: int,
    campaign: nat,          // term being campaigned for, 0 when none
    campaignAt: int,        // when the last campaign began
    ackedTo: int,           // the primary this node last sent anything to
    ackedAt: int,
    // primary side
    seen: map<Id, int>,     // live replica connections and their last acknowledgement
    fenced: bool,
    fencedAt: int,
    tracking: bool,
    confirmedAt: int,
    authorityFenced: bool,
    // history: when each primary was last sent anything, when each replica was last heard, and the term this
    // node was last elected in
    told: map<Id, int>,
    heard: map<Id, int>,
    wonTerm: nat)

  /** The votes granted and elections won so far are kept as history. */
  datatype Grant = Grant(voter: Id, term: nat, candidate: Id)
  datatype Victory = Victory(term: nat, winner: Id)

  /** On its way from a replica to its primary: the announcement that opens a connection, or an acknowledgement. */
  datatype Message = Message(from: Id, to: Id, at: int, announcement: bool)

  datatype Cluster = Cluster(
    now: int, nodes: seq<Node>, sent: set<Message>, grants: set<Grant>, victories: set<Victory>)

  /** campaign: how long after its start a campaign can still be won. transit: how long a message travels at most. */
  datatype Timing = Timing(liveness: nat, fence: nat, electionBase: nat, campaign: nat, transit: nat)

  /** voteWait: how long a replica must have been disconnected before it grants a vote.
      termLock: a replica that voted in a term acknowledges no other primary whose epoch is not above that term.
      voteLock: how long after voting a replica acknowledges no primary other than the one it voted for.
      switchWait: how long after its last acknowledgement a replica may acknowledge a different primary. */
  datatype Rules = Rules(voteWait: nat, termLock: bool, voteLock: nat, switchWait: nat)

  const SourceRules := Rules(0, false, 0, 0)

  datatype Protocol = Protocol(size: nat, timing: Timing, rules: Rules)

  datatype Event =
    | Advance(ms: nat)
    | Connect(r: Id)
    | Acknowledge(r: Id)
    | Deliver(message: Message)
    | Disconnect(r: Id)
    | Restart(r: Id)
    | DropSocket(p: Id, r: Id)
    | StaleHello(r: Id)
    | QuorumTick(p: Id)
    | StartCampaign(c: Id)
    | GrantVote(v: Id, c: Id, term: nat)
    | LearnTerm(r: Id, term: nat)
    | VoteRequestAtPrimary(p: Id, c: Id, term: nat)
    | AbandonCampaign(c: Id)
    | WinElection(c: Id)
    | BootPrimary(p: Id)
    | AdoptPrimary(i: Id, p: Id, epoch: nat)

  /** The timing a node runs with once the start-up guard accepted its configuration. */
  function TimingOf(ha: HaConfig, transit: nat): Timing {
    Timing(REPLICA_LIVENESS_TIMEOUT_MS, FenceMs(ha), ElectionBaseMs(ha),
           PEER_CERT_FETCH_TIMEOUT_MS + VOTE_REQUEST_FETCH_TIMEOUT_MS, transit)
  }

  /** The longest time for which something a replica said can keep a primary accepting writes: it travels, it counts
      as live contact, and a confirmation based on it lasts for the fence time. */
  function Hold(t: Timing): nat {
    t.transit + t.liveness + t.fence
  }

  function Majority(size: nat): nat {
    size / 2 + 1
  }

  /** Node 0 boots as the primary of an election-capable cluster, hence fenced. */
  function InitialNode(i: Id): Node {
    Node(if i == 0 then Primary else Replica, 0, 0, NOBODY, 0, 0, false, 0, 0, 0, NOBODY, 0,
         map[], true, 0, false, 0, false, map[], map[], 0)
  }

  function Init(size: nat): Cluster {
    Cluster(0, seq(size, i requires 0 <= i => InitialNode(i)), {}, {}, {})
  }

  /** The write barrier: neither fence is up and the quorum proof is not stale. */
  predicate AdmitsWrites(t: Timing, s: Cluster, p: Id)
    requires p < |s.nodes|
  {
    var n := s.nodes[p];
    n.role.Primary? && !n.authorityFenced && !n.fenced && !(n.tracking && s.now - n.confirmedAt >= t.fence)
  }

  /** The connections whose last acknowledgement is within the liveness timeout. */
  function LiveReplicas(t: Timing, now: int, seen: map<Id, int>): set<Id> {
    set r <- seen | now - seen[r] <= t.liveness
  }

  function Voters(s: Cluster, term: nat, c: Id): set<Id> {
    set g <- s.grants | g.term == term && g.candidate == c :: g.voter
  }

  /** What the node handling an event checks before acting on it. */
  predicate Enabled(m: Protocol, s: Cluster, e: Event)
    requires |s.nodes| == m.size
  {
    match e
    case Advance(_) => true
    case Connect(r) =>
      r < m.size && var n := s.nodes[r];
      && n.role.Replica? && !n.linked && n.upstream < m.size && n.upstream != r
      && var p := s.nodes[n.upstream];
      && p.role.Primary? && n.epoch <= p.epoch
      && (n.votedFor == NOBODY || n.votedFor == n.upstream ||
          ((m.rules.termLock ==> n.votedTerm < p.epoch) && s.now - n.votedAt >= m.rules.voteLock))
      && (n.ackedTo == NOBODY || n.ackedTo == n.upstream || s.now - n.ackedAt >= m.rules.switchWait)
    case Acknowledge(r) => r < m.size && s.nodes[r].linked
    case Deliver(message) =>
      && message in s.sent && s.now - message.at <= m.timing.transit && message.to < m.size
      && s.nodes[message.to].role.Primary?
      && (message.announcement <==> message.from !in s.nodes[message.to].seen)
    case Disconnect(r) => r < m.size && s.nodes[r].linked
    case Restart(r) => r < m.size && s.nodes[r].role.Replica?
    case DropSocket(p, r) => p < m.size
    case StaleHello(r) =>
      r < m.size && var n := s.nodes[r];
      && n.role.Replica? && !n.linked && n.upstream < m.size && n.upstream != r
      && s.nodes[n.upstream].role.Primary? && s.nodes[n.upstream].epoch < n.epoch
    case QuorumTick(p) => p < m.size && s.nodes[p].role.Primary?
    case StartCampaign(c) =>
      c < m.size && var n := s.nodes[c];
      n.role.Replica? && !n.linked && n.campaign == 0 && s.now - n.downSince >= m.timing.electionBase
    case GrantVote(v, c, term) =>
      && v < m.size && v != c && Grant(c, term, c) in s.grants
      && var n := s.nodes[v];
      && n.role.Replica? && !n.linked && n.epoch <= term
      && (n.votedTerm < term || (n.votedTerm == term && n.votedFor == c))
      && s.now - n.downSince >= m.rules.voteWait
    case LearnTerm(r, term) => r < m.size && s.nodes[r].role.Replica?
    case VoteRequestAtPrimary(p, c, term) =>
      p < m.size && Grant(c, term, c) in s.grants && s.nodes[p].role.Primary? && s.nodes[p].epoch <= term
    case AbandonCampaign(c) => c < m.size
    case WinElection(c) =>
      c < m.size && var n := s.nodes[c];
      && n.role.Replica? && !n.linked && n.campaign != 0 && s.now - n.campaignAt <= m.timing.campaign
      && n.epoch == n.campaign && n.votedTerm == n.campaign && n.votedFor == c
      && |Voters(s, n.campaign, c)| >= Majority(m.size)
    case BootPrimary(p) => p < m.size && !s.nodes[p].role.Replica?
    case AdoptPrimary(i, p, epoch) => i < m.size && p < m.size && i != p && s.nodes[i].epoch <= epoch
  }

  /** A primary's quorum bookkeeping. */
  datatype Quorum = Quorum(tracking: bool, confirmedAt: int, fenced: bool, fencedAt: int)

  /** One pass of `tickPrimaryQuorum` on a primary's bookkeeping. */
  function Tick(t: Timing, size: nat, now: int, n: Node): Quorum {
    if n.authorityFenced then Quorum(false, n.confirmedAt, n.fenced, n.fencedAt)
    else
      var confirmedAt := if n.tracking then n.confirmedAt else now;
      if 1 + |LiveReplicas(t, now, n.seen)| >= Majority(size) then
        Quorum(true, now, n.fenced && now - n.fencedAt < t.liveness, n.fencedAt)
      else if now - confirmedAt < t.fence || n.fenced then Quorum(true, confirmedAt, n.fenced, n.fencedAt)
      else Quorum(true, confirmedAt, true, now)
  }

  /** The connections that survive a tick: stale ones are expired unless the tick returns early. */
  function SeenAfterTick(t: Timing, now: int, n: Node): map<Id, int> {
    if n.authorityFenced then n.seen else map r <- n.seen | r in LiveReplicas(t, now, n.seen) :: n.seen[r]
  }

  /** A replica after sending something to its upstream primary, knowing the given epoch. */
  function Spoken(n: Node, epoch: nat, now: int): Node {
    n.(linked := true, epoch := epoch, campaign := 0, ackedTo := n.upstream, ackedAt := now,
       told := n.told[n.upstream := now])
  }

  /** A node after recording its vote for c in the given term. */
  function Voted(n: Node, term: nat, c: Id, now: int): Node {
    n.(epoch := term, votedTerm := term, votedFor := c, votedAt := now)
  }

  /** A primary after a vote request for the given term, which is not older than its own. */
  function Requested(n: Node, term: nat, now: int): Node {
    n.(epoch := term, fenced := true, fencedAt := if n.fenced && n.epoch >= term then n.fencedAt else now)
  }

  /** Node i after event e. */
  function NodeAfter(m: Protocol, s: Cluster, e: Event, i: Id): Node
    requires |s.nodes| == m.size && Enabled(m, s, e) && i < m.size
  {
    var n := s.nodes[i];
    match e
    case Advance(_) => n
    case Connect(r) => if i != r then n else Spoken(n, s.nodes[n.upstream].epoch, s.now)
    case Acknowledge(r) => if i != r then n else Spoken(n, n.epoch, s.now)
    case Deliver(message) =>
      if i != message.to then n
      else n.(seen := n.seen[message.from := s.now], heard := n.heard[message.from := s.now])
    case Disconnect(r) => if i != r then n else n.(linked := false, downSince := s.now)
    case Restart(r) => if i != r then n else n.(linked := false, downSince := s.now, campaign := 0)
    case DropSocket(p, r) => if i != p then n else n.(seen := n.seen - {r})
    case StaleHello(r) => if i != s.nodes[r].upstream then n else n.(authorityFenced := true)
    case QuorumTick(p) =>
      if i != p then n
      else
        var q := Tick(m.timing, m.size, s.now, n);
        n.(seen := SeenAfterTick(m.timing, s.now, n), tracking := q.tracking, confirmedAt := q.confirmedAt,
           fenced := q.fenced, fencedAt := q.fencedAt)
    case StartCampaign(c) =>
      if i != c then n
      else Voted(n, n.epoch + 1, c, s.now).(campaign := n.epoch + 1, campaignAt := s.now)
    case GrantVote(v, c, term) => if i != v then n else Voted(n, term, c, s.now)
    case LearnTerm(r, term) => if i != r || term <= n.epoch then n else n.(epoch := term)
    case VoteRequestAtPrimary(p, c, term) =>
      if i != p then n else Requested(n, term, s.now)
    case AbandonCampaign(c) => if i != c then n else n.(campaign := 0)
    case WinElection(c) =>
      if i != c then n
      else n.(role := Activating, campaign := 0, authorityFenced := false, fenced := false, wonTerm := n.campaign)
    case BootPrimary(p) =>
      if i != p then n
      else n.(role := Primary, seen := map[], fenced := true, fencedAt := s.now, tracking := false,
              confirmedAt := s.now)
    case AdoptPrimary(j, p, epoch) =>
      if i != j then n
      else n.(role := Replica, epoch := epoch, upstream := p, linked := false, downSince := s.now, campaign := 0,
              seen := map[], fenced := false, authorityFenced := false)
  }

  function GrantsAfter(s: Cluster, e: Event): set<Grant>
    requires e.StartCampaign? ==> e.c < |s.nodes|
  {
    match e
    case StartCampaign(c) => s.grants + {Grant(c, s.nodes[c].epoch + 1, c)}
    case GrantVote(v, c, term) => s.grants + {Grant(v, term, c)}
    case _ => s.grants
  }

  function SentAfter(s: Cluster, e: Event): set<Message>
    requires e.Connect? || e.Acknowledge? ==> e.r < |s.nodes|
  {
    match e
    case Connect(r) => s.sent + {Message(r, s.nodes[r].upstream, s.now, true)}
    case Acknowledge(r) => s.sent + {Message(r, s.nodes[r].upstream, s.now, false)}
    case Deliver(message) => s.sent - {message}
    case _ => s.sent
  }

  function Apply(m: Protocol, s: Cluster, e: Event): (s': Cluster)
    requires |s.nodes| == m.size && Enabled(m, s, e)
    ensures |s'.nodes| == m.size
  {
    Cluster(
      if e.Advance? then s.now + e.ms else s.now,
      seq(m.size, i requires 0 <= i < m.size => NodeAfter(m, s, e, i)),
      SentAfter(s, e),
      GrantsAfter(s, e),
      if e.WinElection? then s.victories + {Victory(s.nodes[e.c].campaign, e.c)} else s.victories)
  }

  /** The state after a run, and whether every event of the run was enabled when it happened. */
  function After(m: Protocol, run: seq<Event>): (s: Cluster)
    requires ValidRun(m, run)
    ensures |s.nodes| == m.size
    decreases |run|, 1
  {
    if run == [] then Init(m.size) else Apply(m, After(m, run[..|run| - 1]), run[|run| - 1])
  }

  predicate ValidRun(m: Protocol, run: seq<Event>)
    decreases |run|, 0
  {
    run == [] ||
    (ValidRun(m, run[..|run| - 1]) && Enabled(m, After(m, run[..|run| - 1]), run[|run| - 1]))
  }

  // ---------------------------------------------------------------------------------------------
  // What the documentation promises

  /** No two nodes accept configuration writes at the same time. */
  predicate SingleWriter(t: Timing, s: Cluster) {
    forall p, q :: 0 <= p < |s.nodes| && 0 <= q < |s.nodes| && AdmitsWrites(t, s, p) && AdmitsWrites(t, s, q) ==> p == q
  }

  /** An election can be won only when every primary of an earlier term is fenced. The term of a primary is the
      one it was elected in; its epoch may since have been raised by vote requests. */
  predicate FencedBeforeElected(m: Protocol, s: Cluster)
    requires |s.nodes| == m.size
  {
    forall c, p ::
      (0 <= c < m.size && 0 <= p < m.size && p != c && Enabled(m, s, WinElection(c))
       && s.nodes[p].wonTerm < s.nodes[c].campaign) ==> !AdmitsWrites(m.timing, s, p)
  }

  ghost predicate WritersAlwaysExclusive(t: Timing, rules: Rules) {
    forall size: nat, run: seq<Event> :: AUTO_FAILOVER_MIN_MEMBERS <= size && ValidRun(Protocol(size, t, rules), run)
                   ==> SingleWriter(t, After(Protocol(size, t, rules), run))
  }

  ghost predicate FenceAlwaysPrecedesElection(t: Timing, rules: Rules) {
    forall size: nat, run: seq<Event> :: AUTO_FAILOVER_MIN_MEMBERS <= size && ValidRun(Protocol(size, t, rules), run)
                   ==> FencedBeforeElected(Protocol(size, t, rules), After(Protocol(size, t, rules), run))
  }
}
