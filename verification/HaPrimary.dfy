/** A primary's own fields and the code that changes them: the quorum tick and the vote-request handler of
    src/services/ha-election-service.ts, and the write barrier of src/services/ha-write-barrier.ts. Each is
    proved to do to the fields what the cluster model says. */
module HaPrimary {
  import opened HaTiming
  import opened HaCluster

  /** How `runPrimaryWrite` answers: it runs the operation or throws one of three errors. */
  datatype Admission = Admitted | AuthorityFenceError | QuorumLossFenceError | PromotionFenceError

  class PrimaryNode {
    const timing: Timing
    var epoch: nat
    var quorumFenced: bool
    var quorumFencedAt: int
    var quorumTrackingActive: bool
    var lastMajorityConfirmedAt: int
    var authorityFence: bool
    var autoFailoverEnabled: bool
    var fencedForPromotion: bool
    var electionInProgress: bool
    var nodes: map<Id, int>

    /** The fields as the cluster model's node. */
    function AsNode(): Node
      reads this
    {
      Node(Primary, epoch, 0, NOBODY, 0, 0, false, 0, 0, 0, NOBODY, 0, nodes, quorumFenced, quorumFencedAt,
           quorumTrackingActive, lastMajorityConfirmedAt, authorityFence, map[], map[], 0)
    }

    function Bookkeeping(): Quorum
      reads this
    {
      Quorum(quorumTrackingActive, lastMajorityConfirmedAt, quorumFenced, quorumFencedAt)
    }

    /** Automatic failover is on, large enough a cluster, and no manual promotion or own election is under way. */
    predicate ElectionCapable(memberCount: nat)
      reads this
    {
      autoFailoverEnabled && !fencedForPromotion && !electionInProgress && memberCount >= AUTO_FAILOVER_MIN_MEMBERS
    }

    /** `prepareForRuntimeAtBoot` of an election-capable primary. */
    constructor (timing: Timing, epoch: nat, authorityFence: bool, now: int)
      ensures this.timing == timing && this.epoch == epoch && this.authorityFence == authorityFence
      ensures nodes == map[] && Bookkeeping() == Quorum(false, now, true, now)
                && ElectionCapable(AUTO_FAILOVER_MIN_MEMBERS)
    {
      this.timing, this.epoch, this.authorityFence := timing, epoch, authorityFence;
      autoFailoverEnabled, fencedForPromotion, electionInProgress := true, false, false;
      quorumFenced, quorumFencedAt, quorumTrackingActive, lastMajorityConfirmedAt := true, now, false, now;
      nodes := map[];
    }

    /** `expireStaleReplicaConnections`. */
    method ExpireStaleReplicaConnections(now: int)
      modifies this`nodes
      ensures nodes == map r <- old(nodes) | r in LiveReplicas(timing, now, old(nodes)) :: old(nodes)[r]
    {
      nodes := map r <- nodes | now - nodes[r] <= timing.liveness :: nodes[r];
    }

    method ClearQuorumLossIfFenced()
      modifies this`quorumFenced
      ensures !quorumFenced
    {
      if !quorumFenced {
        return;
      }
      quorumFenced := false;
    }

    /** In an election-capable cluster, the tick of the cluster model. Otherwise quorum tracking stops, and the fence
        comes down exactly when failover is switched off, or the cluster is too small and nothing else is going on. */
    method TickPrimaryQuorum(memberCount: nat, now: int)
      modifies this`quorumTrackingActive, this`lastMajorityConfirmedAt, this`quorumFenced, this`quorumFencedAt,
               this`nodes
      ensures ElectionCapable(memberCount) ==> Bookkeeping() == Tick(timing, memberCount, now, old(AsNode()))
      ensures ElectionCapable(memberCount) ==> nodes == SeenAfterTick(timing, now, old(AsNode()))
      ensures !ElectionCapable(memberCount) ==>
        && nodes == old(nodes)
        && Bookkeeping() == old(Bookkeeping()).(tracking := false, fenced := quorumFenced)
        && (quorumFenced <==> old(quorumFenced) && autoFailoverEnabled
                              && (authorityFence || fencedForPromotion || electionInProgress))
    {
      if !autoFailoverEnabled {
        quorumTrackingActive := false;
        ClearQuorumLossIfFenced();
        return;
      }
      if authorityFence {
        quorumTrackingActive := false;
        return;
      }
      if fencedForPromotion || electionInProgress {
        quorumTrackingActive := false;
        return;
      }
      if memberCount < AUTO_FAILOVER_MIN_MEMBERS {
        quorumTrackingActive := false;
        ClearQuorumLossIfFenced();
        return;
      }
      CheckQuorum(memberCount, now);
    }

    /** The part of the tick that an unfenced authority of an election-capable cluster gets to. */
    method CheckQuorum(memberCount: nat, now: int)
      requires !authorityFence
      modifies this`quorumTrackingActive, this`lastMajorityConfirmedAt, this`quorumFenced, this`quorumFencedAt,
               this`nodes
      ensures Bookkeeping() == Tick(timing, memberCount, now, old(AsNode()))
      ensures nodes == SeenAfterTick(timing, now, old(AsNode()))
    {
      if !quorumTrackingActive {
        lastMajorityConfirmedAt := now;
      }
      quorumTrackingActive := true;
      var majority := memberCount / 2 + 1;
      ExpireStaleReplicaConnections(now);
      assert nodes.Keys == LiveReplicas(timing, now, old(nodes));
      var ownCount := 1 + |nodes.Keys|;
      if ownCount >= majority {
        lastMajorityConfirmedAt := now;
        if quorumFenced {
          if now - quorumFencedAt < timing.liveness {
            return;
          }
        }
        ClearQuorumLossIfFenced();
        return;
      }
      if now - lastMajorityConfirmedAt < timing.fence {
        return;
      }
      if quorumFenced {
        return;
      }
      quorumFenced := true;
      quorumFencedAt := now;
    }

    /** The primary's branch of `handleVoteRequest`: it fences itself for the term and never grants. */
    method HandleVoteRequest(memberCount: nat, term: nat, now: int) returns (granted: bool)
      modifies this`quorumFenced, this`quorumFencedAt, this`epoch
      ensures !granted
      ensures !autoFailoverEnabled || memberCount < AUTO_FAILOVER_MIN_MEMBERS || term < old(epoch) ==>
                AsNode() == old(AsNode())
      ensures autoFailoverEnabled && memberCount >= AUTO_FAILOVER_MIN_MEMBERS && term >= old(epoch) ==>
                AsNode() == Requested(old(AsNode()), term, now)
    {
      granted := false;
      if !autoFailoverEnabled || memberCount < AUTO_FAILOVER_MIN_MEMBERS || term < epoch {
        return;
      }
      if !(quorumFenced && epoch >= term) {
        quorumFencedAt := now;
      }
      quorumFenced := true;
      epoch := if epoch < term then term else epoch;
    }

    /** The admission check of `runPrimaryWrite`: a nested write goes through on its caller's lease; any other needs
        what the cluster model demands and no promotion under way. The first fence that is up names the error. */
    method AdmitWrite(inheritedLease: bool, now: int) returns (admission: Admission)
      ensures admission.Admitted? <==>
                inheritedLease || (AdmitsWrites(timing, Cluster(now, [AsNode()], {}, {}, {}), 0) && !fencedForPromotion)
      ensures admission.AuthorityFenceError? <==> !inheritedLease && authorityFence
      ensures admission.PromotionFenceError? <==>
                !inheritedLease && fencedForPromotion && AdmitsWrites(timing, Cluster(now, [AsNode()], {}, {}, {}), 0)
    {
      if inheritedLease {
        return Admitted;
      }
      if authorityFence {
        return AuthorityFenceError;
      }
      if quorumFenced || (quorumTrackingActive && now - lastMajorityConfirmedAt >= timing.fence) {
        return QuorumLossFenceError;
      }
      if fencedForPromotion {
        return PromotionFenceError;
      }
      return Admitted;
    }
  }
}
