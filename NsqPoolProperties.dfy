/** Properties of the publish coordinator: the threshold, the counter, the walk,
    the diagnostic log and the verdict, stated over the specification functions of
    module `Nsq` that the pool's methods are proved against. */
module NsqPoolProperties {
  import opened Nsq

  // ---------------------------------------------------------------------------
  // Threshold

  /** The quorum threshold is a plain majority for an even pool and one more than
      a plain majority for an odd pool. */
  lemma QuorumIsMajorityPlusParity(n: nat)
    ensures Required(Quorum, n) == n / 2 + 1 + n % 2
  {
  }

  /** A quorum can be met only by a pool of at least two connections, and it needs
      every connection exactly for pools of two and three. */
  lemma QuorumReachable(n: nat)
    ensures Required(Quorum, n) <= n <==> 2 <= n
    ensures Required(Quorum, n) == n <==> n == 2 || n == 3
  {
  }

  // ---------------------------------------------------------------------------
  // The success counter

  /** Every reaction is ok exactly when the counter reaches the number of reactions. */
  lemma {:induction false} CountOkAllIff(rs: seq<Reaction>)
    ensures CountOk(rs) == |rs| <==> forall j :: 0 <= j < |rs| ==> IsOk(rs[j])
  {
    if rs != [] {
      var init := rs[..|rs| - 1];
      CountOkAllIff(init);
      assert forall j :: 0 <= j < |init| ==> init[j] == rs[j];
    }
  }

  /** The counter is zero exactly when there is no ok reaction at all. */
  lemma {:induction false} CountOkZeroIff(rs: seq<Reaction>)
    ensures CountOk(rs) == 0 <==> FirstOk(rs) == |rs|
  {
    if rs != [] {
      var init := rs[..|rs| - 1];
      CountOkZeroIff(init);
      if FirstOk(rs) == |rs| {
        assert FirstOk(init) == |init| by {
          assert forall j :: 0 <= j < |init| ==> init[j] == rs[j];
        }
      } else {
        var k := FirstOk(rs);
        if k < |rs| - 1 {
          assert init[k] == rs[k];
          assert FirstOk(init) <= k;
        }
      }
    }
  }

  /** More ok reactions never lower the counter. */
  lemma {:induction false} CountOkMonotone(rs1: seq<Reaction>, rs2: seq<Reaction>)
    requires |rs1| == |rs2|
    requires forall j :: 0 <= j < |rs1| && IsOk(rs1[j]) ==> IsOk(rs2[j])
    ensures CountOk(rs1) <= CountOk(rs2)
  {
    if rs1 != [] {
      var n := |rs1| - 1;
      assert forall j :: 0 <= j < n ==> rs1[..n][j] == rs1[j] && rs2[..n][j] == rs2[j];
      CountOkMonotone(rs1[..n], rs2[..n]);
    }
  }

  /** A socket failure counts exactly like an answer that is not ok: the counter,
      the number of connections contacted and whether the publish fails are the same. */
  lemma SocketFailureActsAsRejection(conns: seq<Conn>, strategy: string, rs: seq<Reaction>,
                                     i: nat, message: string, code: string)
    requires |conns| == |rs| && i < |rs|
    ensures var failed := rs[i := SocketFailure(message)];
            var rejected := rs[i := Responded(Response(false, code))];
            CountOk(failed) == CountOk(rejected)
            && Contacted(strategy, failed) == Contacted(strategy, rejected)
            && Verdict(conns, strategy, failed).PubError? == Verdict(conns, strategy, rejected).PubError?
  {
    var failed := rs[i := SocketFailure(message)];
    var rejected := rs[i := Responded(Response(false, code))];
    CountOkMonotone(failed, rejected);
    CountOkMonotone(rejected, failed);
  }

  // ---------------------------------------------------------------------------
  // The walk and its log

  /** The calls of a walk: one per contacted connection, in connection order. */
  lemma {:induction false} CallsToAt(conns: seq<Conn>, topic: string, d: Dispatch, i: nat)
    requires i < |conns|
    ensures |CallsTo(conns, topic, d)| == |conns|
    ensures CallsTo(conns, topic, d)[i] == Call(conns[i], topic, d)
  {
    var n := |conns| - 1;
    if i < n {
      assert conns[..n][i] == conns[i];
      CallsToAt(conns[..n], topic, d, i);
    }
  }

  /** The log of a walk: one entry per connection, in connection order. */
  lemma {:induction false} LogAt(conns: seq<Conn>, rs: seq<Reaction>, i: nat)
    requires |conns| == |rs| && i < |conns|
    ensures Log(conns, rs)[i] == Entry(conns[i], rs[i])
  {
    var n := |conns| - 1;
    if i < n {
      assert conns[..n][i] == conns[i] && rs[..n][i] == rs[i];
      LogAt(conns[..n], rs[..n], i);
    }
  }

  /** A socket failure never ends the walk: the last connection contacted is either
      the last of the pool or one that answered ok. */
  lemma WalkStopsOnlyAfterAck(strategy: string, rs: seq<Reaction>)
    ensures Contacted(strategy, rs) <= |rs|
    ensures Contacted(strategy, rs) < |rs| ==>
              strategy == OnlyOne && 0 < Contacted(strategy, rs) && IsOk(rs[Contacted(strategy, rs) - 1])
  {
  }

  /** Under only-one the walk ends right after the first ok answer, with the counter at
      exactly one, and the publish completes. */
  lemma OnlyOneStopsAtFirstAck(conns: seq<Conn>, rs: seq<Reaction>)
    requires |conns| == |rs| && FirstOk(rs) < |rs|
    ensures Contacted(OnlyOne, rs) == FirstOk(rs) + 1
    ensures CountOk(rs[..Contacted(OnlyOne, rs)]) == 1
    ensures Verdict(conns, OnlyOne, rs) == Done
  {
    var k := FirstOk(rs);
    var prefix := rs[..k + 1];
    assert prefix[..k] == rs[..k];
    assert FirstOk(rs[..k]) == k by {
      assert forall j :: 0 <= j < k ==> rs[..k][j] == rs[j];
    }
    CountOkZeroIff(rs[..k]);
  }

  /** Under only-one with no ok answer, every connection is contacted and the publish
      fails against the fallback threshold of one. */
  lemma OnlyOneWithoutAckFails(conns: seq<Conn>, rs: seq<Reaction>)
    requires |conns| == |rs| && FirstOk(rs) == |rs|
    ensures Contacted(OnlyOne, rs) == |rs|
    ensures Verdict(conns, OnlyOne, rs) == PubError(1, 0, Preamble(|conns|) + Log(conns, rs))
  {
  }

  /** Without only-one every connection is contacted, and the publish fails exactly
      when the threshold exceeds the number of ok answers. */
  lemma ThresholdRule(conns: seq<Conn>, strategy: string, rs: seq<Reaction>)
    requires |conns| == |rs| && strategy != OnlyOne
    ensures Contacted(strategy, rs) == |rs|
    ensures Verdict(conns, strategy, rs).PubError? <==> Required(strategy, |conns|) > CountOk(rs)
  {
  }

  /** A failed publish reports the threshold, a counter below it and within the pool size,
      and a log that opens with the no-connections line exactly for an empty pool and
      then holds one entry per connection. */
  lemma ErrorReport(conns: seq<Conn>, strategy: string, rs: seq<Reaction>)
    requires |conns| == |rs|
    requires Verdict(conns, strategy, rs).PubError?
    ensures var e := Verdict(conns, strategy, rs);
            e.required == Required(strategy, |conns|)
            && e.success == CountOk(rs) < e.required
            && e.success <= |conns|
            && |e.errs| == |conns| + |Preamble(|conns|)|
            && (e.errs[0] == NoConnections <==> |conns| == 0)
            && forall j :: 0 <= j < |conns| ==> e.errs[|Preamble(|conns|)| + j] == Entry(conns[j], rs[j])
  {
    var e := Verdict(conns, strategy, rs);
    forall j | 0 <= j < |conns| ensures e.errs[|Preamble(|conns|)| + j] == Entry(conns[j], rs[j]) {
      LogAt(conns, rs, j);
    }
    if |conns| > 0 {
      LogAt(conns, rs, 0);
    }
  }

  // ---------------------------------------------------------------------------
  // Verdicts per strategy

  /** 'all' completes exactly when every connection answers ok. */
  lemma AllNeedsEveryAck(conns: seq<Conn>, rs: seq<Reaction>)
    requires |conns| == |rs|
    ensures Verdict(conns, All, rs) == Done <==> forall j :: 0 <= j < |rs| ==> IsOk(rs[j])
  {
    CountOkAllIff(rs);
  }

  /** Every strategy other than 'quorum' and 'all' (only-one, at-least-one and any
      unknown string) completes exactly when some connection answers ok. */
  lemma FallbackNeedsOneAck(conns: seq<Conn>, strategy: string, rs: seq<Reaction>)
    requires |conns| == |rs| && strategy != Quorum && strategy != All
    ensures Verdict(conns, strategy, rs) == Done <==> exists j :: 0 <= j < |rs| && IsOk(rs[j])
  {
    CountOkZeroIff(rs);
  }

  /** 'quorum' completes exactly when ceil(N/2) + 1 connections answer ok. */
  lemma QuorumVerdict(conns: seq<Conn>, rs: seq<Reaction>)
    requires |conns| == |rs|
    ensures Verdict(conns, Quorum, rs) == Done <==> CountOk(rs) >= |rs| / 2 + 1 + |rs| % 2
  {
  }

  /** 'quorum' over a single connection always fails, whatever it answers. */
  lemma QuorumSingleNodeFails(conns: seq<Conn>, rs: seq<Reaction>)
    requires |conns| == |rs| == 1
    ensures Verdict(conns, Quorum, rs) == PubError(2, CountOk(rs), Log(conns, rs))
  {
  }

  /** An empty pool fails for every strategy except 'all', whose threshold is zero;
      the failure carries only the no-connections line. */
  lemma EmptyPool(conns: seq<Conn>, strategy: string, rs: seq<Reaction>)
    requires |conns| == |rs| == 0
    ensures Verdict(conns, strategy, rs).PubError? <==> strategy != All
    ensures strategy != All ==>
              Verdict(conns, strategy, rs) == PubError(1, 0, [NoConnections])
  {
  }

  /** Turning answers into ok answers never turns a completed publish into a failed one. */
  lemma VerdictMonotone(conns: seq<Conn>, strategy: string, rs1: seq<Reaction>, rs2: seq<Reaction>)
    requires |conns| == |rs1| == |rs2|
    requires forall j :: 0 <= j < |rs1| && IsOk(rs1[j]) ==> IsOk(rs2[j])
    requires Verdict(conns, strategy, rs1) == Done
    ensures Verdict(conns, strategy, rs2) == Done
  {
    CountOkMonotone(rs1, rs2);
    var k := FirstOk(rs1);
    if k < |rs1| {
      assert IsOk(rs2[k]);
      CountOkZeroIff(rs2);
    }
  }

  // ---------------------------------------------------------------------------
  // Worked scenarios

  /** Five connections under 'quorum', three ok answers and two socket failures: the
      threshold is four and the publish fails with a counter of three. */
  lemma QuorumFiveNodesThreeAcks(conns: seq<Conn>, rs: seq<Reaction>)
    requires |conns| == |rs| == 5
    requires IsOk(rs[0]) && IsOk(rs[1]) && IsOk(rs[2])
    requires rs[3].SocketFailure? && rs[4].SocketFailure?
    ensures Verdict(conns, Quorum, rs) == PubError(4, 3, Log(conns, rs))
  {
    assert rs[..1][..0] == [];
    assert CountOk(rs[..1]) == 1;
    assert rs[..2][..1] == rs[..1];
    assert CountOk(rs[..2]) == 2;
    assert rs[..3][..2] == rs[..2];
    assert CountOk(rs[..3]) == 3;
    assert rs[..4][..3] == rs[..3];
    assert CountOk(rs[..4]) == 3;
    assert rs[..4] == rs[..|rs| - 1];
  }

  /** A single connection under 'all' that answers ok: the publish completes. */
  lemma AllSingleNodeAck(conns: seq<Conn>, rs: seq<Reaction>)
    requires |conns| == |rs| == 1 && IsOk(rs[0])
    ensures Verdict(conns, All, rs) == Done
  {
  }

  /** Three connections chained onto a pool under only-one: the first fails with a
      socket exception, the second answers ok, so the third is never contacted and the
      publish completes. */
  method OnlyOneSkipsRest(a: Conn, b: Conn, c: Conn, topic: string, msg: Message)
    returns (result: PubResult, calls: seq<Call>)
    ensures result == Done
    ensures calls == [Call(a, topic, Single(msg)), Call(b, topic, Single(msg))]
  {
    var pool := new NsqPool([a]);
    var chained := pool.AddConnection(b);
    chained := chained.AddConnection(c);
    assert pool.connections == [a, b, c];
    var replies := [SocketFailure("connection reset"), Responded(Response(true, "OK")), Responded(Response(true, "OK"))];
    assert FirstOk(replies) == 1;
    result, calls := pool.Publish(replies, topic, msg, OnlyOne);
    assert pool.connections[..2] == [a, b];
    assert [a, b][..1] == [a];
    assert [a][..0] == [];
  }
}
