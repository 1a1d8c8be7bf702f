/** Fan-out publish coordinator of the NSQ client (PHP namespace `Nsq`, class `NsqPool`).

    The pool holds an ordered list of node connections. A publish walks the connections
    in insertion order, dispatches the message(s) to each one, counts the acknowledgements
    that come back ok, records one diagnostic entry per connection contacted, and then
    either completes or fails with a `PubError` depending on a strategy-specific threshold.

    The network is not modelled: the reaction of every connection to the dispatch of one
    publish call is given as a scripted sequence `replies`, aligned with `connections`
    (`replies[i]` is what connection `i` does if the pool contacts it). */
module Nsq {

  // ---------------------------------------------------------------------------
  // Strategies: plain strings, compared strictly.

  /** Half + 1 of the pool connections must receive a message. */
  const Quorum: string := "quorum"
  /** At least one connection must receive the message (the default). */
  const AtLeastOne: string := "at_least_one"
  /** Stop as soon as one connection has received the message. */
  const OnlyOne: string := "only_one"
  /** All connections must receive the message. */
  const All: string := "all"

  // ---------------------------------------------------------------------------
  // Data model

  /** A connection to one NSQ node, known to the pool only by its string rendering. */
  datatype Conn = Conn(name: string)

  /** An opaque message payload. */
  datatype Message = Message(body: seq<bv8>)

  /** A node's answer to a dispatch: whether it accepted the write, and its status code. */
  datatype Response = Response(ok: bool, code: string)

  /** What a connection does when it is dispatched to: it answers, or its socket fails. */
  datatype Reaction = Responded(response: Response) | SocketFailure(message: string)

  /** The connection method the pool calls: `publish`, `publishDefer` or `mpublish`. */
  datatype Dispatch =
    | Single(msg: Message)
    | Deferred(msg: Message, defer: int)
    | Batch(msgs: seq<Message>)

  /** One call the pool made on a connection. */
  datatype Call = Call(conn: Conn, topic: string, dispatch: Dispatch)

  /** One line of the diagnostic log carried by a failed publish. */
  datatype LogEntry =
    | NoConnections
    | Answered(conn: Conn, code: string)
    | SocketFailed(conn: Conn, message: string)

  /** How a publish ends: normally, or with a `PubException` carrying its details. */
  datatype PubResult =
    | Done
    | PubError(required: nat, success: nat, errs: seq<LogEntry>)

  // ---------------------------------------------------------------------------
  // Specification functions

  /** A reaction counts as a success when the node answered and the answer is ok. */
  predicate IsOk(r: Reaction) {
    r.Responded? && r.response.ok
  }

  /** Number of successes the strategy requires from a pool of `n` connections.
      Quorum is ceil(n/2) + 1; all is n; every other string falls back to 1. */
  function Required(strategy: string, n: nat): (r: nat)
    ensures strategy == Quorum ==> 1 <= r && n <= 2 * (r - 1) <= n + 1
    ensures strategy == All ==> r == n
    ensures strategy != Quorum && strategy != All ==> r == 1
  {
    if strategy == Quorum then (n + 1) / 2 + 1
    else if strategy == All then n
    else 1
  }

  /** The connection method used for a non-empty list of messages and a defer value. */
  function DispatchFor(msgs: seq<Message>, defer: int): (d: Dispatch)
    requires |msgs| > 0
    ensures d.Batch? <==> |msgs| > 1
    ensures d.Single? <==> |msgs| == 1 && defer == 0
    ensures d.Deferred? <==> |msgs| == 1 && defer != 0
    ensures d.Batch? ==> d.msgs == msgs
    ensures !d.Batch? ==> d.msg == msgs[0]
    ensures d.Deferred? ==> d.defer == defer
  {
    if |msgs| > 1 then Batch(msgs)
    else if defer == 0 then Single(msgs[0])
    else Deferred(msgs[0], defer)
  }

  /** Number of ok answers among the reactions. */
  function CountOk(rs: seq<Reaction>): (n: nat)
    ensures n <= |rs|
  {
    if rs == [] then 0
    else CountOk(rs[..|rs| - 1]) + (if IsOk(rs[|rs| - 1]) then 1 else 0)
  }

  /** Index of the first ok answer, or `|rs|` when there is none. */
  function FirstOk(rs: seq<Reaction>): (k: nat)
    ensures k <= |rs|
    ensures forall j :: 0 <= j < k ==> !IsOk(rs[j])
    ensures k < |rs| ==> IsOk(rs[k])
  {
    if rs == [] then 0
    else if IsOk(rs[0]) then 0
    else 1 + FirstOk(rs[1..])
  }

  /** Number of connections a publish contacts: all of them, except that under
      only-one the walk stops right after the first ok answer. */
  function Contacted(strategy: string, rs: seq<Reaction>): nat
  {
    if strategy == OnlyOne && FirstOk(rs) < |rs| then FirstOk(rs) + 1 else |rs|
  }

  /** The calls made by a walk over `conns`, each dispatching `d` on `topic`. */
  function CallsTo(conns: seq<Conn>, topic: string, d: Dispatch): (calls: seq<Call>)
    ensures |calls| == |conns|
  {
    if conns == [] then [] else CallsTo(conns[..|conns| - 1], topic, d) + [Call(conns[|conns| - 1], topic, d)]
  }

  /** The diagnostic entry recorded for one contacted connection. */
  function Entry(c: Conn, r: Reaction): LogEntry {
    match r
    case Responded(resp) => Answered(c, resp.code)
    case SocketFailure(m) => SocketFailed(c, m)
  }

  /** The diagnostic entries of a walk over `conns`, one per connection, in order. */
  function Log(conns: seq<Conn>, rs: seq<Reaction>): (log: seq<LogEntry>)
    requires |conns| == |rs|
    ensures |log| == |conns|
  {
    if conns == [] then []
    else Log(conns[..|conns| - 1], rs[..|rs| - 1]) + [Entry(conns[|conns| - 1], rs[|rs| - 1])]
  }

  /** The log line that opens the diagnostics of an empty pool. */
  function Preamble(n: nat): seq<LogEntry> {
    if n == 0 then [NoConnections] else []
  }

  /** How a publish over `conns` ends, given the connections' reactions. */
  function Verdict(conns: seq<Conn>, strategy: string, rs: seq<Reaction>): PubResult
    requires |conns| == |rs|
  {
    if strategy == OnlyOne && FirstOk(rs) < |rs| then Done
    else
      var required := Required(strategy, |conns|);
      var success := CountOk(rs);
      if required > success then PubError(required, success, Preamble(|conns|) + Log(conns, rs))
      else Done
  }

  /** Extending the walked prefix by one connection adds its ok answer to the count
      and its entry to the log. */
  lemma WalkStep(conns: seq<Conn>, rs: seq<Reaction>, i: nat, topic: string, d: Dispatch)
    requires |conns| == |rs| && i < |rs|
    ensures CountOk(rs[..i + 1]) == CountOk(rs[..i]) + if IsOk(rs[i]) then 1 else 0
    ensures Preamble(|conns|) + Log(conns[..i + 1], rs[..i + 1])
         == (Preamble(|conns|) + Log(conns[..i], rs[..i])) + [Entry(conns[i], rs[i])]
    ensures CallsTo(conns[..i + 1], topic, d) == CallsTo(conns[..i], topic, d) + [Call(conns[i], topic, d)]
  {
    assert rs[..i + 1][..i] == rs[..i];
    assert conns[..i + 1][..i] == conns[..i];
  }

  /** With no ok answer among the first `i` reactions, the first ok answer is not before `i`. */
  lemma {:induction false} ZeroCountBeforeFirstOk(rs: seq<Reaction>, i: nat)
    requires i <= |rs| && CountOk(rs[..i]) == 0
    ensures i <= FirstOk(rs)
  {
    if i > 0 {
      assert rs[..i][..i - 1] == rs[..i - 1];
      ZeroCountBeforeFirstOk(rs, i - 1);
      assert !IsOk(rs[i - 1]);
    }
  }

  // ---------------------------------------------------------------------------
  // The pool

  class NsqPool {
    /** The node connections, in insertion order (which is the dispatch order). */
    var connections: seq<Conn>

    /** Builds a pool from a list of connections, keeping their order. */
    constructor (conns: seq<Conn>)
      ensures connections == conns
    {
      connections := conns;
    }

    /** Appends one connection at the end and returns the same pool, for chaining. */
    method AddConnection(conn: Conn) returns (pool: NsqPool)
      modifies this
      ensures connections == old(connections) + [conn]
      ensures pool == this
    {
      connections := connections + [conn];
      pool := this;
    }

    /** Publishes one message on the plain path. */
    method Publish(replies: seq<Reaction>, topic: string, msg: Message, strategy: string := AtLeastOne)
      returns (result: PubResult, calls: seq<Call>)
      requires |replies| == |connections|
      ensures result == Verdict(connections, strategy, replies)
      ensures calls == CallsTo(connections[..Contacted(strategy, replies)], topic, Single(msg))
    {
      result, calls := DoPublish(replies, topic, [msg], strategy);
    }

    /** Publishes one message with a delay; a zero delay takes the plain path. */
    method PublishDefer(replies: seq<Reaction>, topic: string, msg: Message, defer: int, strategy: string := AtLeastOne)
      returns (result: PubResult, calls: seq<Call>)
      requires |replies| == |connections|
      ensures result == Verdict(connections, strategy, replies)
      ensures calls == CallsTo(connections[..Contacted(strategy, replies)], topic,
                               if defer == 0 then Single(msg) else Deferred(msg, defer))
    {
      result, calls := DoPublish(replies, topic, [msg], strategy, defer);
    }

    /** Publishes a list of messages; a list of one message takes the plain path. */
    method MPublish(replies: seq<Reaction>, topic: string, msgs: seq<Message>, strategy: string := AtLeastOne)
      returns (result: PubResult, calls: seq<Call>)
      requires |msgs| > 0
      requires |replies| == |connections|
      ensures result == Verdict(connections, strategy, replies)
      ensures calls == CallsTo(connections[..Contacted(strategy, replies)], topic,
                               if |msgs| == 1 then Single(msgs[0]) else Batch(msgs))
    {
      result, calls := DoPublish(replies, topic, msgs, strategy);
    }

    /** The publish shared by the three entry points. `calls` lists the connections
        contacted, in order, with the dispatch made to each. */
    method DoPublish(replies: seq<Reaction>, topic: string, msgs: seq<Message>, strategy: string, defer: int := 0)
      returns (result: PubResult, calls: seq<Call>)
      requires |msgs| > 0
      requires |replies| == |connections|
      ensures result == Verdict(connections, strategy, replies)
      ensures calls == CallsTo(connections[..Contacted(strategy, replies)], topic, DispatchFor(msgs, defer))
    {
      var stopped, success, errs;
      stopped, success, errs, calls := FanOut(replies, topic, msgs, strategy, defer);
      if stopped {
        result := Done;
        return;
      }
      assert replies[..|replies|] == replies && connections[..|connections|] == connections;
      var required := Required(strategy, |connections|);
      if required > success {
        result := PubError(required, success, errs);
      } else {
        result := Done;
      }
    }

    /** The fan-out loop: dispatches to the connections in order, counting ok answers and
        logging one entry per connection; under only-one it stops at the first ok answer. */
    method FanOut(replies: seq<Reaction>, topic: string, msgs: seq<Message>, strategy: string, defer: int)
      returns (stopped: bool, success: nat, errs: seq<LogEntry>, calls: seq<Call>)
      requires |msgs| > 0
      requires |replies| == |connections|
      ensures stopped <==> strategy == OnlyOne && FirstOk(replies) < |replies|
      ensures success == CountOk(replies[..Contacted(strategy, replies)])
      ensures errs == Preamble(|connections|)
                    + Log(connections[..Contacted(strategy, replies)], replies[..Contacted(strategy, replies)])
      ensures calls == CallsTo(connections[..Contacted(strategy, replies)], topic, DispatchFor(msgs, defer))
    {
      success := 0;
      errs := [];
      if |connections| == 0 {
        errs := errs + [NoConnections];
      }
      calls := [];
      var i := 0;
      while i < |connections|
        invariant 0 <= i <= |connections|
        invariant success == CountOk(replies[..i])
        invariant strategy == OnlyOne ==> success == 0
        invariant errs == Preamble(|connections|) + Log(connections[..i], replies[..i])
        invariant calls == CallsTo(connections[..i], topic, DispatchFor(msgs, defer))
      {
        WalkStep(connections, replies, i, topic, DispatchFor(msgs, defer));
        var conn := connections[i];
        calls := calls + [Call(conn, topic, DispatchFor(msgs, defer))];
        match replies[i] {
          case Responded(response) =>
            if response.ok {
              success := success + 1;
            }
            errs := errs + [Answered(conn, response.code)];
            assert Answered(conn, response.code) == Entry(connections[i], replies[i]);
            if strategy == OnlyOne && success == 1 {
              ZeroCountBeforeFirstOk(replies, i);
              return true, success, errs, calls;
            }
          case SocketFailure(message) =>
            errs := errs + [SocketFailed(conn, message)];
            assert SocketFailed(conn, message) == Entry(connections[i], replies[i]);
        }
        i := i + 1;
      }
      assert replies[..i] == replies;
      assert connections[..i] == connections;
      if strategy == OnlyOne {
        ZeroCountBeforeFirstOk(replies, i);
      }
      stopped := false;
    }
  }
}
