# NSQ publish pool, modelled in Dafny

This project models `NsqPool`, the fan-out publish coordinator of the php-nsq client
(`src/Nsq/NsqPool.php`). A pool holds an ordered list of connections to NSQ nodes. A
publish walks the connections in insertion order and dispatches the message(s) to each:
`mpublish` for more than one message, `publishDefer` for one message with a non-zero
delay, `publish` otherwise. It counts the answers that come back ok. Each contacted
connection leaves one diagnostic entry: its status code, or the socket-exception
message. A socket exception never aborts the walk. Under the `only_one` strategy the
walk stops, and the publish completes, at the first ok answer. Otherwise a threshold
is computed from the strategy string: `quorum` gives ceil(N/2)+1, `all` gives N, and
any other string gives 1. The publish throws a `PubException` carrying the threshold,
the count and the log when the count falls short.

Files:

- `NsqPool.dfy`, module `Nsq`. It holds the data model (connections, messages,
  responses, reactions, dispatches, log entries, the publish result). It holds the
  specification functions `Required`, `DispatchFor`, `CountOk`, `FirstOk`, `Contacted`,
  `CallsTo`, `Log` and `Verdict`. It holds the class `NsqPool`, whose field
  `connections` is a `seq<Conn>` updated in place by the constructor and
  `AddConnection`.
- `NsqPoolProperties.dfy`, module `NsqPoolProperties`. It holds the lemmas about the
  threshold, the counter, the walk, the log and the verdict per strategy, plus worked
  scenarios.

The network is a parameter. Each publish method takes `replies: seq<Reaction>`, aligned
with `connections`: `replies[i]` is what connection `i` does if it is contacted. It
either answers (`Responded(Response(ok, code))`) or its socket fails
(`SocketFailure(message)`). Every publish method returns the outcome
(`Done`, or `PubError(required, success, errs)` for the thrown `PubException`). It also
returns `calls`, the list of calls made, in order, each with its connection, topic and
dispatch. So "which connections were contacted, and how" is part of every contract.

The pool's walk is one `foreach` in the source. Here it is the method `FanOut`, which
holds the loop, the counter, the log and the `only_one` early exit. `DoPublish` then
turns an early exit into `Done` and applies the threshold. Together they are the
source's `doPublish`.

## Model

| member | source | states |
|---|---|---|
| `Nsq.NsqPool.constructor` | src/Nsq/NsqPool.php:40-46 | the pool's connections are the given ones, in the given order |
| `Nsq.NsqPool.AddConnection` | src/Nsq/NsqPool.php:53-57 | exactly one connection is appended at the end; earlier connections and their order are unchanged; the same pool is returned |
| `Nsq.NsqPool.Publish` | src/Nsq/NsqPool.php:66-69 | the default strategy is at_least_one; every contacted connection gets a plain `publish` of the one message; the outcome is the pool's verdict |
| `Nsq.NsqPool.PublishDefer` | src/Nsq/NsqPool.php:79-82 | a non-zero delay dispatches `publishDefer` with that delay, and a zero delay takes the plain `publish` path; the outcome is the pool's verdict |
| `Nsq.NsqPool.MPublish` | src/Nsq/NsqPool.php:92-95 | several messages dispatch `mpublish` with the whole list, and a single message takes the plain `publish` path; the outcome is the pool's verdict |
| `Nsq.NsqPool.DoPublish` | src/Nsq/NsqPool.php:107-147 | the outcome is `Verdict`: `Done` after an only_one early stop, else `PubError(required, success, log)` exactly when the threshold exceeds the ok count; the calls are those of the contacted prefix, all with the dispatch chosen by `DispatchFor` |
| `Nsq.NsqPool.FanOut` | src/Nsq/NsqPool.php:109-136 | the walk stops early iff the strategy is only_one and some answer is ok; the counter is the number of ok answers among the contacted connections; the log is the empty-pool line (iff the pool is empty) followed by one entry per contacted connection, in order; one call per contacted connection |
| `Nsq.Required` | src/Nsq/NsqPool.php:137-143 | quorum needs r with 2(r-1) between N and N+1, that is ceil(N/2)+1; all needs N; any other string needs 1 |
| `Nsq.DispatchFor` | src/Nsq/NsqPool.php:116-124 | more than one message selects `mpublish` with all of them; one message with zero defer selects `publish`; one message with non-zero defer selects `publishDefer` with that delay |
| `Nsq.CountOk` | src/Nsq/NsqPool.php:109 | the success counter never exceeds the number of connections |
| `Nsq.FirstOk` | src/Nsq/NsqPool.php:129-131 | the index at which only_one stops: no answer before it is ok, and the answer at it is ok when it is inside the pool |
| `Nsq.ZeroCountBeforeFirstOk` | src/Nsq/NsqPool.php:125-131 | while the counter is still zero, no ok answer has been seen, so the only_one stop has not been reached |
| `NsqPoolProperties.QuorumIsMajorityPlusParity` | src/Nsq/NsqPool.php:137-138 | the quorum threshold is N/2+1 for even N and one more than that for odd N |
| `NsqPoolProperties.QuorumReachable` | src/Nsq/NsqPool.php:137-138 | a quorum is reachable iff N >= 2, and needs every connection iff N is 2 or 3 |
| `NsqPoolProperties.CountOkAllIff` | src/Nsq/NsqPool.php:125-127 | the counter equals the number of connections iff every answer is ok |
| `NsqPoolProperties.CountOkZeroIff` | src/Nsq/NsqPool.php:125-127 | the counter is zero iff no answer is ok |
| `NsqPoolProperties.CountOkMonotone` | src/Nsq/NsqPool.php:125-127 | more ok answers never lower the counter |
| `NsqPoolProperties.SocketFailureActsAsRejection` | src/Nsq/NsqPool.php:132-135 | a socket exception leaves the counter, the contacted connections and the pass/fail outcome exactly as a not-ok answer would |
| `NsqPoolProperties.CallsToAt` | src/Nsq/NsqPool.php:114-124 | the i-th call goes to the i-th connection, with the dispatch of the publish |
| `NsqPoolProperties.LogAt` | src/Nsq/NsqPool.php:128-134 | the i-th log entry belongs to the i-th connection: its code, or its socket-exception message |
| `NsqPoolProperties.WalkStopsOnlyAfterAck` | src/Nsq/NsqPool.php:114-136 | the walk ends before the last connection only under only_one and only right after an ok answer |
| `NsqPoolProperties.OnlyOneStopsAtFirstAck` | src/Nsq/NsqPool.php:129-131 | under only_one with some ok answer, exactly the connections up to the first ok one are contacted, the counter is 1 and the publish completes |
| `NsqPoolProperties.OnlyOneWithoutAckFails` | src/Nsq/NsqPool.php:129-146 | under only_one with no ok answer, every connection is contacted and the publish fails with required 1 and success 0 |
| `NsqPoolProperties.ThresholdRule` | src/Nsq/NsqPool.php:137-146 | without only_one, every connection is contacted and the publish fails iff the threshold exceeds the counter |
| `NsqPoolProperties.ErrorReport` | src/Nsq/NsqPool.php:110-113 | a failure carries the threshold, a counter below it and within the pool size, and a log that opens with the no-connections line iff the pool is empty, followed by one entry per connection in order |
| `NsqPoolProperties.AllNeedsEveryAck` | src/Nsq/NsqPool.php:139-140 | all completes iff every connection answers ok |
| `NsqPoolProperties.FallbackNeedsOneAck` | src/Nsq/NsqPool.php:141-143 | only_one, at_least_one and any unknown string complete iff some connection answers ok |
| `NsqPoolProperties.QuorumVerdict` | src/Nsq/NsqPool.php:137-138 | quorum completes iff at least N/2 + 1 + N mod 2 connections answer ok |
| `NsqPoolProperties.QuorumSingleNodeFails` | src/Nsq/NsqPool.php:137-146 | quorum over one connection always fails, with required 2 |
| `NsqPoolProperties.EmptyPool` | src/Nsq/NsqPool.php:111-113 | an empty pool fails for every strategy except all, with required 1, success 0 and only the no-connections line |
| `NsqPoolProperties.VerdictMonotone` | src/Nsq/NsqPool.php:125-146 | turning answers into ok answers never turns a completed publish into a failed one |
| `NsqPoolProperties.QuorumFiveNodesThreeAcks` | src/Nsq/NsqPool.php:137-146 | five connections, quorum, three ok answers and two socket failures: fails with required 4 and success 3 |
| `NsqPoolProperties.AllSingleNodeAck` | src/Nsq/NsqPool.php:139-146 | one connection, all, an ok answer: completes |
| `NsqPoolProperties.OnlyOneSkipsRest` | src/Nsq/NsqPool.php:114-131 | a pool built by chaining `AddConnection` under only_one, with a socket failure then an ok answer, contacts only the first two connections and completes |

## Left out

- Socket I/O, NSQ wire framing and message encoding are not modelled. A connection is
  a name. A message is an opaque payload. A node's behaviour is the scripted `Reaction`.
  `src/Nsq/Socket/SocketInterface.php` declares only the connection interface, so it
  has no logic to model.
- The text of `__toString()`, `code()` and the `PubException` message is not rendered.
  Log entries are structured records (`NoConnections`, `Answered`, `SocketFailed`). The
  exception is the value `PubError(required, success, errs)`.
- PHP's float `ceil` is written as the integer `(N + 1) / 2 + 1`. They agree for every
  pool size.
- The loose `$defer == 0` comparison is modelled on an `int` delay only. PHP's type
  juggling for other delay values is not modelled.
- Nsq.NsqPool.MPublish and Nsq.NsqPool.DoPublish require a non-empty message list. With an
  empty list the source reads `$msgs[0]`, an undefined index, as soon as it contacts a
  connection. That failure is not modelled.
- Only exceptions of type `SocketException` are absorbed into the log. Any other
  exception raised by a connection would escape the walk; such exceptions are not
  modelled.
- The connection list is a sequence of values. The model does not capture that the same
  connection object may appear twice in the pool and share state.
- There is no concurrency; the source is strictly sequential.
- The strategy is a per-call string argument with default `at_least_one`. The source
  stores no strategy in the pool and has no strategy setter, so none is modelled.
