/** The client's conversation log and the figures its dashboard derives from it
    (index.tsx): rating a reply, the message filters, the satisfaction and latency
    figures, the per-agent feedback tally and the recent exchanges. */
module Dashboard {
  import opened Wrappers
  import opened Seqs
  import opened Agents

  datatype Role = User | Copilot

  datatype Evaluation = Good | Bad

  /** One entry of the conversation log; the optional fields are absent on user
      messages, on the greeting and on error replies. */
  datatype Message = Message(
    role: Role,
    text: string,
    id: int,
    sources: Option<seq<string>>,
    timestamp: string,
    evaluation: Option<Evaluation>,
    agent: Option<Agent>,
    latency: Option<nat>)

  /** The id of the greeting the log starts with. */
  const GREETING_ID: int := 0

  // ---------------------------------------------------------------------------
  // Rating a reply

  function Rated(m: Message, messageId: int, evaluation: Evaluation): Message
  {
    if m.id == messageId then m.(evaluation := Some(evaluation)) else m
  }

  /** `handleEvaluation`: every message carrying the id gets the rating, in place;
      the log keeps its length and order and nothing else changes. */
  function HandleEvaluation(messages: seq<Message>, messageId: int, evaluation: Evaluation): (r: seq<Message>)
    ensures |r| == |messages|
    ensures forall i :: 0 <= i < |r| && messages[i].id == messageId ==> r[i].evaluation == Some(evaluation)
    ensures forall i :: 0 <= i < |r| && messages[i].id != messageId ==> r[i] == messages[i]
    ensures forall i :: 0 <= i < |r| ==> r[i].(evaluation := messages[i].evaluation) == messages[i]
  {
    seq(|messages|, i requires 0 <= i < |messages| => Rated(messages[i], messageId, evaluation))
  }

  /** Rating the same message again replaces the earlier rating. */
  lemma LastRatingWins(messages: seq<Message>, messageId: int, first: Evaluation, second: Evaluation)
    ensures HandleEvaluation(HandleEvaluation(messages, messageId, first), messageId, second)
         == HandleEvaluation(messages, messageId, second)
  {
  }

  /** Ratings of different messages do not interfere. */
  lemma RatingsCommute(messages: seq<Message>, id1: int, e1: Evaluation, id2: int, e2: Evaluation)
    requires id1 != id2
    ensures HandleEvaluation(HandleEvaluation(messages, id1, e1), id2, e2)
         == HandleEvaluation(HandleEvaluation(messages, id2, e2), id1, e1)
  {
  }

  // ---------------------------------------------------------------------------
  // Message filters

  /** A reply of the assistant other than the greeting. */
  predicate IsReply(m: Message)
  {
    m.role == Copilot && m.id != GREETING_ID
  }

  predicate IsQuery(m: Message)
  {
    m.role == User
  }

  predicate IsEvaluated(m: Message)
  {
    m.evaluation.Some?
  }

  predicate IsGood(m: Message)
  {
    m.evaluation == Some(Good)
  }

  /** `copilotMessages`. */
  function CopilotMessages(messages: seq<Message>): seq<Message>
  {
    Filter(messages, IsReply)
  }

  /** `userMessages`; its length is the "Total Queries" figure. */
  function UserMessages(messages: seq<Message>): seq<Message>
  {
    Filter(messages, IsQuery)
  }

  /** `evaluatedMessages`. */
  function EvaluatedMessages(messages: seq<Message>): seq<Message>
  {
    Filter(CopilotMessages(messages), IsEvaluated)
  }

  /** `goodRatings`. */
  function GoodRatings(messages: seq<Message>): nat
  {
    |Filter(EvaluatedMessages(messages), IsGood)|
  }

  /** The replies are exactly the assistant's messages other than the greeting; the
      rated replies are replies with a rating; there are no more good ratings than
      rated replies, and no more rated replies than replies. */
  lemma FiltersSpec(messages: seq<Message>)
    ensures forall m :: m in CopilotMessages(messages) <==> m in messages && m.role == Copilot && m.id != GREETING_ID
    ensures forall m :: m in UserMessages(messages) <==> m in messages && m.role == User
    ensures forall m :: m in EvaluatedMessages(messages) <==> m in CopilotMessages(messages) && m.evaluation.Some?
    ensures GoodRatings(messages) <= |EvaluatedMessages(messages)| <= |CopilotMessages(messages)| <= |messages|
  {
  }

  lemma HandleEvaluationCons(messages: seq<Message>, messageId: int, evaluation: Evaluation)
    requires messages != []
    ensures HandleEvaluation(messages, messageId, evaluation)
         == [Rated(messages[0], messageId, evaluation)] + HandleEvaluation(messages[1..], messageId, evaluation)
  {
  }

  /** A filter on something a rating does not touch commutes with rating. */
  lemma {:induction false} FilterRated(messages: seq<Message>, messageId: int, evaluation: Evaluation, p: Message -> bool)
    requires forall m :: p(Rated(m, messageId, evaluation)) == p(m)
    ensures Filter(HandleEvaluation(messages, messageId, evaluation), p)
         == HandleEvaluation(Filter(messages, p), messageId, evaluation)
  {
    if messages != [] {
      var m := messages[0];
      HandleEvaluationCons(messages, messageId, evaluation);
      FilterRated(messages[1..], messageId, evaluation, p);
      if p(m) {
        HandleEvaluationCons(Filter(messages, p), messageId, evaluation);
      }
    }
  }

  lemma {:induction false} RatingOnlyAddsEvaluations(replies: seq<Message>, messageId: int, evaluation: Evaluation)
    ensures |Filter(replies, IsEvaluated)| <= |Filter(HandleEvaluation(replies, messageId, evaluation), IsEvaluated)|
  {
    if replies != [] {
      HandleEvaluationCons(replies, messageId, evaluation);
      RatingOnlyAddsEvaluations(replies[1..], messageId, evaluation);
    }
  }

  /** Rating leaves the replies and the queries where they are (the same messages, up
      to the new rating) and can only add to the rated replies. */
  lemma RatingKeepsFilters(messages: seq<Message>, messageId: int, evaluation: Evaluation)
    ensures CopilotMessages(HandleEvaluation(messages, messageId, evaluation)) ==
      HandleEvaluation(CopilotMessages(messages), messageId, evaluation)
    ensures UserMessages(HandleEvaluation(messages, messageId, evaluation)) ==
      HandleEvaluation(UserMessages(messages), messageId, evaluation)
    ensures |EvaluatedMessages(messages)| <= |EvaluatedMessages(HandleEvaluation(messages, messageId, evaluation))|
  {
    FilterRated(messages, messageId, evaluation, IsReply);
    FilterRated(messages, messageId, evaluation, IsQuery);
    RatingOnlyAddsEvaluations(CopilotMessages(messages), messageId, evaluation);
  }

  /** `(part / whole) * 100`, and 0 for an empty whole. */
  function Percentage(part: nat, whole: nat): (r: real)
    requires part <= whole
    ensures 0.0 <= r <= 100.0
    ensures whole == 0 ==> r == 0.0
    ensures whole > 0 ==> r * whole as real == 100.0 * part as real
  {
    if whole > 0 then
      var share := part as real / whole as real;
      assert share * whole as real == part as real;
      ShareAtMostOne(share, part as real, whole as real);
      share * 100.0
    else 0.0
  }

  lemma ShareAtMostOne(share: real, part: real, whole: real)
    requires whole > 0.0 && 0.0 <= part <= whole && share * whole == part
    ensures 0.0 <= share <= 1.0
  {
  }

  /** The whole is a hundred percent of itself. */
  lemma FullPercentage(whole: nat)
    requires whole > 0
    ensures Percentage(whole, whole) == 100.0
  {
    var r := Percentage(whole, whole);
    assert (r - 100.0) * whole as real == 0.0;
  }

  /** `satisfaction`: the share of good ratings among rated replies, in percent;
      0 when nothing is rated. */
  function Satisfaction(messages: seq<Message>): real
  {
    GoodAtMostEvaluated(messages);
    Percentage(GoodRatings(messages), |EvaluatedMessages(messages)|)
  }

  /** Satisfaction is a percentage, and 0 when no reply is rated. */
  lemma SatisfactionSpec(messages: seq<Message>)
    ensures 0.0 <= Satisfaction(messages) <= 100.0
    ensures |EvaluatedMessages(messages)| == 0 ==> Satisfaction(messages) == 0.0
  {
    GoodAtMostEvaluated(messages);
  }

  lemma GoodAtMostEvaluated(messages: seq<Message>)
    ensures GoodRatings(messages) <= |EvaluatedMessages(messages)|
  {
  }

  /** Satisfaction is 100 when every rated reply is rated good. */
  lemma AllGoodIsFull(messages: seq<Message>)
    requires |EvaluatedMessages(messages)| > 0
    requires forall m :: m in EvaluatedMessages(messages) ==> m.evaluation == Some(Good)
    ensures Satisfaction(messages) == 100.0
  {
    FilterAll(EvaluatedMessages(messages), IsGood);
    FullPercentage(|EvaluatedMessages(messages)|);
  }

  lemma {:induction false} FilterAll<T(!new)>(s: seq<T>, p: T -> bool)
    requires forall x :: x in s ==> p(x)
    ensures Filter(s, p) == s
  {
    if s != [] {
      assert forall x :: x in s[1..] ==> x in s;
      FilterAll(s[1..], p);
    }
  }

  // ---------------------------------------------------------------------------
  // Latency

  /** `m.latency || 0`. */
  function LatencyOf(m: Message): nat
  {
    if m.latency.Some? then m.latency.value else 0
  }

  predicate HasLatency(m: Message)
  {
    m.latency.Some?
  }

  /** The sum of the latencies of `replies`, absent ones counted as 0. */
  function LatencySum(replies: seq<Message>): nat
  {
    if replies == [] then 0 else LatencyOf(replies[0]) + LatencySum(replies[1..])
  }

  /** `totalLatency`. */
  function TotalLatency(messages: seq<Message>): nat
  {
    LatencySum(CopilotMessages(messages))
  }

  lemma {:induction false} LatencySumAppend(a: seq<Message>, b: seq<Message>)
    ensures LatencySum(a + b) == LatencySum(a) + LatencySum(b)
  {
    if a == [] {
      assert a + b == b;
    } else {
      assert (a + b)[1..] == a[1..] + b;
      LatencySumAppend(a[1..], b);
    }
  }

  /** Replies without a measured latency add nothing: the total is the sum over the
      replies that have one, and the log's total is additive over appended messages. */
  lemma {:induction false} TotalLatencySpec(messages: seq<Message>, more: seq<Message>)
    ensures TotalLatency(messages) == LatencySum(Filter(CopilotMessages(messages), HasLatency))
    ensures TotalLatency(messages + more) == TotalLatency(messages) + TotalLatency(more)
  {
    MeasuredOnly(CopilotMessages(messages));
    FilterAppend(messages, more, IsReply);
    LatencySumAppend(CopilotMessages(messages), CopilotMessages(more));
  }

  lemma {:induction false} MeasuredOnly(replies: seq<Message>)
    ensures LatencySum(replies) == LatencySum(Filter(replies, HasLatency))
  {
    if replies != [] {
      MeasuredOnly(replies[1..]);
      if HasLatency(replies[0]) {
        assert Filter(replies, HasLatency) == [replies[0]] + Filter(replies[1..], HasLatency);
      } else {
        assert Filter(replies, HasLatency) == Filter(replies[1..], HasLatency);
      }
    }
  }

  /** `avgResponseTime`: the mean latency of the replies, 0 when there are none. */
  function AverageResponseTime(messages: seq<Message>): (r: real)
    ensures r >= 0.0
    ensures |CopilotMessages(messages)| == 0 ==> r == 0.0
    ensures |CopilotMessages(messages)| > 0 ==> r * |CopilotMessages(messages)| as real == TotalLatency(messages) as real
  {
    var n := |CopilotMessages(messages)|;
    if n > 0 then TotalLatency(messages) as real / n as real else 0.0
  }

  // ---------------------------------------------------------------------------
  // Per-agent feedback tally

  datatype Tally = Tally(good: nat, bad: nat, total: nat)

  const NO_FEEDBACK: Tally := Tally(0, 0, 0)

  /** The tally starts with the four agents at zero. */
  const INITIAL_PERFORMANCE: map<Agent, Tally> :=
    map[Billing := NO_FEEDBACK, Safety := NO_FEEDBACK, LostFound := NO_FEEDBACK, General := NO_FEEDBACK]

  /** A reply that names its agent and carries a rating. */
  predicate IsTallied(m: Message)
  {
    m.agent.Some? && m.evaluation.Some?
  }

  /** One more rating for an agent. */
  function Record(t: Tally, evaluation: Evaluation): Tally
  {
    match evaluation
    case Good => Tally(t.good + 1, t.bad, t.total + 1)
    case Bad => Tally(t.good, t.bad + 1, t.total + 1)
  }

  /** The tally of agent `a` over `replies`, in log order. */
  function TallyOf(replies: seq<Message>, a: Agent): Tally
  {
    if replies == [] then NO_FEEDBACK
    else
      var m := replies[|replies| - 1];
      var t := TallyOf(replies[..|replies| - 1], a);
      if IsTallied(m) && m.agent.value == a then Record(t, m.evaluation.value) else t
  }

  /** `agentPerformance`: start every agent at zero, then walk the replies and count
      each rated reply that names its agent once, under that agent. */
  method AgentPerformance(messages: seq<Message>) returns (performance: map<Agent, Tally>)
    ensures forall a: Agent :: a in performance && performance[a] == TallyOf(CopilotMessages(messages), a)
  {
    var replies := CopilotMessages(messages);
    performance := INITIAL_PERFORMANCE;
    forall a: Agent
      ensures a in performance && performance[a] == TallyOf(replies[..0], a)
    {
      match a
      case Billing =>
      case Safety =>
      case LostFound =>
      case General =>
    }
    for k := 0 to |replies|
      invariant forall a: Agent :: a in performance && performance[a] == TallyOf(replies[..k], a)
    {
      var msg := replies[k];
      assert replies[..k + 1][..k] == replies[..k];
      if msg.agent.Some? && msg.evaluation.Some? {
        var agent := msg.agent.value;
        var t := performance[agent];
        t := t.(total := t.total + 1);
        if msg.evaluation.value == Good {
          t := t.(good := t.good + 1);
        } else {
          t := t.(bad := t.bad + 1);
        }
        performance := performance[agent := t];
      }
    }
    assert replies[..|replies|] == replies;
  }

  /** Every agent's tally balances: good and bad add up to the total. */
  lemma {:induction false} TallyBalanced(replies: seq<Message>, a: Agent)
    ensures TallyOf(replies, a).good + TallyOf(replies, a).bad == TallyOf(replies, a).total
  {
    if replies != [] {
      TallyBalanced(replies[..|replies| - 1], a);
    }
  }

  function TotalOfAll(replies: seq<Message>): nat
  {
    TallyOf(replies, Billing).total + TallyOf(replies, Safety).total
      + TallyOf(replies, LostFound).total + TallyOf(replies, General).total
  }

  function GoodOfAll(replies: seq<Message>): nat
  {
    TallyOf(replies, Billing).good + TallyOf(replies, Safety).good
      + TallyOf(replies, LostFound).good + TallyOf(replies, General).good
  }

  predicate IsTalliedGood(m: Message)
  {
    IsTallied(m) && m.evaluation == Some(Good)
  }

  /** One more reply adds one to the totals when it is tallied, and one to the goods
      when it is tallied as good. */
  lemma TallyStep(replies: seq<Message>)
    requires replies != []
    ensures TotalOfAll(replies) == TotalOfAll(replies[..|replies| - 1]) + (if IsTallied(replies[|replies| - 1]) then 1 else 0)
    ensures GoodOfAll(replies) == GoodOfAll(replies[..|replies| - 1]) + (if IsTalliedGood(replies[|replies| - 1]) then 1 else 0)
  {
    var m := replies[|replies| - 1];
    if IsTallied(m) {
      match m.agent.value
      case Billing =>
      case Safety =>
      case LostFound =>
      case General =>
    }
  }

  /** Each tallied reply is counted under exactly one agent: the totals add up to the
      number of replies with an agent and a rating, and the goods to the number of
      those rated good. */
  lemma {:induction false} TallySums(replies: seq<Message>)
    ensures TotalOfAll(replies) == |Filter(replies, IsTallied)|
    ensures GoodOfAll(replies) == |Filter(replies, IsTalliedGood)|
  {
    if replies != [] {
      var init, m := replies[..|replies| - 1], replies[|replies| - 1];
      TallySums(init);
      TallyStep(replies);
      assert replies == init + [m];
      FilterAppend(init, [m], IsTallied);
      FilterAppend(init, [m], IsTalliedGood);
    }
  }

  /** Over the whole log: the tally counts every rated reply that names its agent, so
      its totals never exceed the rated replies and its goods never exceed the good
      ratings; when every reply names its agent they agree exactly. */
  lemma TallyAgreesWithRatings(messages: seq<Message>)
    ensures TotalOfAll(CopilotMessages(messages)) <= |EvaluatedMessages(messages)|
    ensures GoodOfAll(CopilotMessages(messages)) <= GoodRatings(messages)
    ensures (forall m :: m in CopilotMessages(messages) ==> m.agent.Some?) ==>
      TotalOfAll(CopilotMessages(messages)) == |EvaluatedMessages(messages)|
  {
    var replies := CopilotMessages(messages);
    TallySums(replies);
    FilterWeaker(replies, IsTallied, IsEvaluated);
    FilterNarrower(replies, IsEvaluated, IsGood);
    FilterWeaker(replies, IsTalliedGood, IsGood);
    if forall m :: m in replies ==> m.agent.Some? {
      SameFilter(replies, IsTallied, IsEvaluated);
    }
  }

  /** Filtering by `p` first changes nothing when `q` implies `p`. */
  lemma {:induction false} FilterNarrower(s: seq<Message>, p: Message -> bool, q: Message -> bool)
    requires forall x :: q(x) ==> p(x)
    ensures Filter(Filter(s, p), q) == Filter(s, q)
  {
    if s != [] {
      FilterNarrower(s[1..], p, q);
      var f := Filter(s, p);
      if p(s[0]) {
        assert f == [s[0]] + Filter(s[1..], p);
        assert f[0] == s[0] && f[1..] == Filter(s[1..], p);
      } else {
        assert f == Filter(s[1..], p);
        assert !q(s[0]);
        assert Filter(s, q) == Filter(s[1..], q);
      }
    }
  }

  lemma {:induction false} SameFilter(s: seq<Message>, p: Message -> bool, q: Message -> bool)
    requires forall x :: x in s ==> (p(x) <==> q(x))
    ensures Filter(s, p) == Filter(s, q)
  {
    if s != [] {
      assert forall x :: x in s[1..] ==> x in s;
      SameFilter(s[1..], p, q);
    }
  }

  // ---------------------------------------------------------------------------
  // Recent exchanges

  /** A query and the reply right after it. */
  datatype Exchange = Exchange(query: Message, response: Message)

  /** The message at `i` is a user query and the next one is an assistant reply. */
  predicate IsExchangeAt(messages: seq<Message>, i: int)
  {
    0 <= i && i + 1 < |messages| && messages[i].role == User && messages[i + 1].role == Copilot
  }

  /** The positions below `n` where an exchange starts, in increasing order. */
  function ExchangeStarts(messages: seq<Message>, n: nat): (r: seq<nat>)
    requires n <= |messages|
    ensures forall k :: 0 <= k < |r| ==> r[k] < n && IsExchangeAt(messages, r[k])
    ensures forall k, l :: 0 <= k < l < |r| ==> r[k] < r[l]
  {
    if n == 0 then []
    else ExchangeStarts(messages, n - 1) + (if IsExchangeAt(messages, n - 1) then [n - 1] else [])
  }

  /** Every exchange below `n` is found. */
  lemma {:induction false} ExchangeStartsComplete(messages: seq<Message>, n: nat, i: int)
    requires n <= |messages| && 0 <= i < n && IsExchangeAt(messages, i)
    ensures i in ExchangeStarts(messages, n)
  {
    if i < n - 1 {
      ExchangeStartsComplete(messages, n - 1, i);
    }
  }

  /** How many exchanges the dashboard lists. */
  const RECENT_LIMIT: nat := 5

  /** The start positions of the listed exchanges: the last five, newest first. */
  function RecentStarts(messages: seq<Message>): (r: seq<nat>)
    ensures |r| <= RECENT_LIMIT
    ensures forall k :: 0 <= k < |r| ==> IsExchangeAt(messages, r[k])
  {
    Reverse(LastN(ExchangeStarts(messages, |messages|), RECENT_LIMIT))
  }

  /** The listed exchanges are newest first. */
  lemma RecentStartsDescending(messages: seq<Message>)
    ensures forall k, l :: 0 <= k < l < |RecentStarts(messages)| ==> RecentStarts(messages)[k] > RecentStarts(messages)[l]
  {
    var all := ExchangeStarts(messages, |messages|);
    var recent := RecentStarts(messages);
    assert recent == Reverse(LastN(all, RECENT_LIMIT));
    forall k, l | 0 <= k < l < |recent|
      ensures recent[k] > recent[l]
    {
      NewestFirstAt(all, RECENT_LIMIT, k);
      NewestFirstAt(all, RECENT_LIMIT, l);
      assert recent[k] == all[|all| - 1 - k] && recent[l] == all[|all| - 1 - l];
    }
  }

  /** An exchange that is not listed is older than each of five listed ones. */
  lemma RecentStartsComplete(messages: seq<Message>, i: int)
    requires IsExchangeAt(messages, i) && i !in RecentStarts(messages)
    ensures |RecentStarts(messages)| == RECENT_LIMIT
    ensures forall k :: 0 <= k < RECENT_LIMIT ==> RecentStarts(messages)[k] > i
  {
    var all := ExchangeStarts(messages, |messages|);
    ExchangeStartsComplete(messages, |messages|, i);
    NewestFirstComplete(all, RECENT_LIMIT, i, RecentStarts(messages));
  }

  /** Of an increasing sequence, the last `n` reversed leave out only elements smaller
      than all of them. */
  lemma NewestFirstComplete(all: seq<nat>, n: nat, i: nat, recent: seq<nat>)
    requires forall k, l :: 0 <= k < l < |all| ==> all[k] < all[l]
    requires recent == Reverse(LastN(all, n))
    requires i in all && i !in recent
    ensures |recent| == n
    ensures forall k :: 0 <= k < n ==> recent[k] > i
  {
    var p :| 0 <= p < |all| && all[p] == i;
    var m := |recent|;
    assert m == if |all| <= n then |all| else n;
    if p >= |all| - m {
      var k := |all| - 1 - p;
      NewestFirstAt(all, n, k);
      assert false;
    }
    assert m == n;
    forall k | 0 <= k < n
      ensures recent[k] > i
    {
      NewestFirstAt(all, n, k);
      assert recent[k] == all[|all| - 1 - k];
      assert p < |all| - 1 - k;
    }
  }

  /** The exchange starting at `i`. */
  function PairAt(messages: seq<Message>, i: int): (e: Exchange)
    requires IsExchangeAt(messages, i)
    ensures e.query.role == User && e.response.role == Copilot
  {
    Exchange(messages[i], messages[i + 1])
  }

  /** The exchanges starting at `starts`. */
  function ExchangesAt(messages: seq<Message>, starts: seq<nat>): (r: seq<Exchange>)
    requires forall k :: 0 <= k < |starts| ==> IsExchangeAt(messages, starts[k])
    ensures |r| == |starts|
    ensures forall k :: 0 <= k < |starts| ==> r[k] == PairAt(messages, starts[k])
  {
    seq(|starts|, k requires 0 <= k < |starts| && IsExchangeAt(messages, starts[k]) => PairAt(messages, starts[k]))
  }

  lemma ExchangesAtAppend(messages: seq<Message>, starts: seq<nat>, i: nat)
    requires forall k :: 0 <= k < |starts| ==> IsExchangeAt(messages, starts[k])
    requires IsExchangeAt(messages, i)
    ensures ExchangesAt(messages, starts + [i]) == ExchangesAt(messages, starts) + [Exchange(messages[i], messages[i + 1])]
  {
  }

  lemma ExchangesAtNewestFirst(messages: seq<Message>, starts: seq<nat>, recent: seq<nat>)
    requires forall k :: 0 <= k < |starts| ==> IsExchangeAt(messages, starts[k])
    requires forall k :: 0 <= k < |recent| ==> IsExchangeAt(messages, recent[k])
    requires recent == Reverse(LastN(starts, RECENT_LIMIT))
    ensures Reverse(LastN(ExchangesAt(messages, starts), RECENT_LIMIT)) == ExchangesAt(messages, recent)
  {
    var listed := Reverse(LastN(ExchangesAt(messages, starts), RECENT_LIMIT));
    var expected := ExchangesAt(messages, recent);
    assert |listed| == |expected|;
    forall k | 0 <= k < |listed|
      ensures listed[k] == expected[k]
    {
      NewestFirstPair(messages, starts, recent, k);
    }
  }

  lemma NewestFirstPair(messages: seq<Message>, starts: seq<nat>, recent: seq<nat>, k: nat)
    requires forall k :: 0 <= k < |starts| ==> IsExchangeAt(messages, starts[k])
    requires recent == Reverse(LastN(starts, RECENT_LIMIT)) && k < |recent|
    ensures IsExchangeAt(messages, recent[k])
    ensures Reverse(LastN(ExchangesAt(messages, starts), RECENT_LIMIT))[k] == PairAt(messages, recent[k])
  {
    var ex := ExchangesAt(messages, starts);
    var j := |starts| - 1 - k;
    NewestFirstAt(starts, RECENT_LIMIT, k);
    assert recent[k] == starts[j];
    assert |Reverse(LastN(ex, RECENT_LIMIT))| == |recent|;
    NewestFirstAt(ex, RECENT_LIMIT, k);
    assert ex[j] == PairAt(messages, starts[j]);
  }

  /** `recentQueries`: walk the log, collecting each query that the next message
      answers, then keep the last five, newest first. */
  method RecentQueries(messages: seq<Message>) returns (recent: seq<Exchange>)
    ensures recent == ExchangesAt(messages, RecentStarts(messages))
  {
    var acc: seq<Exchange> := [];
    for index := 0 to |messages|
      invariant acc == ExchangesAt(messages, ExchangeStarts(messages, index))
    {
      var msg := messages[index];
      if msg.role == User && index + 1 < |messages| && messages[index + 1].role == Copilot {
        ExchangesAtAppend(messages, ExchangeStarts(messages, index), index);
        acc := acc + [Exchange(msg, messages[index + 1])];
      }
    }
    ExchangesAtNewestFirst(messages, ExchangeStarts(messages, |messages|), RecentStarts(messages));
    recent := Reverse(LastN(acc, RECENT_LIMIT));
  }
}
