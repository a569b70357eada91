/** The deploy trigger and the deploy-status poller of the navigation menu.

    Dialogs, requests and timers are not performed here: each shows up as an
    `Effect` appended to a trace, the user's answer to the confirmation is a
    boolean input, and the replies the server gives are input values (one
    for the trigger request, then one per status poll, in order). */
module DeployPoller {

  /** The value of a reply's `status` field after JSON parsing: a number
      (the double the parser rounds the literal to), a string, or anything
      else (null, a boolean, an object, an array, absent). */
  datatype StatusValue = Num(n: real) | JsonString(s: string) | OtherJson

  /** A reply `{status, msg}` from the deploy endpoints. */
  datatype Reply = Reply(status: StatusValue, msg: string)

  /** How the poller reads a status: complete (`1` or `"1"`), pending (`0`
      or `"0"`), or anything else. */
  datatype Verdict = Complete | Pending | Unrecognised

  /** What the menu does that the user or the server can observe. */
  datatype Effect =
    | Confirm(question: string)
    | Post(url: string, body: string)
    | Get(url: string)
    | Alert(message: string)
    | Schedule(delayMs: nat)

  const PollDelayMs: nat := 2000
  const StatusUrl: string := "/blog/ghost/deploy-changes/"
  /** `JSON.stringify({})`, the body of the trigger request. */
  const EmptyBody: string := "{}"

  /** The trigger endpoint for environment `env`. */
  function TriggerUrl(env: string): string {
    StatusUrl + env
  }

  /** The question put to the user before deploying to `env`. */
  function ConfirmQuestion(env: string): string {
    "Do you want to deploy the code on " + env + "?"
  }

  /** Strict equality of a status against `1`/`"1"` and `0`/`"0"`. */
  function Classify(v: StatusValue): Verdict {
    if v == Num(1.0) || v == JsonString("1") then Complete
    else if v == Num(0.0) || v == JsonString("0") then Pending
    else Unrecognised
  }

  predicate IsPending(r: Reply) {
    Classify(r.status) == Pending
  }

  /** What the poller does with one status reply. */
  function StepEffects(r: Reply): (e: seq<Effect>)
    ensures |e| <= 1
    ensures e != [] ==> e[0] == Alert(r.msg) || e[0] == Schedule(PollDelayMs)
    ensures (e != [] && e[0].Alert?) <==> Classify(r.status) == Complete
    ensures (e != [] && e[0].Schedule?) <==> Classify(r.status) == Pending
  {
    match Classify(r.status)
    case Complete => [Alert(r.msg)]
    case Pending => [Schedule(PollDelayMs)]
    case Unrecognised => []
  }

  /** The trace of a poll cycle from the moment the first poll fires, given
      the replies the status endpoint gives in order. Polling goes on while
      the replies are pending; when the replies run out first, the trace
      ends with a poll that is scheduled but not yet observed. */
  function PollTrace(replies: seq<Reply>): seq<Effect> {
    if replies == [] then []
    else
      [Get(StatusUrl)] + StepEffects(replies[0])
        + (if IsPending(replies[0]) then PollTrace(replies[1..]) else [])
  }

  /** How many replies a poll cycle consumes: at least one when there is
      any, never more than there are. */
  function PollCount(replies: seq<Reply>): (k: nat)
    ensures k <= |replies|
    ensures replies != [] ==> 0 < k
  {
    if replies == [] then 0
    else if IsPending(replies[0]) then 1 + PollCount(replies[1..])
    else 1
  }

  /** What an accepted deploy does before the first poll fires: ask, send
      the trigger request, show its message, schedule the first poll. */
  function TriggerEffects(env: string, triggerReply: Reply): seq<Effect> {
    [Confirm(ConfirmQuestion(env)), Post(TriggerUrl(env), EmptyBody),
     Alert(triggerReply.msg), Schedule(PollDelayMs)]
  }

  /** The trace of `initDeployChanges(env)`, followed by the poll cycle it
      starts. */
  function DeployTrace(env: string, confirmed: bool, triggerReply: Reply, replies: seq<Reply>): seq<Effect> {
    if confirmed then TriggerEffects(env, triggerReply) + PollTrace(replies)
    else [Confirm(ConfirmQuestion(env))]
  }

  /** The messages shown, in order. */
  function Alerts(t: seq<Effect>): seq<string> {
    if t == [] then []
    else (if t[0].Alert? then [t[0].message] else []) + Alerts(t[1..])
  }

  /** The number of requests (of either kind) sent. */
  function Requests(t: seq<Effect>): nat {
    if t == [] then 0
    else (if t[0].Post? || t[0].Get? then 1 else 0) + Requests(t[1..])
  }

  /** Every status request is sent only after a 2000 ms delay: it is
      immediately preceded by the scheduling of a poll. */
  predicate PollsFollowDelay(t: seq<Effect>) {
    forall i :: 0 <= i < |t| && t[i].Get? ==> 0 < i && t[i - 1] == Schedule(PollDelayMs)
  }

  /** The callback `checkDeployChanges` attaches to a status reply: show the
      message when complete, schedule the next poll when pending, and do
      neither otherwise. `again` says whether a poll was scheduled. */
  method HandleReply(reply: Reply) returns (effects: seq<Effect>, again: bool)
    ensures effects == StepEffects(reply)
    ensures again <==> IsPending(reply)
  {
    var status := reply.status;
    if status == Num(1.0) || status == JsonString("1") {
      effects, again := [Alert(reply.msg)], false;
    } else if status == Num(0.0) || status == JsonString("0") {
      effects, again := [Schedule(PollDelayMs)], true;
    } else {
      effects, again := [], false;
    }
  }

  /** `checkDeployChanges` and its re-scheduling, as a loop over the replies:
      each round sends one status request and handles its reply, and the
      loop goes on while a further poll was scheduled. */
  method PollUntilSettled(replies: seq<Reply>) returns (trace: seq<Effect>, polls: nat)
    ensures trace == PollTrace(replies)
    ensures polls == PollCount(replies)
  {
    trace, polls := [], 0;
    var polling := true;
    while polling && polls < |replies|
      invariant polls <= |replies|
      invariant polling ==> trace + PollTrace(replies[polls..]) == PollTrace(replies)
      invariant polling ==> polls + PollCount(replies[polls..]) == PollCount(replies)
      invariant !polling ==> trace == PollTrace(replies) && polls == PollCount(replies)
      decreases |replies| - polls, polling
    {
      PollUnfold(replies, polls);
      var effects, again := HandleReply(replies[polls]);
      var round := [Get(StatusUrl)] + effects;
      ghost var later := if again then PollTrace(replies[polls + 1..]) else [];
      assert (trace + round) + later == trace + (round + later);
      trace := trace + round;
      polls := polls + 1;
      polling := again;
    }
  }

  /** One round of polling from reply `i` on. */
  lemma PollUnfold(replies: seq<Reply>, i: nat)
    requires i < |replies|
    ensures var r, rest := replies[i], replies[i + 1..];
            PollTrace(replies[i..]) ==
              ([Get(StatusUrl)] + StepEffects(r)) + (if IsPending(r) then PollTrace(rest) else []) &&
            PollCount(replies[i..]) == (if IsPending(r) then 1 + PollCount(rest) else 1)
  {
    assert replies[i..][0] == replies[i];
    assert replies[i..][1..] == replies[i + 1..];
  }

  /** `window.initDeployChanges(env)`: ask, and when the user agrees, send
      the trigger request, show its message and start polling. */
  method InitDeployChanges(env: string, confirmed: bool, triggerReply: Reply, replies: seq<Reply>)
    returns (trace: seq<Effect>)
    ensures trace == DeployTrace(env, confirmed, triggerReply, replies)
  {
    trace := [Confirm(ConfirmQuestion(env))];
    if confirmed {
      trace := trace + [Post(TriggerUrl(env), EmptyBody)];
      trace := trace + [Alert(triggerReply.msg)];
      trace := trace + [Schedule(PollDelayMs)];
      var cycle, _ := PollUntilSettled(replies);
      trace := trace + cycle;
    }
  }

  // ---------------------------------------------------------------------
  // Properties of the poll cycle

  /** Polling consumes the replies up to and including the first one that
      is not pending, or all of them when every one is pending. */
  lemma {:induction false} PollCountStopsAtFirstSettled(replies: seq<Reply>)
    ensures forall j :: 0 <= j < PollCount(replies) - 1 ==> IsPending(replies[j])
    ensures PollCount(replies) < |replies| ==> !IsPending(replies[PollCount(replies) - 1])
  {
    if replies != [] && IsPending(replies[0]) {
      var rest := replies[1..];
      PollCountStopsAtFirstSettled(rest);
      forall j | 0 <= j < PollCount(replies) - 1 ensures IsPending(replies[j]) {
        if j > 0 {
          assert replies[j] == rest[j - 1];
        }
      }
    }
  }

  /** Alerts and request counts distribute over concatenation. */
  lemma {:induction false} TraceSplit(a: seq<Effect>, b: seq<Effect>)
    ensures Alerts(a + b) == Alerts(a) + Alerts(b)
    ensures Requests(a + b) == Requests(a) + Requests(b)
    decreases |a|
  {
    if a != [] {
      assert (a + b)[1..] == a[1..] + b;
      TraceSplit(a[1..], b);
    } else {
      assert a + b == b;
    }
  }

  /** Exactly one status request is sent per reply consumed. */
  lemma {:induction false} PollTraceRequests(replies: seq<Reply>)
    ensures Requests(PollTrace(replies)) == PollCount(replies)
  {
    if replies != [] {
      var r := replies[0];
      var tail := if IsPending(r) then PollTrace(replies[1..]) else [];
      TraceSplit([Get(StatusUrl)], StepEffects(r));
      TraceSplit([Get(StatusUrl)] + StepEffects(r), tail);
      if IsPending(r) {
        PollTraceRequests(replies[1..]);
      }
    }
  }

  /** The messages one status reply causes. */
  lemma StepAlerts(r: Reply)
    ensures Alerts(StepEffects(r)) == if Classify(r.status) == Complete then [r.msg] else []
    ensures Alerts([Get(StatusUrl)] + StepEffects(r)) == Alerts(StepEffects(r))
  {
    TraceSplit([Get(StatusUrl)], StepEffects(r));
  }

  /** A message is shown during a poll cycle if and only if the last reply
      consumed says complete, and then it is that reply's message, shown
      once. */
  lemma {:induction false} PollTraceAlerts(replies: seq<Reply>)
    ensures var k := PollCount(replies);
            Alerts(PollTrace(replies)) ==
              if 0 < k && Classify(replies[k - 1].status) == Complete then [replies[k - 1].msg] else []
  {
    if replies != [] {
      var r := replies[0];
      var head := [Get(StatusUrl)] + StepEffects(r);
      StepAlerts(r);
      if IsPending(r) {
        var rest := replies[1..];
        TraceSplit(head, PollTrace(rest));
        PollTraceAlerts(rest);
        if rest != [] {
          assert replies[PollCount(replies) - 1] == rest[PollCount(rest) - 1];
        }
      } else {
        assert PollTrace(replies) == head + [];
        assert head + [] == head;
      }
    }
  }

  /** A poll cycle never shows more than one message. */
  lemma AtMostOneCompletionMessage(replies: seq<Reply>)
    ensures |Alerts(PollTrace(replies))| <= 1
  {
    PollTraceAlerts(replies);
  }

  /** A cycle that ends with a complete reply ends with its message: no poll
      is scheduled after it. */
  lemma {:induction false} CompletionEndsCycle(replies: seq<Reply>)
    requires replies != []
    requires Classify(replies[PollCount(replies) - 1].status) == Complete
    ensures PollTrace(replies) != []
    ensures PollTrace(replies)[|PollTrace(replies)| - 1] == Alert(replies[PollCount(replies) - 1].msg)
  {
    PollCountStopsAtFirstSettled(replies);
    if IsPending(replies[0]) {
      var rest := replies[1..];
      PollCountStopsAtFirstSettled(rest);
      assert replies[PollCount(replies) - 1] == rest[PollCount(rest) - 1];
      CompletionEndsCycle(rest);
    }
  }

  /** Inside a poll cycle the first request comes first and every later one
      follows the scheduling of a poll. */
  lemma {:induction false} PollTraceShape(replies: seq<Reply>)
    ensures PollTrace(replies) != [] ==> PollTrace(replies)[0] == Get(StatusUrl)
    ensures forall i :: 0 < i < |PollTrace(replies)| && PollTrace(replies)[i].Get? ==>
              PollTrace(replies)[i - 1] == Schedule(PollDelayMs)
  {
    if replies != [] {
      var r := replies[0];
      var head := [Get(StatusUrl)] + StepEffects(r);
      var t := PollTrace(replies);
      if IsPending(r) {
        var rest := PollTrace(replies[1..]);
        PollTraceShape(replies[1..]);
        assert head == [Get(StatusUrl), Schedule(PollDelayMs)];
        assert t == head + rest;
        forall i | 0 < i < |t| && t[i].Get? ensures t[i - 1] == Schedule(PollDelayMs) {
          if i >= 2 {
            assert t[i] == rest[i - 2];
            if i > 2 {
              assert t[i - 1] == rest[i - 3];
            }
          }
        }
      }
    }
  }

  // ---------------------------------------------------------------------
  // Properties of the deploy trigger

  /** Declining the confirmation sends nothing, shows nothing and schedules
      nothing. */
  lemma DeclinedDoesNothing(env: string, triggerReply: Reply, replies: seq<Reply>)
    ensures DeployTrace(env, false, triggerReply, replies) == [Confirm(ConfirmQuestion(env))]
    ensures Requests(DeployTrace(env, false, triggerReply, replies)) == 0
  {
  }

  /** The trigger's own effects: one request and one message. */
  lemma TriggerEffectsCounts(env: string, triggerReply: Reply)
    ensures Requests(TriggerEffects(env, triggerReply)) == 1
    ensures Alerts(TriggerEffects(env, triggerReply)) == [triggerReply.msg]
  {
    var t := TriggerEffects(env, triggerReply);
    assert t[1..][1..][1..][1..] == [];
    assert Requests(t[1..][1..][1..]) == 0 && Alerts(t[1..][1..][1..]) == [];
    assert Requests(t[1..][1..]) == 0 && Alerts(t[1..][1..]) == [triggerReply.msg];
  }

  /** Accepting it sends one trigger request with an empty body to the
      environment's endpoint, shows its message, schedules the first poll,
      and then sends one status request per reply consumed: the only POST is
      the trigger request. */
  lemma {:induction false} AcceptedTriggersOnce(env: string, triggerReply: Reply, replies: seq<Reply>)
    ensures var t := DeployTrace(env, true, triggerReply, replies);
            |t| >= 4 &&
            t[..4] == [Confirm(ConfirmQuestion(env)), Post(TriggerUrl(env), EmptyBody),
                       Alert(triggerReply.msg), Schedule(PollDelayMs)] &&
            Requests(t) == 1 + PollCount(replies) &&
            forall i :: 0 <= i < |t| && t[i].Post? ==> i == 1
  {
    var t := DeployTrace(env, true, triggerReply, replies);
    var prefix := TriggerEffects(env, triggerReply);
    var cycle := PollTrace(replies);
    TriggerEffectsCounts(env, triggerReply);
    TraceSplit(prefix, cycle);
    PollTraceRequests(replies);
    PollTraceHasNoPost(replies);
    forall i | 4 <= i < |t| ensures !t[i].Post? {
      assert t[i] == cycle[i - 4];
    }
  }

  /** A poll cycle never sends a trigger request. */
  lemma {:induction false} PollTraceHasNoPost(replies: seq<Reply>)
    ensures forall e :: e in PollTrace(replies) ==> !e.Post?
  {
    if replies != [] && IsPending(replies[0]) {
      PollTraceHasNoPost(replies[1..]);
    }
  }

  /** Over a whole deploy, the messages shown are the trigger's message and
      at most one completion message, the one of the reply that ended the
      cycle. */
  lemma DeployAlerts(env: string, triggerReply: Reply, replies: seq<Reply>)
    ensures var k := PollCount(replies);
            Alerts(DeployTrace(env, true, triggerReply, replies)) ==
              [triggerReply.msg] +
              if 0 < k && Classify(replies[k - 1].status) == Complete then [replies[k - 1].msg] else []
  {
    TriggerEffectsCounts(env, triggerReply);
    TraceSplit(TriggerEffects(env, triggerReply), PollTrace(replies));
    PollTraceAlerts(replies);
  }

  /** Over a whole deploy, no status request is sent without first waiting
      the poll delay, so polls never overlap. */
  lemma EveryPollFollowsDelay(env: string, confirmed: bool, triggerReply: Reply, replies: seq<Reply>)
    ensures PollsFollowDelay(DeployTrace(env, confirmed, triggerReply, replies))
  {
    if confirmed {
      var prefix := TriggerEffects(env, triggerReply);
      var cycle := PollTrace(replies);
      var t := DeployTrace(env, true, triggerReply, replies);
      PollTraceShape(replies);
      forall i | 0 <= i < |t| && t[i].Get? ensures 0 < i && t[i - 1] == Schedule(PollDelayMs) {
        if i >= 4 {
          assert t[i] == cycle[i - 4];
          if i > 4 {
            assert t[i - 1] == cycle[i - 5];
          }
        }
      }
    }
  }

  /** The deployment of `production` in which the trigger replies
      "starting" and the first poll says complete with "done". */
  lemma ProductionDeployExample()
    ensures DeployTrace("production", true, Reply(Num(0.0), "starting"), [Reply(Num(1.0), "done")]) ==
              [Confirm(ConfirmQuestion("production")),
               Post(TriggerUrl("production"), EmptyBody),
               Alert("starting"),
               Schedule(2000),
               Get(StatusUrl),
               Alert("done")]
  {
  }

  /** A status the poller does not recognise, such as `2` or `"done"`,
      stops polling without a message, even with replies left. */
  lemma UnrecognisedStatusStopsSilently(msg: string, rest: seq<Reply>)
    ensures PollTrace([Reply(Num(2.0), msg)] + rest) == [Get(StatusUrl)]
    ensures PollTrace([Reply(JsonString("done"), msg)] + rest) == [Get(StatusUrl)]
  {
  }
}
