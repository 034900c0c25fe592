/** The asynchronous-generation probe: submit a job, poll it against the clock, revoke it if it
    does not end, and judge what was seen. */
module ProbePolling {

  /* ---------- What the server says ---------- */

  /** The fields of a status object that are read; a missing one is empty or false. */
  datatype Body = Body(state: string, stage: string, manifest: bool, llmUsed: bool)

  /** A poll is answered by a JSON object or by something else. */
  datatype Response = NoObject | Object(body: Body)

  /** The answer to the submission; `jobId` is empty if there is none. */
  datatype Submission = Submission(ok: bool, status: int, jobId: string)

  const PENDING := "PENDING"

  predicate Terminal(state: string) { state == "SUCCESS" || state == "FAILURE" || state == "REVOKED" }

  /** An object without a state, such as an error body, reads as pending. */
  function StateOf(b: Body): string { if b.state == "" then PENDING else b.state }

  /* ---------- Traces ---------- */

  /** The states read from the first `n` answers. */
  function States(replies: seq<Response>, n: nat): seq<string>
    requires n <= |replies|
  {
    if n == 0 then []
    else if replies[n - 1].NoObject? then States(replies, n - 1)
    else States(replies, n - 1) + [StateOf(replies[n - 1].body)]
  }

  function Stages(replies: seq<Response>, n: nat): seq<string>
    requires n <= |replies|
  {
    if n == 0 then []
    else if replies[n - 1].NoObject? || replies[n - 1].body.stage == "" then Stages(replies, n - 1)
    else Stages(replies, n - 1) + [replies[n - 1].body.stage]
  }

  /** The last object read. */
  function LastBody(replies: seq<Response>, n: nat): Body
    requires n <= |replies|
  {
    if n == 0 then Body("", "", false, false)
    else if replies[n - 1].Object? then replies[n - 1].body
    else LastBody(replies, n - 1)
  }

  /** The current state after `n` answers. */
  function Current(replies: seq<Response>, n: nat): string
    requires n <= |replies|
  {
    StateOf(LastBody(replies, n))
  }

  /** Consecutive repeats dropped. */
  function Collapse(xs: seq<string>): seq<string> {
    if xs == [] then [] else Extend(Collapse(xs[..|xs| - 1]), xs[|xs| - 1])
  }

  /** What is appended to the list of states or stages seen. */
  function Extend(c: seq<string>, x: string): seq<string> {
    if c != [] && c[|c| - 1] == x then c else c + [x]
  }

  lemma {:induction false} CollapseStep(xs: seq<string>, x: string)
    ensures Collapse(xs + [x]) == Extend(Collapse(xs), x)
  {
    assert (xs + [x])[..|xs|] == xs;
  }

  /** How many polls happen: until the clock, read before each poll, reaches the budget, or a
      terminal state has been read. */
  function Polls(times: seq<real>, replies: seq<Response>, budget: real, i: nat): (n: nat)
    requires |times| == |replies| + 1 && i <= |replies| && times[|replies|] >= budget
    ensures i <= n <= |replies|
    decreases |replies| - i
  {
    if times[i] >= budget then i
    else if Terminal(Current(replies, i + 1)) then i + 1
    else Polls(times, replies, budget, i + 1)
  }

  /* ---------- observe ---------- */

  datatype Request = Submit | Poll | Revoke

  datatype Observation =
    | Refused(status: int)
    | Watched(status: int, state: string, states: seq<string>, stages: seq<string>, timedOut: bool,
              manifest: bool, llmUsed: bool)

  function Repeated(n: nat): (r: seq<Request>)
    ensures |r| == n && forall i :: 0 <= i < n ==> r[i] == Poll
  {
    seq(n, _ => Poll)
  }

  /** What `observe` is to report for the `n` answers it polled. */
  function Report(status: int, replies: seq<Response>, n: nat): Observation
    requires n <= |replies|
  {
    var state, last := Current(replies, n), LastBody(replies, n);
    Watched(status, state, Collapse(States(replies, n)), Collapse(Stages(replies, n)), !Terminal(state),
            last.manifest, last.llmUsed)
  }

  lemma RepeatedStep(n: nat)
    ensures Repeated(n) + [Poll] == Repeated(n + 1)
  {}

  /** What one more answer adds. */
  lemma OneMore(replies: seq<Response>, i: nat)
    requires i < |replies|
    ensures replies[i].NoObject? ==>
              States(replies, i + 1) == States(replies, i) && Stages(replies, i + 1) == Stages(replies, i) &&
              LastBody(replies, i + 1) == LastBody(replies, i)
    ensures replies[i].Object? ==>
              var b := replies[i].body;
              Collapse(States(replies, i + 1)) == Extend(Collapse(States(replies, i)), StateOf(b)) &&
              Collapse(Stages(replies, i + 1)) ==
              (if b.stage == "" then Collapse(Stages(replies, i)) else Extend(Collapse(Stages(replies, i)), b.stage)) &&
              LastBody(replies, i + 1) == b
  {
    if replies[i].Object? {
      CollapseStep(States(replies, i), StateOf(replies[i].body));
      CollapseStep(Stages(replies, i), replies[i].body.stage);
    }
  }

  /** One answer taken in. */
  method TakeIn(reply: Response, was: string, sawStates: seq<string>, sawStages: seq<string>, had: Body)
    returns (state: string, states: seq<string>, stages: seq<string>, last: Body)
    ensures reply.NoObject? ==> state == was && states == sawStates && stages == sawStages && last == had
    ensures reply.Object? ==>
              last == reply.body && state == StateOf(last) && states == Extend(sawStates, state) &&
              stages == if last.stage == "" then sawStages else Extend(sawStages, last.stage)
  {
    state, states, stages, last := was, sawStates, sawStages, had;
    if reply.Object? {
      last := reply.body;
      state := StateOf(last);
      states := Extend(states, state);
      if last.stage != "" {
        stages := Extend(stages, last.stage);
      }
    }
  }

  /** The poll loop. `times` are the readings of the elapsed time, the last of which is past the
      budget; `replies` are the answers the server would give. */
  method PollJob(times: seq<real>, replies: seq<Response>, budget: real)
    returns (state: string, states: seq<string>, stages: seq<string>, last: Body, sent: seq<Request>)
    requires |times| == |replies| + 1 && times[|replies|] >= budget
    ensures var n := Polls(times, replies, budget, 0);
            state == Current(replies, n) && last == LastBody(replies, n) &&
            states == Collapse(States(replies, n)) && stages == Collapse(Stages(replies, n)) && sent == Repeated(n)
  {
    states, stages, sent := [], [], [];
    state := PENDING;
    last := Body("", "", false, false);
    var i := 0;
    while times[i] < budget
      invariant i <= |replies|
      invariant Polls(times, replies, budget, i) == Polls(times, replies, budget, 0)
      invariant state == Current(replies, i) && last == LastBody(replies, i)
      invariant states == Collapse(States(replies, i)) && stages == Collapse(Stages(replies, i))
      invariant sent == Repeated(i)
      decreases |replies| - i
    {
      RepeatedStep(i);
      OneMore(replies, i);
      sent := sent + [Poll];
      state, states, stages, last := TakeIn(replies[i], state, states, stages, last);
      i := i + 1;
      if Terminal(state) {
        break;
      }
    }
  }

  /** `observe` */
  method Observe(sub: Submission, times: seq<real>, replies: seq<Response>, budget: real)
    returns (o: Observation, sent: seq<Request>)
    requires |times| == |replies| + 1 && times[|replies|] >= budget
    ensures !(sub.ok && sub.jobId != "") ==> o == Refused(sub.status) && sent == [Submit]
    ensures sub.ok && sub.jobId != "" ==>
              var n := Polls(times, replies, budget, 0);
              o == Report(sub.status, replies, n) &&
              sent == [Submit] + Repeated(n) + (if Terminal(o.state) then [] else [Revoke])
  {
    sent := [Submit];
    if !sub.ok || sub.jobId == "" {
      return Refused(sub.status), sent;
    }
    var state, states, stages, last, polls := PollJob(times, replies, budget);
    sent := sent + polls;
    o := Watched(sub.status, state, states, stages, !Terminal(state), last.manifest, last.llmUsed);
    if !Terminal(state) {
      sent := sent + [Revoke];
    }
  }

  /* ---------- judge ---------- */

  datatype Finding =
    | NotEnabled | RateLimited | SubmitFailed | NeverConsumed | OverBudget | Failed | RevokedElsewhere | RanWithoutLlm
    | NoManifest

  /** The submission went through and a job was watched. */
  predicate Accepted(o: Observation) { o.Watched? && 200 <= o.status < 300 }

  /** `judge` */
  method Judge(o: Observation, expectLlm: bool) returns (findings: seq<Finding>)
    ensures |findings| <= 1
    ensures findings == [] <==>
              Accepted(o) && !o.timedOut &&
              (o.state == "SUCCESS" ==> o.manifest && (expectLlm ==> o.llmUsed)) && o.state !in ["FAILURE", "REVOKED"]
    ensures findings == [NeverConsumed] <==> Accepted(o) && o.timedOut && forall s :: s in o.states ==> s == PENDING
    ensures findings == [OverBudget] <==> Accepted(o) && o.timedOut && exists s :: s in o.states && s != PENDING
    ensures findings == [RanWithoutLlm] <==>
            Accepted(o) && !o.timedOut && o.state == "SUCCESS" && expectLlm && !o.llmUsed
    ensures findings == [NotEnabled] <==> o.status == 503
    ensures findings == [RateLimited] <==> o.status == 429
    ensures findings == [SubmitFailed] <==> o.status != 503 && o.status != 429 && !Accepted(o)
    ensures findings == [Failed] <==> Accepted(o) && !o.timedOut && o.state == "FAILURE"
    ensures findings == [RevokedElsewhere] <==> Accepted(o) && !o.timedOut && o.state == "REVOKED"
    ensures findings == [NoManifest] <==>
              Accepted(o) && !o.timedOut && o.state == "SUCCESS" && (expectLlm ==> o.llmUsed) && !o.manifest
  {
    findings := [];
    if o.status == 503 {
      findings := [NotEnabled];
      return;
    }
    if o.status == 429 {
      findings := [RateLimited];
      return;
    }
    if o.status < 200 || o.status >= 300 || o.Refused? {
      findings := [SubmitFailed];
      return;
    }
    if o.timedOut {
      var neverStarted := forall s | s in o.states :: s == PENDING;
      findings := [if neverStarted then NeverConsumed else OverBudget];
      return;
    }
    if o.state == "FAILURE" {
      findings := [Failed];
    } else if o.state == "REVOKED" {
      findings := [RevokedElsewhere];
    } else if o.state == "SUCCESS" && expectLlm && !o.llmUsed {
      findings := [RanWithoutLlm];
    } else if o.state == "SUCCESS" && !o.manifest {
      findings := [NoManifest];
    }
  }

  /* ---------- The whole probe ---------- */

  /** The first value, or one that differs from the one before. */
  predicate Changes(xs: seq<string>, i: int) { 0 <= i < |xs| && (i == 0 || xs[i - 1] != xs[i]) }

  ghost predicate AllChanges(xs: seq<string>, at: seq<nat>) {
    (forall k, l :: 0 <= k < l < |at| ==> at[k] < at[l]) && forall i: nat :: i in at <==> Changes(xs, i)
  }

  ghost predicate Kept(xs: seq<string>, at: seq<nat>, c: seq<string>) {
    |c| == |at| && (forall k :: 0 <= k < |at| ==> at[k] < |xs| && c[k] == xs[at[k]]) &&
    (xs != [] ==> c != [] && c[|c| - 1] == xs[|xs| - 1])
  }

  /** Collapsing keeps the first value and every one that differs from the one before, in order, and
      nothing else. */
  lemma {:induction false} CollapseKeeps(xs: seq<string>) returns (at: seq<nat>)
    ensures AllChanges(xs, at) && Kept(xs, at, Collapse(xs))
  {
    if xs == [] {
      at := [];
      NothingKept();
    } else {
      var front := CollapseKeeps(xs[..|xs| - 1]);
      OneMoreKept(xs, front, Collapse(xs[..|xs| - 1]));
      ChangesMore(xs, front);
      at := if Changes(xs, |xs| - 1) then front + [|xs| - 1] else front;
    }
  }

  lemma NothingKept()
    ensures AllChanges([], []) && Kept([], [], Collapse([]))
  {}

  lemma OneMoreKept(xs: seq<string>, at: seq<nat>, c: seq<string>)
    requires xs != [] && Kept(xs[..|xs| - 1], at, c)
    ensures var n := |xs| - 1;
            Changes(xs, n) <==> c == [] || c[|c| - 1] != xs[n]
    ensures Kept(xs, if Changes(xs, |xs| - 1) then at + [|xs| - 1] else at, Extend(c, xs[|xs| - 1]))
  {
    var front := xs[..|xs| - 1];
    assert forall i :: 0 <= i < |front| ==> front[i] == xs[i];
  }

  lemma ChangesMore(xs: seq<string>, at: seq<nat>)
    requires xs != [] && AllChanges(xs[..|xs| - 1], at)
    ensures AllChanges(xs, if Changes(xs, |xs| - 1) then at + [|xs| - 1] else at)
  {
    var n := |xs| - 1;
    forall i: nat ensures Changes(xs[..n], i) <==> i < n && Changes(xs, i) {}
    var all := if Changes(xs, n) then at + [n] else at;
    forall i: nat ensures i in all <==> Changes(xs, i) {
      assert i in all <==> i in at || (i == n && Changes(xs, n));
    }
    forall k | 0 <= k < |at| ensures at[k] < n {
      assert at[k] in at;
    }
  }

  /** So neighbours differ, no value is added or lost, and the last is kept. */
  lemma {:induction false} CollapseIs(xs: seq<string>)
    ensures var c := Collapse(xs);
            (forall i :: 0 < i < |c| ==> c[i - 1] != c[i]) && (forall x :: x in c <==> x in xs) &&
            (xs != [] ==> c != [] && c[|c| - 1] == xs[|xs| - 1])
  {
    if xs != [] {
      CollapseIs(xs[..|xs| - 1]);
      assert xs == xs[..|xs| - 1] + [xs[|xs| - 1]];
    }
  }

  /** An answer that ends the polling. */
  predicate Final(reply: Response) {
    reply.Object? && (reply.body.state == "SUCCESS" || reply.body.state == "FAILURE" || reply.body.state == "REVOKED")
  }

  /** Every poll happens within the budget, and only the last may be answered by SUCCESS, FAILURE or
      REVOKED; polling ends with the first such answer, or because the budget is used up. */
  ghost predicate Stops(times: seq<real>, replies: seq<Response>, budget: real, n: nat)
    requires |times| == |replies| + 1
  {
    n <= |replies| && (forall k :: 0 <= k < n ==> times[k] < budget) &&
    (forall k :: 0 <= k < n - 1 ==> !Final(replies[k])) &&
    (times[n] >= budget || (n > 0 && Final(replies[n - 1])))
  }

  lemma {:induction false} PollsStop(times: seq<real>, replies: seq<Response>, budget: real)
    requires |times| == |replies| + 1 && times[|replies|] >= budget
    ensures Stops(times, replies, budget, Polls(times, replies, budget, 0))
  {
    PollsOn(times, replies, budget, 0);
  }

  lemma {:induction false} PollsOn(times: seq<real>, replies: seq<Response>, budget: real, i: nat)
    requires |times| == |replies| + 1 && i <= |replies| && times[|replies|] >= budget
    requires (forall k :: 0 <= k < i ==> times[k] < budget && !Final(replies[k])) && !Terminal(Current(replies, i))
    ensures Stops(times, replies, budget, Polls(times, replies, budget, i))
    decreases |replies| - i
  {
    if times[i] < budget && !Terminal(Current(replies, i + 1)) {
      PollsOn(times, replies, budget, i + 1);
    }
  }

  /** The last object answered, if any. */
  ghost predicate LastObject(replies: seq<Response>, n: nat, i: nat) {
    i < n <= |replies| && replies[i].Object? && forall k :: i < k < n ==> replies[k].NoObject?
  }

  /** What has been read after `n` answers is the last object; if its state is missing it is PENDING. */
  lemma {:induction false} CurrentIs(replies: seq<Response>, n: nat, i: nat)
    requires LastObject(replies, n, i)
    ensures LastBody(replies, n) == replies[i].body
    ensures Current(replies, n) == if replies[i].body.state == "" then "PENDING" else replies[i].body.state
  {
    if i < n - 1 {
      CurrentIs(replies, n - 1, i);
    }
  }

  /** If there was none, the state is PENDING, without a manifest or the use of an LLM. */
  lemma {:induction false} NothingRead(replies: seq<Response>, n: nat)
    requires n <= |replies| && forall k :: 0 <= k < n ==> replies[k].NoObject?
    ensures Current(replies, n) == "PENDING" && !LastBody(replies, n).manifest && !LastBody(replies, n).llmUsed
  {
    if n > 0 {
      NothingRead(replies, n - 1);
    }
  }

  /** The states told, from the first answer to the last; one that is missing is PENDING. */
  function StatesTold(replies: seq<Response>): seq<string> {
    if replies == [] then []
    else
      match replies[0]
      case NoObject => StatesTold(replies[1..])
      case Object(body) => [if body.state == "" then "PENDING" else body.state] + StatesTold(replies[1..])
  }

  /** The stages told, by the answers that have one. */
  function StagesTold(replies: seq<Response>): seq<string> {
    if replies == [] then []
    else
      match replies[0]
      case NoObject => StagesTold(replies[1..])
      case Object(body) => (if body.stage == "" then [] else [body.stage]) + StagesTold(replies[1..])
  }

  lemma {:induction false} StatesConcat(a: seq<Response>, b: seq<Response>)
    ensures StatesTold(a + b) == StatesTold(a) + StatesTold(b)
  {
    if a == [] {
      assert a + b == b;
    } else {
      assert (a + b)[0] == a[0] && (a + b)[1..] == a[1..] + b;
      StatesConcat(a[1..], b);
    }
  }

  lemma {:induction false} StagesConcat(a: seq<Response>, b: seq<Response>)
    ensures StagesTold(a + b) == StagesTold(a) + StagesTold(b)
  {
    if a == [] {
      assert a + b == b;
    } else {
      assert (a + b)[0] == a[0] && (a + b)[1..] == a[1..] + b;
      StagesConcat(a[1..], b);
    }
  }

  /** What is read is what was told. */
  lemma {:induction false} ReadAsTold(replies: seq<Response>, n: nat)
    requires n <= |replies|
    ensures States(replies, n) == StatesTold(replies[..n]) && Stages(replies, n) == StagesTold(replies[..n])
  {
    if n > 0 {
      var last := replies[n - 1];
      ReadAsTold(replies, n - 1);
      assert replies[..n] == replies[..n - 1] + [last] && [last][1..] == [];
      StatesConcat(replies[..n - 1], [last]);
      StagesConcat(replies[..n - 1], [last]);
    }
  }

  /** The current state is the last one read. */
  lemma {:induction false} CurrentIsLast(replies: seq<Response>, n: nat)
    requires n <= |replies|
    ensures var s := States(replies, n);
            Current(replies, n) == if s == [] then PENDING else s[|s| - 1]
  {
    if n > 0 {
      CurrentIsLast(replies, n - 1);
    }
  }

  /** Answers without a state, such as JSON error bodies, leave the state at PENDING, so that an
      accepted job polled in vain is reported as never consumed. */
  lemma {:induction false} ErrorsReadPending(replies: seq<Response>, n: nat)
    requires n <= |replies| && forall i :: 0 <= i < n ==> replies[i].Object? ==> replies[i].body.state == ""
    ensures Current(replies, n) == PENDING && forall s :: s in States(replies, n) ==> s == PENDING
  {
    if n > 0 {
      ErrorsReadPending(replies, n - 1);
    }
  }

  /** For every submission and every trace: a job is accepted if the submission is answered with success
      and a job id, and is then polled until the first of SUCCESS, FAILURE and REVOKED or the end of the
      budget. It is revoked, once, exactly if none of the three was read. There is at most one finding,
      and exactly in these cases. */
  method Probe(sub: Submission, times: seq<real>, replies: seq<Response>, budget: real, expectLlm: bool)
    returns (findings: seq<Finding>, sent: seq<Request>, ghost n: nat)
    requires |times| == |replies| + 1 && times[|replies|] >= budget
    requires sub.ok ==> 200 <= sub.status < 300
    ensures Stops(times, replies, budget, n) && |findings| <= 1
    ensures var accepted, state, last := sub.ok && sub.jobId != "", Current(replies, n), LastBody(replies, n);
            var ended := state == "SUCCESS" || state == "FAILURE" || state == "REVOKED";
            (sent == [Submit] + (if accepted then Repeated(n) else []) + if accepted && !ended then [Revoke] else []) &&
            (findings == [] <==> accepted && state == "SUCCESS" && last.manifest && (expectLlm ==> last.llmUsed)) &&
            (findings == [Failed] <==> accepted && state == "FAILURE") &&
            (findings == [RevokedElsewhere] <==> accepted && state == "REVOKED") &&
            (findings == [RanWithoutLlm] <==> accepted && state == "SUCCESS" && expectLlm && !last.llmUsed) &&
            (findings == [NoManifest] <==>
             accepted && state == "SUCCESS" && (expectLlm ==> last.llmUsed) && !last.manifest) &&
            (findings == [NeverConsumed] <==> accepted && forall s :: s in States(replies, n) ==> s == "PENDING") &&
            (findings == [OverBudget] <==>
             accepted && !ended && exists s :: s in States(replies, n) && s != "PENDING") &&
            (findings == [NotEnabled] <==> sub.status == 503) && (findings == [RateLimited] <==> sub.status == 429) &&
            (findings == [SubmitFailed] <==> !accepted && sub.status != 503 && sub.status != 429)
  {
    var o;
    o, sent := Observe(sub, times, replies, budget);
    findings := Judge(o, expectLlm);
    n := Polls(times, replies, budget, 0);
    PollsStop(times, replies, budget);
    CollapseIs(States(replies, n));
    CurrentIsLast(replies, n);
    if sub.ok && sub.jobId != "" {
      assert o.states == Collapse(States(replies, n));
      if States(replies, n) != [] {
        assert Current(replies, n) in States(replies, n);
      }
    }
  }
}
