/**
 * The call wrapper of app.py, call_hf_text2image: one post per attempt, the
 * response classified as an image, a "warming up" answer to wait for, or an
 * error, and at most max_retries attempts.
 *
 * The network is a sequence of replies, one per post, in order; sleeping is
 * recorded as a log of durations in seconds.
 */
module Inference {
  import opened Wrappers
  import opened Payload

  newtype byte = x: int | 0 <= x < 256

  /** What a transient response's body says about the wait, once decoded: a
      number under estimated_time, or nothing usable (not JSON, not an object,
      or no such key). */
  datatype Estimate = NoEstimate | EstimatedSeconds(seconds: int)

  /** An HTTP response: status, the content-type header if sent, the raw body,
      and the body's wait estimate. */
  datatype Response = Response(
    status: int,
    contentType: Option<string>,
    content: seq<byte>,
    estimate: Estimate)

  /** The outcome of one post: a response, or a failure below HTTP (connection
      refused, timeout), which the source lets propagate. */
  datatype Reply = Answered(response: Response) | ConnectionFailed

  /** The result of a call: the image bytes, or one of the failures it raises. */
  datatype Outcome =
    | Image(content: seq<byte>)
    | ApiError(status: int, contentType: string)
    | RetriesExhausted
    | NetworkError

  /** What one attempt leads to: stop with an outcome, or sleep and try again. */
  datatype Step = Finish(outcome: Outcome) | Retry(seconds: int)

  /** Everything a call does, as seen from outside: its outcome, the number of
      posts and the sleeps, in order. */
  datatype Trace = Trace(outcome: Outcome, posts: nat, sleeps: seq<int>)

  /** max_retries when the caller gives none; the page itself passes 4. */
  const DEFAULT_MAX_RETRIES: int := 3
  const DEFAULT_ESTIMATE: int := 10
  const MIN_WAIT: int := 3
  const MAX_WAIT: int := 30
  const IMAGE_PREFIX: string := "image/"

  predicate StartsWith(s: string, prefix: string) {
    |prefix| <= |s| && s[..|prefix|] == prefix
  }

  /** The content-type header, "" when absent. */
  function ContentType(r: Response): string {
    r.contentType.GetOr("")
  }

  /** Success: status 200 with an image content type. */
  predicate IsImage(r: Response) {
    r.status == 200 && StartsWith(ContentType(r), IMAGE_PREFIX)
  }

  /** The model is still loading: 503 or 504. */
  predicate IsWarmingUp(r: Response) {
    r.status == 503 || r.status == 504
  }

  /** A reply the loop sleeps on and retries. */
  predicate Transient(reply: Reply) {
    reply.Answered? && IsWarmingUp(reply.response)
  }

  /** The estimate a reply carries, none for a failed connection. */
  function EstimateOf(reply: Reply): Estimate {
    if reply.Answered? then reply.response.estimate else NoEstimate
  }

  /** The wait before the next attempt: the estimate (10 when there is none)
      clamped to [3, 30]. */
  function Backoff(est: Estimate): (wait: int)
    ensures MIN_WAIT <= wait <= MAX_WAIT
    ensures est.NoEstimate? ==> wait == DEFAULT_ESTIMATE
    ensures est.EstimatedSeconds? ==>
              wait == (if est.seconds < MIN_WAIT then MIN_WAIT
                       else if est.seconds > MAX_WAIT then MAX_WAIT
                       else est.seconds)
  {
    var e := match est
             case NoEstimate => DEFAULT_ESTIMATE
             case EstimatedSeconds(s) => s;
    Min(Max(e, MIN_WAIT), MAX_WAIT)
  }

  function Min(a: int, b: int): int { if a <= b then a else b }
  function Max(a: int, b: int): int { if a >= b then a else b }

  /**
   * Classification of one reply, in the source's order: an image ends the call
   * with its body; 503/504 means sleep and retry; anything else, a 200 with
   * another content type included, ends it with an error carrying status and
   * content type; a failed connection ends it with a network error.
   */
  function Classify(reply: Reply): (step: Step)
    ensures step.Retry? <==> Transient(reply)
    ensures step.Retry? ==> step.seconds == Backoff(reply.response.estimate)
    ensures step == Finish(NetworkError) <==> reply.ConnectionFailed?
    ensures step.Finish? && step.outcome.Image? <==> reply.Answered? && IsImage(reply.response)
    ensures step.Finish? && step.outcome.Image? ==> step.outcome.content == reply.response.content
    ensures step.Finish? && step.outcome.ApiError? <==>
              reply.Answered? && !IsImage(reply.response) && !IsWarmingUp(reply.response)
    ensures step.Finish? && step.outcome.ApiError? ==>
              step.outcome.status == reply.response.status &&
              step.outcome.contentType == ContentType(reply.response)
    ensures step != Finish(RetriesExhausted)
  {
    match reply
    case ConnectionFailed => Finish(NetworkError)
    case Answered(r) =>
      if IsImage(r) then Finish(Image(r.content))
      else if IsWarmingUp(r) then Retry(Backoff(r.estimate))
      else Finish(ApiError(r.status, ContentType(r)))
  }

  /**
   * The retry policy as a reference definition: with `budget` attempts left,
   * classify the next reply; a retry costs one attempt and one sleep, and no
   * attempts left means the retries are exhausted.
   */
  function Retrying(replies: seq<Reply>, budget: int): Trace
    requires budget <= |replies|
    decreases budget
  {
    if budget <= 0 then Trace(RetriesExhausted, 0, [])
    else
      match Classify(replies[0])
      case Finish(outcome) => Trace(outcome, 1, [])
      case Retry(wait) =>
        var rest := Retrying(replies[1..], budget - 1);
        Trace(rest.outcome, rest.posts + 1, [wait] + rest.sleeps)
  }

  /**
   * The whole behaviour of the policy: when the first k replies are transient
   * and either k uses up the budget or reply k is not transient, the call posts
   * k + 1 times (budget times when exhausted), sleeps Backoff of each of the
   * first k replies in order, and ends with reply k's outcome or with
   * exhausted retries.
   */
  lemma {:induction false} RetryingShape(replies: seq<Reply>, budget: int, k: nat)
    requires budget <= |replies|
    requires k <= budget || (budget <= 0 && k == 0)
    requires forall i :: 0 <= i < k ==> Transient(replies[i])
    requires k < budget ==> !Transient(replies[k])
    ensures var t := Retrying(replies, budget);
            && t.posts == (if k < budget then k + 1 else k)
            && |t.sleeps| == k
            && (forall i :: 0 <= i < k ==> t.sleeps[i] == Backoff(EstimateOf(replies[i])))
            && t.outcome == (if k < budget then Classify(replies[k]).outcome else RetriesExhausted)
    decreases k
  {
    if k == 0 {
      assert budget > 0 ==> !Transient(replies[0]);
    } else {
      assert Transient(replies[0]);
      var rest := replies[1..];
      forall i | 0 <= i < k - 1 ensures Transient(rest[i]) {
        assert rest[i] == replies[i + 1];
      }
      if k - 1 < budget - 1 {
        assert rest[k - 1] == replies[k];
      }
      RetryingShape(rest, budget - 1, k - 1);
      var t := Retrying(rest, budget - 1);
      var wait := Backoff(replies[0].response.estimate);
      assert Retrying(replies, budget).sleeps == [wait] + t.sleeps;
      forall i | 0 <= i < k
        ensures Retrying(replies, budget).sleeps[i] == Backoff(EstimateOf(replies[i]))
      {
        if i > 0 {
          assert rest[i - 1] == replies[i];
        }
      }
    }
  }

  /** Every recorded sleep lies in [3, 30], and there is one sleep per post
      except for the post that ended the call. */
  lemma {:induction false} SleepsClampedAndCounted(replies: seq<Reply>, budget: int)
    requires budget <= |replies|
    ensures var t := Retrying(replies, budget);
            && (forall i :: 0 <= i < |t.sleeps| ==> MIN_WAIT <= t.sleeps[i] <= MAX_WAIT)
            && t.posts == |t.sleeps| + (if t.outcome == RetriesExhausted then 0 else 1)
            && t.posts <= Max(budget, 0)
            && (t.posts == 0 <==> budget <= 0)
    decreases budget
  {
    if budget > 0 && Classify(replies[0]).Retry? {
      SleepsClampedAndCounted(replies[1..], budget - 1);
    }
  }

  /** Retries run out only when every one of the budget's replies was transient;
      then there are exactly budget posts and budget sleeps. */
  lemma {:induction false} ExhaustedIffAllTransient(replies: seq<Reply>, budget: int)
    requires budget <= |replies|
    ensures Retrying(replies, budget).outcome == RetriesExhausted <==>
              forall i :: 0 <= i < budget ==> Transient(replies[i])
    ensures (forall i :: 0 <= i < budget ==> Transient(replies[i])) ==>
              Retrying(replies, budget).posts == Max(budget, 0) &&
              |Retrying(replies, budget).sleeps| == Max(budget, 0)
    decreases budget
  {
    if budget > 0 {
      if Transient(replies[0]) {
        ExhaustedIffAllTransient(replies[1..], budget - 1);
        var rest := replies[1..];
        if forall i :: 0 <= i < budget - 1 ==> Transient(rest[i]) {
          forall i | 0 <= i < budget ensures Transient(replies[i]) {
            if i > 0 { assert replies[i] == rest[i - 1]; }
          }
        } else {
          var j :| 0 <= j < budget - 1 && !Transient(rest[j]);
          assert !Transient(replies[j + 1]);
        }
        if forall i :: 0 <= i < budget ==> Transient(replies[i]) {
          forall i | 0 <= i < budget - 1 ensures Transient(rest[i]) {
            assert rest[i] == replies[i + 1];
          }
        }
      }
    }
  }

  /** The first image answer that follows only transient replies is returned,
      with no post and no sleep after it. */
  lemma {:induction false} FirstImageIsReturned(replies: seq<Reply>, budget: int, k: nat)
    requires k < budget <= |replies|
    requires forall i :: 0 <= i < k ==> Transient(replies[i])
    requires replies[k].Answered? && IsImage(replies[k].response)
    ensures Retrying(replies, budget).outcome == Image(replies[k].response.content)
    ensures Retrying(replies, budget).posts == k + 1
    ensures |Retrying(replies, budget).sleeps| == k
  {
    RetryingShape(replies, budget, k);
  }

  /** A first reply that is neither an image nor transient fails the call at
      once: one post, no sleep, its status and content type reported. */
  lemma NonRetryableFailsAtOnce(replies: seq<Reply>, budget: int)
    requires 1 <= budget <= |replies|
    requires replies[0].Answered?
    requires !IsImage(replies[0].response) && !IsWarmingUp(replies[0].response)
    ensures Retrying(replies, budget) ==
              Trace(ApiError(replies[0].response.status, ContentType(replies[0].response)), 1, [])
  {
  }

  /** No budget, no post. */
  lemma NoBudgetNoPost(replies: seq<Reply>, budget: int)
    requires budget <= 0
    ensures Retrying(replies, budget) == Trace(RetriesExhausted, 0, [])
  {
  }

  /** Cold-start scenarios: two warm-ups then an image; a 200 text
      answer; two warm-ups with a budget of two. */
  lemma {:induction false} ColdStartScenarios(body: seq<byte>)
    ensures var replies := [
              Answered(Response(503, None, [], EstimatedSeconds(2))),
              Answered(Response(503, None, [], NoEstimate)),
              Answered(Response(200, Some("image/png"), body, NoEstimate))];
            Retrying(replies, 3) == Trace(Image(body), 3, [3, 10])
    ensures var replies := [Answered(Response(200, Some("text/plain"), body, NoEstimate))];
            Retrying(replies, 1) == Trace(ApiError(200, "text/plain"), 1, [])
    ensures var replies := [
              Answered(Response(503, None, [], NoEstimate)),
              Answered(Response(504, None, [], EstimatedSeconds(45)))];
            Retrying(replies, 2) == Trace(RetriesExhausted, 2, [10, 30])
  {
    assert StartsWith("image/png", IMAGE_PREFIX);
    assert !StartsWith("text/plain", IMAGE_PREFIX) by {
      assert "text/plain"[..|IMAGE_PREFIX|] != IMAGE_PREFIX by {
        assert "text/plain"[0] != IMAGE_PREFIX[0];
      }
    }
    var r3 := [
      Answered(Response(503, None, [], EstimatedSeconds(2))),
      Answered(Response(503, None, [], NoEstimate)),
      Answered(Response(200, Some("image/png"), body, NoEstimate))];
    assert r3[1..][1..] == [r3[2]];
    var r2 := [
      Answered(Response(503, None, [], NoEstimate)),
      Answered(Response(504, None, [], EstimatedSeconds(45)))];
    assert r2[1..][1..] == [];
  }

  /**
   * call_hf_text2image: build the payload once, then for each attempt post it,
   * return the image, sleep and continue on 503/504, or fail; after the last
   * attempt fail with exhausted retries. `sent` lists the payloads posted, one
   * per attempt; `sleeps` the durations slept.
   */
  method CallTextToImage(req: Request, maxRetries: int, replies: seq<Reply>)
    returns (outcome: Outcome, sent: seq<Json>, sleeps: seq<int>)
    requires maxRetries <= |replies|
    ensures Retrying(replies, maxRetries) == Trace(outcome, |sent|, sleeps)
    ensures forall i :: 0 <= i < |sent| ==> PayloadFor(sent[i], req)
  {
    var payload := BuildPayload(req);
    sent, sleeps := [], [];
    var attempt := 0;
    while attempt < maxRetries
      invariant 0 <= attempt <= Max(maxRetries, 0)
      invariant |sent| == attempt && |sleeps| == attempt
      invariant forall i :: 0 <= i < attempt ==> Transient(replies[i])
      invariant forall i :: 0 <= i < attempt ==> sleeps[i] == Backoff(EstimateOf(replies[i]))
      invariant forall i :: 0 <= i < |sent| ==> sent[i] == payload
    {
      var reply := replies[attempt];
      sent := sent + [payload];
      if reply.ConnectionFailed? {
        outcome := NetworkError;
        RetryingShape(replies, maxRetries, attempt);
        return;
      }
      var r := reply.response;
      var ctype := ContentType(r);
      if r.status == 200 && StartsWith(ctype, IMAGE_PREFIX) {
        outcome := Image(r.content);
        RetryingShape(replies, maxRetries, attempt);
        return;
      }
      if r.status == 503 || r.status == 504 {
        sleeps := sleeps + [Backoff(r.estimate)];
        attempt := attempt + 1;
        continue;
      }
      outcome := ApiError(r.status, ctype);
      RetryingShape(replies, maxRetries, attempt);
      return;
    }
    outcome := RetriesExhausted;
    RetryingShape(replies, maxRetries, attempt);
  }
}
