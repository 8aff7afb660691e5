/** `LLMGatewayClient` of `gateway.py`: retries and schema downgrade on a route, fallback across routes. */
module Gateway {
  import opened Common

  /** What one HTTP post meets. */
  datatype Reply =
    | TimedOut
    | TransportFailed
    | Status(code: int, mentionsSchema: bool)  // an error status; the text names a schema feature
    | Malformed                                // not JSON, or a missing or mistyped field
    | NoChoices                                // an empty `choices` list: an IndexError no handler catches
    | NotText
    | Blank
    | Completion(text: string)

  datatype Schema = NoSchema | AnyObject | Strict
  datatype Mode = Unstructured | JsonObject | JsonSchema

  datatype Error =
    | Timeout
    | HttpError(status: int, schemaUnsupported: bool)
    | BadCompletion
    | NoCompatibleFallback(cause: Error)

  datatype CallResult =
    | Answered(text: string, mode: Mode, downgraded: bool)
    | Fallbackable(error: Error)
    | Fatal(error: Error)
    | Crashed

  /** One route's call: how it ends, and the response format of each post made. */
  datatype Run = Run(result: CallResult, posts: seq<Mode>)

  function InitialMode(schema: Schema): Mode {
    match schema case NoSchema => Unstructured case AnyObject => JsonObject case Strict => JsonSchema
  }

  predicate NamesUnsupportedSchema(reply: Reply) {
    reply.Status? && reply.code == 400 && reply.mentionsSchema
  }

  predicate IsDowngrade(reply: Reply, mode: Mode, downgraded: bool) {
    mode.JsonSchema? && !downgraded && NamesUnsupportedSchema(reply)
  }

  /** The failures that are worth a retry: transport failures, 408, 429 and server errors other than 503. */
  predicate IsRetryable(reply: Reply) {
    || reply.TimedOut? || reply.TransportFailed?
    || (reply.Status? && (reply.code == 408 || reply.code == 429 || reply.code >= 500) && reply.code != 503)
  }

  predicate IsFallbackStatus(code: int) {
    code in {400, 404, 408, 409, 429} || code >= 500
  }

  /** The result when `reply` is the last one of a call. */
  function Classify(reply: Reply, mode: Mode, downgraded: bool): CallResult {
    match reply
    case TimedOut => Fallbackable(Timeout)
    case TransportFailed => Fallbackable(Timeout)
    case Status(code, _) =>
      var error := HttpError(code, NamesUnsupportedSchema(reply));
      if IsFallbackStatus(code) then Fallbackable(error) else Fatal(error)
    case Malformed => Fallbackable(BadCompletion)
    case NoChoices => Crashed
    case NotText => Fallbackable(BadCompletion)
    case Blank => Fallbackable(BadCompletion)
    case Completion(text) => Answered(text, mode, downgraded)
  }

  /** The loop of `_call_model`, from post number `n` on. */
  function CallFrom(maxRetries: nat, replies: nat -> Reply, n: nat, retries: nat, mode: Mode,
                    downgraded: bool): (run: Run)
    requires retries <= maxRetries
    ensures run.posts != [] && run.posts[0] == mode
    decreases maxRetries - retries, if downgraded then 0 else 1
  {
    var reply := replies(n);
    if IsDowngrade(reply, mode, downgraded) then
      var rest := CallFrom(maxRetries, replies, n + 1, retries, JsonObject, true);
      rest.(posts := [mode] + rest.posts)
    else if IsRetryable(reply) && retries < maxRetries then
      var rest := CallFrom(maxRetries, replies, n + 1, retries + 1, mode, downgraded);
      rest.(posts := [mode] + rest.posts)
    else Run(Classify(reply, mode, downgraded), [mode])
  }

  function Call(maxRetries: nat, schema: Schema, replies: nat -> Reply): Run {
    CallFrom(maxRetries, replies, 0, 0, InitialMode(schema), false)
  }

  class LLMGatewayClient {
    const maxRetries: nat
    var posts: seq<(nat, Mode)>   // every post made, with its route
    var lastRoute: Option<nat>

    constructor (maxRetries: nat)
      ensures this.maxRetries == maxRetries && posts == [] && lastRoute.None?
    {
      this.maxRetries := maxRetries;
      posts, lastRoute := [], None;
    }

    /** `_call_model` on one route. */
    method CallModel(route: nat, schema: Schema, replies: nat -> Reply) returns (result: CallResult)
      modifies this`posts
      ensures var run := Call(maxRetries, schema, replies);
        result == run.result && posts == old(posts) + OnRoute(route, run.posts)
    {
      var mode := InitialMode(schema);
      var downgraded := false;
      var retryAttempt := 0;
      var callCount := 0;
      ghost var run := Call(maxRetries, schema, replies);
      ghost var sent: seq<Mode> := [];
      while true
        invariant retryAttempt <= maxRetries && callCount == |sent|
        invariant posts == old(posts) + OnRoute(route, sent)
        invariant var rest := CallFrom(maxRetries, replies, callCount, retryAttempt, mode, downgraded);
          run.result == rest.result && run.posts == sent + rest.posts
        decreases maxRetries - retryAttempt, if downgraded then 0 else 1
      {
        var reply := replies(callCount);
        posts := posts + [(route, mode)];
        ghost var before := sent;
        sent := sent + [mode];
        OnRouteConcat(route, before, [mode]);
        callCount := callCount + 1;
        if mode.JsonSchema? && !downgraded && NamesUnsupportedSchema(reply) {
          mode, downgraded := JsonObject, true;
        } else if IsRetryable(reply) && retryAttempt < maxRetries {
          retryAttempt := retryAttempt + 1;
        } else {
          return Classify(reply, mode, downgraded);
        }
        ConcatIsAssociative(before, sent[|before|..],
                            CallFrom(maxRetries, replies, callCount, retryAttempt, mode, downgraded).posts);
      }
    }

    /** `chat` once its routes are resolved: routes are tried in order, the first success is returned. */
    method Chat(routes: nat, schema: Schema, replies: (nat, nat) -> Reply) returns (result: ChatResult)
      requires routes >= 1
      modifies this
      ensures result == ChatFrom(maxRetries, routes, schema, replies, 0)
      ensures var last := LastRoute(maxRetries, routes, schema, replies, 0);
        posts == old(posts) + PostsUpTo(maxRetries, schema, replies, last + 1) && lastRoute == Some(last)
    {
      var lastError := Timeout;
      for route := 0 to routes
        invariant OnTheWay(maxRetries, routes, schema, replies, route, lastError)
        invariant posts == old(posts) + PostsUpTo(maxRetries, schema, replies, route)
        invariant route > 0 ==> lastRoute == Some(route - 1)
      {
        var called := CallRoute(route, schema, replies, old(posts));
        NextRoute(maxRetries, routes, schema, replies, route, lastError, called);
        if !called.Fallbackable? {
          return AsChat(called, route);
        }
        lastError := called.error;
      }
      result := Raised(FinalError(routes, schema, lastError));
    }

    /** One route of the loop; `before` is what was posted before `chat` was called. */
    method CallRoute(route: nat, schema: Schema, replies: (nat, nat) -> Reply, ghost before: seq<(nat, Mode)>)
      returns (called: CallResult)
      requires posts == before + PostsUpTo(maxRetries, schema, replies, route)
      modifies this
      ensures called == RunOf(maxRetries, schema, replies, route).result
      ensures posts == before + PostsUpTo(maxRetries, schema, replies, route + 1) && lastRoute == Some(route)
    {
      lastRoute := Some(route);
      ghost var run := RunOf(maxRetries, schema, replies, route);
      ConcatIsAssociative(before, PostsUpTo(maxRetries, schema, replies, route), OnRoute(route, run.posts));
      called := CallModel(route, schema, OnRouteReplies(replies, route));
    }
  }

  /** The first `route` routes have failed in ways that allow fallback, the last of them with `lastError`. */
  ghost predicate OnTheWay(maxRetries: nat, routes: nat, schema: Schema, replies: (nat, nat) -> Reply,
                           route: nat, lastError: Error)
    requires route <= routes && routes >= 1
  {
    && ChatFrom(maxRetries, routes, schema, replies, 0) ==
         (if route < routes then ChatFrom(maxRetries, routes, schema, replies, route)
          else Raised(FinalError(routes, schema, lastError)))
    && LastRoute(maxRetries, routes, schema, replies, 0) ==
         (if route < routes then LastRoute(maxRetries, routes, schema, replies, route) else routes - 1)
  }

  lemma NextRoute(maxRetries: nat, routes: nat, schema: Schema, replies: (nat, nat) -> Reply,
                  route: nat, lastError: Error, called: CallResult)
    requires route < routes && OnTheWay(maxRetries, routes, schema, replies, route, lastError)
    requires called == RunOf(maxRetries, schema, replies, route).result
    ensures called.Fallbackable? ==> OnTheWay(maxRetries, routes, schema, replies, route + 1, called.error)
    ensures !called.Fallbackable? ==>
      && ChatFrom(maxRetries, routes, schema, replies, 0) == AsChat(called, route)
      && LastRoute(maxRetries, routes, schema, replies, 0) == route
  {
  }

  /** What `chat` does with a call that allows no fallback. */
  function AsChat(called: CallResult, route: nat): ChatResult
    requires !called.Fallbackable?
  {
    match called
    case Answered(text, mode, downgraded) => Replied(text, mode, downgraded, route)
    case Fatal(error) => Raised(error)
    case Crashed => Escaped
  }

  datatype ChatResult =
    | Replied(text: string, mode: Mode, downgraded: bool, route: nat)
    | Raised(error: Error)
    | Escaped

  function OnRoute(route: nat, modes: seq<Mode>): (r: seq<(nat, Mode)>)
    ensures |r| == |modes|
  {
    if modes == [] then [] else [(route, modes[0])] + OnRoute(route, modes[1..])
  }

  lemma {:induction false} OnRouteConcat(route: nat, a: seq<Mode>, b: seq<Mode>)
    ensures OnRoute(route, a + b) == OnRoute(route, a) + OnRoute(route, b)
  {
    if a == [] {
      assert a + b == b;
    } else {
      assert (a + b)[1..] == a[1..] + b;
      OnRouteConcat(route, a[1..], b);
    }
  }

  function OnRouteReplies(replies: (nat, nat) -> Reply, route: nat): nat -> Reply {
    (n: nat) => replies(route, n)
  }

  function RunOf(maxRetries: nat, schema: Schema, replies: (nat, nat) -> Reply, route: nat): Run {
    Call(maxRetries, schema, OnRouteReplies(replies, route))
  }

  function PostsUpTo(maxRetries: nat, schema: Schema, replies: (nat, nat) -> Reply, routes: nat): seq<(nat, Mode)> {
    if routes == 0 then []
    else
      PostsUpTo(maxRetries, schema, replies, routes - 1)
      + OnRoute(routes - 1, RunOf(maxRetries, schema, replies, routes - 1).posts)
  }

  /** The error raised when every route failed. */
  function FinalError(routes: nat, schema: Schema, lastError: Error): Error {
    if schema.Strict? && routes == 1 then
      if lastError.BadCompletion?
         || (lastError.HttpError? && !(lastError.schemaUnsupported || lastError.status == 404))
      then lastError
      else NoCompatibleFallback(lastError)
    else lastError
  }

  /** The route loop of `chat`, from `route` on. */
  function ChatFrom(maxRetries: nat, routes: nat, schema: Schema, replies: (nat, nat) -> Reply, route: nat): ChatResult
    requires route < routes
    decreases routes - route
  {
    match RunOf(maxRetries, schema, replies, route).result
    case Answered(text, mode, downgraded) => Replied(text, mode, downgraded, route)
    case Fatal(error) => Raised(error)
    case Crashed => Escaped
    case Fallbackable(error) =>
      if route + 1 < routes then ChatFrom(maxRetries, routes, schema, replies, route + 1)
      else Raised(FinalError(routes, schema, error))
  }

  /** The last route that is called. */
  function LastRoute(maxRetries: nat, routes: nat, schema: Schema, replies: (nat, nat) -> Reply, route: nat): (r: nat)
    requires route < routes
    ensures route <= r < routes
    decreases routes - route
  {
    if RunOf(maxRetries, schema, replies, route).result.Fallbackable? && route + 1 < routes
    then LastRoute(maxRetries, routes, schema, replies, route + 1) else route
  }

  // ---------------------------------------------------------------------------
  // Bounds on a route
  // ---------------------------------------------------------------------------

  /** How many of the replies `n..n + m` are retryable failures. */
  function RetryableAmong(replies: nat -> Reply, n: nat, m: nat): nat
    decreases m
  {
    if m == 0 then 0 else (if IsRetryable(replies(n)) then 1 else 0) + RetryableAmong(replies, n + 1, m - 1)
  }

  function ModeChanges(posts: seq<Mode>): nat {
    if |posts| < 2 then 0 else (if posts[0] != posts[1] then 1 else 0) + ModeChanges(posts[1..])
  }

  lemma ConsBounds(replies: nat -> Reply, n: nat, mode: Mode, rest: seq<Mode>)
    requires rest != []
    ensures var posts := [mode] + rest;
      && ModeChanges(posts) == (if mode != rest[0] then 1 else 0) + ModeChanges(rest)
      && RetryableAmong(replies, n, |posts| - 1) ==
           (if IsRetryable(replies(n)) then 1 else 0) + RetryableAmong(replies, n + 1, |rest| - 1)
      && posts[0] == mode && forall i :: 0 < i < |posts| ==> posts[i] == rest[i - 1]
  {
    assert ([mode] + rest)[1..] == rest;
  }

  /** A call's posts are paid for, by retries or by the one downgrade; a retryable end means no retry is left. */
  predicate PaidFor(maxRetries: nat, replies: nat -> Reply, n: nat, retries: nat, posts: seq<Mode>)
    requires posts != []
  {
    var last := |posts| - 1;
    && ModeChanges(posts) <= (if posts[0].JsonSchema? then 1 else 0)
    && last == RetryableAmong(replies, n, last) + ModeChanges(posts)
    && retries + RetryableAmong(replies, n, last) <= maxRetries
    && (IsRetryable(replies(n + last)) ==> retries + RetryableAmong(replies, n, last) == maxRetries)
  }

  lemma PaidForOneMore(maxRetries: nat, replies: nat -> Reply, n: nat, retries: nat, mode: Mode, rest: seq<Mode>)
    requires rest != []
    requires
      || (mode == rest[0] && IsRetryable(replies(n)) && PaidFor(maxRetries, replies, n + 1, retries + 1, rest))
      || (mode.JsonSchema? && !rest[0].JsonSchema? && !IsRetryable(replies(n))
           && PaidFor(maxRetries, replies, n + 1, retries, rest))
    ensures PaidFor(maxRetries, replies, n, retries, [mode] + rest)
  {
    ConsBounds(replies, n, mode, rest);
    assert n + 1 + (|rest| - 1) == n + (|[mode] + rest| - 1);
  }

  lemma {:induction false} PostsArePaidFor(maxRetries: nat, replies: nat -> Reply, n: nat, retries: nat, mode: Mode,
                                           downgraded: bool)
    requires retries <= maxRetries && (downgraded ==> !mode.JsonSchema?)
    ensures PaidFor(maxRetries, replies, n, retries, CallFrom(maxRetries, replies, n, retries, mode, downgraded).posts)
    decreases maxRetries - retries, if downgraded then 0 else 1
  {
    var reply := replies(n);
    if IsDowngrade(reply, mode, downgraded) {
      PostsArePaidFor(maxRetries, replies, n + 1, retries, JsonObject, true);
      PaidForOneMore(maxRetries, replies, n, retries, mode,
                     CallFrom(maxRetries, replies, n + 1, retries, JsonObject, true).posts);
    } else if IsRetryable(reply) && retries < maxRetries {
      PostsArePaidFor(maxRetries, replies, n + 1, retries + 1, mode, downgraded);
      PaidForOneMore(maxRetries, replies, n, retries, mode,
                     CallFrom(maxRetries, replies, n + 1, retries + 1, mode, downgraded).posts);
    }
  }

  predicate Decides(reply: Reply, mode: Mode, result: CallResult) {
    result == Classify(reply, mode, false) || result == Classify(reply, mode, true)
  }

  /** What the posts but the last met, and what the last one decides. */
  lemma {:induction false} LastReplyDecides(maxRetries: nat, replies: nat -> Reply, n: nat, retries: nat, mode: Mode,
                                            downgraded: bool)
    requires retries <= maxRetries
    ensures var run := CallFrom(maxRetries, replies, n, retries, mode, downgraded);
      var last := |run.posts| - 1;
      && (forall i :: n <= i < n + last ==> IsRetryable(replies(i)) || NamesUnsupportedSchema(replies(i)))
      && Decides(replies(n + last), run.posts[last], run.result)
    decreases maxRetries - retries, if downgraded then 0 else 1
  {
    var reply := replies(n);
    var run := CallFrom(maxRetries, replies, n, retries, mode, downgraded);
    if IsDowngrade(reply, mode, downgraded) {
      LastReplyDecides(maxRetries, replies, n + 1, retries, JsonObject, true);
      var rest := CallFrom(maxRetries, replies, n + 1, retries, JsonObject, true);
      assert run.posts[|run.posts| - 1] == rest.posts[|rest.posts| - 1];
      assert n + (|run.posts| - 1) == n + 1 + (|rest.posts| - 1);
    } else if IsRetryable(reply) && retries < maxRetries {
      LastReplyDecides(maxRetries, replies, n + 1, retries + 1, mode, downgraded);
      var rest := CallFrom(maxRetries, replies, n + 1, retries + 1, mode, downgraded);
      assert run.posts[|run.posts| - 1] == rest.posts[|rest.posts| - 1];
      assert n + (|run.posts| - 1) == n + 1 + (|rest.posts| - 1);
    }
  }

  /**
   * A route makes at most `maxRetries + 2` posts, one downgrade included, and a call that ends on a
   * retryable failure has used up its retries.
   */
  lemma RouteBounds(maxRetries: nat, schema: Schema, replies: nat -> Reply)
    ensures var posts := Call(maxRetries, schema, replies).posts;
      var last := |posts| - 1;
      && 1 <= |posts| <= maxRetries + 1 + ModeChanges(posts)
      && ModeChanges(posts) <= (if schema.Strict? then 1 else 0)
      && (IsRetryable(replies(last)) ==> RetryableAmong(replies, 0, last) == maxRetries)
  {
    PostsArePaidFor(maxRetries, replies, 0, 0, InitialMode(schema), false);
    var last := |Call(maxRetries, schema, replies).posts| - 1;
    assert replies(0 + last) == replies(last);
  }

  /** One refused schema, then nothing but timeouts. */
  function RefuseThenTimeOut(n: nat): Reply {
    if n == 0 then Status(400, true) else TimedOut
  }

  lemma {:induction false} TimeoutsUseUpRetries(maxRetries: nat, n: nat, retries: nat)
    requires retries <= maxRetries && n >= 1
    ensures var run := CallFrom(maxRetries, RefuseThenTimeOut, n, retries, JsonObject, true);
      |run.posts| == maxRetries - retries + 1 && run.result == Fallbackable(Timeout)
    decreases maxRetries - retries
  {
    if retries < maxRetries {
      TimeoutsUseUpRetries(maxRetries, n + 1, retries + 1);
    }
  }

  /** The bound on posts is reached, for every number of retries. */
  lemma RouteBoundIsReached(maxRetries: nat)
    ensures |Call(maxRetries, Strict, RefuseThenTimeOut).posts| == maxRetries + 2
  {
    assert RefuseThenTimeOut(0) == Status(400, true);
    TimeoutsUseUpRetries(maxRetries, 1, 0);
  }

  /**
   * Every post of a route but the last met a retryable failure or named an unsupported schema, so 503 is
   * never retried; and the last reply alone decides how the call ends.
   */
  lemma RouteEnds(maxRetries: nat, schema: Schema, replies: nat -> Reply)
    ensures var run := Call(maxRetries, schema, replies);
      var last := |run.posts| - 1;
      && (forall i :: 0 <= i < last ==> IsRetryable(replies(i)) || NamesUnsupportedSchema(replies(i)))
      && (forall i :: 0 <= i < last ==> !(replies(i).Status? && replies(i).code == 503))
      && (run.result.Answered? <==> replies(last).Completion?)
      && (run.result.Crashed? <==> replies(last).NoChoices?)
      && (run.result.Fatal? <==> replies(last).Status? && !IsFallbackStatus(replies(last).code))
      && (IsRetryable(replies(last)) ==> run.result.Fallbackable?)
  {
    LastReplyDecides(maxRetries, replies, 0, 0, InitialMode(schema), false);
    var last := |Call(maxRetries, schema, replies).posts| - 1;
    assert replies(0 + last) == replies(last);
  }

  // ---------------------------------------------------------------------------
  // A route, reply by reply
  // ---------------------------------------------------------------------------

  /** Timeouts, transport failures, and the statuses 408, 429 and 5xx short of 503. */
  predicate WorthRetrying(reply: Reply) {
    match reply
    case TimedOut => true
    case TransportFailed => true
    case Status(code, _) => code == 408 || code == 429 || 500 <= code < 503 || code > 503
    case _ => false
  }

  /** A strict schema is refused. */
  predicate RefusesSchema(reply: Reply, mode: Mode) {
    mode == JsonSchema && reply == Status(400, true)
  }

  /** The error a status is reported as, and whether another route may be tried after it. */
  predicate EndsWithStatus(code: int, mentionsSchema: bool, result: CallResult) {
    result == if code == 400 || code == 404 || code == 408 || code == 409 || code == 429 || code >= 500
              then Fallbackable(HttpError(code, code == 400 && mentionsSchema)) else Fatal(HttpError(code, false))
  }

  /** What the last reply makes of the call. */
  predicate EndsWith(reply: Reply, mode: Mode, downgraded: bool, result: CallResult) {
    match reply
    case Completion(text) => result == Answered(text, mode, downgraded)
    case NoChoices => result == Crashed
    case Status(code, mentionsSchema) => EndsWithStatus(code, mentionsSchema, result)
    case TimedOut => result == Fallbackable(Timeout)
    case TransportFailed => result == Fallbackable(Timeout)
    case _ => result == Fallbackable(BadCompletion)
  }

  function Downgrades(posts: seq<Mode>): nat {
    if posts != [] && posts[0] != posts[|posts| - 1] then 1 else 0
  }

  /** The posts of a run but the last, each followed by the next. */
  ghost predicate Steps(replies: nat -> Reply, n: nat, posts: seq<Mode>) {
    forall i :: 0 <= i < |posts| - 1 ==>
      if RefusesSchema(replies(n + i), posts[i]) then posts[i + 1] == JsonObject
      else WorthRetrying(replies(n + i)) && posts[i + 1] == posts[i]
  }

  /**
   * From post number `n` on: a post is followed by another exactly when its schema was refused, and then with the
   * schema dropped, or its reply is worth retrying and a retry is left; the last reply makes the result.
   */
  ghost predicate FollowsReplies(maxRetries: nat, replies: nat -> Reply, n: nat, retries: nat, downgraded: bool,
                                 run: Run) {
    var (posts, last) := (run.posts, |run.posts| - 1);
    && posts != []
    && Steps(replies, n, posts)
    && !RefusesSchema(replies(n + last), posts[last])
    && retries + last - Downgrades(posts) <= maxRetries
    && (WorthRetrying(replies(n + last)) ==> retries + last - Downgrades(posts) == maxRetries)
    && EndsWith(replies(n + last), posts[last], downgraded || Downgrades(posts) == 1, run.result)
  }

  lemma StepsOneMore(replies: nat -> Reply, n: nat, mode: Mode, rest: seq<Mode>)
    requires rest != [] && Steps(replies, n + 1, rest)
    requires if RefusesSchema(replies(n), mode) then rest[0] == JsonObject
             else WorthRetrying(replies(n)) && rest[0] == mode
    ensures Steps(replies, n, [mode] + rest)
  {
    var posts := [mode] + rest;
    forall i | 0 <= i < |posts| - 1
      ensures if RefusesSchema(replies(n + i), posts[i]) then posts[i + 1] == JsonObject
              else WorthRetrying(replies(n + i)) && posts[i + 1] == posts[i]
    {
      if i > 0 {
        assert n + 1 + (i - 1) == n + i && posts[i] == rest[i - 1] && posts[i + 1] == rest[i - 1 + 1];
      }
    }
  }

  lemma DowngradesOneMore(mode: Mode, rest: seq<Mode>)
    requires rest != [] && (rest[0] == mode || Downgrades(rest) == 0)
    ensures Downgrades([mode] + rest) == Downgrades(rest) + if rest[0] == mode then 0 else 1
  {
    var posts := [mode] + rest;
    assert posts[|posts| - 1] == rest[|rest| - 1] && posts[0] == mode;
  }

  lemma FollowsOneMore(maxRetries: nat, replies: nat -> Reply, n: nat, retries: nat, downgraded: bool, mode: Mode,
                       rest: Run)
    requires rest.posts != [] && (downgraded ==> !mode.JsonSchema?)
    requires
      || (RefusesSchema(replies(n), mode) && rest.posts[0] == JsonObject && Downgrades(rest.posts) == 0
           && FollowsReplies(maxRetries, replies, n + 1, retries, true, rest))
      || (WorthRetrying(replies(n)) && !RefusesSchema(replies(n), mode) && rest.posts[0] == mode
           && FollowsReplies(maxRetries, replies, n + 1, retries + 1, downgraded, rest))
    ensures FollowsReplies(maxRetries, replies, n, retries, downgraded, rest.(posts := [mode] + rest.posts))
  {
    var posts := [mode] + rest.posts;
    assert posts[|posts| - 1] == rest.posts[|rest.posts| - 1];
    assert n + 1 + (|rest.posts| - 1) == n + (|posts| - 1);
    StepsOneMore(replies, n, mode, rest.posts);
    DowngradesOneMore(mode, rest.posts);
  }

  lemma {:induction false} PlainModeStays(maxRetries: nat, replies: nat -> Reply, n: nat, retries: nat, mode: Mode,
                                          downgraded: bool)
    requires retries <= maxRetries && !mode.JsonSchema?
    ensures Downgrades(CallFrom(maxRetries, replies, n, retries, mode, downgraded).posts) == 0
    decreases maxRetries - retries
  {
    if IsRetryable(replies(n)) && retries < maxRetries {
      PlainModeStays(maxRetries, replies, n + 1, retries + 1, mode, downgraded);
    }
  }

  lemma {:induction false} CallFromFollows(maxRetries: nat, replies: nat -> Reply, n: nat, retries: nat, mode: Mode,
                                           downgraded: bool)
    requires retries <= maxRetries && (downgraded ==> !mode.JsonSchema?)
    ensures FollowsReplies(maxRetries, replies, n, retries, downgraded,
                           CallFrom(maxRetries, replies, n, retries, mode, downgraded))
    decreases maxRetries - retries, if downgraded then 0 else 1
  {
    var reply := replies(n);
    if IsDowngrade(reply, mode, downgraded) {
      CallFromFollows(maxRetries, replies, n + 1, retries, JsonObject, true);
      PlainModeStays(maxRetries, replies, n + 1, retries, JsonObject, true);
      FollowsOneMore(maxRetries, replies, n, retries, downgraded, mode,
                     CallFrom(maxRetries, replies, n + 1, retries, JsonObject, true));
    } else if IsRetryable(reply) && retries < maxRetries {
      CallFromFollows(maxRetries, replies, n + 1, retries + 1, mode, downgraded);
      FollowsOneMore(maxRetries, replies, n, retries, downgraded, mode,
                     CallFrom(maxRetries, replies, n + 1, retries + 1, mode, downgraded));
    }
  }

  /** One route's call follows its replies; its first post asks for the format the schema calls for. */
  lemma CallFollowsReplies(maxRetries: nat, schema: Schema, replies: nat -> Reply)
    ensures var run := Call(maxRetries, schema, replies);
      && FollowsReplies(maxRetries, replies, 0, 0, false, run)
      && (run.posts[0].Unstructured? <==> schema.NoSchema?)
      && (run.posts[0].JsonObject? <==> schema.AnyObject?)
      && (run.posts[0].JsonSchema? <==> schema.Strict?)
  {
    CallFromFollows(maxRetries, replies, 0, 0, InitialMode(schema), false);
  }

  // ---------------------------------------------------------------------------
  // Fallback across routes
  // ---------------------------------------------------------------------------

  lemma {:induction false} ChatFromStops(maxRetries: nat, routes: nat, schema: Schema, replies: (nat, nat) -> Reply,
                                         route: nat)
    requires route < routes
    ensures var last := LastRoute(maxRetries, routes, schema, replies, route);
      && (forall r :: route <= r < last ==> RunOf(maxRetries, schema, replies, r).result.Fallbackable?)
      && (last < routes - 1 ==> !RunOf(maxRetries, schema, replies, last).result.Fallbackable?)
      && ChatFrom(maxRetries, routes, schema, replies, route) == ChatFrom(maxRetries, routes, schema, replies, last)
    decreases routes - route
  {
    if RunOf(maxRetries, schema, replies, route).result.Fallbackable? && route + 1 < routes {
      ChatFromStops(maxRetries, routes, schema, replies, route + 1);
    }
  }

  /**
   * `chat` returns the answer of route `r` exactly when `r` answers and every route before it failed in
   * a way that allows fallback; a fatal or uncaught failure ends it at once.
   */
  lemma FirstSuccessWins(maxRetries: nat, routes: nat, schema: Schema, replies: (nat, nat) -> Reply, r: nat)
    requires r < routes
    ensures var result := ChatFrom(maxRetries, routes, schema, replies, 0);
      && (result.Replied? && result.route == r <==>
            && RunOf(maxRetries, schema, replies, r).result.Answered?
            && forall q :: 0 <= q < r ==> RunOf(maxRetries, schema, replies, q).result.Fallbackable?)
      && (r == LastRoute(maxRetries, routes, schema, replies, 0) <==>
            && (forall q :: 0 <= q < r ==> RunOf(maxRetries, schema, replies, q).result.Fallbackable?)
            && (r + 1 == routes || !RunOf(maxRetries, schema, replies, r).result.Fallbackable?))
      && (result.Escaped? <==>
           RunOf(maxRetries, schema, replies, LastRoute(maxRetries, routes, schema, replies, 0)).result.Crashed?)
  {
    ChatFromStops(maxRetries, routes, schema, replies, 0);
    var last := LastRoute(maxRetries, routes, schema, replies, 0);
    if last < r {
      assert !RunOf(maxRetries, schema, replies, last).result.Fallbackable?;
    }
  }

  /** All routes together make at most `routes * (maxRetries + 2)` posts. */
  lemma {:induction false} ChatPostBound(maxRetries: nat, schema: Schema, replies: (nat, nat) -> Reply, routes: nat)
    ensures |PostsUpTo(maxRetries, schema, replies, routes)| <= routes * (maxRetries + 2)
  {
    if routes > 0 {
      ChatPostBound(maxRetries, schema, replies, routes - 1);
      RouteBounds(maxRetries, schema, OnRouteReplies(replies, routes - 1));
      assert routes * (maxRetries + 2) == (routes - 1) * (maxRetries + 2) + (maxRetries + 2);
    }
  }

  /** The posts on one route. */
  function OnlyRoute(posts: seq<(nat, Mode)>, route: nat): seq<Mode> {
    if posts == [] then []
    else (if posts[0].0 == route then [posts[0].1] else []) + OnlyRoute(posts[1..], route)
  }

  lemma {:induction false} OnlyRouteOfConcat(a: seq<(nat, Mode)>, b: seq<(nat, Mode)>, route: nat)
    ensures OnlyRoute(a + b, route) == OnlyRoute(a, route) + OnlyRoute(b, route)
  {
    if a == [] {
      assert a + b == b;
    } else {
      assert (a + b)[1..] == a[1..] + b && (a + b)[0] == a[0];
      OnlyRouteOfConcat(a[1..], b, route);
      var first := if a[0].0 == route then [a[0].1] else [];
      assert OnlyRoute(a + b, route) == first + (OnlyRoute(a[1..], route) + OnlyRoute(b, route));
    }
  }

  lemma {:induction false} OnlyRouteOfCall(route: nat, modes: seq<Mode>, asked: nat)
    ensures OnlyRoute(OnRoute(route, modes), asked) == if route == asked then modes else []
  {
    if modes != [] {
      OnlyRouteOfCall(route, modes[1..], asked);
    }
  }

  /** Each route called gets the posts of its own call and no others. */
  lemma {:induction false} RoutesPostTheirOwn(maxRetries: nat, schema: Schema, replies: (nat, nat) -> Reply,
                                              routes: nat, r: nat)
    ensures OnlyRoute(PostsUpTo(maxRetries, schema, replies, routes), r) ==
      if r < routes then RunOf(maxRetries, schema, replies, r).posts else []
  {
    if routes > 0 {
      var before := PostsUpTo(maxRetries, schema, replies, routes - 1);
      var posts := RunOf(maxRetries, schema, replies, routes - 1).posts;
      RoutesPostTheirOwn(maxRetries, schema, replies, routes - 1, r);
      OnlyRouteOfConcat(before, OnRoute(routes - 1, posts), r);
      OnlyRouteOfCall(routes - 1, posts, r);
      if r == routes - 1 {
        assert [] + posts == posts;
      } else {
        assert OnlyRoute(before, r) + [] == OnlyRoute(before, r);
      }
    }
  }

  /** The errors that end a strict call on its only route as they are. */
  predicate IsPlainFailure(error: Error) {
    error.BadCompletion? || (error.HttpError? && !error.schemaUnsupported && error.status != 404)
  }

  /**
   * What `chat` makes of the last route it calls: its answer; its error, if the error is fatal or every route failed;
   * and when the only route there was could not serve a strict schema, the report that no route could.
   */
  lemma ChatEndsAsLastRoute(maxRetries: nat, routes: nat, schema: Schema, replies: (nat, nat) -> Reply)
    requires routes >= 1
    ensures
      var result := ChatFrom(maxRetries, routes, schema, replies, 0);
      var last := LastRoute(maxRetries, routes, schema, replies, 0);
      match RunOf(maxRetries, schema, replies, last).result
      case Answered(text, mode, downgraded) => result == Replied(text, mode, downgraded, last)
      case Fatal(error) => result == Raised(error)
      case Crashed => result == Escaped
      case Fallbackable(error) =>
        && last + 1 == routes
        && result == if schema.Strict? && routes == 1 && !IsPlainFailure(error)
                     then Raised(NoCompatibleFallback(error)) else Raised(error)
  {
    ChatFromStops(maxRetries, routes, schema, replies, 0);
  }
}
