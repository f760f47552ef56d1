/**
 * sql_generator/llm/llm_service.py: how a model reply is turned into SQL,
 * in which order the configured providers are tried, the retry loop around
 * one provider, and the response cache of LLMService.generate_sql.
 *
 * A provider is abstract: `call(i)` is the outcome of its i-th call within
 * one retry run (a response, or an exception with its message).
 */
module LLM {
  import opened Wrappers
  import opened Strings
  import opened Sequences
  import Dicts

  /** LLMResponse, without the timing fields tokens_used and response_time. */
  datatype LLMResponse = LLMResponse(
    sqlQuery: string,
    rawResponse: string,
    provider: string,
    model: string,
    success: bool,
    error: Option<string>)

  /** The fields of LLMConfig that the service reads. */
  datatype LLMConfig = LLMConfig(provider: string, model: string, maxRetries: int, retryDelay: real)

  /** What one provider.generate_sql(prompt) call does. */
  datatype Outcome = Responds(response: LLMResponse) | Raises(message: string)

  // ---------------------------------------------------------------------
  // LocalLLMProvider._extract_sql
  // ---------------------------------------------------------------------

  const SqlFence: string := "```sql"
  const Fence: string := "```"

  /** prefixes_to_remove, in the order they are tried. */
  const SqlPrefixes: seq<string> :=
    ["SQL Query:", "Query:", "SQL:", "Here's the SQL query:", "The SQL query is:"]

  /** The stripped reply with an opening fence ("```sql" tried before "```") and a closing fence removed. */
  function Unfence(content: string): string {
    DropClosing(DropOpening(Strip(content)))
  }

  /** The text after an opening "```sql", else after an opening "```". */
  function DropOpening(c: string): string {
    if IsPrefix(SqlFence, c) then c[|SqlFence|..] else if IsPrefix(Fence, c) then c[|Fence|..] else c
  }

  /** The text before a closing "```". */
  function DropClosing(c: string): string {
    if IsSuffix(Fence, c) then c[..|c| - |Fence|] else c
  }

  /** Index of the first of `prefixes` that `content` starts with; |prefixes| when none does. */
  function FirstMatch(prefixes: seq<string>, content: string): (i: nat)
    ensures i <= |prefixes|
    ensures i < |prefixes| ==> IsPrefix(prefixes[i], content)
    ensures forall j :: 0 <= j < i ==> !IsPrefix(prefixes[j], content)
  {
    if prefixes == [] then 0
    else if IsPrefix(prefixes[0], content) then 0
    else 1 + FirstMatch(prefixes[1..], content)
  }

  /**
   * content without the first of `prefixes` it starts with, the rest
   * stripped; content itself when it starts with none of them.
   */
  function WithoutPrefix(prefixes: seq<string>, content: string): string {
    var i := FirstMatch(prefixes, content);
    if i < |prefixes| then Strip(content[|prefixes[i]|..]) else content
  }

  /** The prefix loop: try each prefix in turn, remove the first that matches and stop. */
  method RemovePrefix(prefixes: seq<string>, content: string) returns (r: string)
    ensures r == WithoutPrefix(prefixes, content)
  {
    r := content;
    var k := 0;
    while k < |prefixes|
      invariant 0 <= k <= |prefixes|
      invariant r == content
      invariant forall j :: 0 <= j < k ==> !IsPrefix(prefixes[j], content)
    {
      if IsPrefix(prefixes[k], r) {
        assert FirstMatch(prefixes, content) == k;
        r := Strip(r[|prefixes[k]|..]);
        break;
      }
      k := k + 1;
    }
  }

  /** The fence handling at the start of _extract_sql. */
  method RemoveFences(content: string) returns (c: string)
    ensures c == Unfence(content)
  {
    c := Strip(content);
    ghost var stripped := c;
    if IsPrefix(SqlFence, c) {
      c := c[|SqlFence|..];
    } else if IsPrefix(Fence, c) {
      c := c[|Fence|..];
    }
    assert c == DropOpening(stripped);
    ghost var afterOpening := c;
    if IsSuffix(Fence, c) {
      c := c[..|c| - |Fence|];
    }
    assert c == DropClosing(afterOpening);
  }

  /** _extract_sql: the reply unfenced, its first listed prefix removed, and stripped. */
  method ExtractSql(content: string) returns (sql: string)
    ensures sql == Strip(WithoutPrefix(SqlPrefixes, Unfence(content)))
    ensures sql == [] || (!IsSpace(sql[0]) && !IsSpace(sql[|sql| - 1]))
  {
    var c := RemoveFences(content);
    c := RemovePrefix(SqlPrefixes, c);
    sql := Strip(c);
  }

  /** Text that opens and closes with non-space characters is left alone by strip(). */
  lemma StripKeepsFenced(open: string, body: string, close: string)
    requires open != [] && close != [] && !IsSpace(open[0]) && !IsSpace(close[|close| - 1])
    ensures Strip(open + body + close) == open + body + close
  {
    StripNoop(open + body + close);
  }

  /** A reply fenced as "```sql ... ```" yields exactly the fenced body (before prefix removal). */
  lemma SqlFenceRemoved(body: string)
    ensures Unfence(SqlFence + body + Fence) == body
  {
    StripKeepsFenced(SqlFence, body, Fence);
    SqlOpeningRemoved(body);
    ClosingRemoved(body);
  }

  /** A plain "``` ... ```" fence is removed too, as long as the body does not itself start with "sql". */
  lemma PlainFenceRemoved(body: string)
    requires !IsPrefix("sql", body)
    ensures Unfence(Fence + body + Fence) == body
  {
    StripKeepsFenced(Fence, body, Fence);
    PlainOpeningRemoved(body);
    ClosingRemoved(body);
  }

  /** The first part of a + b + c, and what follows it. */
  lemma SplitThree(a: string, b: string, c: string)
    ensures (a + b + c)[..|a|] == a && (a + b + c)[|a|..] == b + c
  {
  }

  lemma SqlOpeningRemoved(body: string)
    ensures DropOpening(SqlFence + body + Fence) == body + Fence
  {
    SplitThree(SqlFence, body, Fence);
  }

  lemma PlainOpeningRemoved(body: string)
    requires !IsPrefix("sql", body)
    ensures DropOpening(Fence + body + Fence) == body + Fence
  {
    var c := Fence + body + Fence;
    assert !IsPrefix(SqlFence, c) by {
      if |body| >= 3 {
        assert c[3..6] == body[..3];
      } else {
        assert c[3 + |body|] == '`';
        assert SqlFence[3 + |body|] != '`';
      }
    }
    SplitThree(Fence, body, Fence);
  }

  /** A closing fence at the end is cut off. */
  lemma ClosingRemoved(body: string)
    ensures DropClosing(body + Fence) == body
  {
    var inner := body + Fence;
    assert inner[|inner| - |Fence|..] == Fence;
    assert inner[..|inner| - |Fence|] == body;
  }

  /**
   * Only the first listed prefix that matches is removed, and only once:
   * whatever follows it (another listed prefix included) is kept.
   */
  lemma OnlyFirstPrefix(prefixes: seq<string>, i: nat, rest: string)
    requires i < |prefixes|
    requires forall j :: 0 <= j < i ==> !IsPrefix(prefixes[j], prefixes[i] + rest)
    ensures WithoutPrefix(prefixes, prefixes[i] + rest) == Strip(rest)
  {
    var c := prefixes[i] + rest;
    assert c[..|prefixes[i]|] == prefixes[i];
    assert IsPrefix(prefixes[i], c);
    assert FirstMatch(prefixes, c) == i;
    assert c[|prefixes[i]|..] == rest;
  }

  /** Text starting with none of the prefixes is kept whole. */
  lemma NoPrefix(prefixes: seq<string>, content: string)
    requires forall j :: 0 <= j < |prefixes| ==> !IsPrefix(prefixes[j], content)
    ensures WithoutPrefix(prefixes, content) == content
  {
  }

  /** "SQL Query:" is tried first, so a following "Query:" survives. */
  lemma SqlQueryPrefixFirst(rest: string)
    ensures WithoutPrefix(SqlPrefixes, "SQL Query:" + rest) == Strip(rest)
  {
    OnlyFirstPrefix(SqlPrefixes, 0, rest);
  }

  // ---------------------------------------------------------------------
  // LLMService configuration and _get_provider_order
  // ---------------------------------------------------------------------

  /** The entries of the service configuration that are read; None stands for an absent key. */
  datatype ServiceConfig = ServiceConfig(
    defaultProvider: Option<string>,
    fallbackProviders: Option<seq<string>>,
    enableCaching: Option<bool>)

  /** The configuration _load_config starts from (before a file overrides it). */
  function BuiltInConfig(): ServiceConfig {
    ServiceConfig(Some("local"), Some(["local"]), Some(true))
  }

  /** `preferred_provider` is truthy: given and not the empty string. */
  predicate Named(preferred: Option<string>) {
    preferred.Some? && preferred.value != ""
  }

  /** config.get("default_provider", "openai") */
  function DefaultProvider(config: ServiceConfig): string {
    config.defaultProvider.GetOr("openai")
  }

  /** config.get("fallback_providers", list(self.providers.keys())) */
  function Fallbacks(config: ServiceConfig, available: seq<string>): seq<string> {
    config.fallbackProviders.GetOr(available)
  }

  /** The loop test `provider != head and provider in self.providers`. */
  function Follows(head: string, providers: map<string, LLMConfig>): string -> bool {
    p => p != head && p in providers
  }

  /** The order _get_provider_order returns. */
  function ProviderOrder(providers: Dicts.Dict<string, LLMConfig>, config: ServiceConfig, preferred: Option<string>): seq<string> {
    var fallbacks := Fallbacks(config, providers.order);
    if Named(preferred) && preferred.value in providers.entries then
      [preferred.value] + Filter(fallbacks, Follows(preferred.value, providers.entries))
    else if DefaultProvider(config) in providers.entries then
      [DefaultProvider(config)] + Filter(fallbacks, Follows(DefaultProvider(config), providers.entries))
    else
      providers.order
  }

  /** The head of the order: the preferred provider, else the default, else insertion order. */
  lemma ProviderOrderHead(providers: Dicts.Dict<string, LLMConfig>, config: ServiceConfig, preferred: Option<string>)
    ensures var order := ProviderOrder(providers, config, preferred);
      && (Named(preferred) && preferred.value in providers.entries ==> order[0] == preferred.value)
      && (!(Named(preferred) && preferred.value in providers.entries) && DefaultProvider(config) in providers.entries ==>
            order[0] == DefaultProvider(config))
      && (!(Named(preferred) && preferred.value in providers.entries) && DefaultProvider(config) !in providers.entries ==>
            order == providers.order)
  {
  }

  /** Every provider in the order is available. */
  lemma ProviderOrderAvailable(providers: Dicts.Dict<string, LLMConfig>, config: ServiceConfig, preferred: Option<string>, k: nat)
    requires Dicts.Valid(providers)
    requires k < |ProviderOrder(providers, config, preferred)|
    ensures ProviderOrder(providers, config, preferred)[k] in providers.entries
  {
    var order := ProviderOrder(providers, config, preferred);
    if k > 0 && order != providers.order {
      var head := order[0];
      var rest := Filter(Fallbacks(config, providers.order), Follows(head, providers.entries));
      assert order == [head] + rest;
      assert order[k] == rest[k - 1];
    }
  }

  /**
   * After the head come exactly the fallback names that are available and
   * differ from the head, in fallback order; the head never reappears.
   */
  lemma ProviderOrderFollowers(providers: Dicts.Dict<string, LLMConfig>, config: ServiceConfig, preferred: Option<string>, name: string)
    requires ProviderOrder(providers, config, preferred) != providers.order
    ensures var order := ProviderOrder(providers, config, preferred);
      && order[1..] == Filter(Fallbacks(config, providers.order), Follows(order[0], providers.entries))
      && (name in order[1..] <==> name in Fallbacks(config, providers.order) && name != order[0] && name in providers.entries)
  {
    var order := ProviderOrder(providers, config, preferred);
    var rest := Filter(Fallbacks(config, providers.order), Follows(order[0], providers.entries));
    assert order == [order[0]] + rest;
    assert order[1..] == rest;
    FilterMembers(Fallbacks(config, providers.order), Follows(order[0], providers.entries));
  }

  /** With the built-in configuration and the local provider available, only "local" is tried. */
  lemma BuiltInOrder(providers: Dicts.Dict<string, LLMConfig>, preferred: Option<string>)
    requires "local" in providers.entries
    requires !(Named(preferred) && preferred.value in providers.entries)
    ensures ProviderOrder(providers, BuiltInConfig(), preferred) == ["local"]
  {
    assert Filter(["local"], Follows("local", providers.entries)) == [];
  }

  /** The loop at lines 347-349 (and 357-359). */
  method AppendFollowers(head: string, fallbacks: seq<string>, providers: map<string, LLMConfig>) returns (order: seq<string>)
    ensures order == [head] + Filter(fallbacks, Follows(head, providers))
  {
    order := [head];
    for i := 0 to |fallbacks|
      invariant order == [head] + Filter(fallbacks[..i], Follows(head, providers))
    {
      FilterSnoc(fallbacks[..i], fallbacks[i], Follows(head, providers));
      assert fallbacks[..i + 1] == fallbacks[..i] + [fallbacks[i]];
      if fallbacks[i] != head && fallbacks[i] in providers {
        order := order + [fallbacks[i]];
      }
    }
    assert fallbacks[..|fallbacks|] == fallbacks;
  }

  // ---------------------------------------------------------------------
  // _generate_with_retry
  // ---------------------------------------------------------------------

  /**
   * One retry run: the response returned, or the message of an exception that
   * escapes _generate_with_retry; how many calls were made; and the delays
   * slept, in order.
   */
  datatype RetryRun =
    | Returned(response: LLMResponse, calls: nat, sleeps: seq<real>)
    | Escaped(error: string, calls: nat, sleeps: seq<real>)

  /** What time.sleep raises for a negative length. */
  const SleepRejected: string := "sleep length must be non-negative"

  const MaxRetriesExceeded: string := "Max retries exceeded"

  /** The failure response _generate_with_retry builds itself. */
  function Failure(cfg: LLMConfig, error: string): (r: LLMResponse)
    ensures !r.success && r.error == Some(error) && r.sqlQuery == ""
  {
    LLMResponse("", "", cfg.provider, cfg.model, false, Some(error))
  }

  /** An outcome that makes the loop return. */
  predicate Succeeds(o: Outcome) {
    o.Responds? && o.response.success
  }

  /** The run returned a successful response. */
  predicate Succeeded(run: RetryRun) {
    run.Returned? && run.response.success
  }

  /** A sleep of `delay` before the rest of the run. */
  function Slept(delay: real, run: RetryRun): RetryRun {
    run.(sleeps := [delay] + run.sleeps)
  }

  /**
   * The sleep before attempt + 1, then the rest of the run. A negative delay
   * makes time.sleep raise: after a raising call that escapes the except
   * clause at once; after a failed response the except clause catches it and
   * sleeps again with the same delay, which raises the same way.
   */
  function SleepThen(cfg: LLMConfig, call: nat -> Outcome, attempt: nat, delay: real): RetryRun
    requires attempt < cfg.maxRetries
    decreases cfg.maxRetries + 1 - attempt, 0
  {
    if delay < 0.0 then Escaped(SleepRejected, attempt + 1, [])
    else Slept(delay, Retry(cfg, call, attempt + 1, 2.0 * delay))
  }

  /** The loop from attempt `attempt` on, with `delay` the current retry_delay. */
  function Retry(cfg: LLMConfig, call: nat -> Outcome, attempt: nat, delay: real): RetryRun
    decreases cfg.maxRetries + 1 - attempt, 1
  {
    if attempt > cfg.maxRetries then Returned(Failure(cfg, MaxRetriesExceeded), attempt, [])
    else match call(attempt)
      case Responds(r) =>
        if r.success then Returned(r, attempt + 1, [])
        else if attempt < cfg.maxRetries then SleepThen(cfg, call, attempt, delay)
        else Retry(cfg, call, attempt + 1, delay)
      case Raises(m) =>
        if attempt < cfg.maxRetries then SleepThen(cfg, call, attempt, delay)
        else Returned(Failure(cfg, m), attempt + 1, [])
  }

  /** The whole run of _generate_with_retry for one provider. */
  function RetryOf(cfg: LLMConfig, call: nat -> Outcome): RetryRun {
    Retry(cfg, call, 0, cfg.retryDelay)
  }

  /** At most max_retries + 1 calls (none when max_retries is negative), each after the previous one. */
  lemma {:induction false} RetryCalls(cfg: LLMConfig, call: nat -> Outcome, attempt: nat, delay: real)
    ensures var run := Retry(cfg, call, attempt, delay);
      && attempt <= run.calls
      && (run.calls == attempt <==> attempt > cfg.maxRetries)
      && (attempt <= cfg.maxRetries ==> run.calls <= cfg.maxRetries + 1)
    decreases cfg.maxRetries + 1 - attempt
  {
    if attempt <= cfg.maxRetries {
      RetryCalls(cfg, call, attempt + 1, delay);
      RetryCalls(cfg, call, attempt + 1, 2.0 * delay);
    }
  }

  /**
   * The run succeeds iff some remaining attempt succeeds that is reached: with
   * a non-negative delay every attempt is, with a negative one only the first
   * (the first sleep raises). It then returns the first successful response.
   */
  lemma {:induction false} RetryFirstSuccess(cfg: LLMConfig, call: nat -> Outcome, attempt: nat, delay: real)
    ensures var run := Retry(cfg, call, attempt, delay);
      && (Succeeded(run) <==>
            exists j :: attempt <= j <= cfg.maxRetries && Succeeds(call(j)) && (delay >= 0.0 || j == attempt))
      && (Succeeded(run) ==>
            && attempt < run.calls
            && Succeeds(call(run.calls - 1))
            && run.response == call(run.calls - 1).response
            && forall j :: attempt <= j < run.calls - 1 ==> !Succeeds(call(j)))
    decreases cfg.maxRetries + 1 - attempt
  {
    if attempt <= cfg.maxRetries {
      RetryFirstSuccess(cfg, call, attempt + 1, delay);
      RetryFirstSuccess(cfg, call, attempt + 1, 2.0 * delay);
      RetryCalls(cfg, call, attempt + 1, delay);
      RetryCalls(cfg, call, attempt + 1, 2.0 * delay);
      var run := Retry(cfg, call, attempt, delay);
      if Succeeds(call(attempt)) {
        assert Succeeded(run);
      } else if attempt == cfg.maxRetries {
        assert !Succeeded(run);
      } else if delay < 0.0 {
        assert run.Escaped?;
      }
    }
  }

  /** Every call but the last is followed by a sleep. */
  lemma {:induction false} RetrySleepCount(cfg: LLMConfig, call: nat -> Outcome, attempt: nat, delay: real)
    ensures var run := Retry(cfg, call, attempt, delay);
      && (run.calls > attempt ==> |run.sleeps| == run.calls - attempt - 1)
      && (run.calls == attempt ==> run.sleeps == [])
    decreases cfg.maxRetries + 1 - attempt
  {
    if attempt <= cfg.maxRetries && !Succeeds(call(attempt)) {
      if attempt < cfg.maxRetries {
        RetrySleepCount(cfg, call, attempt + 1, 2.0 * delay);
        RetryCalls(cfg, call, attempt + 1, 2.0 * delay);
      } else if call(attempt).Responds? {
        RetrySleepCount(cfg, call, attempt + 1, delay);
        RetryCalls(cfg, call, attempt + 1, delay);
      }
    }
  }

  /** The first sleep lasts retry_delay, and each later one twice as long as the one before. */
  lemma {:induction false} RetryDelays(cfg: LLMConfig, call: nat -> Outcome, attempt: nat, delay: real)
    ensures var run := Retry(cfg, call, attempt, delay);
      && (run.sleeps != [] ==> run.sleeps[0] == delay)
      && forall k :: 0 < k < |run.sleeps| ==> run.sleeps[k] == 2.0 * run.sleeps[k - 1]
    decreases cfg.maxRetries + 1 - attempt
  {
    var run := Retry(cfg, call, attempt, delay);
    if attempt < cfg.maxRetries && !Succeeds(call(attempt)) && delay >= 0.0 {
      var tail := Retry(cfg, call, attempt + 1, 2.0 * delay);
      RetryDelays(cfg, call, attempt + 1, 2.0 * delay);
      assert run.sleeps == [delay] + tail.sleeps;
      forall k | 1 < k < |run.sleeps|
        ensures run.sleeps[k] == 2.0 * run.sleeps[k - 1]
      {
        assert run.sleeps[k] == tail.sleeps[k - 1];
        assert run.sleeps[k - 1] == tail.sleeps[k - 2];
      }
    } else {
      if attempt == cfg.maxRetries && call(attempt).Responds? && !call(attempt).response.success {
        assert run == Retry(cfg, call, attempt + 1, delay);
      }
      assert run.sleeps == [];
    }
  }

  /**
   * A run without success either escapes at the first sleep, exactly when
   * the delay is negative and a retry is due, or returns after making every
   * call; its error is then the message of an exception raised by the last
   * call, otherwise "Max retries exceeded".
   */
  lemma {:induction false} RetryExhausted(cfg: LLMConfig, call: nat -> Outcome, attempt: nat, delay: real)
    requires !Succeeded(Retry(cfg, call, attempt, delay))
    ensures var run := Retry(cfg, call, attempt, delay);
      && (run.Escaped? <==> delay < 0.0 && attempt < cfg.maxRetries)
      && (run.Escaped? ==> run == Escaped(SleepRejected, attempt + 1, []))
      && (run.Returned? ==>
            && run.calls == (if attempt > cfg.maxRetries then attempt else cfg.maxRetries + 1)
            && run.response == Failure(cfg,
                 if attempt <= cfg.maxRetries && call(cfg.maxRetries).Raises? then call(cfg.maxRetries).message
                 else MaxRetriesExceeded))
    decreases cfg.maxRetries + 1 - attempt
  {
    if attempt < cfg.maxRetries && delay >= 0.0 {
      RetryExhausted(cfg, call, attempt + 1, 2.0 * delay);
    } else if attempt == cfg.maxRetries && call(attempt).Responds? {
      RetryExhausted(cfg, call, attempt + 1, delay);
    }
  }

  /** `sleeps` already slept, then the rest of the run. */
  function AfterSleeps(sleeps: seq<real>, run: RetryRun): RetryRun {
    run.(sleeps := sleeps + run.sleeps)
  }

  method GenerateWithRetry(cfg: LLMConfig, call: nat -> Outcome) returns (run: RetryRun)
    ensures run == RetryOf(cfg, call)
  {
    var delay := cfg.retryDelay;
    var sleeps: seq<real> := [];
    var attempt: nat := 0;
    while attempt < cfg.maxRetries + 1
      invariant RetryOf(cfg, call) == AfterSleeps(sleeps, Retry(cfg, call, attempt, delay))
      decreases cfg.maxRetries + 1 - attempt
    {
      ghost var rest := Retry(cfg, call, attempt, delay);
      var outcome := call(attempt);
      if outcome.Responds? && outcome.response.success {
        return Returned(outcome.response, attempt + 1, sleeps);
      }
      if attempt < cfg.maxRetries {
        if delay < 0.0 {
          // time.sleep raises; a failed response's except clause sleeps again and raises too.
          return Escaped(SleepRejected, attempt + 1, sleeps);
        }
        ghost var tail := Retry(cfg, call, attempt + 1, 2.0 * delay);
        assert rest == Slept(delay, tail);
        assert sleeps + ([delay] + tail.sleeps) == (sleeps + [delay]) + tail.sleeps;
        sleeps := sleeps + [delay];
        delay := 2.0 * delay;
      } else if outcome.Raises? {
        return Returned(Failure(cfg, outcome.message), attempt + 1, sleeps);
      } else {
        assert rest == Retry(cfg, call, attempt + 1, delay);
      }
      attempt := attempt + 1;
    }
    return Returned(Failure(cfg, MaxRetriesExceeded), attempt, sleeps);
  }

  // ---------------------------------------------------------------------
  // generate_sql: provider fallback and the cache
  // ---------------------------------------------------------------------

  const AllProvidersFailed: string := "All LLM providers failed"

  /** The response returned when no provider produced SQL. */
  function AllFailed(): (r: LLMResponse)
    ensures !r.success && r.provider == "none" && r.model == "none" && r.error == Some(AllProvidersFailed)
  {
    LLMResponse("", "", "none", "none", false, Some(AllProvidersFailed))
  }

  /** A response generate_sql accepts (and may cache). */
  predicate Usable(r: LLMResponse) {
    r.success && r.sqlQuery != ""
  }

  /** A run generate_sql accepts: it returned a usable response (an escaped exception is caught and skipped). */
  predicate Accepted(run: RetryRun) {
    run.Returned? && Usable(run.response)
  }

  /** The retry run of the provider registered as `name`. */
  function RunOf(providers: map<string, LLMConfig>, calls: string -> nat -> Outcome, name: string): RetryRun
    requires name in providers
  {
    RetryOf(providers[name], calls(name))
  }

  /** The fallback loop over `order`: skip unavailable names, accept the first usable response. */
  function Serve(order: seq<string>, providers: map<string, LLMConfig>, calls: string -> nat -> Outcome): LLMResponse {
    if order == [] then AllFailed()
    else if order[0] !in providers then Serve(order[1..], providers, calls)
    else if Accepted(RunOf(providers, calls, order[0])) then RunOf(providers, calls, order[0]).response
    else Serve(order[1..], providers, calls)
  }

  /**
   * The fallback loop returns the response of the first available provider
   * in the order whose run returned a usable response, and the all-failed
   * response when there is none.
   */
  lemma {:induction false} ServeFirstUsable(order: seq<string>, providers: map<string, LLMConfig>, calls: string -> nat -> Outcome)
    ensures var r := Serve(order, providers, calls);
      && (r == AllFailed() <==> forall k :: 0 <= k < |order| && order[k] in providers ==> !Accepted(RunOf(providers, calls, order[k])))
      && (r != AllFailed() ==> Usable(r) && exists k :: (
            && 0 <= k < |order| && order[k] in providers
            && Accepted(RunOf(providers, calls, order[k]))
            && r == RunOf(providers, calls, order[k]).response
            && forall j :: 0 <= j < k && order[j] in providers ==> !Accepted(RunOf(providers, calls, order[j]))))
  {
    if order != [] {
      ServeFirstUsable(order[1..], providers, calls);
      var r := Serve(order, providers, calls);
      if order[0] in providers && Accepted(RunOf(providers, calls, order[0])) {
        assert r == RunOf(providers, calls, order[0]).response;
      } else {
        assert r == Serve(order[1..], providers, calls);
        assert forall k :: 0 < k < |order| ==> order[k] == order[1..][k - 1];
        if r != AllFailed() {
          var k' :| 0 <= k' < |order[1..]| && order[1..][k'] in providers
            && Accepted(RunOf(providers, calls, order[1..][k']))
            && r == RunOf(providers, calls, order[1..][k']).response
            && forall j :: 0 <= j < k' && order[1..][j] in providers ==> !Accepted(RunOf(providers, calls, order[1..][j]));
          assert order[k' + 1] == order[1..][k'];
          forall j | 0 <= j < k' + 1 && order[j] in providers
            ensures !Accepted(RunOf(providers, calls, order[j]))
          {
            if j > 0 {
              assert order[j] == order[1..][j - 1];
            }
          }
        } else {
          forall k | 0 <= k < |order| && order[k] in providers
            ensures !Accepted(RunOf(providers, calls, order[k]))
          {
            if k > 0 {
              assert order[k] == order[1..][k - 1];
            }
          }
        }
      }
    }
  }

  /** The provider part of the cache key: `provider or 'default'`. */
  function ProviderTag(preferred: Option<string>): string {
    if Named(preferred) then preferred.value else "default"
  }

  /** The text _get_cache_key hashes. */
  function CacheKey(prompt: string, preferred: Option<string>): string {
    prompt + ":" + ProviderTag(preferred)
  }

  /** No preferred provider, the empty name and the name "default" share one cache entry. */
  lemma DefaultKeysShared(prompt: string)
    ensures CacheKey(prompt, None) == CacheKey(prompt, Some("")) == CacheKey(prompt, Some("default"))
  {
  }

  /** Keys are distinct for distinct (prompt, provider tag) pairs as long as the tags contain no ':'. */
  lemma CacheKeyInjective(p1: string, t1: Option<string>, p2: string, t2: Option<string>)
    requires ':' !in ProviderTag(t1) && ':' !in ProviderTag(t2)
    requires CacheKey(p1, t1) == CacheKey(p2, t2)
    ensures p1 == p2 && ProviderTag(t1) == ProviderTag(t2)
  {
    var key := CacheKey(p1, t1);
    AfterLastColonOf(p1, ProviderTag(t1));
    AfterLastColonOf(p2, ProviderTag(t2));
    var n := |AfterLastColon(key)|;
    assert p1 == key[..|key| - n - 1] == p2;
  }

  /** The text after the last ':' of s (all of s when it has none). */
  function AfterLastColon(s: string): (r: string)
    ensures ':' !in r
  {
    if s == [] || s[|s| - 1] == ':' then [] else AfterLastColon(s[..|s| - 1]) + [s[|s| - 1]]
  }

  lemma {:induction false} AfterLastColonOf(p: string, t: string)
    requires ':' !in t
    ensures AfterLastColon(p + ":" + t) == t
  {
    if t != [] {
      var s := p + ":" + t;
      assert s[..|s| - 1] == p + ":" + t[..|t| - 1];
      AfterLastColonOf(p, t[..|t| - 1]);
      assert t == t[..|t| - 1] + [t[|t| - 1]];
    }
  }

  /** A provider name containing ':' can make two different requests share a key. */
  lemma CacheKeyAmbiguous(p: string, q: string, r: string)
    requires r != ""
    ensures CacheKey(p + ":" + q, Some(r)) == CacheKey(p, Some(q + ":" + r))
  {
  }

  class LLMService {
    /** self.providers: the providers that initialised and reported themselves available, by name. */
    const providers: Dicts.Dict<string, LLMConfig>
    const config: ServiceConfig
    /** self.cache, keyed by the text CacheKey computes. */
    var cache: map<string, LLMResponse>

    /** Only usable responses are ever cached. */
    ghost predicate Valid()
      reads this
    {
      && Dicts.Valid(providers)
      && forall key :: key in cache ==> Usable(cache[key])
    }

    constructor (providers: Dicts.Dict<string, LLMConfig>, config: ServiceConfig)
      requires Dicts.Valid(providers)
      ensures Valid()
      ensures this.providers == providers && this.config == config && cache == map[]
    {
      this.providers := providers;
      this.config := config;
      cache := map[];
    }

    /** `use_cache and self.config.get("enable_caching", True)` */
    predicate Caching(useCache: bool) {
      useCache && config.enableCaching.GetOr(true)
    }

    method GetProviderOrder(preferred: Option<string>) returns (order: seq<string>)
      ensures order == ProviderOrder(providers, config, preferred)
    {
      if Named(preferred) && preferred.value in providers.entries {
        order := AppendFollowers(preferred.value, Fallbacks(config, providers.order), providers.entries);
      } else if DefaultProvider(config) in providers.entries {
        order := AppendFollowers(DefaultProvider(config), Fallbacks(config, providers.order), providers.entries);
      } else {
        order := providers.order;
      }
    }

    method GetAvailableProviders() returns (names: seq<string>)
      ensures names == providers.order
    {
      names := providers.order;
    }

    /** The fallback loop of generate_sql. */
    method TryProviders(order: seq<string>, prompt: string, calls: string -> nat -> Outcome) returns (response: LLMResponse)
      ensures response == Serve(order, providers.entries, calls)
    {
      var i := 0;
      while i < |order|
        invariant 0 <= i <= |order|
        invariant Serve(order, providers.entries, calls) == Serve(order[i..], providers.entries, calls)
      {
        assert order[i..][1..] == order[i + 1..];
        if order[i] in providers.entries {
          var run := GenerateWithRetry(providers.entries[order[i]], calls(order[i]));
          if run.Returned? && run.response.success && run.response.sqlQuery != "" {
            return run.response;
          }
        }
        i := i + 1;
      }
      return AllFailed();
    }

    method GenerateSql(prompt: string, preferred: Option<string>, useCache: bool, calls: string -> nat -> Outcome)
        returns (response: LLMResponse)
      requires Valid()
      modifies this
      ensures Valid()
      ensures var key := CacheKey(prompt, preferred);
        if Caching(useCache) && key in old(cache) then
          response == old(cache)[key] && cache == old(cache)
        else
          && response == Serve(ProviderOrder(providers, config, preferred), providers.entries, calls)
          && cache == if Caching(useCache) && Usable(response) then old(cache)[key := response] else old(cache)
    {
      var key := CacheKey(prompt, preferred);
      if Caching(useCache) && key in cache {
        return cache[key];
      }
      var order := GetProviderOrder(preferred);
      response := TryProviders(order, prompt, calls);
      ServeFirstUsable(order, providers.entries, calls);
      if Usable(response) && Caching(useCache) {
        cache := cache[key := response];
      }
    }

    method ClearCache()
      requires Valid()
      modifies this
      ensures Valid() && cache == map[]
    {
      cache := map[];
    }
  }

  /** generate_sql never returns an unusable response other than the all-failed one. */
  lemma GenerateSqlOutcome(providers: Dicts.Dict<string, LLMConfig>, config: ServiceConfig, preferred: Option<string>,
                           calls: string -> nat -> Outcome)
    ensures var r := Serve(ProviderOrder(providers, config, preferred), providers.entries, calls);
      Usable(r) || r == AllFailed()
  {
    ServeFirstUsable(ProviderOrder(providers, config, preferred), providers.entries, calls);
  }
}
