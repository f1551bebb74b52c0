# context-oriented: a Dafny model

This project models the Kotlin snippets of `benjishults/context-oriented`.
Each snippet shows one idea of context-oriented programming: an interface
whose companion object or receiver supplies behaviour in scope. The model
keeps what the code computes and drops the Kotlin scoping mechanics.

- **RatpackScope**: the promise combinators.
  - `parallelBatch` over a list of promises, and over a map from inputs to promises.
  - `parallelBatchFailFast`, `parallelBatchOrThrow` and `parallelBatchAndFilter`.
  - The retry chain `conditionallyRetry`, driven by `conditionallyRetryAttempt`.
  - The warning and delay formula of `backOffRetryWithWarnings`.
  - A batch is the sequence of `ExecResult`s its promises settled with.
  - A retry chain reads, for each attempt number, the signal a fresh subscription to upstream produces.
- **ObservabilityScope**: observation as a trace of log lines and meter marks.
  - The companion's `observe`, `observeAt*`, `observeAndBury` and both `observeAndThrow` overloads.
  - The instance members, which pick the observer's own meters and log keys as defaults.
- **SiamResponseScope**:
  - Both `mapSiamResponse` overloads.
  - The private `observeNonException`.
  - `retrySiamResponse` on top of `conditionallyRetry`.
- **NonNegativeInteger**: Peano numerals with recursive `add` and `multiply`, plus the checks in `main`.
- **ModN**: `add` modulo `n` and `Mod7.multiply`.
  - Kotlin's 32-bit `Int` wrap-around is written out.
  - So is the truncating `%`.
  - A failed `require` and a division by zero are error results.
- **PropositionalFormula**: the short-circuit `check` of formulas, `BooleanResult` and the two valuations.
  - A variable's `check` is TODO and throws.
  - `check` returns `None` when evaluation reaches a variable.
- **CollectionExtensions**: `toMutableMap` and `toMap` as a fold into a map that starts empty, plus the example in `main`. Kotlin's `String.length`, which that example uses, counts UTF-16 code units, so a character outside the Basic Multilingual Plane counts twice.

Exceptions are values of `Throwables.Throwable`: a throwable with an identity and a list of suppressed throwables, or the IllegalArgumentException that `addSuppressed` throws when asked to suppress a throwable into itself. A block that may throw is an `Outcome<T>`, which is a `Result<T, Throwable>`. Loggers and meters are observed, not called: every observation returns the `Telemetry.Event`s it would emit, in order.

Where the code and its documentation disagree, the model follows the code:

- The instance `observeAndBury` and `observeAndThrow` default their failure key to `"$successLogKey-error"`. Their `@param failureLogKey` lines say the same (ObservabilityScope.kt:109 and :143). Their step lists say `this.failureLogKey` instead (:98 and :132).
- `observeAtWarn` defaults its key to `failureLogKey`. Its step list says the same (ObservabilityScope.kt:43). Its `@param logKey` line says `successLogKey` instead (:46).
- The retry chain stops when `retryNum > maxRetries`, with `retryNum` starting at 1. So `maxRetries + 1` attempts are made, not `maxRetries`.
- When the retries run out, the last value is delivered as a success. Upstream errors are forwarded without consulting `retryCondition`.
- `BooleanResult.toBoolean` returns `Unit`, not the boolean; see Findings.

## Model

| member | source | states |
|---|---|---|
| Throwables.AddSuppressed | src/main/kotlin/benjishults/context/scope/RatpackScope.kt:165 | `addSuppressed` throws exactly when asked to suppress a throwable into itself, with that throwable as cause; otherwise it keeps the identity and earlier suppressed list and appends the new one last |
| Throwables.AddAllSuppressed | src/main/kotlin/benjishults/context/scope/RatpackScope.kt:163-166 | suppressing a list one by one appends exactly that list, in order, unless some element is the throwable itself; then the loop ends with the exception for the first such element |
| Throwables.WithOptionalSuppressed | src/main/kotlin/benjishults/context/scope/RatpackScope.kt:261-263 | a null extracted throwable leaves the error unchanged; a different one is appended as suppressed; the error itself gives `addSuppressed`'s exception instead |
| Sequences.Filter | src/main/kotlin/benjishults/context/scope/RatpackScope.kt:205 | `filter` never lengthens the list, and every survivor satisfies the predicate |
| Sequences.FilterMembers | src/main/kotlin/benjishults/context/scope/RatpackScope.kt:205 | the survivors of `filter` are exactly the input's elements that satisfy the predicate |
| RatpackScope.ParallelBatch | src/main/kotlin/benjishults/context/scope/RatpackScope.kt:109-118 | an empty list resolves at once to an empty list and only a non-empty one builds a batch; the results are one per promise, in position |
| RatpackScope.ParallelBatchFailFast | src/main/kotlin/benjishults/context/scope/RatpackScope.kt:120-126 | an empty list resolves to an empty list; a non-empty list is handed to the batch's `yield()` |
| RatpackScope.FirstFailure | src/main/kotlin/benjishults/context/scope/RatpackScope.kt:161 | `firstOrNull { it.isError }`: none exactly when all succeeded; otherwise a failed index before which all succeeded |
| RatpackScope.OtherFailures | src/main/kotlin/benjishults/context/scope/RatpackScope.kt:163 | every suppressed throwable comes from a failed result other than the first failure |
| RatpackScope.ParallelBatchOrThrow | src/main/kotlin/benjishults/context/scope/RatpackScope.kt:156-169 | succeeds exactly when every promise succeeded, with all values in position; otherwise throws the first failure with the other failures suppressed on it, or `addSuppressed`'s exception when one of them is the first throwable itself |
| RatpackScope.OtherFailuresAreLaterFailures | src/main/kotlin/benjishults/context/scope/RatpackScope.kt:161-163 | unless the first failure's result recurs later, the failures other than the first are exactly the failures after it, in order |
| RatpackScope.OrThrowSuppressesAllLaterFailures | src/main/kotlin/benjishults/context/scope/RatpackScope.kt:151-169 | unless the first failure's result recurs later: when no later failure holds the first throwable, the thrown exception is that throwable carrying every later failure as suppressed, in input order, losing none; otherwise the promise fails with the self-suppression error for the earliest one that does |
| RatpackScope.ParallelBatchAndFilter | src/main/kotlin/benjishults/context/scope/RatpackScope.kt:200-206 | the result has exactly the values of the successful promises and nothing from a failed one |
| RatpackScope.AndFilterAppend | src/main/kotlin/benjishults/context/scope/RatpackScope.kt:200-206 | filtering a concatenated batch is concatenating the filtered parts, so order is kept |
| RatpackScope.AndFilterSingle | src/main/kotlin/benjishults/context/scope/RatpackScope.kt:205 | a single success gives its value; a single failure gives nothing |
| RatpackScope.WrapErrors | src/main/kotlin/benjishults/context/scope/RatpackScope.kt:70-74 | every failure is wrapped together with its input key; successes pass unchanged |
| RatpackScope.CollectStep | src/main/kotlin/benjishults/context/scope/RatpackScope.kt:77-86 | a failure stores its cause under its input key and changes no other key or success; a non-null value is appended and a null one dropped, leaving the failures alone |
| RatpackScope.Collect | src/main/kotlin/benjishults/context/scope/RatpackScope.kt:76-87 | the pass never loses what was collected: earlier successes stay a prefix, at most one success per result is added, and no failure key is removed |
| RatpackScope.CollectSuccesses | src/main/kotlin/benjishults/context/scope/RatpackScope.kt:76-87 | the collected outputs are the non-null success values, in order |
| RatpackScope.CollectFailures | src/main/kotlin/benjishults/context/scope/RatpackScope.kt:76-87 | with distinct keys, each failed input is recorded under its key with the original cause, and nothing else is added |
| RatpackScope.KeyedParallelBatch | src/main/kotlin/benjishults/context/scope/RatpackScope.kt:68-91 | the outputs are the non-null successes; the failures map holds every failed input with its unwrapped cause, and no succeeded input |
| RatpackScope.OrThrowExample | src/main/kotlin/benjishults/context/scope/RatpackScope.kt:156-169 | two failures among four results: the first is thrown with the second suppressed |
| RatpackScope.OrThrowSelfSuppressionExample | src/main/kotlin/benjishults/context/scope/RatpackScope.kt:161-167 | a later failure holding the first throwable, with a different suppressed list, makes `addSuppressed` throw, and the promise fails with that exception |
| RatpackScope.AndFilterExample | src/main/kotlin/benjishults/context/scope/RatpackScope.kt:200-206 | the same batch filtered keeps the values 1 and 3 |
| RatpackScope.KeyedExample | src/main/kotlin/benjishults/context/scope/RatpackScope.kt:68-91 | a success under "a" and a failure under "b" give outputs [1] and failures {"b": cause} |
| RatpackScope.ConditionallyRetryAttempt | src/main/kotlin/benjishults/context/scope/RatpackScope.kt:241-295 | every chain makes at least one attempt, makes at most `maxRetries - retryNum + 2` from attempt `retryNum`, and waits one delay between attempts |
| RatpackScope.ConditionallyRetry | src/main/kotlin/benjishults/context/scope/RatpackScope.kt:220-239 | starting at attempt 1: at most `maxRetries + 1` attempts; an upstream error or completion on the first attempt is forwarded |
| RatpackScope.RetryAttemptIsRetryRun | src/main/kotlin/benjishults/context/scope/RatpackScope.kt:250-294 | a run is the chain's outcome exactly when each attempt but the last was retried after its delay and the last stopped for one of the reasons the Kotlin code stops |
| RatpackScope.RunConditionallyRetry | src/main/kotlin/benjishults/context/scope/RatpackScope.kt:226-295 | the attempt loop delivers the same signal, attempt count and delays as the recursive chain |
| RatpackScope.NoRetriesForwardsFirstAttempt | src/main/kotlin/benjishults/context/scope/RatpackScope.kt:252-254 | with `maxRetries <= 0` the first attempt's signal is forwarded after one attempt |
| RatpackScope.NeverRetryForwardsFirstAttempt | src/main/kotlin/benjishults/context/scope/RatpackScope.kt:252-254 | with a condition that never asks for a retry, the first attempt's signal is forwarded after one attempt |
| RatpackScope.AlwaysRetryAttemptsFrom | src/main/kotlin/benjishults/context/scope/RatpackScope.kt:252-281 | when every value asks for a retry and every delay arrives, attempts run from `retryNum` through `maxRetries + 1` and the last value is delivered |
| RatpackScope.AlwaysRetryAttempts | src/main/kotlin/benjishults/context/scope/RatpackScope.kt:220-281 | in that case the chain makes exactly `maxRetries + 1` attempts |
| RatpackScope.DurationFunctionFailureEndsChain | src/main/kotlin/benjishults/context/scope/RatpackScope.kt:256-266 | a throwing duration function ends the chain with its error, carrying the extracted throwable as suppressed, or with `addSuppressed`'s exception when the extracted throwable is that error |
| RatpackScope.BackOffStep | src/main/kotlin/benjishults/context/scope/RatpackScope.kt:300-317 | each retry logs one warning with the key, map and error; for retry >= 1 the delay is at least `firstDelayMillis` |
| RatpackScope.BackOffIsLinear | src/main/kotlin/benjishults/context/scope/RatpackScope.kt:316 | the first delay is `firstDelayMillis`, and each later retry waits `firstDelayMillis` longer |
| RatpackScope.BackOffDefaults | src/main/kotlin/benjishults/context/scope/RatpackScope.kt:302-305 | with the default first delay, the three default retries sleep 20, 40 and 60 ms |
| ObservabilityCompanion.DefaultFailureLogKey | src/main/kotlin/benjishults/context/polymorphism/ObservabilityScope.kt:312 | the default failure key is the success key followed by "-error" |
| ObservabilityCompanion.Observe | src/main/kotlin/benjishults/context/polymorphism/ObservabilityScope.kt:279-289 | exactly one log line at the given level, then exactly one mark, of the given meter and no other |
| ObservabilityCompanion.ObserveAtError | src/main/kotlin/benjishults/context/polymorphism/ObservabilityScope.kt:191-206 | an ERROR line with the throwable, then a mark |
| ObservabilityCompanion.ObserveAtWarn | src/main/kotlin/benjishults/context/polymorphism/ObservabilityScope.kt:214-229 | a WARN line with the optional throwable, then a mark |
| ObservabilityCompanion.ObserveAtInfo | src/main/kotlin/benjishults/context/polymorphism/ObservabilityScope.kt:237-250 | an INFO line without a throwable, then a mark |
| ObservabilityCompanion.ObserveAtDebug | src/main/kotlin/benjishults/context/polymorphism/ObservabilityScope.kt:258-271 | a DEBUG line without a throwable, then a mark |
| ObservabilityCompanion.ObserveAndBury | src/main/kotlin/benjishults/context/polymorphism/ObservabilityScope.kt:306-330 | never throws; a value comes back after INFO and a success mark; a throwable is replaced by the dummy after WARN (factory given null) and a failure mark |
| ObservabilityCompanion.ObserveAndThrow | src/main/kotlin/benjishults/context/polymorphism/ObservabilityScope.kt:347-370 | the block's outcome comes back unchanged, after INFO and a success mark, or ERROR and a failure mark |
| ObservabilityCompanion.ObserveAndThrowThrowable | src/main/kotlin/benjishults/context/polymorphism/ObservabilityScope.kt:381-390 | always throws the given throwable, after an ERROR line and a mark of the given meter |
| ObservabilityCompanion.BuryAndThrowAgreeOnSuccess | src/main/kotlin/benjishults/context/polymorphism/ObservabilityScope.kt:306-370 | on a block that returns, burying and rethrowing emit the same events and return the same value |
| ObservabilityCompanion.BuryAndThrowDifferOnFailure | src/main/kotlin/benjishults/context/polymorphism/ObservabilityScope.kt:306-370 | on a block that throws, they differ only in the log level, WARN against ERROR, and in returning the dummy against rethrowing |
| ObservabilityScope.ObserveAtError | src/main/kotlin/benjishults/context/polymorphism/ObservabilityScope.kt:32-38 | an ERROR line under the given key, or `failureLogKey` by default, then a failure mark |
| ObservabilityScope.ObserveAtWarn | src/main/kotlin/benjishults/context/polymorphism/ObservabilityScope.kt:48-54 | a WARN line under the given key, or `failureLogKey` by default, then a failure mark |
| ObservabilityScope.ObserveAtInfo | src/main/kotlin/benjishults/context/polymorphism/ObservabilityScope.kt:64-69 | an INFO line under the given key, or `successLogKey` by default, then a success mark |
| ObservabilityScope.ObserveAtDebug | src/main/kotlin/benjishults/context/polymorphism/ObservabilityScope.kt:79-84 | a DEBUG line under the given key, or `successLogKey` by default, then a success mark |
| ObservabilityScope.ObserveJustMarkSuccess | src/main/kotlin/benjishults/context/polymorphism/ObservabilityScope.kt:91-93 | no log line; one mark of the success meter and no other |
| ObservabilityScope.ObserveAndBury | src/main/kotlin/benjishults/context/polymorphism/ObservabilityScope.kt:111-127 | with the observer's meters: a value comes back after INFO and a success mark; a throwable becomes the dummy after WARN and a failure mark |
| ObservabilityScope.ObserveAndThrow | src/main/kotlin/benjishults/context/polymorphism/ObservabilityScope.kt:145-159 | with the observer's meters: the outcome comes back unchanged after INFO and a success mark, or ERROR and a failure mark |
| ObservabilityScope.ObserveAndThrowThrowable | src/main/kotlin/benjishults/context/polymorphism/ObservabilityScope.kt:170-181 | throws the throwable after an ERROR line under `failureLogKey` by default and a failure mark |
| ObservabilityScope.InstanceDefaults | src/main/kotlin/benjishults/context/polymorphism/ObservabilityScope.kt:32-84 | by default, ERROR and WARN use the failure key and meter; INFO and DEBUG use the success key and meter |
| ObservabilityScope.BuryDefaultFailureKey | src/main/kotlin/benjishults/context/polymorphism/ObservabilityScope.kt:111-115 | a buried failure is logged under `successLogKey + "-error"` by default, not under the observer's `failureLogKey` |
| SiamResponseScope.WithRequest | src/main/kotlin/benjishults/context/polymorphism/SiamResponseScope.kt:29 | adds or overwrites the "request" entry and keeps every other entry |
| SiamResponseScope.WithStatus | src/main/kotlin/benjishults/context/polymorphism/SiamResponseScope.kt:78 | adds or overwrites the "status" entry and keeps every other entry |
| SiamResponseScope.Ignored | src/main/kotlin/benjishults/context/polymorphism/SiamResponseScope.kt:36 | the ignored-error key is the failure key followed by `-ignored`, so it never equals the failure key itself |
| SiamResponseScope.ObserveNonException | src/main/kotlin/benjishults/context/polymorphism/SiamResponseScope.kt:70-98 | a good response only marks success; a failed one logs ERROR with its status and error, marks failure, and is thrown or let through under the `-ignored` key |
| SiamResponseScope.NextObserved | src/main/kotlin/benjishults/context/polymorphism/SiamResponseScope.kt:76-77 | `next` runs its stage only on a value: an upstream throwable passes by unchanged and adds no events; on a value the stage's events follow the earlier ones and its outcome is the result |
| SiamResponseScope.MapSiamResponseWithDummy | src/main/kotlin/benjishults/context/polymorphism/SiamResponseScope.kt:18-46 | an upstream error is rethrown under the observer's failure key with the request logged, or, with the flag clear, logged under `-ignored` and replaced by the dummy, which is then observed |
| SiamResponseScope.MapSiamResponse | src/main/kotlin/benjishults/context/polymorphism/SiamResponseScope.kt:51-68 | an upstream error is always rethrown under the `failureLogKey` argument; a failed response is always thrown |
| SiamResponseScope.IgnoredErrorThenDummyMarksBoth | src/main/kotlin/benjishults/context/polymorphism/SiamResponseScope.kt:35-44 | an ignored upstream error with a good dummy marks the failure meter once and the success meter once, with one log line |
| SiamResponseScope.RetrySiamResponse | src/main/kotlin/benjishults/context/polymorphism/SiamResponseScope.kt:100-113 | at least one and at most `maxRetries + 1` attempts, one delay between each |
| SiamResponseScope.RetryStopsOnGoodResponse | src/main/kotlin/benjishults/context/polymorphism/SiamResponseScope.kt:103-105 | by default a response that did not fail is forwarded after one attempt |
| SiamResponseScope.RetryFailureCarriesResponseError | src/main/kotlin/benjishults/context/polymorphism/SiamResponseScope.kt:100-113 | a throwing duration function fails the chain with its error, the response's error suppressed on it; when it throws the response's error itself, the chain fails with `addSuppressed`'s exception |
| NonNegativeInteger.ToNatFromNat | src/main/kotlin/benjishults/context/polymorphism/pra/NonNegativeInteger.kt:5-42 | reading back the numeral built for a natural number gives that number |
| NonNegativeInteger.FromNatToNat | src/main/kotlin/benjishults/context/polymorphism/pra/NonNegativeInteger.kt:5-42 | every numeral is the one built from its value: numerals and naturals correspond one to one |
| NonNegativeInteger.ToNatInjective | src/main/kotlin/benjishults/context/polymorphism/pra/NonNegativeInteger.kt:21 | two numerals are equal, as data classes, exactly when their values are |
| NonNegativeInteger.Successor | src/main/kotlin/benjishults/context/polymorphism/pra/NonNegativeInteger.kt:9-10 | the successor is a positive integer whose predecessor is the receiver, one larger in value |
| NonNegativeInteger.Add | src/main/kotlin/benjishults/context/polymorphism/pra/NonNegativeInteger.kt:24-25 | the recursive sum has the sum of the values |
| NonNegativeInteger.Multiply | src/main/kotlin/benjishults/context/polymorphism/pra/NonNegativeInteger.kt:28-29 | the recursive product has the product of the values |
| NonNegativeInteger.ZeroRules | src/main/kotlin/benjishults/context/polymorphism/pra/NonNegativeInteger.kt:36-40 | zero plus x is x; zero times x is zero |
| NonNegativeInteger.AddIsNatAddition | src/main/kotlin/benjishults/context/polymorphism/pra/NonNegativeInteger.kt:24-37 | adding the numerals of a and b gives the numeral of a + b |
| NonNegativeInteger.MultiplyIsNatMultiplication | src/main/kotlin/benjishults/context/polymorphism/pra/NonNegativeInteger.kt:28-40 | multiplying the numerals of a and b gives the numeral of a * b |
| NonNegativeInteger.MainChecks | src/main/kotlin/benjishults/context/polymorphism/pra/NonNegativeInteger.kt:44-55 | 0 + 0 = 0, 2 + 2 = 4, 2 * 2 = 4, 1 * 3 = 3 and 3 * 1 = 3 |
| ModN.Wrap | src/main/kotlin/benjishults/context/polymorphism/mod/ModN.kt:11 | an `Int` result is the exact result when it fits, and otherwise differs from it by a multiple of 2^32 |
| ModN.Rem | src/main/kotlin/benjishults/context/polymorphism/mod/ModN.kt:11 | Kotlin's `%`: for a non-negative dividend the remainder is the usual one, in [0, abs(n)); for a negative one it is minus the remainder of the negated dividend, in (-abs(n), 0] |
| ModN.Make | src/main/kotlin/benjishults/context/polymorphism/mod/ModN.kt:14-19 | the factory keeps its modulus |
| ModN.Add | src/main/kotlin/benjishults/context/polymorphism/mod/ModN.kt:7-12 | a negative operand fails the `require`; modulus 0 divides by zero; otherwise a sum that fits gives `(a + b) mod n` |
| ModN.AddInRange | src/main/kotlin/benjishults/context/polymorphism/mod/ModN.kt:7-12 | with a positive modulus and no overflow, the result lies in [0, n) |
| ModN.AddOverflowIsNegative | src/main/kotlin/benjishults/context/polymorphism/mod/ModN.kt:11 | `Int.MAX_VALUE.add(1)` modulo 3 wraps and gives -2 |
| ModN.Multiply7 | src/main/kotlin/benjishults/context/polymorphism/mod/ModN.kt:29-37 | a negative operand fails the `require`; otherwise a product that fits gives `(a * b) mod 7`, in [0, 7) |
| ModN.MainChecks | src/main/kotlin/benjishults/context/polymorphism/mod/ModN.kt:39-60 | `7.add(3)` is 1, 2, 0 and 3 modulo 3, 4, 5 and 7 |
| PropositionalFormula.Check | src/main/kotlin/benjishults/context/dsl/PropositionalFormula.kt:9-51 | whenever `check` returns, its answer is the formula's classical truth value under every assignment of the variables |
| PropositionalFormula.CheckAll | src/main/kotlin/benjishults/context/dsl/PropositionalFormula.kt:25-28 | `And` checks true exactly when every child checks true; whenever it answers, the answer is the conjunction of the children's truth values under every assignment |
| PropositionalFormula.CheckAny | src/main/kotlin/benjishults/context/dsl/PropositionalFormula.kt:30-33 | `Or` checks false exactly when every child checks false; whenever it answers, the answer is the disjunction of the children's truth values under every assignment |
| PropositionalFormula.UndecidedPropagates | src/main/kotlin/benjishults/context/dsl/PropositionalFormula.kt:9-23 | `Implies` throws exactly when its consequent throws, or the consequent is false and the antecedent throws; `Not` throws exactly when its operand throws |
| PropositionalFormula.CheckAllUndecided | src/main/kotlin/benjishults/context/dsl/PropositionalFormula.kt:25-28 | `And` throws exactly when some child throws and every child before it checked true |
| PropositionalFormula.CheckAnyUndecided | src/main/kotlin/benjishults/context/dsl/PropositionalFormula.kt:30-33 | `Or` throws exactly when some child throws and every child before it checked false |
| PropositionalFormula.VariableBeforeFalsityThrows | src/main/kotlin/benjishults/context/dsl/PropositionalFormula.kt:25-28 | `And(variable, falsity)` throws although it is false under every assignment, because the variable is reached first |
| PropositionalFormula.VariableFreeChecks | src/main/kotlin/benjishults/context/dsl/PropositionalFormula.kt:9-51 | a formula without variables always checks; `check` can throw only by reaching a variable |
| PropositionalFormula.VariableFreeChecksAll | src/main/kotlin/benjishults/context/dsl/PropositionalFormula.kt:25-33 | an `And` or `Or` of variable-free children always checks |
| PropositionalFormula.VariableCheckFails | src/main/kotlin/benjishults/context/dsl/PropositionalFormula.kt:47-51 | checking a variable throws |
| PropositionalFormula.ConstantsAndNegation | src/main/kotlin/benjishults/context/dsl/PropositionalFormula.kt:20-45 | `Truth` is true and `Falsity` false; `Not` negates and propagates a throw; empty `And` is true and empty `Or` false |
| PropositionalFormula.ImpliesSkipsAntecedent | src/main/kotlin/benjishults/context/dsl/PropositionalFormula.kt:13-14 | a true consequent decides `Implies` without evaluating the antecedent |
| PropositionalFormula.ImpliesIsMaterial | src/main/kotlin/benjishults/context/dsl/PropositionalFormula.kt:13-14 | when both sides check, `Implies` is `consequent or not antecedent` |
| PropositionalFormula.AndStopsAtFirstFalse | src/main/kotlin/benjishults/context/dsl/PropositionalFormula.kt:26-27 | an `And` whose first non-true child is false checks false |
| PropositionalFormula.PrefixDecidesAll | src/main/kotlin/benjishults/context/dsl/PropositionalFormula.kt:26-27 | whatever follows the first false child, even a variable, `And` checks false |
| PropositionalFormula.OrStopsAtFirstTrue | src/main/kotlin/benjishults/context/dsl/PropositionalFormula.kt:31-32 | an `Or` whose first non-false child is true checks true |
| PropositionalFormula.PrefixDecidesAny | src/main/kotlin/benjishults/context/dsl/PropositionalFormula.kt:31-32 | whatever follows the first true child, even a variable, `Or` checks true |
| PropositionalFormula.BooleanValue | src/main/kotlin/benjishults/context/dsl/PropositionalFormula.kt:57-60 | `undefined` is the only constant without a value; `true` carries true and `false` carries false |
| PropositionalFormula.BooleanResultOf | src/main/kotlin/benjishults/context/dsl/PropositionalFormula.kt:66-73 | the factory's constant carries exactly the given nullable boolean |
| PropositionalFormula.BooleanResultRoundTrip | src/main/kotlin/benjishults/context/dsl/PropositionalFormula.kt:57-73 | building a BooleanResult from a constant's own value gives back that constant |
| PropositionalFormula.ToBooleanAsWritten | src/main/kotlin/benjishults/context/dsl/PropositionalFormula.kt:62-64 | as written, `toBoolean` throws exactly on `undefined` and otherwise returns Unit |
| PropositionalFormula.ToBooleanAsWrittenLosesValue | src/main/kotlin/benjishults/context/dsl/PropositionalFormula.kt:62-64 | as written, `true` and `false` give the same result |
| PropositionalFormula.ToBoolean | src/main/kotlin/benjishults/context/dsl/PropositionalFormula.kt:62-64 | as intended, `toBoolean` throws exactly on `undefined` and otherwise returns the boolean the constant stands for |
| PropositionalFormula.ToBooleanRoundTrip | src/main/kotlin/benjishults/context/dsl/PropositionalFormula.kt:62-73 | converting a boolean to a BooleanResult and back gives the boolean |
| PropositionalFormula.Evaluate | src/main/kotlin/benjishults/context/dsl/PropositionalFormula.kt:77-88 | the empty valuation is undefined everywhere; a non-empty one gives the mapped boolean, or undefined for an absent variable |
| PropositionalFormula.EvaluateThenToBoolean | src/main/kotlin/benjishults/context/dsl/PropositionalFormula.kt:77-88 | a variable evaluates to a boolean exactly when a non-empty valuation maps it to that boolean |
| CollectionExtensions.FoldFrom | src/main/kotlin/benjishults/context/CollectionExtensions.kt:18-22 | `fold` with no items returns the starting map; with one item it calls the accumulator once |
| CollectionExtensions.FoldFromSnoc | src/main/kotlin/benjishults/context/CollectionExtensions.kt:18-22 | one more item applies the accumulator once more, to the map built so far |
| CollectionExtensions.FoldFromAppend | src/main/kotlin/benjishults/context/CollectionExtensions.kt:18-22 | folding a concatenation folds the second part from the first part's map |
| CollectionExtensions.ToMutableMap | src/main/kotlin/benjishults/context/CollectionExtensions.kt:18-22 | with no items the map is empty |
| CollectionExtensions.RunToMutableMap | src/main/kotlin/benjishults/context/CollectionExtensions.kt:18-22 | the loop calling the accumulator once per item, in order, builds the same map |
| CollectionExtensions.ToMap | src/main/kotlin/benjishults/context/CollectionExtensions.kt:9-10 | the read-only map has exactly the keys and values of the mutable one |
| CollectionExtensions.PutLastWriteWins | src/main/kotlin/benjishults/context/CollectionExtensions.kt:18-22 | with a put accumulator, the keys are the starting keys plus every item's key; each key holds the value of its last item; untouched keys keep their values |
| CollectionExtensions.PutSetsOneKey | src/main/kotlin/benjishults/context/CollectionExtensions.kt:27 | `this[it] = value` adds the item's key with the item's value and leaves every other key unchanged |
| CollectionExtensions.Utf16Length | src/main/kotlin/benjishults/context/CollectionExtensions.kt:27 | Kotlin's `String.length` counts UTF-16 code units: between one and two per character, exactly one per character iff every character is in the Basic Multilingual Plane, exactly two iff none is |
| CollectionExtensions.Utf16LengthAppend | src/main/kotlin/benjishults/context/CollectionExtensions.kt:27 | the code-unit count of a concatenation is the sum of the parts' counts |
| CollectionExtensions.EmojiIsTwoCodeUnits | src/main/kotlin/benjishults/context/CollectionExtensions.kt:27 | a character above the Basic Multilingual Plane (U+1F600) has length 2, and "a" before it gives 3 |
| CollectionExtensions.ToMapByLength | src/main/kotlin/benjishults/context/CollectionExtensions.kt:27 | `toMap { this[it] = it.length }` has exactly the strings as keys, each mapped to its UTF-16 length |
| CollectionExtensions.ToMapByLengthIs | src/main/kotlin/benjishults/context/CollectionExtensions.kt:27 | any map whose keys are exactly the strings, each mapped to its UTF-16 length, is the map `toMap { this[it] = it.length }` builds |
| CollectionExtensions.TenZeroStringsAreBmp | src/main/kotlin/benjishults/context/CollectionExtensions.kt:25 | every character of `"0".repeat(it)` for 1 to 10 is inside the Basic Multilingual Plane, so there `length` counts characters |
| CollectionExtensions.ExampleMatchesLengths | src/main/kotlin/benjishults/context/CollectionExtensions.kt:25-40 | the example's expected map has exactly the example's strings as keys, each mapped to its UTF-16 length |
| CollectionExtensions.TenZeroStringsByLength | src/main/kotlin/benjishults/context/CollectionExtensions.kt:24-42 | the check in `main` holds: the strings "0" to "0000000000" map to 1 to 10 |

## Left out

- Ratpack's execution model is not modelled: scheduling, forked executions, `execInit`, and the concurrency of a batch's promises. A batch is the list of results its promises settled with.
- ParallelBatchFailFast: for a non-empty list the model only says that the batch's `yield()` decides. Ratpack's fail-fast semantics belong to the library, which is not part of this model.
- The timer of the list combinators (`maybeTime`) and the `Promise`/`Operation` adapters around them are not modelled, because they only attach timing or re-wrap the same combinator. The adapters are `parallelBatch`, `parallelBatchOrThrow` and `parallelBatchAndFilter` with a transformer, plus `List<Operation>.parallelBatchOrThrow` and `parallelBatchOpsOrThrow`.
- `nextOpIf`, both `onErrorAndThrow` overloads, `fork`, `optionallyFork` and the `Pair` destructuring operators are not modelled. They are one-line delegations to Ratpack with no logic of their own.
- A promise that completes without a value is not modelled inside a batch: results are value or error.
- KeyedParallelBatch: the failures map is created once per call. A promise subscribed twice would share it; the model covers one subscription. The input map's iteration order is the order of the entries given.
- ParallelBatchOrThrow: `it != firstFailedResult` compares results by value here. If Ratpack's ExecResult compares by reference, a second result holding the first failure's throwable in the same state would be suppressed into it, and `addSuppressed` would throw. The model drops that result instead. OrThrowSuppressesAllLaterFailures assumes no later result equals the first failure, so it holds under either reading.
- ConditionallyRetryAttempt: an exception that `addSuppressed` throws inside the `onSuccess` action is taken to reach `down.error`, as Ratpack's `Downstream.onSuccess` routes its action's exceptions. Ratpack is not part of this model.
- The retry chain's `Execution.sleep` is not modelled: a delay is recorded, not waited.
- Kotlin `Int` overflow of `retryNum + 1` is not modelled: retry numbers are unbounded.
- `retryCondition`, `resultThrowableExtractor`, `dummyValueFactory` and `logMapFactory` are pure functions in the model. A throwing factory would change which `finally` branch runs.
- BackOffStep: `Promise.retry` belongs to Ratpack; only its per-retry warning and delay are modelled. `firstDelayMillis * retry` is unbounded; the model ignores Kotlin `Long` overflow.
- MapSiamResponseWithDummy: `throwExceptionOnSiamFailureDetermination` is invoked twice in the source. The model reads it once, so a flag that changes between the two calls is not modelled.
- SiamResponse: `error` is taken to be non-null whenever it is read. The SIAM client library is not part of this model.
- `request.toString()` is a string parameter whose default, "null", is what `null.toString()` gives.
- PropositionalVariable has no `equals`, so two variables are the same only if they are the same object. The model gives each variable an `id` standing for that identity.
- Meter errors are not modelled: meters are not called, so no observation can fail while marking. The code catches none of them, so such an error would propagate.
- Loggers and meters are not called. Observations return the events they would emit, so what a logging backend does with a line is left out.
- `Adder.kt`, `Combinable.kt`, `CoroutineContext.kt`, `Logging.kt`, `Auditable.kt` and `build.gradle.kts` are not part of this model.

## Findings

| source | as written | input that shows it | evidently intended | confidence | as-written member | corrected member |
|---|---|---|---|---|---|---|
| src/main/kotlin/benjishults/context/dsl/PropositionalFormula.kt:62-64 | `toBoolean()` has a block body and no return type, so it returns `Unit`; the boolean is computed and dropped | `` BooleanResult.`true`.toBoolean() `` and `` BooleanResult.`false`.toBoolean() `` both return `Unit` | `fun toBoolean(): Boolean = booleanValue ?: throw UnevaluatedException()` | not executed; follows from Kotlin's rules for block bodies | PropositionalFormula.ToBooleanAsWrittenLosesValue | PropositionalFormula.ToBooleanRoundTrip |
