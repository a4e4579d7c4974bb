# Verified model of the AI gateway

A Dafny model of the request path of this repository (Go gateway, gRPC channel, Python
servicers) and of the manifest patchers of `deploy.sh`, with proofs of what they promise.
`dafny verify dfyconfig.toml` checks the whole project.

## What is modelled

**The serving system** (`Serving.dfy`) is a step machine over any number of requests on the
three predict routes. One step is one effect: a validation, the return of the generated
client, an increment of a counter, one `Recv`, one event, one chunk taken from Ollama, one
activity check, one `yield`, the release of a worker. Steps of different requests interleave
freely. The environment is an adversary: it chooses the schedule, what Ollama and the
classifier do for each request, breaks any RPC with any error at any time (expiry,
cancellation, transport failure), and takes clients away. It keeps to these rules:

- messages of one RPC arrive in order;
- `Recv` returns EOF (and a unary call OK) only if the servicer ended with status OK, all its
  messages were received and the RPC was not broken;
- a server context becomes inactive only after its RPC was broken or cancelled, and stays so;
- `c.Stream` stops early only when the client is gone;
- the gRPC server rejects a call when 20 are accepted and runs at most 10.

`CallInvariant.dfy` has the inductive invariant of one request, `Tallies.dfy` and `Runs.dfy`
lift it to the system; `StreamResults.dfy`, `UnaryResults.dfy`, `Accounting.dfy` and
`Scheduling.dfy` hold the results about all runs. `Deadlines.dfy` gives each effect of a
handler a duration and sets the runs against the write deadline. `Scenarios.dfy` has runs at
literal requests.

**The handlers and servicers by themselves** (`Handlers.dfy`, `Servicers.dfy`) are the same
code in imperative form: methods over a mutable gin context, metric registry, client stream,
servicer context and pooled request objects, each with its loops. Their contracts use the
functions of `Gateway.dfy` (`ModelOutcome`, `StreamOutcome`, `IrisOutcome`, `Delivered`,
`Answer`, `EventsOf`, `FinalCharge`), and so do the results that tie them to the machine.
`Accounting.FinishedAsIfAlone`: whatever a request that finishes among others decided and
received is what some run of its handler method alone decides and receives, with the same
answer and events, cut short only if its client left. `Accounting.QuiescentCounters`: once
all requests have finished, each counter is the sum of what those methods add.

**The request pool** (`RequestPool.dfy`) interleaves the borrow, the four assignments, the
read by the RPC, the reset and the return of pooled objects with arbitrary discards, and
refines a machine that allocates. The serving system lets an iris servicer answer its caller's
own features by definition; `PooledServing.dfy` runs both machines together, where the
servicer answers whatever its RPC has read from the pooled object, and shows that the serving
system has exactly the same runs (`PooledServing.ServingRunLifts`).

**Arithmetic and text**: the int64 write-timeout guard (`Config.dfy`), code-point counting on
UTF-8 bytes (`Utf8.dfy`, section 3 of RFC 3629), and the `sed` substitutions
(`Patterns.dfy`, `Manifests.dfy`, `GpuTarget.dfy`) with leftmost-longest matching as in
section 9.1 of the Base Definitions of POSIX.1-2017.

## Properties that hold only under a condition

- *Write-timeout headroom.* The comment on the field (service_go/config/config.go:32-35)
  promises a deadline of at least `ModelTimeout` + 15 s unless it is disabled. When the sum
  overflows int64 the guard does nothing (`Deadlines.OverflowIsLate`). When `MODEL_TIMEOUT`
  is negative the guard raises the deadline only to the sum, which is below 15 s: with
  `MODEL_TIMEOUT=-20s` and `HTTP_WRITE_TIMEOUT=1s` the deadline stays at 1 s, and a handler
  that uses its 15 s misses it (`Deadlines.NegativeIsLate`).
  `Deadlines.HeadroomCharacterized` gives the exact condition.
- *GPU target, last address wins.* A line that opens the gpu range only by text inside its
  own target loses that text in the first run, and the second run no longer rewrites it.
  `GpuTarget.LastAddressWins` is an equivalence with a condition on the file alone;
  `GpuTarget.LostOpener` is a file that fails it.
- *Iris complaints.* The decision does not depend on Go's random map order, but the text of
  the 400 answer does as soon as two features are out of range
  (`IrisFeatures.ComplaintTextDetermined`); `Gateway.TwoComplaints` is a request that can get
  either of two texts.
- *Counts outside int32.* A chunk whose counts do not fit the message type ends a stream with
  INTERNAL, because the message is built inside the `try`; a unary call raises out of the
  servicer and gets UNKNOWN. Both reach the client as an internal error.

## Model

| member | source | states |
|---|---|---|
| StreamResults.RelayIsFaithful | service_go/handlers/model.go:164-197 | in every reachable state the message events are the images of an in-order, gap-free, duplicate-free prefix of Ollama's chunks; `done` only if Ollama's stream ended without exception and every chunk was relayed |
| StreamResults.MessagesTellChunks | service_python/models/ollama_predictor.py:145-151 | in every reachable state the k-th message event has the text, the counts and the duration of Ollama's k-th chunk, "" and 0 for absent parts, and the model's name |
| StreamResults.TextIsRelayed | service_go/handlers/model.go:187-195 | the texts that the client has read, put together, are those of the first chunks, and the whole generated text once `done` was shown |
| StreamResults.StreamShape | service_go/handlers/model.go:142-197 | events are `message* (done \| error)?`; a finished stream has its terminal event unless the client left; events and a JSON response exclude each other |
| StreamResults.StreamAnswer | service_go/handlers/model.go:164-197 | in any interleaving a finished stream whose client stayed shows its own events, or one STREAM_ERROR if rejected for overload, or, only if its RPC was broken, the images of some first chunks and then the error that broke it (a JSON error if the client stream could not be created) |
| StreamResults.UndisturbedStream | service_python/models/ollama_predictor.py:124-154 | a stream whose RPC is not broken and whose client stays shows exactly the events that its own prompt and Ollama's behaviour determine, in any interleaving; a rejected call shows one STREAM_ERROR; status 200 |
| StreamResults.ServicerAsIfAlone | service_python/models/ollama_predictor.py:123-154 | in any run a servicer ends as its contract says for a call alone; a stream is cut only if its context was inactive |
| UnaryResults.UnaryAnswer | service_go/handlers/model.go:63-96 | in any interleaving a unary request gets exactly the response its own input determines, or 500 INTERNAL_ERROR if rejected for overload, or, only if its RPC was broken, the translation of that error |
| UnaryResults.SuccessIsOwn | service_go/handlers/iris.go:140-145 | a 200 is always the result for the caller's own input, whatever was broken |
| UnaryResults.ReplyTellsAnswer | service_python/models/ollama_predictor.py:96-102 | a 200 of the model route has every part of Ollama's answer in its own field |
| UnaryResults.ExpectedIsAnswer | service_python/models/ollama_predictor.py:24-32 | the end-to-end table: blank prompt 400, timeout 504 (although it is a transport error), other transport and response errors 503, anything else 500 |
| UnaryResults.RefusedRequest | service_go/handlers/model.go:48-58 | a refused request gets the 400 answer of some iteration order and starts no RPC; any other request starts one |
| UnaryResults.AcceptedIrisNeverInvalid | service_python/models/iris_predictor.py:104-110 | the servicer never answers INVALID_ARGUMENT to an iris request the gateway let through |
| Accounting.MetricsBalance | service_go/handlers/model.go:63-86 | per route: gRPC ok = HTTP 200 + requests between the two updates; gRPC errors + refusals = HTTP errors + requests between; HTTP total = observed durations + requests counted and not yet observed |
| Accounting.QuiescentBalance | service_go/handlers/iris.go:125-140 | once every request has finished the counts agree exactly |
| Accounting.StatusLabels | service_go/handlers/api_error.go:104-120 | no status label other than 200, 400, 500, 503, 504 is ever counted |
| Accounting.LabelsMatchAnswers | service_go/handlers/api_error.go:104-109 | per route, `http_requests_total` of a status counts the requests whose client was sent that very status (a stream 200), up to the requests between the two updates, and exactly once all have finished |
| Accounting.TokensConserved | service_go/handlers/model.go:181-185 | the token counter of a model is the sum of the positive counts of all replies and chunks whose accounting step has run, and its observations are their number |
| Accounting.DoneStreamTokens | service_python/models/ollama_predictor.py:145-151 | the contribution of a `done` stream to the token counter of its model is the sum of the positive counts over all of Ollama's chunks, absent counts as 0, its observations are their number, and it adds nothing for other models |
| Accounting.CountersGrow | service_go/metrics/metrics.go:12-56 | no counter decreases in any run |
| Accounting.FinishedAsIfAlone | service_go/handlers/model.go:118-198 | every request finished among others decided, answered and received what its handler's contract says for the result its own RPC came to: the servicer's reply, its error status, or the error that broke the RPC; a stream is cut short only if its client left |
| Accounting.QuiescentCounters | service_go/handlers/model.go:63-86 | once every request has finished, each counter is the sum of what the handlers alone would have added: no update is lost or doubled |
| Scheduling.AdmissionLimits | service_python/server.py:51-55 | at most 10 calls execute and at most 20 are accepted in every reachable state |
| Scheduling.AdmissionIsExact | service_python/server.py:51-55 | a call is accepted exactly while fewer than 20 are, rejected exactly while 20 are, dispatched exactly while fewer than 10 execute |
| Scheduling.LimitsAreReached | service_python/server.py:51-55 | a state with 10 executing and 20 accepted calls and one more that is rejected can be reached |
| Scheduling.AtMostTenWait | service_python/server.py:51-55 | at most 10 calls wait along every run in which no call is accepted while a worker is free and a call waits |
| Scheduling.WorkerHeldUntilReturn | service_python/server.py:15-19 | a worker is held until the servicer returns, whatever the client and the handler do |
| Scheduling.CancellationBound | service_python/models/ollama_predictor.py:141-151 | once the context is inactive the generator consumes at most one more chunk and yields at most the one whose check had passed |
| Scheduling.StepsBounded | service_go/handlers/model.go:119-197 | every request makes at most `Fuel` steps in any schedule, also while others arrive |
| Scheduling.Progress | service_python/models/ollama_predictor.py:128-154 | no deadlock: while a request is unsettled the system can make a step of its own |
| Scheduling.EveryScheduleFinishes | service_go/handlers/model.go:119-120 | schedules end within the total fuel; where nothing can move, every handler is finished, its duration observed and every slot free; such an end is always reachable without the environment |
| Scheduling.FreshFuel | service_go/handlers/model.go:119-197 | a new request makes at most 24 steps and 6 for each of Ollama's chunks, whoever makes them |
| Scenarios.StreamIsServed | service_go/handlers/model.go:118-198 | "Hi", answered by Ollama with "Hello" and " you", can be shown as exactly these two messages with their counts, then `done` |
| Scenarios.StreamIsAbandoned | service_python/models/ollama_predictor.py:141-144 | if the client leaves after "Hello", the handler can finish while the servicer holds its worker; it takes one more chunk, drops it and ends |
| Runs.RunKeeps | service_go/handlers/model.go:118-198 | the system invariant holds along every run |
| CallInvariant.StepInv | service_go/handlers/model.go:118-198 | every step of handler, server or environment keeps the invariant of its request |
| Tallies.MetricChange | service_go/handlers/model.go:71-86 | each step changes each counter by exactly the change of its request's contribution |
| RequestPool.PoolRefinesAllocation | service_go/handlers/iris.go:109-126 | every run with the pool is a run of the allocating handlers, with the same objects seen, outcomes and responses |
| RequestPool.PoolIsClean | service_go/handlers/iris.go:111-115 | no object is both pooled and held, none is held twice, pooled objects are all zero |
| RequestPool.NoLeakBetweenCalls | service_go/handlers/iris.go:117-126 | each RPC sees exactly its caller's features; a response is the servicer's answer to them or an error |
| RequestPool.NothingIsLost | service_go/handlers/iris.go:111-115 | every object ever allocated is pooled, held by a call, or was discarded by the collector |
| PooledServing.PooledRunProjects | service_go/handlers/iris.go:109-135 | every run of the serving system with the pool inlined, its servicers answering what was read from pooled objects, is step by step a run of the serving system and a run of the pool |
| PooledServing.ServingRunLifts | service_go/handlers/iris.go:109-146 | the runs of the serving system are exactly those with the pool inlined: the pool neither adds nor loses behaviour |
| PooledServing.ObjectServesItsCaller | service_go/handlers/iris.go:111-126 | among all requests and discards an iris RPC carries its caller's own features, pool and gateway agree on outcome and response, and a finished handler has put its object back |
| RequestPool.StepRefines | service_go/handlers/iris.go:52-61 | each pool step is a step of the allocating machine, or none for resets and discards |
| Handlers.ModelHandler.Predict | service_go/handlers/model.go:41-97 | response and exact counter updates of POST /predict/model on every path |
| Handlers.ModelHandler.StreamEvents | service_go/handlers/model.go:164-197 | the receive loop writes the event of every result received and charges exactly their tokens |
| Handlers.ModelHandler.PredictStream | service_go/handlers/model.go:118-198 | response, events and exact counter updates of the stream route on every path |
| Handlers.Metrics.AddTokens | service_go/handlers/model.go:80-84 | every counter grows by exactly the charge of the reply: the tokens and one observation of its model for a positive count, nothing otherwise |
| Handlers.IrisHandler.Predict | service_go/handlers/iris.go:77-146 | response, counters and pool of POST /predict/iris; the client sees the caller's features once or, if refused, nothing |
| Handlers.IrisHandler.Forward | service_go/handlers/iris.go:109-145 | borrow, fill, call, answer, reset, return: the pool stays clean |
| Handlers.IrisHandler.Get | service_go/handlers/iris.go:56-60 | a pooled object, removed from the pool, or a fresh one; empty in both cases |
| Handlers.StreamBilled | service_go/handlers/model.go:141-185 | a stream's updates add up to its final charge |
| Servicers.ModelPredict | service_python/models/ollama_predictor.py:61-102 | reply and status for every prompt and every behaviour of Ollama |
| Servicers.ModelPredictStream | service_python/models/ollama_predictor.py:104-154 | yields the images of a prefix of the chunks; everything if exhausted; stops exactly at the first failed activity check; each status only for its own reason |
| Servicers.SetOllamaError | service_python/models/ollama_predictor.py:14-32 | DEADLINE_EXCEEDED exactly for a timeout, UNAVAILABLE exactly for another transport error or a response error, INTERNAL exactly otherwise |
| Servicers.IrisPredict | service_python/models/iris_predictor.py:77-121 | reply and status for all features, whether the classifier answers, raises, or answers with an index of which no response can be built, which raises outside the try block |
| Servicers.AcceptedNeverInvalid | service_python/models/iris_predictor.py:98-110 | INVALID_ARGUMENT exactly for the features that the gateway refuses |
| Servicers.AcceptedRange | service_go/handlers/iris.go:29-38 | gateway and servicer both accept exactly four finite measurements from 0 to 50, both included, negative zero too |
| Servicers.StatusTable | service_python/models/ollama_predictor.py:24-32 | codes and texts of every failure on the wire |
| Servicers.BlankMeaning | service_python/models/ollama_predictor.py:76-79 | stripping leaves nothing exactly of prompts of white space only |
| Servicers.SpaceTable | service_python/models/ollama_predictor.py:76 | the 29 white space characters of str.strip |
| Servicers.FitsIsRoundTrip | service_python/models/ollama_predictor.py:96-102 | a message can be built exactly if the counts survive 32-bit and the duration 64-bit two's complement |
| IrisFeatures.ValidateFeatures | service_go/handlers/iris.go:97-107 | the loop returns the first complaint in iteration order |
| IrisFeatures.TiersAgree | service_go/handlers/iris.go:29-38 | over all floats and every order, the gateway accepts exactly what the servicer accepts |
| IrisFeatures.ComplaintBlames | service_go/handlers/iris.go:29-38 | a complaint names a feature that is out of range, with the text for its kind |
| IrisFeatures.ComplaintTextDetermined | service_go/handlers/iris.go:97-107 | the text of the complaint is the same for all orders if and only if at most one feature is out of range |
| Gateway.TwoComplaints | service_go/handlers/iris.go:87-107 | a complete request with the measurements -1 and 60 gets different texts in two orders |
| Gateway.RefusalTable | service_go/handlers/model.go:48-58 | the texts of all 400 answers, which of them comes first, and that no other request is refused |
| Gateway.FailureAnswer | service_go/handlers/api_error.go:104-109 | status, code and message answered to every RPC error |
| Gateway.EventTable | service_go/handlers/model.go:164-179 | the event of every result of Recv |
| Gateway.PromptLimitCountsCodePoints | service_go/handlers/model.go:52-58 | both model routes refuse a non-empty prompt for length exactly when it has more than MaxPromptLen code points |
| Gateway.EventsMirror | service_go/handlers/model.go:164-197 | events correspond one to one to received results and carry the same replies |
| Utf8.RuneCountOfEncoding | service_go/handlers/model.go:52-54 | the byte-level count of an encoded prompt is its number of code points, between a quarter of the bytes and the bytes |
| Utf8.RuneCountIsDecodedLength | service_go/handlers/model.go:129 | on any bytes the count is the length of what decoding yields |
| Utf8.StepIsExact | service_go/handlers/model.go:54 | the counter takes several bytes only for the encoding of a code point, and one byte only where none starts |
| Utf8.DecodeEncode | service_go/handlers/model.go:54 | decoding an encoded prompt gives it back |
| ApiErrors.ApiErrorAllowList | service_go/handlers/api_error.go:68-99 | 504, 503 and 400 for exactly one gRPC code each, 500 for everything else; code and status determine each other; the message passes through |
| ApiErrors.ErrorStrings | service_go/handlers/model.go:173-177 | the text of a STREAM_ERROR: code and message as grpc-go prints them |
| Configuration.Load | service_go/config/config.go:75-112 | the loaded durations, defaults for unset and unparsable variables, and the guard |
| Configuration.Defaults | service_go/config/config.go:92-102 | the defaults in nanoseconds and characters for unset and unparsable variables, the given value otherwise |
| Configuration.UnparsableIsUnset | service_go/config/config.go:122-147 | an unparsable variable has no more effect than an unset one |
| Configuration.GuardIsLeastRaise | service_go/config/config.go:105-109 | the guard is the least raise that covers ModelTimeout + 15 s, keeps a disabled deadline, is idempotent; it does nothing on overflow |
| Deadlines.HeadroomCharacterized | service_go/config/config.go:59-61 | over all interleavings and timings of model-route requests that spend at most 15 s outside an RPC bounded by ModelTimeout, every response and every event is written before the deadline that Load yields, if and only if it is disabled, or ModelTimeout is not negative and the sum fits, or no RPC can take time and 15 s were configured |
| Deadlines.HeadroomMeaning | service_go/main.go:69-75 | the same for any deadline: 15 s above the longest RPC that the prompt limit and the timeout allow are needed and enough |
| Deadlines.AnswerInTime | service_go/handlers/model.go:60-78 | with the headroom, a finished request whose client stayed has its whole answer on the connection in time, be it a 200, a refusal, a 504 or a stream with its final event |
| Deadlines.LateTimeoutRun | service_go/handlers/model.go:60-78 | the run in which the RPC expires after exactly ModelTimeout and the 504 takes all of the headroom |
| Deadlines.LateStreamRun | service_go/handlers/model.go:164-178 | the run in which `Recv` waits until the RPC expires and the STREAM_ERROR takes the rest of the headroom |
| Deadlines.OverflowIsLate | service_go/config/config.go:105-109 | the largest MODEL_TIMEOUT overflows the guard, 75 s stay, answers can be late |
| Deadlines.NegativeIsLate | service_go/config/config.go:105-109 | with MODEL_TIMEOUT=-20s and HTTP_WRITE_TIMEOUT=1s the deadline is 1 s and answers can be late |
| Patterns.Find | deploy.sh:213 | the match found is the leftmost and among those the longest; none only if nothing matches |
| Patterns.SubstituteTwice | deploy.sh:213-216 | a second rewriting of a line erases every trace of the first, despite the greedy match |
| Patterns.RewrittenSpan | deploy.sh:188 | a rewritten line matches again exactly where it was rewritten |
| Manifests.PatchJaegerEndpoint | deploy.sh:204-218 | both manifests become their rewritten selves; nothing happens without an address |
| Manifests.PatchOllamaSvc | deploy.sh:131-141 | the same for the Ollama endpoint |
| Manifests.SedSubstitute | deploy.sh:139 | sed -i in place, line by line |
| Manifests.RedeployLastWins | deploy.sh:201-218 | any history of runs leaves what the last detected address alone would leave, for every file |
| Manifests.RewrittenFrame | deploy.sh:213-217 | the line count and every line without a match are unchanged; of a line only the matched text changes |
| Manifests.JaegerLine | deploy.sh:213 | what becomes of an endpoint line, at any indentation and whatever its value |
| Manifests.OllamaLine | deploy.sh:139 | the same for the address of the Ollama endpoint |
| Manifests.OtherEndpointStays | deploy.sh:216 | the Ollama host in python-ai.yaml stays |
| GpuTarget.PatchPrometheusGpu | deploy.sh:172-199 | the range flag loop and the append branch compute the specified file |
| GpuTarget.LastAddressWins | deploy.sh:187-198 | last address wins over any history of runs if and only if every opening line survives its own substitution |
| GpuTarget.RangedMeaning | deploy.sh:188 | for every file, exactly the lines in the declarative address range are rewritten: those from a line that opens a range to the first later line that closes it |
| GpuTarget.LostOpener | deploy.sh:187-198 | a one-line file for which the last address does not win |
| GpuTarget.SeparateLinesKeepOpeners | deploy.sh:188 | a file in which no line both opens and closes the range meets the condition |
| GpuTarget.NeverASecondJob | deploy.sh:187-197 | a file with a job keeps its line count and gains no job; a file without one keeps its lines and ends with exactly one |
| GpuTarget.FreshJobRewritten | deploy.sh:190-197 | after an append the next run rewrites the appended job |
| GpuTarget.GpuJobAtLiterals | deploy.sh:187-198 | a literal configuration with another job gets the gpu job appended, terminated or not; the next run changes its address only |
| GpuTarget.RangeAtLiterals | deploy.sh:188 | a remark about targets does not close the range, the target line does |

## Left out

- Serving.Served: the accepted-call and worker bookkeeping belongs to the gRPC library and is modelled as steps of a machine on values, not as an object; `create_server` only sets its two limits.
- Configuration.GetEnv: parsing of durations and integers is a parameter; the string settings, the boolean, the idle and shutdown timeouts and the gRPC client settings are not modelled.
- Handlers.GinContext: the JSON encoding, SSE framing and request identifiers are not modelled; a response or an event is a constructor carrying the protobuf message.
- Gateway.TokenCharge: the counter is a natural number, not a float64; generation durations are counted, not summed, and histogram buckets are not modelled.
- HTTP read timeouts and slow clients appear only as durations of handler steps; a wait that outlives its context by some scheduling delay is modelled as ending on time.
- Ollama, the classifier and model loading are arbitrary behaviours, not code.
- A stream source is finite; a hanging Ollama appears as a timeout at its end.
- Protobuf encoding, gRPC internals, health endpoints, tracing, pprof, logging, the GPU exporter and signal handling.
- The rest of `deploy.sh`; `patch_prometheus_target` has a pattern that no line of prometheus.yml matches. The three modelled patchers assume an address of digits and dots, as an IPv4 interface prints.
- Handler panics and wrapped Go errors.
