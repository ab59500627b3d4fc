# PySetu: verified models

A Dafny model of the parts of PySetu in which state, order and arithmetic meet, with proofs about all inputs, all runs
and all interleavings. `dafny verify dfyconfig.toml` checks everything.

| area | files |
|---|---|
| Redis fixed-window limiter: state machine, invariant, theorems, attained bound, client code | `Redis`, `RateLimiter`, `RateLimiterInvariants`, `RateLimiterTheorems`, `RateLimiterCalls`, `RateLimiterBurst`, `RateLimiterClient` |
| Token budget: the same for check-then-report | `TokenBudget`, `TokenBudgetTheorems`, `TokenBudgetExact`, `TokenBudgetWindow`, `TokenBudgetClient` |
| MCP gateway: framings, event-stream reader, decisions, proxy loop, multiplexer | `Text`, `Json`, `Framing`, `SseReader`, `Gateway`, `GatewayRuns`, `GatewayResponses`, `Multiplex` |
| Policy: path patterns, rule evaluation, checksummed cache | `Paths`, `PathMatching`, `Globbing`, `Policy`, `DefaultPolicy`, `PolicyCache` |
| Detection and redaction; enforcement on disk | `Detection`, `Rescanning`, `Disk`, `Enforce` |
| Audit ingestion | `AuditEvents`, `AuditIngestion`, `AuditIngestionTheorems`, `AuditStoring`, `AuditReingestion`, `AuditSplitting` |
| Cost analytics and compounding savings | `Rounding`, `UsageCost`, `CostBuckets`, `BucketSorting`, `CostAnalytics`, `CostAnalyticsTheorems`, `CostByRows`, `CompoundingCost` |
| Compliance controls and scores | `ComplianceControls`, `ComplianceScores`, `ComplianceRange` |

Code that works step by step is a method or class with loops, tied to a specification function; the lemmas are about
those functions. A Redis command or `MULTI` pipeline is one atomic step, a caller a small program counter, and time a
step of its own. An upstream is what it has been sent and what it has sent that nobody has read.

## What the model takes for granted

- Redis does not fail, except where a lemma says so; times are in milliseconds, TTLs whole seconds. A call counts as
  admitted at its INCR. `scope` stands for whatever identifies the caller in a key.
- The JSON codec reads back what it writes, on one line of ASCII without newlines (`Lossless`); SHA-256 and the canonical
  dump are injective (`Injective`); a regular expression finds ordered, disjoint, non-empty spans (`WellBehaved`), and no match of
  the twelve patterns begins with a bracket (`NeverOpens`): they begin with a dash, a letter, a digit or one of `._%+-`.
- No match of the twelve begins or ends between two word characters (`Fenced`). All but the generic secret are told by
  the characters they cover and by word boundaries (`Searches`), and their matches keep off markers (`KeepsOff`).
- Text is ASCII where white space and case matter. Character classes in globs are a parameter.
- The client's end of stream is a null message, as the source's reader reports it, and so is the end of an upstream's output.
- Paths on disk are absolute and normalised, without links; nobody else writes to the disk meanwhile. Which operations fail, and the
  random part of temporary names, are arbitrary.
- Ingestion calls come one after the other; one reading of the clock serves a call.
- Money is exact: rounding is to the nearest, ties to even, of exact numbers and not of binary fractions.

## What the proofs show about the code

- A fixed window lets through 2 * limit - 1 calls in one window's time, not limit: proved as a bound and reached.
- A caller that fails open between INCR and EXPIRE leaves a counter that never expires and, once its
  limit is reached, blocks its key for good.
- Token budgets are overshot by concurrent requests, because the check does not reserve. The bound is exact for every limit
  and every size of at least 1, and one window's time takes in up to twice that, less one. A budget holds exactly when a single
  request fits it, requests do not overlap and none uses more than it asked for.
- The header comment of the enforcement file, that all writes are atomic so that a crash never leaves a partial file, holds
  of the file itself but not of its backup, which is copied in place: a crash can leave a partial backup of every file that
  is not empty, as soon as the backup has been opened. Redacting again overwrites the earlier backup, and loses it exactly
  when its content is different. The stamped quarantine name is not checked.
- A scan looks at the first 1,000,000 characters. Redacting a longer file drops everything past them from the file
  itself; only the backup still has it.
- Findings always come with a redacted copy, also in texts that already hold the marker. No match of eleven of the twelve patterns
  is left in it, and none is made; the generic secret can match a marker that stands behind its keyword.
- The order of rules matters when the strictest applicable rules disagree, which only unknown actions make possible. The cache's checksum
  covers the rules and not the version.
- `approval` and `log` forward a sensitive call unchanged, and so does a redaction that parses to `null`.
- A `tools/call` without an id leaves the gateway waiting for an answer. A `null` line ends the proxy. The multiplexer
  answers notifications for unknown servers, which JSON-RPC 2.0 (section 4.1) does not provide for.
- The event-stream reader also ends lines at a vertical tab, form feed and the other breaks of `splitlines`; which lines this
  changes is stated exactly.
- Repeating a batch of audit events a day later can store identified events it dropped before; cutting a batch in two can
  change what is stored, for one when two sources report one discovery; when it does is stated exactly. Identifiers are compared after cutting to 255 characters.
- Two client keys share a team bucket when the name of one without an id is the id of the other. Buckets
  round at every step, so one that only meets requests of less than 0.00005 dollars stays at zero. Savings from routing
  leave dearer models out of the account.
- Four of the seven compliance frameworks cannot become compliant, and the headline score stays within 35.7 and 96.0. A
  first draft lowers a SOC 2 control when some policy is active.

## Model

| member | source | states |
|---|---|---|
| RateLimiterInvariants.InvStep | backend/app/core/rate_limit.py:59-101 | one command of any call, or the passing of time, keeps the invariant: who owes an EXPIRE, how counters relate to their attempts, how far apart two counters of one key begin |
| RateLimiterInvariants.InvReachable | backend/app/core/rate_limit.py:59-101 | the invariant holds in every state that any interleaving reaches |
| RateLimiterTheorems.TtlObligation | backend/app/core/rate_limit.py:66-68 | in every reachable state a counter has no expiry exactly when some call is about to set it, and that call is unique |
| RateLimiterTheorems.GenerationAdmission | backend/app/core/rate_limit.py:66-72 | the counters of a key, one after the other, each admit exactly the smaller of their attempts and the limit |
| RateLimiterTheorems.SlidingBound | backend/app/core/rate_limit.py:59-75 | whatever the interleaving, a half-open interval one window long holds at most 2 * limit - 1 admitted attempts of a key, and none when the limit is 0 |
| RateLimiterBurst.SlidingBoundIsExact | backend/app/core/rate_limit.py:59-75 | for every key and every limit of at least 1 there is a run that reaches 2 * limit - 1 in one window |
| RateLimiterCalls.CallOutcome | backend/app/core/rate_limit.py:78-101 | a finished call was allowed exactly when each of its limits counted and admitted it; a refused one stopped at the first limit without room, left the later counters alone and was told to wait between 1 second and the window |
| RateLimiterCalls.FollowsInOrder | backend/app/core/rate_limit.py:88-95 | attempts that follow the configured limits are on the counters of the minute, the hour and the day, with the maxima given, in that order |
| RateLimiterCalls.WindowsAre | backend/app/core/rate_limit.py:59-95 | in every reachable state a counter's deadline lies at least one window after its birth and at most one from now, the windows being 60000, 3600000 and 86400000 milliseconds, and the configured one for requests under authentication |
| Redis.TtlTellsWait | backend/app/core/rate_limit.py:70-72 | what a refused caller is told passes the deadline of the counter to within half a second and is never less than a second |
| RateLimiterCalls.FailureOrphans | backend/app/core/rate_limit.py:62-75 | in a reachable state, a check that fails open, the call going on to its next limit, leaves a key with a counter that has no expiry and that nobody will expire exactly when the call was between its INCR and its EXPIRE of that key |
| RateLimiterCalls.OrphanArises | backend/app/core/rate_limit.py:62-75 | from every reachable state a new call on a missing counter comes to owe an EXPIRE, and orphans the counter when that command fails |
| RateLimiterCalls.OrphanForever | backend/app/core/rate_limit.py:66-75 | such a counter survives every run and only grows, so once past a limit it refuses that key forever |
| RateLimiterClient.CheckRateLimit | backend/app/core/rate_limit.py:59-75 | the client code of one limit, with other callers running between its commands: an admitted call goes on to its next limit or is done, a refused one is done and has been told how long the counter still lives; without a client it allows |
| RateLimiterClient.CheckAiRateLimits | backend/app/core/rate_limit.py:78-101 | the loop over the limits with its early exit: the attempts made are on the minute's, the hour's and the day's counter of the scope, in that order, each with the maximum given for it and none for a limit not given; allowed means one attempt for each limit given, all admitted, refused that all up to the last were and the last was not, and that the wait passes its deadline to within half a second |
| TokenBudget.IncrAllEffect | backend/app/core/rate_limit.py:164-168 | the INCRBY pipeline raises each named counter once, creates the missing ones without expiry and returns each new value |
| TokenBudget.CreatedExactly | backend/app/core/rate_limit.py:172-174 | comparing the count with the tokens used singles out exactly the counters that were missing, as stored values are positive |
| TokenBudget.ExpireAllEffect | backend/app/core/rate_limit.py:171-175 | the EXPIRE pipeline gives each chosen key its own window and changes nothing else |
| TokenBudgetTheorems.InvStep | backend/app/core/rate_limit.py:104-177 | every step of checking or reporting keeps the budget invariant |
| TokenBudget.BudgetsInOrder | backend/app/core/rate_limit.py:119-125 | one budget for each limit given, the minute's, the hour's and the day's, in that order |
| TokenBudgetTheorems.TtlObligation | backend/app/core/rate_limit.py:170-175 | in every reachable state a token counter has no expiry exactly when one request, and only one, is about to set it |
| TokenBudgetTheorems.GetContained | backend/app/core/rate_limit.py:128-133 | passing a check keeps stored plus pending tokens within the bound, an absent counter included |
| TokenBudgetTheorems.ReportContained | backend/app/core/rate_limit.py:164-168 | a report moves tokens from pending to stored without raising the total past its slack |
| TokenBudgetTheorems.OvershootBound | backend/app/core/rate_limit.py:104-177 | with at most k requests between check and report, each of at most `size` tokens and reporting at most `slack` more than it asked for, no counter exceeds max(limit, size) + (k - 1) * size + k * slack |
| TokenBudgetExact.OvershootReached | backend/app/core/rate_limit.py:104-177 | for every key, limit, size, k and slack there is such a run that reaches the bound, unless requests neither ask for nor report anything |
| TokenBudgetExact.BoundReachedIff | backend/app/core/rate_limit.py:104-177 | the bound is attained by such a run exactly when the limit is no larger than a request, or requests ask for or report something |
| TokenBudgetExact.BudgetHoldsIff | backend/app/core/rate_limit.py:104-177 | no such run passes the limit exactly when requests report no more than they asked for, one request fits the limit, and no two that ask for something overlap |
| TokenBudgetWindow.TokensInWindow | backend/app/core/rate_limit.py:104-177 | on every such run, a half-open interval one window long sees at most 2 * B - 1 tokens reported on a key, where B is the bound of one counter, and none when B is 0 |
| TokenBudgetWindow.TokensInWindowReached | backend/app/core/rate_limit.py:104-177 | whenever a request is smaller than the limit there is such a run that reports 2 * B - 1 tokens in one window |
| TokenBudgetClient.CheckAiTokenLimits | backend/app/core/rate_limit.py:104-136 | the loop of GETs, other requests in between: the budgets are the minute's, the hour's and the day's as given, in that order; allowed means each had room when it was looked at, refused that those before the last had and the last had none, with a wait that passes the deadline of its counter to within half a second |
| TokenBudgetClient.IncrementAiTokenUsage | backend/app/core/rate_limit.py:139-177 | at one point of the trace all named counters grow by the tokens used, at a later one those that were missing then get a deadline 60000, 3600000 or 86400000 milliseconds away, and the request owes no EXPIRE |
| Framing.ReadMessageFrom | endpoint-agent/pysetu_agent/mcp_gateway.py:36-43 | reading a line consumes what the specification function says and yields its message, the end of the stream, or an exception |
| Framing.WriteMessage | endpoint-agent/pysetu_agent/mcp_gateway.py:46-48 | writing appends one frame to the stream |
| Framing.ReadFramed | endpoint-agent/pysetu_agent/mcp_gateway.py:36-48 | one written message is read back whole and leaves exactly the rest of the stream |
| Framing.FramingRoundTrip | endpoint-agent/pysetu_agent/mcp_gateway.py:36-48 | any concatenation of written messages is read back up to its first null message, so as the same sequence exactly when no message is null |
| Framing.LineRead | endpoint-agent/pysetu_agent/mcp_gateway.py:36-43 | any line whatever: a blank one is passed over, another is parsed without the white space around it, and what does not parse raises |
| Framing.LastLineRead | endpoint-agent/pysetu_agent/mcp_gateway.py:36-43 | the same for a last line without its newline, where a blank one is the end of the stream |
| Text.SpacesAre | endpoint-agent/pysetu_agent/mcp_gateway.py:39 | what `strip` takes away are ten characters of ASCII |
| Framing.ReadHttpMessageFrom | endpoint-agent/pysetu_agent/mcp_gateway.py:56-73 | reading a Content-Length message, headers line by line, consumes what the specification function says |
| Framing.WriteHttpMessage | endpoint-agent/pysetu_agent/mcp_gateway.py:76-80 | writing appends the header with the decimal length and the body |
| Framing.HeaderParsed | endpoint-agent/pysetu_agent/mcp_gateway.py:63-66 | a header line is parsed to its lower-case name and trimmed value |
| Framing.AnyHeader | endpoint-agent/pysetu_agent/mcp_gateway.py:63-66 | name and value of any header line are taken without the white space around them, the name in lower case, and a line without a colon is passed over |
| Text.LowerIs | endpoint-agent/pysetu_agent/mcp_gateway.py:68 | `lower` turns the 26 capital letters into their small ones and changes nothing else |
| Framing.HeaderLineRead | endpoint-agent/pysetu_agent/mcp_gateway.py:58-66 | header lines are taken in one by one until a blank one |
| Framing.BodyRead | endpoint-agent/pysetu_agent/mcp_gateway.py:67-73 | behind the headers, so many characters as the length says are parsed; a length missing, zero or negative gives no message, one that is no number raises |
| Text.DecimalRoundTrip | endpoint-agent/pysetu_agent/mcp_gateway.py:67-79 | the printed length is parsed back to the same number |
| Text.SignedRoundTrip | endpoint-agent/pysetu_agent/mcp_gateway.py:67 | a length with a sign is parsed with it |
| Framing.ReadHttpFramed | endpoint-agent/pysetu_agent/mcp_gateway.py:56-80 | a Content-Length message is read back whole and leaves exactly the rest of the stream |
| Framing.HttpFramingRoundTrip | endpoint-agent/pysetu_agent/mcp_gateway.py:56-80 | any concatenation of Content-Length messages is read back up to its first null message, so as the same sequence exactly when no message is null |
| SseReader.Reader.Flush | endpoint-agent/pysetu_agent/mcp_gateway.py:306-315 | a flushed buffer queues the parsable non-empty payloads of its data lines, in order |
| SseReader.Reader.Run | endpoint-agent/pysetu_agent/mcp_gateway.py:288-315 | reading byte by byte to the end queues what one pass over the complete part of the decoded text would |
| SseReader.StreamIsRead | endpoint-agent/pysetu_agent/mcp_gateway.py:288-315 | of an event stream, whatever comments, fields and unreadable payloads stand between its messages, exactly the messages are queued, in order; a last line that is not ended is not |
| SseReader.BreaksSplit | endpoint-agent/pysetu_agent/mcp_gateway.py:304-307 | each of seven characters ends a line by itself, so what stands before and after it are two lines |
| SseReader.DecodeIs | endpoint-agent/pysetu_agent/mcp_gateway.py:304 | ASCII bytes are decoded to themselves, any other byte to the replacement character |
| SseReader.SplitComplete | endpoint-agent/pysetu_agent/mcp_gateway.py:305-307 | splitting into lines can be done piecewise at newlines |
| SseReader.QueueIsNewlineLines | endpoint-agent/pysetu_agent/mcp_gateway.py:288-315 | on texts whose breaks are LF or CR LF the queue holds the payloads of exactly the newline-terminated data lines |
| SseReader.OneReadingIff | endpoint-agent/pysetu_agent/mcp_gateway.py:304-311 | splitting a newline-terminated line at every break reads the same as taking it whole, whatever payloads parse to, exactly when only white space follows the first break of a data line, or no piece of another line carries data |
| SseReader.QueueIsOneReading | endpoint-agent/pysetu_agent/mcp_gateway.py:288-315 | where every line does, the whole queue is that of the newline-terminated lines |
| Gateway.DecideToolResponseLoop | endpoint-agent/pysetu_agent/mcp_gateway.py:166-216 | the loop that rewrites the text blocks in place agrees with the block-by-block specification of the decision |
| Gateway.RedactionKeeps | endpoint-agent/pysetu_agent/mcp_gateway.py:166-216 | a redacted result keeps its fields, block count and order; each sensitive text with a redacted copy becomes exactly that copy and every other block is unchanged |
| Gateway.HandleToolCallOn | endpoint-agent/pysetu_agent/mcp_gateway.py:369-411 | handling a tool call on the upstream object, and what it then has been sent and still has to say, is the specified step |
| Gateway.HandleMessageOn | endpoint-agent/pysetu_agent/mcp_gateway.py:414-433 | the same for any message: forwarded as it is, and answered only when it has an id |
| GatewayRuns.RunGatewayLoop | endpoint-agent/pysetu_agent/mcp_gateway.py:436-468 | the proxy loop is the specified run: the responses in order, the upstream state, and whether it ended, waits or raised; what those responses are is said by the rows of GatewayResponses |
| GatewayRuns.WritesAreSent | endpoint-agent/pysetu_agent/mcp_gateway.py:436-468 | the server receives, in order, what is sent for each message taken from the client and nothing else |
| GatewayRuns.ToolCallForwarding | endpoint-agent/pysetu_agent/mcp_gateway.py:95-134 | a tool call reaches the server not at all, with the parsed redaction for arguments, or unchanged, and exactly when each |
| GatewayRuns.NothingSensitiveSent | endpoint-agent/pysetu_agent/mcp_gateway.py:384-398 | under a policy that blocks or redacts whatever is sensitive, and clean redactions, no run sends sensitive arguments |
| GatewayResponses.FilteredIs | endpoint-agent/pysetu_agent/mcp_gateway.py:166-216 | an object result with a list for its content: the client gets the error exactly when something is found in its texts and the policy says block; each text that has a redacted copy replaced by that copy, and everything else of the response kept, exactly when the policy says redact and there is such a text; otherwise, as without response filtering or for any other result, the server's response as it came |
| GatewayResponses.ToolCallHandled | endpoint-agent/pysetu_agent/mcp_gateway.py:369-411 | a tool call, from the fields of its message: refused with the reason and never sent, or sent with its arguments redacted where the policy says so and answered by the server's next message, filtered; with nothing to read it waits |
| GatewayResponses.OtherMessageHandled | endpoint-agent/pysetu_agent/mcp_gateway.py:414-433 | any other message is sent as it is; with an id it is answered by the server's next message, whole, and without one by nothing |
| GatewayResponses.OutIsReplies | endpoint-agent/pysetu_agent/mcp_gateway.py:436-468 | over a run the client gets the answers to the messages handled, one by one and in order, and nothing else |
| GatewayRuns.RaisesIff | endpoint-agent/pysetu_agent/mcp_gateway.py:369-433 | handling raises exactly on what is no object and on a tool call whose parameters are given and are no object |
| GatewayResponses.RunEnds | endpoint-agent/pysetu_agent/mcp_gateway.py:436-468 | a run finishes exactly when it has answered every message up to the first null one, fails exactly at a message before that which cannot be handled, and otherwise waits for the server |
| GatewayResponses.NothingSensitiveShown | endpoint-agent/pysetu_agent/mcp_gateway.py:398-411 | with response filtering, under a policy that blocks or redacts whatever is found, and clean redacted copies, no run answers a tool call with a text in which anything is found |
| GatewayRuns.HandlePaired | endpoint-agent/pysetu_agent/mcp_gateway.py:384-433 | with an answering server, one message gives one response of its id, or none without an id, and leaves nothing unread |
| GatewayRuns.Pairing | endpoint-agent/pysetu_agent/mcp_gateway.py:436-468 | over a run the client gets one response per request, in order, with the matching id, none for notifications, and nothing stays unread |
| GatewayRuns.ToolNotificationWaits | endpoint-agent/pysetu_agent/mcp_gateway.py:394-395 | a tools/call without an id leaves the gateway waiting exactly when the policy lets it through; a blocked one is answered with a null id |
| Multiplex.Pool.constructor | endpoint-agent/pysetu_agent/mcp_gateway.py:478-481 | one new upstream per declared name, the last declaration winning |
| Multiplex.Pool.Ask | endpoint-agent/pysetu_agent/mcp_gateway.py:536-543 | handling on one upstream leaves the others as they were |
| Multiplex.Pool.Handle | endpoint-agent/pysetu_agent/mcp_gateway.py:530-543 | one message is routed and handled as specified, and only the upstream it names changes |
| Multiplex.Pool.Run | endpoint-agent/pysetu_agent/mcp_gateway.py:504-548 | the multiplexing loop is the specified run over all upstreams; of the messages up to where it ends, each server has been sent, has left unread and has answered exactly what its own gateway would have on the messages meant for it, by their server field or for want of one |
| Multiplex.HandleProjected | endpoint-agent/pysetu_agent/mcp_gateway.py:530-543 | seen from one server, a routed message is handled as by its own gateway, any other changes nothing |
| Multiplex.Projection | endpoint-agent/pysetu_agent/mcp_gateway.py:504-548 | what reaches a server, what it leaves unread and what is answered from it are those of its own gateway run on the messages meant for it: those whose server field is its name, and those without such a field if it is the first |
| Multiplex.DeclaredIsFound | endpoint-agent/pysetu_agent/mcp_gateway.py:478-491 | every declared name is found, and one declared once stands for its server |
| Multiplex.RouteIs | endpoint-agent/pysetu_agent/mcp_gateway.py:530-535 | the route told by the server field itself: to the declared server of that name, or without the field to the first; to none otherwise; a list or an object raises |
| Multiplex.NamedServerHandles | endpoint-agent/pysetu_agent/mcp_gateway.py:530-543 | a message meant for a declared server is handled by that server's gateway on that upstream, and no other upstream changes |
| Multiplex.NobodyHandles | endpoint-agent/pysetu_agent/mcp_gateway.py:530-535 | a message for which no server is declared, numbers and booleans for a name included, changes no upstream and is answered with the error under its own id; a list or an object raises |
| Multiplex.RaisesExactly | endpoint-agent/pysetu_agent/mcp_gateway.py:530-543 | routing and handling raise exactly on what is no object, on a list or an object for a server, and where the gateway of the declared server raises |
| Multiplex.RunsApart | endpoint-agent/pysetu_agent/mcp_gateway.py:504-548 | over a whole run each server is on its own; a finished run has taken every message up to the first null one, a failed one has stopped at the first message that raises |
| Multiplex.MuxPairing | endpoint-agent/pysetu_agent/mcp_gateway.py:504-548 | over all servers the client gets one response per request, in order, with its id; a notification is answered only when it names no server |
| PathMatching.PathMatchesLoop | endpoint-agent/pysetu_agent/policy.py:60-77 | the two loops over the candidates find a match exactly when some candidate matches the pattern or lies below its directory |
| PathMatching.CandidatesAreSuffixes | endpoint-agent/pysetu_agent/policy.py:64-68 | the candidates are exactly the non-empty component suffixes of the path |
| PathMatching.DirectoryPattern | endpoint-agent/pysetu_agent/policy.py:60-77 | a wildcard-free directory pattern matches exactly when its components occur as a contiguous run in those of the resource, after normalisation |
| PathMatching.RootDirectoryPattern | endpoint-agent/pysetu_agent/policy.py:60-77 | the pattern of the root directory matches everything |
| PathMatching.NormalIs | endpoint-agent/pysetu_agent/policy.py:56-62 | a normalised path is the path with its home spelled out and its backslashes turned, without the slashes at both ends |
| Globbing.GlobIff | endpoint-agent/pysetu_agent/policy.py:69-71 | a text matches a pattern exactly when it can be cut into one piece for each element: any piece for a star, slashes included, one character for a question mark or a class, itself for any other |
| Globbing.ClassElement | endpoint-agent/pysetu_agent/policy.py:69-71 | a class ends at the next bracket, not counting one that comes first, possibly behind an exclamation mark |
| Policy.Evaluate | endpoint-agent/pysetu_agent/policy.py:89-101 | the loop with its running best resolves to the first of the strictest applicable rules, or to the default |
| Policy.ResolvesToTop | endpoint-agent/pysetu_agent/policy.py:89-101 | whatever the order, the answer is the action of a strictest applicable rule, or the default when none applies |
| Policy.StrictestWins | endpoint-agent/pysetu_agent/policy.py:17-101 | of the actions applicable rules say, block goes before approval, that before redact, that before log; with none of them the first applicable rule decides, and without one the default |
| Policy.DefaultIs | endpoint-agent/pysetu_agent/policy.py:80-86 | the default: block for the four labels of secrets, else redact for the five of personal data, else allow, in whatever order they come |
| Policy.LabelsAsSet | endpoint-agent/pysetu_agent/policy.py:80-101 | a decision depends on which labels there are, not on their order or number |
| DefaultPolicy.DefaultsDecide | endpoint-agent/pysetu_agent/policy.py:38-101 | the default policy as a whole: it blocks files of keys and settings wherever they lie and everything in the key directories of the home, redacts personal data in SQL files, allows what else lies in a directory of sources or tests, and leaves the rest to the defaults for what is found |
| Policy.OrderInvariantIff | endpoint-agent/pysetu_agent/policy.py:89-101 | the order of the rules is irrelevant exactly when the strictest applicable ones agree |
| Policy.KnownActionsUnambiguous | endpoint-agent/pysetu_agent/policy.py:89-101 | with known actions they always agree |
| Policy.AmbiguityShows | endpoint-agent/pysetu_agent/policy.py:95-97 | when they disagree, as unknown actions can, some reordering resolves differently |
| PolicyCache.Cache.Save | endpoint-agent/pysetu_agent/policy.py:128-136 | saving writes the document with the checksum of the rules |
| PolicyCache.Cache.Load | endpoint-agent/pysetu_agent/policy.py:138-148 | loading succeeds exactly on a document whose rules have their keys and whose checksum is theirs once sorted, yields its rules in order, returns what was saved, and otherwise says what is wrong |
| PolicyCache.Cache.LoadOrDefaults | endpoint-agent/pysetu_agent/policy.py:150-154 | what was saved is in force again; without an intact document the default policy is |
| PolicyCache.SortSorts | endpoint-agent/pysetu_agent/policy.py:124-126 | the canonical form is sorted |
| PolicyCache.StringLeqIs | endpoint-agent/pysetu_agent/policy.py:124-126 | texts are ordered by the first character in which they differ, a beginning before the whole |
| PolicyCache.SortedUnique | endpoint-agent/pysetu_agent/policy.py:124-126 | and determined by the multiset of the rules |
| PolicyCache.LoadAfterSave | endpoint-agent/pysetu_agent/policy.py:128-148 | loading after saving returns the policy, rules in their order |
| PolicyCache.ChecksumIsMultiset | endpoint-agent/pysetu_agent/policy.py:124-126 | equal checksums mean equal multisets of rules, and the other way round for plain rules |
| PolicyCache.SnapshotSound | endpoint-agent/pysetu_agent/policy.py:138-148 | a document with the checksum of a saved policy is accepted exactly when its rules are a reordering of that policy |
| PolicyCache.SnapshotDecides | endpoint-agent/pysetu_agent/policy.py:89-148 | an accepted snapshot decides every resource and label list as the saved policy, given known actions or agreeing strictest rules |
| Detection.Sub | endpoint-agent/pysetu_agent/detection.py:59 | the left-to-right substitution replaces exactly the spans the pattern finds |
| Detection.Detect | endpoint-agent/pysetu_agent/detection.py:45-65 | the loop looks for each pattern in the length-limited original and substitutes in the running text; when no match begins like the marker, there are findings exactly when there is a redacted copy; what is replaced is said by the rows of Rescanning |
| Detection.RedactionReplacesSpans | endpoint-agent/pysetu_agent/detection.py:45-65 | if no match cuts a marker in two, the redacted text is the original with disjoint non-empty stretches each replaced by one marker, all else kept in order |
| Detection.FindingsLeaveMarker | endpoint-agent/pysetu_agent/detection.py:45-65 | findings leave at least one marker in the redacted text, and without findings it is the original |
| Detection.FindingsRedact | endpoint-agent/pysetu_agent/detection.py:45-65 | on every content, one that holds the marker included, if no match of any pattern begins with the first character of the marker, a scan changes the text exactly when it finds something |
| Detection.FindingsRedactIff | endpoint-agent/pysetu_agent/detection.py:45-65 | a remark on pattern sets other than the source has: without that assumption a redacted copy is certain exactly for texts that do not contain the marker |
| Rescanning.EveryMatchReplaced | endpoint-agent/pysetu_agent/detection.py:54-63 | for one pattern the redacted text is the original with every match replaced by one marker: the markers stand for exactly the matches, one by one, in order, and all between them is kept; the label is given and the matches are counted |
| Rescanning.PatternsAddUp | endpoint-agent/pysetu_agent/detection.py:54-58 | labels and counts of several patterns are those of each, one after the other, all on the original |
| Rescanning.NothingLeft | endpoint-agent/pysetu_agent/detection.py:54-65 | with any patterns whose matches do not begin or end within a word: one whose matches are told by the characters they cover and by word boundaries, and keep off markers, finds nothing in the redacted text; none of its matches is left and none is made |
| Rescanning.RedactedIsClean | endpoint-agent/pysetu_agent/detection.py:54-65 | where all patterns are such, redacting again finds nothing and changes nothing |
| Rescanning.CopyScansClean | endpoint-agent/pysetu_agent/detection.py:45-65 | so the redacted copy, if within the limit, is scanned without a finding |
| Enforce.AtomicWrite | endpoint-agent/pysetu_agent/enforce.py:34-47 | at every step the path is as before or completely new and at most one temporary file exists beside it; it succeeds exactly when no operation fails, a temporary name is free and no directory is in the way, and otherwise restores the state unless the removal failed too |
| Enforce.LandingIs | endpoint-agent/pysetu_agent/enforce.py:84 | a file copied or moved to a directory lands in it under its own name, and otherwise at the place named |
| Disk.AboveIs | endpoint-agent/pysetu_agent/enforce.py:52 | the directories made for a path are itself and every non-empty beginning of it that a slash follows |
| Enforce.Copy | endpoint-agent/pysetu_agent/enforce.py:84 | a backup copy only ever changes the place it lands; it succeeds exactly when that is neither the file itself nor a directory and no operation fails; it is written in place, so a moment exists at which a crash leaves something else there exactly when the file has content, the place is another and no directory, and reading and opening succeed |
| Enforce.Move | endpoint-agent/pysetu_agent/enforce.py:58 | a move is a rename, or a copy and a removal; until it is done the original is untouched, and it is done exactly when the place is clear and no operation after the rename fails; a crash can leave a part of the copy exactly when the rename fails on a clear place and the copy is begun |
| Enforce.QuarantineFile | endpoint-agent/pysetu_agent/enforce.py:50-59 | the file ends complete under its own or a stamped name, exactly when the directory can be made, the place is clear and no operation after the rename fails; otherwise it stays as it was; a crash can leave a part of it in quarantine exactly when the rename fails and the copy is begun |
| Enforce.QuarantineLoses | endpoint-agent/pysetu_agent/enforce.py:54-58 | quarantining loses another file exactly when the stamped name, which is never checked, is taken by different content |
| Enforce.RedactionLoses | endpoint-agent/pysetu_agent/enforce.py:83-85 | redacting loses another file exactly when the backup place holds different content, such as an earlier backup |
| Enforce.WrittenText | endpoint-agent/pysetu_agent/detection.py:47-59 | with the source's detector, what is written in place of a file is its text with disjoint stretches replaced by markers, without everything past the scan limit: nothing is dropped exactly when the text is within the limit |
| Enforce.WrittenClean | endpoint-agent/pysetu_agent/detection.py:47-65 | in what is written in place of a file such a pattern finds nothing |
| Enforce.VerdictIs | endpoint-agent/pysetu_agent/enforce.py:62-82 | a file is quarantined exactly when something is found and the policy says block, rewritten with its redacted copy exactly when something is found, the policy says redact and there is a copy, and clean exactly when nothing is found |
| Enforce.RedactFile | endpoint-agent/pysetu_agent/enforce.py:82-85 | at every step of redacting, the old content is complete at the path or its backup, the path is never partial and no file but the one at the backup place is touched; it succeeds when nothing fails and nothing is in the way, and only then; the backup place can be found holding something else exactly as for the copy |
| Enforce.EnforceFile | endpoint-agent/pysetu_agent/enforce.py:62-109 | for every verdict, failure and stopping point the content of the file is not lost; another file is lost exactly when the place for the backup, or for the file in quarantine, holds other content; exactly when a crash can leave a partial copy there; there are no findings exactly when the file is missing, cannot be read or is clean; every other verdict is carried out and reported when nothing fails and nothing is in the way; an exception leaves the file as it was, and a temporary file only after two failures in a row |
| AuditEvents.NormalizedFits | backend/app/services/audit_ingestion_service.py:42-88 | an accepted event fits its columns, with known status and risk and a non-empty identifier if any |
| AuditEvents.NormalizeIdentity | backend/app/services/audit_ingestion_service.py:42-88 | an event comes through normalising as it is exactly when it is storable and has no white space around its texts: no field is lost, swapped or replaced |
| AuditEvents.AcceptedEntries | backend/app/services/audit_ingestion_service.py:42-70 | an entry is accepted exactly with a known status, a known or no risk, a time stamp that can be read or none, and an actor, an action and a resource |
| AuditEvents.NormalizedFields | backend/app/services/audit_ingestion_service.py:42-88 | each field of an accepted entry: lower case or as it stands, cut to its column, its default when missing, a trace id in front of the details |
| AuditEvents.AcceptedIff | backend/app/services/audit_ingestion_service.py:151-172 | an event is stored exactly when neither its identifier nor its discovery was in the store or met before in the batch under its source |
| AuditEvents.AcceptedGroup | backend/app/services/audit_ingestion_service.py:148-172 | grouping by source and then accepting is accepting and then grouping |
| AuditIngestion.Store.ExistingExternalIds | backend/app/services/audit_ingestion_service.py:91-106 | the query returns those of the given identifiers that the store has for tenant and source |
| AuditIngestion.Store.IngestGroup | backend/app/services/audit_ingestion_service.py:149-187 | the inner loop with its two sets stores what the specification accepts, and counts the rest as duplicates |
| AuditIngestion.Store.IngestAuditEvents | backend/app/services/audit_ingestion_service.py:109-200 | the whole call: error above the maximum, otherwise the rows appended in order and accepted + skipped + duplicates == batch length; which events those are is said by the rows of AuditStoring |
| AuditIngestionTheorems.StoredIsSinglePass | backend/app/services/audit_ingestion_service.py:128-187 | the grouped loops store exactly what one pass with state keyed by source would, for each source in the same order |
| AuditStoring.AcceptsIff | backend/app/services/audit_ingestion_service.py:128-172 | told by the rows: an event is held back exactly by a row of its tenant with its source and identifier, by a discovery of its tenant with its actor and resource of at least now - 86400, from whatever source, or by an earlier event of the batch from its own source with its identifier or its discovery |
| AuditStoring.StoredIs | backend/app/services/audit_ingestion_service.py:109-187 | a call stores exactly the events at the positions where nothing of this kind stands against them, source by source and in order |
| AuditStoring.StoredInOrder | backend/app/services/audit_ingestion_service.py:128-187 | the events of one source are stored together, and the sources follow each other as they first occur in the batch |
| AuditStoring.TenantsApart | backend/app/services/audit_ingestion_service.py:91-146 | what a call stores is the same with all rows of other tenants taken away, and nobody else's rows change |
| AuditStoring.RowsAdded | backend/app/services/audit_ingestion_service.py:174-187 | every row added is the tenant's, holds a stored event, and is dated by the event, or by the clock |
| AuditIngestionTheorems.UniqueKept | backend/alembic/versions/013_audit_ingestion.py:24-30 | a call never violates the unique index on tenant, source and external identifier |
| AuditIngestionTheorems.UniqueKeptAll | backend/alembic/versions/013_audit_ingestion.py:24-30 | nor does any sequence of calls, and no row is lost |
| AuditReingestion.ReingestIff | backend/app/services/audit_ingestion_service.py:149-172 | on a repeated batch an identified event is stored exactly when it had been dropped only for a discovery since forgotten; an unidentified one exactly when its discovery is unknown or it is none |
| AuditReingestion.Idempotence | backend/app/services/audit_ingestion_service.py:109-200 | repeating a batch, any calls later, stores nothing with an identifier while the discoveries known the first time are still known |
| AuditReingestion.RepeatedAtOnce | backend/app/services/audit_ingestion_service.py:135-146 | repeated at the same time it never does |
| AuditReingestion.ForgottenDiscovery | backend/app/services/audit_ingestion_service.py:135-146 | a day later it can |
| AuditSplitting.SplitEventIff | backend/app/services/audit_ingestion_service.py:128-187 | an event of the second part is stored by one call or by two but not both exactly when, nothing else speaking against it, the first part holds its identifier or its source's discovery with none of those in the store, or the store knows its discovery from elsewhere |
| AuditSplitting.SplitBatchIff | backend/app/services/audit_ingestion_service.py:109-200 | one call stores the same events as two calls for the parts of its batch exactly when there is no such event |
| AuditSplitting.SplitBatch | backend/app/services/audit_ingestion_service.py:109-200 | so without discoveries a batch may be cut anywhere |
| AuditSplitting.SplitDiscoveries | backend/app/services/audit_ingestion_service.py:135-168 | two sources report one new discovery: one call stores both, two calls the first only, unless its time stamp is more than a day old |
| Rounding.Nearest | backend/app/services/cost_analytics_service.py:84 | rounding goes to a nearest whole number, ties to the even one |
| UsageCost.UsdFromRates | backend/app/services/cost_analytics_service.py:16-19 | the cost at rates per million is the exact one to within half a millionth |
| UsageCost.Usd | backend/app/services/compounding_cost_service.py:10-11 | the cost per thousand is the exact one to within half a unit of the fourth place, of which it is a multiple |
| UsageCost.LookupFinds | backend/app/services/cost_analytics_service.py:26-40 | a model is priced at the rate stored under its own name, trimmed, in lower case and with dashes for spaces, else at the first under a name that is part of it or that it is part of, and at none only when no stored name is such a one |
| UsageCost.RowCostIs | backend/app/services/cost_analytics_service.py:43-54 | a request costs, to within its rounding, its prompt and completion tokens at the stored rates per million, all its tokens at their mean when neither is given, and all its tokens per thousand at the rate its model's name tells when none is stored |
| UsageCost.RateByName | backend/app/services/compounding_cost_service.py:22-30 | a name tells the rate whatever its case: none for five families that run for free, seven tenths of the baseline for one, six fifths for another, the baseline for the rest |
| CostAnalytics.UsersApart | backend/app/services/cost_analytics_service.py:87-95 | two requests share a user bucket exactly when they count for the same end user, user id or actor; the three kinds never mix |
| CostAnalytics.TeamsMix | backend/app/services/cost_analytics_service.py:98-105 | two requests with client keys share a team bucket exactly when their ids agree, where the name stands in for a missing id |
| CostByRows.TeamWithoutKey | backend/app/services/cost_analytics_service.py:98-105 | requests without a client key share one bucket if their users come by JWT, and one other if not |
| CostByRows.UserTitle | backend/app/services/cost_analytics_service.py:87-95 | a user bucket is called by the name, by the first eight characters of the id, or by the actor |
| CostBuckets.Buckets.Accumulate | backend/app/services/cost_analytics_service.py:69-84 | accumulating changes the bucket of the key, or adds one, and rounds its cost |
| CostBuckets.FoldConserves | backend/app/services/cost_analytics_service.py:69-84 | over all buckets requests and tokens are exactly those of the items, and cost is to within half a unit for each item |
| CostBuckets.FoldByKey | backend/app/services/cost_analytics_service.py:128-141 | each bucket is what the items of its key come to by themselves, and no key without items has one |
| BucketSorting.SortSorts | backend/app/services/cost_analytics_service.py:158-161 | sorting keeps the buckets and their sums, puts the dearest first and keeps the order of equals |
| CostAnalytics.SummarizeUsageRows | backend/app/services/cost_analytics_service.py:108-177 | the pass over the rows, with its four dictionaries and running totals, yields the specified summary and groupings |
| CostAnalyticsTheorems.CostConservation | backend/app/services/cost_analytics_service.py:108-177 | by model, by user and by team: requests and tokens equal the summary, cost differs by at most (N + 1) * 0.00005 |
| CostAnalyticsTheorems.DailyConservation | backend/app/services/cost_analytics_service.py:147-161 | the days add up in the same way to the rows with a time stamp |
| CostAnalyticsTheorems.BucketsByKey | backend/app/services/cost_analytics_service.py:128-161 | the shown buckets are exactly those of the keys that occur |
| CostByRows.UsedRowsAre | backend/app/services/cost_analytics_service.py:124-126 | rows count one by one, exactly when they carry metadata |
| CostByRows.DatedAre | backend/app/services/cost_analytics_service.py:147-149 | and for the days exactly when they have a time stamp |
| CostByRows.BucketsHoldTheirRows | backend/app/services/cost_analytics_service.py:124-161 | each shown bucket has the number of requests and the prompt, completion and total tokens of the rows of its model, its user, its team or its day, and none is without a row |
| CostByRows.AveragesAre | backend/app/services/cost_analytics_service.py:163-172 | the summary counts the rows and their tokens, its cost and averages are those to within their rounding, and without requests the averages are zero |
| CostAnalyticsTheorems.CheapVanishes | backend/app/services/cost_analytics_service.py:84 | with costs that are not negative, a bucket shows no cost exactly when no item of its key costs more than 0.00005 |
| CostAnalyticsTheorems.CheapRowsVanish | backend/app/services/cost_analytics_service.py:108-177 | rows of at most 0.00005 each leave every bucket of every grouping at zero while the summary shows their rounded total |
| CostAnalyticsTheorems.DriftGrows | backend/app/services/cost_analytics_service.py:69-84 | for every N, N requests of 0.000049 each leave every bucket at zero while the summary shows N * 0.000049, rounded: the drift keeps pace with its bound |
| CompoundingCost.SummarizeCompoundingSavings | backend/app/services/compounding_cost_service.py:41-101 | the loop with its seven totals yields the specified layers |
| CompoundingCost.TalliesAddUp | backend/app/services/compounding_cost_service.py:51-74 | every layer's totals are those of its rows added up |
| CompoundingCost.OneRowTallies | backend/app/services/compounding_cost_service.py:51-74 | one row's part: the tokens an enabled payload saved and one request if it saved any; in routing all its tokens and the difference in price to within its rounding, if its model is cheaper than the baseline |
| CompoundingCost.DictionariesAre | backend/app/services/compounding_cost_service.py:51-53 | rows that are no dictionaries are passed over, and only those |
| CompoundingCost.LayersShow | backend/app/services/compounding_cost_service.py:76-101 | each layer shows its own tokens and requests, and its worth and its share of the total to within their rounding |
| CompoundingCost.LayersAddUp | backend/app/services/compounding_cost_service.py:76-85 | the total is exactly the sum of the three shown layers |
| CompoundingCost.SharesMakeWhole | backend/app/services/compounding_cost_service.py:86-88 | where anything was saved the shown shares make up 100 to within 0.15 |
| CompoundingCost.RoutingAccounts | backend/app/services/compounding_cost_service.py:67-78 | routing savings are the difference to the baseline, to within three roundings a row, if the surcharge of dearer models is left out |
| ComplianceControls.ControlsMonotone | backend/app/services/compliance_service.py:167-951 | with drafts and high-risk servers fixed, no control of any framework falls when signals grow |
| ComplianceControls.FirstDraft | backend/app/services/compliance_service.py:203-462 | a first draft changes exactly GDPR Art. 35 and SOC 2 CC8.1, and when it lowers the latter |
| ComplianceControls.FirstHighRiskServer | backend/app/services/compliance_service.py:481-733 | a first high-risk server changes exactly SOC 2 CC9.2 and NIST GOVERN 2, and when |
| ComplianceScores.StatusExactly | backend/app/services/compliance_service.py:158-164 | the status in whole numbers: compliant exactly when 20 * passed >= 19 * controls, partial exactly from three in five met and 69.95 points |
| ComplianceScores.CompliantMeansAllMet | backend/app/services/compliance_service.py:158-164 | with 1 to 19 controls a framework is compliant exactly when all are met |
| ComplianceScores.OneMissing | backend/app/services/compliance_service.py:158-164 | with one control missing a framework is compliant exactly from twenty controls on |
| ComplianceScores.ComplianceMonotone | backend/app/services/compliance_service.py:954-975 | growing signals lower no score, no status and not the headline score |
| ComplianceRange.OverallRange | backend/app/services/compliance_service.py:954-1010 | the headline score lies between 35.7 and 96.0, and both are reached |
| ComplianceRange.NeverCompliant | backend/app/services/compliance_service.py:167-951 | GDPR, HIPAA, ISO 27001 and NIST AI RMF are never compliant, the two threat catalogues always |
| ComplianceRange.OverallBest | backend/app/services/compliance_service.py:167-1010 | the headline score is 96.0 exactly when every control that any signals can meet is met; for SOC 2 that means compliant |
| ComplianceRange.Soc2Compliant | backend/app/services/compliance_service.py:447-580 | SOC 2 is compliant exactly with the listed signals |

## Left out

- Databases, migrations, schemas, web routes and seed data: declarations and I/O; the uniqueness index is an invariant of the store.
- HTTP clients, subprocesses, threads, start and stop of servers: an upstream is its input and output. For HTTP upstreams only the event-stream reader is modelled.
- Redis failures other than the lost EXPIRE, and the connection cache: the source fails open.
- Limits that change between the check and the report of one request: the model keeps a request's budgets.
- The regular expressions, the JSON syntax and SHA-256: parameters with the stated properties.
- `fnmatch` character classes are an arbitrary predicate; `~user` is resolved by an arbitrary function.
- Non-string tool names and ids print through an arbitrary function; header values other than lengths are kept as strings.
- Character encodings on disk: decoding and encoding are arbitrary functions of bytes and text.
- The random names `mkstemp` tries are an arbitrary list of ten thousand; whether one is free is part of when a write succeeds.
- Links, permissions, file times, and directories other than as obstacles or as places to land in.
- AuditEvents.NormalizedFits: field values are strings already; parsing of time stamps and overflow in them are not modelled, and the details have no bound, as in the source.
- Row identifiers and the list of them in the ingestion result; the limit of 200 on the synchronous route; the statistics query.
- SseReader.OneReadingIff: exact line by line; over a whole stream, lines that differ can make up for each other.
- TokenBudgetWindow.TokensInWindowReached: for requests as large as the limit or larger only the bound is proved.
- ComplianceControls.ControlsMonotone: drafts and high-risk servers are fixed, as raising either can lower a control; FirstDraft and FirstHighRiskServer say which. The thresholds of single controls are those of the source's table; lemmas depend on them only where a score or a status does.
- CostAnalyticsTheorems.DriftGrows: comes within 2 in 100 of the bound and does not use exact ties, which binary fractions do not have.
- Rescanning.NothingLeft: does not cover the generic-secret pattern, which can match a marker; where matches of several patterns overlap, it says that nothing is left, not which characters each marker stands for.
- Detection.FindingsRedactIff: speaks of pattern sets the source does not have; FindingsRedact is the result for its own.
- Token fields in usage metadata that are no numbers, on which the source raises; generated time stamps and narrative texts.
- The dashboard mapping of cost buckets, the compounding table, and the loading of compliance signals: table lookups and queries.
- Evidence and remediation texts of controls: only the status is kept.
- `wrapper.py`, `clipboard.py`, `daemon.py`, `discovery.py`, `watcher.py`, `scan.py`: operating-system plumbing.
- `conditional_rag_service.py`: what it decides lies in services that are not part of this model.
- Risk-score clamping, role tables, origin normalisation, alert payloads, cost arbitrage: single branches and tables.
