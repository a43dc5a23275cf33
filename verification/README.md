# Antaeus evaluation model

Antaeus decides policies. A policy is a list of rules; evaluators (installed adapters, often remote
providers) say of each rule whether it matched; a reducer turns the evidence into one Decision. This
project models the part of the Go repository that makes that trustworthy, and proves what it promises.

* **Profile runner.** `Routes.dfy` says what a run does as functions over a `World`: an arbitrary script of
  clock advances, adapter answers, jitter draws, interrupted sleeps and a cancellation signal that stays set.
  `Runner.dfy` is the runner itself, a class whose methods update trace, usage, route, last metadata and the
  fallback flag, overwrite evidence arrays in place, and lend each attempt a buffer with its credential to adapters
  that write in it and remember what it held; every method is proved equal to those functions, and every credential
  buffer to end zeroed. `Invariants.dfy`, `Runs.dfy`, `TraceTheorems.dfy` and `RunTheorems.dfy` prove what holds of
  every run in every world: the trace grammar, accounting, no late evidence, the wait budget, evidence cover, and
  that nothing is given up early. `Pacing.dfy` ties every wait to the attempt it was made for and every retry to a
  wait slept out, and `Haste.dfy` shows the one kind of error that is not waited for. `Provenance.dfy` ties every
  piece of evidence to one adapter's answer in one attempt, and every attempt to the rules it may ask. `Lending.dfy`
  says which adapters are called, under which permissions, and with which credentials; `EvaluateProfile.dfy` composes
  resolution, capture and run. `Causes.dfy` gives every failure its cause, and `Reports.dfy` says what each call of a
  decided run asked and what its Decision says, in terms of the run's input, calls and evidence alone. `Accounting.dfy` compares two runs and shows that reported usage reaches the usage
  report and nothing else. `Deciding.dfy` and `Acceptance.dfy`: a run ends in a Decision its own contract accepts
  exactly when its input is acceptable and nothing stops it before its first attempt; `Examples.dfy` has runs that are.
* **Validators and reducer.** `Policies.dfy`, `Profiles.dfy`, `Registries.dfy`, `Evaluations.dfy`,
  `Decisions.dfy`, `Codes.dfy` and `Text.dfy`, over the records of `Traces.dfy`. The reducer is proved to be a maximum over per-rule ranks.
* **Canonical policy form.** `Quoting.dfy`, `Canonical.dfy`, `CanonicalPolicy.dfy` model the RFC 8785 encoder and
  an independent reader, and prove round trip, injectivity and key order; `MinimalEscapes.dfy` shows that a value has
  one literal with the escapes RFC 8785 asks for, the encoder's; `CanonicalSource.dfy` takes canonical
  text through the strict parser.
* **Strict sources.** `EscapeScanner.dfy`, `LineBreaks.dfy`, and three walkers with one shared mutable counter
  (`TokenWalker.dfy`, `YamlWalker.dfy`, `ValueWalker.dfy`) proved against the recursive definitions in `Trees.dfy`
  and compared in `WalkersAgree.dfy`.
* **Local configuration and credentials.** `LocalConfig.dfy`, `LocalConfigTheorems.dfy`, `LocalBinding.dfy`.
* **Provider answers and diagnostics.** `Answers.dfy`, `Diagnostics.dfy`.

Conventions. A Go string is a `string` whose characters are bytes. A nil-able value is an `Option`. Times and
durations are integer nanoseconds; probabilities, thresholds and multipliers are reals. SHA-256 is an arbitrary
function from text to 32 bytes and `strings.ToUpper` an arbitrary function on text, so nothing depends on them.

Where the code and its description part ways, the model follows the code and a lemma says so:

* a validated policy can have a canonical form larger than 1 MiB, which the parser then refuses
  (`CanonicalSource.ValidDoesNotImplyParsable`; `SnapshotSucceedsIffSmall` gives the exact condition);
* an adapter's error that is not retryable can still ask for a wait, and an attempt that ran out of time is retried
  whatever its error: then the wait it asked for is not honoured (`Haste.SoonerThanAsked`;
  `Pacing.RequiredWaitExactly` gives the exact condition);
* the two notions of blank text used by the validators imply each other in neither direction
  (`Text.BlankNotionsDiffer`; `Text.BlankTestsAgree` gives the exact condition);
* seventeen route positions can be written in a profile, but only sixteen can be used, because positions are
  distinct evaluators (`Profiles.RouteIsBounded`);
* truncating ill-formed text can leave nothing but the ellipsis (`Diagnostics.ContinuationRunIsLost`;
  `Diagnostics.LostExactly` gives the exact condition).

## Model

| member | source | states |
|---|---|---|
| Text.IdentifierIsText | internal/textvalue/ecma.go:9-27 | Every identifier the patterns admit is bounded non-blank text for both blankness tests, so identity fields never fail a later text check |
| Text.InkExactly | internal/textvalue/ecma.go:9-27 | Each test passes a text exactly when it has a rune that is no white space at all, or shows the one disputed rune the test takes for ink |
| Text.BlankTestsAgree | internal/textvalue/ecma.go:9-27 | The two text checks agree exactly on texts that are ill-formed or too long, have a rune that is no white space, or show both disputed runes or neither |
| Text.BlankNotionsDiffer | internal/textvalue/ecma.go:9-27 | The witnesses: U+FEFF is blank only for the ECMA test and U+0085 only for the Unicode test, so neither implies the other |
| Codes.ValidateReasonCodes | decision/validate.go:245-260 | The loop with its seen-set accepts exactly lists of 1 to 16 well-formed codes without repeats |
| Policies.Validate | policy/validate.go:28-76 | Accepts exactly the policies with listed outcomes, 1 to 256 distinct well-formed rules and bounded UTF-8 texts |
| Quoting.AppendString | policy/canonical.go:65-92 | Growing the buffer rune by rune appends exactly the quoted form of the value |
| Quoting.ReadQuoted | policy/canonical.go:65-92 | An RFC 8259 string reader takes any quoted value back, with each ill-formed byte read as U+FFFD, and leaves the rest of the text |
| Quoting.QuoteRoundTrip | policy/canonical.go:65-92 | A quoted value reads back as itself if and only if it is well-formed UTF-8 |
| Quoting.ShortEscapesExactly | internal/jsonvalue/object.go:122-166 | The reader and the lexer know the eight two-character escapes of section 7 of RFC 8259 and no others |
| Quoting.HexExactly | internal/strictsource/source.go:184-190 | Hexadecimal digits are written in lower case and read in either case, with their own values |
| Quoting.ReadUtf16 | internal/strictsource/source.go:146-190 | The escapes of any scalar value, one unit or a surrogate pair, are read as its UTF-8 bytes |
| Quoting.RunesAreCounted | internal/textvalue/ecma.go:9-27 | The UTF-8 form of n scalar values is well-formed and counts n runes |
| MinimalEscapes.EscapingIsCanonical | policy/canonical.go:65-92 | The literal of any value is escaped as section 3.2.2.2 of RFC 8785 asks, a property of its text alone, and for well-formed values it is the only literal so escaped that reads back as the value |
| Quoting.IllFormedBytesCollide | policy/canonical.go:68-88 | Two different ill-formed values share one quoted form, so the UTF-8 check before encoding is needed |
| Canonical.ReadPrinted | policy/canonical.go:12-53 | Reading a printed document gives the document back and leaves whatever text follows it |
| CanonicalPolicy.CanonicalJSON | policy/canonical.go:12-53 | The buffer-growing encoder produces the printed form of the policy document for a valid policy and fails for any other |
| CanonicalPolicy.PolicyKeysAscend | policy/canonical.go:12-53 | Every object of the document has its properties in ascending order (section 3.2.3 of RFC 8785) |
| CanonicalPolicy.CanonicalRoundTrip | policy/canonical.go:12-53 | Decoding the canonical text of a valid policy gives that policy back, an absent description staying absent |
| CanonicalPolicy.OutcomesAreSpelled | policy/canonical.go:12-53 | In the document of a valid policy the default outcome and every rule's outcome are spelled allow, review or deny, each for its own |
| CanonicalPolicy.CanonicalIsInjective | policy/canonical.go:12-53 | Two different valid policies never share canonical bytes |
| CanonicalPolicy.HexIsInjective | policy/canonical.go:56-63 | Hexadecimal spelling loses nothing of the hash |
| CanonicalPolicy.HexSpells | policy/canonical.go:56-63 | Each byte of the hash is two digits, the greater one first |
| CanonicalPolicy.DigestIdentifies | policy/canonical.go:56-63 | Equal digests of valid policies mean equal policies, or a collision of the hash itself |
| CanonicalSource.EscapedPasses | internal/strictsource/source.go:146-182 | Whatever a value contains, its escaped form changes neither the surrogate scanner's answer nor well-formedness of the text it precedes |
| CanonicalSource.CanonicalTextPasses | internal/strictsource/source.go:51-73 | Canonical text is valid UTF-8 and passes the surrogate scanner |
| CanonicalSource.PolicyIsBounded | internal/strictsource/source.go:202-258 | The document of any policy with at most 256 rules is within the node and depth limits and repeats no key |
| CanonicalSource.SnapshotSucceedsIffSmall | policy/parse.go:49-62 | The strict parser gives a valid policy back from its canonical text exactly when that text is at most 1 MiB, and refuses it otherwise |
| CanonicalSource.ValidDoesNotImplyParsable | policy/parse.go:49-62 | A concrete valid policy whose canonical text the parser refuses |
| Decisions.Validate | decision/validate.go:67-126 | Accepts exactly the Decisions of this version and kind whose identity, results, codes, failure, evaluator and extensions satisfy the contract, result by result and field by field |
| Decisions.ValidateRuleResult | decision/validate.go:143-164 | The checks in order accept exactly the well-formed results: an outcome exactly when matched, a confidence from 0 to 1, 1 to 16 codes |
| Decisions.ValidateFailure | decision/validate.go:166-176 | Accepts exactly failures with a well-formed code, a listed stage and a bounded message |
| Decisions.ValidateEvaluator | decision/validate.go:178-243 | The checks in order accept exactly the well-formed identities: fixture fields exactly for fixtures, a route of 1 to 16 and 1 to 64 attempts |
| Decisions.ReduceIsDefined | decision/reduce.go:18-37 | A reduction exists exactly for one valid result per rule of a valid policy, in order, a matched one with its rule's own outcome |
| Decisions.ApplyPrecedence | decision/reduce.go:18-63 | The checking loop and the six scanning loops compute the reduction |
| Decisions.ReduceSays | decision/reduce.go:39-63 | What is decided, from the results alone: deny if one matched deny, else failure if one failed, else review if one is indeterminate, else review or allow if one matched it, else the policy's default outcome; each with its own code, and a failure of the evaluation stage that is not retryable |
| Decisions.ReduceIsMaximum | decision/reduce.go:18-63 | The six scans equal one maximum over per-rule ranks: matched deny, failed, indeterminate, matched review, matched allow, not matched |
| Decisions.RankIsMonotone | decision/reduce.go:39-62 | Raising the rank of any rule never lowers the rank the outcome comes from |
| Decisions.ReduceIgnoresOrder | decision/reduce.go:18-63 | Permuting rules together with their results changes neither outcome nor reason codes |
| Decisions.AcceptedIsMaximum | decision/against.go:11-41 | A Decision accepted for a policy carries what the policy decides on the Decision's own results, which is the outcome of the greatest evidence, and has the code of that decision among its codes |
| Decisions.AcceptedExactly | decision/against.go:11-41 | A Decision is accepted exactly when it is valid, names this valid policy by name and digest, answers its rules in order with their own outcomes, and carries what the policy decides on those results with the code of that decision |
| Decisions.ValidateAgainst | decision/against.go:11-41 | The checks in order, the reduction among them, accept exactly those Decisions |
| Decisions.AcceptedIdentifiesPolicy | decision/against.go:11-41 | A Decision accepted for two policies means the policies are equal, or a collision of the hash |
| Evaluations.ValidateRequest | evaluator/validate.go:24-66 | Accepts exactly requests with well-formed identity, a bounded JSON object for input, 1 to 256 distinct well-formed rules and a deadline that is not the zero time |
| Evaluations.ValidateResult | evaluator/validate.go:80-146 | Accepts exactly results with one valid piece of evidence per rule, in order, and consistent metadata |
| Evaluations.ValidateEvidence | evaluator/validate.go:87-98 | Accepts exactly evidence with a listed status, a confidence from 0 to 1 if any, well-formed codes and a bounded UTF-8 message |
| Evaluations.ValidateMetadata | evaluator/validate.go:100-146 | The checks in order accept exactly consistent metadata: synthetic exactly for fixtures, fixture identity exactly then, and bounded texts |
| Profiles.ValidateClasses | evaluator/profile/validate.go:237-270 | The loop accepts exactly lists of listed failure classes without repeats |
| Profiles.ValidateRetry | evaluator/profile/validate.go:237-270 | Accepts exactly the policies with 1 to 5 attempts and, when there are retries, classes and an ordered schedule within limits |
| Profiles.AddRoutePosition | evaluator/profile/validate.go:354-366 | A position is added exactly when it is a well-formed name of a declared evaluator that has no position yet |
| Profiles.AddRoutePositions | evaluator/profile/validate.go:272-309 | Primary, escalation and fallbacks are accepted exactly when all are declared and pairwise distinct |
| Profiles.ValidateRouting | evaluator/profile/validate.go:272-317 | Accepts exactly the routings the runner relies on: distinct positions, fallback classes only with fallbacks, consistent confidence settings, indeterminate to review and failure to failure |
| Profiles.ValidateConfidence | evaluator/profile/validate.go:319-352 | Accepts exactly the confidence settings whose threshold, action and escalation fit together and whose evaluators report confidence |
| Profiles.ValidateEntry | evaluator/profile/validate.go:141-235 | Accepts exactly evaluators with well-formed identity, adapter, protocol, capabilities, names and template, bounded timeout and retry, a declared credential slot, bounded JSON parameters, and a fixture or semantic configuration |
| Profiles.ValidateNames | evaluator/profile/validate.go:174-195 | Accepts exactly evaluators whose optional provider, model, revision and template are well-formed, and no model is a URL |
| Profiles.ValidateFixture | evaluator/profile/validate.go:210-235 | Fixtures run on the fixture adapter with their two parameters and no provider, model, template or credential, and only fixtures do |
| Profiles.Validate | evaluator/profile/validate.go:45-101 | Accepts exactly the profiles with a well-formed header, at most 16 distinct credential slots, 1 to 16 distinct evaluators of one mode and a valid routing |
| Registries.ValidateParameters | evaluator/profile/validate.go:105-139 | Accepts exactly when every semantic evaluator has an installed validator of its exact adapter identity that accepts its parameters |
| Registries.CheckAdapter | evaluator/runner/runner.go:183-203 | The checks of the route loop on one adapter pass exactly if it is installed under the exact identity, evaluates, has the evaluator's mode, protocol, capabilities and fixture version, and a fixture is permitted |
| Registries.CheckParameters | evaluator/profile/validate.go:126-136 | Passes exactly if the exact adapter has a validator that accepts the parameters |
| Profiles.RouteIsBounded | evaluator/profile/validate.go:272-309 | A validated route has at most 16 positions |
| Profiles.BackoffSchedule | evaluator/runner/runner.go:362-362 | The backoff base never decreases from one attempt to the next and stays between zero and the cap |
| Profiles.BackoffExactly | evaluator/runner/runner.go:362-362 | The base after attempt k is the k-th term of the sequence that starts at the initial backoff and multiplies by the multiplier, or the cap if that is less, rounded down |
| Profiles.JitterRange | evaluator/runner/runner.go:98-102 | The default jitter leaves between half of the base and all of it |
| Invariants.RecordKeeps | evaluator/runner/runner.go:314-355 | Recording any adapter answer keeps grammar, timeliness, accounting, summary and reported identity; the usage record is what that adapter reported, or invalid, or unavailable |
| Invariants.BackoffKeeps | evaluator/runner/runner.go:359-388 | Whatever the clock, jitter and adapter do, a backoff keeps the wait budget: each recorded wait fits what was left of the deadline, and a run that goes on has slept all of it out |
| Invariants.StopTells | evaluator/runner/runner.go:393-401 | A stop is told as a cancellation only if the context has ended, and as an exceeded deadline only if it has passed or the context says so; a deadline that had passed before, or an expired context, is always told as one; going on means a context that has not ended |
| Invariants.CallIsOk | evaluator/runner/runner.go:297-346 | Every call is due at the earlier of its evaluator's timeout and the run's deadline, asks the run's request of its evaluator's exact adapter for its own rules, and is recorded under the code its answer calls for: the cause of a stop, else timeout if late, else the adapter's own code if it is retryable and timeout, unavailable or throttled, else adapter-failed, else invalid-result unless the result is valid and the evaluator's own, else succeeded |
| Runs.InvokeKeeps | evaluator/runner/runner.go:289-391 | A whole invocation keeps the invariant and budget and leaves, for every asked rule in order, valid evidence or its uniform failure; where valid evidence comes from is Provenance.InvokeHears |
| Runs.FallbacksKeep | evaluator/runner/runner.go:433-445 | The fallback chain keeps the invariant from any reachable state and leaves only trustworthy evidence |
| Runs.EscalateKeeps | evaluator/runner/runner.go:252-259 | The escalation, with its own fallbacks, keeps the invariant and settles each low-confidence rule |
| Runs.LowIsExact | evaluator/runner/runner.go:449-466 | The escalated indexes are strictly increasing, in range, and exactly the non-failed results with missing or low confidence |
| Runs.OverwrittenAt | evaluator/runner/runner.go:260-262 | The in-place overwrite changes exactly the listed indexes, each to its own replacement |
| Runs.RouteKeeps | evaluator/runner/runner.go:245-265 | Every run keeps the whole invariant and its wait budget, on every path |
| TraceTheorems.PathOf | evaluator/runner/runner.go:289-391 | Every grammatical trace walks forward along the configured route, from its first position |
| TraceTheorems.BlockOf | evaluator/runner/runner.go:289-391 | Attempts at one position of that walk share leg and rules, count up one by one, and each but the last failed as timed out, unavailable or throttled with that very class on its evaluator's retry list |
| TraceTheorems.OneBlockPerEvaluator | evaluator/runner/runner.go:289-391 | Between two attempts of one evaluator every attempt is its own, on the same leg, for the same rules, numbered within its limit and after a failure of a class on its retry list, so no evaluator has two blocks |
| TraceTheorems.LegsInOrder | evaluator/runner/runner.go:245-265 | Primary attempts come before escalation attempts, which come before fallback attempts |
| TraceTheorems.FallbacksArePrefix | evaluator/runner/runner.go:433-445 | The fallbacks tried are a prefix of those configured, in their order |
| TraceTheorems.RouteIsSummary | evaluator/runner/runner.go:330-332 | The reported route is the trace's evaluator IDs with repeats collapsed: distinct and at most 16 |
| RunTheorems.EveryTraceIsGrammatical | evaluator/runner/runner.go:245-391 | In every world the trace of a run follows the grammar that the trace theorems start from: a retry only after a timed-out, unavailable or throttled attempt with that class on the retry list, a fallback only after one with that class on the fallback list, an escalation only after a primary success |
| RunTheorems.EveryRunIsAccounted | evaluator/runner/usage.go:32-64 | At most 64 attempts; usage record i belongs to attempt i, is what that attempt's adapter reported if in order (counters within 2^53-1), invalid if not and unavailable if nothing was reported, and carries its error's code when that is well-formed; usage is on exactly when some adapter reported any; the fallback flag holds exactly when a fallback ran |
| Accounting.AccountingIsInert | evaluator/runner/usage.go:32-64 | Two runs in worlds that agree at every moment except on the usage adapters report end alike: both refused, or the same evidence, terminal code and trace, and the same Decision but for its usage report |
| Accounting.ReportsAreInert | evaluator/runner/usage.go:48-64 | Whatever usage the adapters of a world are made to report, or none, its runs end the same in that sense |
| RunTheorems.NoLateEvidence | evaluator/runner/runner.go:297-346 | An attempt counts as succeeded if and only if it was judged before its own deadline, itself at most the run's, with no context error and no adapter error, and its result is valid for what it was asked and its evaluator's own; every record names its evaluator's adapter and model and how long the call took, and a resolved model only when it succeeded |
| RunTheorems.WaitsFitTheBudget | evaluator/runner/runner.go:359-388 | Each sleep is shorter than what was left when it was asked for; all sleeps of a run sum to less than the total timeout |
| Pacing.BackoffPaces | evaluator/runner/runner.go:359-388 | A backoff after a retryable attempt adds at most one wait, for that attempt, with the wait its own error requires as floor, and says resume only when it was slept out |
| Pacing.WaitsAreForRetries | evaluator/runner/runner.go:359-388 | Every wait of a run was made for one traced attempt below its limit, of that evaluator and number, that timed out, was unavailable or was throttled with that class on the retry list; it was made after that attempt was judged, its floor is the wait that attempt's own error requires, and no attempt has two |
| Pacing.RetriesWait | evaluator/evaluator.go:117-120 | Every retry of a run starts after a slept-out wait for the attempt just before it, so never sooner than that attempt's judgement plus the wait its retryable error requires |
| Pacing.RequiredWaitExactly | evaluator/runner/runner.go:413-419 | A wait covers what its attempt's error asked for if and only if that error is retryable or the jitter alone left as much |
| Haste.SoonerThanAsked | evaluator/runner/runner.go:335-388 | A valid profile and a world of one millisecond per interaction, in which a decided run answers at its deadline with an unretryable error that asks for a second, and is retried eleven milliseconds after that was judged |
| RunTheorems.DefaultWaits | evaluator/runner/runner.go:98-102 | With the default jitter a wait lies between half and all of the capped base unless its floor is longer |
| RunTheorems.EvidenceCovers | evaluator/runner/runner.go:245-265 | The reducer gets exactly one valid result per policy rule in policy order, and never a judged result below the confidence threshold |
| RunTheorems.EvidenceIsPreserved | evaluator/runner/runner.go:245-265 | Rules are sent on exactly when they are low in a successful primary invocation and an escalation is configured; the others keep that invocation's evidence and those sent on get what the escalation settled, index by index |
| Provenance.InvokeHears | evaluator/runner/runner.go:289-391 | An invocation succeeds only with its last attempt, and its evidence is then that attempt's own answer without messages; otherwise every asked rule has the failure |
| Provenance.EvidenceIsHeard | evaluator/runner/runner.go:245-265 | Every piece of evidence of a run is an adapter's own answer to that rule in a successful attempt that asked it, demoted exactly when below the threshold, or the run's failure: the primary's one successful attempt answers for rules not sent on, the run's last attempt for all others; rules are sent on exactly when that primary answer is low, and every attempt after it asks exactly those rules |
| Provenance.FailureRetainsPrimary | evaluator/runner/runner.go:252-265 | In a run that ends with a failure, every result that did not fail is the primary's own answer to that rule, not below the threshold |
| RunTheorems.InvokePersists | evaluator/runner/runner.go:359-381 | A failure as timed out, unavailable or throttled with that class on the retry list is final only at the attempt limit or when the wait would not fit |
| RunTheorems.ChainPersists | evaluator/runner/runner.go:433-445 | A failure as timed out, unavailable or throttled with that class on the fallback list is final only after the last fallback |
| RunTheorems.EveryFallbackIsTried | evaluator/runner/runner.go:245-265 | The same for whole runs: such a run ended in the last configured fallback, with that failure |
| Causes.FailureHasCause | evaluator/runner/runner.go:289-401 | A run that ends cancelled has seen its context end or a sleep cut short; one that ends past its deadline has passed it or been told so; one that ends at the attempt limit has made 64; any other failure is its last attempt's own code |
| Deciding.DecideAccepts | evaluator/runner/runner.go:494-530 | From every reachable state with one attempt, the assembled Decision passes reduction, the Decision contract and the check against the policy |
| Deciding.RunDecides | evaluator/runner/runner.go:131-278 | No input and no world lead to an error after an attempt was made |
| Deciding.TerminalAgrees | evaluator/runner/runner.go:266-277 | Terminal code, outcome, failure and retryability of every decided run agree; a matched deny always wins, and under an operational terminal code it, like every result that did not fail, is retained from the primary's own answer; the Decision is accepted for the run's own policy |
| Deciding.DecidedPublishes | evaluator/runner/runner.go:494-530 | A Decision carries its own run's trace and terminal code, the usage report if and only if some adapter reported usage, and no other extension |
| Reports.PlanIsOfInput | evaluator/runner/runner.go:214-226 | A run asks for its own policy by name and digest, its input, correlation and profile digest and the policy's rules without outcomes, and is due at the earlier of its profile's timeout and its caller's deadline |
| Reports.CallsAskForTheInput | evaluator/runner/runner.go:299-326 | Every call of a decided run asks exactly that, cut down to its attempt's rules, of its evaluator's exact adapter, by the earlier of that time and the evaluator's timeout |
| Reports.DecidedSays | evaluator/runner/runner.go:494-555 | Every Decision names its policy, digest and version; has for each rule in order the status, confidence and codes of the run's evidence and the rule's own outcome exactly if matched; says what the policy decides on them; and its failure is the unresolved rule, or the code the run ended with, of the evaluation stage, retryable exactly if that is timeout, unavailable or throttled and the only thing that went wrong |
| Reports.EvaluatorIsReported | evaluator/runner/runner.go:512-524 | Every Decision reports as many attempts as the trace has, a fallback exactly if one of them ran on that leg, the trace's evaluators in order, the input's profile digest and version, and the adapter, mode, provider, model and fixture that the last adapter reported if its attempt succeeded, and that its evaluator is configured with otherwise |
| Reports.TerminalHasCause | evaluator/runner/runner.go:265-278 | The terminal code of a decided run that failed has its cause on record |
| Acceptance.AttemptedExactly | evaluator/runner/runner.go:245-248 | Whatever the adapters would answer, an attempt is made exactly when nothing stops the run before it |
| Acceptance.DecidedExactly | evaluator/runner/runner.go:131-278 | A run ends in a Decision if and only if its policy, profile, input, parameters, digests, labels and deadline are acceptable, every routed evaluator has its exact adapter installed, suitable and permitted, its credential held and metadata that pass, its deadline has not passed at its second clock reading, and its context has not ended two readings later |
| Acceptance.AdmittedExactly | evaluator/runner/runner.go:131-244 | The checks before the first attempt pass exactly on those inputs, evaluator by evaluator |
| Examples.ExampleIsDecided | evaluator/runner/runner.go:131-278 | A one-rule policy under a fixture profile, whatever its timeout and retry policy, is decided exactly in the worlds that are not cancelled at the start, do not stop it before its first attempt and do not make its deadline the zero time, so admitted runs exist |
| Runner.Live.constructor | evaluator/runner/runner.go:170-170 | A fresh execution has an empty trace, usage, route and no fallback, holds the run's credential copies and has lent nothing |
| Runner.Live.Stopped | evaluator/runner/runner.go:393-401 | One clock reading and up to two context readings give the specified stop code and world |
| Runner.Live.AppendAttempt | evaluator/runner/usage.go:32-47 | Appends the attempt and, with its index, the normalised usage, and nothing else |
| Runner.Live.Judge | evaluator/runner/runner.go:335-346 | Classifies a returned answer as specified: stop, deadline, error, invalid result or success |
| Runner.Live.Consult | evaluator/runner/runner.go:319-327 | The adapter sees the request and a buffer of its own that holds the captured bytes of its evaluator, or none without a slot; whatever it writes there, the buffer ends zeroed and the captured bytes stay as they were |
| Runner.Live.CallAdapter | evaluator/runner/runner.go:303-346 | One call under the earlier of attempt and run deadline, judged after it returned; which adapter was asked what, and with which bytes, is what the call's record says, one buffer of that length was lent, and it is zero |
| Runner.Live.Try | evaluator/runner/runner.go:297-355 | One attempt leaves exactly the specified state |
| Runner.Live.Wait | evaluator/runner/runner.go:359-388 | The backoff leaves exactly the specified world and says whether to resume, give up or halt |
| Runner.Live.Fail | evaluator/runner/runner.go:473-479 | A fresh array failing each asked rule with the code |
| Runner.Live.Invoke | evaluator/runner/runner.go:289-391 | The retry loop leaves exactly the specified state, evidence and failure |
| Runner.Live.ApplyConfidence | evaluator/runner/runner.go:449-466 | Rewrites exactly the low results in place and lists their indexes |
| Runner.Live.TryFallbacks | evaluator/runner/runner.go:433-445 | The fallback loop leaves exactly the specified state and evidence |
| Runner.Live.Escalate | evaluator/runner/runner.go:252-259 | The escalation leaves exactly the specified state and replacement |
| Runner.Live.RouteAll | evaluator/runner/runner.go:245-265 | The routed part of a run leaves exactly the specified state, and evidence overwritten in place |
| Runner.Live.Decide | evaluator/runner/runner.go:494-530 | Binding results, reducing, enriching, identifying and checking against the policy compute the specified Decision, or none |
| Runner.EnrichFailure | evaluator/runner/runner.go:534-555 | The pass over the results computes the specified failure |
| Runner.CheckRoute | evaluator/runner/runner.go:180-213 | Passes exactly the routes whose every evaluator has its exact adapter installed, suitable and permitted, and its credential held and not empty; takes one fresh copy for each distinct key |
| Runner.Execute | evaluator/runner/runner.go:214-278 | From the clock reading on, the runner computes the specified outcome over the copies it was given; what adapters saw is what the calls were given, in one lent buffer each, and all of those end zeroed |
| Runner.Run | evaluator/runner/runner.go:131-278 | The whole runner, its refusals in the source's order, computes the specified outcome, so every theorem about runs is one about it; however it ends, its credential copies and every buffer it lent are zero, the credentials object is untouched, and adapters saw exactly what the calls record |
| Lending.CallsAreGivenWhatWasHeld | evaluator/runner/runner.go:204-213 | In every decided run each call is given nothing if its evaluator has no slot, and otherwise exactly the non-empty bytes held for it when the run began, whatever earlier adapters wrote into theirs |
| Lending.CallsAreInstalled | evaluator/runner/runner.go:184-203 | Every call of a decided run goes to the installed adapter of its evaluator's exact identity, which evaluates, has that evaluator's mode, protocol, capabilities and fixture version and accepts its parameters; a fixture is called only with permission and never under enforcement |
| Lending.DecisionIsMarked | evaluator/runner/runner.go:512-524 | A Decision is marked synthetic exactly when its profile is a fixture profile, and never under enforcement |
| EvaluateProfile.CapturedIsCredentialed | internal/cli/evaluate_profile.go:176-193 | A captured resolution holds a non-empty credential for every evaluator of the route that has a slot, so the run is not refused for credentials |
| EvaluateProfile.CallsAreGivenTheEnvironment | internal/cli/evaluate_profile.go:176-193 | Every call of a decided run is given the environment's own answer to the lookup of the variable bound to its evaluator's adapter and slot |
| EvaluateProfile.EvaluateProfile | internal/cli/evaluate_profile.go:176-193 | Resolution, capture and run: a run is made exactly when every listed variable is supplied, of the resolved profile with those values; no captured buffer survives, and without a run no adapter is called |
| EscapeScanner.ValidateEscapes | internal/strictsource/source.go:146-190 | The index-jumping loop computes the recursive scan |
| EscapeScanner.ScanString | internal/strictsource/source.go:146-182 | Inside a string that lexes, the scan goes on after it exactly when its code units are well paired |
| EscapeScanner.PairedExactly | internal/strictsource/source.go:146-182 | Well paired are exactly the code units that some sequence of Unicode scalar values has as its UTF-16 form |
| EscapeScanner.ScannerIsExact | internal/jsonvalue/object.go:122-166 | On every text that lexes, the scan accepts exactly when no decoded string holds a lone surrogate (section 8.2 of RFC 8259) |
| LineBreaks.ValidateLineBreaks | internal/strictsource/source.go:555-571 | The rune-by-rune loop computes the recursive scan |
| LineBreaks.ScanIsExact | internal/strictsource/source.go:555-571 | On well-formed text the scan accepts exactly when no byte position shows a lone CR, NEL, LS or PS |
| TokenWalker.ValidateValue | internal/strictsource/source.go:202-258 | The early-exit walker accepts exactly when the tokens spell a value whose nodes, depth and keys fit what is left, and then consumes exactly that value and counts exactly its nodes |
| TokenWalker.ReadsSpelling | internal/jsonvalue/object.go:66-120 | The tokens of any value are read back as that value, wherever they stand |
| TokenWalker.ReadIsSpelled | internal/jsonvalue/object.go:66-120 | Whatever is read, its own tokens are what was consumed |
| TokenWalker.ValidateDocument | internal/jsonvalue/object.go:37-56 | A document is accepted exactly when its tokens are those of one value within the limits, an object exactly when the root delimiter says so |
| YamlWalker.NodeValue | internal/strictsource/source.go:311-391 | The walker returns the denoted value exactly when every node stays inside the JSON model and the value fits, and counts exactly its nodes |
| YamlWalker.CheckKey | internal/strictsource/source.go:339-358 | A mapping key passes exactly if it is an unlinked scalar resolved to a string and no merge key |
| ValueWalker.OrderKeeps | evaluator/profile/validate.go:517-523 | Visiting a map in sorted key order changes neither nodes, depth, members nor distinctness of keys |
| ValueWalker.ValidateJsonValue | evaluator/profile/validate.go:475-551 | Though it counts keys late, the walker accepts exactly the sound values that fit, and counts exactly their nodes |
| WalkersAgree.DenotesAsNode | internal/strictsource/source.go:311-391 | Every sound value has a YAML node that denotes it |
| WalkersAgree.SameVerdict | internal/strictsource/source.go:192-391 | The JSON walker, the YAML walker and the profile parameter walker give one value one verdict: its recursive node, depth and key bounds, and for decoded parameters soundness too |
| LocalConfig.FirstDefining | evaluator/localconfig/config.go:201-206 | Absent exactly when no level defines the key, else the reference and source of the first level that does |
| LocalConfig.LevelsDecide | evaluator/localconfig/config.go:200-214 | Command line, then project, then user, then what the adapter of exactly that identifier and version gives for the slot, and otherwise nothing |
| LocalConfig.Select | evaluator/localconfig/config.go:200-214 | The loop over levels and the default lookup find the chosen reference |
| LocalConfig.Bind | evaluator/localconfig/config.go:180-255 | The route loop with its maps, the trust gate and the final check compute the specified resolution |
| LocalConfig.Resolve | evaluator/localconfig/config.go:137-255 | Profile selection and binding together compute the specified resolution, refusal included |
| LocalConfigTheorems.WalkIsFirstMatch | evaluator/localconfig/config.go:191-233 | The loop succeeds exactly when every key has a choice, no two names clash by case and shared keys agree; it then binds exactly the routed keys to their first match |
| LocalConfigTheorems.FirstAtIsFirst | evaluator/localconfig/config.go:222-233 | The position used to order the listing is the first that needs the key |
| LocalConfigTheorems.RoutedKeysAreOk | evaluator/localbinding/validate.go:25-60 | Every routed key of a validated profile passes the binding artifact's own key checks, and there are at most 16 |
| LocalConfigTheorems.OnlyReferencesDecide | evaluator/localconfig/config.go:240-244 | So the final check of the effective bindings fails only on an ill-formed reference |
| LocalConfigTheorems.ProfileIsFirstMatch | evaluator/localconfig/config.go:137-179 | A resolution is of the command line's profile, else the project's, else the user's, else the built-in, and names that source; it is refused for want of a profile exactly if there is none, as an invalid built-in exactly if only that is left and fails its checks, and as no fixture exactly if one of its evaluators is none |
| LocalConfigTheorems.ResolutionIsFirstMatch | evaluator/localconfig/config.go:137-255 | Resolution succeeds exactly on resolvable routes with the trust they need; routed keys are bound at first match, each listed once in order of first use, and the project is named only when used |
| LocalConfigTheorems.RefusalsAreExact | evaluator/localconfig/config.go:191-244 | Every other refusal is that of the first routed evaluator that cannot be bound with those before it, for its own reason: no reference (by that evaluator and key), a name that differs by case only, or a conflict; or, when all can be bound, missing trust in the project as it is, and else an ill-formed reference |
| LocalConfigTheorems.ConflictNeedsTwoVersions | evaluator/localconfig/config.go:222-226 | A conflict refusal means two routed versions of one adapter with different defaults, under a key no level defines |
| LocalConfigTheorems.ShadowedProjectIsIdle | evaluator/localconfig/config.go:137-255 | A fully shadowed project level can be replaced by an absent one: same result, same refusal, never a demand for trust |
| LocalBinding.Credentials.Credential | evaluator/localbinding/preflight.go:84-95 | Returns a fresh copy equal to the captured bytes, absent for unknown keys and after clearing |
| LocalBinding.Credentials.Clear | evaluator/localbinding/preflight.go:98-112 | Every captured buffer ends zeroed, the map empty and the set closed for good |
| LocalBinding.Preflight | evaluator/localbinding/preflight.go:39-82 | Looks up each distinct routed key once, in route order, into fresh buffers; at the first that is unbound, unset or empty it stops, names that key, has asked exactly the names up to it, and leaves what it had captured zeroed |
| LocalBinding.FirstKeysAreDistinct | evaluator/localbinding/preflight.go:60-67 | The keys looked up are distinct and are exactly the routed ones |
| LocalBinding.AnsweredAt | evaluator/localbinding/preflight.go:73-78 | The bytes captured for a key are the answer to that key's own lookup |
| LocalBinding.WalkListsFirstKeys | evaluator/localconfig/config.go:191-233 | Resolution lists exactly the keys that capture will look up, in the same order |
| LocalBinding.PreflightResolved | evaluator/localconfig/config.go:278-287 | A resolution without bindings looks nothing up; any other runs the preflight of its own profile and bindings, missing credentials and zeroing included |
| LocalBinding.ResolvedIsReady | evaluator/localconfig/config.go:240-255 | After a successful resolution the profile and bindings pass the preflight's checks and every listed key is bound |
| LocalBinding.ResolveAndCapture | evaluator/localconfig/config.go:278-287 | After a successful resolution, capture fails exactly when a listed key's bound variable is unset or empty, at the first such one; only those variables are asked for, each by the name its key is bound to and once, what is captured for a key is the answer to that question, and a failed capture leaves nothing behind |
| Answers.Reindex | adapters/openai/openai.go:396-418 | Succeeds exactly when the answered IDs are a permutation of the requested ones with statuses matched, not matched or indeterminate, and then each rule has its own answer's status, no confidence, no message and the one code openai.matched, openai.not_matched or openai.indeterminate of that status |
| Answers.PermutedWhenCovered | adapters/openai/openai.go:408-417 | With distinct IDs on both sides, equal counts and finding every rule is a permutation, and conversely |
| Answers.RepeatIsNoPermutation | adapters/openai/openai.go:403-406 | A repeated answer can never be part of a permutation of distinct requests |
| Answers.ReindexedCovers | evaluator/validate.go:80-99 | Accepted openai answers pass every evidence check of the runner, in request order |
| Answers.ReadAnswer | adapters/systemone/systemone.go:486-504 | Reads exactly a noul probability in [0,1], with a bounded confidence beside it only where the contract allows one |
| Answers.Normalise | adapters/systemone/systemone.go:474-513 | Succeeds exactly when the answer keys are the requested set and every answer is acceptable, and each rule is then matched, not matched or indeterminate as its own probability is above, below or at a half, with the greater of that and its complement for confidence and the one systemone code of that status |
| Answers.ConfidenceIsOfStatus | adapters/systemone/systemone.go:505-513 | Over the reals, the confidence is the probability of the stated status, in [0.5,1], and exactly 0.5 only when indeterminate |
| Answers.NormalisedCovers | evaluator/validate.go:80-99 | Accepted systemone answers pass every evidence check of the runner, in request order |
| Diagnostics.BoundedMessage | evaluator/profile/validate.go:417-430 | The backward loop computes the bounded message |
| Diagnostics.TruncationIsSafe | evaluator/profile/validate.go:417-430 | At most 512 bytes and idempotent; a truncated message is a prefix and the ellipsis; valid UTF-8 stays valid and loses at most the rune that crosses the limit |
| Diagnostics.LostExactly | evaluator/profile/validate.go:417-430 | A message past 512 bytes is cut to the bare ellipsis if and only if its bytes 1 to 509 are all continuation bytes |
| Diagnostics.ContinuationRunIsLost | evaluator/profile/validate.go:417-430 | So text of continuation bytes only loses everything |

## Left out

- HTTP clients, TLS, transport failures, status tables, the WebAssembly host and fetch bridge, the CLI, flags and file loading: input and output over third-party libraries.
- Decisions.Validate: extension bytes are kept as what they are the JSON of, or as no JSON, so `json.Marshal` and `json.Valid` themselves are not modelled.
- Evaluations.ValidateRequest: input bytes are kept as their number and the value they are the JSON of.
- Profiles.Validate: what `validateEncodedArtifact` finds of the encoded profile, its size and number forms, is one flag of the profile.
- Runner.Run: whether the input bytes are a canonical object is a flag of the input, profile snapshots are taken to parse back, and an adapter's `Evaluate` may write into its credential but not keep it, as its contract says.
- Answers.ConfidenceIsOfStatus: in binary64 a probability just below a half rounds to confidence 0.5 with a status other than indeterminate, which reals do not show.
- Adapter panics, goroutines, mutexes and deferred cancellation: the runner is synchronous by contract.
- Floating point: probabilities, thresholds, multipliers and confidences are reals, so NaN, infinities and rounding do not occur; `Duration` overflow does not occur either.
- A text has one representation: the unlisted constructor of a code, status, mode or outcome stands only for texts without a constructor of their own, so comparing values is comparing texts.
- Codes the program spells itself are taken to match the reason-code pattern; all others are checked.
- Bytes outside escapes are units of their own in the lexer beside the surrogate scanner: the sources' UTF-8 is checked before the scanner runs, and UTF-8 spells no surrogate.
- White space between tokens in the canonical reader, which canonical text does not contain.
- JSON and YAML lexing, number grammar and YAML scalar resolution: the walkers start from tokens, parsed nodes with resolved scalars, and decoded trees; `normalizeNumbers` is not modelled.
- YamlWalker.NodeValue: returns the members of a mapping in document order where the code returns an unordered map.
- ValueWalker.ValidateJsonValue: takes a map as its members with distinct keys, in any order, as a Go map guarantees.
- The order in which errors are reported when a source has several, and their wording, lines and columns.
- LocalConfig.Resolve: takes layers as already built, with an opaque digest that is empty only for the absent layer; configuration and profile digests of the summary are not modelled.
- `retryAfter` of systemone and the envelope checks of `parseResponse` before reindexing: easy members without a further property.
- The rune-counting `boundedMessage` of the strict-source package, and directive detection: simple scans.
