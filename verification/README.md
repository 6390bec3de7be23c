# scorm-interceptor in Dafny

A model of `lib/scorm-interceptor.js`, the browser script that watches a SCORM
course's "set value" calls and turns each one into an xAPI statement sent to a
Learning Record Store (LRS). The model covers every piece of the script except
its I/O:

- **Configuration** (`json.dfy`, `merge.dfy`, `config.dfy`): configuration
  values are a JSON-like `Value` datatype. `Merge.MergeDeep` is `mergeDeep`
  exactly as written. `Config` holds the built-in defaults and reads a merged
  tree into a typed `Config` record.
- **LRS link** (`lrs.dfy`): `initLRS` as a pure function. It maps the `lrs`
  settings and the current link (the client configuration plus `lrsEnabled`)
  to the new link.
- **Translation** (`email.dfy`, `translate.dfy`): `getActor`, `getVerb`,
  `getActivity`, the statement and context built by `scormToxApi`, and the
  send gate. `validateEmail` is a hand-written recognizer that splits at the
  last `@` and cuts at dots. The regular expression is also written down as a
  separate grammar whose rules say "pieces of this kind glued with dots,
  quotes or brackets". `Email.RecognizerMatchesGrammar` proves the recognizer
  accepts exactly that grammar's language. Reading the grammar off the
  expression is by hand.
- **Interception** (`intercept.dfy`, `poller.dfy`): the page's globals are an
  explicit registry from names to callables. The interval callback started by
  `init()` is a state machine stepped once per tick. `interceptScormSetValue`
  wraps the registry entry. A wrapper call runs the original and appends the
  pair to a queue of pending translations.
- **Session** (`session.dfy`): one state machine joins the pieces. Its events
  are `scormInterceptor.init(config)`, interval ticks, the host defining
  globals and calling its function, and the 50 ms timers firing.

The model follows the code wherever it is surprising:
- Merge recursion is chosen by the override value, not by the default (see
  Findings).
- The installed wrapper returns `undefined` instead of the original's
  result (see Findings).
- An unknown verb name yields no verb rather than an error, because the
  vocabulary lookup is passed on unchecked.
- A target function that never appears costs ten attempts. A separate
  eleventh tick then stops the interval without trying.

## Model

| member | source | states |
|---|---|---|
| Json.IsObject | lib/scorm-interceptor.js:272-274 | "truthy, of type `object` and not an array" holds exactly for plain objects: `null` is excluded by truthiness and arrays by the array test |
| Json.AssignCopy | lib/scorm-interceptor.js:282 | `Object.assign({}, v)` copies a plain object key for key. An array becomes an object whose keys are exactly its decimal indices, each holding its element. Other primitives give an empty object |
| Json.IndexKeyInjective | lib/scorm-interceptor.js:282 | distinct array indices become distinct property names, so copying an array into an object loses no element |
| Merge.MergeDeep | lib/scorm-interceptor.js:281-301 | the result is always a fresh object. If either side is not a plain object, it is a copy of the target. Otherwise its keys are the union of both sides. Target keys absent from the override keep their values. Override values that are not plain objects replace the target's. Override keys new to the target are inserted as they are |
| Merge.DefaultsSurvive | lib/scorm-interceptor.js:284-298 | every value the target holds at a path the override does not touch is unchanged, at any depth: a partial override never erases sibling defaults |
| Merge.SelfMerge | lib/scorm-interceptor.js:281-301 | merging a plain object into itself returns it unchanged |
| Merge.AgreesWithIntended | lib/scorm-interceptor.js:285-292 | when, at every path both sides have, a plain object in the override sits over a plain object in the target, the code's merge equals the intended merge |
| Merge.MergeDeepIdempotent | lib/scorm-interceptor.js:281-301 | when, at every path both sides have, a plain object in the override sits over a plain object in the target, merging the same override twice gives the same configuration as merging it once |
| Merge.OverridesLand | lib/scorm-interceptor.js:284-298 | when, at every path both sides have, a plain object in the override sits over a plain object in the target, every non-object value it places at a path is at that path in the result |
| Merge.ObjectOverNonObjectIsLost | lib/scorm-interceptor.js:285-292 | for every target and override: under a key where the target holds a non-object and the override a plain object, the result holds only the shallow copy of the target's value, so the override is dropped |
| Merge.ObjectOverPrimitiveIsLost | lib/scorm-interceptor.js:285-292 | merging `{a: {b: 2}}` into `{a: 1}` gives `{a: {}}`. The override's leaf is lost, and merging the same override again changes the result |
| Merge.MergeIntended | lib/scorm-interceptor.js:284-298 | the corrected merge recurses only where both sides are plain objects. Any other override value replaces the target's, and keys absent from the override keep their values |
| Merge.IntendedIdempotent | lib/scorm-interceptor.js:281-301 | the corrected merge is idempotent for every target and override |
| Merge.IntendedOverridesLand | lib/scorm-interceptor.js:284-298 | in the corrected merge every non-object override value lands at its path, whatever the target holds |
| Config.LrsRoundTrip | lib/scorm-interceptor.js:35-40 | an `lrs` object built from settings reads back as exactly those settings |
| Config.DefaultsRead | lib/scorm-interceptor.js:33-63 | the built-in configuration tree reads as the default record (empty LRS settings, course `DEFAULT_COURSE`, verb `interacted` with the `cmi.suspend_data` entry, the default agent, the two SCORM global names) |
| Config.ReadWithLrs | lib/scorm-interceptor.js:33-63 | the defaults with only the `lrs` object replaced read as the default record with those LRS settings |
| Lrs.TransportConf | lib/scorm-interceptor.js:114-124 | a client configuration exists iff the endpoint is non-empty, and it carries the endpoint. It uses the user/password pair iff both are non-empty. Otherwise it uses `Basic ` followed by the auth key, even an empty one |
| Lrs.InitLrs | lib/scorm-interceptor.js:108-132 | delivery is enabled afterwards iff it was before or the endpoint is non-empty. An empty endpoint changes nothing, so no client configuration is applied. A non-empty one applies the configuration built from the settings |
| Lrs.InitLrsIdempotent | lib/scorm-interceptor.js:108-132 | applying the same LRS settings twice is the same as applying them once |
| Lrs.TokenDeterminesKey | lib/scorm-interceptor.js:123 | in token mode the client configuration determines the auth key: different keys never give the same configuration |
| Lrs.DefaultsDisabled | lib/scorm-interceptor.js:114-129 | with the default settings, a disabled link stays disabled and the client configuration is untouched |
| Email.SplitDots | lib/scorm-interceptor.js:263 | splitting at dots gives at least one piece, and no piece contains a dot |
| Email.JoinSplit | lib/scorm-interceptor.js:263 | joining the pieces of a string with dots gives the string back |
| Email.SplitJoin | lib/scorm-interceptor.js:263 | splitting a dot-join of dot-free pieces gives the pieces back |
| Email.LastAt | lib/scorm-interceptor.js:263 | finds the last `@` of a string, or reports that there is none |
| Email.DomainHasNoAt | lib/scorm-interceptor.js:263 | neither domain alternative of the expression (address literal or host name) contains `@` |
| Email.DotAtomAgrees | lib/scorm-interceptor.js:263 | cutting at dots accepts exactly the strings that are one or more atoms glued with dots |
| Email.QuotedAgrees | lib/scorm-interceptor.js:263 | the character test accepts exactly a quote, one or more characters other than line terminators, and a quote |
| Email.AddressLiteralAgrees | lib/scorm-interceptor.js:263 | cutting inside the brackets accepts exactly four groups of one to three digits, glued with dots and bracketed |
| Email.HostNameAgrees | lib/scorm-interceptor.js:263 | cutting at dots accepts exactly one or more labels, each followed by a dot, and then a top-level label of two or more letters |
| Email.RecognizerMatchesGrammar | lib/scorm-interceptor.js:262-265 | `validateEmail` accepts a string iff some `@` in it splits it into a local part (dot-atom or quoted string) and a domain (address literal or dotted host name with an alphabetic top-level label of two or more letters), each as the grammar's rules build them, independently of how the recognizer cuts |
| Email.SimpleAddress | lib/scorm-interceptor.js:263 | every `user@host.tld` with label characters in user and host and at least two letters in the top-level label is accepted |
| Translate.GetActor | lib/scorm-interceptor.js:137-154 | the name is the API's learner name when non-empty, else the default agent's. The mailbox always starts with `mailto:`. It continues with the chosen learner id when that is a valid email. Otherwise it continues with the default agent's email, or the built-in fallback mailbox when there is none |
| Translate.MailboxIsValidOrConfigured | lib/scorm-interceptor.js:142-148 | when the configured agent email is absent or valid, the actor's mailbox is always a valid address: a malformed learner id never reaches the statement |
| Translate.FallbackIsValid | lib/scorm-interceptor.js:147 | the built-in fallback mailbox is itself accepted by `validateEmail` |
| Translate.EmailIdIsKept | lib/scorm-interceptor.js:143-145 | a learner id such as `user@example.com` becomes the mailbox `mailto:user@example.com` |
| Translate.MalformedIdFallsBack | lib/scorm-interceptor.js:144-148 | a learner id without `@` (such as `not-an-email`) is replaced by the default agent's email or the fallback mailbox |
| Translate.VerbName | lib/scorm-interceptor.js:160-164 | the verb name is the element's map entry if non-empty, else the default verb if non-empty, else `interacted`. It is never empty |
| Translate.VerbNameOrigin | lib/scorm-interceptor.js:161-164 | the resolved name is a configured name or `interacted`, and all elements without a usable map entry get the same verb |
| Translate.DefaultVerbNames | lib/scorm-interceptor.js:44-49 | with the defaults, `cmi.suspend_data` and every unmapped element both resolve to `interacted` |
| Translate.GetVerb | lib/scorm-interceptor.js:160-167 | the verb is the vocabulary entry for the resolved name. There is none when the vocabulary lacks that name |
| Translate.GetActivity | lib/scorm-interceptor.js:174-185 | the activity id is the origin, then `/course/`, then the course name. Name and description are the fixed texts |
| Translate.ActivityIdentity | lib/scorm-interceptor.js:176 | all elements and values of a course share one activity, and on one origin two courses share an activity id iff they are the same course |
| Translate.ScormExtensions | lib/scorm-interceptor.js:199-206 | the context has exactly two extensions, `<origin>/element` and `<origin>/value`, holding the raw element and value |
| Translate.ScormToXapi | lib/scorm-interceptor.js:192-206 | the statement has the resolved actor and verb, exactly the fixed-text course activity, exactly the two extensions holding element and value, and no identifier yet. The raw `(element, value)` pair can be read back from its context |
| Translate.Dispatch | lib/scorm-interceptor.js:208-214 | when delivery is disabled nothing is sent. Otherwise exactly one statement is appended: the given one, with the generated identifier |
| Intercept.Call | lib/scorm-interceptor.js:233-241 | calling any registry entry runs the host function underneath exactly once, with the same pair. It schedules one translation of that pair per stacked wrapper. A wrapper returns `undefined` whatever the original returned |
| Intercept.Install | lib/scorm-interceptor.js:220-245 | installation succeeds iff something is stored under the name, and it then wraps exactly that entry. Every other entry is unchanged, and a failed attempt changes nothing |
| Intercept.InstalledWrapperCall | lib/scorm-interceptor.js:233-241 | after one installation, a call runs the original once with the pair, queues exactly that pair, and returns `undefined` |
| Intercept.ReinstallDoublesTranslations | lib/scorm-interceptor.js:225-233 | a second installation wraps the wrapper, so each call still runs the original once but queues its pair twice |
| Poller.Start | lib/scorm-interceptor.js:83 | a new poller starts with ten tries and running |
| Intercept.CallIntended | lib/scorm-interceptor.js:233-241 | the corrected wrapper runs and schedules exactly what the wrapper as written does, but returns the host function's result |
| Intercept.IntendedWrapperIsTransparent | lib/scorm-interceptor.js:233-241 | after installation, a caller of the corrected wrapper gets back exactly what a direct call of the host function returns, and one translation is still queued. The wrapper as written returns something else |
| Poller.Tick | lib/scorm-interceptor.js:89-102 | a stopped interval does nothing. Otherwise the counter always drops by one. An attempt is made iff the counter was positive, and it installs iff the function is present. The interval stops on success or when no attempts remain |
| Poller.StoppedStaysIdle | lib/scorm-interceptor.js:95-99 | after `clearInterval` no later tick attempts or installs anything |
| Poller.AttemptsBounded | lib/scorm-interceptor.js:83-102 | over any number of ticks a poller makes at most its counter's worth of attempts and installs at most once |
| Poller.MissesKeepPolling | lib/scorm-interceptor.js:92-94 | while the function is absent and attempts remain, every tick is an attempt and the poller keeps running |
| Poller.FoundStopsPolling | lib/scorm-interceptor.js:92-97 | if the function first appears at tick k while attempts remain, the wrapper is installed at tick k after k+1 attempts and the poller stops |
| Poller.NeverFoundStops | lib/scorm-interceptor.js:98-100 | if the function never appears, every attempt is spent. The next tick stops the interval without an attempt, and nothing is installed |
| Poller.StartBehaviour | lib/scorm-interceptor.js:83-102 | from ten tries: a function appearing at tick k < 10 is intercepted at exactly that tick and later ticks change nothing. One that never appears gets ten attempts, and the eleventh tick stops the poller with nothing installed |
| Session.Loaded | lib/scorm-interceptor.js:32-65 | after the script loads, the configuration object is exactly the built-in defaults tree, reading as the default record. Delivery is disabled with no client configuration applied, and no poller, pending translation or sent statement exists |
| Session.ApiOf | lib/scorm-interceptor.js:140 | the SCORM API object is whatever the page holds under the currently configured `scorm.api` name, if anything |
| Session.Step | lib/scorm-interceptor.js:72-240 | every event but `init` succeeds. Only `init` changes the configuration or the LRS link, only the host changes the SCORM API object, and the origin and verb vocabulary never change |
| Session.FireUsesCurrentState | lib/scorm-interceptor.js:238-239 | with delivery enabled, a firing timer sends the translation of the oldest pending pair under the configuration and SCORM API object current at fire time, with the generated identifier |
| Session.TickInstallsCurrentFunction | lib/scorm-interceptor.js:89-97 | a running poller with tries left looks up the currently configured function name. When the function is there, the tick wraps exactly that entry and the poller stops |
| Session.RunKeepsWellFormed | lib/scorm-interceptor.js:72-76 | along any run, the configuration stays a plain object whose typed reading is the session's configuration |
| Session.ReachableIsWellFormed | lib/scorm-interceptor.js:32-76 | every session reachable from the loaded script is well formed |
| Session.Init | lib/scorm-interceptor.js:72-76 | `init(config)` merges the override into the current configuration, runs the LRS decision on the result and starts one more poller. Installed wrappers, the SCORM API objects, the host-call log, queued translations, sent statements, the origin and the verb vocabulary are untouched |
| Session.InitWithoutOverrides | lib/scorm-interceptor.js:72-76 | `init()` without a configuration object keeps the configuration as it was |
| Session.EndpointOnlyOverride | lib/scorm-interceptor.js:114-128 | overriding only `lrs.endpoint` keeps every other default and enables delivery with the token `Basic ` built from the empty key |
| Session.FireSendsOnlyWhenEnabled | lib/scorm-interceptor.js:238-240 | a firing timer consumes the oldest pending pair. It sends exactly one statement recording that pair when delivery is enabled, and nothing otherwise |
| Session.StepLink | lib/scorm-interceptor.js:128 | once enabled, delivery is never disabled again. Only a configuration with an endpoint enables it, and only a firing timer with delivery enabled sends anything |
| Session.QuietRunSendsNothing | lib/scorm-interceptor.js:209-214 | starting from a disabled link, a run whose configurations never name an endpoint sends no statement at all |
| Session.CallThenFire | lib/scorm-interceptor.js:233-240 | after interception, a host call runs the original once with its pair. With delivery enabled and nothing already queued, the next timer sends one statement recording that pair |

## Left out

- Debug logging (`log`, lib/scorm-interceptor.js:249-257) and the `debug` option: console output only.
- The `Object.assign` polyfill (lib/scorm-interceptor.js:2-30): only its copy semantics are modelled, in `Json.AssignCopy`.
- Json.AssignCopy: a string target copies as an empty object. JavaScript would copy its characters under index keys; this case arises only when an object override meets a string default.
- Real time: the 500 ms interval and the 50 ms timeouts become discrete ticks and a first-in first-out queue. Equal-delay timers fire in the order they were set.
- The xAPI client library is replaced by plain data. Its configuration is `Lrs.Link.client` and its send queue is `Session.sent`. Statement and agent constructors are records. The vocabulary `ADL.verbs` is a parameter, and so is the identifier `generateId` produces. The send completion callback does nothing and is not modelled.
- `window` and `location.origin` become the registry maps and the `origin` parameter. Registry entries are always callables: a non-callable truthy global under the function's name is not modelled.
- JavaScript prototype lookups are not modelled: `key in target`, and `map[element]` finding inherited properties such as `constructor`.
- Numbers are integers. No floating point is modelled.
- Session.Init: a merged configuration whose text options are not strings (or whose verb map is not an object of strings) yields `None`. JavaScript would coerce such values or throw.
- Translate.GetActor: the learner fields of the SCORM API object are strings. The empty string stands for a missing or falsy field.
- Intercept.Call: a host function returns the same fixed value (`Original.ret`) for every pair; no property depends on what it returns beyond passing it through.
- Intercept.Call: a host function always returns normally. An exception thrown by the original would skip scheduling the translation, and that is not modelled.

## Findings

| source | as written | input that shows it | evidently intended | confidence | as-written member | corrected member |
|---|---|---|---|---|---|---|
| lib/scorm-interceptor.js:285-292 | recursion is chosen by the override value being a plain object. An object override over a primitive default calls `mergeDeep(primitive, object)`, which returns `Object.assign({}, primitive)` and drops the override | merging `{a: {b: 2}}` into `{a: 1}` gives `{a: {}}`; merging the same override again gives `{a: {b: 2}}` | recurse only where both sides are plain objects, let any other override replace the default; merging is then idempotent and every override leaf lands | medium, not executed | Merge.ObjectOverPrimitiveIsLost | Merge.MergeIntended |
| lib/scorm-interceptor.js:233-241 | the wrapper calls the original, discards its result and returns `undefined` | a host set-value function returning `"true"` is seen by its callers as returning `undefined` once wrapped | the wrapper returns what the original returned, so only the scheduled translation is added | medium, not executed | Intercept.InstalledWrapperCall | Intercept.CallIntended |

`Session` keeps the merge and the wrapper as written, since that is what the
script runs. `Merge.AgreesWithIntended` shows that both merges give the same
result whenever, at every path both sides have, a plain object in the
override sits over a plain object in the target, and
`Merge.ObjectOverNonObjectIsLost` states the general loss on every other
input. `Intercept.CallIntended` runs and schedules exactly what
`Intercept.Call` does; only the returned value differs.
