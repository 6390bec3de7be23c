/** The interceptor as one state machine: `scormInterceptor.init(config)`,
    the interval ticks of every poller started so far, the host defining
    globals and calling its set-value function, and the 50 ms timers of
    scheduled translations firing in the order they were set.  Everything the
    original keeps in globals and closures is a field of `Session`. */
module Session {
  import opened Wrappers
  import opened Json
  import opened Merge
  import opened Config
  import opened Lrs
  import opened Translate
  import opened Intercept
  import opened Poller

  datatype Session = Session(
    origin: string,                 // location.origin
    vocab: map<string, Verb>,       // ADL.verbs
    tree: Value,                    // scormInterceptor.config
    cfg: Config,                    // its typed view
    link: Link,                     // xAPI client configuration and lrsEnabled
    pollers: seq<Poller>,           // one interval per call of init()
    globals: map<string, Fn>,       // window's callables
    apis: map<string, Learner>,     // window's SCORM API objects
    pending: seq<Pending>,          // translations whose timer has not fired
    invoked: seq<Invocation>,       // host functions run so far
    sent: seq<Statement>)           // statements handed to sendStatements

  datatype Event =
    | InitCall(overrides: Value)
    | IntervalTick(poller: nat)
    | HostDefine(name: string, f: Fn)
    | HostSetApi(name: string, learner: Learner)
    | HostCall(name: string, element: string, value: string)
    | TimerFire(freshId: string)

  /** The state after the script has loaded and before `init` is called. */
  function Loaded(origin: string, vocab: map<string, Verb>, globals: map<string, Fn>, apis: map<string, Learner>): (r: Session)
    ensures WellFormed(r)
    ensures r.tree == Defaults() && r.cfg == DefaultConfig()
    ensures !r.link.enabled && r.link.client.None?
    ensures r.pollers == [] && r.pending == [] && r.invoked == [] && r.sent == []
    ensures r.origin == origin && r.vocab == vocab && r.globals == globals && r.apis == apis
  {
    DefaultsRead();
    Session(origin, vocab, Defaults(), DefaultConfig(), Link(None, false), [], globals, apis, [], [], [])
  }

  /** The configuration is a plain object and the typed view is its reading. */
  predicate WellFormed(s: Session)
  {
    s.tree.Obj? && ReadConfig(s.tree) == Some(s.cfg)
  }

  /** `scormInterceptor.init(config)`: merge the override into the current
      configuration, run `initLRS` and start a new poller.  Nothing already
      installed is touched.  `None` when the merged configuration leaves a
      text option holding something other than a string. */
  function Init(s: Session, overrides: Value): (r: Option<Session>)
    ensures r.Some? <==> ReadConfig(MergeDeep(s.tree, overrides)).Some?
    ensures r.Some? ==> r.value.tree == MergeDeep(s.tree, overrides)
    ensures r.Some? ==> Some(r.value.cfg) == ReadConfig(r.value.tree)
    ensures r.Some? ==> r.value.link == InitLrs(r.value.cfg.lrs, s.link)
    ensures r.Some? ==> r.value.pollers == s.pollers + [Start()]
    ensures r.Some? ==> r.value.globals == s.globals && r.value.pending == s.pending && r.value.sent == s.sent
    ensures r.Some? ==> r.value.apis == s.apis && r.value.invoked == s.invoked
    ensures r.Some? ==> r.value.origin == s.origin && r.value.vocab == s.vocab
  {
    var tree := MergeDeep(s.tree, overrides);
    match ReadConfig(tree)
    case None => None
    case Some(cfg) =>
      Some(s.(tree := tree, cfg := cfg, link := InitLrs(cfg.lrs, s.link), pollers := s.pollers + [Start()]))
  }

  /** The SCORM API object currently found under the configured name. */
  function ApiOf(s: Session): (r: Option<Learner>)
    ensures r.Some? <==> s.cfg.scorm.api in s.apis
    ensures r.Some? ==> r.value == s.apis[s.cfg.scorm.api]
  {
    if s.cfg.scorm.api in s.apis then Some(s.apis[s.cfg.scorm.api]) else None
  }

  /** One event.  Only `init` can fail (see `Init`), and only `init` changes
      the configuration or the LRS link; the page origin and the verb
      vocabulary never change. */
  function Step(s: Session, e: Event): (r: Option<Session>)
    ensures !e.InitCall? ==> r.Some?
    ensures r.Some? ==> r.value.origin == s.origin && r.value.vocab == s.vocab
    ensures r.Some? && !e.InitCall? ==> r.value.tree == s.tree && r.value.cfg == s.cfg && r.value.link == s.link
    ensures r.Some? ==> r.value.apis == s.apis || e.HostSetApi?
  {
    match e
    case InitCall(overrides) => Init(s, overrides)
    case IntervalTick(i) =>
      if i < |s.pollers| then
        var t := Tick(s.pollers[i], s.globals, s.cfg.scorm.setValueFunction);
        Some(s.(pollers := s.pollers[i := t.poller], globals := t.globals))
      else Some(s)
    case HostDefine(name, f) => Some(s.(globals := s.globals[name := f]))
    case HostSetApi(name, learner) => Some(s.(apis := s.apis[name := learner]))
    case HostCall(name, element, value) =>
      if name in s.globals then
        var out := Call(s.globals[name], element, value);
        Some(s.(invoked := s.invoked + out.invoked, pending := s.pending + out.scheduled))
      else Some(s)
    case TimerFire(freshId) =>
      if |s.pending| == 0 then Some(s)
      else
        var p := s.pending[0];
        var stmt := ScormToXapi(s.origin, s.cfg, ApiOf(s), s.vocab, p.element, p.value);
        Some(s.(pending := s.pending[1..], sent := Dispatch(s.link.enabled, stmt, freshId, s.sent)))
  }

  function Run(s: Session, events: seq<Event>): Option<Session>
    decreases |events|
  {
    if |events| == 0 then Some(s)
    else match Step(s, events[0])
      case None => None
      case Some(t) => Run(t, events[1..])
  }

  /** A timer firing translates the oldest pending pair and sends exactly one
      statement carrying that pair when delivery is enabled, and nothing
      otherwise. */
  lemma FireSendsOnlyWhenEnabled(s: Session, freshId: string)
    requires |s.pending| > 0
    ensures Step(s, TimerFire(freshId)).Some?
    ensures var t := Step(s, TimerFire(freshId)).value;
            && t.pending == s.pending[1..]
            && |t.sent| == |s.sent| + (if s.link.enabled then 1 else 0)
            && t.sent[..|s.sent|] == s.sent
            && (s.link.enabled ==>
                  && t.sent[|s.sent|].id == Some(freshId)
                  && RawPair(s.origin, t.sent[|s.sent|]) == Some((s.pending[0].element, s.pending[0].value)))
  {
  }

  /** Every step keeps the LRS link enabled once it is enabled, and only an
      `init` whose configuration has an endpoint enables it.  No step but a
      timer firing with delivery enabled changes what was sent. */
  lemma StepLink(s: Session, e: Event)
    requires Step(s, e).Some?
    ensures var t := Step(s, e).value;
            && (s.link.enabled ==> t.link.enabled)
            && (t.link.enabled ==> s.link.enabled || t.cfg.lrs.endpoint != "")
            && (t.sent != s.sent ==> s.link.enabled && e.TimerFire?)
  {
  }

  /** Along the run every configuration has an empty endpoint. */
  predicate QuietRun(s: Session, events: seq<Event>)
    decreases |events|
  {
    |events| == 0 ||
    match Step(s, events[0])
    case None => true
    case Some(t) => t.cfg.lrs.endpoint == "" && QuietRun(t, events[1..])
  }

  /** With an empty endpoint nothing is ever sent: from a disabled link, a run
      whose configurations never name an endpoint sends no statement and
      leaves the link disabled. */
  lemma {:induction false} QuietRunSendsNothing(s: Session, events: seq<Event>)
    requires !s.link.enabled
    requires QuietRun(s, events)
    requires Run(s, events).Some?
    ensures Run(s, events).value.sent == s.sent
    ensures !Run(s, events).value.link.enabled
    decreases |events|
  {
    if |events| > 0 {
      var t := Step(s, events[0]).value;
      StepLink(s, events[0]);
      QuietRunSendsNothing(t, events[1..]);
    }
  }

  /** `init()` with no configuration keeps the configuration, applies the LRS
      settings again and starts one more poller. */
  lemma InitWithoutOverrides(s: Session, overrides: Value)
    requires WellFormed(s)
    requires !overrides.Obj?
    ensures Init(s, overrides) == Some(s.(link := InitLrs(s.cfg.lrs, s.link), pollers := s.pollers + [Start()]))
  {
    assert MergeDeep(s.tree, overrides) == s.tree;
  }

  /** Once a poller has wrapped the host function, a host call runs that
      function once with its own arguments and queues exactly that pair; the
      next timer then sends one statement recording the pair when delivery is
      enabled. */
  lemma {:induction false} CallThenFire(s: Session, name: string, id: nat, ret: string,
                                        element: string, value: string, freshId: string)
    requires name in s.globals && s.globals[name] == Wrapped(Original(id, ret))
    requires s.pending == []
    requires s.link.enabled
    ensures Run(s, [HostCall(name, element, value), TimerFire(freshId)]).Some?
    ensures var t := Run(s, [HostCall(name, element, value), TimerFire(freshId)]).value;
            && t.invoked == s.invoked + [Invocation(id, element, value)]
            && t.pending == []
            && |t.sent| == |s.sent| + 1
            && t.sent[..|s.sent|] == s.sent
            && RawPair(s.origin, t.sent[|s.sent|]) == Some((element, value))
  {
    var events := [HostCall(name, element, value), TimerFire(freshId)];
    var s1 := Step(s, events[0]).value;
    assert s1.pending == [Pending(element, value)];
    FireSendsOnlyWhenEnabled(s1, freshId);
    var s2 := Step(s1, events[1]).value;
    assert events[1..][1..] == [];
    assert Run(s, events) == Run(s1, events[1..]) == Run(s2, []);
  }

  /** `init({lrs: {endpoint: e}})` on a freshly loaded interceptor: the other
      LRS options keep their empty defaults, so the transport authenticates
      with the token `Basic ` built from the empty key, and delivery is
      enabled; every other option keeps its default. */
  lemma {:induction false} EndpointOnlyOverride(origin: string, vocab: map<string, Verb>,
                                                globals: map<string, Fn>, apis: map<string, Learner>, e: string)
    requires e != ""
    ensures var s := Loaded(origin, vocab, globals, apis);
            var r := Init(s, Obj(map["lrs" := Obj(map["endpoint" := Str(e)])]));
            && r.Some?
            && r.value.cfg == DefaultConfig().(lrs := LrsSettings(e, "", "", ""))
            && r.value.link == Link(Some(LrsConf(e, Token(BasicPrefix))), true)
  {
    var d := Defaults();
    var lrsOverride := Obj(map["endpoint" := Str(e)]);
    var o := Obj(map["lrs" := lrsOverride]);
    var dl := d.fields["lrs"];
    var ml := MergeDeep(dl, lrsOverride);
    var want := LrsSettings(e, "", "", "");
    assert ml.fields.Keys == LrsTree(want).fields.Keys;
    assert ml == LrsTree(want);
    var m := MergeDeep(d, o);
    assert m.fields.Keys == d.fields.Keys;
    assert m == Obj(d.fields["lrs" := LrsTree(want)]);
    ReadWithLrs(want);
    assert BasicPrefix + "" == BasicPrefix;
  }

  /** A firing timer translates with the configuration, SCORM API object and
      `lrsEnabled` current when it fires, not those of the call that queued it:
      with delivery enabled the statement sent is the translation of the oldest
      pending pair under the current state, with the generated identifier. */
  lemma FireUsesCurrentState(s: Session, freshId: string)
    requires |s.pending| > 0 && s.link.enabled
    ensures Step(s, TimerFire(freshId)).value.sent[|s.sent|]
            == ScormToXapi(s.origin, s.cfg, ApiOf(s), s.vocab, s.pending[0].element, s.pending[0].value).(id := Some(freshId))
  {
  }

  /** A running poller with tries left looks the function up under the
      currently configured name: when it is there, the tick wraps it and the
      poller stops. */
  lemma TickInstallsCurrentFunction(s: Session, i: nat)
    requires i < |s.pollers| && !s.pollers[i].stopped && s.pollers[i].numTries > 0
    requires s.cfg.scorm.setValueFunction in s.globals
    ensures var name := s.cfg.scorm.setValueFunction;
            var t := Step(s, IntervalTick(i)).value;
            && t.globals == s.globals[name := Wrapped(s.globals[name])]
            && t.pollers[i].stopped
            && t.pollers[i].numTries == s.pollers[i].numTries - 1
  {
  }

  /** Every step keeps a session well formed. */
  lemma StepKeepsWellFormed(s: Session, e: Event)
    requires WellFormed(s)
    requires Step(s, e).Some?
    ensures WellFormed(Step(s, e).value)
  {
  }

  /** Every session reachable from the loaded script is well formed, so the
      requirement of `InitWithoutOverrides` holds on all of them. */
  lemma {:induction false} RunKeepsWellFormed(s: Session, events: seq<Event>)
    requires WellFormed(s)
    requires Run(s, events).Some?
    ensures WellFormed(Run(s, events).value)
    decreases |events|
  {
    if |events| > 0 {
      StepKeepsWellFormed(s, events[0]);
      RunKeepsWellFormed(Step(s, events[0]).value, events[1..]);
    }
  }

  lemma ReachableIsWellFormed(origin: string, vocab: map<string, Verb>, globals: map<string, Fn>,
                              apis: map<string, Learner>, events: seq<Event>)
    requires Run(Loaded(origin, vocab, globals, apis), events).Some?
    ensures WellFormed(Run(Loaded(origin, vocab, globals, apis), events).value)
  {
    RunKeepsWellFormed(Loaded(origin, vocab, globals, apis), events);
  }
}
