/** The translation of one intercepted SCORM `(element, value)` pair into an
    xAPI statement (`getActor`, `getVerb`, `getActivity`, `scormToxApi`), and
    the gate that sends it only when delivery is enabled.

    The page origin, the SCORM API object found under `scorm.api` and the xAPI
    library's verb vocabulary are parameters; so is the identifier the library
    would generate for a statement. */
module Translate {
  import opened Wrappers
  import opened Config
  import opened Email

  /** The learner fields of the host SCORM API object; an empty string is a
      missing or falsy field. */
  datatype Learner = Learner(name: string, id: string)

  datatype Actor = Actor(mbox: string, name: string)

  /** A verb object of the xAPI vocabulary, identified by its IRI. */
  datatype Verb = Verb(iri: string)

  datatype Activity = Activity(id: string, name: string, description: string)

  datatype Statement = Statement(
    id: Option<string>,
    actor: Actor,
    verb: Option<Verb>,
    activity: Activity,
    extensions: map<string, string>)

  const MailtoScheme: string := "mailto:"
  /** The mailbox used when neither the learner id nor the default agent's
      email is usable: `fromScormInterceptor@riptidesoftware.com`. */
  const FallbackMailbox: string := "fromScormInterceptor" + "@" + "riptidesoftware.com"
  const FallbackVerb: string := "interacted"
  const CoursePath: string := "/course/"
  const ActivityName: string := "Scorm Interception"
  const ActivityDescription: string := "A scorm value was intercepted"

  /** The learner id the actor is built from: the API's when truthy, else the
      default agent's. */
  function LearnerIdOf(api: Option<Learner>, agent: AgentSettings): string
  {
    if api.Some? && api.value.id != "" then api.value.id else agent.id
  }

  /** `getActor()` */
  function GetActor(api: Option<Learner>, agent: AgentSettings): (r: Actor)
    ensures api.Some? && api.value.name != "" ==> r.name == api.value.name
    ensures !(api.Some? && api.value.name != "") ==> r.name == agent.name
    ensures |r.mbox| > |MailtoScheme| && r.mbox[..|MailtoScheme|] == MailtoScheme
    ensures ValidateEmail(LearnerIdOf(api, agent)) ==> r.mbox[|MailtoScheme|..] == LearnerIdOf(api, agent)
    ensures !ValidateEmail(LearnerIdOf(api, agent)) && agent.email != "" ==> r.mbox[|MailtoScheme|..] == agent.email
    ensures !ValidateEmail(LearnerIdOf(api, agent)) && agent.email == "" ==> r.mbox[|MailtoScheme|..] == FallbackMailbox
  {
    var name := if api.Some? && api.value.name != "" then api.value.name else agent.name;
    var id := LearnerIdOf(api, agent);
    var mbox := if ValidateEmail(id) then MailtoScheme + id
                else MailtoScheme + (if agent.email != "" then agent.email else FallbackMailbox);
    assert id != "" ==> |mbox| > |MailtoScheme|;
    Actor(mbox, name)
  }

  /** The mailbox of an actor is either a grammatical e-mail address or the
      configured mailbox of the default agent (or the built-in fallback when
      none is configured): a malformed learner id never reaches the statement. */
  lemma MailboxIsValidOrConfigured(api: Option<Learner>, agent: AgentSettings)
    requires agent.email == "" || ValidateEmail(agent.email)
    ensures var mailbox := GetActor(api, agent).mbox[|MailtoScheme|..];
            ValidateEmail(mailbox)
  {
    FallbackIsValid();
  }

  lemma FallbackIsValid()
    ensures ValidateEmail(FallbackMailbox)
  {
    var user, host, tld := "fromScormInterceptor", "riptidesoftware", "com";
    assert AllChars(user, IsLabelChar);
    assert AllChars(host, IsLabelChar);
    assert AllChars(tld, IsLetter);
    SimpleAddress(user, host, tld);
    assert host + "." + tld == "riptidesoftware.com";
    assert FallbackMailbox == user + "@" + host + "." + tld;
  }

  /** A learner id of the usual `user@host.tld` shape is used as is: the
      actor's mailbox is `mailto:` followed by that id. */
  lemma EmailIdIsKept(api: Option<Learner>, agent: AgentSettings, user: string, host: string, tld: string)
    requires |user| > 0 && AllChars(user, IsLabelChar)
    requires |host| > 0 && AllChars(host, IsLabelChar)
    requires |tld| >= 2 && AllChars(tld, IsLetter)
    requires LearnerIdOf(api, agent) == user + "@" + host + "." + tld
    ensures GetActor(api, agent).mbox == MailtoScheme + user + "@" + host + "." + tld
  {
    SimpleAddress(user, host, tld);
  }

  /** A learner id without `@` (such as `not-an-email`) is never used: the
      mailbox is the default agent's email or the fallback. */
  lemma MalformedIdFallsBack(api: Option<Learner>, agent: AgentSettings)
    requires forall i :: 0 <= i < |LearnerIdOf(api, agent)| ==> LearnerIdOf(api, agent)[i] != '@'
    ensures GetActor(api, agent).mbox == MailtoScheme + (if agent.email != "" then agent.email else FallbackMailbox)
  {
  }

  /** The verb name: `map[element] || defaultVerb || 'interacted'`. */
  function VerbName(verbs: VerbSettings, element: string): (r: string)
    ensures r != ""
    ensures element in verbs.verbMap && verbs.verbMap[element] != "" ==> r == verbs.verbMap[element]
    ensures !(element in verbs.verbMap && verbs.verbMap[element] != "") && verbs.defaultVerb != "" ==>
      r == verbs.defaultVerb
    ensures !(element in verbs.verbMap && verbs.verbMap[element] != "") && verbs.defaultVerb == "" ==>
      r == FallbackVerb
  {
    if element in verbs.verbMap && verbs.verbMap[element] != "" then verbs.verbMap[element]
    else if verbs.defaultVerb != "" then verbs.defaultVerb
    else FallbackVerb
  }

  /** The resolved name is always one of the configured names or the
      built-in fallback, and an element without a usable entry gets the same
      verb as every other such element. */
  lemma VerbNameOrigin(verbs: VerbSettings, element: string, other: string)
    ensures VerbName(verbs, element) in verbs.verbMap.Values + {verbs.defaultVerb, FallbackVerb}
    ensures (element !in verbs.verbMap || verbs.verbMap[element] == "")
         && (other !in verbs.verbMap || verbs.verbMap[other] == "")
         ==> VerbName(verbs, element) == VerbName(verbs, other)
  {
  }

  /** With the defaults, `cmi.suspend_data` maps to `interacted` through its
      map entry and any unmapped element falls back to `interacted` too. */
  lemma DefaultVerbNames(element: string)
    requires element != "cmi.suspend_data"
    ensures VerbName(DefaultConfig().verbs, "cmi.suspend_data") == "interacted"
    ensures VerbName(DefaultConfig().verbs, element) == "interacted"
  {
  }

  /** `getVerb(element)`: the vocabulary entry for the resolved name; a name
      missing from the vocabulary yields no verb (`undefined`). */
  function GetVerb(vocab: map<string, Verb>, verbs: VerbSettings, element: string): (r: Option<Verb>)
    ensures r.Some? <==> VerbName(verbs, element) in vocab
    ensures r.Some? ==> r.value == vocab[VerbName(verbs, element)]
  {
    var name := VerbName(verbs, element);
    if name in vocab then Some(vocab[name]) else None
  }

  /** `getActivity(element, value)`: one activity per course; the element and
      value are not used. */
  function GetActivity(origin: string, courseName: string, element: string, value: string): (r: Activity)
    ensures r.name == ActivityName && r.description == ActivityDescription
    ensures |r.id| == |origin| + |CoursePath| + |courseName|
    ensures r.id[..|origin|] == origin && r.id[|origin|..|origin| + |CoursePath|] == CoursePath
    ensures r.id[|origin| + |CoursePath|..] == courseName
  {
    Activity(origin + CoursePath + courseName, ActivityName, ActivityDescription)
  }

  /** All elements of a course share one activity, and different courses on
      one origin get different activities. */
  lemma ActivityIdentity(origin: string, c1: string, c2: string, e1: string, v1: string, e2: string, v2: string)
    ensures GetActivity(origin, c1, e1, v1) == GetActivity(origin, c1, e2, v2)
    ensures GetActivity(origin, c1, e1, v1).id == GetActivity(origin, c2, e2, v2).id <==> c1 == c2
  {
  }

  /** The extension keys under which the raw pair is recorded. */
  function ElementKey(origin: string): string
  {
    origin + "/element"
  }

  function ValueKey(origin: string): string
  {
    origin + "/value"
  }

  /** The statement context: the raw element path and value, keyed by
      origin-relative URIs. */
  function ScormExtensions(origin: string, element: string, value: string): (r: map<string, string>)
    ensures r.Keys == {ElementKey(origin), ValueKey(origin)}
    ensures |r| == 2
    ensures r[ElementKey(origin)] == element && r[ValueKey(origin)] == value
  {
    assert ElementKey(origin)[|origin| + 1] != ValueKey(origin)[|origin| + 1];
    map[ElementKey(origin) := element, ValueKey(origin) := value]
  }

  /** The statement `scormToxApi` builds, before an identifier is generated. */
  function ScormToXapi(origin: string, cfg: Config, api: Option<Learner>, vocab: map<string, Verb>,
                       element: string, value: string): (r: Statement)
    ensures r.id.None?
    ensures r.actor == GetActor(api, cfg.defaultAgent)
    ensures r.verb == GetVerb(vocab, cfg.verbs, element)
    ensures r.activity == GetActivity(origin, cfg.courseName, element, value)
    ensures r.extensions == ScormExtensions(origin, element, value)
    ensures RawPair(origin, r) == Some((element, value))
  {
    var ext := ScormExtensions(origin, element, value);
    Statement(None, GetActor(api, cfg.defaultAgent), GetVerb(vocab, cfg.verbs, element),
              GetActivity(origin, cfg.courseName, element, value), ext)
  }

  /** Reads the raw SCORM pair back out of a statement's context. */
  function RawPair(origin: string, s: Statement): Option<(string, string)>
  {
    if ElementKey(origin) in s.extensions && ValueKey(origin) in s.extensions then
      Some((s.extensions[ElementKey(origin)], s.extensions[ValueKey(origin)]))
    else None
  }

  /** The send gate of `scormToxApi`: with delivery enabled the statement gets
      its generated identifier and is appended to what was sent; otherwise
      nothing is sent. */
  function Dispatch(enabled: bool, s: Statement, freshId: string, sent: seq<Statement>): (r: seq<Statement>)
    ensures !enabled ==> r == sent
    ensures enabled ==> |r| == |sent| + 1 && r[..|sent|] == sent
    ensures enabled ==> r[|sent|] == s.(id := Some(freshId))
  {
    if enabled then sent + [s.(id := Some(freshId))] else sent
  }
}
