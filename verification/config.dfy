/** The interceptor's configuration: the built-in defaults as a JSON-like tree
    and the typed record the rest of the model reads from it. */
module Config {
  import opened Json
  import opened Wrappers

  datatype LrsSettings = LrsSettings(endpoint: string, username: string, password: string, authKey: string)

  /** `xapi.verbs`: the per-element verb names and the name used otherwise. */
  datatype VerbSettings = VerbSettings(defaultVerb: string, verbMap: map<string, string>)

  /** `xapi.agent.defaultAgent`; an absent `email` is the empty string. */
  datatype AgentSettings = AgentSettings(id: string, name: string, email: string)

  /** `scorm`: the global names of the set-value function and of the API object. */
  datatype ScormSettings = ScormSettings(setValueFunction: string, api: string)

  datatype Config = Config(
    lrs: LrsSettings,
    courseName: string,
    verbs: VerbSettings,
    defaultAgent: AgentSettings,
    scorm: ScormSettings)

  /** The `lrs` object holding the given settings. */
  function LrsTree(lrs: LrsSettings): Value
  {
    Obj(map[
      "endpoint" := Str(lrs.endpoint),
      "username" := Str(lrs.username),
      "password" := Str(lrs.password),
      "authKey" := Str(lrs.authKey)])
  }

  /** The built-in configuration object, `debug` included. */
  function Defaults(): Value
  {
    Obj(map[
      "lrs" := LrsTree(LrsSettings("", "", "", "")),
      "xapi" := Obj(map[
        "courseName" := Str("DEFAULT_COURSE"),
        "verbs" := Obj(map[
          "defaultVerb" := Str("interacted"),
          "map" := Obj(map["cmi.suspend_data" := Str("interacted")])]),
        "agent" := Obj(map[
          "defaultAgent" := Obj(map[
            "id" := Str("DEFAULT_AGENT_ID"),
            "name" := Str("DEFAULT_AGENT_NAME")])])]),
      "scorm" := Obj(map[
        "setValueFunction" := Str("SCORM_CallLMSSetValue"),
        "api" := Str("SCORM_objAPI")]),
      "debug" := Bool(false)])
  }

  function DefaultConfig(): Config
  {
    Config(
      LrsSettings("", "", "", ""),
      "DEFAULT_COURSE",
      VerbSettings("interacted", map["cmi.suspend_data" := "interacted"]),
      AgentSettings("DEFAULT_AGENT_ID", "DEFAULT_AGENT_NAME", ""),
      ScormSettings("SCORM_CallLMSSetValue", "SCORM_objAPI"))
  }

  /** The field `key` of `v` when `v` is a plain object holding it. */
  function Field(v: Value, key: string): Option<Value>
  {
    if v.Obj? && key in v.fields then Some(v.fields[key]) else None
  }

  /** A string leaf. */
  function Text(v: Value, key: string): (r: Option<string>)
    ensures r.Some? <==> v.Obj? && key in v.fields && v.fields[key].Str?
    ensures r.Some? ==> v.fields[key] == Str(r.value)
  {
    match Field(v, key)
    case Some(Str(s)) => Some(s)
    case _ => None
  }

  /** A string leaf that may be missing; missing reads as the empty string,
      which every test in the code treats as falsy like `undefined`. */
  function OptionalText(v: Value, key: string): Option<string>
  {
    match Field(v, key)
    case None => Some("")
    case Some(Str(s)) => Some(s)
    case Some(_) => None
  }

  predicate AllStrings(m: map<string, Value>)
  {
    forall k :: k in m ==> m[k].Str?
  }

  /** The verb map: a plain object whose values are strings. */
  function TextMap(v: Value): (r: Option<map<string, string>>)
    ensures r.Some? ==> v.Obj? && r.value.Keys == v.fields.Keys
    ensures r.Some? ==> forall k :: k in r.value ==> v.fields[k] == Str(r.value[k])
  {
    if v.Obj? && AllStrings(v.fields) then Some(map k | k in v.fields :: v.fields[k].s) else None
  }

  function ReadLrs(lrs: Value): Option<LrsSettings>
  {
    var endpoint :- Text(lrs, "endpoint");
    var username :- Text(lrs, "username");
    var password :- Text(lrs, "password");
    var authKey :- Text(lrs, "authKey");
    Some(LrsSettings(endpoint, username, password, authKey))
  }

  function ReadVerbs(verbs: Value): Option<VerbSettings>
  {
    var defaultVerb :- Text(verbs, "defaultVerb");
    var mapValue :- Field(verbs, "map");
    var verbMap :- TextMap(mapValue);
    Some(VerbSettings(defaultVerb, verbMap))
  }

  function ReadAgent(agent: Value): Option<AgentSettings>
  {
    var defaultAgent :- Field(agent, "defaultAgent");
    var id :- Text(defaultAgent, "id");
    var name :- Text(defaultAgent, "name");
    var email :- OptionalText(defaultAgent, "email");
    Some(AgentSettings(id, name, email))
  }

  function ReadScorm(scorm: Value): Option<ScormSettings>
  {
    var setValueFunction :- Text(scorm, "setValueFunction");
    var api :- Text(scorm, "api");
    Some(ScormSettings(setValueFunction, api))
  }

  /** The typed view of a configuration tree.  It exists when every option the
      code reads as text holds a string (the optional agent email may be
      missing) and the verb map is an object of strings. */
  function ReadConfig(v: Value): Option<Config>
  {
    var lrsTree :- Field(v, "lrs");
    var lrs :- ReadLrs(lrsTree);
    var xapi :- Field(v, "xapi");
    var courseName :- Text(xapi, "courseName");
    var verbsTree :- Field(xapi, "verbs");
    var verbs :- ReadVerbs(verbsTree);
    var agentTree :- Field(xapi, "agent");
    var agent :- ReadAgent(agentTree);
    var scormTree :- Field(v, "scorm");
    var scorm :- ReadScorm(scormTree);
    Some(Config(lrs, courseName, verbs, agent, scorm))
  }

  /** The `lrs` object built from settings reads back as those settings. */
  lemma LrsRoundTrip(lrs: LrsSettings)
    ensures ReadLrs(LrsTree(lrs)) == Some(lrs)
  {
  }

  /** The default tree reads as the default record. */
  lemma DefaultsRead()
    ensures ReadConfig(Defaults()) == Some(DefaultConfig())
  {
    var d := Defaults();
    LrsRoundTrip(LrsSettings("", "", "", ""));
    var xapi := d.fields["xapi"];
    assert Text(xapi, "courseName") == Some("DEFAULT_COURSE");
    var verbs := xapi.fields["verbs"];
    assert Text(verbs, "defaultVerb") == Some("interacted");
    var m := verbs.fields["map"];
    assert AllStrings(m.fields);
    var read := map k | k in m.fields :: m.fields[k].s;
    assert read.Keys == {"cmi.suspend_data"};
    assert read["cmi.suspend_data"] == "interacted";
    assert read == map["cmi.suspend_data" := "interacted"];
    assert TextMap(m) == Some(map["cmi.suspend_data" := "interacted"]);
    assert ReadVerbs(verbs) == Some(DefaultConfig().verbs);
    var agent := xapi.fields["agent"].fields["defaultAgent"];
    assert Text(agent, "id") == Some("DEFAULT_AGENT_ID");
    assert Text(agent, "name") == Some("DEFAULT_AGENT_NAME");
    assert OptionalText(agent, "email") == Some("");
    assert ReadAgent(xapi.fields["agent"]) == Some(DefaultConfig().defaultAgent);
    var scorm := d.fields["scorm"];
    assert Text(scorm, "setValueFunction") == Some("SCORM_CallLMSSetValue");
    assert Text(scorm, "api") == Some("SCORM_objAPI");
    assert ReadScorm(scorm) == Some(DefaultConfig().scorm);
  }

  /** The defaults with only the `lrs` object replaced read as the default
      record with those LRS settings. */
  lemma ReadWithLrs(lrs: LrsSettings)
    ensures ReadConfig(Obj(Defaults().fields["lrs" := LrsTree(lrs)])) == Some(DefaultConfig().(lrs := lrs))
  {
    var v := Obj(Defaults().fields["lrs" := LrsTree(lrs)]);
    LrsRoundTrip(lrs);
    DefaultsRead();
    assert Field(v, "xapi") == Field(Defaults(), "xapi");
    assert Field(v, "scorm") == Field(Defaults(), "scorm");
  }
}
