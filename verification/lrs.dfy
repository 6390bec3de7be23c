/** `initLRS`: deciding, from the `lrs` settings, whether statements are
    delivered and with which transport configuration.  The external client's
    configuration is part of the state, so "no configuration call is made"
    reads as "the client configuration is unchanged". */
module Lrs {
  import opened Wrappers
  import opened Config

  /** How the transport authenticates: a user/password pair, or a ready-made
      `Authorization` value. */
  datatype Auth = Credentials(user: string, password: string) | Token(auth: string)

  /** The object passed to the xAPI client's `changeConfig`. */
  datatype LrsConf = LrsConf(endpoint: string, auth: Auth)

  /** The LRS link: the configuration last applied to the xAPI client (if
      any) and the `lrsEnabled` flag read when a statement is sent. */
  datatype Link = Link(client: Option<LrsConf>, enabled: bool)

  const BasicPrefix: string := "Basic "

  /** The client configuration built from the settings; none when the endpoint
      is empty. */
  function TransportConf(lrs: LrsSettings): (r: Option<LrsConf>)
    ensures r.Some? <==> lrs.endpoint != ""
    ensures r.Some? ==> r.value.endpoint == lrs.endpoint
    ensures r.Some? ==> (r.value.auth.Credentials? <==> lrs.username != "" && lrs.password != "")
    ensures r.Some? && r.value.auth.Credentials? ==>
      r.value.auth.user == lrs.username && r.value.auth.password == lrs.password
    ensures r.Some? && r.value.auth.Token? ==>
      |r.value.auth.auth| == |BasicPrefix| + |lrs.authKey|
      && r.value.auth.auth[..|BasicPrefix|] == BasicPrefix
      && r.value.auth.auth[|BasicPrefix|..] == lrs.authKey
  {
    if lrs.endpoint != "" then
      var auth := if lrs.username != "" && lrs.password != "" then
                    Credentials(lrs.username, lrs.password)
                  else
                    Token(BasicPrefix + lrs.authKey);
      Some(LrsConf(lrs.endpoint, auth))
    else
      None
  }

  /** One run of `initLRS` on the current link: with an endpoint it applies the
      configuration and enables delivery; without one it changes nothing, so a
      link enabled earlier stays enabled. */
  function InitLrs(lrs: LrsSettings, link: Link): (r: Link)
    ensures r.enabled <==> link.enabled || lrs.endpoint != ""
    ensures lrs.endpoint == "" ==> r == link
    ensures lrs.endpoint != "" ==> r.client.Some? && r.client.value.endpoint == lrs.endpoint
    ensures lrs.endpoint != "" ==> r.client == TransportConf(lrs)
  {
    match TransportConf(lrs)
    case Some(conf) => Link(Some(conf), true)
    case None => link
  }

  /** Applying the same settings twice is the same as applying them once. */
  lemma InitLrsIdempotent(lrs: LrsSettings, link: Link)
    ensures InitLrs(lrs, InitLrs(lrs, link)) == InitLrs(lrs, link)
  {
  }

  /** The token is recoverable from the transport configuration: stripping the
      `Basic ` prefix gives back the configured key, so two different keys
      never produce the same configuration. */
  lemma {:induction false} TokenDeterminesKey(a: LrsSettings, b: LrsSettings)
    requires a.endpoint != "" && a.endpoint == b.endpoint
    requires !(a.username != "" && a.password != "")
    requires TransportConf(a) == TransportConf(b)
    ensures b.authKey == a.authKey
  {
    var ta, tb := TransportConf(a), TransportConf(b);
    assert tb.value.auth.Token?;
    assert a.authKey == ta.value.auth.auth[|BasicPrefix|..];
  }

  /** The default settings leave delivery disabled. */
  lemma DefaultsDisabled(link: Link)
    requires !link.enabled
    ensures !InitLrs(DefaultConfig().lrs, link).enabled
    ensures InitLrs(DefaultConfig().lrs, link).client == link.client
  {
  }
}
