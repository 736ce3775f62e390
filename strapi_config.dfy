/**
 * Whether the CMS address is configured. The value itself comes from the
 * environment, so the model takes only its presence, as `strapiSet`.
 */
module StrapiConfig {

  const SERVER_UNSET := "Server address is unset"

  /** The first `serverState` of a form or the lecture page. */
  function InitialServerState(strapiSet: bool): (r: string)
    ensures r == "" <==> strapiSet
  {
    if !strapiSet then SERVER_UNSET else ""
  }
}
