/**
 * Certificate kinds: the three API names "client", "server" and "metrics"
 * and the small integers the daemon stores for them.
 */
module Certificate {
  import opened Wrappers

  const TypeClient: int := 1
  const TypeServer: int := 2
  const TypeMetrics: int := 3

  /** The API name of each stored kind, the inverse of `FromAPIType`. */
  function APIName(t: int): Option<string>
  {
    if t == TypeClient then Some("client")
    else if t == TypeServer then Some("server")
    else if t == TypeMetrics then Some("metrics")
    else None
  }

  /**
   * Converts an API name to its stored kind; any other string yields -1 and
   * an error.
   */
  function FromAPIType(apiType: string): (r: (int, Outcome))
    ensures r.1.Pass? <==> apiType == "client" || apiType == "server" || apiType == "metrics"
    ensures r.1.Pass? ==> APIName(r.0) == Some(apiType)
    ensures r.1.Fail? ==> r.0 == -1 && r.1.msg == "Invalid certificate type"
  {
    match apiType
      case "client" => (TypeClient, Pass)
      case "server" => (TypeServer, Pass)
      case "metrics" => (TypeMetrics, Pass)
      case _ => (-1, Fail("Invalid certificate type"))
  }

  /** Every stored kind converts back from its API name. */
  lemma FromAPITypeRoundTrip(t: int)
    requires APIName(t).Some?
    ensures FromAPIType(APIName(t).value) == (t, Pass)
  {
  }

  /** Distinct accepted names give distinct kinds, none of them the -1 of the error case. */
  lemma FromAPITypeInjective(a: string, b: string)
    requires FromAPIType(a).1.Pass? && FromAPIType(b).1.Pass? && a != b
    ensures FromAPIType(a).0 != FromAPIType(b).0
    ensures FromAPIType(a).0 != -1
  {
    var ta, tb := FromAPIType(a).0, FromAPIType(b).0;
    assert APIName(ta) == Some(a) && APIName(tb) == Some(b);
  }
}
