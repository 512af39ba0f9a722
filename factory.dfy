/** `Checker.factory`: a closed choice between the two checkers. */
module Factory {
  import opened Results

  /** The two checker variants. */
  datatype CheckerKind = EtherDelta | Binance

  /** The type string that selects a variant. */
  function Id(kind: CheckerKind): (s: string)
  {
    match kind
    case EtherDelta => "ed"
    case Binance => "binance"
  }

  /** `Checker.factory(type, config)`: any other string fails the assertion. */
  function Create(name: string): (r: Result<CheckerKind>)
    ensures r == Ok(EtherDelta) <==> name == "ed"
    ensures r == Ok(Binance) <==> name == "binance"
    ensures r.Err? <==> name != "ed" && name != "binance"
    ensures r.Err? ==> r.error == BadChecker(name)
  {
    if name == "ed" then Ok(EtherDelta)
    else if name == "binance" then Ok(Binance)
    else Err(BadChecker(name))
  }

  /** `Create` and `Id` are inverse: every variant is reachable from exactly its own string. */
  lemma CreateInvertsId(name: string, kind: CheckerKind)
    ensures Create(Id(kind)) == Ok(kind)
    ensures Create(name) == Ok(kind) <==> name == Id(kind)
  {
  }
}
