/** The application model of aconfig/config.go: the typed document, the
    dynamic key-value bag and the nil-safe port lookups. Go pointers that may
    be nil are Options; a Go map that may be nil is an Option of a map. */
module AppConfig {
  import opened Wrappers
  import opened GoTypes

  type PortName = string

  /** A dynamically typed document value as the YAML/JSON decoder produces it. */
  datatype Value =
    | Null
    | Str(s: string)
    | Number(n: int)
    | Boolean(b: bool)
    | List(items: seq<Value>)
    | Object(fields: map<string, Value>)

  /** A KV bag, which (like a Go map) may be nil. */
  datatype KV = Nil | Bag(entries: map<string, Value>) {

    /** KV.Get: the stored value, or nil when the bag is nil or lacks the key. */
    function Get(key: string): (v: Value)
      ensures Bag? && key in entries ==> v == entries[key]
      ensures Nil? || key !in entries ==> v == Null
    {
      if Bag? && key in entries then entries[key] else Null
    }

    /** KV.GetString: the lenient string getter. The coercion (spf13/cast's
        ToString) is not visible here and is passed in as toString. */
    function GetString(key: string, toString: Value -> string): (r: string)
      ensures Bag? && key in entries ==> r == toString(entries[key])
      ensures Nil? || key !in entries ==> r == toString(Null)
    {
      toString(Get(key))
    }
  }

  datatype Location = Location(address: string, port: int64)

  datatype PrimaryPort = PrimaryPort(interfaceName: string, location: Option<Location>)

  datatype MatchedPrimaryPort = MatchedPrimaryPort(location: Option<Location>, applicationName: string)

  datatype SecondaryPort = SecondaryPort(
    interfaceName: string,
    options: KV,
    matchedPrimaryPort: Option<MatchedPrimaryPort>)

  datatype ApplicationSpec = ApplicationSpec(
    primaryPorts: Option<map<PortName, PrimaryPort>>,
    secondaryPorts: Option<map<PortName, SecondaryPort>>,
    customConfig: KV)

  datatype Application = Application(
    kind: string,
    apiVersion: string,
    name: string,
    namespace: string,
    spec: ApplicationSpec)

  /** GetSecondaryPort: nil when the secondary-port map is nil or lacks the
      name, otherwise (a copy of) the stored entry. */
  function GetSecondaryPort(app: Application, name: PortName): (r: Option<SecondaryPort>)
    ensures r.None? <==> app.spec.secondaryPorts.None? || name !in app.spec.secondaryPorts.value
    ensures r.Some? ==> r.value == app.spec.secondaryPorts.value[name]
  {
    match app.spec.secondaryPorts
    case None => None
    case Some(ports) => if name in ports then Some(ports[name]) else None
  }

  /** GetMatchedPrimaryPort: nil exactly when the secondary port is absent or
      carries no match; otherwise the port's match. */
  function GetMatchedPrimaryPort(app: Application, name: PortName): (r: Option<MatchedPrimaryPort>)
    ensures r.None? <==>
      GetSecondaryPort(app, name).None? || GetSecondaryPort(app, name).value.matchedPrimaryPort.None?
    ensures r.Some? ==> r == GetSecondaryPort(app, name).value.matchedPrimaryPort
  {
    var sp := GetSecondaryPort(app, name);
    if sp.None? then None else sp.value.matchedPrimaryPort
  }

  /** GetMatchedPrimaryPortLocation: a location is only ever found through an
      existing secondary port whose match carries that location. */
  function GetMatchedPrimaryPortLocation(app: Application, name: PortName): (r: Option<Location>)
    ensures r.Some? ==>
      && GetSecondaryPort(app, name).Some?
      && GetSecondaryPort(app, name).value.matchedPrimaryPort.Some?
      && GetSecondaryPort(app, name).value.matchedPrimaryPort.value.location == r
    ensures r.None? <==>
      || GetMatchedPrimaryPort(app, name).None?
      || GetMatchedPrimaryPort(app, name).value.location.None?
  {
    var p := GetMatchedPrimaryPort(app, name);
    if p.None? then None else p.value.location
  }
}
