/**
 * The server's configuration (`src/config.ts`): the network address that the QR code
 * points phones at, chosen from the machine's interfaces, and the settings that take an
 * environment variable when it is set and non-empty and a literal default otherwise.
 *
 * The interface table and the environment are parameters: `os.networkInterfaces()` and
 * `dotenv` are not part of this model.
 */
module NetConfig {
  import opened Wrappers
  import opened JsValues

  /** One address of an interface. */
  datatype NetInfo = NetInfo(address: string, family: string, internal: bool)

  /** The interface table in `Object.keys` order; `None` is an undefined entry. */
  type Interfaces = seq<(string, Option<seq<NetInfo>>)>

  const FallbackIP: string := "192.168.1.21"

  /** An external IPv4 address: IPv6 and loopback addresses are skipped. */
  predicate Qualifies(n: NetInfo) {
    n.family == "IPv4" && !n.internal
  }

  /** The address of the first qualifying entry of one interface. */
  function FirstIn(infos: seq<NetInfo>): Option<string> {
    if infos == [] then None
    else if Qualifies(infos[0]) then Some(infos[0].address)
    else FirstIn(infos[1..])
  }

  /** The address of the first qualifying entry, interface by interface. */
  function FirstExternal(nets: Interfaces): Option<string> {
    if nets == [] then None
    else
      var here := if nets[0].1.Some? then FirstIn(nets[0].1.value) else None;
      if here.Some? then here else FirstExternal(nets[1..])
  }

  /** `getNetworkIP()`: the first external IPv4 address, or the fallback. */
  function NetworkIP(nets: Interfaces): string {
    match FirstExternal(nets)
    case Some(address) => address
    case None => FallbackIP
  }

  /** Entry `j` of interface `i` exists and qualifies. */
  predicate QualifiesAt(nets: Interfaces, i: int, j: int) {
    0 <= i < |nets| && nets[i].1.Some? && 0 <= j < |nets[i].1.value| && Qualifies(nets[i].1.value[j])
  }

  /** Entry (i', j') comes before entry (i, j): interface order first, then list order. */
  predicate Before(i': int, j': int, i: int, j: int) {
    i' < i || (i' == i && j' < j)
  }

  /** The first qualifying entry of one interface. */
  lemma {:induction false} FirstInIsFirst(infos: seq<NetInfo>)
    ensures FirstIn(infos).None? <==> forall j :: 0 <= j < |infos| ==> !Qualifies(infos[j])
    ensures FirstIn(infos).Some? ==>
      exists j :: 0 <= j < |infos| && Qualifies(infos[j]) && infos[j].address == FirstIn(infos).value
        && forall j' :: 0 <= j' < j ==> !Qualifies(infos[j'])
  {
    if infos != [] && !Qualifies(infos[0]) {
      FirstInIsFirst(infos[1..]);
      if FirstIn(infos).Some? {
        var j :| 0 <= j < |infos[1..]| && Qualifies(infos[1..][j]) && infos[1..][j].address == FirstIn(infos).value
          && forall j' :: 0 <= j' < j ==> !Qualifies(infos[1..][j']);
        assert forall j' :: 0 <= j' < j + 1 ==> !Qualifies(infos[j']) by {
          forall j' | 0 <= j' < j + 1 ensures !Qualifies(infos[j']) {
            if j' > 0 {
              assert infos[j'] == infos[1..][j' - 1];
            }
          }
        }
        assert infos[j + 1] == infos[1..][j];
      } else {
        forall j | 0 <= j < |infos| ensures !Qualifies(infos[j]) {
          if j > 0 {
            assert infos[j] == infos[1..][j - 1];
          }
        }
      }
    } else if infos != [] {
      assert Qualifies(infos[0]);
    }
  }

  /** Dropping the first interface shifts every entry's interface index by one. */
  lemma QualifiesAtTail(nets: Interfaces, i: int, j: int)
    requires nets != [] && 0 <= i
    ensures QualifiesAt(nets[1..], i, j) <==> QualifiesAt(nets, i + 1, j)
  {
    if i < |nets| - 1 {
      assert nets[1..][i] == nets[i + 1];
    }
  }

  /**
   * `getNetworkIP` finds nothing exactly when no entry of any defined interface is an
   * external IPv4 address (undefined interfaces are skipped).
   */
  lemma {:induction false} NoExternalIffNoneQualifies(nets: Interfaces)
    ensures FirstExternal(nets).None? <==> forall i, j :: !QualifiesAt(nets, i, j)
  {
    if nets != [] {
      NoExternalIffNoneQualifies(nets[1..]);
      if nets[0].1.Some? {
        FirstInIsFirst(nets[0].1.value);
      }
      if FirstExternal(nets).None? {
        forall i, j ensures !QualifiesAt(nets, i, j) {
          if i > 0 {
            QualifiesAtTail(nets, i - 1, j);
          }
        }
      } else if nets[0].1.Some? && FirstIn(nets[0].1.value).Some? {
        var j :| 0 <= j < |nets[0].1.value| && Qualifies(nets[0].1.value[j]);
        assert QualifiesAt(nets, 0, j);
      } else {
        var i, j :| QualifiesAt(nets[1..], i, j);
        QualifiesAtTail(nets, i, j);
      }
    }
  }

  /**
   * When `getNetworkIP` finds an address, it is that of a qualifying entry and no
   * qualifying entry comes before it, in interface order and then list order.
   */
  lemma {:induction false} ExternalIsFirst(nets: Interfaces)
    requires FirstExternal(nets).Some?
    ensures exists i, j :: (QualifiesAt(nets, i, j) && nets[i].1.value[j].address == FirstExternal(nets).value
      && forall i', j' :: Before(i', j', i, j) ==> !QualifiesAt(nets, i', j'))
  {
    var address := FirstExternal(nets).value;
    var first := nets[0].1;
    if first.Some? && FirstIn(first.value).Some? {
      FirstInIsFirst(first.value);
      var j :| 0 <= j < |first.value| && Qualifies(first.value[j]) && first.value[j].address == address
        && forall j' :: 0 <= j' < j ==> !Qualifies(first.value[j']);
      assert QualifiesAt(nets, 0, j);
      assert forall i', j' :: Before(i', j', 0, j) ==> !QualifiesAt(nets, i', j');
    } else {
      ExternalIsFirst(nets[1..]);
      var i, j :| QualifiesAt(nets[1..], i, j) && nets[1..][i].1.value[j].address == address
        && forall i', j' :: Before(i', j', i, j) ==> !QualifiesAt(nets[1..], i', j');
      QualifiesAtTail(nets, i, j);
      forall i', j' | Before(i', j', i + 1, j) ensures !QualifiesAt(nets, i', j') {
        if i' == 0 {
          if first.Some? {
            FirstInIsFirst(first.value);
          }
        } else if i' > 0 {
          QualifiesAtTail(nets, i' - 1, j');
        }
      }
      assert nets[i + 1] == nets[1..][i];
    }
  }

  /** The fallback is used exactly when no entry qualifies; otherwise the first external address is. */
  lemma NetworkIPChoice(nets: Interfaces)
    ensures (forall i, j :: !QualifiesAt(nets, i, j)) ==> NetworkIP(nets) == FallbackIP
    ensures (exists i, j :: QualifiesAt(nets, i, j)) ==>
      exists i, j :: (QualifiesAt(nets, i, j) && nets[i].1.value[j].address == NetworkIP(nets)
        && forall i', j' :: Before(i', j', i, j) ==> !QualifiesAt(nets, i', j'))
  {
    NoExternalIffNoneQualifies(nets);
    if FirstExternal(nets).Some? {
      ExternalIsFirst(nets);
    }
  }

  /** `getNetworkIP`: nested loops over the interfaces and their addresses, returning the first match. */
  method GetNetworkIP(nets: Interfaces) returns (ip: string)
    ensures ip == NetworkIP(nets)
  {
    var i := 0;
    while i < |nets|
      invariant 0 <= i <= |nets|
      invariant FirstExternal(nets) == FirstExternal(nets[i..])
    {
      assert nets[i..][0] == nets[i] && nets[i..][1..] == nets[i + 1..];
      var netInfo := nets[i].1;
      if netInfo.None? {
        i := i + 1;
        continue;
      }
      var infos := netInfo.value;
      var j := 0;
      while j < |infos|
        invariant 0 <= j <= |infos|
        invariant FirstIn(infos) == FirstIn(infos[j..])
      {
        assert infos[j..][0] == infos[j] && infos[j..][1..] == infos[j + 1..];
        var net := infos[j];
        if net.family == "IPv4" && !net.internal {
          return net.address;
        }
        j := j + 1;
      }
      assert infos[j..] == [];
      i := i + 1;
    }
    assert nets[i..] == [];
    return FallbackIP;
  }

  // ---------------------------------------------------------------------------
  // The configuration object

  /** The environment variables the configuration reads; `None` is an unset variable. */
  datatype Env = Env(
    port: Option<string>,
    pythonServiceUrl: Option<string>,
    networkIP: Option<string>,
    frontendUrl: Option<string>,
    nodeEnv: Option<string>)

  /** The configuration values other modules read. `port` is `None` when it parses to NaN. */
  datatype Config = Config(
    port: Option<int>,
    host: string,
    pythonServiceUrl: string,
    pythonServiceHost: string,
    pythonServicePort: nat,
    networkIP: string,
    frontendUrl: string,
    isDevelopment: bool,
    nodeEnv: string)

  const DefaultPort: string := "8000"
  const DefaultPythonServiceUrl: string := "http://127.0.0.1:5001"
  const DefaultFrontendUrl: string := "http://localhost:3000"
  const DefaultNodeEnv: string := "development"

  /** The `config` object, for the given environment and interface table. */
  function BuildConfig(env: Env, nets: Interfaces): (c: Config)
    ensures c.host == "0.0.0.0" && c.pythonServiceHost == "127.0.0.1" && c.pythonServicePort == 5001
    ensures c.pythonServiceUrl != "" && c.frontendUrl != "" && c.nodeEnv != ""
    ensures c.isDevelopment <==> env.nodeEnv != Some("production")
    ensures Truthy(env.pythonServiceUrl) ==> c.pythonServiceUrl == env.pythonServiceUrl.value
    ensures !Truthy(env.pythonServiceUrl) ==> c.pythonServiceUrl == DefaultPythonServiceUrl
    ensures Truthy(env.networkIP) ==> c.networkIP == env.networkIP.value
    ensures !Truthy(env.networkIP) ==> c.networkIP == NetworkIP(nets)
    ensures Truthy(env.frontendUrl) ==> c.frontendUrl == env.frontendUrl.value
    ensures !Truthy(env.frontendUrl) ==> c.frontendUrl == DefaultFrontendUrl
    ensures Truthy(env.nodeEnv) ==> c.nodeEnv == env.nodeEnv.value
    ensures !Truthy(env.nodeEnv) ==> c.nodeEnv == DefaultNodeEnv
    ensures Truthy(env.port) ==> c.port == ParseInt(env.port.value)
    ensures !Truthy(env.port) ==> c.port == ParseInt(DefaultPort)
  {
    Config(
      ParseInt(Or(env.port, DefaultPort)),
      "0.0.0.0",
      Or(env.pythonServiceUrl, DefaultPythonServiceUrl),
      "127.0.0.1",
      5001,
      Or(env.networkIP, NetworkIP(nets)),
      Or(env.frontendUrl, DefaultFrontendUrl),
      env.nodeEnv != Some("production"),
      Or(env.nodeEnv, DefaultNodeEnv))
  }

  /** An empty variable is treated as unset. */
  function Normalised(v: Option<string>): Option<string> {
    if v == Some("") then None else v
  }

  /**
   * Setting a variable to the empty string gives the same port, URLs, address and
   * environment name as leaving it unset (only `isDevelopment` compares with `!==`).
   */
  lemma EmptyMeansUnset(env: Env, nets: Interfaces)
    ensures var c, d := BuildConfig(env, nets),
      BuildConfig(Env(Normalised(env.port), Normalised(env.pythonServiceUrl), Normalised(env.networkIP),
                      Normalised(env.frontendUrl), Normalised(env.nodeEnv)), nets);
      c.port == d.port && c.pythonServiceUrl == d.pythonServiceUrl && c.networkIP == d.networkIP
      && c.frontendUrl == d.frontendUrl && c.nodeEnv == d.nodeEnv && c.isDevelopment == d.isDevelopment
  {
  }

  /** The default port is 8000. */
  lemma DefaultPortIs8000()
    ensures ParseInt(DefaultPort) == Some(8000)
  {
    assert NatToDecimal(8000) == "8000" by {
      assert NatToDecimal(8) == "8";
      assert NatToDecimal(80) == "80";
      assert NatToDecimal(800) == "800";
    }
    assert NumberToString(Some(8000)) + "" == DefaultPort;
    ParseIntReadsNumberToString(8000, "");
  }

  /** With nothing set, every setting takes its literal default. */
  lemma Defaults(nets: Interfaces)
    ensures var c := BuildConfig(Env(None, None, None, None, None), nets);
      && c.port == Some(8000)
      && c.pythonServiceUrl == DefaultPythonServiceUrl
      && c.networkIP == NetworkIP(nets)
      && c.frontendUrl == DefaultFrontendUrl
      && c.isDevelopment
      && c.nodeEnv == DefaultNodeEnv
  {
    DefaultPortIs8000();
  }

  /** A `PORT` written as an integer, possibly followed by text that is not a digit, is read back as that integer. */
  lemma PortFromEnv(env: Env, nets: Interfaces, n: int, rest: string)
    requires env.port == Some(NumberToString(Some(n)) + rest)
    requires rest == [] || !IsDigit(rest[0])
    ensures BuildConfig(env, nets).port == Some(n)
  {
    ParseIntReadsNumberToString(n, rest);
    assert Truthy(env.port);
  }
}
