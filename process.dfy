/** The processing context and the helpers every section processor shares:
    the topology snapshot taken from the container runtime, the bridge
    interface of a network, the endpoint of a container in a network, the
    markers that tag rules outside DFW's own tables, and the `Option`/`Vec`
    processing combinators. */
module Process {
  import opened Wrappers
  import Text

  /** A container as the runtime lists it: its id and its names (each
      listed with a leading `/`). */
  datatype Container = Container(id: string, names: seq<string>)

  /** A network as the runtime lists it; `options` holds the driver
      options, absent when the runtime reports none. */
  datatype Network = Network(name: string, id: string, options: Option<map<string, string>>)

  /** The endpoint of a container inside one network. */
  datatype Endpoint = Endpoint(ipv4Address: string)

  /** What the processors read besides the configuration.
      `networks` lists the values of `networkMap` in the order the map
      iterates them; `endpoints` is what inspecting a network reports,
      keyed by network id and then by container id; a network id that is
      missing there is one whose inspection fails. */
  datatype Context = Context(
    containerMap: map<string, Container>,
    networkMap: map<string, Network>,
    networks: seq<Network>,
    endpoints: map<string, map<string, Endpoint>>,
    externalNetworkInterfaces: Option<seq<string>>,
    currentRuleset: Option<string>)

  // ---------------------------------------------------------------------
  // Container and network maps

  /** A map, or `None` when it is empty. */
  function NonEmpty<V>(m: map<string, V>): (r: Option<map<string, V>>)
    ensures r.None? <==> |m| == 0
    ensures r.Some? ==> r.value == m
  {
    if |m| == 0 then None else Some(m)
  }

  /** The key a container name is stored under: leading `/`s removed. */
  function NameKey(name: string): string {
    Text.TrimStartChar(name, '/')
  }

  /** Some name of `names` is stored under `k`. */
  predicate NamedIn(names: seq<string>, k: string) {
    exists j :: 0 <= j < |names| && NameKey(names[j]) == k
  }

  /** `m` after inserting `c` under each of `names`, in order. */
  function InsertNames(m: map<string, Container>, c: Container, names: seq<string>): map<string, Container>
  {
    if |names| == 0 then m
    else InsertNames(m, c, names[..|names| - 1])[NameKey(names[|names| - 1]) := c]
  }

  /** The map `get_container_map` fills: every container under each of its
      names, later insertions replacing earlier ones. */
  function ContainerMapOf(containers: seq<Container>): map<string, Container>
  {
    if |containers| == 0 then map[]
    else
      var last := containers[|containers| - 1];
      InsertNames(ContainerMapOf(containers[..|containers| - 1]), last, last.names)
  }

  /** `get_container_map`: never fails; `None` when no container has a name. */
  method GetContainerMap(containers: seq<Container>) returns (r: Result<Option<map<string, Container>>>)
    ensures r == Ok(NonEmpty(ContainerMapOf(containers)))
  {
    var containerMap: map<string, Container> := map[];
    for i := 0 to |containers|
      invariant containerMap == ContainerMapOf(containers[..i])
    {
      var container := containers[i];
      for j := 0 to |container.names|
        invariant containerMap == InsertNames(ContainerMapOf(containers[..i]), container, container.names[..j])
      {
        assert container.names[..j + 1][..j] == container.names[..j];
        containerMap := containerMap[NameKey(container.names[j]) := container];
      }
      assert container.names[..|container.names|] == container.names;
      assert containers[..i + 1][..i] == containers[..i];
    }
    assert containers[..|containers|] == containers;
    r := Ok(NonEmpty(containerMap));
  }

  /** Inserting names adds exactly those keys, each mapped to `c`. */
  lemma {:induction false} InsertNamesLookup(m: map<string, Container>, c: Container, names: seq<string>, k: string)
    ensures k in InsertNames(m, c, names) <==> k in m || NamedIn(names, k)
    ensures NamedIn(names, k) ==> InsertNames(m, c, names)[k] == c
    ensures !NamedIn(names, k) && k in m ==> InsertNames(m, c, names)[k] == m[k]
  {
    if |names| > 0 {
      var init := names[..|names| - 1];
      InsertNamesLookup(m, c, init, k);
      if NamedIn(names, k) && NameKey(names[|names| - 1]) != k {
        var j :| 0 <= j < |names| && NameKey(names[j]) == k;
        assert init[j] == names[j];
      }
      if NamedIn(init, k) {
        var j :| 0 <= j < |init| && NameKey(init[j]) == k;
        assert names[j] == init[j];
      }
    }
  }

  /** A key is in the container map exactly when some container has a name
      stored under it, and it then maps to the LAST such container. */
  lemma {:induction false} ContainerMapLookup(containers: seq<Container>, k: string)
    ensures k in ContainerMapOf(containers) <==> exists i :: 0 <= i < |containers| && NamedIn(containers[i].names, k)
    ensures k in ContainerMapOf(containers) ==>
      exists i :: 0 <= i < |containers| && NamedIn(containers[i].names, k)
        && ContainerMapOf(containers)[k] == containers[i]
        && forall i' :: i < i' < |containers| ==> !NamedIn(containers[i'].names, k)
  {
    if |containers| > 0 {
      var n := |containers| - 1;
      var init := containers[..n];
      var last := containers[n];
      ContainerMapLookup(init, k);
      InsertNamesLookup(ContainerMapOf(init), last, last.names, k);
      if exists i :: 0 <= i < n && NamedIn(init[i].names, k) {
        var i :| 0 <= i < n && NamedIn(init[i].names, k);
        assert containers[i] == init[i];
      }
      if exists i :: 0 <= i < |containers| && NamedIn(containers[i].names, k) {
        var i :| 0 <= i < |containers| && NamedIn(containers[i].names, k);
        if i < n {
          assert init[i] == containers[i];
        }
      }
      if k in ContainerMapOf(containers) {
        if NamedIn(last.names, k) {
          assert ContainerMapOf(containers)[k] == containers[n];
        } else {
          var i :| 0 <= i < n && NamedIn(init[i].names, k) && ContainerMapOf(init)[k] == init[i]
            && forall i' :: i < i' < n ==> !NamedIn(init[i'].names, k);
          assert containers[i] == init[i];
          forall i' | i < i' < |containers|
            ensures !NamedIn(containers[i'].names, k)
          {
            if i' < n {
              assert containers[i'] == init[i'];
            }
          }
        }
      }
    }
  }

  /** The container map is empty exactly when no container has a name. */
  lemma {:induction false} ContainerMapEmpty(containers: seq<Container>)
    ensures |ContainerMapOf(containers)| == 0 <==> forall i :: 0 <= i < |containers| ==> |containers[i].names| == 0
  {
    var m := ContainerMapOf(containers);
    if exists i :: 0 <= i < |containers| && |containers[i].names| > 0 {
      var i :| 0 <= i < |containers| && |containers[i].names| > 0;
      var k := NameKey(containers[i].names[0]);
      assert NamedIn(containers[i].names, k);
      ContainerMapLookup(containers, k);
      assert k in m;
    }
    if |m| > 0 {
      var k :| k in m;
      ContainerMapLookup(containers, k);
    }
  }

  /** The map `get_network_map` fills: every network under its name, later
      networks replacing earlier ones of the same name. */
  function NetworkMapOf(networks: seq<Network>): map<string, Network>
  {
    if |networks| == 0 then map[]
    else
      var last := networks[|networks| - 1];
      NetworkMapOf(networks[..|networks| - 1])[last.name := last]
  }

  /** `get_network_map`: never fails; `None` when there is no network. */
  method GetNetworkMap(networks: seq<Network>) returns (r: Result<Option<map<string, Network>>>)
    ensures r == Ok(NonEmpty(NetworkMapOf(networks)))
  {
    var networkMap: map<string, Network> := map[];
    for i := 0 to |networks|
      invariant networkMap == NetworkMapOf(networks[..i])
    {
      assert networks[..i + 1][..i] == networks[..i];
      networkMap := networkMap[networks[i].name := networks[i]];
    }
    assert networks[..|networks|] == networks;
    r := Ok(NonEmpty(networkMap));
  }

  /** Networks are keyed by name, the last network of a name wins, and the
      map is empty only for an empty list. */
  lemma {:induction false} NetworkMapLookup(networks: seq<Network>, k: string)
    ensures k in NetworkMapOf(networks) <==> exists i :: 0 <= i < |networks| && networks[i].name == k
    ensures k in NetworkMapOf(networks) ==>
      exists i :: 0 <= i < |networks| && NetworkMapOf(networks)[k] == networks[i]
        && networks[i].name == k && forall i' :: i < i' < |networks| ==> networks[i'].name != k
    ensures |NetworkMapOf(networks)| == 0 <==> |networks| == 0
  {
    NetworkMapKeys(networks, k);
    if k in NetworkMapOf(networks) {
      NetworkMapLastWins(networks, k);
    }
    if |networks| > 0 {
      assert networks[|networks| - 1].name in NetworkMapOf(networks);
    }
  }

  /** A name is a key of the network map exactly when some network has it. */
  lemma {:induction false} NetworkMapKeys(networks: seq<Network>, k: string)
    ensures k in NetworkMapOf(networks) <==> exists i :: 0 <= i < |networks| && networks[i].name == k
  {
    if |networks| > 0 {
      var n := |networks| - 1;
      var init := networks[..n];
      NetworkMapKeys(init, k);
      if exists i :: 0 <= i < n && init[i].name == k {
        var i :| 0 <= i < n && init[i].name == k;
        assert networks[i] == init[i];
      }
      if exists i :: 0 <= i < |networks| && networks[i].name == k {
        var i :| 0 <= i < |networks| && networks[i].name == k;
        if i < n {
          assert init[i] == networks[i];
        }
      }
    }
  }

  /** The network a name maps to is the last one of that name. */
  lemma {:induction false} NetworkMapLastWins(networks: seq<Network>, k: string)
    requires k in NetworkMapOf(networks)
    ensures exists i :: (0 <= i < |networks| && NetworkMapOf(networks)[k] == networks[i]
                         && networks[i].name == k && forall i' :: i < i' < |networks| ==> networks[i'].name != k)
  {
    var n := |networks| - 1;
    var init := networks[..n];
    if networks[n].name != k {
      NetworkMapLastWins(init, k);
      var i :| 0 <= i < n && NetworkMapOf(init)[k] == init[i]
        && init[i].name == k && forall i' :: i < i' < n ==> init[i'].name != k;
      assert networks[i] == init[i];
      forall i' | i < i' < |networks|
        ensures networks[i'].name != k
      {
        if i' < n {
          assert networks[i'] == init[i'];
        }
      }
    }
  }

  /** A context whose `networks` are the values of `networkMap`, each
      listed exactly once under its own name. */
  predicate ValidContext(ctx: Context) {
    (forall i :: 0 <= i < |ctx.networks| ==>
       ctx.networks[i].name in ctx.networkMap && ctx.networkMap[ctx.networks[i].name] == ctx.networks[i])
    && (forall i, j :: 0 <= i < j < |ctx.networks| ==> ctx.networks[i].name != ctx.networks[j].name)
    && (forall k :: k in ctx.networkMap ==> exists i :: 0 <= i < |ctx.networks| && ctx.networks[i].name == k)
  }

  /** In a well-formed context there is one listed network per Docker
      network, so whatever the processors do once per entry of
      `networks` they do once per network of the map. */
  lemma NetworksListMap(ctx: Context)
    requires ValidContext(ctx)
    ensures |ctx.networks| == |ctx.networkMap|
  {
    var names := NamesOf(ctx.networks);
    assert names == ctx.networkMap.Keys;
    DistinctNamesCount(ctx.networks);
  }

  function NamesOf(networks: seq<Network>): set<string> {
    set i | 0 <= i < |networks| :: networks[i].name
  }

  lemma {:induction false} DistinctNamesCount(networks: seq<Network>)
    requires forall i, j :: 0 <= i < j < |networks| ==> networks[i].name != networks[j].name
    ensures |NamesOf(networks)| == |networks|
  {
    if |networks| > 0 {
      var n := |networks| - 1;
      var init := networks[..n];
      DistinctNamesCount(init);
      assert NamesOf(networks) == NamesOf(init) + {networks[n].name};
      assert networks[n].name !in NamesOf(init);
    }
  }

  // ---------------------------------------------------------------------
  // Bridges, endpoints, markers and the primary interface

  /** `get_bridge_name`: the host interface of a bridge network is `br-`
      followed by the first twelve characters of the network id. */
  function GetBridgeName(networkId: string): (r: Result<string>)
    ensures r.Err? <==> |networkId| < 12
    ensures r.Err? ==> r.error == BridgeIdTooShort
    ensures r.Ok? ==> |r.value| == 15 && r.value[..3] == "br-" && r.value[3..] <= networkId
  {
    if |networkId| < 12 then Err(BridgeIdTooShort) else Ok("br-" + networkId[..12])
  }

  /** Two networks share a bridge interface exactly when their ids agree
      on the first twelve characters. */
  lemma BridgeNameSharedIff(a: string, b: string)
    requires |a| >= 12 && |b| >= 12
    ensures GetBridgeName(a) == GetBridgeName(b) <==> a[..12] == b[..12]
  {
    if GetBridgeName(a) == GetBridgeName(b) {
      assert a[..12] == GetBridgeName(a).value[3..];
      assert b[..12] == GetBridgeName(b).value[3..];
    }
  }

  /** `get_network_for_container`: the endpoint of a named container in a
      network. A container the map does not know yields `None` without
      inspecting anything; a network that cannot be inspected is an error;
      a known container that is not attached yields `None`. */
  function GetNetworkForContainer(ctx: Context, containerName: string, networkId: string): (r: Result<Option<Endpoint>>)
    ensures containerName !in ctx.containerMap ==> r == Ok(None)
    ensures r.Err? <==> containerName in ctx.containerMap && networkId !in ctx.endpoints
    ensures r.Ok? && r.value.Some? <==>
      containerName in ctx.containerMap && networkId in ctx.endpoints
        && ctx.containerMap[containerName].id in ctx.endpoints[networkId]
    ensures r.Ok? && r.value.Some? ==> r.value.value == ctx.endpoints[networkId][ctx.containerMap[containerName].id]
  {
    if containerName !in ctx.containerMap then Ok(None)
    else if networkId !in ctx.endpoints then Err(InspectFailed)
    else
      var containers := ctx.endpoints[networkId];
      var id := ctx.containerMap[containerName].id;
      if id in containers then Ok(Some(containers[id])) else Ok(None)
  }

  /** The address of an endpoint without its prefix length. */
  function Ipv4Of(e: Endpoint): (r: string)
    ensures r <= e.ipv4Address && '/' !in r
  {
    Text.BeforeSlash(e.ipv4Address)
  }

  const MarkerPrefix: string := "DFW-MARKER:"

  /** `generate_marker`: the fixed prefix, then the components joined by `;`. */
  function GenerateMarker(components: seq<string>): (m: string)
    ensures MarkerPrefix <= m
  {
    MarkerPrefix + Text.Join(components, ";")
  }

  /** A marker made of `;`-free components gives its components back, so
      distinct component lists give distinct markers. */
  lemma MarkerComponents(components: seq<string>)
    requires |components| > 0
    requires forall i :: 0 <= i < |components| ==> ';' !in components[i]
    ensures Text.Split(GenerateMarker(components)[|MarkerPrefix|..], ';') == components
  {
    assert GenerateMarker(components)[|MarkerPrefix|..] == Text.Join(components, [';']);
    Text.SplitJoin(components, ';');
  }

  /** `marker_in_current_ruleset`: false when no ruleset could be read,
      otherwise whether the marker occurs somewhere in it. */
  function MarkerInCurrentRuleset(currentRuleset: Option<string>, marker: string): (r: bool)
    ensures r <==> currentRuleset.Some? && exists i :: Text.OccursAt(currentRuleset.value, marker, i)
  {
    if currentRuleset.Some? then
      Text.ContainsIff(currentRuleset.value, marker);
      Text.Contains(currentRuleset.value, marker)
    else false
  }

  /** The DNAT target `address:port`. */
  function DnatTarget(address: string, port: nat): string {
    address + ":" + Text.NatToString(port)
  }

  /** The primary external interface: the first configured external
      interface, if there is one. */
  function PrimaryExternalInterface(external: Option<seq<string>>): (r: Option<string>)
    ensures r.Some? <==> external.Some? && |external.value| > 0
    ensures r.Some? ==> r.value == external.value[0] && r.value in external.value
  {
    if external.Some? && |external.value| > 0 then Some(external.value[0]) else None
  }

  function Primary(ctx: Context): Option<string> {
    PrimaryExternalInterface(ctx.externalNetworkInterfaces)
  }

  // ---------------------------------------------------------------------
  // The processing combinators

  /** What a processor contributes to the surrounding list. */
  function Contribution<S>(o: Option<seq<S>>): seq<S> {
    o.UnwrapOr([])
  }

  /** `impl Process for Option<T>`: an absent value yields `None`. */
  function ProcessOption<T, S>(x: Option<T>, f: T -> Result<Option<seq<S>>>): (r: Result<Option<seq<S>>>)
    ensures x.None? ==> r == Ok(None)
    ensures x.Some? ==> r == f(x.value)
  {
    match x
    case None => Ok(None)
    case Some(t) => f(t)
  }

  /** `impl Process for Vec<T>`, before wrapping in `Some`: the items'
      contributions in list order, or the first error. */
  function ProcessAll<T, S>(items: seq<T>, f: T -> Result<Option<seq<S>>>): Result<seq<S>>
  {
    if |items| == 0 then Ok([])
    else
      var init :- ProcessAll(items[..|items| - 1], f);
      var last :- f(items[|items| - 1]);
      Ok(init + Contribution(last))
  }

  /** `impl Process for Vec<T>`: processes the items in order, appends
      what each yields, stops at the first error, and otherwise always
      yields `Some`. */
  method ProcessVec<T, S>(items: seq<T>, f: T -> Result<Option<seq<S>>>) returns (r: Result<Option<seq<S>>>)
    ensures ProcessAll(items, f).Ok? ==> r == Ok(Some(ProcessAll(items, f).value))
    ensures ProcessAll(items, f).Err? ==> r == Err(ProcessAll(items, f).error)
  {
    var rules: seq<S> := [];
    for i := 0 to |items|
      invariant ProcessAll(items[..i], f) == Ok(rules)
    {
      assert items[..i + 1][..i] == items[..i];
      assert items[..i + 1][i] == items[i];
      var sub := f(items[i]);
      if sub.Err? {
        assert ProcessAll(items[..i + 1], f) == Err(sub.error);
        ProcessAllAppend(items[..i + 1], items[i + 1..], f);
        assert items[..i + 1] + items[i + 1..] == items;
        return Err(sub.error);
      }
      assert ProcessAll(items[..i + 1], f) == Ok(rules + Contribution(sub.value));
      if sub.value.Some? {
        rules := rules + sub.value.value;
      } else {
        assert rules + Contribution(sub.value) == rules;
      }
    }
    assert items[..|items|] == items;
    return Ok(Some(rules));
  }

  /** Processing a concatenation processes the two halves and appends. */
  lemma {:induction false} ProcessAllAppend<T, S>(a: seq<T>, b: seq<T>, f: T -> Result<Option<seq<S>>>)
    ensures ProcessAll(a + b, f) ==
      (if ProcessAll(a, f).Err? then ProcessAll(a, f)
       else if ProcessAll(b, f).Err? then ProcessAll(b, f)
       else Ok(ProcessAll(a, f).value + ProcessAll(b, f).value))
  {
    if |b| == 0 {
      assert a + b == a;
      if ProcessAll(a, f).Ok? {
        assert ProcessAll(a, f).value + [] == ProcessAll(a, f).value;
      }
    } else {
      var n := |b| - 1;
      assert (a + b)[..|a + b| - 1] == a + b[..n];
      assert (a + b)[|a + b| - 1] == b[n];
      ProcessAllAppend(a, b[..n], f);
      assert ProcessAll(b, f) == (
        var init :- ProcessAll(b[..n], f);
        var last :- f(b[n]);
        Ok(init + Contribution(last)));
      if ProcessAll(a, f).Ok? && ProcessAll(b, f).Ok? {
        assert ProcessAll(a, f).value + ProcessAll(b, f).value
          == ProcessAll(a, f).value + ProcessAll(b[..n], f).value + Contribution(f(b[n]).value);
      }
    }
  }

  /** One item contributes what it yields, `None` contributing nothing. */
  lemma ProcessAllSingle<T, S>(x: T, f: T -> Result<Option<seq<S>>>)
    ensures f(x).Err? ==> ProcessAll([x], f) == Err(f(x).error)
    ensures f(x).Ok? ==> ProcessAll([x], f) == Ok(Contribution(f(x).value))
  {
    assert [x][..0] == [];
    if f(x).Ok? {
      assert [] + Contribution(f(x).value) == Contribution(f(x).value);
    }
  }

  /** Processing fails exactly when some item fails, and then with the
      error of the first failing item. */
  lemma {:induction false} ProcessAllError<T, S>(items: seq<T>, f: T -> Result<Option<seq<S>>>)
    ensures ProcessAll(items, f).Err? <==> exists i :: 0 <= i < |items| && f(items[i]).Err?
    ensures ProcessAll(items, f).Err? ==>
      exists i :: 0 <= i < |items| && f(items[i]).Err? && ProcessAll(items, f).error == f(items[i]).error
        && forall j :: 0 <= j < i ==> f(items[j]).Ok?
  {
    if |items| > 0 {
      var n := |items| - 1;
      var init := items[..n];
      ProcessAllError(init, f);
      if exists i :: 0 <= i < n && f(init[i]).Err? {
        var i :| 0 <= i < n && f(init[i]).Err?;
        assert items[i] == init[i];
      }
      if exists i :: 0 <= i < |items| && f(items[i]).Err? {
        var i :| 0 <= i < |items| && f(items[i]).Err?;
        if i < n {
          assert init[i] == items[i];
        }
      }
      if ProcessAll(init, f).Err? {
        var i :| 0 <= i < n && f(init[i]).Err? && ProcessAll(init, f).error == f(init[i]).error
          && forall j :: 0 <= j < i ==> f(init[j]).Ok?;
        assert items[i] == init[i];
        forall j | 0 <= j < i
          ensures f(items[j]).Ok?
        {
          assert items[j] == init[j];
        }
      } else if f(items[n]).Err? {
        forall j | 0 <= j < n
          ensures f(items[j]).Ok?
        {
          assert items[j] == init[j];
        }
      }
    }
  }

  /** One more item extends the processed prefix by its contribution. */
  lemma ProcessAllStep<T, S>(items: seq<T>, i: int, f: T -> Result<Option<seq<S>>>)
    requires 0 <= i < |items|
    ensures ProcessAll(items[..i + 1], f) ==
      (if ProcessAll(items[..i], f).Err? then ProcessAll(items[..i], f)
       else if f(items[i]).Err? then Err(f(items[i]).error)
       else Ok(ProcessAll(items[..i], f).value + Contribution(f(items[i]).value)))
  {
    assert items[..i + 1][..i] == items[..i];
    assert items[..i + 1][i] == items[i];
  }

  /** When every item contributes exactly `k` elements, a successful run
      contributes `k` per item. */
  lemma {:induction false} ProcessAllCount<T, S>(items: seq<T>, f: T -> Result<Option<seq<S>>>, k: nat)
    requires forall x :: x in items && f(x).Ok? ==> f(x).value.Some? && |f(x).value.value| == k
    ensures ProcessAll(items, f).Ok? ==> |ProcessAll(items, f).value| == k * |items|
  {
    if |items| > 0 {
      var n := |items| - 1;
      assert forall x :: x in items[..n] ==> x in items;
      ProcessAllCount(items[..n], f, k);
      assert items[n] in items;
      assert k * |items| == k * n + k;
    }
  }

  /** When each item yields exactly one element, a run yields those
      elements in item order. */
  lemma {:induction false} ProcessAllEach<T, S>(items: seq<T>, f: T -> Result<Option<seq<S>>>, out: seq<S>)
    requires |out| == |items|
    requires forall k :: 0 <= k < |items| ==> f(items[k]) == Ok(Some([out[k]]))
    ensures ProcessAll(items, f) == Ok(out)
  {
    if |items| > 0 {
      var n := |items| - 1;
      assert forall k :: 0 <= k < n ==> items[..n][k] == items[k] && out[..n][k] == out[k];
      ProcessAllEach(items[..n], f, out[..n]);
      ProcessAllStep(items, n, f);
      assert items[..n + 1] == items;
      assert out[..n] + [out[n]] == out;
    }
  }

  /** The first item's contribution leads a successful run. */
  lemma ProcessAllFirst<T, S>(items: seq<T>, f: T -> Result<Option<seq<S>>>)
    requires |items| > 0 && ProcessAll(items, f).Ok?
    ensures f(items[0]).Ok? && Contribution(f(items[0]).value) <= ProcessAll(items, f).value
  {
    ProcessAllAppend([items[0]], items[1..], f);
    assert [items[0]] + items[1..] == items;
    ProcessAllSingle(items[0], f);
  }

  /** An item that yields `None` contributes nothing: processing the list
      is processing it without that item. */
  lemma ProcessAllSkip<T, S>(items: seq<T>, k: int, f: T -> Result<Option<seq<S>>>)
    requires 0 <= k < |items| && f(items[k]) == Ok(None)
    ensures ProcessAll(items, f) == ProcessAll(items[..k] + items[k + 1..], f)
  {
    var a, x, b := items[..k], items[k], items[k + 1..];
    assert items == a + ([x] + b);
    ProcessAllSkipHead(x, b, f);
    ProcessAllAppend(a, [x] + b, f);
    ProcessAllAppend(a, b, f);
  }

  lemma ProcessAllSkipHead<T, S>(x: T, b: seq<T>, f: T -> Result<Option<seq<S>>>)
    requires f(x) == Ok(None)
    ensures ProcessAll([x] + b, f) == ProcessAll(b, f)
  {
    ProcessAllSingle(x, f);
    ProcessAllAppend([x], b, f);
    if ProcessAll(b, f).Ok? {
      assert [] + ProcessAll(b, f).value == ProcessAll(b, f).value;
    }
  }

  /** A section's result as an item of the engine's final list. */
  function SectionOf<S>(): Result<Option<seq<S>>> -> Result<Option<seq<S>>> {
    section => section
  }

  /** The engine's final loop: the sections' outputs appended in order,
      or the first section's error. */
  function Flatten<S>(sections: seq<Result<Option<seq<S>>>>): Result<seq<S>> {
    ProcessAll(sections, SectionOf())
  }

  /** The engine's final loop, appending each section's output in turn. */
  method AppendSections<S>(sections: seq<Result<Option<seq<S>>>>) returns (r: Result<seq<S>>)
    ensures r == Flatten(sections)
  {
    var rules: seq<S> := [];
    for i := 0 to |sections|
      invariant ProcessAll(sections[..i], SectionOf()) == Ok(rules)
    {
      ProcessAllStep(sections, i, SectionOf());
      match sections[i] {
        case Err(e) =>
          ProcessAllPrefixError(sections, i + 1, SectionOf());
          return Err(e);
        case Ok(sub) =>
          if sub.Some? {
            rules := rules + sub.value;
          } else {
            assert rules + Contribution(sub) == rules;
          }
      }
    }
    assert sections[..|sections|] == sections;
    return Ok(rules);
  }

  /** The driver option naming the default bridge's host interface. */
  const BridgeNameOption: string := "com.docker.network.bridge.name"

  /** The external interface of a rule: its own, else the primary one. */
  function ExternalInterface(own: Option<string>, ctx: Context): (r: Option<string>)
    ensures own.Some? ==> r == own
    ensures own.None? ==> r == Primary(ctx)
  {
    own.OrElse(Primary(ctx))
  }

  /** A section's optional rule list, as the section appends it: nothing
      when the list is absent, else every rule's contribution. */
  function ProcessRules<T, S>(rules: Option<seq<T>>, f: T -> Result<Option<seq<S>>>): Result<seq<S>>
  {
    if rules.None? then Ok([]) else ProcessAll(rules.value, f)
  }

  /** Once a prefix fails, the whole list fails with the same error. */
  lemma ProcessAllPrefixError<T, S>(items: seq<T>, k: int, f: T -> Result<Option<seq<S>>>)
    requires 0 <= k <= |items| && ProcessAll(items[..k], f).Err?
    ensures ProcessAll(items, f) == ProcessAll(items[..k], f)
  {
    ProcessAllAppend(items[..k], items[k..], f);
    assert items[..k] + items[k..] == items;
  }

  // ---------------------------------------------------------------------
  // Looking up an optional container

  /** The outcome of looking up an optional container in a network: none
      was named, it is not attached, or its endpoint. */
  datatype Lookup = NotNamed | NotFound | Found(endpoint: Endpoint)

  function LookupContainer(ctx: Context, name: Option<string>, networkId: string): (r: Result<Lookup>)
    ensures name.None? ==> r == Ok(NotNamed)
    ensures name.Some? ==> r.Err? == GetNetworkForContainer(ctx, name.value, networkId).Err?
    ensures r.Ok? && r.value.Found? ==> name.Some? && GetNetworkForContainer(ctx, name.value, networkId) == Ok(Some(r.value.endpoint))
  {
    if name.None? then Ok(NotNamed)
    else
      var endpoint :- GetNetworkForContainer(ctx, name.value, networkId);
      if endpoint.None? then Ok(NotFound) else Ok(Found(endpoint.value))
  }
}
