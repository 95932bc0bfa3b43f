/** Which values of `schema_version` the validator (tests/config_corpus.py) lets through,
    shown on a whole document it accepts. */
module SchemaVersion {
  import opened Common
  import opened Json
  import opened ConfigValidator
  import Sweep = CredentialSweep
  import Path = PathGrammar
  import Url = UrlAuthority

  // --- reading literal objects --------------------------------------------------------

  /** The `i`-th key does not occur before. */
  predicate FirstAt(node: Node, i: nat)
    requires i < |node|
  {
    forall j :: 0 <= j < i ==> node[j].key != node[i].key
  }

  lemma {:induction false} GetAt(node: Node, i: nat)
    requires i < |node| && FirstAt(node, i)
    ensures Get(node, node[i].key) == Some(node[i].value)
  {
    if i > 0 {
      assert node[0].key != node[i].key;
      assert forall j :: 0 <= j < i - 1 ==> node[1..][j].key == node[j + 1].key;
      GetAt(node[1..], i - 1);
    }
  }

  lemma {:induction false} GetMissing(node: Node, key: string)
    requires forall j :: 0 <= j < |node| ==> node[j].key != key
    ensures Get(node, key) == None
  {
    if node != [] {
      GetMissing(node[1..], key);
    }
  }

  lemma {:induction false} KeysAllowed(node: Node, allowed: set<string>, at: Pointer)
    ensures Keys(node, allowed, at).Ok? <==> forall i :: 0 <= i < |node| ==> node[i].key in allowed
  {
    if node != [] {
      KeysAllowed(node[1..], allowed, at);
      assert forall i :: 0 < i < |node| ==> node[i] == node[1..][i - 1];
    }
  }

  // --- the root ----------------------------------------------------------------------------

  /** Exactly which documents get past the root: `1`, but also `1.0` and `true`, pass for
      the version. */
  lemma RootAcceptedIff(document: Json)
    ensures CheckRoot(document).Ok? <==>
            && document.Object? && Sweep.Clean(document)
            && (forall i :: 0 <= i < |document.fields| ==> document.fields[i].key in ROOT_KEYS)
            && Get(document.fields, "schema_version") in {Some(Number(1)), Some(Fraction(1.0)), Some(Bool(true))}
  {
    if document.Object? {
      Sweep.SweepFindsFirst(document);
      KeysAllowed(document.fields, ROOT_KEYS, []);
    }
  }

  // --- any accepted document, with another version -------------------------------------------

  function Replaced(node: Node, k: nat, v: Json): Node
    requires k < |node|
  {
    node[k := node[k].(value := v)]
  }

  lemma {:induction false} GetReplaced(node: Node, k: nat, v: Json, key: string)
    requires k < |node| && FirstAt(node, k)
    ensures Get(Replaced(node, k, v), key) == if key == node[k].key then Some(v) else Get(node, key)
  {
    var other := Replaced(node, k, v);
    if k > 0 {
      assert node[0].key != node[k].key && other[0] == node[0];
      assert forall j :: 0 <= j < k - 1 ==> node[1..][j].key == node[j + 1].key;
      GetReplaced(node[1..], k - 1, v, key);
      assert other[1..] == Replaced(node[1..], k - 1, v);
    } else {
      assert other[1..] == node[1..];
    }
  }

  lemma OffenceStays(node: Node, k: nat, v: Json, q: Sweep.Place)
    requires k < |node| && Sweep.Kids(v) == 0 && Sweep.Offends(Object(Replaced(node, k, v)), q)
    ensures Sweep.Offends(Object(node), if q[0] == k then [k] else q)
  {
    var other := Object(Replaced(node, k, v));
    if q[0] == k {
      Sweep.OffenceBelow(other, q);
      assert Sweep.FlaggedAt(other, k) ==> Sweep.FlaggedAt(Object(node), k);
    } else {
      assert Sweep.Kid(other, q[0]) == Sweep.Kid(Object(node), q[0]);
    }
  }

  lemma StaysClean(node: Node, k: nat, v: Json)
    requires k < |node| && Sweep.Clean(Object(node)) && Sweep.Kids(v) == 0
    ensures Sweep.Clean(Object(Replaced(node, k, v)))
  {
    forall q: Sweep.Place
      ensures !Sweep.Offends(Object(Replaced(node, k, v)), q)
    {
      if Sweep.Offends(Object(Replaced(node, k, v)), q) {
        OffenceStays(node, k, v, q);
      }
    }
  }

  lemma ListenerDepends(a: Node, b: Node)
    requires Get(a, "listener") == Get(b, "listener")
    ensures CheckListener(a) == CheckListener(b)
  {
  }

  lemma ControlDepends(a: Node, b: Node)
    requires Get(a, "control") == Get(b, "control")
    ensures CheckControl(a) == CheckControl(b)
  {
  }

  lemma StorageDepends(a: Node, b: Node)
    requires Get(a, "storage") == Get(b, "storage")
    ensures CheckStorage(a) == CheckStorage(b)
  {
  }

  lemma LoggingDepends(a: Node, b: Node)
    requires Get(a, "logging") == Get(b, "logging")
    ensures CheckLogging(a) == CheckLogging(b)
  {
  }

  lemma LimitsDepend(a: Node, b: Node)
    requires Get(a, "limits") == Get(b, "limits")
    ensures CheckLimits(a) == CheckLimits(b)
  {
  }

  lemma SettingsDepend(a: Node, b: Node)
    requires Get(a, "listener") == Get(b, "listener") && Get(a, "control") == Get(b, "control")
    requires Get(a, "storage") == Get(b, "storage") && Get(a, "logging") == Get(b, "logging")
    requires Get(a, "limits") == Get(b, "limits")
    ensures CheckSettings(a) == CheckSettings(b)
  {
    ListenerDepends(a, b);
    ControlDepends(a, b);
    StorageDepends(a, b);
    LoggingDepends(a, b);
    LimitsDepend(a, b);
  }

  lemma TablesDepend(a: Node, b: Node, parse: Url.AddressParser)
    requires Get(a, "providers") == Get(b, "providers") && Get(a, "routes") == Get(b, "routes")
    requires Get(a, "mcp_servers") == Get(b, "mcp_servers")
    ensures CheckTables(a, parse) == CheckTables(b, parse)
  {
    assert Array(a, "providers", 0, 256, []) == Array(b, "providers", 0, 256, []);
    assert Array(a, "routes", 0, 256, []) == Array(b, "routes", 0, 256, []);
    assert Array(a, "mcp_servers", 0, 256, []) == Array(b, "mcp_servers", 0, 256, []);
  }

  lemma NotTheVersion()
    ensures "schema_version" !in {"listener", "control", "storage", "logging", "limits", "providers", "routes", "mcp_servers"}
  {
    assert |"schema_version"| == 14 && |"listener"| == 8 && |"control"| == 7 && |"storage"| == 7 && |"logging"| == 7;
    assert |"limits"| == 6 && |"providers"| == 9 && |"routes"| == 6 && |"mcp_servers"| == 11;
  }

  /** In every accepted document, whatever else it holds, replacing the version keeps it
      accepted if and only if the new one is `1`, `1.0` or `true`. */
  lemma VersionReplacedIff(root: Node, k: nat, v: Json, parse: Url.AddressParser)
    requires Validated(Object(root), parse).Ok? && k < |root| && FirstAt(root, k) && root[k].key == "schema_version"
    ensures Validated(Object(Replaced(root, k, v)), parse).Ok? <==> v in {Number(1), Fraction(1.0), Bool(true)}
  {
    var other := Replaced(root, k, v);
    forall key
      ensures Get(other, key) == if key == "schema_version" then Some(v) else Get(root, key)
    {
      GetReplaced(root, k, v, key);
    }
    RootReplacedIff(root, k, v);
    NotTheVersion();
    SettingsDepend(root, other);
    TablesDepend(root, other, parse);
  }

  lemma RootReplacedIff(root: Node, k: nat, v: Json)
    requires CheckRoot(Object(root)).Ok? && k < |root| && FirstAt(root, k) && root[k].key == "schema_version"
    ensures CheckRoot(Object(Replaced(root, k, v))).Ok? <==> v in {Number(1), Fraction(1.0), Bool(true)}
  {
    var other := Replaced(root, k, v);
    RootAcceptedIff(Object(root));
    RootAcceptedIff(Object(other));
    GetReplaced(root, k, v, "schema_version");
    forall i | 0 <= i < |other|
      ensures other[i].key in ROOT_KEYS
    {
      assert other[i].key == root[i].key;
    }
    if v in {Number(1), Fraction(1.0), Bool(true)} {
      StaysClean(root, k, v);
    }
  }
}
