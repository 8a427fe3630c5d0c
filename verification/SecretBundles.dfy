/**
 pkg/clients/secretbundles: every item of the bundle is fetched and formatted before the one
 Kubernetes secret is written.
 */
module SecretBundles {
  import opened Wrappers

  type Data = map<string, string>

  datatype Item = Item(kind: Option<string>, vault: string, name: string, reverse: bool)

  /** What Key Vault holds by (vault, name), and the library codecs; absence and None are errors. */
  datatype KeyVault = KeyVault(
    secrets: map<(string, string), string>,
    certificates: map<(string, string), string>,
    pkcs8: string -> Option<string>,
    rsa: string -> Option<string>,
    x509: (string, bool) -> Option<string>,
    sha: string -> Option<string>)

  function Format(v: KeyVault, kind: string, secret: string, reverse: bool): Option<string> {
    if kind == "pkcs8" then (v.pkcs8)(secret)
    else if kind == "rsa" then (v.rsa)(secret)
    else if kind == "x509" then (v.x509)(secret, reverse)
    else if kind == "pfx" then Some(secret)
    else None
  }

  /** One item, fetched and formatted. */
  function Resolve(v: KeyVault, item: Item): Option<string> {
    var id := (item.vault, item.name);
    if item.kind == Some("sha") then
      if id in v.certificates then (v.sha)(v.certificates[id]) else None
    else if id !in v.secrets then None
    else if item.kind.None? then Some(v.secrets[id])
    else Format(v, item.kind.value, v.secrets[id], item.reverse)
  }

  /** Which client and which codec each kind of item goes through; any other kind is an error. */
  lemma ResolveByKind(v: KeyVault, item: Item)
    ensures var id := (item.vault, item.name);
            if item.kind == Some("sha") then
              Resolve(v, item) == if id in v.certificates then (v.sha)(v.certificates[id]) else None
            else if id !in v.secrets then Resolve(v, item) == None
            else
              var secret := v.secrets[id];
              (item.kind == None || item.kind == Some("pfx") ==> Resolve(v, item) == Some(secret)) &&
              (item.kind == Some("pkcs8") ==> Resolve(v, item) == (v.pkcs8)(secret)) &&
              (item.kind == Some("rsa") ==> Resolve(v, item) == (v.rsa)(secret)) &&
              (item.kind == Some("x509") ==> Resolve(v, item) == (v.x509)(secret, item.reverse)) &&
              (item.kind !in [None, Some("pfx"), Some("pkcs8"), Some("rsa"), Some("x509")] ==> Resolve(v, item) == None)
  {
  }

  ghost predicate Resolvable(v: KeyVault, items: map<string, Item>) {
    forall n :: n in items ==> Resolve(v, items[n]).Some?
  }

  ghost function Resolved(v: KeyVault, items: map<string, Item>): Data
    requires Resolvable(v, items)
  {
    map n | n in items :: Resolve(v, items[n]).value
  }

  /** The loop over the items, in whatever order the map yields them; None stands for the first error met. */
  method Collect(v: KeyVault, items: map<string, Item>) returns (secrets: Option<Data>)
    ensures secrets.Some? <==> Resolvable(v, items)
    ensures secrets.Some? ==> secrets.value == Resolved(v, items)
  {
    var collected: Data := map[];
    var left := items.Keys;
    while left != {}
      invariant left <= items.Keys && collected.Keys == items.Keys - left
      invariant forall n :: n in collected ==> Resolve(v, items[n]) == Some(collected[n])
      decreases |left|
    {
      var name :| name in left;
      var item := items[name];
      var value: Option<string>;
      var id := (item.vault, item.name);
      if item.kind.None? {
        value := if id in v.secrets then Some(v.secrets[id]) else None;
      } else {
        match item.kind.value
        case "sha" => value := if id in v.certificates then (v.sha)(v.certificates[id]) else None;
        case kind => value := if id in v.secrets then Format(v, kind, v.secrets[id], item.reverse) else None;
      }
      if value.None? {
        return None;
      }
      collected := collected[name := value.value];
      left := left - {name};
    }
    return Some(collected);
  }

  /** The mutate closure: every collected secret into the data, again in any order. */
  method Overlay(before: Data, secrets: Data) returns (data: Data)
    ensures data == before + secrets
  {
    data := before;
    var left := secrets.Keys;
    while left != {}
      invariant left <= secrets.Keys && data.Keys == before.Keys + (secrets.Keys - left)
      invariant forall n :: n in data ==> data[n] == if n in secrets && n !in left then secrets[n] else before[n]
      decreases |left|
    {
      var name :| name in left;
      data := data[name := secrets[name]];
      left := left - {name};
    }
  }

  datatype Bundle = Bundle(metaName: string, specName: string, items: map<string, Item>)

  /** What befalls the API calls of one CreateOrUpdate or Delete. */
  datatype Fault = NoFault | GetFails | WriteRefused

  function Before(secrets: map<string, Data>, name: string): Data {
    if name in secrets then secrets[name] else map[]
  }

  /** The secrets of one namespace and the status of the bundle. */
  class Namespace {
    var secrets: map<string, Data>
    var succeeded: bool

    constructor ()
      ensures secrets == map[] && !succeeded
    {
      secrets, succeeded := map[], false;
    }

    /**
     All or nothing, whatever the order of the items: the named secret is either left as it was
     or overlaid with every item of the bundle. The status reads Succeeded as soon as
     the overlay was computed, even if the write was then refused.
     */
    method Ensure(v: KeyVault, b: Bundle, fault: Fault) returns (err: bool)
      modifies this
      ensures !err <==> Resolvable(v, b.items) && fault.NoFault?
      ensures err ==> secrets == old(secrets)
      ensures !err ==> secrets == old(secrets)[b.metaName := Before(old(secrets), b.metaName) + Resolved(v, b.items)]
      ensures !err ==>
                b.metaName in secrets &&
                (forall n :: n in b.items ==>
                   n in secrets[b.metaName] && Resolve(v, b.items[n]) == Some(secrets[b.metaName][n])) &&
                (forall k :: k !in b.items ==>
                   (k in secrets[b.metaName] <==> b.metaName in old(secrets) && k in old(secrets)[b.metaName])) &&
                (forall k :: k !in b.items && b.metaName in old(secrets) && k in old(secrets)[b.metaName] ==>
                   secrets[b.metaName][k] == old(secrets)[b.metaName][k])
      ensures succeeded <==> old(succeeded) || (Resolvable(v, b.items) && !fault.GetFails?)
    {
      var collected := Collect(v, b.items);
      if collected.None? {
        return true;
      }
      if fault.GetFails? {
        return true;
      }
      var data := Before(secrets, b.metaName);
      data := Overlay(data, collected.value);
      succeeded := true;
      if fault.WriteRefused? {
        return true;
      }
      secrets := secrets[b.metaName := data];
      return false;
    }

    /** Deletes by the name in the spec, although Ensure writes by the name of the object. */
    method Delete(b: Bundle, fault: Fault) returns (err: bool)
      modifies this`secrets
      ensures err <==> !fault.NoFault?
      ensures secrets == if err then old(secrets) else old(secrets) - {b.specName}
    {
      if !fault.NoFault? {
        return true;
      }
      secrets := secrets - {b.specName};
      return false;
    }
  }

  /** After a successful Ensure and a successful Delete the secret is gone iff the two names are equal. */
  method EnsureThenDelete(v: KeyVault, b: Bundle, ns: Namespace) returns (gone: bool)
    requires Resolvable(v, b.items)
    modifies ns
    ensures gone <==> b.metaName == b.specName
    ensures gone <==> b.metaName !in ns.secrets
  {
    var err := ns.Ensure(v, b, NoFault);
    err := ns.Delete(b, NoFault);
    gone := b.metaName !in ns.secrets;
  }
}
