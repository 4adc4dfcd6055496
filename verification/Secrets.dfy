/** The secret store: one namespace for four kinds of entries, and the proxy in use. */
module Secrets {
  import opened Text
  import opened Names

  datatype WebUrl = WebUrl(scheme: string, host: string, path: string, hasUser: bool, query: string, fragment: string)

  datatype Secret = HttpSecret(base: WebUrl, authorization: string, provider: string)
                  | SshSecret(address: string, username: string, password: string, hostKey: string)
                  | ProxySecret(url: WebUrl)
                  | IdentitySecret(key: string)

  /** One namespace for the four kinds; resolving an entry as another kind is a decoding error. */
  type Store = map<string, Secret>

  /** A store call that fails changes nothing; an invalid reference always fails. */
  function Put(store: Store, reference: string, secret: Secret, works: bool): Store
  {
    if ValidReference(reference) && works then store[reference := secret] else store
  }

  function Drop(store: Store, reference: string, works: bool): Store
  {
    if ValidReference(reference) && works then store - {reference} else store
  }

  predicate ValidProxy(url: WebUrl)
  {
    url.host != "" && url.query == "" && url.fragment == "" && (url.path == "" || url.path == "/")
    && Lower(url.scheme) in {"http", "https", "socks5", "socks5h"}
  }

  datatype Kind = Http | Ssh | Proxy | Identity

  function KindOf(secret: Secret): Kind
  {
    match secret
    case HttpSecret(_, _, _) => Http
    case SshSecret(_, _, _, _) => Ssh
    case ProxySecret(_) => Proxy
    case IdentitySecret(_) => Identity
  }

  datatype Resolved = Found(secret: Secret) | Missing | Broken

  /** Reading an entry as one of the kinds; `works` is whether the backend answers. */
  function Resolution(store: Store, reference: string, kind: Kind, works: bool): Resolved
  {
    if !ValidReference(reference) || !works then Broken
    else if reference !in store then Missing
    else if KindOf(store[reference]) != kind then Broken
    else Found(store[reference])
  }

  datatype Deletion = Deleted | Absent | Failed

  class SecretStore {
    var entries: Store

    constructor (entries: Store)
      ensures this.entries == entries
    {
      this.entries := entries;
    }

    method Store(reference: string, secret: Secret, works: bool) returns (ok: bool)
      modifies this
      ensures ok <==> ValidReference(reference) && works
      ensures entries == Put(old(entries), reference, secret, works)
    {
      if !ValidReference(reference) || !works { return false; }
      entries := entries[reference := secret];
      ok := true;
    }

    method Resolve(reference: string, kind: Kind, works: bool) returns (r: Resolved)
      ensures r == Resolution(entries, reference, kind, works)
    {
      if !ValidReference(reference) || !works { return Broken; }
      if reference !in entries { return Missing; }
      if KindOf(entries[reference]) != kind { return Broken; }
      r := Found(entries[reference]);
    }

    method DeleteTarget(reference: string, works: bool) returns (r: Deletion)
      modifies this
      ensures r.Failed? <==> !(ValidReference(reference) && works)
      ensures r.Absent? ==> reference !in old(entries)
      ensures entries == Drop(old(entries), reference, works)
    {
      if !ValidReference(reference) || !works { return Failed; }
      if reference !in entries { return Absent; }
      entries := entries - {reference};
      r := Deleted;
    }
  }

  /** The egress manager, as far as its proxy goes. */
  class Manager {
    var proxy: Option<WebUrl>

    constructor ()
      ensures proxy == None
    {
      proxy := None;
    }

    method Configure(url: WebUrl) returns (ok: bool)
      modifies this
      ensures ok <==> ValidProxy(url)
      ensures proxy == if ok then Some(url) else old(proxy)
    {
      if !ValidProxy(url) { return false; }
      proxy := Some(url);
      ok := true;
    }

    method Clear()
      modifies this
      ensures proxy == None
    {
      proxy := None;
    }
  }
}
