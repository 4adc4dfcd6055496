/** The regular expressions that guard aliases, SSH user names and secret references. */
module Names {

  predicate LowerAlnum(c: char) { 'a' <= c <= 'z' || '0' <= c <= '9' }

  predicate AliasChar(c: char) { LowerAlnum(c) || c == '-' }

  predicate UsernameChar(c: char) { LowerAlnum(c) || c == '.' || c == '_' || c == '-' }

  predicate ReferenceChar(c: char) { LowerAlnum(c) || c == '/' || c == '_' || c == '-' }

  /** ^[a-z0-9][a-z0-9-]{0,62}$ */
  predicate ValidAlias(s: string)
  {
    1 <= |s| <= 63 && LowerAlnum(s[0]) && forall i :: 0 <= i < |s| ==> AliasChar(s[i])
  }

  /** ^[a-z0-9][a-z0-9._-]{0,63}$ */
  predicate ValidLocalUsername(s: string)
  {
    1 <= |s| <= 64 && LowerAlnum(s[0]) && forall i :: 0 <= i < |s| ==> UsernameChar(s[i])
  }

  /** ^[a-z0-9][a-z0-9/_-]{0,127}$ */
  predicate ValidReference(s: string)
  {
    1 <= |s| <= 128 && LowerAlnum(s[0]) && forall i :: 0 <= i < |s| ==> ReferenceChar(s[i])
  }

  function HttpReference(alias: string): string { "routes/" + alias }

  function SshReference(alias: string): string { "ssh/" + alias }

  const PROXY_REFERENCE := "egress/default"

  const HOST_IDENTITY_REFERENCE := "ssh/host-identity"

  const HOST_IDENTITY_ALIAS := "host-identity"

  /** The three families of references never meet, and within a family the alias is recoverable. */
  lemma ReferencesApart(a: string, b: string)
    ensures HttpReference(a) != SshReference(b)
    ensures HttpReference(a) != PROXY_REFERENCE && SshReference(a) != PROXY_REFERENCE
    ensures HttpReference(a) != HOST_IDENTITY_REFERENCE
    ensures HttpReference(a) == HttpReference(b) <==> a == b
    ensures SshReference(a) == SshReference(b) <==> a == b
    ensures SshReference(a) == HOST_IDENTITY_REFERENCE <==> a == HOST_IDENTITY_ALIAS
  {
    assert HttpReference(a)[0] == 'r' && SshReference(b)[0] == 's' && SshReference(a)[0] == 's';
    assert PROXY_REFERENCE[0] == 'e' && HOST_IDENTITY_REFERENCE[0] == 's';
    assert HttpReference(a)[7..] == a && HttpReference(b)[7..] == b;
    assert SshReference(a)[4..] == a && SshReference(b)[4..] == b;
    assert HOST_IDENTITY_REFERENCE == SshReference(HOST_IDENTITY_ALIAS);
    assert SshReference(HOST_IDENTITY_ALIAS)[4..] == HOST_IDENTITY_ALIAS;
  }
}
