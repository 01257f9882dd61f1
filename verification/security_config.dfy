/** The one access rule of the security configuration: every request needs
    the authority "ROLE_ACCOUNT", and authorities come from the token's
    scopes through the granted-authorities converter. */
module SecurityConfig {
  import opened Wrappers
  import opened GrantedAuthorities

  /** The authority every request must hold. */
  const RequiredAuthority: string := "ROLE_ACCOUNT"

  /** Whether a request whose token carries `scopeClaim` is let through. A
      token whose scopes cannot be converted is refused. */
  function HasAccess(scopeClaim: Option<seq<string>>): (granted: bool)
    ensures scopeClaim.None? ==> !granted
  {
    match ExtractAuthorities(scopeClaim)
    case Success(authorities) => RequiredAuthority in authorities
    case Failure(_) => false
  }

  /** A scope maps to "ROLE_ACCOUNT" exactly when it upper-cases to
      "ACCOUNT": a '.' in the scope would leave a '_', which "ACCOUNT" lacks. */
  lemma AccountAuthorityIff(sc: string)
    ensures Authority(sc) == RequiredAuthority <==> ToUpper(sc) == "ACCOUNT"
  {
    AccountIsPrefixed();
    AccountHasNoDot();
    AccountHasNoUnderscore();
    AuthorityIsRoleIff(sc, "ACCOUNT");
  }

  /** Access is granted exactly when some scope upper-cases to "ACCOUNT";
      "openid" never qualifies, being one character too short. */
  lemma AccessIff(scopes: seq<string>)
    ensures HasAccess(Some(scopes)) <==> exists sc :: sc in scopes && ToUpper(sc) == "ACCOUNT"
  {
    if HasAccess(Some(scopes)) {
      var sc :| sc in scopes && sc != OpenId && Authority(sc) == RequiredAuthority;
      AccountAuthorityIff(sc);
    }
    if exists sc :: sc in scopes && ToUpper(sc) == "ACCOUNT" {
      var sc :| sc in scopes && ToUpper(sc) == "ACCOUNT";
      AccountAuthorityIff(sc);
      assert |sc| == 7 != |OpenId|;
    }
  }

  /** The usual token: "openid" plus "account". */
  lemma AccountScopeGrantsAccess()
    ensures HasAccess(Some(["openid", "account"]))
  {
    UpperAccount();
    AccessIff(["openid", "account"]);
    assert "account" in ["openid", "account"];
  }

  /** A token with only "openid" is refused. */
  lemma OpenIdAloneIsRefused()
    ensures !HasAccess(Some(["openid"]))
  {
    AccessIff(["openid"]);
    assert forall sc :: sc in ["openid"] ==> |ToUpper(sc)| == 6;
  }

  /** A narrower scope such as "account.read" is refused. */
  lemma DottedAccountScopeIsRefused()
    ensures !HasAccess(Some(["account.read"]))
  {
    AccessIff(["account.read"]);
    assert forall sc :: sc in ["account.read"] ==> |ToUpper(sc)| == 12;
  }

  // Single evaluation steps on the literals above.

  lemma AccountIsPrefixed() ensures RequiredAuthority == RolePrefix + "ACCOUNT" {}
  lemma AccountHasNoDot() ensures '.' !in "ACCOUNT" {}
  lemma AccountHasNoUnderscore() ensures '_' !in "ACCOUNT" {}
  lemma UpperAccount() ensures ToUpper("account") == "ACCOUNT" {}
}
