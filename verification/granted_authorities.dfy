/** The converter from a token's `scope` claim to granted authorities: every
    scope except the exact string "openid" becomes "ROLE_" followed by the
    scope upper-cased with each '.' turned into '_', collected into a set.
    Upper-casing is ASCII-only. */
module GrantedAuthorities {
  import opened Wrappers
  import opened Accounts

  /** The scope that never yields an authority. */
  const OpenId: string := "openid"

  /** The prefix every authority carries. */
  const RolePrefix: string := "ROLE_"

  /** ASCII upper-casing of one character. */
  function UpperChar(c: char): (u: char)
    ensures 'a' <= c <= 'z' ==> u as int == c as int - 32
    ensures !('a' <= c <= 'z') ==> u == c
  {
    if 'a' <= c <= 'z' then (c as int - 32) as char else c
  }

  /** `toUpperCase`, restricted to ASCII letters. */
  function ToUpper(s: string): (r: string)
    ensures |r| == |s|
    ensures forall i :: 0 <= i < |s| ==> r[i] == UpperChar(s[i])
  {
    if |s| == 0 then [] else [UpperChar(s[0])] + ToUpper(s[1..])
  }

  /** `replaceAll("\\.", "_")`: every '.' becomes '_'. */
  function ReplaceDots(s: string): (r: string)
    ensures |r| == |s|
    ensures forall i :: 0 <= i < |s| ==> r[i] == (if s[i] == '.' then '_' else s[i])
    ensures '.' !in r
  {
    if |s| == 0 then [] else [if s[0] == '.' then '_' else s[0]] + ReplaceDots(s[1..])
  }

  /** The authority one kept scope maps to: "ROLE_" followed by the scope
      character for character, each upper-cased with '.' turned into '_'; it
      never contains '.'. */
  function Authority(scope: string): (a: string)
    ensures |a| == |RolePrefix| + |scope|
    ensures a[..|RolePrefix|] == RolePrefix
    ensures forall i :: 0 <= i < |scope| ==>
              a[|RolePrefix| + i] == (if scope[i] == '.' then '_' else UpperChar(scope[i]))
    ensures '.' !in a
  {
    var body := ReplaceDots(ToUpper(scope));
    assert forall i :: 0 <= i < |body| ==> (RolePrefix + body)[|RolePrefix| + i] == body[i];
    assert '.' !in RolePrefix;
    RolePrefix + body
  }

  /** For a role name without '.' or '_', a scope maps to that role exactly
      when it upper-cases to the name: a '.' in the scope would leave a '_'
      the name lacks. */
  lemma AuthorityIsRoleIff(sc: string, name: string)
    requires '.' !in name && '_' !in name
    ensures Authority(sc) == RolePrefix + name <==> ToUpper(sc) == name
  {
    var u := ToUpper(sc);
    var d := ReplaceDots(u);
    assert Authority(sc) == RolePrefix + d;
    if u == name {
      assert forall i :: 0 <= i < |d| ==> d[i] == name[i];
      assert d == name;
    }
    if Authority(sc) == RolePrefix + name {
      assert d == (RolePrefix + d)[|RolePrefix|..] == (RolePrefix + name)[|RolePrefix|..] == name;
      forall i | 0 <= i < |u|
        ensures u[i] == name[i]
      {
        assert name[i] in name;
      }
    }
  }

  /** The authorities granted for a list of scopes. */
  function AuthoritiesOf(scopes: seq<string>): (r: set<string>)
    ensures forall a :: a in r <==> exists sc :: sc in scopes && sc != OpenId && Authority(sc) == a
  {
    if |scopes| == 0 then {}
    else
      var rest := AuthoritiesOf(scopes[1..]);
      assert forall sc :: sc in scopes <==> sc == scopes[0] || sc in scopes[1..];
      if scopes[0] == OpenId then rest else {Authority(scopes[0])} + rest
  }

  /** `extractAuthorities`: the authorities for the token's `scope` claim; a
      token without that claim makes the conversion fail. */
  function ExtractAuthorities(scopeClaim: Option<seq<string>>): (r: Result<set<string>, Error>)
    ensures r.Failure? <==> scopeClaim.None?
    ensures r.Failure? ==> r.error == MissingScopeClaim
    ensures r.Success? ==> forall a :: a in r.value ==> |a| >= |RolePrefix| && a[..|RolePrefix|] == RolePrefix && '.' !in a
    ensures r.Success? ==> forall sc :: sc in scopeClaim.value && sc != OpenId ==> Authority(sc) in r.value
    ensures r.Success? ==> forall a :: a in r.value ==> exists sc :: sc in scopeClaim.value && sc != OpenId && Authority(sc) == a
  {
    match scopeClaim
    case None => Failure(MissingScopeClaim)
    case Some(scopes) =>
      Success(AuthoritiesOf(scopes))
  }

  /** The result is a set: it has at most one authority per distinct scope
      other than "openid", so repeated scopes collapse. */
  lemma AtMostOnePerDistinctScope(scopes: seq<string>)
    ensures |AuthoritiesOf(scopes)| <= |set sc | sc in scopes && sc != OpenId|
  {
    var kept := set sc | sc in scopes && sc != OpenId;
    forall a | a in AuthoritiesOf(scopes)
      ensures exists sc :: sc in kept && Authority(sc) == a
    {
      var sc :| sc in scopes && sc != OpenId && Authority(sc) == a;
      assert sc in kept;
    }
    ImageNoLarger(Authority, kept, AuthoritiesOf(scopes));
  }

  /** A set whose every element is the image of some element of `xs` under
      `f` is no larger than `xs`. */
  lemma {:induction false} ImageNoLarger<T, U>(f: T -> U, xs: set<T>, ys: set<U>)
    requires forall y :: y in ys ==> exists x :: x in xs && f(x) == y
    ensures |ys| <= |xs|
    decreases xs
  {
    if xs != {} {
      var x0 :| x0 in xs;
      var rest, ysRest := xs - {x0}, ys - {f(x0)};
      forall y | y in ysRest
        ensures exists x :: x in rest && f(x) == y
      {
        var x :| x in xs && f(x) == y;
        assert x in rest;
      }
      ImageNoLarger(f, rest, ysRest);
    }
  }

  /** The result depends only on which scopes occur, not on their order or
      on repetitions. */
  lemma OnlyTheSetOfScopesMatters(s1: seq<string>, s2: seq<string>)
    requires forall sc :: sc in s1 <==> sc in s2
    ensures AuthoritiesOf(s1) == AuthoritiesOf(s2)
  {
  }

  /** A repeated scope adds nothing. */
  lemma DuplicatesCollapse(scopes: seq<string>, sc: string)
    requires sc in scopes
    ensures AuthoritiesOf(scopes + [sc]) == AuthoritiesOf(scopes)
  {
  }

  /** A single scope yields its own authority unless it is exactly "openid". */
  lemma SingleScope(sc: string)
    ensures AuthoritiesOf([sc]) == if sc == OpenId then {} else {Authority(sc)}
  {
  }

  /** The exact scope "openid" yields nothing. */
  lemma OpenIdIsDropped()
    ensures AuthoritiesOf(["openid"]) == {}
  {
  }

  /** The filter is case-sensitive: "OPENID" is kept and mapped. */
  lemma FilterIsCaseSensitive()
    ensures AuthoritiesOf(["OPENID"]) == {"ROLE_OPENID"}
  {
    SingleScope("OPENID");
    UpperOpenId();
    NoDotsInOpenId();
    PrefixOpenId();
  }

  /** The filter is exact: "openid.x" is kept and mapped. */
  lemma FilterIsExact()
    ensures AuthoritiesOf(["openid.x"]) == {"ROLE_OPENID_X"}
  {
    SingleScope("openid.x");
    UpperOpenIdX();
    DotsInOpenIdX();
    PrefixOpenIdX();
  }

  /** The mapping is not injective: a dotted, an underscored and a
      mixed-case scope all collapse to one authority. */
  lemma MappingIsNotInjective()
    ensures AuthoritiesOf(["a.b", "a_b", "A.b"]) == {"ROLE_A_B"}
  {
    UpperAB();
    DotsAB();
    PrefixAB();
    assert Authority("a.b") == Authority("a_b") == Authority("A.b") == "ROLE_A_B";
  }

  // Single evaluation steps for the sample scopes above, one literal at a
  // time so that each stays a small computation.

  lemma UpperOpenId() ensures ToUpper("OPENID") == "OPENID" {}
  lemma NoDotsInOpenId() ensures ReplaceDots("OPENID") == "OPENID" {}
  lemma PrefixOpenId() ensures RolePrefix + "OPENID" == "ROLE_OPENID" {}

  lemma UpperOpenIdX() ensures ToUpper("openid.x") == "OPENID.X" {}
  lemma DotsInOpenIdX() ensures ReplaceDots("OPENID.X") == "OPENID_X" {}
  lemma PrefixOpenIdX() ensures RolePrefix + "OPENID_X" == "ROLE_OPENID_X" {}

  lemma UpperAB() ensures ToUpper("a.b") == "A.B" && ToUpper("a_b") == "A_B" && ToUpper("A.b") == "A.B" {}
  lemma DotsAB() ensures ReplaceDots("A.B") == "A_B" && ReplaceDots("A_B") == "A_B" {}
  lemma PrefixAB() ensures RolePrefix + "A_B" == "ROLE_A_B" {}
}
