/** Users and the domain part of their e-mail address (GetUserDomain). */
module Users {
  import opened Base

  /** A signed-in user, known by its e-mail address. */
  datatype User = User(email: string)

  /** The text after the last occurrence of `c` in `s`, as `s.split(c)[-1]`. */
  function AfterLast(s: string, c: char): (r: string)
    ensures c !in r
    ensures |r| <= |s| && r == s[|s| - |r|..]
    ensures c in s ==> |r| < |s| && s[|s| - |r| - 1] == c
    ensures c !in s ==> r == s
    decreases |s|
  {
    if |s| == 0 then ""
    else if s[|s| - 1] == c then ""
    else
      var init := s[..|s| - 1];
      assert s == init + [s[|s| - 1]];
      AfterLast(init, c) + [s[|s| - 1]]
  }

  /**
   * The user's domain: the text after the last '@' of the e-mail address.
   * There is none for an anonymous user or an address without '@'.
   */
  function UserDomain(u: Option<User>): (r: Option<string>)
    ensures r.Some? <==> u.Some? && '@' in u.value.email
    ensures r.Some? ==>
      var e := u.value.email;
      '@' !in r.value && |r.value| < |e| && e == e[..|e| - |r.value| - 1] + "@" + r.value
  {
    if u.Some? && '@' in u.value.email then Some(AfterLast(u.value.email, '@')) else None
  }

  /** An address `local@domain` whose domain has no '@' belongs to `domain`. */
  lemma {:induction false} DomainOfAddress(local: string, domain: string)
    requires '@' !in domain
    ensures UserDomain(Some(User(local + "@" + domain))) == Some(domain)
  {
    var e := local + "@" + domain;
    assert e[|local|] == '@';
    var r := AfterLast(e, '@');
    assert r == e[|local| + 1..] == domain;
  }
}
