// internal/model/user.go: the user record, its validation rules and role checks.
// The earlier revision (model/user.go) has the same fields.
module UserModel {
  import opened Wrappers

  datatype User = User(
    id: string, role: string, username: string, password: string, email: string,
    createdAt: int, updatedAt: int)

  datatype Invalid = UsernameInvalid | PasswordInvalid | EmailInvalid

  predicate Letter(c: char) { 'a' <= c <= 'z' || 'A' <= c <= 'Z' }
  predicate Digit(c: char) { '0' <= c <= '9' }

  /** `[a-zA-Z0-9_]` */
  predicate UsernameChar(c: char) { Letter(c) || Digit(c) || c == '_' }
  /** `[a-zA-Z0-9.!@#%&*]` */
  predicate PasswordChar(c: char) { Letter(c) || Digit(c) || c in ".!@#%&*" }
  /** `[a-zA-Z0-9._%+-]` */
  predicate LocalChar(c: char) { Letter(c) || Digit(c) || c in "._%+-" }
  /** `[a-zA-Z0-9.-]` */
  predicate DomainChar(c: char) { Letter(c) || Digit(c) || c == '.' || c == '-' }

  /** `^[a-zA-Z0-9_]{4,20}$` */
  predicate IsValidUsername(s: string)
  {
    4 <= |s| <= 20 && forall k :: 0 <= k < |s| ==> UsernameChar(s[k])
  }

  /** `^[a-zA-Z0-9.!@#%&*]{4,20}$` */
  predicate IsValidPassword(s: string)
  {
    4 <= |s| <= 20 && forall k :: 0 <= k < |s| ==> PasswordChar(s[k])
  }

  /**
   * `s` splits as local '@' domain '.' tld at positions `at` and `dot`, with a non-empty
   * local part, a non-empty domain, a top-level domain of at least two letters, and every
   * character in its part's class: one way for `^[a-zA-Z0-9._%+-]+@[a-zA-Z0-9.-]+\.[a-zA-Z]{2,}$`
   * to match.
   */
  predicate EmailSplit(s: string, at: int, dot: int)
  {
    && 0 < at && at + 1 < dot && dot + 2 < |s|
    && s[at] == '@' && s[dot] == '.'
    && (forall k :: 0 <= k < at ==> LocalChar(s[k]))
    && (forall k :: at < k < dot ==> DomainChar(s[k]))
    && (forall k :: dot < k < |s| ==> Letter(s[k]))
  }

  /** The regular expression's meaning: some split matches. */
  ghost predicate MatchesEmailPattern(s: string)
  {
    exists at, dot :: EmailSplit(s, at, dot)
  }

  /** The position of the first `c` in `s`, or |s| when there is none. */
  function FirstIndex(s: string, c: char): (i: nat)
    ensures i <= |s|
    ensures i < |s| ==> s[i] == c
    ensures forall k :: 0 <= k < i ==> s[k] != c
  {
    if |s| == 0 then 0
    else if s[0] == c then 0
    else 1 + FirstIndex(s[1..], c)
  }

  /** The position of the last `c` in `s`, or -1 when there is none. */
  function LastIndex(s: string, c: char): (i: int)
    ensures -1 <= i < |s|
    ensures i >= 0 ==> s[i] == c
    ensures forall k :: i < k < |s| ==> s[k] != c
  {
    if |s| == 0 then -1
    else if s[|s| - 1] == c then |s| - 1
    else LastIndex(s[..|s| - 1], c)
  }

  /** The matcher: the '@' must be the first '@' and the '.' the last '.'. */
  predicate IsValidEmail(s: string)
  {
    EmailSplit(s, FirstIndex(s, '@'), LastIndex(s, '.'))
  }

  /** The matcher accepts exactly the strings the regular expression matches. */
  lemma EmailMatcherIsPattern(s: string)
    ensures IsValidEmail(s) <==> MatchesEmailPattern(s)
  {
    if MatchesEmailPattern(s) {
      var at, dot :| EmailSplit(s, at, dot);
      assert !LocalChar('@');
      var first := FirstIndex(s, '@');
      var last := LastIndex(s, '.');
      assert first == at && last == dot;
    }
  }

  /** In a split, the only '@' is the separator. */
  lemma SplitHasOneAt(s: string, at: int, dot: int, k: int)
    requires EmailSplit(s, at, dot) && 0 <= k < |s| && s[k] == '@'
    ensures k == at
  {
    assert !LocalChar('@') && !DomainChar('@') && !Letter('@');
  }

  /** A valid email holds exactly one '@'. */
  lemma ValidEmailHasOneAt(s: string, k: int)
    requires IsValidEmail(s) && 0 <= k < |s| && s[k] == '@'
    ensures k == FirstIndex(s, '@')
  {
    SplitHasOneAt(s, FirstIndex(s, '@'), LastIndex(s, '.'), k);
  }

  /** Checks username, password and email in that order; an empty field is not checked. */
  function Verify(u: User): (r: Outcome<Invalid>)
    ensures r.Pass? <==>
      (u.username == "" || IsValidUsername(u.username))
      && (u.password == "" || IsValidPassword(u.password))
      && (u.email == "" || MatchesEmailPattern(u.email))
    ensures r == Fail(UsernameInvalid) <==> u.username != "" && !IsValidUsername(u.username)
    ensures r == Fail(PasswordInvalid) <==>
      (u.username == "" || IsValidUsername(u.username)) && u.password != "" && !IsValidPassword(u.password)
  {
    EmailMatcherIsPattern(u.email);
    if u.username != "" && !IsValidUsername(u.username) then Fail(UsernameInvalid)
    else if u.password != "" && !IsValidPassword(u.password) then Fail(PasswordInvalid)
    else if u.email != "" && !IsValidEmail(u.email) then Fail(EmailInvalid)
    else Pass
  }

  predicate IsAdmin(u: User) { u.role == "ADMIN" }
  predicate IsSeller(u: User) { u.role == "SELLER" }

  /**
   * Verify reads only the username, password and email: the id, role and timestamps the
   * services set after verifying never change its verdict, while the role checks read
   * only the role.
   */
  lemma VerifyReadsOnlyCredentials(u: User, v: User)
    requires u.username == v.username && u.password == v.password && u.email == v.email
    ensures Verify(u) == Verify(v)
    ensures u.role == v.role ==> (IsAdmin(u) <==> IsAdmin(v)) && (IsSeller(u) <==> IsSeller(v))
  {
  }
}
