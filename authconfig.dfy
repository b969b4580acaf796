/** The `authorized` callback of `auth.config.ts`, run by the middleware on
    every request: requests that already carry a session cart cookie pass;
    otherwise an anonymous request for a protected path is denied, and any
    other request passes with a freshly issued session cart cookie. */
module AuthConfig {
  import opened Common

  /** The protected path patterns, unanchored. */
  const ProtectedPatterns: seq<string> :=
    ["/shipping-address", "/payment-method", "/place-order", "/profile", "/user/", "/order/", "/admin"]

  /** `protectedPaths.some((path) => path.test(pathname))`. */
  predicate AnyPattern(path: string, patterns: seq<string>)
    decreases |patterns|
  {
    patterns != [] && (Contains(path, patterns[0]) || AnyPattern(path, patterns[1..]))
  }

  predicate IsProtected(path: string)
    ensures IsProtected(path) <==>
      exists i :: 0 <= i < |ProtectedPatterns| && Contains(path, ProtectedPatterns[i])
  {
    AnyPatternIff(path, ProtectedPatterns);
    AnyPattern(path, ProtectedPatterns)
  }

  /** `some` holds exactly when one of the patterns occurs in the path. */
  lemma {:induction false} AnyPatternIff(path: string, patterns: seq<string>)
    ensures AnyPattern(path, patterns) <==> exists i :: 0 <= i < |patterns| && Contains(path, patterns[i])
    decreases |patterns|
  {
    if patterns != [] {
      AnyPatternIff(path, patterns[1..]);
      if Contains(path, patterns[0]) {
        assert 0 < |patterns| && Contains(path, patterns[0]);
      } else {
        assert forall i :: 1 <= i < |patterns| ==> patterns[i] == patterns[1..][i - 1];
      }
    }
  }

  /** What the callback answers. */
  datatype Decision = Deny | Allow | AllowWithNewCookie(sessionCartId: string)

  /** `freshId` stands for `crypto.randomUUID()`. */
  function Authorized(hasCartCookie: bool, authenticated: bool, path: string, freshId: string): (d: Decision)
    ensures hasCartCookie ==> d == Allow
    ensures d == Deny <==> !hasCartCookie && !authenticated && IsProtected(path)
    ensures !hasCartCookie && d != Deny ==> d == AllowWithNewCookie(freshId)
    ensures authenticated ==> d != Deny
  {
    if hasCartCookie then Allow
    else if !authenticated && IsProtected(path) then Deny
    else AllowWithNewCookie(freshId)
  }

  /** Any path containing '/admin' anywhere is protected. */
  lemma AdminAnywhereIsProtected(path: string)
    requires Contains(path, "/admin")
    ensures IsProtected(path)
  {
    AnyPatternIff(path, ProtectedPatterns);
    assert ProtectedPatterns[6] == "/admin";
  }

  /** The patterns are substrings, not anchored prefixes: an API route with
      '/admin' inside it is protected too. */
  lemma PatternsAreUnanchored()
    ensures IsProtected("/api/admin-report")
  {
    ContainsAt("/api/admin-report", "/admin", 4);
    AdminAnywhereIsProtected("/api/admin-report");
  }

  /** '/user' alone is not protected: the pattern needs the slash after it. */
  lemma BareUserPathIsOpen()
    ensures !IsProtected("/user")
  {
    var path := "/user";
    forall i | 0 <= i < |ProtectedPatterns| ensures !Contains(path, ProtectedPatterns[i]) {
      assert |ProtectedPatterns[i]| >= 6;
      TooLongNotContained(path, ProtectedPatterns[i]);
    }
    AnyPatternIff(path, ProtectedPatterns);
  }
}
