/** Shared vocabulary: optional values, results, identities and the few
    JavaScript string operations the storefront relies on. */
module Common {

  datatype Option<T> = None | Some(value: T)

  /** An operation that either yields a value or fails with a message. */
  datatype Result<T> = Ok(value: T) | Err(message: string)

  /** Database row identifiers (uuid strings in the store; opaque here). */
  type Id = nat

  /** What `auth()` yields for a signed-in visitor; `auth` as a whole is an
      `Option<Session>`, `None` when nobody is signed in. */
  datatype Session = Session(userId: Option<Id>)

  /** The id of the signed-in user, `session?.user?.id`. */
  function SessionUserId(auth: Option<Session>): (r: Option<Id>)
    ensures r.Some? <==> auth.Some? && auth.value.userId.Some?
    ensures r.Some? ==> r.value == auth.value.userId.value
  {
    if auth.Some? then auth.value.userId else None
  }

  /** The index of the first element satisfying `p`: what Prisma's
      `findFirst` and JavaScript's `Array.prototype.find` select. */
  function FirstWhere<T>(s: seq<T>, p: T -> bool): (r: Option<nat>)
    ensures r.Some? ==> r.value < |s| && p(s[r.value])
    ensures r.Some? ==> forall k :: 0 <= k < r.value ==> !p(s[k])
    ensures r.None? <==> forall k :: 0 <= k < |s| ==> !p(s[k])
    decreases |s|
  {
    if s == [] then None
    else if p(s[0]) then Some(0)
    else match FirstWhere(s[1..], p)
      case None => None
      case Some(k) => Some(k + 1)
  }

  /** An exception raised inside a server action: Next.js navigation
      signals (`isRedirectError`) are told apart from every other error. */
  datatype Thrown = Redirect | Other(message: string)

  /** The `{ success, message }` object every mutating action returns. */
  datatype ActionResult = ActionResult(success: bool, message: string)

  function Fail(message: string): ActionResult { ActionResult(false, message) }

  predicate StartsWith(s: string, prefix: string)
  {
    |prefix| <= |s| && s[..|prefix|] == prefix
  }

  /** `s.includes(sub)`, which is also what an unanchored regular
      expression made of literal characters tests. */
  predicate Contains(s: string, sub: string)
    decreases |s|
  {
    StartsWith(s, sub) || (|s| > 0 && Contains(s[1..], sub))
  }

  /** `sub` occurs in `s` exactly when some window of `s` equals it. */
  lemma {:induction false} ContainsAt(s: string, sub: string, i: nat)
    requires i + |sub| <= |s| && s[i..i + |sub|] == sub
    ensures Contains(s, sub)
    decreases i
  {
    if i > 0 {
      assert s[1..][i - 1..i - 1 + |sub|] == sub;
      ContainsAt(s[1..], sub, i - 1);
    } else {
      assert s[..|sub|] == sub;
    }
  }

  /** A pattern longer than the string cannot occur in it. */
  lemma {:induction false} TooLongNotContained(s: string, sub: string)
    requires |sub| > |s|
    ensures !Contains(s, sub)
    decreases |s|
  {
    if |s| > 0 {
      TooLongNotContained(s[1..], sub);
    }
  }

  /** ASCII lower-casing, the part of case folding this model keeps. */
  function LowerChar(c: char): (r: char)
    ensures 'A' <= c <= 'Z' ==> 'a' <= r <= 'z'
    ensures !('A' <= c <= 'Z') ==> r == c
  {
    if 'A' <= c <= 'Z' then (c as int + 32) as char else c
  }

  function Lower(s: string): (r: string)
    ensures |r| == |s|
    ensures forall i :: 0 <= i < |s| ==> r[i] == LowerChar(s[i])
  {
    seq(|s|, i requires 0 <= i < |s| => LowerChar(s[i]))
  }

  /** A case-insensitive substring test (Prisma's `contains` with
      `mode: 'insensitive'`). */
  predicate ContainsInsensitive(s: string, sub: string)
  {
    Contains(Lower(s), Lower(sub))
  }

  /** Decimal rendering of an id, as it appears in a URL. */
  function NatToString(n: nat): (r: string)
    ensures |r| >= 1
    ensures forall i :: 0 <= i < |r| ==> '0' <= r[i] <= '9'
    decreases n
  {
    var d := [(48 + n % 10) as char];
    if n < 10 then d else NatToString(n / 10) + d
  }
}
