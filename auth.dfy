/**
 * The authentication middleware: the Bearer-header check that extracts the
 * token, and the role gates that let a request through or answer with an
 * error. Verifying the token and loading the user are not part of this model:
 * the verified caller is an input.
 */
module AuthMiddleware {
  import opened Models

  const NoToken := Unauthorized("Not authorized, no token")
  const TokenFailed := Unauthorized("Not authorized, token failed")
  const NotAdmin := Unauthorized("Not authorized as an admin or owner")
  const NotOwner := Unauthorized("Not authorized as a restaurant owner")

  /** What a middleware does with a request: pass it on, or answer it with an error. */
  datatype Gate = Next | Deny(error: Error)

  // ---------------------------------------------------------------------------
  // The Authorization header
  // ---------------------------------------------------------------------------

  predicate StartsWith(s: string, prefix: string)
    ensures StartsWith(s, prefix) <==> |prefix| <= |s| && forall i :: 0 <= i < |prefix| ==> s[i] == prefix[i]
  {
    |prefix| <= |s| && s[..|prefix|] == prefix
  }

  /** `s.split(sep)`: the fields between separators, empty ones included. */
  function Split(s: string, sep: char): (r: seq<string>)
    ensures |r| >= 1
  {
    if |s| == 0 then [""]
    else
      var rest := Split(s[1..], sep);
      if s[0] == sep then [""] + rest else [[s[0]] + rest[0]] + rest[1..]
  }

  /** `fields.join(sep)`. */
  function Join(fields: seq<string>, sep: char): string
    requires |fields| >= 1
  {
    if |fields| == 1 then fields[0] else fields[0] + [sep] + Join(fields[1..], sep)
  }

  /** Splitting loses nothing: the fields joined back give the header, and no field holds a separator. */
  lemma {:induction false} SplitJoin(s: string, sep: char)
    ensures Join(Split(s, sep), sep) == s
    ensures forall i :: 0 <= i < |Split(s, sep)| ==> sep !in Split(s, sep)[i]
  {
    if |s| > 0 {
      SplitJoin(s[1..], sep);
      var rest := Split(s[1..], sep);
      if s[0] == sep {
        assert Split(s, sep) == [""] + rest;
        assert ([""] + rest)[1..] == rest;
        assert s == [sep] + s[1..];
      } else {
        var r := Split(s, sep);
        assert r == [[s[0]] + rest[0]] + rest[1..];
        if |rest| == 1 {
          assert s == [s[0]] + s[1..];
        } else {
          assert r[1..] == rest[1..];
          assert Join(rest, sep) == rest[0] + [sep] + Join(rest[1..], sep);
          assert s == [s[0]] + s[1..];
        }
        forall i | 0 <= i < |r| ensures sep !in r[i] {
          if i > 0 {
            assert r[i] == rest[i];
          }
        }
      }
    }
  }

  /** A field with no separator in it, followed by a separator, splits off as the first field. */
  lemma {:induction false} SplitAfterField(a: string, b: string, sep: char)
    requires sep !in a
    ensures Split(a + [sep] + b, sep) == [a] + Split(b, sep)
  {
    if |a| > 0 {
      SplitAfterField(a[1..], b, sep);
      assert (a + [sep] + b)[1..] == a[1..] + [sep] + b;
      assert [a[0]] + a[1..] == a;
    } else {
      assert a + [sep] + b == [sep] + b;
    }
  }

  /** A text with no separator in it is a single field. */
  lemma {:induction false} SplitNoSeparator(s: string, sep: char)
    requires sep !in s
    ensures Split(s, sep) == [s]
  {
    if |s| > 0 {
      SplitNoSeparator(s[1..], sep);
      assert [s[0]] + s[1..] == s;
    }
  }

  /**
   * The header check of `protect`: no header, or one not starting with
   * "Bearer", is refused for want of a token; otherwise the token handed to the
   * verifier is the second space-separated field, and a missing or empty one
   * makes the verification fail.
   */
  function Protect(authorization: Option<string>): (r: Result<string>)
    ensures r == Err(NoToken) <==> authorization.None? || !StartsWith(authorization.value, "Bearer")
    ensures r.Ok? ==> r.value != "" && ' ' !in r.value
    ensures r.Ok? ==> authorization.Some? && |Split(authorization.value, ' ')| >= 2 && Split(authorization.value, ' ')[1] == r.value
    ensures authorization.Some? && StartsWith(authorization.value, "Bearer") ==>
      var fields := Split(authorization.value, ' ');
      if |fields| >= 2 && fields[1] != "" then r == Ok(fields[1]) else r == Err(TokenFailed)
    ensures r.Err? ==> r.error.Code() == 401
  {
    if authorization.None? || !StartsWith(authorization.value, "Bearer") then Err(NoToken)
    else
      var fields := Split(authorization.value, ' ');
      SplitJoin(authorization.value, ' ');
      if |fields| < 2 || fields[1] == "" then Err(TokenFailed) else Ok(fields[1])
  }

  /** The header the client sends, "Bearer " and a token, yields that token. */
  lemma ProtectReadsBearerHeader(token: string)
    requires token != "" && ' ' !in token
    ensures Protect(Some("Bearer " + token)) == Ok(token)
  {
    var h := "Bearer " + token;
    assert h == "Bearer" + [' '] + token;
    SplitAfterField("Bearer", token, ' ');
    SplitNoSeparator(token, ' ');
    assert StartsWith(h, "Bearer");
  }

  // ---------------------------------------------------------------------------
  // Role gates
  // ---------------------------------------------------------------------------

  /** `admin`: admins and owners pass, anyone else gets 401. */
  function Admin(user: Option<User>): (g: Gate)
    ensures g.Next? <==> user.Some? && (user.value.role == "admin" || user.value.role == "owner")
    ensures g.Deny? ==> g.error.Code() == 401
  {
    if user.Some? && (user.value.role == "admin" || user.value.role == "owner") then Next else Deny(NotAdmin)
  }

  /** `isOwner`: only owners pass, anyone else gets 401. */
  function IsOwner(user: Option<User>): (g: Gate)
    ensures g.Next? <==> user.Some? && user.value.role == "owner"
    ensures g.Deny? ==> g.error.Code() == 401
  {
    if user.Some? && user.value.role == "owner" then Next else Deny(NotOwner)
  }

  /** The role named in the 403 message: the caller's, or "User" when there is none. */
  function RoleName(user: Option<User>): (name: string)
    ensures name != ""
    ensures user.Some? && user.value.role != "" ==> name == user.value.role
    ensures user.None? || user.value.role == "" ==> name == "User"
  {
    if user.Some? && user.value.role != "" then user.value.role else "User"
  }

  /** `authorizeRoles(...roles)`: a caller whose role is listed passes, anyone else gets 403. */
  function AuthorizeRoles(roles: seq<string>, user: Option<User>): (g: Gate)
    ensures g.Next? <==> user.Some? && user.value.role in roles
    ensures g.Deny? ==> g.error.Code() == 403
  {
    if user.None? || user.value.role !in roles then
      Deny(Forbidden("Role: " + RoleName(user) + " is not allowed to access this resource"))
    else Next
  }

  /** Whoever passes `isOwner` passes `admin`. */
  lemma OwnerPassesAdmin(user: Option<User>)
    ensures IsOwner(user).Next? ==> Admin(user).Next?
  {
  }

  /** `authorizeRoles('admin', 'owner')` lets through exactly whom `admin` does, refusing with 403 instead of 401. */
  lemma AuthorizeAdminOwnerIsAdmin(user: Option<User>)
    ensures AuthorizeRoles(["admin", "owner"], user).Next? <==> Admin(user).Next?
    ensures Admin(user).Deny? ==> AuthorizeRoles(["admin", "owner"], user).error.Code() == 403
  {
  }
}
