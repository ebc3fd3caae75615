/**
 * The authorization middleware: reading the bearer token out of the
 * `Authorization` header, checking the claims of a verified token, and the two
 * gates that run after it (`isAdmin` and `ensureCorrectUserOrAdmin`).
 *
 * Signature checking (`jwt.verify`) is a parameter: a partial function from
 * token text to the decoded claims, `None` where it throws.
 */
module Auth {
  import opened Js

  /** `req.user` as the middleware sets it. */
  datatype Principal = Principal(userID: Value, userType: Value)

  /** What `authenticateJWT` hands to the next handler. */
  datatype Authentication =
    | Admitted(user: Principal, token: string)
    | Refused(message: string)

  /** What a gate does: call `next()` or `next(new UnauthorizedError(message))`. */
  datatype Gate = Pass | Deny(message: string)

  const MissingToken := "Access token missing or invalid."
  const InvalidToken := "Invalid access token."
  const Forbidden := "You are not authorized to access this resource."

  /** `s.split(" ")`: the maximal space-free pieces between single spaces. */
  function Split(s: string): (parts: seq<string>)
    ensures |parts| >= 1
    ensures forall i :: 0 <= i < |parts| ==> ' ' !in parts[i]
    decreases |s|
  {
    if |s| == 0 then [""]
    else if s[0] == ' ' then [""] + Split(s[1..])
    else
      var rest := Split(s[1..]);
      [[s[0]] + rest[0]] + rest[1..]
  }

  /** `parts.join(" ")` */
  function Join(parts: seq<string>): string
    requires |parts| >= 1
  {
    if |parts| == 1 then parts[0] else parts[0] + " " + Join(parts[1..])
  }

  predicate SpaceFree(parts: seq<string>)
  {
    forall i :: 0 <= i < |parts| ==> ' ' !in parts[i]
  }

  /** Splitting on spaces loses nothing: joining the pieces restores the text. */
  lemma {:induction false} JoinSplit(s: string)
    ensures Join(Split(s)) == s
    decreases |s|
  {
    if |s| > 0 {
      JoinSplit(s[1..]);
      var rest := Split(s[1..]);
      if s[0] == ' ' {
        assert Split(s) == [""] + rest;
        assert Split(s)[1..] == rest;
        assert Join(Split(s)) == "" + " " + Join(rest);
        assert s == [s[0]] + s[1..];
      } else {
        var head := [s[0]] + rest[0];
        assert Split(s) == [head] + rest[1..];
        if |rest| == 1 {
          assert Join(Split(s)) == head;
          assert s == [s[0]] + s[1..];
        } else {
          assert Split(s)[1..] == rest[1..];
          assert Join(Split(s)) == head + " " + Join(rest[1..]);
          assert Join(rest) == rest[0] + " " + Join(rest[1..]);
          assert s == [s[0]] + s[1..];
        }
      }
    }
  }

  lemma SplitPrefix(c: char, t: string)
    requires c != ' '
    ensures Split([c] + t) == [[c] + Split(t)[0]] + Split(t)[1..]
  {
    assert ([c] + t)[1..] == t;
  }

  lemma SplitSpace(t: string)
    ensures Split(" " + t) == [""] + Split(t)
  {
    assert (" " + t)[1..] == t;
  }

  /** A space-free word followed by the rest: the word is glued to the first piece of the rest. */
  lemma {:induction false} SplitWord(w: string, t: string)
    requires ' ' !in w
    ensures Split(w + t) == [w + Split(t)[0]] + Split(t)[1..]
    decreases |w|
  {
    if |w| == 0 {
      assert w + t == t;
      assert w + Split(t)[0] == Split(t)[0];
      assert Split(t) == [Split(t)[0]] + Split(t)[1..];
    } else {
      assert w + t == [w[0]] + (w[1..] + t);
      assert ' ' !in w[1..] by {
        forall i | 0 <= i < |w[1..]| ensures w[1..][i] != ' ' {
          assert w[1..][i] == w[i + 1];
        }
      }
      SplitWord(w[1..], t);
      SplitPrefix(w[0], w[1..] + t);
      assert [w[0]] + (w[1..] + Split(t)[0]) == w + Split(t)[0];
    }
  }

  /** Space-free pieces joined by single spaces split back into the same pieces. */
  lemma {:induction false} SplitJoin(parts: seq<string>)
    requires |parts| >= 1 && SpaceFree(parts)
    ensures Split(Join(parts)) == parts
    decreases |parts|
  {
    if |parts| == 1 {
      SplitWord(parts[0], "");
      assert parts[0] + "" == parts[0];
    } else {
      var rest := parts[1..];
      assert SpaceFree(rest) by {
        forall i | 0 <= i < |rest| ensures ' ' !in rest[i] {
          assert rest[i] == parts[i + 1];
        }
      }
      SplitJoin(rest);
      assert Join(parts) == parts[0] + (" " + Join(rest));
      SplitWord(parts[0], " " + Join(rest));
      SplitSpace(Join(rest));
      assert Split(" " + Join(rest)) == [""] + rest;
      assert parts[0] + "" == parts[0];
      assert parts == [parts[0]] + rest;
    }
  }

  /** `authHeader.split(" ")[1]`, `undefined` when the header has no space. */
  function BearerToken(header: string): (token: Option<string>)
    ensures token.Some? <==> ' ' in header
  {
    var parts := Split(header);
    SpaceSplits(header);
    if |parts| >= 2 then Some(parts[1]) else None
  }

  /** The text has a space exactly when it splits into two or more pieces. */
  lemma SpaceSplits(s: string)
    ensures ' ' in s <==> |Split(s)| >= 2
  {
    JoinSplit(s);
    var parts := Split(s);
    if |parts| >= 2 {
      assert Join(parts) == parts[0] + " " + Join(parts[1..]);
      assert s[|parts[0]|] == ' ';
    } else {
      assert s == parts[0];
    }
  }

  /** The header `"<scheme> <token>"` carries `token`, whatever follows it after another space. */
  lemma BearerTokenOf(scheme: string, token: string, more: seq<string>)
    requires SpaceFree([scheme, token] + more)
    ensures BearerToken(Join([scheme, token] + more)) == Some(token)
  {
    SplitJoin([scheme, token] + more);
  }

  /**
   * `authenticateJWT`: a missing or empty header, or a header whose second
   * space-separated piece is missing or empty, is refused as a missing token;
   * a token that fails verification or whose claims lack a truthy `sub` or
   * `userType` is refused as invalid; otherwise the principal is exactly
   * `{ userID: sub, userType }` and the token is kept.
   */
  function AuthenticateJWT(header: Option<string>, verify: string -> Option<Obj>): (a: Authentication)
    ensures a.Refused? ==> a.message in {MissingToken, InvalidToken}
    ensures a == Refused(MissingToken) <==>
              header.None? || header.value == "" || BearerToken(header.value) in {None, Some("")}
    ensures a.Admitted? <==>
              header.Some? && BearerToken(header.value).Some? && BearerToken(header.value).value != ""
              && verify(BearerToken(header.value).value).Some?
              && Truthy(Prop(verify(BearerToken(header.value).value).value, "sub"))
              && Truthy(Prop(verify(BearerToken(header.value).value).value, "userType"))
    ensures a.Admitted? ==>
              header.Some? && Some(a.token) == BearerToken(header.value) && verify(a.token).Some?
              && a.user == Principal(Prop(verify(a.token).value, "sub"), Prop(verify(a.token).value, "userType"))
              && Truthy(a.user.userID) && Truthy(a.user.userType)
  {
    if header.None? || header.value == "" then Refused(MissingToken)
    else
      match BearerToken(header.value)
      case None => Refused(MissingToken)
      case Some(token) =>
        if token == "" then Refused(MissingToken)
        else
          match verify(token)
          case None => Refused(InvalidToken)
          case Some(claims) =>
            var sub := Prop(claims, "sub");
            var userType := Prop(claims, "userType");
            if !Truthy(sub) || !Truthy(userType) then Refused(InvalidToken)
            else Admitted(Principal(sub, userType), token)
  }

  /** `isAdmin`: passes exactly a principal whose `userType` is the string "Admin". */
  function IsAdmin(user: Option<Principal>): (g: Gate)
    ensures g.Pass? <==> user.Some? && user.value.userType == Str("Admin")
    ensures g.Deny? ==> g.message == "Unauthorized"
  {
    if user.Some? && user.value.userType == Str("Admin") then Pass else Deny("Unauthorized")
  }

  /** `ensureCorrectUserOrAdmin`: passes a principal whose `userID` is the route's
      `userId` parameter (strictly equal) or who is an "Admin". */
  function EnsureCorrectUserOrAdmin(user: Option<Principal>, paramUserId: Value): (g: Gate)
    ensures g.Pass? <==>
              user.Some? && (user.value.userID == paramUserId || user.value.userType == Str("Admin"))
    ensures g.Deny? ==> g.message == Forbidden
  {
    if user.Some? && (user.value.userID == paramUserId || user.value.userType == Str("Admin")) then Pass
    else Deny(Forbidden)
  }

  /** Every principal `isAdmin` lets through also passes `ensureCorrectUserOrAdmin`, for any route parameter. */
  lemma AdminPassesEveryUserGate(user: Option<Principal>, paramUserId: Value)
    ensures IsAdmin(user).Pass? ==> EnsureCorrectUserOrAdmin(user, paramUserId).Pass?
  {
  }

  /** The role comparison is case-sensitive: "admin" is not "Admin". */
  lemma LowercaseAdminIsNoAdmin(userID: Value)
    ensures IsAdmin(Some(Principal(userID, Str("admin")))).Deny?
    ensures EnsureCorrectUserOrAdmin(Some(Principal(userID, Str("admin"))), Str("someone else")).Deny?
            <==> userID != Str("someone else")
  {
  }

  /** The routes name their parameter `userid`, so the middleware's `req.params.userId` reads
      `undefined`; an authenticated principal never has an undefined `userID`, so after
      `authenticateJWT` the user gate passes exactly the admins. */
  lemma RouteParameterQuirk(header: Option<string>, verify: string -> Option<Obj>)
    ensures var a := AuthenticateJWT(header, verify);
            a.Admitted? ==>
              (EnsureCorrectUserOrAdmin(Some(a.user), Prop(map["userid" := Str("x")], "userId")).Pass?
               <==> IsAdmin(Some(a.user)).Pass?)
  {
  }

  /** The payload `createToken` signs: `{ sub: user.userid, email: user.email }`. */
  function TokenPayload(user: Obj): (claims: Obj)
    ensures Prop(claims, "sub") == Prop(user, "userid")
    ensures Prop(claims, "email") == Prop(user, "email")
    ensures Prop(claims, "userType") == Undefined
  {
    map["sub" := Prop(user, "userid"), "email" := Prop(user, "email")]
  }

  /** A bearer token that verifies to claims without a truthy `userType` is refused as
      invalid, whatever else the claims carry. */
  lemma UntypedClaimsAreRefused(token: string, verify: string -> Option<Obj>)
    requires token != "" && ' ' !in token
    requires verify(token).Some? && !Truthy(Prop(verify(token).value, "userType"))
    ensures AuthenticateJWT(Some("Bearer " + token), verify) == Refused(InvalidToken)
  {
    BearerTokenOf("Bearer", token, []);
    assert Join(["Bearer", token]) == "Bearer" + " " + token;
    assert "Bearer" + " " + token == "Bearer " + token;
  }

  /** A token `createToken` issued verifies to its payload plus the `iat` and `exp`
      claims `jwt.sign` adds (the token expires in an hour); that carries no `userType`
      claim, so the middleware refuses it as invalid. */
  lemma IssuedTokensAreRefused(user: Obj, token: string, verify: string -> Option<Obj>, iat: int, exp: int)
    requires token != "" && ' ' !in token
    requires verify(token) == Some(TokenPayload(user)["iat" := Num(iat)]["exp" := Num(exp)])
    ensures AuthenticateJWT(Some("Bearer " + token), verify) == Refused(InvalidToken)
  {
    assert Prop(verify(token).value, "userType") == Prop(TokenPayload(user), "userType");
    UntypedClaimsAreRefused(token, verify);
  }
}
