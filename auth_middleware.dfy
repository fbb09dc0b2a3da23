/** `authMiddleware`: the `Authorization: Bearer <token>` form of section
    2.1 of RFC 6750, with the scheme matched case-sensitively. The
    middleware either answers 401 or hands the decoded payload on. */
module AuthMiddleware {
  import opened Wrappers
  import opened Strings
  import opened AuthService

  datatype Decision =
    | Reject(status: int, error: string)
    | Next(user: Claims)

  const Missing := Reject(401, "Unauthorized: token missing")
  const Invalid := Reject(401, "Unauthorized: invalid token")

  /** `authHeader.split(' ')[1]`: the text between the first and the
      second space. */
  function BearerToken(header: string): (t: string)
    requires StartsWith(header, "Bearer ")
    ensures ' ' !in t
  {
    var pieces := Split(header, {' '});
    assert header[6] == ' ' && ' ' !in header[..6];
    assert |pieces| >= 2 by {
      assert FirstIn(header, {' '}) == 6;
    }
    assert NoneIn(pieces[1], {' '});
    pieces[1]
  }

  /** The middleware. `header` is `req.headers.authorization` (None when
      the request has none); `verify` is `jwt.verify`, `None` when it
      throws. */
  function Authenticate(header: Option<string>, verify: string -> Option<Claims>): (d: Decision)
    ensures header.None? || !StartsWith(header.value, "Bearer ") ==> d == Missing
    ensures d.Next? <==>
            header.Some? && StartsWith(header.value, "Bearer ") && verify(BearerToken(header.value)).Some?
    ensures d.Next? ==> d.user == verify(BearerToken(header.value)).value
    ensures d.Reject? ==> d.status == 401 && (d == Missing || d == Invalid)
  {
    // An empty header is falsy, and it cannot start with "Bearer " either.
    if header.None? || !StartsWith(header.value, "Bearer ") then Missing
    else
      match verify(BearerToken(header.value))
      case None => Invalid
      case Some(user) => Next(user)
  }

  /** The token is the first space-separated word after the scheme; any
      further words are ignored. */
  lemma {:induction false} TokenIsFirstWord(words: seq<string>)
    requires |words| >= 1
    requires forall k :: 0 <= k < |words| ==> NoneIn(words[k], {' '})
    ensures StartsWith("Bearer " + Join(words, " "), "Bearer ")
    ensures BearerToken("Bearer " + Join(words, " ")) == words[0]
  {
    var header := "Bearer " + Join(words, " ");
    assert header[..7] == "Bearer ";
    var all := ["Bearer"] + words;
    assert all[1..] == words;
    assert Join(all, " ") == header;
    assert forall k :: 0 <= k < |all| ==> NoneIn(all[k], {' '}) by {
      forall k | 0 <= k < |all| ensures NoneIn(all[k], {' '}) {
        if k > 0 { assert all[k] == words[k - 1]; }
      }
    }
    SplitJoin(all, ' ', {' '});
  }

  /** The scheme is case-sensitive: `bearer <token>` counts as no token
      at all, whatever the token. */
  lemma LowerCaseSchemeRejected(token: string, verify: string -> Option<Claims>)
    ensures Authenticate(Some("bearer " + token), verify) == Missing
  {
    var h := "bearer " + token;
    assert h[0] == 'b';
  }
}
