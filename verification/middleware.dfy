/**
 * The routing decision of middleware.ts: signed-in users are sent away from
 * the sign-up and login pages, signed-out users away from the profile
 * pages; everything else passes through. The session lookup is reduced to
 * whether a session exists.
 */
module Middleware {
  import opened Strings

  datatype Decision = PassThrough | Redirect(target: string)

  const AuthPrefix: string := "/auth"
  const ProfilePrefix: string := "/profile"
  const HomePath: string := "/"
  const SignupPath: string := "/auth/signup"

  /** `middleware(request)` for a request to `path`. */
  function Decide(path: string, signedIn: bool): (d: Decision)
    ensures d.Redirect? <==> ((StartsWith(path, AuthPrefix) && signedIn)
                          || (!StartsWith(path, AuthPrefix) && StartsWith(path, ProfilePrefix) && !signedIn))
    ensures d.Redirect? && signedIn ==> d.target == HomePath
    ensures d.Redirect? && !signedIn ==> d.target == SignupPath
  {
    if StartsWith(path, AuthPrefix) then
      if signedIn then Redirect(HomePath) else PassThrough
    else if StartsWith(path, ProfilePrefix) && !signedIn then Redirect(SignupPath)
    else PassThrough
  }

  /** Following a redirect, with the same session, always lands on a page
      that passes through: there are no redirect loops. */
  lemma NoRedirectLoop(path: string, signedIn: bool)
    requires Decide(path, signedIn).Redirect?
    ensures Decide(Decide(path, signedIn).target, signedIn) == PassThrough
  {
    if !signedIn {
      StartsWithConcat(AuthPrefix, "/signup");
      assert SignupPath == AuthPrefix + "/signup";
    }
  }

  /** A signed-in user is never sent away from a profile page, and a
      signed-out user never away from an auth page. */
  lemma StaysWhereAllowed(path: string)
    ensures StartsWith(path, ProfilePrefix) ==> Decide(path, true) == PassThrough
    ensures StartsWith(path, AuthPrefix) ==> Decide(path, false) == PassThrough
  {
    if StartsWith(path, ProfilePrefix) {
      assert path[1] == 'p';
    }
  }

  /** The match is a raw string prefix, so any path that merely begins with
      the letters "/auth", such as "/authors", counts as an auth page. */
  lemma RawPrefixMatch(rest: string)
    ensures Decide(AuthPrefix + rest, true) == Redirect(HomePath)
    ensures Decide(AuthPrefix + rest, false) == PassThrough
  {
    StartsWithConcat(AuthPrefix, rest);
  }
}
