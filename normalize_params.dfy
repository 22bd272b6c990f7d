/** The route-parameter middleware that canonicalises a username before the
    channel-profile handler looks it up. */
module NormalizeParams {
  import opened Common
  import opened Text

  /** `username.trim().toLowerCase()`. */
  function NormalizeName(u: string): (r: string)
    ensures NoEdgeSpace(r)
    ensures forall i :: 0 <= i < |r| ==> !IsUpper(r[i])
    ensures Lead(u) + |r| <= |u| && forall i :: 0 <= i < |r| ==> r[i] == LowerChar(u[Lead(u) + i])
    ensures forall i :: 0 <= i < Lead(u) ==> IsJsSpace(u[i])
    ensures forall i :: Lead(u) + |r| <= i < |u| ==> IsJsSpace(u[i])
  {
    var t := Trim(u);
    LowerNoEdgeSpace(t);
    LowerTrimmed(u, t, Lead(u));
    ToLower(t)
  }

  /** Lower-casing a name without whitespace at its ends keeps it so. */
  lemma LowerNoEdgeSpace(t: string)
    requires NoEdgeSpace(t)
    ensures NoEdgeSpace(ToLower(t))
  {
    if t != [] {
      LowerKeepsSpace(t[0]);
      LowerKeepsSpace(t[|t| - 1]);
    }
  }

  /** Lower-casing the run of `u` that starts at `a` maps it character by character. */
  lemma LowerTrimmed(u: string, t: string, a: nat)
    requires a + |t| <= |u| && t == u[a..a + |t|]
    ensures forall i :: 0 <= i < |t| ==> ToLower(t)[i] == LowerChar(u[a + i])
  {
    forall i | 0 <= i < |t| ensures ToLower(t)[i] == LowerChar(u[a + i]) {
      assert t[i] == u[a..a + |t|][i];
    }
  }

  /** Characters left alone by lower-casing are exactly the non-capitals. */
  lemma {:induction false} LowerFixed(s: string)
    requires forall i :: 0 <= i < |s| ==> !IsUpper(s[i])
    ensures ToLower(s) == s
  {
    assert forall i :: 0 <= i < |s| ==> ToLower(s)[i] == s[i];
  }

  /** Normalising a normalised name changes nothing. */
  lemma {:induction false} NormalizeIdempotent(u: string)
    ensures NormalizeName(NormalizeName(u)) == NormalizeName(u)
  {
    var r := NormalizeName(u);
    TrimFixed(r);
    LowerFixed(r);
  }

  /** The request whose route parameters the middleware rewrites in place. */
  class Request {
    var params: map<string, string>

    constructor (params: map<string, string>)
      ensures this.params == params
    {
      this.params := params;
    }

    /** `normalizeUsername`: a truthy `username` parameter is replaced by its
        normalised form; nothing else changes and `next()` is always reached
        (trimming and lower-casing a string cannot throw). */
    method NormalizeUsername() returns (r: Outcome)
      modifies this
      ensures r == Next
      ensures params == Rewritten(old(params))
    {
      if "username" in params && params["username"] != "" {
        params := params["username" := NormalizeName(params["username"])];
      }
      r := Next;
    }
  }

  /** The parameters after the middleware: the same keys, a truthy
      username normalised, an absent or empty one left as it was, and every
      other parameter untouched. */
  function Rewritten(params: map<string, string>): (r: map<string, string>)
    ensures r.Keys == params.Keys
    ensures "username" in params && params["username"] != "" ==> r["username"] == NormalizeName(params["username"])
    ensures "username" in params && params["username"] == "" ==> r["username"] == ""
    ensures forall k :: k in params && k != "username" ==> r[k] == params[k]
  {
    if "username" in params && params["username"] != ""
    then params["username" := NormalizeName(params["username"])] else params
  }
}
