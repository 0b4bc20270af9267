/**
  Permission matching (internal/infrastructure/auth/rbac_service.go): grants may be plain names, "*",
  a prefix followed by ":*", or "*:read".
 */
module Permissions {
  import opened Outcomes
  import opened Strings

  const ANY := "*"
  const ANY_READ := "*:read"
  const BELOW := ":*"
  const READ := ":read"

  predicate HasSuffix(s: string, suffix: string) {
    |suffix| <= |s| && s[|s| - |suffix|..] == suffix
  }

  function TrimSuffix(s: string, suffix: string): string {
    if HasSuffix(s, suffix) then s[..|s| - |suffix|] else s
  }

  /** matchesPermission. */
  predicate Matches(granted: string, required: string) {
    if granted == required || granted == ANY then true
    else if HasSuffix(granted, BELOW) && MatchesBelow(TrimSuffix(granted, BELOW), required) then true
    else granted == ANY_READ && HasSuffix(required, READ)
  }

  predicate MatchesBelow(prefix: string, required: string) {
    required == prefix || HasPrefix(required, prefix + ":")
  }

  // ----- What a grant means -----

  /** The permissions a grant stands for, told without slicing. */
  ghost predicate Covers(granted: string, required: string) {
    || granted == required
    || granted == "*"
    || (exists p :: granted == p + ":*" && (required == p || exists rest :: required == p + ":" + rest))
    || (granted == "*:read" && exists p :: required == p + ":read")
  }

  lemma SuffixMeans(s: string, suffix: string)
    ensures HasSuffix(s, suffix) <==> exists p :: s == p + suffix
    ensures forall p :: s == p + suffix ==> TrimSuffix(s, suffix) == p
  {
    if HasSuffix(s, suffix) {
      assert s == s[..|s| - |suffix|] + suffix;
    }
    forall p | s == p + suffix ensures TrimSuffix(s, suffix) == p {
      assert s[|p|..] == suffix && s[..|p|] == p;
    }
  }

  lemma PrefixMeans(s: string, prefix: string)
    ensures HasPrefix(s, prefix) <==> exists rest :: s == prefix + rest
  {
    if HasPrefix(s, prefix) {
      assert s == prefix + s[|prefix|..];
    }
    if rest :| s == prefix + rest {
      assert s[..|prefix|] == prefix;
    }
  }

  lemma MatchesIsCovers(granted: string, required: string)
    ensures Matches(granted, required) <==> Covers(granted, required)
  {
    SuffixMeans(granted, BELOW);
    SuffixMeans(required, READ);
    forall p ensures HasPrefix(required, p + ":") <==> exists rest :: required == p + ":" + rest {
      PrefixMeans(required, p + ":");
    }
  }

  // ----- When matching is transitive -----

  /** A ":*" grant whose prefix is itself a wildcard grant. */
  ghost predicate Nested(granted: string) {
    exists p :: granted == p + ":*" && (p == "*" || p == "*:read" || exists q :: p == q + ":*")
  }

  lemma NestedMeans(granted: string)
    ensures Nested(granted) <==>
      HasSuffix(granted, BELOW) &&
      var p := TrimSuffix(granted, BELOW);
      p == ANY || p == ANY_READ || HasSuffix(p, BELOW)
  {
    SuffixMeans(granted, BELOW);
    SuffixMeans(TrimSuffix(granted, BELOW), BELOW);
    if HasSuffix(granted, BELOW) {
      assert granted == TrimSuffix(granted, BELOW) + ":*";
    }
  }

  /** Whatever a grant covers, it covers everything that one covers. */
  ghost predicate Transitive(granted: string) {
    forall middle, required :: Covers(granted, middle) && Covers(middle, required) ==> Covers(granted, required)
  }

  /** Under a prefix p, a further ":*" grant reaches only what lies under p. */
  lemma BelowBelow(p: string, q: string, required: string)
    requires MatchesBelow(p, q + BELOW) && q + BELOW != p
    requires MatchesBelow(q, required)
    ensures MatchesBelow(p, required)
  {
    var middle := q + BELOW;
    assert middle[|middle| - 1] == '*' && middle[..|p| + 1] == p + ":";
    assert |p| + 1 < |middle| by { assert middle[|p|] == ':'; }
    assert |p| <= |q|;
    assert q[..|p|] == middle[..|p|] == p;
    if |q| > |p| {
      assert q[..|p| + 1] == middle[..|p| + 1] == p + ":";
      if required != q {
        assert required[..|q| + 1][..|p| + 1] == q[..|p| + 1];
        assert required[..|p| + 1] == p + ":";
      }
    }
  }

  lemma FlatIsTransitive(granted: string, middle: string, required: string)
    requires !Nested(granted) && Covers(granted, middle) && Covers(middle, required)
    ensures Covers(granted, required)
  {
    NestedMeans(granted);
    MatchesIsCovers(granted, middle);
    MatchesIsCovers(middle, required);
    MatchesIsCovers(granted, required);
    hide Covers, Nested;
    if granted == middle || granted == ANY {
    } else if HasSuffix(granted, BELOW) && MatchesBelow(TrimSuffix(granted, BELOW), middle) {
      hide Matches, MatchesBelow, HasSuffix;
      BelowIsTransitive(TrimSuffix(granted, BELOW), middle, required);
      MatchesFromBelow(granted, required);
    } else {
      ReadIsTransitive(middle, required);
    }
  }

  lemma MatchesFromBelow(granted: string, required: string)
    requires HasSuffix(granted, BELOW) && MatchesBelow(TrimSuffix(granted, BELOW), required)
    ensures Matches(granted, required)
  {
  }

  lemma BelowIsTransitive(p: string, middle: string, required: string)
    requires p != ANY && p != ANY_READ && !HasSuffix(p, BELOW)
    requires MatchesBelow(p, middle) && Matches(middle, required)
    ensures MatchesBelow(p, required)
  {
    hide TrimSuffix;
    NotBelow(p, middle);
    if middle != required {
      var q := TrimSuffix(middle, BELOW);
      assert middle == q + BELOW by { SuffixMeans(middle, BELOW); }
      BelowBelow(p, q, required);
    }
  }

  /** The two wildcards that do not end in ":*" lie below no prefix other than the empty one and "*". */
  lemma NotBelow(p: string, middle: string)
    requires MatchesBelow(p, middle) && p != ANY && p != ANY_READ
    ensures middle != ANY && middle != ANY_READ
  {
    if HasPrefix(middle, p + ":") {
      assert middle[|p|] == ':' && middle[..|p|] == p;
      assert middle == ANY_READ ==> |p| == 1;
    }
  }

  lemma ReadIsTransitive(middle: string, required: string)
    requires HasSuffix(middle, READ) && Matches(middle, required)
    ensures Matches(ANY_READ, required)
  {
  }

  /** A nested grant matches some wildcard that reaches further than the grant does. */
  lemma NestedIsNot(granted: string)
    requires Nested(granted)
    ensures !Transitive(granted)
  {
    NestedMeans(granted);
    hide Nested, Covers;
    var p := TrimSuffix(granted, BELOW);
    assert granted == p + BELOW;
    assert MatchesBelow(p, p);
    var required := if p == ANY then "x" else if p == ANY_READ then ":read" else TrimSuffix(p, BELOW);
    assert Matches(granted, p);
    assert Matches(p, required);
    assert |required| < |p| || p == ANY;
    assert !Matches(granted, required);
    hide Matches;
    MatchesIsCovers(granted, p);
    MatchesIsCovers(p, required);
    MatchesIsCovers(granted, required);
  }

  /** Transitivity holds of a grant exactly when it is not a wildcard put under a wildcard. */
  lemma TransitiveExactly(granted: string)
    ensures Transitive(granted) <==> !Nested(granted)
  {
    if Nested(granted) {
      NestedIsNot(granted);
    } else {
      hide Matches, Covers, Nested;
      forall middle, required | Covers(granted, middle) && Covers(middle, required)
        ensures Covers(granted, required)
      {
        FlatIsTransitive(granted, middle, required);
      }
    }
  }

  // ----- The service's answers -----

  ghost predicate Allows(grants: seq<string>, required: string) {
    exists i :: 0 <= i < |grants| && Covers(grants[i], required)
  }

  ghost predicate AllowsAny(grants: seq<string>, required: seq<string>) {
    exists j :: 0 <= j < |required| && Allows(grants, required[j])
  }

  /** Every grant of weaker is covered by a flat grant of stronger. */
  ghost predicate CoveredBy(weaker: seq<string>, stronger: seq<string>) {
    forall i :: 0 <= i < |weaker| ==>
      exists j :: 0 <= j < |stronger| && !Nested(stronger[j]) && Covers(stronger[j], weaker[i])
  }

  /** Replacing grants by flat ones that cover them takes no permission away. */
  lemma CoveringKeepsAnswers(weaker: seq<string>, stronger: seq<string>, required: string)
    requires CoveredBy(weaker, stronger) && Allows(weaker, required)
    ensures Allows(stronger, required)
  {
    hide Matches, Covers, Nested;
    var i :| 0 <= i < |weaker| && Covers(weaker[i], required);
    var j :| 0 <= j < |stronger| && !Nested(stronger[j]) && Covers(stronger[j], weaker[i]);
    FlatIsTransitive(stronger[j], weaker[i], required);
  }

  lemma CoveringKeepsAnyAnswers(weaker: seq<string>, stronger: seq<string>, required: seq<string>)
    requires CoveredBy(weaker, stronger) && AllowsAny(weaker, required)
    ensures AllowsAny(stronger, required)
  {
    hide Allows, CoveredBy;
    var j :| 0 <= j < |required| && Allows(weaker, required[j]);
    CoveringKeepsAnswers(weaker, stronger, required[j]);
  }

  /** HasPermission, given what fetching the user's grants returned. */
  method HasPermission<E(==)>(grants: Result<seq<string>, E>, required: string) returns (r: Result<bool, E>)
    ensures grants.Err? ==> r == Err(grants.error)
    ensures grants.Ok? ==> r.Ok? && (r.value <==> Allows(grants.value, required))
  {
    if grants.Err? {
      return Err(grants.error);
    }
    hide Matches, Covers;
    var i := 0;
    while i < |grants.value|
      invariant 0 <= i <= |grants.value|
      invariant forall k :: 0 <= k < i ==> !Covers(grants.value[k], required)
    {
      MatchesIsCovers(grants.value[i], required);
      if Matches(grants.value[i], required) {
        return Ok(true);
      }
      i := i + 1;
    }
    return Ok(false);
  }

  /** HasAnyPermission, given what fetching the user's grants returned. */
  method HasAnyPermission<E(==)>(grants: Result<seq<string>, E>, required: seq<string>) returns (r: Result<bool, E>)
    ensures grants.Err? ==> r == Err(grants.error)
    ensures grants.Ok? ==> r.Ok? && (r.value <==> AllowsAny(grants.value, required))
  {
    if grants.Err? {
      return Err(grants.error);
    }
    hide Matches, Covers;
    var i := 0;
    while i < |grants.value|
      invariant 0 <= i <= |grants.value|
      invariant forall k, l :: 0 <= k < i && 0 <= l < |required| ==> !Covers(grants.value[k], required[l])
    {
      var j := 0;
      while j < |required|
        invariant 0 <= j <= |required|
        invariant forall l :: 0 <= l < j ==> !Covers(grants.value[i], required[l])
      {
        MatchesIsCovers(grants.value[i], required[j]);
        if Matches(grants.value[i], required[j]) {
          assert Allows(grants.value, required[j]);
          return Ok(true);
        }
        j := j + 1;
      }
      i := i + 1;
    }
    return Ok(false);
  }
}
