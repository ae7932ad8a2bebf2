/** The two ways in which an organizational domain is not its own organizational domain, each at a real
    zone; the name then does not align with its own organizational domain. */
module DmarcExceptions {
  import opened GoStrings
  import opened DmarcTree
  import opened DmarcEvaluation

  function Says(psd: Psd): Lookup { Found(Record(PolicyNone, None, false, false, psd)) }

  lemma {:induction false} AnswersWalk(lookup: Domain -> Lookup, targets: seq<Domain>)
    requires forall t :: !lookup(t).Fails?
    ensures WalkOver(lookup, targets).Walked?
  {
    if targets != [] {
      AnswersWalk(lookup, targets[1..]);
    }
  }

  lemma ZoneIsAskable(env: Env, d: Domain)
    requires env.Valid() && d != [] && !IsPublicSuffix(env.ps, d) && forall t :: !env.lookup(t).Fails?
    ensures Askable(env, d) && env.WalkOf(env.OrgOf(d)).Walked?
  {
    AnswersWalk(env.lookup, Targets(env.ps, d));
    OrgIsAncestor(env.ps, env.lookup, d);
    AnswersWalk(env.lookup, Targets(env.ps, env.OrgOf(d)));
  }

  /** What either exception leads to. */
  lemma ExceptionShows(env: Env, d: Domain)
    requires env.Valid() && d != [] && !IsPublicSuffix(env.ps, d) && forall t :: !env.lookup(t).Fails?
    requires SkippedChild(env.ps, env.lookup, d) || ExceptionSuffix(env.ps, env.lookup, d)
    ensures Askable(env, d) && Askable(env, env.OrgOf(d))
    ensures env.OrgOf(env.OrgOf(d)) != env.OrgOf(d) && !RelaxedAligned(env, d, env.OrgOf(d))
  {
    ZoneIsAskable(env, d);
    OrgIdempotentIff(env.ps, env.lookup, d);
    AlignsWithOwnOrg(env, d);
  }

  // ---- A suffix with an exception ----

  const KAWASAKI: Domain := ["kawasaki", "jp"]
  const CITY: Domain := ["city", "kawasaki", "jp"]
  const BELOW_CITY: Domain := ["x", "city", "kawasaki", "jp"]

  predicate Under(d: Domain, top: Domain) { |d| >= |top| && Tail(d, |top|) == top }

  /** The default rule with `*.kawasaki.jp` and `!city.kawasaki.jp`. */
  function KawasakiRules(d: Domain): nat {
    if Under(d, CITY) then 2 else if |d| >= 3 && Under(d, KAWASAKI) then 3 else 1
  }

  lemma UnderStays(d: Domain, k: nat, top: Domain)
    requires |top| <= k <= |d|
    ensures Under(Tail(d, k), top) <==> Under(d, top)
  {
    TailOfTail(d, k, |top|);
  }

  lemma KawasakiTail(d: Domain, k: nat)
    requires d != [] && KawasakiRules(d) < k <= |d|
    ensures KawasakiRules(Tail(d, k)) == KawasakiRules(d)
  {
    if k >= 3 {
      UnderStays(d, k, CITY);
      UnderStays(d, k, KAWASAKI);
    }
  }

  lemma KawasakiIsSuffixList()
    ensures SuffixList(KawasakiRules)
  {
    forall d: Domain, k: nat | d != [] && KawasakiRules(d) < k <= |d|
      ensures KawasakiRules(Tail(d, k)) == KawasakiRules(d)
    {
      KawasakiTail(d, k);
    }
  }

  function KawasakiZone(d: Domain): Lookup {
    if d == BELOW_CITY then Says(PsdY) else if d == KAWASAKI then Says(PsdN) else NoRecord
  }

  /** The name calls itself a public suffix, and the parent of the exception calls itself an organization:
      the organizational domain of the name is the exception, and that of the exception its parent. */
  lemma ExceptionSuffixHappens()
    ensures var env := Env(KawasakiRules, KawasakiZone);
      && Askable(env, BELOW_CITY) && Askable(env, env.OrgOf(BELOW_CITY))
      && ExceptionSuffix(env.ps, env.lookup, BELOW_CITY)
      && env.OrgOf(env.OrgOf(BELOW_CITY)) != env.OrgOf(BELOW_CITY)
      && !RelaxedAligned(env, BELOW_CITY, env.OrgOf(BELOW_CITY))
  {
    var env := Env(KawasakiRules, KawasakiZone);
    KawasakiIsSuffixList();
    assert Tail(BELOW_CITY, 3) == CITY && Tail(BELOW_CITY, 2) == KAWASAKI;
    assert Under(BELOW_CITY, CITY) && !Under(KAWASAKI, CITY);
    ExceptionShows(env, BELOW_CITY);
  }

  // ---- A skipped child ----

  const LONG: Domain := ["n", "m", "l", "k", "j", "i", "h", "g", "example"]

  function DefaultRule(d: Domain): nat { 1 }

  function LongZone(d: Domain): Lookup {
    if d == Tail(LONG, 7) || d == Tail(LONG, 8) then Says(PsdY) else NoRecord
  }

  /** Nine labels, and the tails of seven and of eight call themselves public suffixes: the walk of the
      name skips the longer one, the walk of that one does not. */
  lemma SkippedChildHappens()
    ensures var env := Env(DefaultRule, LongZone);
      && Askable(env, LONG) && Askable(env, env.OrgOf(LONG))
      && SkippedChild(env.ps, env.lookup, LONG)
      && env.OrgOf(env.OrgOf(LONG)) != env.OrgOf(LONG)
      && !RelaxedAligned(env, LONG, env.OrgOf(LONG))
  {
    var env := Env(DefaultRule, LongZone);
    assert LONG != Tail(LONG, 7) && LONG != Tail(LONG, 8);
    ExceptionShows(env, LONG);
  }
}
