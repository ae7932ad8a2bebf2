/** The DNS tree walk of RFC 9989 section 4.10 and the organizational domain it selects.
    A domain is the list of its labels, most specific first; the empty list stands for a
    name that is not valid. Lookups and the public suffix list are parameters. */
module DmarcTree {
  import opened GoStrings

  type Domain = seq<string>

  datatype Policy = PolicyNone | PolicyQuarantine | PolicyReject
  datatype Psd = PsdY | PsdN | PsdU
  datatype Record = Record(policy: Policy, subdomainPolicy: Option<Policy>, spfStrict: bool, dkimStrict: bool, psd: Psd)

  /** What asking for the record of one name yields. */
  datatype Lookup = NoRecord | Found(record: Record) | Fails(temporary: bool)

  datatype Entry = Entry(domain: Domain, record: Record)
  datatype Walk = Walked(entries: seq<Entry>) | WalkFailed(temporary: bool)

  const MAX_QUERIES: nat := 8

  function Tail(d: Domain, k: nat): Domain
    requires k <= |d|
  {
    d[|d| - k..]
  }

  /** The number of labels of the public suffix, for every name. An ancestor longer than a
      name's suffix has the same suffix; the suffix itself need not be one (exception rules). */
  ghost predicate SuffixList(ps: Domain -> nat) {
    && (forall d: Domain :: d != [] ==> 1 <= ps(d) <= |d|)
    && (forall d: Domain, k: nat :: d != [] && ps(d) < k <= |d| ==> ps(Tail(d, k)) == ps(d))
  }

  /** The list with the single default rule is such a list. */
  lemma DefaultRuleIsSuffixList()
    ensures SuffixList((d: Domain) => 1)
  {
  }

  predicate IsPublicSuffix(ps: Domain -> nat, d: Domain) {
    d != [] && ps(d) == |d|
  }

  // ---- The names a walk asks about ----

  /** The tails of a name from `k` labels down to `lo` labels. */
  function Tails(d: Domain, k: nat, lo: nat): seq<Domain>
    requires k <= |d| && lo >= 1
  {
    if k < lo then [] else [Tail(d, k)] + Tails(d, k - 1, lo)
  }

  /** The longest tail asked about after the name itself. */
  function FirstTail(d: Domain): nat
    requires d != []
  {
    if |d| > MAX_QUERIES then MAX_QUERIES - 1 else |d| - 1
  }

  function Targets(ps: Domain -> nat, d: Domain): seq<Domain>
    requires d != [] ==> 1 <= ps(d)
  {
    if d == [] then [] else [d] + Tails(d, FirstTail(d), ps(d))
  }

  lemma TailsLength(d: Domain, k: nat, lo: nat)
    requires k <= |d| && lo >= 1
    ensures |Tails(d, k, lo)| == if k < lo then 0 else k - lo + 1
  {
  }

  lemma TailsSnoc(d: Domain, k: nat, lo: nat)
    requires k <= |d| && 1 < lo && lo <= k + 1
    ensures Tails(d, k, lo) + [Tail(d, lo - 1)] == Tails(d, k, lo - 1)
  {
    if k < lo {
      assert Tails(d, k - 1, lo - 1) == [];
    } else {
      TailsSnoc(d, k - 1, lo);
    }
  }

  /** A walk never asks about more than eight names. */
  lemma BoundedWalk(ps: Domain -> nat, d: Domain)
    requires SuffixList(ps)
    ensures |Targets(ps, d)| <= 8
    ensures forall t :: t in Targets(ps, d) ==> t == d || exists k: nat :: k < |d| && t == Tail(d, k)
  {
    if d != [] {
      TailsLength(d, FirstTail(d), ps(d));
      TailsAreTails(d, FirstTail(d), ps(d));
    }
  }

  lemma TailsAreTails(d: Domain, k: nat, lo: nat)
    requires k < |d| && lo >= 1
    ensures forall t :: t in Tails(d, k, lo) ==> exists j: nat :: j < |d| && t == Tail(d, j)
  {
    if k >= lo {
      TailsAreTails(d, k - 1, lo);
    }
  }

  method AddTarget(d: Domain, start: nat, i: nat, targets: seq<Domain>) returns (more: seq<Domain>)
    requires 1 <= start <= i < |d| && targets == [d] + Tails(d, |d| - start, |d| - i + 1)
    ensures more == [d] + Tails(d, |d| - start, |d| - i) && |more| == |targets| + 1
  {
    TailsSnoc(d, |d| - start, |d| - i + 1);
    more := targets + [d[i..]];
  }

  method DmarcTreeTargets(ps: Domain -> nat, d: Domain) returns (targets: seq<Domain>)
    requires d != [] ==> 1 <= ps(d) <= |d|
    ensures targets == Targets(ps, d)
  {
    if d == [] {
      return [];
    }
    targets := [d];
    if |d| == 1 {
      return;
    }
    var last := |d| - ps(d);
    var start := 1;
    if |d| > MAX_QUERIES {
      start := |d| - (MAX_QUERIES - 1);
    }
    var i := start;
    while i <= last && |targets| < MAX_QUERIES
      invariant start <= i && (i <= last + 1 || (i == start && targets == [d]))
      invariant i <= last + 1 ==> targets == [d] + Tails(d, |d| - start, |d| - i + 1)
      invariant |targets| == i - start + 1
    {
      targets := AddTarget(d, start, i, targets);
      i := i + 1;
    }
    TailsLength(d, |d| - start, ps(d));
  }

  // ---- The walk ----

  function Prepend(entries: seq<Entry>, w: Walk): Walk {
    match w
    case Walked(rest) => Walked(entries + rest)
    case WalkFailed(_) => w
  }

  function WalkOver(lookup: Domain -> Lookup, targets: seq<Domain>): Walk {
    if targets == [] then Walked([])
    else
      match lookup(targets[0])
      case Fails(temporary) => WalkFailed(temporary)
      case NoRecord => WalkOver(lookup, targets[1..])
      case Found(r) =>
        if r.psd != PsdU then Walked([Entry(targets[0], r)])
        else Prepend([Entry(targets[0], r)], WalkOver(lookup, targets[1..]))
  }

  function WalkTree(ps: Domain -> nat, lookup: Domain -> Lookup, d: Domain): Walk
    requires d != [] ==> 1 <= ps(d)
  {
    WalkOver(lookup, Targets(ps, d))
  }

  lemma PrependTwice(a: seq<Entry>, b: seq<Entry>, w: Walk)
    ensures Prepend(a, Prepend(b, w)) == Prepend(a + b, w)
  {
    if w.Walked? {
      assert a + (b + w.entries) == a + b + w.entries;
    }
  }

  method WalkDMARCTree(ps: Domain -> nat, lookup: Domain -> Lookup, d: Domain) returns (w: Walk)
    requires d != [] ==> 1 <= ps(d) <= |d|
    ensures w == WalkTree(ps, lookup, d)
  {
    var targets := DmarcTreeTargets(ps, d);
    var entries: seq<Entry> := [];
    for i := 0 to |targets|
      invariant WalkTree(ps, lookup, d) == Prepend(entries, WalkOver(lookup, targets[i..]))
    {
      ghost var rest := WalkOver(lookup, targets[i + 1..]);
      assert targets[i..][1..] == targets[i + 1..];
      match lookup(targets[i]) {
        case Fails(temporary) =>
          return WalkFailed(temporary);
        case NoRecord =>
        case Found(r) =>
          PrependTwice(entries, [Entry(targets[i], r)], rest);
          entries := entries + [Entry(targets[i], r)];
          if r.psd != PsdU {
            return Walked(entries);
          }
      }
    }
    w := Walked(entries);
  }

  // ---- The organizational domain ----

  function DirectChild(start: Domain, parent: Domain): Domain {
    if |start| <= |parent| then start else start[|start| - |parent| - 1..]
  }

  /** One label below the public suffix; a public suffix is its own. */
  function RegisteredDomain(ps: Domain -> nat, d: Domain): Domain {
    if d != [] && ps(d) < |d| then Tail(d, ps(d) + 1) else d
  }

  function OrganizationalDomain(ps: Domain -> nat, start: Domain, entries: seq<Entry>): Domain {
    if entries == [] then RegisteredDomain(ps, start)
    else if entries[0].record.psd == PsdN && !IsPublicSuffix(ps, entries[0].domain) then entries[0].domain
    else if entries[0].record.psd == PsdY && entries[0].domain != start then DirectChild(start, entries[0].domain)
    else OrganizationalDomain(ps, start, entries[1..])
  }

  /** The organizational domain of a name whose walk succeeds. */
  function Org(ps: Domain -> nat, lookup: Domain -> Lookup, d: Domain): Domain
    requires d != [] ==> 1 <= ps(d)
    requires WalkTree(ps, lookup, d).Walked?
  {
    OrganizationalDomain(ps, d, WalkTree(ps, lookup, d).entries)
  }

  // ---- The organizational domain without the list of records ----

  function PsdOf(lookup: Domain -> Lookup, d: Domain): Psd {
    match lookup(d) case Found(r) => r.psd case _ => PsdU
  }

  /** The tails of `d` from `k` labels down: the first that says anything decides. */
  function Scan(ps: Domain -> nat, lookup: Domain -> Lookup, d: Domain, k: nat): Domain
    requires k < |d| && 1 <= ps(d)
  {
    if k < ps(d) then RegisteredDomain(ps, d)
    else
      match PsdOf(lookup, Tail(d, k))
      case PsdN => if IsPublicSuffix(ps, Tail(d, k)) then RegisteredDomain(ps, d) else Tail(d, k)
      case PsdY => Tail(d, k + 1)
      case PsdU => Scan(ps, lookup, d, k - 1)
  }

  function ScanAll(ps: Domain -> nat, lookup: Domain -> Lookup, d: Domain): Domain
    requires d != [] && 1 <= ps(d)
  {
    match PsdOf(lookup, d)
    case PsdN => if IsPublicSuffix(ps, d) then RegisteredDomain(ps, d) else d
    case PsdY => RegisteredDomain(ps, d)
    case PsdU => Scan(ps, lookup, d, FirstTail(d))
  }

  lemma {:induction false} ScanIsOrganizational(ps: Domain -> nat, lookup: Domain -> Lookup, d: Domain, k: nat)
    requires k < |d| && 1 <= ps(d)
    requires WalkOver(lookup, Tails(d, k, ps(d))).Walked?
    ensures OrganizationalDomain(ps, d, WalkOver(lookup, Tails(d, k, ps(d))).entries) == Scan(ps, lookup, d, k)
  {
    if k >= ps(d) {
      var t := Tail(d, k);
      var targets := Tails(d, k, ps(d));
      assert targets[0] == t && targets[1..] == Tails(d, k - 1, ps(d));
      if lookup(t).Found? && lookup(t).record.psd != PsdU {
        var entries := WalkOver(lookup, targets).entries;
        assert entries == [Entry(t, lookup(t).record)] && entries[1..] == [];
      } else {
        ScanIsOrganizational(ps, lookup, d, k - 1);
        if lookup(t).Found? {
          var entries := WalkOver(lookup, targets).entries;
          assert entries[1..] == WalkOver(lookup, targets[1..]).entries;
        }
      }
    }
  }

  lemma OrgIsScan(ps: Domain -> nat, lookup: Domain -> Lookup, d: Domain)
    requires d != [] && 1 <= ps(d) && WalkTree(ps, lookup, d).Walked?
    ensures Org(ps, lookup, d) == ScanAll(ps, lookup, d)
  {
    var targets := Targets(ps, d);
    var tails := Tails(d, FirstTail(d), ps(d));
    assert targets[0] == d && targets[1..] == tails;
    if lookup(d).NoRecord? {
      assert WalkOver(lookup, targets) == WalkOver(lookup, tails);
      ScanIsOrganizational(ps, lookup, d, FirstTail(d));
    } else if lookup(d).record.psd == PsdU {
      var entries := WalkOver(lookup, targets).entries;
      assert entries[1..] == WalkOver(lookup, tails).entries;
      ScanIsOrganizational(ps, lookup, d, FirstTail(d));
    } else {
      var entries := WalkOver(lookup, targets).entries;
      assert entries == [Entry(d, lookup(d).record)] && entries[1..] == [];
      assert OrganizationalDomain(ps, d, entries[1..]) == RegisteredDomain(ps, d);
    }
  }

  lemma TailOfTail(d: Domain, j: nat, k: nat)
    requires k <= j <= |d|
    ensures Tail(Tail(d, j), k) == Tail(d, k)
  {
  }

  /** A longer-than-suffix ancestor scans exactly what the name itself scans. */
  lemma {:induction false} ScanFromAncestor(ps: Domain -> nat, lookup: Domain -> Lookup, d: Domain, j: nat, k: nat)
    requires SuffixList(ps) && d != [] && ps(d) < j <= |d| && k < j
    ensures Scan(ps, lookup, Tail(d, j), k) == Scan(ps, lookup, d, k)
  {
    TailOfTail(d, j, ps(d) + 1);
    if k >= ps(d) {
      TailOfTail(d, j, k);
      TailOfTail(d, j, k + 1);
      if k > 0 && PsdOf(lookup, Tail(d, k)) == PsdU {
        ScanFromAncestor(ps, lookup, d, j, k - 1);
      }
    }
  }

  // ---- Is the organizational domain its own organizational domain? ----

  /** More than eight labels, the first word below the name itself is "public suffix" at seven
      labels, its eight-label child was skipped and says "public suffix" too. */
  predicate SkippedChild(ps: Domain -> nat, lookup: Domain -> Lookup, d: Domain) {
    && |d| > MAX_QUERIES && ps(d) < MAX_QUERIES - 1
    && PsdOf(lookup, d) == PsdU
    && PsdOf(lookup, Tail(d, MAX_QUERIES - 1)) == PsdY
    && PsdOf(lookup, Tail(d, MAX_QUERIES)) == PsdY
  }

  /** The name calls itself a public suffix, and its listed suffix is an exception that
      calls itself an organization. */
  predicate ExceptionSuffix(ps: Domain -> nat, lookup: Domain -> Lookup, d: Domain) {
    && 1 <= ps(d) && ps(d) + 1 < |d| && ps(d) < MAX_QUERIES
    && PsdOf(lookup, d) == PsdY
    && PsdOf(lookup, Tail(d, ps(d) + 1)) == PsdU
    && PsdOf(lookup, Tail(d, ps(d))) == PsdN
    && !IsPublicSuffix(ps, Tail(d, ps(d)))
  }

  /** Where a scan stops: at a tail that names itself, above a tail that is a suffix, or nowhere. */
  lemma {:induction false} ScanStops(ps: Domain -> nat, lookup: Domain -> Lookup, d: Domain, k: nat) returns (j: nat)
    requires SuffixList(ps) && d != [] && k < |d|
    ensures (j <= k && forall i: nat :: j < i <= k ==> PsdOf(lookup, Tail(d, i)) == PsdU)
    ensures j < ps(d) ==> Scan(ps, lookup, d, k) == RegisteredDomain(ps, d)
    ensures j >= ps(d) ==> Scan(ps, lookup, d, k) == Scan(ps, lookup, d, j) && PsdOf(lookup, Tail(d, j)) != PsdU
  {
    if k < ps(d) || PsdOf(lookup, Tail(d, k)) != PsdU {
      j := k;
    } else {
      j := ScanStops(ps, lookup, d, k - 1);
    }
  }

  /** Only the listed suffix itself can be a public suffix among the scanned tails. */
  lemma OnlyTheSuffix(ps: Domain -> nat, d: Domain, k: nat)
    requires SuffixList(ps) && d != [] && ps(d) <= k < |d| && IsPublicSuffix(ps, Tail(d, k))
    ensures k == ps(d)
  {
  }

  lemma RegisteredOfRegistered(ps: Domain -> nat, d: Domain)
    requires SuffixList(ps) && d != [] && ps(d) < |d|
    ensures var o := RegisteredDomain(ps, d);
      |o| == ps(d) + 1 && ps(o) == ps(d) && RegisteredDomain(ps, o) == o && !IsPublicSuffix(ps, o)
  {
    assert ps(Tail(d, ps(d) + 1)) == ps(d);
  }

  /** Asked about a registered domain, the scan can only be led astray by its suffix. */
  lemma ScanOfRegistered(ps: Domain -> nat, lookup: Domain -> Lookup, d: Domain)
    requires SuffixList(ps) && d != [] && ps(d) < |d|
    ensures var o := RegisteredDomain(ps, d);
      ScanAll(ps, lookup, o) == o <==>
        !(PsdOf(lookup, o) == PsdU && ps(d) < MAX_QUERIES && PsdOf(lookup, Tail(d, ps(d))) == PsdN
          && !IsPublicSuffix(ps, Tail(d, ps(d))))
  {
    var o, k := RegisteredDomain(ps, d), ps(d);
    RegisteredOfRegistered(ps, d);
    TailOfTail(d, k + 1, k);
    assert Tail(o, k + 1) == o;
    if PsdOf(lookup, o) == PsdU {
      if k < MAX_QUERIES {
        assert FirstTail(o) == k;
        if k > 0 && PsdOf(lookup, Tail(o, k)) == PsdU {
          assert Scan(ps, lookup, o, k - 1) == RegisteredDomain(ps, o);
        }
      } else {
        assert FirstTail(o) < k;
      }
    }
  }

  lemma IdempotentAtSelf(ps: Domain -> nat, lookup: Domain -> Lookup, d: Domain)
    requires SuffixList(ps) && d != [] && PsdOf(lookup, d) == PsdY
    ensures var o := ScanAll(ps, lookup, d);
      o != [] && (ScanAll(ps, lookup, o) == o <==> !ExceptionSuffix(ps, lookup, d))
  {
    if ps(d) < |d| {
      ScanOfRegistered(ps, lookup, d);
      if ps(d) + 1 == |d| {
        assert Tail(d, ps(d) + 1) == d;
      }
    }
  }

  lemma IdempotentBelowSuffix(ps: Domain -> nat, lookup: Domain -> Lookup, d: Domain, j: nat)
    requires SuffixList(ps) && d != [] && PsdOf(lookup, d) == PsdU
    requires ps(d) <= j <= FirstTail(d) && PsdOf(lookup, Tail(d, j)) == PsdY
    requires forall i: nat :: j < i <= FirstTail(d) ==> PsdOf(lookup, Tail(d, i)) == PsdU
    ensures var o := Tail(d, j + 1);
      ScanAll(ps, lookup, o) == o <==> !(SkippedChild(ps, lookup, d) && j == MAX_QUERIES - 1)
  {
    var o := Tail(d, j + 1);
    assert ps(o) == ps(d);
    TailOfTail(d, j + 1, j);
    TailOfTail(d, j + 1, j + 1);
    assert Tail(o, j + 1) == o;
    if j + 1 <= FirstTail(d) {
      assert PsdOf(lookup, o) == PsdU;
    } else if |d| <= MAX_QUERIES {
      assert o == d;
    }
    if PsdOf(lookup, o) == PsdY && ps(d) < j {
      assert |RegisteredDomain(ps, o)| == ps(d) + 1 < |o|;
    }
  }

  lemma IdempotentFallThrough(ps: Domain -> nat, lookup: Domain -> Lookup, d: Domain, j: nat)
    requires SuffixList(ps) && d != [] && j <= FirstTail(d) && ps(d) < |d|
    requires forall i: nat :: j < i <= FirstTail(d) ==> PsdOf(lookup, Tail(d, i)) == PsdU
    requires j < ps(d) || (j == ps(d) && PsdOf(lookup, Tail(d, j)) == PsdN && IsPublicSuffix(ps, Tail(d, j)))
    ensures var o := RegisteredDomain(ps, d); ScanAll(ps, lookup, o) == o
  {
    ScanOfRegistered(ps, lookup, d);
    if ps(d) < MAX_QUERIES && PsdOf(lookup, Tail(d, ps(d))) == PsdN {
      assert ps(d) <= FirstTail(d);
    }
  }

  lemma IdempotentByScan(ps: Domain -> nat, lookup: Domain -> Lookup, d: Domain)
    requires SuffixList(ps) && d != []
    ensures var o := ScanAll(ps, lookup, d);
      o != [] && (ScanAll(ps, lookup, o) == o <==> !SkippedChild(ps, lookup, d) && !ExceptionSuffix(ps, lookup, d))
  {
    if PsdOf(lookup, d) == PsdY {
      IdempotentAtSelf(ps, lookup, d);
    } else if PsdOf(lookup, d) == PsdU && ps(d) < |d| {
      var h := FirstTail(d);
      var j := ScanStops(ps, lookup, d, h);
      if j >= ps(d) && PsdOf(lookup, Tail(d, j)) == PsdY {
        IdempotentBelowSuffix(ps, lookup, d, j);
        assert SkippedChild(ps, lookup, d) ==> j == MAX_QUERIES - 1;
      } else if j >= ps(d) && !IsPublicSuffix(ps, Tail(d, j)) {
        assert SkippedChild(ps, lookup, d) ==> j >= MAX_QUERIES - 1;
      } else {
        if j >= ps(d) {
          OnlyTheSuffix(ps, d, j);
        }
        IdempotentFallThrough(ps, lookup, d, j);
        assert SkippedChild(ps, lookup, d) ==> j >= MAX_QUERIES - 1;
      }
    }
  }

  /** The organizational domain of a name is its own organizational domain, for names of any
      length, except exactly in the two cases above. */
  lemma OrgIdempotentIff(ps: Domain -> nat, lookup: Domain -> Lookup, d: Domain)
    requires SuffixList(ps) && d != [] && WalkTree(ps, lookup, d).Walked?
    requires WalkTree(ps, lookup, Org(ps, lookup, d)).Walked?
    ensures Org(ps, lookup, Org(ps, lookup, d)) == Org(ps, lookup, d)
      <==> !SkippedChild(ps, lookup, d) && !ExceptionSuffix(ps, lookup, d)
  {
    OrgIsScan(ps, lookup, d);
    IdempotentByScan(ps, lookup, d);
    OrgIsScan(ps, lookup, Org(ps, lookup, d));
  }

  /** In particular for every name of at most eight labels when listed suffixes are public suffixes. */
  lemma OrgIdempotent(ps: Domain -> nat, lookup: Domain -> Lookup, d: Domain)
    requires SuffixList(ps) && d != [] && |d| <= MAX_QUERIES && WalkTree(ps, lookup, d).Walked?
    requires IsPublicSuffix(ps, Tail(d, ps(d)))
    requires WalkTree(ps, lookup, Org(ps, lookup, d)).Walked?
    ensures Org(ps, lookup, Org(ps, lookup, d)) == Org(ps, lookup, d)
  {
    OrgIdempotentIff(ps, lookup, d);
  }

  /** The organizational domain of a name that is no public suffix is a tail of it that is none either. */
  lemma OrgIsAncestor(ps: Domain -> nat, lookup: Domain -> Lookup, d: Domain)
    requires SuffixList(ps) && d != [] && ps(d) < |d| && WalkTree(ps, lookup, d).Walked?
    ensures var o := Org(ps, lookup, d);
      0 < |o| <= |d| && o == Tail(d, |o|) && !IsPublicSuffix(ps, o)
  {
    OrgIsScan(ps, lookup, d);
    RegisteredOfRegistered(ps, d);
    assert Tail(d, |d|) == d;
    if PsdOf(lookup, d) == PsdU {
      var j := ScanStops(ps, lookup, d, FirstTail(d));
      if j >= ps(d) && PsdOf(lookup, Tail(d, j)) == PsdY {
        assert ps(Tail(d, j + 1)) == ps(d);
      }
    }
  }
}
