/** Alignment, policy discovery and the DMARC verdict over a fixed record map. */
module DmarcEvaluation {
  import opened GoStrings
  import opened DmarcTree

  datatype AuthStatus = Pass | Fail | NoneFound | OtherStatus | TempError | PermError
  datatype Mechanism = BySPF | ByDKIM

  datatype Evidence = Evidence(status: AuthStatus, domain: Option<Domain>, aligned: Option<bool>)

  datatype Verdict = Verdict(status: AuthStatus, domain: Option<Domain>, policy: Option<Policy>,
    alignedBy: seq<Mechanism>)

  /** The environment of one evaluation: the suffix list and a resolver that answers
      the same question the same way. */
  datatype Env = Env(ps: Domain -> nat, lookup: Domain -> Lookup) {
    ghost predicate Valid() { SuffixList(ps) }

    function WalkOf(d: Domain): Walk
      requires d != [] ==> 1 <= ps(d)
    {
      WalkTree(ps, lookup, d)
    }

    function OrgOf(d: Domain): Domain
      requires (d != [] ==> 1 <= ps(d)) && WalkOf(d).Walked?
    {
      Org(ps, lookup, d)
    }
  }

  datatype Alignment = Aligned | NotAligned | AlignError(temporary: bool)

  function DomainsAlign(env: Env, authenticated: Domain, author: Domain, strict: bool, authorOrg: Domain): Alignment
    requires env.Valid()
  {
    if authenticated == [] || author == [] then NotAligned
    else if IsPublicSuffix(env.ps, authenticated) || IsPublicSuffix(env.ps, author) then NotAligned
    else if authenticated == author then Aligned
    else if strict then NotAligned
    else
      match env.WalkOf(authenticated)
      case WalkFailed(temporary) => AlignError(temporary)
      case Walked(entries) =>
        if OrganizationalDomain(env.ps, authenticated, entries) == authorOrg then Aligned else NotAligned
  }

  // ---- Relaxed alignment is an equivalence ----

  /** Names on which alignment is a question: not a public suffix, and the walk succeeds. */
  ghost predicate Askable(env: Env, d: Domain) {
    env.Valid() && d != [] && !IsPublicSuffix(env.ps, d) && env.WalkOf(d).Walked?
  }

  ghost predicate RelaxedAligned(env: Env, a: Domain, b: Domain)
    requires Askable(env, a) && Askable(env, b)
  {
    DomainsAlign(env, a, b, false, env.OrgOf(b)).Aligned?
  }

  lemma RelaxedIsSameOrg(env: Env, a: Domain, b: Domain)
    requires Askable(env, a) && Askable(env, b)
    ensures RelaxedAligned(env, a, b) <==> env.OrgOf(a) == env.OrgOf(b)
  {
  }

  /** Relaxed alignment is reflexive, symmetric and transitive, and strict alignment refines it. */
  lemma RelaxedIsEquivalence(env: Env, a: Domain, b: Domain, c: Domain)
    requires Askable(env, a) && Askable(env, b) && Askable(env, c)
    ensures RelaxedAligned(env, a, a)
    ensures RelaxedAligned(env, a, b) ==> RelaxedAligned(env, b, a)
    ensures RelaxedAligned(env, a, b) && RelaxedAligned(env, b, c) ==> RelaxedAligned(env, a, c)
    ensures DomainsAlign(env, a, b, true, env.OrgOf(b)).Aligned? <==> a == b
  {
    RelaxedIsSameOrg(env, a, b);
    RelaxedIsSameOrg(env, b, a);
    RelaxedIsSameOrg(env, b, c);
    RelaxedIsSameOrg(env, a, c);
  }

  /** A name aligns with its own organizational domain exactly outside the two known cases. */
  lemma AlignsWithOwnOrg(env: Env, d: Domain)
    requires Askable(env, d) && env.WalkOf(env.OrgOf(d)).Walked?
    ensures Askable(env, env.OrgOf(d))
    ensures RelaxedAligned(env, d, env.OrgOf(d))
      <==> !SkippedChild(env.ps, env.lookup, d) && !ExceptionSuffix(env.ps, env.lookup, d)
  {
    OrgIsAncestor(env.ps, env.lookup, d);
    OrgIdempotentIff(env.ps, env.lookup, d);
    RelaxedIsSameOrg(env, d, env.OrgOf(d));
  }

  // ---- Discovery ----

  datatype Discovery =
    | NoValidName
    | DiscoveryError(temporary: bool)
    | NoPolicy(organizational: Domain)
    | Discovered(record: Record, domain: Domain, organizational: Domain)

  function FirstAt(entries: seq<Entry>, d: Domain): Option<Entry> {
    if entries == [] then None
    else if entries[0].domain == d then Some(entries[0])
    else FirstAt(entries[1..], d)
  }

  function FirstPsdY(entries: seq<Entry>): Option<Entry> {
    if entries == [] then None
    else if entries[0].record.psd == PsdY then Some(entries[0])
    else FirstPsdY(entries[1..])
  }

  function Discover(env: Env, d: Domain): Discovery
    requires env.Valid()
  {
    if d == [] then NoValidName
    else
      match env.WalkOf(d)
      case WalkFailed(temporary) => DiscoveryError(temporary)
      case Walked(entries) =>
        if entries == [] then NoPolicy(d)
        else
          var org := OrganizationalDomain(env.ps, d, entries);
          var chosen := Chosen(entries, d, org);
          Discovered(chosen.record, chosen.domain, org)
  }

  function Chosen(entries: seq<Entry>, d: Domain, org: Domain): Entry
    requires entries != []
  {
    if entries[0].domain == d then entries[0]
    else if FirstAt(entries, org).Some? then FirstAt(entries, org).value
    else if FirstPsdY(entries).Some? then FirstPsdY(entries).value
    else entries[|entries| - 1]
  }

  lemma {:induction false} WalkEntries(lookup: Domain -> Lookup, targets: seq<Domain>)
    requires WalkOver(lookup, targets).Walked?
    ensures forall e :: e in WalkOver(lookup, targets).entries ==>
      e.domain in targets && lookup(e.domain) == Found(e.record)
    ensures forall t :: t in targets && lookup(t).Found? && (forall u :: u in targets ==> PsdOf(lookup, u) == PsdU) ==>
      Entry(t, lookup(t).record) in WalkOver(lookup, targets).entries
  {
    if targets != [] && !(lookup(targets[0]).Found? && lookup(targets[0]).record.psd != PsdU) {
      WalkEntries(lookup, targets[1..]);
      assert targets == [targets[0]] + targets[1..];
    }
  }

  lemma {:induction false} FirstAtFinds(entries: seq<Entry>, d: Domain)
    ensures FirstAt(entries, d).Some? <==> exists e :: e in entries && e.domain == d
    ensures FirstAt(entries, d).Some? ==> FirstAt(entries, d).value in entries && FirstAt(entries, d).value.domain == d
  {
    if entries != [] {
      FirstAtFinds(entries[1..], d);
      assert entries == [entries[0]] + entries[1..];
    }
  }

  lemma {:induction false} FirstPsdYFinds(entries: seq<Entry>)
    ensures FirstPsdY(entries).Some? <==> exists e :: e in entries && e.record.psd == PsdY
    ensures FirstPsdY(entries).Some? ==>
      FirstPsdY(entries).value in entries && FirstPsdY(entries).value.record.psd == PsdY
  {
    if entries != [] {
      FirstPsdYFinds(entries[1..]);
      assert entries == [entries[0]] + entries[1..];
    }
  }

  /** The walk found a record at this name. */
  predicate FoundAt(env: Env, d: Domain, t: Domain)
    requires env.Valid() && env.WalkOf(d).Walked?
  {
    exists e :: e in env.WalkOf(d).entries && e.domain == t
  }

  /** The walk found a record that marks a public suffix domain. */
  predicate FoundSuffixDomain(env: Env, d: Domain)
    requires env.Valid() && env.WalkOf(d).Walked?
  {
    exists e :: e in env.WalkOf(d).entries && e.record.psd == PsdY
  }

  /** No walked name above this one has a record. */
  predicate TopMost(env: Env, d: Domain, t: Domain)
    requires env.Valid() && env.WalkOf(d).Walked?
  {
    forall e :: e in env.WalkOf(d).entries ==> |t| <= |e.domain|
  }

  // ---- The walk goes up ----

  predicate GoesUp(ts: seq<Domain>) { forall i, j :: 0 <= i < j < |ts| ==> |ts[i]| > |ts[j]| }

  lemma {:induction false} TailsGoUp(d: Domain, k: nat, lo: nat)
    requires k <= |d| && lo >= 1
    ensures GoesUp(Tails(d, k, lo)) && forall t :: t in Tails(d, k, lo) ==> |t| <= k
  {
    if k >= lo {
      TailsGoUp(d, k - 1, lo);
    }
  }

  lemma TargetsGoUp(env: Env, d: Domain)
    requires env.Valid() && d != []
    ensures GoesUp(Targets(env.ps, d))
  {
    TailsGoUp(d, FirstTail(d), env.ps(d));
  }

  predicate EntriesGoUp(es: seq<Entry>) { forall i, j :: 0 <= i < j < |es| ==> |es[i].domain| > |es[j].domain| }

  lemma {:induction false} WalkGoesUp(lookup: Domain -> Lookup, targets: seq<Domain>)
    requires WalkOver(lookup, targets).Walked? && GoesUp(targets)
    ensures EntriesGoUp(WalkOver(lookup, targets).entries)
  {
    if targets != [] && !(lookup(targets[0]).Found? && lookup(targets[0]).record.psd != PsdU) {
      WalkGoesUp(lookup, targets[1..]);
      WalkEntries(lookup, targets[1..]);
      assert targets == [targets[0]] + targets[1..];
      var rest := WalkOver(lookup, targets[1..]).entries;
      forall e | e in rest ensures |targets[0]| > |e.domain| {
        var i :| 0 <= i < |targets[1..]| && targets[1..][i] == e.domain;
        assert targets[i + 1] == e.domain;
      }
    }
  }

  lemma LastIsTopMost(env: Env, d: Domain)
    requires env.Valid() && d != [] && env.WalkOf(d).Walked? && env.WalkOf(d).entries != []
    ensures var entries := env.WalkOf(d).entries; TopMost(env, d, entries[|entries| - 1].domain)
  {
    TargetsGoUp(env, d);
    WalkGoesUp(env.lookup, Targets(env.ps, d));
  }

  lemma ChosenFacts(entries: seq<Entry>, d: Domain, org: Domain)
    requires entries != []
    ensures var chosen := Chosen(entries, d, org);
      var atOrg := exists e :: e in entries && e.domain == org;
      var suffix := exists e :: e in entries && e.record.psd == PsdY;
      && chosen in entries
      && (if entries[0].domain == d then chosen == entries[0]
          else if atOrg then chosen.domain == org
          else if suffix then chosen.record.psd == PsdY
          else chosen == entries[|entries| - 1])
  {
    FirstAtFinds(entries, org);
    FirstPsdYFinds(entries);
  }

  lemma FirstEntryOf(lookup: Domain -> Lookup, targets: seq<Domain>)
    requires targets != [] && WalkOver(lookup, targets).Walked? && lookup(targets[0]).Found?
    ensures var entries := WalkOver(lookup, targets).entries; entries != [] && entries[0].domain == targets[0]
  {
  }

  lemma EntryIsFound(lookup: Domain -> Lookup, targets: seq<Domain>, e: Entry)
    requires WalkOver(lookup, targets).Walked? && e in WalkOver(lookup, targets).entries
    ensures lookup(e.domain) == Found(e.record)
  {
    WalkEntries(lookup, targets);
  }

  lemma OwnEntryIsFirst(env: Env, d: Domain)
    requires env.Valid() && d != [] && env.WalkOf(d).Walked? && env.WalkOf(d).entries != []
    ensures env.lookup(d).Found? <==> env.WalkOf(d).entries[0].domain == d
  {
    var targets := Targets(env.ps, d);
    assert targets[0] == d;
    if env.lookup(d).Found? {
      FirstEntryOf(env.lookup, targets);
    } else {
      EntryIsFound(env.lookup, targets, env.WalkOf(d).entries[0]);
    }
  }

  lemma ChosenIsPublished(env: Env, d: Domain, e: Entry)
    requires env.Valid() && d != [] && env.WalkOf(d).Walked? && e in env.WalkOf(d).entries
    ensures env.lookup(e.domain) == Found(e.record) && exists k: nat :: 0 < k <= |d| && e.domain == Tail(d, k)
  {
    WalkEntries(env.lookup, Targets(env.ps, d));
    TargetsAreTails(env, d, e.domain);
  }

  /** The policy found is a record actually published at the name or one of its ancestors. The name's own
      record always wins; then the organizational domain's, if the walk found one; then that of a public
      suffix domain; and then the topmost. */
  lemma DiscoveredPolicy(env: Env, d: Domain)
    requires env.Valid() && Discover(env, d).Discovered?
    ensures var found := Discover(env, d);
      var org := env.OrgOf(d);
      && env.lookup(found.domain) == Found(found.record)
      && (exists k: nat :: 0 < k <= |d| && found.domain == Tail(d, k))
      && found.organizational == org && FoundAt(env, d, found.domain)
      && (if env.lookup(d).Found? then found.domain == d
          else if FoundAt(env, d, org) then found.domain == org
          else if FoundSuffixDomain(env, d) then found.record.psd == PsdY
          else TopMost(env, d, found.domain))
  {
    var entries, org := env.WalkOf(d).entries, env.OrgOf(d);
    var chosen := Chosen(entries, d, org);
    ChosenFacts(entries, d, org);
    ChosenIsPublished(env, d, chosen);
    OwnEntryIsFirst(env, d);
    LastIsTopMost(env, d);
  }

  lemma TargetsAreTails(env: Env, d: Domain, t: Domain)
    requires env.Valid() && t in Targets(env.ps, d)
    ensures exists k: nat :: 0 < k <= |d| && t == Tail(d, k)
  {
    assert Tail(d, |d|) == d;
    if t != d {
      PositiveTails(d, FirstTail(d), env.ps(d));
    }
  }

  lemma {:induction false} PositiveTails(d: Domain, k: nat, lo: nat)
    requires k <= |d| && lo >= 1
    ensures forall t :: t in Tails(d, k, lo) ==> exists j: nat :: 0 < j <= |d| && t == Tail(d, j)
  {
    if k >= lo {
      PositiveTails(d, k - 1, lo);
      assert Tails(d, k, lo)[0] == Tail(d, k);
    }
  }

  // ---- The verdict ----

  function StrictFor(record: Record, m: Mechanism): bool {
    if m == BySPF then record.spfStrict else record.dkimStrict
  }

  /** One piece of evidence against the policy: only a pass with a name is looked at. */
  function AlignmentOf(env: Env, author: Domain, found: Discovery, m: Mechanism, e: Evidence): Alignment
    requires env.Valid() && found.Discovered?
  {
    if e.status != Pass || e.domain.None? then NotAligned
    else DomainsAlign(env, e.domain.value, author, StrictFor(found.record, m), found.organizational)
  }

  /** Whether it counts for the author's domain. */
  predicate Counts(env: Env, author: Domain, found: Discovery, m: Mechanism, e: Evidence)
    requires env.Valid()
  {
    found.Discovered? && AlignmentOf(env, author, found, m, e).Aligned?
  }

  predicate SomeCounts(env: Env, author: Domain, found: Discovery, dkim: seq<Evidence>)
    requires env.Valid()
  {
    exists i :: 0 <= i < |dkim| && Counts(env, author, found, ByDKIM, dkim[i])
  }

  function EffectivePolicy(found: Discovery, author: Domain): Policy
    requires found.Discovered?
  {
    if found.domain != author && found.record.subdomainPolicy.Some? then found.record.subdomainPolicy.value
    else found.record.policy
  }

  /** The ancestor whose record speaks for a name without its own: the organizational domain, else a
      domain marked as public suffix, else the topmost walked name with a record. */
  predicate SpeaksFor(env: Env, author: Domain, t: Domain)
    requires env.Valid() && env.WalkOf(author).Walked?
  {
    && FoundAt(env, author, t) && env.lookup(t).Found?
    && (if FoundAt(env, author, env.OrgOf(author)) then t == env.OrgOf(author)
        else if FoundSuffixDomain(env, author) then env.lookup(t).record.psd == PsdY
        else TopMost(env, author, t))
  }

  /** The policy as published: the name's own record speaks by its `p`, an ancestor's by its `sp`, or by
      its `p` when it has none. */
  ghost predicate Published(env: Env, author: Domain, policy: Option<Policy>)
    requires env.Valid() && env.WalkOf(author).Walked?
  {
    match env.lookup(author)
    case Found(own) => policy == Some(own.policy)
    case _ =>
      exists k: nat :: 0 < k < |author| && SpeaksFor(env, author, Tail(author, k))
        && var r := env.lookup(Tail(author, k)).record;
           policy == match r.subdomainPolicy case Some(p) => Some(p) case None => Some(r.policy)
  }

  lemma EffectiveIsPublished(env: Env, author: Domain)
    requires env.Valid() && Discover(env, author).Discovered?
    ensures Published(env, author, Some(EffectivePolicy(Discover(env, author), author)))
  {
    var found := Discover(env, author);
    DiscoveredPolicy(env, author);
    if !env.lookup(author).Found? {
      var k: nat :| 0 < k <= |author| && found.domain == Tail(author, k);
      assert Tail(author, |author|) == author;
      assert SpeaksFor(env, author, Tail(author, k));
    }
  }

  /** Evidence that counts, on the zone: a pass for a name that is no public suffix and equals the author's,
      or under the relaxed mode of the record found has the author's organizational domain. */
  lemma CountsMeans(env: Env, author: Domain, m: Mechanism, e: Evidence)
    requires env.Valid() && Discover(env, author).Discovered?
    ensures var r := Discover(env, author).record;
      Counts(env, author, Discover(env, author), m, e) <==>
        && e.status == Pass && e.domain.Some? && e.domain.value != []
        && !IsPublicSuffix(env.ps, e.domain.value) && !IsPublicSuffix(env.ps, author)
        && (e.domain.value == author
            || (!(match m case BySPF => r.spfStrict case ByDKIM => r.dkimStrict)
                && env.WalkOf(e.domain.value).Walked? && env.OrgOf(e.domain.value) == env.OrgOf(author)))
  {
  }

  /** A pass is an error exactly where its own tree walk is needed and fails. */
  lemma FailingMeans(env: Env, author: Domain, m: Mechanism, e: Evidence, temporary: bool)
    requires env.Valid() && Discover(env, author).Discovered?
    ensures var r := Discover(env, author).record;
      AlignmentOf(env, author, Discover(env, author), m, e) == AlignError(temporary) <==>
        && e.status == Pass && e.domain.Some? && e.domain.value != [] && e.domain.value != author
        && !IsPublicSuffix(env.ps, e.domain.value) && !IsPublicSuffix(env.ps, author)
        && !(match m case BySPF => r.spfStrict case ByDKIM => r.dkimStrict)
        && env.WalkOf(e.domain.value) == WalkFailed(temporary)
  {
  }

  function Alignments(env: Env, author: Domain, found: Discovery, dkim: seq<Evidence>): seq<Alignment>
    requires env.Valid() && found.Discovered?
  {
    seq(|dkim|, i requires 0 <= i < |dkim| => AlignmentOf(env, author, found, ByDKIM, dkim[i]))
  }

  /** The first error among some alignments, after an earlier one if there was one. */
  function FirstError(before: Option<bool>, rest: seq<Alignment>): Option<bool>
    decreases |rest|
  {
    if before.Some? || rest == [] then before
    else FirstError(if rest[0].AlignError? then Some(rest[0].temporary) else None, rest[1..])
  }

  predicate FirstErrorAt(all: seq<Alignment>, i: nat, temporary: bool) {
    i < |all| && all[i] == AlignError(temporary) && forall j :: 0 <= j < i ==> !all[j].AlignError?
  }

  lemma {:induction false} FirstErrorIsFirst(all: seq<Alignment>)
    ensures FirstError(None, all).None? <==> forall i :: 0 <= i < |all| ==> !all[i].AlignError?
    ensures FirstError(None, all).Some? ==> exists i: nat :: FirstErrorAt(all, i, FirstError(None, all).value)
    decreases |all|
  {
    if all != [] && all[0].AlignError? {
      assert FirstErrorAt(all, 0, all[0].temporary);
    } else if all != [] {
      FirstErrorIsFirst(all[1..]);
      assert FirstError(None, all) == FirstError(None, all[1..]);
      if FirstError(None, all).Some? {
        var i: nat :| FirstErrorAt(all[1..], i, FirstError(None, all).value);
        assert forall j :: 0 < j < i + 1 ==> all[j] == all[1..][j - 1];
        assert FirstErrorAt(all, i + 1, FirstError(None, all).value);
      }
    }
  }

  method AlignOne(env: Env, author: Domain, found: Discovery, m: Mechanism, e: Evidence) returns (a: Alignment)
    requires env.Valid() && found.Discovered?
    ensures a == AlignmentOf(env, author, found, m, e)
  {
    a := NotAligned;
    if e.status == Pass && e.domain.Some? {
      var strict := if m == BySPF then found.record.spfStrict else found.record.dkimStrict;
      a := DomainsAlign(env, e.domain.value, author, strict, found.organizational);
    }
  }

  /** The loop over the DKIM results up to the first that counts; `before` is the failure met earlier. */
  method DkimAligns(env: Env, author: Domain, found: Discovery, dkim: seq<Evidence>, before: Option<bool>)
    returns (aligned: bool, failure: Option<bool>)
    requires env.Valid() && found.Discovered?
    ensures var all := Alignments(env, author, found, dkim);
      (aligned <==> Aligned in all) && (!aligned ==> failure == FirstError(before, all))
  {
    ghost var all := Alignments(env, author, found, dkim);
    failure := before;
    for i := 0 to |dkim|
      invariant Aligned !in all[..i]
      invariant FirstError(before, all) == FirstError(failure, all[i..])
    {
      var a := AlignOne(env, author, found, ByDKIM, dkim[i]);
      assert a == all[i] && all[i..][0] == a && all[i..][1..] == all[i + 1..] && all[..i + 1] == all[..i] + [a];
      if a.Aligned? {
        return true, failure;
      }
      if a.AlignError? && failure.None? {
        failure := Some(a.temporary);
      }
    }
    assert all[..|dkim|] == all;
    aligned := false;
  }

  lemma CountsInAlignments(env: Env, author: Domain, found: Discovery, dkim: seq<Evidence>)
    requires env.Valid() && found.Discovered?
    ensures SomeCounts(env, author, found, dkim) <==> Aligned in Alignments(env, author, found, dkim)
  {
    var all := Alignments(env, author, found, dkim);
    if Aligned in all {
      var i :| 0 <= i < |all| && all[i] == Aligned;
      assert Counts(env, author, found, ByDKIM, dkim[i]);
    }
    if i :| 0 <= i < |dkim| && Counts(env, author, found, ByDKIM, dkim[i]) {
      assert all[i] == Aligned;
    }
  }

  /** The first walk failure met while aligning, the SPF result before the DKIM results. */
  function FirstFailure(env: Env, author: Domain, found: Discovery, spf: Evidence, dkim: seq<Evidence>): Option<bool>
    requires env.Valid() && found.Discovered?
  {
    FirstError(None, [AlignmentOf(env, author, found, BySPF, spf)] + Alignments(env, author, found, dkim))
  }

  /** The mechanisms that align, in order, and when none does the first walk failure met on the way. */
  method AlignedMechanisms(env: Env, author: Domain, found: Discovery, spf: Evidence, dkim: seq<Evidence>)
    returns (alignedBy: seq<Mechanism>, failure: Option<bool>)
    requires env.Valid() && found.Discovered?
    ensures alignedBy == (if Counts(env, author, found, BySPF, spf) then [BySPF] else [])
                       + (if SomeCounts(env, author, found, dkim) then [ByDKIM] else [])
    ensures alignedBy == [] ==> failure == FirstFailure(env, author, found, spf, dkim)
  {
    var a := AlignOne(env, author, found, BySPF, spf);
    failure := if a.AlignError? then Some(a.temporary) else None;
    ghost var all := [a] + Alignments(env, author, found, dkim);
    assert all[0] == a && all[1..] == Alignments(env, author, found, dkim);
    var aligned;
    aligned, failure := DkimAligns(env, author, found, dkim, failure);
    CountsInAlignments(env, author, found, dkim);
    alignedBy := (if a.Aligned? then [BySPF] else []) + (if aligned then [ByDKIM] else []);
  }

  /** What the verdict says before any mechanism is looked at, on the zone. */
  ghost predicate VerdictFits(env: Env, author: Domain, v: Verdict)
    requires env.Valid()
  {
    if author == [] || IsPublicSuffix(env.ps, author) then v == Verdict(NoneFound, None, None, [])
    else
      && v.domain == Some(author)
      && match env.WalkOf(author)
         case WalkFailed(temporary) =>
           v.status == (if temporary then TempError else PermError) && v.policy == None && v.alignedBy == []
         case Walked(entries) =>
           if entries == [] then v.status == NoneFound && v.policy == None && v.alignedBy == []
           else v.status != NoneFound && Published(env, author, v.policy)
  }

  /** The status of a verdict with a policy: pass exactly when something aligns, else the first walk that
      failed while aligning, and plain failure when none did. */
  predicate StatusFits(env: Env, author: Domain, v: Verdict, spf: Evidence, dkim: seq<Evidence>)
    requires env.Valid()
  {
    var found := Discover(env, author);
    author != [] && !IsPublicSuffix(env.ps, author) && found.Discovered? ==>
      if v.alignedBy != [] then v.status == Pass
      else
        match FirstFailure(env, author, found, spf, dkim)
        case None => v.status == Fail
        case Some(temporary) => v.status == if temporary then TempError else PermError
  }

  /** A public suffix, or a name without a usable policy, aligns with nothing. */
  lemma NothingCounts(env: Env, author: Domain, m: Mechanism, e: Evidence)
    requires env.Valid() && (author == [] || IsPublicSuffix(env.ps, author) || !Discover(env, author).Discovered?)
    ensures !Counts(env, author, Discover(env, author), m, e)
  {
  }

  method Evaluate(env: Env, author: Domain, spf: Evidence, dkim: seq<Evidence>) returns (v: Verdict)
    requires env.Valid()
    ensures VerdictFits(env, author, v) && StatusFits(env, author, v, spf, dkim)
    ensures v.status == Pass <==> v.alignedBy != []
    ensures v.alignedBy == (if Counts(env, author, Discover(env, author), BySPF, spf) then [BySPF] else [])
                         + (if SomeCounts(env, author, Discover(env, author), dkim) then [ByDKIM] else [])
  {
    var found := Discover(env, author);
    if author == [] || IsPublicSuffix(env.ps, author) {
      forall m, e ensures !Counts(env, author, found, m, e) { NothingCounts(env, author, m, e); }
      return Verdict(NoneFound, None, None, []);
    }
    if !found.Discovered? {
      forall m, e ensures !Counts(env, author, found, m, e) { NothingCounts(env, author, m, e); }
      var failed := if found.DiscoveryError? then if found.temporary then TempError else PermError else NoneFound;
      return Verdict(failed, Some(author), None, []);
    }
    var alignedBy, failure := AlignedMechanisms(env, author, found, spf, dkim);
    var status :=
      if alignedBy != [] then Pass
      else if failure.Some? then if failure.value then TempError else PermError
      else Fail;
    EffectiveIsPublished(env, author);
    v := Verdict(status, Some(author), Some(EffectivePolicy(found, author)), alignedBy);
  }

  /** The authentication evidence of one message, flagged in place. */
  class Authentication {
    var spf: Evidence
    var dkim: seq<Evidence>
    var dmarc: Verdict

    constructor (spf: Evidence, dkim: seq<Evidence>)
      ensures this.spf == spf && this.dkim == dkim
    {
      this.spf, this.dkim := spf, dkim;
      this.dmarc := Verdict(NoneFound, None, None, []);
    }

    /** Every passing mechanism with a domain is flagged with whether it counts. */
    method FlagMechanisms(env: Env, author: Domain, found: Discovery)
      requires env.Valid() && found.Discovered?
      requires spf.aligned == None && forall i :: 0 <= i < |dkim| ==> dkim[i].aligned == None
      modifies this`spf, this`dkim
      ensures Flagged(env, author, found, BySPF, old(spf), spf) && |dkim| == |old(dkim)|
      ensures forall i :: 0 <= i < |dkim| ==> Flagged(env, author, found, ByDKIM, old(dkim)[i], dkim[i])
    {
      if spf.status == Pass && spf.domain.Some? {
        var a := DomainsAlign(env, spf.domain.value, author, found.record.spfStrict, found.organizational);
        spf := spf.(aligned := Some(a.Aligned?));
      }
      for i := 0 to |dkim|
        invariant |dkim| == |old(dkim)| && spf == old(spf).(aligned := spf.aligned)
        invariant Flagged(env, author, found, BySPF, old(spf), spf)
        invariant forall j :: 0 <= j < i ==> Flagged(env, author, found, ByDKIM, old(dkim)[j], dkim[j])
        invariant forall j :: i <= j < |dkim| ==> dkim[j] == old(dkim)[j]
      {
        if dkim[i].status == Pass && dkim[i].domain.Some? {
          var a := DomainsAlign(env, dkim[i].domain.value, author, found.record.dkimStrict, found.organizational);
          dkim := dkim[i := dkim[i].(aligned := Some(a.Aligned?))];
        }
      }
    }

    /** Flags every passing mechanism with its own alignment and derives the verdict from the
        same evidence; the two always agree. */
    method EvaluateAuthentication(env: Env, author: Domain)
      requires env.Valid()
      requires spf.aligned == None && forall i :: 0 <= i < |dkim| ==> dkim[i].aligned == None
      modifies this
      ensures VerdictFits(env, author, dmarc) && StatusFits(env, author, dmarc, spf, dkim)
      ensures spf.aligned == Some(true) <==> BySPF in dmarc.alignedBy
      ensures (exists i :: 0 <= i < |dkim| && dkim[i].aligned == Some(true)) <==> ByDKIM in dmarc.alignedBy
      ensures dmarc.status == Pass <==> dmarc.alignedBy != []
      ensures |dmarc.alignedBy| <= 2 && (|dmarc.alignedBy| == 2 ==> dmarc.alignedBy[0] != dmarc.alignedBy[1])
      ensures spf.status == old(spf.status) && spf.domain == old(spf.domain) && |dkim| == |old(dkim)|
      ensures forall i :: 0 <= i < |dkim| ==>
        dkim[i].status == old(dkim)[i].status && dkim[i].domain == old(dkim)[i].domain
    {
      var found := Discover(env, author);
      if found.Discovered? {
        FlagMechanisms(env, author, found);
      } else {
        forall m, e ensures !Counts(env, author, found, m, e) { NothingCounts(env, author, m, e); }
      }
      assert spf.aligned == Some(true) <==> Counts(env, author, found, BySPF, spf);
      assert forall i :: 0 <= i < |dkim| ==>
        (dkim[i].aligned == Some(true) <==> Counts(env, author, found, ByDKIM, dkim[i]));
      dmarc := Evaluate(env, author, spf, dkim);
    }
  }

  /** Evidence before and after it was flagged: only the flag moves, non-passes stay unflagged,
      and the flag says whether the evidence counts. */
  ghost predicate Flagged(env: Env, author: Domain, found: Discovery, m: Mechanism, before: Evidence, after: Evidence)
    requires env.Valid()
  {
    && after == before.(aligned := after.aligned)
    && (after.aligned.Some? <==> before.status == Pass && before.domain.Some?)
    && (after.aligned == Some(true) <==> Counts(env, author, found, m, before))
  }
}
