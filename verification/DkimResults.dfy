/** One DKIM result per signature: the verifier's results matched with the parsed tags. */
module DkimResults {
  import opened GoStrings
  import opened DkimTags

  datatype VerifyError = Temporary | Permanent | OtherError

  datatype Verification = Verification(domain: string, error: Option<VerifyError>)

  datatype DkimStatus = Pass | Fail | Policy | TempError | PermError | NoSignature

  datatype DkimResult = DkimResult(status: DkimStatus, domain: Option<string>, selector: Option<string>)

  function NormDomain(d: string): string {
    var n := Norm(d);
    if n != "" && n[|n| - 1] == '.' then n[..|n| - 1] else n
  }

  function Get(tags: TagMap, key: string): string { if key in tags then tags[key] else "" }

  function Named(s: string): Option<string> { if s == "" then None else Some(s) }

  /** The verifier's domain when it names one, else the signature's own. */
  function DomainOf(v: Option<Verification>, tags: TagMap): Option<string> {
    if v.Some? && v.value.domain != "" then Some(NormDomain(v.value.domain)) else Named(NormDomain(Get(tags, "d")))
  }

  function At<T>(list: seq<T>, i: nat, none: T): T { if i < |list| then list[i] else none }

  /** The result of signature `i`: its own verification and tags when the two lists match, and a permanent
      error with what is known of it when they do not. */
  function ResultAt(vs: seq<Option<Verification>>, tags: seq<TagMap>, error: Option<VerifyError>, i: nat): DkimResult {
    var v, t := At(vs, i, None), At(tags, i, map[]);
    var status := if |vs| == |tags| then StatusOf(v, t, error) else PermError;
    DkimResult(status, DomainOf(v, t), Named(TrimSpace(Get(t, "s"))))
  }

  /** One result for each signature either list knows. */
  predicate Maps(
    vs: seq<Option<Verification>>, tags: seq<TagMap>, error: Option<VerifyError>, results: seq<DkimResult>)
  {
    && |results| >= |vs| && |results| >= |tags| && (|results| == |vs| || |results| == |tags|)
    && forall i :: 0 <= i < |results| ==> results[i] == ResultAt(vs, tags, error, i)
  }

  /** The list of verifications may hold gaps; `error` is what the verifier returned as a whole. */
  method MapDkimResults(verifications: seq<Option<Verification>>, tags: seq<TagMap>, error: Option<VerifyError>)
    returns (results: seq<DkimResult>)
    ensures Maps(verifications, tags, error, results)
  {
    results := [];
    var count := |verifications|;
    if |tags| > count {
      count := |tags|;
    }
    for i := 0 to count
      invariant |results| == i && forall j :: 0 <= j < i ==> results[j] == ResultAt(verifications, tags, error, j)
    {
      var verification := if i < |verifications| then verifications[i] else None;
      var signatureTags := if i < |tags| then tags[i] else map[];
      var status := PermError;
      if |tags| == |verifications| {
        status := Status(verification, signatureTags, error);
      }
      var selector := Named(TrimSpace(Get(signatureTags, "s")));
      results := results + [DkimResult(status, DomainOf(verification, signatureTags), selector)];
    }
  }

  method Status(verification: Option<Verification>, tags: TagMap, error: Option<VerifyError>) returns (s: DkimStatus)
    ensures s == StatusOf(verification, tags, error)
  {
    if "l" in tags {
      return Policy;
    }
    var resultErr := error;
    if verification.Some? {
      resultErr := verification.value.error;
    }
    if resultErr.None? && verification.Some? {
      s := Pass;
    } else if resultErr == Some(Temporary) {
      s := TempError;
    } else if resultErr == Some(Permanent) {
      s := PermError;
    } else {
      s := Fail;
    }
  }

  function StatusOf(v: Option<Verification>, tags: TagMap, error: Option<VerifyError>): DkimStatus {
    if "l" in tags then Policy
    else
      match if v.Some? then v.value.error else error
      case None => if v.Some? then Pass else Fail
      case Some(Temporary) => TempError
      case Some(Permanent) => PermError
      case Some(OtherError) => Fail
  }

  /** A signature passes exactly when every signature has its verification, this one's succeeded and it
      does not limit the body length. */
  lemma PassMeans(
    vs: seq<Option<Verification>>, tags: seq<TagMap>, error: Option<VerifyError>, results: seq<DkimResult>, i: nat)
    requires Maps(vs, tags, error, results) && i < |results|
    ensures results[i].status == Pass <==>
      |vs| == |tags| && vs[i].Some? && vs[i].value.error == None && "l" !in tags[i]
  {
  }

  /** The error that counts for a signature: its own, or where the list has a gap that of the whole call. */
  predicate ErrorIs(v: Option<Verification>, whole: Option<VerifyError>, e: VerifyError) {
    match v
    case Some(own) => own.error == Some(e)
    case None => whole == Some(e)
  }

  /** Every status a signature can get besides pass, and exactly when. */
  lemma StatusMeans(
    vs: seq<Option<Verification>>, tags: seq<TagMap>, error: Option<VerifyError>, results: seq<DkimResult>, i: nat)
    requires Maps(vs, tags, error, results) && i < |results|
    ensures |vs| != |tags| ==> results[i].status == PermError
    ensures |vs| == |tags| ==>
      && (results[i].status == Policy <==> "l" in tags[i])
      && (results[i].status == TempError <==> "l" !in tags[i] && ErrorIs(vs[i], error, Temporary))
      && (results[i].status == PermError <==> "l" !in tags[i] && ErrorIs(vs[i], error, Permanent))
      && results[i].status != NoSignature
  {
  }

  /** A domain name in lower case, without blanks around it and without the dot of the root. */
  predicate IsDomain(raw: string, d: string) {
    var n := ToLower(TrimSpace(raw));
    if n != "" && n[|n| - 1] == '.' then n == d + "." else n == d
  }

  /** The names a result carries: the verifier's domain where it gave one, else the signature's own, and the
      signature's selector; a name the signature does not give is absent. */
  lemma NamesMean(
    vs: seq<Option<Verification>>, tags: seq<TagMap>, error: Option<VerifyError>, results: seq<DkimResult>, i: nat)
    requires Maps(vs, tags, error, results) && i < |results|
    ensures var r := results[i];
      var own := if i < |tags| then tags[i] else map[];
      && (if i < |vs| && vs[i].Some? && vs[i].value.domain != ""
          then r.domain.Some? && IsDomain(vs[i].value.domain, r.domain.value)
          else if "d" in own && !IsDomain(own["d"], "") then r.domain.Some? && IsDomain(own["d"], r.domain.value)
          else r.domain == None)
      && r.selector == (if "s" in own && TrimSpace(own["s"]) != "" then Some(TrimSpace(own["s"])) else None)
  {
    var own := if i < |tags| then tags[i] else map[];
    NormDomainIs(Get(own, "d"));
    if i < |vs| && vs[i].Some? {
      NormDomainIs(vs[i].value.domain);
    }
  }

  lemma NormDomainIs(raw: string)
    ensures IsDomain(raw, NormDomain(raw)) && (NormDomain(raw) == "" <==> IsDomain(raw, ""))
  {
    var n := Norm(raw);
    if n != "" && n[|n| - 1] == '.' {
      assert n == n[..|n| - 1] + ".";
    }
  }

  /** An independent safe signature is not touched by what another signature on the message says. */
  lemma OthersDoNotMatter(
    vs: seq<Option<Verification>>, tags: seq<TagMap>, error: Option<VerifyError>, results: seq<DkimResult>,
    vs': seq<Option<Verification>>, tags': seq<TagMap>, results': seq<DkimResult>, i: nat)
    requires Maps(vs, tags, error, results) && Maps(vs', tags', error, results')
    requires |vs| == |tags| && |vs'| == |tags'| && i < |vs| && i < |vs'| && vs[i] == vs'[i] && tags[i] == tags'[i]
    ensures results[i].status == results'[i].status
  {
  }

  method AggregateLegacyDkim(results: seq<DkimResult>) returns (s: DkimStatus)
    ensures s == Pass <==> exists r :: r in results && r.status == Pass
    ensures s != Pass ==> s == if results == [] then NoSignature else results[0].status
  {
    if |results| == 0 {
      return NoSignature;
    }
    for i := 0 to |results|
      invariant forall j :: 0 <= j < i ==> results[j].status != Pass
    {
      if results[i].status == Pass {
        return results[i].status;
      }
    }
    s := results[0].status;
  }

  // ---- From the message to the verdicts ----

  lemma {:induction false} LimitTagIsSeen(entries: seq<string>, k: nat)
    requires k < |entries| && Sets(entries[k], "l")
    ensures "l" in Tags(entries)
  {
    var init, last := entries[..|entries| - 1], entries[|entries| - 1];
    if k < |init| {
      LimitTagIsSeen(init, k);
    }
    TagsSnoc(init, last, "l");
    assert entries == init + [last];
  }

  /** End to end over a header block: when the verifier reports one result for each DKIM-Signature field,
      the field numbered `i` passes only if its text sets no body-length tag anywhere; and when the counts
      differ nothing passes. */
  lemma LimitedNeverPasses(
    fs: seq<Field>, body: seq<string>, vs: seq<Option<Verification>>, error: Option<VerifyError>,
    results: seq<DkimResult>, i: nat)
    requires AllWellFormed(fs) && Maps(vs, Signatures(Lines(fs) + [""] + body), error, results) && i < |results|
    ensures results[i].status == Pass ==>
      CountSignatures(fs) == |vs| && i < |FieldsTags(fs)| && "l" !in FieldsTags(fs)[i]
  {
    ReadsFieldByField(fs, body);
    OneMapPerSignature(fs);
  }

  /** A tag list that names the body-length tag in any entry, wherever it is folded, has the tag. */
  lemma AnyLimitCounts(header: string, k: nat)
    requires k < |Split(header, ';')| && Sets(Split(header, ';')[k], "l")
    ensures "l" in TagValues(header)
  {
    LimitTagIsSeen(Split(header, ';'), k);
  }
}
