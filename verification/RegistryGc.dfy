/**
Deletion of registry tags, which the registry does only by manifest, and the garbage
collection of derived tags that no snapshot refers to any more.
*/
module RegistryGc {
  import opened Sequences
  import opened Wrappers

  type Digest = string

  datatype Ref = Ref(repo: string, tag: string)

  type Tags = map<Ref, Digest>

  /** Deleting a manifest takes every tag of the repository that points to it along. */
  function WithoutManifest(tags: Tags, repo: string, digest: Digest): Tags {
    map r | r in tags && !(r.repo == repo && tags[r] == digest) :: tags[r]
  }

  /** How the calls of one deletion turn out: the lookup of the tag, the listing, each sibling's lookup, the delete. */
  datatype Calls = Calls(found: bool, listed: bool, probed: string -> bool, fate: Reply)

  datatype Outcome = Deleted | SharesManifest | Failed

  predicate SharedWith(tags: Tags, r: Ref, sibling: string) {
    r in tags && sibling != r.tag && Ref(r.repo, sibling) in tags && tags[Ref(r.repo, sibling)] == tags[r]
  }

  /** The repository's own listing: every tag it holds, and perhaps some it cannot resolve. */
  ghost predicate Lists(tags: Tags, repo: string, listing: seq<string>) {
    forall r | r in tags && r.repo == repo :: r.tag in listing
  }

  /** A sibling the loop stops at: it cannot be resolved, or it points to the same manifest. */
  predicate Stops(tags: Tags, r: Ref, probed: string -> bool, sibling: string) {
    r in tags && sibling != r.tag &&
    (!probed(sibling) || Ref(r.repo, sibling) !in tags || tags[Ref(r.repo, sibling)] == tags[r])
  }

  /** The first of the listed siblings the loop stops at. */
  ghost predicate FirstStop(tags: Tags, r: Ref, probed: string -> bool, listing: seq<string>, i: nat) {
    i < |listing| && Stops(tags, r, probed, listing[i]) && forall j | 0 <= j < i :: !Stops(tags, r, probed, listing[j])
  }

  /** The calls before the deletion succeed, and every listed sibling resolves to another manifest. */
  predicate Deletable(tags: Tags, r: Ref, listing: seq<string>, calls: Calls) {
    && calls.found && r in tags && calls.listed
    && forall s | s in listing && s != r.tag ::
         calls.probed(s) && Ref(r.repo, s) in tags && tags[Ref(r.repo, s)] != tags[r]
  }

  /** The first sibling it stops at resolves to the same manifest. */
  ghost predicate Protected(tags: Tags, r: Ref, listing: seq<string>, calls: Calls) {
    && calls.found && r in tags && calls.listed
    && exists i: nat :: FirstStop(tags, r, calls.probed, listing, i) && calls.probed(listing[i])
                        && SharedWith(tags, r, listing[i])
  }

  /** When nobody else has the manifest, deleting it takes exactly one tag. */
  lemma OnlyTheTagGoes(tags: Tags, r: Ref)
    requires r in tags
    ensures WithoutManifest(tags, r.repo, tags[r]) == tags - {r} <==> forall sibling :: !SharedWith(tags, r, sibling)
  {
    var after := WithoutManifest(tags, r.repo, tags[r]);
    if forall sibling :: !SharedWith(tags, r, sibling) {
      forall x | x in tags ensures x in after <==> x != r {
        assert !SharedWith(tags, r, x.tag);
        assert x == Ref(x.repo, x.tag);
      }
      assert after == tags - {r};
    } else {
      var sibling :| SharedWith(tags, r, sibling);
      assert Ref(r.repo, sibling) !in after && Ref(r.repo, sibling) in tags - {r};
    }
  }

  /** So a tag that is planted on the manifest after the siblings were probed is lost with it. */
  lemma TagPlantedAfterTheProbeIsLost(tags: Tags, r: Ref, planted: string)
    requires r in tags && planted != r.tag
    ensures var later := tags[Ref(r.repo, planted) := tags[r]];
      Ref(r.repo, planted) !in WithoutManifest(later, r.repo, later[r])
  {
  }

  // ---------------------------------------------------------------------------
  // Derived tags
  // ---------------------------------------------------------------------------

  const ALGORITHM := "sha256:"

  function Hex(digest: Digest): string {
    if ALGORITHM <= digest then digest[|ALGORITHM|..] else digest
  }

  /** TagByDigest's tag: the first sixteen characters of the digest. */
  function DerivedTag(digest: Digest): (tag: Option<string>)
    ensures tag.Some? <==> |Hex(digest)| >= 16
    ensures tag.Some? ==> "d-" <= tag.value
  {
    if |Hex(digest)| < 16 then None else Some("d-" + Hex(digest)[..16])
  }

  /** With or without its algorithm, a digest is tagged by its first sixteen hexadecimal digits, if it has as many. */
  lemma DerivedTagIsSixteenDigits(hex: string)
    requires !("sha256:" <= hex)
    ensures DerivedTag("sha256:" + hex) == DerivedTag(hex) == if |hex| < 16 then None else Some("d-" + hex[..16])
  {
    assert ("sha256:" + hex)[7..] == hex;
  }

  /** The reference TagByDigest plants for a source. */
  function DerivedRef(tags: Tags, source: Ref): Option<Ref> {
    if source !in tags || DerivedTag(tags[source]).None? then None
    else Some(Ref(source.repo, DerivedTag(tags[source]).value))
  }

  /** A tag just planted on its source's manifest shares it, so neither can be deleted while the other stands. */
  lemma DerivedTagSharesItsSource(tags: Tags, source: Ref)
    requires DerivedRef(tags, source).Some? && DerivedRef(tags, source).value != source
    ensures var derived := DerivedRef(tags, source).value;
      var after := tags[derived := tags[source]];
      SharedWith(after, derived, source.tag) && SharedWith(after, source, derived.tag)
  {
    assert Ref(source.repo, DerivedRef(tags, source).value.tag) == DerivedRef(tags, source).value;
  }

  /**
   * A derived tag keeps its digest when another source of its repository is tagged, exactly when the two digests
   * are the same or differ within their first sixteen characters.
   */
  lemma DerivedTagSurvivesIffNoCollision(tags: Tags, a: Ref, b: Ref)
    requires a.repo == b.repo && DerivedRef(tags, a).Some? && DerivedRef(tags, b).Some?
    requires DerivedRef(tags, a).value != b
    ensures var planted := tags[DerivedRef(tags, a).value := tags[a]];
      var later := planted[DerivedRef(planted, b).value := planted[b]];
      later[DerivedRef(tags, a).value] == tags[a] <==> tags[a] == tags[b] || Hex(tags[a])[..16] != Hex(tags[b])[..16]
  {
    var x, y := DerivedTag(tags[a]).value, DerivedTag(tags[b]).value;
    assert x[2..] == Hex(tags[a])[..16] && y[2..] == Hex(tags[b])[..16];
  }

  // ---------------------------------------------------------------------------
  // The verdicts of a collection
  // ---------------------------------------------------------------------------

  datatype Verdict = Gone | InUse | Shared | Broken

  /** The candidates with a given verdict, in order. */
  function Select(candidates: seq<Ref>, verdicts: seq<Verdict>, v: Verdict): seq<Ref>
    requires |candidates| == |verdicts|
  {
    if candidates == [] then []
    else
      var last := |candidates| - 1;
      Select(candidates[..last], verdicts[..last], v) + if verdicts[last] == v then [candidates[last]] else []
  }

  lemma SelectSnoc(candidates: seq<Ref>, verdicts: seq<Verdict>, r: Ref, was: Verdict, v: Verdict)
    requires |candidates| == |verdicts|
    ensures Select(candidates + [r], verdicts + [was], v) ==
            Select(candidates, verdicts, v) + if was == v then [r] else []
  {
    assert (candidates + [r])[..|candidates|] == candidates && (verdicts + [was])[..|verdicts|] == verdicts;
  }

  /** The report of a collection: what was deleted, kept, skipped and failed. */
  datatype Report = Report(deleted: seq<Ref>, kept: seq<Ref>, skipped: seq<Ref>, failed: seq<Ref>)

  ghost predicate Reports(candidates: seq<Ref>, verdicts: seq<Verdict>, report: Report)
    requires |candidates| == |verdicts|
  {
    report == Report(Select(candidates, verdicts, Gone), Select(candidates, verdicts, InUse),
                     Select(candidates, verdicts, Shared), Select(candidates, verdicts, Broken))
  }

  function Extend(report: Report, r: Ref, v: Verdict): Report {
    match v
    case Gone => report.(deleted := report.deleted + [r])
    case InUse => report.(kept := report.kept + [r])
    case Shared => report.(skipped := report.skipped + [r])
    case Broken => report.(failed := report.failed + [r])
  }

  lemma ReportOne(candidates: seq<Ref>, verdicts: seq<Verdict>, report: Report, r: Ref, v: Verdict)
    requires |candidates| == |verdicts| && Reports(candidates, verdicts, report)
    ensures Reports(candidates + [r], verdicts + [v], Extend(report, r, v))
  {
    SelectSnoc(candidates, verdicts, r, v, Gone);
    SelectSnoc(candidates, verdicts, r, v, InUse);
    SelectSnoc(candidates, verdicts, r, v, Shared);
    SelectSnoc(candidates, verdicts, r, v, Broken);
    hide Select;
  }

  lemma TimesSelected(candidates: seq<Ref>, verdicts: seq<Verdict>, v: Verdict, r: Ref)
    requires |candidates| == |verdicts| && candidates != []
    ensures var last := |candidates| - 1;
      Times(Select(candidates, verdicts, v), r) ==
      Times(Select(candidates[..last], verdicts[..last], v), r) +
      if verdicts[last] == v && candidates[last] == r then 1 else 0
  {
    var last := |candidates| - 1;
    var front := Select(candidates[..last], verdicts[..last], v);
    assert front + [] == front && (front + [candidates[last]])[..|front|] == front;
  }

  /** Deleted, kept, skipped and failed partition the candidates: each is reported as often as it is one. */
  lemma {:induction false} VerdictsPartition(candidates: seq<Ref>, verdicts: seq<Verdict>, r: Ref)
    requires |candidates| == |verdicts|
    ensures Times(Select(candidates, verdicts, Gone), r) + Times(Select(candidates, verdicts, InUse), r) +
            Times(Select(candidates, verdicts, Shared), r) + Times(Select(candidates, verdicts, Broken), r) ==
            Times(candidates, r)
  {
    if candidates != [] {
      hide Select;
      var last := |candidates| - 1;
      VerdictsPartition(candidates[..last], verdicts[..last], r);
      TimesSelected(candidates, verdicts, Gone, r);
      TimesSelected(candidates, verdicts, InUse, r);
      TimesSelected(candidates, verdicts, Shared, r);
      TimesSelected(candidates, verdicts, Broken, r);
    }
  }

  /** Some candidate with this reference got the verdict. */
  ghost predicate Judged(candidates: seq<Ref>, verdicts: seq<Verdict>, r: Ref, v: Verdict)
    requires |candidates| == |verdicts|
  {
    exists i | 0 <= i < |candidates| :: candidates[i] == r && verdicts[i] == v
  }

  lemma JudgedSnoc(candidates: seq<Ref>, verdicts: seq<Verdict>, x: Ref, was: Verdict)
    requires |candidates| == |verdicts|
    ensures forall r, v :: Judged(candidates + [x], verdicts + [was], r, v) <==>
                           Judged(candidates, verdicts, r, v) || (r == x && v == was)
  {
    forall r, v ensures Judged(candidates + [x], verdicts + [was], r, v) <==>
                        Judged(candidates, verdicts, r, v) || (r == x && v == was)
    {
      if Judged(candidates, verdicts, r, v) {
        var i :| 0 <= i < |candidates| && candidates[i] == r && verdicts[i] == v;
        assert (candidates + [x])[i] == r && (verdicts + [was])[i] == v;
      }
      assert (candidates + [x])[|candidates|] == x && (verdicts + [was])[|candidates|] == was;
    }
  }

  /** What a collection has done to the tags so far. */
  ghost predicate Collected(before: Tags, tags: Tags, candidates: seq<Ref>, verdicts: seq<Verdict>, answered: bool)
    requires |candidates| == |verdicts|
  {
    && (forall r | r in tags :: r in before && tags[r] == before[r])
    && (forall r | r in before && r !in tags && !Judged(candidates, verdicts, r, Gone) ::
          !answered && Judged(candidates, verdicts, r, Broken))
    && (forall r | Judged(candidates, verdicts, r, Gone) :: r in before && r !in tags)
  }

  lemma CollectOne(before: Tags, tags: Tags, tags': Tags, candidates: seq<Ref>, verdicts: seq<Verdict>, r: Ref,
                   v: Verdict, answered: bool)
    requires |candidates| == |verdicts| && Collected(before, tags, candidates, verdicts, answered)
    requires match v
      case Gone => r in tags && tags' == tags - {r}
      case Broken => tags' == tags || (!answered && tags' == tags - {r})
      case _ => tags' == tags
    ensures Collected(before, tags', candidates + [r], verdicts + [v], answered)
  {
    JudgedSnoc(candidates, verdicts, r, v);
    hide Judged;
  }

  /** What one candidate's turn does to the tags, and the verdict on it. */
  ghost predicate Treated(before: Tags, after: Tags, r: Ref, used: bool, listing: seq<string>, calls: Calls,
                          v: Verdict)
  {
    var goes := !used && Deletable(before, r, listing, calls);
    && after == (if goes && !calls.fate.Refused? then before - {r} else before)
    && (v == InUse <==> used)
    && (v == Gone <==> goes && calls.fate.Answered?)
    && (v == Shared <==> !used && Protected(before, r, listing, calls))
  }

  lemma TreatedOnce(before: Tags, after: Tags, r: Ref, used: bool, listing: seq<string>, calls: Calls, v: Verdict)
    requires Treated(before, after, r, used, listing, calls, v)
    ensures match v
      case Gone => r in before && after == before - {r}
      case Broken => after == before || (calls.fate == Lost && after == before - {r})
      case _ => after == before
  {
  }

  /** Each candidate in its turn, from the tags as the ones before have left them. */
  ghost predicate AllTreated(candidates: seq<Ref>, inUse: set<Ref>, listing: (Tags, string) -> seq<string>,
                             calls: nat -> Calls, verdicts: seq<Verdict>, stages: seq<Tags>)
  {
    && |verdicts| == |candidates| && |stages| == |candidates| + 1
    && forall i | 0 <= i < |candidates| ::
         Treated(stages[i], stages[i + 1], candidates[i], candidates[i] in inUse,
                 listing(stages[i], candidates[i].repo), calls(i), verdicts[i])
  }

  /** Without deleting, every candidate that is not in use is reported as deleted. */
  ghost predicate DryRun(candidates: seq<Ref>, inUse: set<Ref>, verdicts: seq<Verdict>) {
    && |verdicts| == |candidates|
    && forall i | 0 <= i < |candidates| :: verdicts[i] == if candidates[i] in inUse then InUse else Gone
  }

  lemma DryRunOne(candidates: seq<Ref>, inUse: set<Ref>, verdicts: seq<Verdict>, r: Ref, v: Verdict)
    requires DryRun(candidates, inUse, verdicts) && v == if r in inUse then InUse else Gone
    ensures DryRun(candidates + [r], inUse, verdicts + [v])
  {
  }

  /** What such turns come to. */
  lemma {:induction false} TreatedIsCollected(candidates: seq<Ref>, inUse: set<Ref>,
                                              listing: (Tags, string) -> seq<string>, calls: nat -> Calls,
                                              verdicts: seq<Verdict>, stages: seq<Tags>, answered: bool)
    requires AllTreated(candidates, inUse, listing, calls, verdicts, stages)
    requires answered ==> forall i: nat :: calls(i).fate != Lost
    ensures Collected(stages[0], stages[|candidates|], candidates, verdicts, answered)
    ensures forall i | 0 <= i < |candidates| :: verdicts[i] == InUse <==> candidates[i] in inUse
  {
    if candidates != [] {
      var n := |candidates| - 1;
      var r := candidates[n];
      TreatedIsCollected(candidates[..n], inUse, listing, calls, verdicts[..n], stages[..n + 1], answered);
      assert Treated(stages[n], stages[n + 1], r, r in inUse, listing(stages[n], r.repo), calls(n), verdicts[n]);
      hide Treated, Collected;
      TreatedOnce(stages[n], stages[n + 1], r, r in inUse, listing(stages[n], r.repo), calls(n), verdicts[n]);
      CollectOne(stages[0], stages[n], stages[n + 1], candidates[..n], verdicts[..n], r, verdicts[n], answered);
      assert candidates[..n] + [r] == candidates && verdicts[..n] + [verdicts[n]] == verdicts;
    }
  }

  lemma TreatOne(candidates: seq<Ref>, inUse: set<Ref>, listing: (Tags, string) -> seq<string>, calls: nat -> Calls,
                 verdicts: seq<Verdict>, stages: seq<Tags>, r: Ref, v: Verdict, after: Tags)
    requires AllTreated(candidates, inUse, listing, calls, verdicts, stages)
    requires var n := |candidates|;
      Treated(stages[n], after, r, r in inUse, listing(stages[n], r.repo), calls(n), v)
    ensures AllTreated(candidates + [r], inUse, listing, calls, verdicts + [v], stages + [after])
  {
    hide Treated;
  }

  class Registry {
    var tags: Tags

    constructor ()
      ensures tags == map[]
    {
      tags := map[];
    }

    /** TagByDigest: plants the derived tag next to the source, and moves no other tag. */
    method TagByDigest(source: Ref, found: bool, tagged: bool) returns (derived: Option<Ref>)
      modifies this
      ensures derived.Some? <==> found && tagged && source in old(tags) && DerivedTag(old(tags)[source]).Some?
      ensures derived == if found && tagged then DerivedRef(old(tags), source) else None
      ensures derived.None? ==> tags == old(tags)
      ensures derived.Some? ==>
                && derived.value == Ref(source.repo, DerivedTag(old(tags)[source]).value)
                && tags == old(tags)[derived.value := old(tags)[source]]
    {
      if !found || source !in tags {
        return None;
      }
      var tag := DerivedTag(tags[source]);
      if tag.None? || !tagged {
        return None;
      }
      tags := tags[Ref(source.repo, tag.value) := tags[source]];
      return Some(Ref(source.repo, tag.value));
    }

    /**
     * DeleteTag: it refuses at the first sibling that it cannot resolve or that shares the manifest, and so the
     * deletion by manifest takes the named tag and no other.
     */
    method DeleteTag(r: Ref, listing: seq<string>, calls: Calls) returns (outcome: Outcome)
      requires Lists(tags, r.repo, listing)
      modifies this
      // The named tag goes, and no other, exactly when nothing stands against it ...
      ensures tags == if Deletable(old(tags), r, listing, calls) && !calls.fate.Refused? then old(tags) - {r}
                      else old(tags)
      ensures Deletable(old(tags), r, listing, calls) ==> forall s :: !SharedWith(old(tags), r, s)
      // ... and the answer says so.
      ensures outcome.Deleted? <==> Deletable(old(tags), r, listing, calls) && calls.fate.Answered?
      ensures outcome.SharesManifest? <==> Protected(old(tags), r, listing, calls)
    {
      if !calls.found || r !in tags {
        return Failed;
      }
      var target := tags[r];
      if !calls.listed {
        return Failed;
      }
      for i := 0 to |listing|
        invariant forall j | 0 <= j < i :: !Stops(tags, r, calls.probed, listing[j])
      {
        var sibling := listing[i];
        if sibling != r.tag {
          if !calls.probed(sibling) || Ref(r.repo, sibling) !in tags {
            assert FirstStop(tags, r, calls.probed, listing, i);
            return Failed;
          }
          if tags[Ref(r.repo, sibling)] == target {
            assert FirstStop(tags, r, calls.probed, listing, i) && SharedWith(tags, r, sibling);
            return SharesManifest;
          }
        }
      }
      forall s ensures !SharedWith(tags, r, s) {
        assert SharedWith(tags, r, s) ==> Ref(r.repo, s).tag in listing && Stops(tags, r, calls.probed, s);
      }
      OnlyTheTagGoes(tags, r);
      if calls.fate.Refused? {
        return Failed;
      }
      tags := WithoutManifest(tags, r.repo, target);
      return if calls.fate.Answered? then Deleted else Failed;
    }

    /**
     * The collection loop: `inUse` are the snapshots' images, `listing` is how the registry lists a repository,
     * and `calls` are the calls made for each candidate in turn. A tag in use is never touched, and without lost
     * answers exactly the deleted candidates go.
     */
    method Collect(candidates: seq<Ref>, inUse: set<Ref>, dryRun: bool, listing: (Tags, string) -> seq<string>,
                   calls: nat -> Calls)
      returns (report: Report, ghost verdicts: seq<Verdict>, ghost stages: seq<Tags>)
      requires forall tags, repo :: Lists(tags, repo, listing(tags, repo))
      modifies this
      ensures |verdicts| == |candidates| && Reports(candidates, verdicts, report)
      ensures forall i | 0 <= i < |candidates| :: verdicts[i] == InUse <==> candidates[i] in inUse
      ensures forall r | r in inUse && r in old(tags) :: r in tags && tags[r] == old(tags)[r]
      ensures dryRun ==> tags == old(tags) && DryRun(candidates, inUse, verdicts)
      ensures !dryRun ==> Collected(old(tags), tags, candidates, verdicts, forall i: nat :: calls(i).fate != Lost)
      // Candidate by candidate: each that is not in use is deleted exactly when it can be, from the tags as they are.
      ensures |stages| == |candidates| + 1 && stages[0] == old(tags) && stages[|candidates|] == tags
      ensures !dryRun ==> AllTreated(candidates, inUse, listing, calls, verdicts, stages)
    {
      hide Collected, Lists, Deletable, Protected;
      var deleted, kept, skipped, failed: seq<Ref> := [], [], [], [];
      report, verdicts, stages := Report([], [], [], []), [], [tags];
      for i := 0 to |candidates|
        invariant |verdicts| == i && |stages| == i + 1 && stages[0] == old(tags) && stages[i] == tags
        invariant report == Report(deleted, kept, skipped, failed) && Reports(candidates[..i], verdicts, report)
        invariant dryRun ==> tags == old(tags) && DryRun(candidates[..i], inUse, verdicts)
        invariant !dryRun ==> AllTreated(candidates[..i], inUse, listing, calls, verdicts, stages)
      {
        hide Reports, AllTreated, DryRun, Lists, Deletable, Protected;
        var r := candidates[i];
        ghost var before := tags;
        ghost var verdict: Verdict;
        if r in inUse {
          kept := kept + [r];
          verdict := InUse;
        } else if dryRun {
          deleted := deleted + [r];
          verdict := Gone;
        } else {
          var outcome := DeleteTag(r, listing(tags, r.repo), calls(i));
          match outcome {
            case SharesManifest =>
              skipped := skipped + [r];
              verdict := Shared;
            case Failed =>
              failed := failed + [r];
              verdict := Broken;
            case Deleted =>
              deleted := deleted + [r];
              verdict := Gone;
          }
        }
        ReportOne(candidates[..i], verdicts, report, r, verdict);
        report := Report(deleted, kept, skipped, failed);
        assert candidates[..i + 1] == candidates[..i] + [r];
        if dryRun {
          DryRunOne(candidates[..i], inUse, verdicts, r, verdict);
        } else {
          TreatOne(candidates[..i], inUse, listing, calls, verdicts, stages, r, verdict, tags);
        }
        verdicts, stages := verdicts + [verdict], stages + [tags];
      }
      assert candidates[..|candidates|] == candidates;
      if !dryRun {
        ghost var answered := forall i: nat :: calls(i).fate != Lost;
        TreatedIsCollected(candidates, inUse, listing, calls, verdicts, stages, answered);
        InUseStays(old(tags), tags, candidates, verdicts, inUse, answered);
      }
    }
  }

  lemma InUseStays(before: Tags, tags: Tags, candidates: seq<Ref>, verdicts: seq<Verdict>, inUse: set<Ref>,
                   answered: bool)
    requires |candidates| == |verdicts| && Collected(before, tags, candidates, verdicts, answered)
    requires forall i | 0 <= i < |candidates| :: verdicts[i] == InUse <==> candidates[i] in inUse
    ensures forall r | r in inUse && r in before :: r in tags && tags[r] == before[r]
  {
    forall r | r in inUse && r in before ensures r in tags {
      assert !Judged(candidates, verdicts, r, Gone) && !Judged(candidates, verdicts, r, Broken);
    }
  }
}
