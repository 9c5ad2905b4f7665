/** The sampling client (pkg/observability/trace.go): the span lists of the caller's objects are
    rewritten in place, and objects left without spans are not passed on. */
module SamplerClient {
  import opened Basics
  import opened Sampler

  class InstLibSpans {
    var spans: seq<Span>
  }

  class ResourceSpans {
    var libs: seq<InstLibSpans?>
  }

  ghost function Kept(spans: seq<Span>): seq<Span> {
    Survivors(spans, spans)
  }

  /** What the libraries held at first; each holds that still, or the spans kept of it. */
  type Memory = map<InstLibSpans, seq<Span>>

  ghost predicate Remembered(libs: seq<InstLibSpans?>, was: Memory)
    reads libs
  {
    forall l :: l in libs && l != null ==>
      l in was && IsForest(was[l]) && (l.spans == was[l] || l.spans == Kept(was[l]))
  }

  ghost predicate AllKept(libs: seq<InstLibSpans?>, was: Memory)
    reads libs
  {
    forall l :: l in libs && l != null ==> l in was && l.spans == Kept(was[l])
  }

  ghost function FirstView(lib: InstLibSpans?, was: Memory): Library {
    if lib == null || lib !in was then None else Some(was[lib])
  }

  ghost function FirstViews(libs: seq<InstLibSpans?>, was: Memory): (vs: seq<Library>)
    ensures |vs| == |libs| && forall i :: 0 <= i < |vs| ==> vs[i] == FirstView(libs[i], was)
  {
    seq(|libs|, i requires 0 <= i < |libs| => FirstView(libs[i], was))
  }

  /** One library: its list of spans is replaced. One that was sampled before stays as it is. */
  method SampleOne(lib: InstLibSpans, ghost was: Memory)
    requires lib in was && IsForest(was[lib]) && (lib.spans == was[lib] || lib.spans == Kept(was[lib]))
    modifies lib
    ensures lib.spans == Kept(was[lib])
  {
    SamplingIsIdempotent(was[lib]);
    lib.spans := SampleSpans(lib.spans);
  }

  ghost function KeptView(lib: InstLibSpans?, was: Memory): Library {
    if lib == null || lib !in was then None else Some(Kept(was[lib]))
  }

  ghost function KeptViews(libs: seq<InstLibSpans?>, was: Memory): seq<Library> {
    seq(|libs|, i requires 0 <= i < |libs| => KeptView(libs[i], was))
  }

  /** What is left of the libraries before the i-th, in `rlibs`, and of those from there on is what
      is left of `done` and of the libraries with the i-th. */
  ghost predicate LeavesSame(libs: seq<InstLibSpans?>, i: nat, done: seq<InstLibSpans>, rlibs: seq<InstLibSpans>,
                             was: Memory)
    requires i < |libs|
  {
    KeptViews(rlibs, was) + LiveLibraries(FirstViews(libs, was)[i + 1..])
    == KeptViews(done, was) + LiveLibraries(FirstViews(libs, was)[i..])
  }

  lemma KeptViewsNext(done: seq<InstLibSpans>, lib: InstLibSpans, was: Memory)
    requires lib in was
    ensures KeptViews(done + [lib], was) == KeptViews(done, was) + [Some(Kept(was[lib]))]
  {
  }

  lemma OneKept(libs: seq<InstLibSpans?>, i: nat, done: seq<InstLibSpans>, was: Memory)
    requires i < |libs| && (libs[i] != null ==> libs[i] in was)
    ensures libs[i] == null || Kept(was[libs[i]]) == [] ==> LeavesSame(libs, i, done, done, was)
    ensures libs[i] != null && Kept(was[libs[i]]) != [] ==> LeavesSame(libs, i, done, done + [libs[i]], was)
  {
    LiveLibrariesNext(KeptViews(done, was), FirstViews(libs, was), i);
    if libs[i] != null {
      KeptViewsNext(done, libs[i], was);
    }
  }

  method SampleNext(libs: seq<InstLibSpans?>, i: nat, done: seq<InstLibSpans>, ghost was: Memory)
    returns (rlibs: seq<InstLibSpans>)
    requires i < |libs| && Remembered(libs, was) && AllKept(libs[..i], was)
    requires forall l :: l in done ==> l in libs
    modifies libs
    ensures Remembered(libs, was) && AllKept(libs[..i + 1], was)
    ensures forall l :: l in rlibs ==> l in libs
    ensures LeavesSame(libs, i, done, rlibs, was)
  {
    OneKept(libs, i, done, was);
    TakeNext(libs, i);
    rlibs := done;
    var lib := libs[i];
    if lib != null {
      SampleOne(lib, was);
      if |lib.spans| != 0 {
        rlibs := done + [lib];
      }
    }
  }

  /** The libraries of one resource, where one library may be listed more than once. */
  method SampleLibs(libs: seq<InstLibSpans?>, ghost was: Memory) returns (rlibs: seq<InstLibSpans>)
    requires Remembered(libs, was)
    modifies libs
    ensures AllKept(libs, was) && AllKept(rlibs, was) && forall l :: l in rlibs ==> l in libs
    ensures KeptViews(rlibs, was) == LiveLibraries(FirstViews(libs, was))
  {
    rlibs := [];
    var i := 0;
    while i < |libs|
      invariant 0 <= i <= |libs| && Remembered(libs, was) && AllKept(libs[..i], was)
      invariant forall l :: l in rlibs ==> l in libs
      invariant KeptViews(rlibs, was) + LiveLibraries(FirstViews(libs, was)[i..])
             == LiveLibraries(FirstViews(libs, was))
    {
      rlibs := SampleNext(libs, i, rlibs, was);
      i := i + 1;
    }
    assert libs[..i] == libs;
    assert KeptViews(rlibs, was) + [] == KeptViews(rlibs, was);
  }

  // ---- Resources ----

  /** One resource: when libraries are left they become its list; otherwise its list stays. */
  method SampleResource(res: ResourceSpans, ghost was: Memory) returns (live: bool)
    requires Remembered(res.libs, was)
    modifies res, res.libs
    ensures AllKept(old(res.libs), was)
    ensures live <==> !Dead(old(res.libs), was)
    ensures live ==> KeptViews(res.libs, was) == LiveLibraries(FirstViews(old(res.libs), was))
    ensures forall l :: l in res.libs ==> l in old(res.libs)
    ensures !live ==> res.libs == old(res.libs)
  {
    var rlibs := SampleLibs(res.libs, was);
    live := |rlibs| != 0;
    if live {
      res.libs := rlibs;
    }
  }

  /** The lists of libraries the resources held at first. */
  type Lists = map<ResourceSpans, seq<InstLibSpans?>>

  ghost function FirstResource(res: ResourceSpans?, first: Lists, was: Memory): Resource {
    if res == null || res !in first then None else Some(FirstViews(first[res], was))
  }

  ghost function FirstResources(resources: seq<ResourceSpans?>, first: Lists, was: Memory): (vs: seq<Resource>)
    ensures |vs| == |resources|
    ensures forall i :: 0 <= i < |vs| ==> vs[i] == FirstResource(resources[i], first, was)
  {
    seq(|resources|, i requires 0 <= i < |resources| => FirstResource(resources[i], first, was))
  }

  ghost function SentViews(sent: seq<ResourceSpans>, was: Memory): (vs: seq<Resource>)
    reads sent
    ensures |vs| == |sent|
    ensures forall i :: 0 <= i < |vs| ==> vs[i] == Some(KeptViews(sent[i].libs, was))
  {
    seq(|sent|, i requires 0 <= i < |sent| reads sent => Some(KeptViews(sent[i].libs, was)))
  }

  /** `first` and `was` are what resources and libraries hold now. */
  ghost predicate Snapshot(resources: seq<ResourceSpans?>, first: Lists, was: Memory)
    reads resources, set r, l | r in resources && r != null && l in r.libs && l != null :: l
  {
    forall r :: r in resources && r != null ==>
      && r in first && r.libs == first[r]
      && forall l :: l in r.libs && l != null ==> l in was && l.spans == was[l]
  }

  ghost predicate Forests(resources: seq<ResourceSpans?>, first: Lists, was: Memory) {
    forall r, l :: r in resources && r != null && r in first && l in first[r] && l != null && l in was ==>
      IsForest(was[l])
  }

  ghost function Libs(resources: seq<ResourceSpans?>, first: Lists): set<InstLibSpans?> {
    set r, l | r in resources && r != null && r in first && l in first[r] :: l
  }

  ghost predicate KnownLibs(libs: set<InstLibSpans?>, was: Memory)
    reads libs
  {
    forall l :: l in libs && l != null ==>
      l in was && IsForest(was[l]) && (l.spans == was[l] || l.spans == Kept(was[l]))
  }

  ghost predicate KeptLibs(libs: set<InstLibSpans?>, was: Memory)
    reads libs
  {
    forall l :: l in libs && l != null ==> l in was && l.spans == Kept(was[l])
  }

  lemma LibsNext(resources: seq<ResourceSpans?>, i: nat, first: Lists)
    requires i < |resources|
    ensures Libs(resources[..i + 1], first) == Libs(resources[..i], first) +
              if resources[i] == null || resources[i] !in first then {} else set l | l in first[resources[i]]
  {
    TakeNext(resources, i);
  }

  /** No library of the list is left with spans. */
  ghost predicate Dead(libs: seq<InstLibSpans?>, was: Memory) {
    LiveLibraries(FirstViews(libs, was)) == []
  }

  /** The list holds what it held at first, or what is left of that. */
  ghost predicate ListSays(libs: seq<InstLibSpans?>, start: seq<InstLibSpans?>, was: Memory) {
    || libs == start
    || (KeptViews(libs, was) == LiveLibraries(FirstViews(start, was)) && forall l :: l in libs ==> l in start)
  }

  lemma {:induction false} LiveElements(views: seq<Library>)
    ensures forall v :: v in LiveLibraries(views) ==> v.Some? && v.value != []
  {
    if views != [] {
      LiveElements(views[1..]);
    }
  }

  /** What is left stays as it is when it is sampled again. */
  lemma {:induction false} LiveAgain(libs: seq<InstLibSpans?>, was: Memory)
    requires forall v :: v in KeptViews(libs, was) ==> v.Some? && v.value != []
    ensures LiveLibraries(FirstViews(libs, was)) == KeptViews(libs, was)
  {
    if libs != [] {
      assert KeptViews(libs, was)[0] in KeptViews(libs, was);
      assert KeptViews(libs, was) == [KeptView(libs[0], was)] + KeptViews(libs[1..], was);
      LiveAgain(libs[1..], was);
      assert FirstViews(libs, was)[1..] == FirstViews(libs[1..], was);
    }
  }

  lemma ListSame(libs: seq<InstLibSpans?>, start: seq<InstLibSpans?>, was: Memory)
    requires ListSays(libs, start, was)
    ensures LiveLibraries(FirstViews(libs, was)) == LiveLibraries(FirstViews(start, was))
  {
    if libs != start {
      LiveElements(FirstViews(start, was));
      LiveAgain(libs, was);
    }
  }

  /** A resource before or after it was sampled, as often as it is listed. */
  ghost predicate ResourceSays(libs: seq<InstLibSpans?>, start: seq<InstLibSpans?>, was: Memory, sampled: bool) {
    && ListSays(libs, start, was)
    && (!sampled || Dead(start, was) ==> libs == start)
    && (sampled && !Dead(start, was) ==> KeptViews(libs, was) == LiveLibraries(FirstViews(start, was)))
  }

  /** The first i resources are sampled. */
  ghost predicate SampledTo(resources: seq<ResourceSpans?>, i: nat, first: Lists, was: Memory)
    reads resources, Libs(resources, first), Libs(resources[..if i <= |resources| then i else 0], first)
  {
    && i <= |resources|
    && KnownLibs(Libs(resources, first), was) && KeptLibs(Libs(resources[..i], first), was)
    && (forall r: ResourceSpans :: r in resources ==>
          r in first && ResourceSays(r.libs, first[r], was, r in resources[..i]))
  }

  lemma StillSaid(start: seq<InstLibSpans?>, before: seq<InstLibSpans?>, after: seq<InstLibSpans?>, was: Memory)
    requires ListSays(before, start, was)
    requires LiveLibraries(FirstViews(before, was)) == LiveLibraries(FirstViews(start, was))
    requires after == before
             || (KeptViews(after, was) == LiveLibraries(FirstViews(before, was))
                 && forall l :: l in after ==> l in before)
    ensures ListSays(after, start, was)
  {
  }

  method SampleAt(resources: seq<ResourceSpans?>, i: nat, ghost first: Lists, ghost was: Memory)
    returns (live: bool)
    requires i < |resources| && SampledTo(resources, i, first, was) && resources[i] != null
    modifies resources[i], resources[i].libs
    ensures SampledTo(resources, i + 1, first, was)
    ensures live <==> !Dead(first[resources[i]], was)
  {
    var res := resources[i];
    ghost var known, kept := Libs(resources, first), Libs(resources[..i], first);
    live := SampleStart(res, first[res], was, res in resources[..i], known, kept);
    SampledNext(resources, i, first, was);
  }

  lemma SampledNext(resources: seq<ResourceSpans?>, i: nat, first: Lists, was: Memory)
    requires i < |resources| && resources[i] != null && resources[i] in first
    requires KnownLibs(Libs(resources, first), was)
    requires KeptLibs(Libs(resources[..i], first) + (set l | l in first[resources[i]]), was)
    requires forall r: ResourceSpans :: r in resources ==>
      r in first && ResourceSays(r.libs, first[r], was, r == resources[i] || r in resources[..i])
    ensures SampledTo(resources, i + 1, first, was)
  {
    LibsNext(resources, i, first);
    TakeNext(resources, i);
  }

  /** One resource, of which `start` was the list at first, among the known libraries, some of
      which are sampled already. */
  method SampleStart(res: ResourceSpans, ghost start: seq<InstLibSpans?>, ghost was: Memory, ghost sampled: bool,
                     ghost known: set<InstLibSpans?>, ghost kept: set<InstLibSpans?>)
    returns (live: bool)
    requires ResourceSays(res.libs, start, was, sampled) && KnownLibs(known, was) && KeptLibs(kept, was)
    requires forall l :: l in start ==> l in known && (sampled ==> l in kept)
    modifies res, res.libs
    ensures ResourceSays(res.libs, start, was, true) && (live <==> !Dead(start, was))
    ensures KnownLibs(known, was) && KeptLibs(kept + (set l | l in start), was)
  {
    ghost var before := res.libs;
    ListSame(before, start, was);
    assert forall l :: l in before ==> l in start;
    live := SampleResource(res, was);
    StillSaid(start, before, res.libs, was);
  }

  /** Resources as they are passed on. */
  ghost function LiveOf(sent: seq<ResourceSpans>, first: Lists, was: Memory): (vs: seq<Resource>)
    ensures |vs| == |sent|
  {
    seq(|sent|, i requires 0 <= i < |sent| =>
          if sent[i] in first then Some(LiveLibraries(FirstViews(first[sent[i]], was))) else None)
  }

  lemma LiveOfNext(done: seq<ResourceSpans>, res: ResourceSpans, first: Lists, was: Memory)
    requires res in first
    ensures LiveOf(done + [res], first, was)
         == LiveOf(done, first, was) + [Some(LiveLibraries(FirstViews(first[res], was)))]
  {
  }

  /** What is passed on once the i-th resource was looked at, and may yet be, is what was before. */
  ghost predicate PassesOn(resources: seq<ResourceSpans?>, i: nat, done: seq<ResourceSpans>,
                           sent: seq<ResourceSpans>, first: Lists, was: Memory)
    requires i < |resources|
  {
    LiveOf(sent, first, was) + LiveResources(FirstResources(resources, first, was)[i + 1..])
    == LiveOf(done, first, was) + LiveResources(FirstResources(resources, first, was)[i..])
  }

  lemma OnePassedOn(resources: seq<ResourceSpans?>, i: nat, done: seq<ResourceSpans>, first: Lists, was: Memory)
    requires i < |resources| && (resources[i] != null ==> resources[i] in first)
    ensures resources[i] == null || Dead(first[resources[i]], was) ==> PassesOn(resources, i, done, done, first, was)
    ensures resources[i] != null && !Dead(first[resources[i]], was) ==>
              PassesOn(resources, i, done, done + [resources[i]], first, was)
  {
    LiveResourcesNext(LiveOf(done, first, was), FirstResources(resources, first, was), i);
    if resources[i] != null {
      LiveOfNext(done, resources[i], first, was);
    }
  }

  method SampleNextResource(resources: seq<ResourceSpans?>, i: nat, done: seq<ResourceSpans>,
                            ghost first: Lists, ghost was: Memory)
    returns (sent: seq<ResourceSpans>)
    requires i < |resources| && SampledTo(resources, i, first, was)
    requires forall r :: r in done ==> r in resources && r in first && !Dead(first[r], was)
    modifies resources, Libs(resources, first)
    ensures SampledTo(resources, i + 1, first, was)
    ensures forall r :: r in sent ==> r in resources && r in first && !Dead(first[r], was)
    ensures PassesOn(resources, i, done, sent, first, was)
  {
    OnePassedOn(resources, i, done, first, was);
    sent := done;
    if resources[i] == null {
      LibsNext(resources, i, first);
      TakeNext(resources, i);
      return;
    }
    assert forall l :: l in resources[i].libs ==> l in Libs(resources, first);
    var live := SampleAt(resources, i, first, was);
    if live {
      sent := done + [resources[i]];
    }
  }

  /** When all resources are sampled, those passed on hold what is left of them. */
  lemma AllSampled(resources: seq<ResourceSpans?>, sent: seq<ResourceSpans>, first: Lists, was: Memory)
    requires SampledTo(resources, |resources|, first, was)
    requires forall r :: r in sent ==> r in resources && r in first && !Dead(first[r], was)
    ensures SentViews(sent, was) == LiveOf(sent, first, was)
    ensures forall r :: r in resources && r != null ==> r in first && AllKept(first[r], was)
    ensures forall r :: r in resources && r != null && Dead(first[r], was) ==> r.libs == first[r]
  {
    assert resources[..|resources|] == resources;
  }

  /** The upload: every listed library ends with the spans kept of it, and what is passed on are
      the resources and libraries with spans left, in order; nothing at all when none is left. */
  method UploadTraces(resources: seq<ResourceSpans?>, ghost first: Lists, ghost was: Memory)
    returns (sent: Option<seq<ResourceSpans>>)
    requires Snapshot(resources, first, was) && Forests(resources, first, was)
    modifies resources, Libs(resources, first)
    ensures forall r :: r in resources && r != null ==> AllKept(first[r], was)
    ensures sent.None? <==> LiveResources(FirstResources(resources, first, was)) == []
    ensures sent.Some? ==> SentViews(sent.value, was) == LiveResources(FirstResources(resources, first, was))
    ensures sent.Some? ==> forall r :: r in sent.value ==> r in resources
    ensures forall r :: r in resources && r != null && Dead(first[r], was) ==> r.libs == first[r]
  {
    var rresources: seq<ResourceSpans> := [];
    var i := 0;
    while i < |resources|
      invariant 0 <= i <= |resources| && SampledTo(resources, i, first, was)
      invariant forall r :: r in rresources ==> r in resources && r in first && !Dead(first[r], was)
      invariant LiveOf(rresources, first, was) + LiveResources(FirstResources(resources, first, was)[i..])
             == LiveResources(FirstResources(resources, first, was))
    {
      rresources := SampleNextResource(resources, i, rresources, first, was);
      i := i + 1;
    }
    assert LiveOf(rresources, first, was) + [] == LiveOf(rresources, first, was);
    AllSampled(resources, rresources, first, was);
    sent := if |rresources| == 0 then None else Some(rresources);
  }
}
