/** The trace sampler (pkg/observability/trace.go): spans of a batch form a forest by their
    parent ids, and only branches that carry an event or a link are passed on. */
module Sampler {
  import opened Basics

  type Id = string

  datatype Span = Span(id: Id, parent: Option<Id>, events: nat, links: nat)

  predicate HasData(s: Span) {
    s.events != 0 || s.links != 0
  }

  // ---- The forest, independently of how the program walks it ----

  /** A walk down the forest: each span's parent is the one before it. */
  ghost predicate IsChain(spans: seq<Span>, path: seq<Span>) {
    && path != []
    && (forall s :: s in path ==> s in spans)
    && (forall i :: 0 < i < |path| ==> path[i].parent == Some(path[i - 1].id))
  }

  ghost predicate Linked(spans: seq<Span>, path: seq<Span>, top: Span, bottom: Span) {
    IsChain(spans, path) && path[0] == top && path[|path| - 1] == bottom
  }

  ghost predicate UniqueIds(spans: seq<Span>) {
    forall i, j :: 0 <= i < j < |spans| ==> spans[i].id != spans[j].id
  }

  ghost predicate Acyclic(spans: seq<Span>) {
    forall path :: IsChain(spans, path) && |path| > 1 ==> path[0] != path[|path| - 1]
  }

  ghost predicate IsForest(spans: seq<Span>) {
    UniqueIds(spans) && Acyclic(spans) && forall s :: s in spans ==> s.id != ""
  }

  /** The span lies below or above a span with data, or has data itself. */
  ghost predicate Wanted(spans: seq<Span>, s: Span) {
    exists t, path :: t in spans && HasData(t) && (Linked(spans, path, t, s) || Linked(spans, path, s, t))
  }

  ghost function Survivors(all: seq<Span>, spans: seq<Span>): seq<Span> {
    if spans == [] then []
    else (if Wanted(all, spans[0]) then [spans[0]] else []) + Survivors(all, spans[1..])
  }

  // ---- A rank on the forest, from the absence of cycles ----

  ghost function Find(spans: seq<Span>, id: Id): (r: Option<Span>)
    ensures r.Some? ==> r.value in spans && r.value.id == id
    ensures r.None? ==> forall s :: s in spans ==> s.id != id
  {
    if spans == [] then None else if spans[0].id == id then Some(spans[0]) else Find(spans[1..], id)
  }

  lemma SameIdSameSpan(spans: seq<Span>, s: Span, t: Span)
    requires UniqueIds(spans) && s in spans && t in spans && s.id == t.id
    ensures s == t
  {
  }

  ghost function ParentOf(spans: seq<Span>, s: Span): Option<Span> {
    if s.parent.None? then None else Find(spans, s.parent.value)
  }

  /** Steps up the forest from s, at most `fuel`. */
  ghost function Climb(spans: seq<Span>, s: Span, fuel: nat): (n: nat)
    ensures n <= fuel
    decreases fuel
  {
    var p := ParentOf(spans, s);
    if fuel == 0 || p.None? then 0 else 1 + Climb(spans, p.value, fuel - 1)
  }

  lemma {:induction false} ClimbedChain(spans: seq<Span>, s: Span, fuel: nat) returns (path: seq<Span>)
    requires s in spans
    ensures IsChain(spans, path) && path[|path| - 1] == s && |path| == Climb(spans, s, fuel) + 1
    decreases fuel
  {
    var p := ParentOf(spans, s);
    if fuel == 0 || p.None? {
      path := [s];
    } else {
      var up := ClimbedChain(spans, p.value, fuel - 1);
      path := up + [s];
    }
  }

  /** In a forest a chain never meets a span twice, so it is no longer than the batch. */
  lemma ChainIsShort(spans: seq<Span>, path: seq<Span>)
    requires Acyclic(spans) && IsChain(spans, path)
    ensures |path| <= |spans|
  {
    forall i, j | 0 <= i < j < |path| ensures path[i] != path[j] {
      var cycle := path[i..j + 1];
      assert cycle[0] == path[i] && cycle[|cycle| - 1] == path[j];
      assert IsChain(spans, cycle);
    }
    SetOfSize(path);
    SetOfSize(spans);
    SubsetSize(SetOf(path), SetOf(spans));
  }

  lemma {:induction false} ClimbStable(spans: seq<Span>, s: Span, fuel: nat)
    requires Climb(spans, s, fuel) < fuel
    ensures Climb(spans, s, fuel + 1) == Climb(spans, s, fuel)
    decreases fuel
  {
    if ParentOf(spans, s).Some? {
      ClimbStable(spans, ParentOf(spans, s).value, fuel - 1);
    }
  }

  /** Depth in the forest: how many ancestors the batch holds. */
  ghost function Rank(spans: seq<Span>, s: Span): (n: nat)
    ensures n <= |spans|
  {
    Climb(spans, s, |spans|)
  }

  lemma ParentRank(spans: seq<Span>, s: Span, p: Span)
    requires IsForest(spans) && s in spans && p in spans && s.parent == Some(p.id)
    ensures Rank(spans, s) == Rank(spans, p) + 1
  {
    SameIdSameSpan(spans, ParentOf(spans, s).value, p);
    var path := ClimbedChain(spans, s, |spans|);
    ChainIsShort(spans, path);
    ClimbStable(spans, p, |spans| - 1);
  }

  // ---- The program's two walks ----

  function ParentKey(s: Span): Id {
    if s.parent.Some? then s.parent.value else ""
  }

  ghost predicate IsIndex(spans: seq<Span>, index: map<Id, Span>) {
    && (forall s :: s in spans ==> s.id in index)
    && (forall k :: k in index ==> index[k] in spans && index[k].id == k)
  }

  ghost predicate IsChildIndex(spans: seq<Span>, pindex: map<Id, seq<Span>>) {
    && (forall k, s :: k in pindex && s in pindex[k] ==> s in spans && ParentKey(s) == k)
    && (forall s :: s in spans ==> ParentKey(s) in pindex && s in pindex[ParentKey(s)])
  }

  predicate KeepByParent(span: Span, index: map<Id, Span>, ghost spans: seq<Span>)
    requires IsForest(spans) && IsIndex(spans, index) && span in spans
    decreases Rank(spans, span)
  {
    if span.parent.None? then false
    else if span.parent.value !in index then false
    else
      var parent := index[span.parent.value];
      if HasData(parent) then true
      else
        ParentRank(spans, span, parent);
        KeepByParent(parent, index, spans)
  }

  function Children(span: Span, pindex: map<Id, seq<Span>>): seq<Span> {
    if span.id in pindex then pindex[span.id] else []
  }

  lemma ChildrenRank(spans: seq<Span>, span: Span, pindex: map<Id, seq<Span>>)
    requires IsForest(spans) && IsChildIndex(spans, pindex) && span in spans
    ensures forall c :: c in Children(span, pindex) ==>
              c in spans && c.parent == Some(span.id) && Rank(spans, c) == Rank(spans, span) + 1
  {
    forall c | c in Children(span, pindex)
      ensures c in spans && c.parent == Some(span.id) && Rank(spans, c) == Rank(spans, span) + 1
    {
      ParentRank(spans, c, span);
    }
  }

  predicate KeepByChildren(span: Span, pindex: map<Id, seq<Span>>, ghost spans: seq<Span>)
    requires IsForest(spans) && IsChildIndex(spans, pindex) && span in spans
    decreases |spans| - Rank(spans, span)
  {
    HasData(span) ||
    (ChildrenRank(spans, span, pindex);
     exists c :: c in Children(span, pindex) && KeepByChildren(c, pindex, spans))
  }

  lemma ExtendWalk(spans: seq<Span>, path: seq<Span>, top: Span, p: Span, s: Span)
    requires Linked(spans, path, top, p) && s in spans && s.parent == Some(p.id)
    ensures Linked(spans, path + [s], top, s)
  {
  }

  lemma {:induction false} KeepByParentFinds(span: Span, index: map<Id, Span>, spans: seq<Span>)
    requires IsForest(spans) && IsIndex(spans, index) && span in spans
    requires KeepByParent(span, index, spans)
    ensures exists t, path :: HasData(t) && Linked(spans, path, t, span)
    decreases Rank(spans, span)
  {
    var parent := index[span.parent.value];
    ParentRank(spans, span, parent);
    var t, path;
    if HasData(parent) {
      t, path := parent, [parent];
    } else {
      KeepByParentFinds(parent, index, spans);
      t, path :| HasData(t) && Linked(spans, path, t, parent);
    }
    ExtendWalk(spans, path, t, parent, span);
  }

  lemma {:induction false} AncestorKeeps(span: Span, index: map<Id, Span>, spans: seq<Span>, t: Span, path: seq<Span>)
    requires IsForest(spans) && IsIndex(spans, index) && span in spans
    requires HasData(t) && Linked(spans, path, t, span) && |path| > 1
    ensures KeepByParent(span, index, spans)
    decreases |path|
  {
    var parent := path[|path| - 2];
    assert parent in path && path[|path| - 1].parent == Some(parent.id);
    SameIdSameSpan(spans, index[parent.id], parent);
    if !HasData(parent) {
      AncestorKeeps(parent, index, spans, t, path[..|path| - 1]);
    }
  }

  lemma {:induction false} KeepByChildrenFinds(span: Span, pindex: map<Id, seq<Span>>, spans: seq<Span>)
    requires IsForest(spans) && IsChildIndex(spans, pindex) && span in spans
    requires KeepByChildren(span, pindex, spans)
    ensures exists t, path :: HasData(t) && Linked(spans, path, span, t)
    decreases |spans| - Rank(spans, span)
  {
    if HasData(span) {
      assert Linked(spans, [span], span, span);
    } else {
      ChildrenRank(spans, span, pindex);
      var c :| c in Children(span, pindex) && KeepByChildren(c, pindex, spans);
      KeepByChildrenFinds(c, pindex, spans);
      var t, path :| HasData(t) && Linked(spans, path, c, t);
      assert Linked(spans, [span] + path, span, t);
    }
  }

  lemma {:induction false} DescendantKeeps(span: Span, pindex: map<Id, seq<Span>>, spans: seq<Span>,
                                           t: Span, path: seq<Span>)
    requires IsForest(spans) && IsChildIndex(spans, pindex) && span in spans
    requires HasData(t) && Linked(spans, path, span, t)
    ensures KeepByChildren(span, pindex, spans)
    decreases |path|
  {
    if |path| > 1 {
      var c := path[1];
      assert c in path && c.parent == Some(span.id);
      DescendantKeeps(c, pindex, spans, t, path[1..]);
    }
  }

  /** The two walks together keep exactly the spans above or below data. */
  lemma KeptIffWanted(span: Span, index: map<Id, Span>, pindex: map<Id, seq<Span>>, spans: seq<Span>)
    requires IsForest(spans) && IsIndex(spans, index) && IsChildIndex(spans, pindex) && span in spans
    ensures KeepByParent(span, index, spans) || KeepByChildren(span, pindex, spans) <==> Wanted(spans, span)
  {
    if KeepByParent(span, index, spans) {
      KeepByParentFinds(span, index, spans);
      var t, path :| HasData(t) && Linked(spans, path, t, span);
      assert path[0] in path;
    } else if KeepByChildren(span, pindex, spans) {
      KeepByChildrenFinds(span, pindex, spans);
      var t, path :| HasData(t) && Linked(spans, path, span, t);
      assert path[|path| - 1] in path;
    } else if Wanted(spans, span) {
      var t, path :| t in spans && HasData(t) && (Linked(spans, path, t, span) || Linked(spans, path, span, t));
      if Linked(spans, path, t, span) && |path| > 1 {
        AncestorKeeps(span, index, spans, t, path);
      } else {
        DescendantKeeps(span, pindex, spans, t, path);
      }
    }
  }

  // ---- What sampling a batch does ----

  lemma {:induction false} SurvivorsAre(all: seq<Span>, spans: seq<Span>)
    ensures forall s :: s in Survivors(all, spans) <==> s in spans && Wanted(all, s)
    ensures UniqueIds(spans) ==> UniqueIds(Survivors(all, spans))
  {
    if spans != [] {
      SurvivorsAre(all, spans[1..]);
      var rest := Survivors(all, spans[1..]);
      assert spans == [spans[0]] + spans[1..];
      if UniqueIds(spans) {
        forall s | s in rest ensures s.id != spans[0].id {
          assert s in spans[1..];
        }
      }
    }
  }

  lemma SurvivorsNext(done: seq<Span>, spans: seq<Span>, i: nat)
    requires i < |spans|
    ensures done + Survivors(spans, spans[i..])
         == (if Wanted(spans, spans[i]) then done + [spans[i]] else done) + Survivors(spans, spans[i + 1..])
  {
    assert spans[i..][1..] == spans[i + 1..];
    ConcatAssoc(done, [spans[i]], Survivors(spans, spans[i + 1..]));
    assert [] + Survivors(spans, spans[i + 1..]) == Survivors(spans, spans[i + 1..]);
  }

  lemma {:induction false} SurvivorsOfWanted(all: seq<Span>, spans: seq<Span>)
    requires forall s :: s in spans ==> Wanted(all, s)
    ensures Survivors(all, spans) == spans
  {
    if spans != [] {
      SurvivorsOfWanted(all, spans[1..]);
    }
  }

  /** No span with data is lost. */
  lemma DataSurvives(spans: seq<Span>, s: Span)
    requires s in spans && HasData(s)
    ensures s in Survivors(spans, spans)
  {
    SurvivorsAre(spans, spans);
    assert Linked(spans, [s], s, s);
  }

  /** Every span on a walk between a survivor and its data survives with it. */
  lemma WalkSurvives(spans: seq<Span>, t: Span, path: seq<Span>)
    requires t in spans && HasData(t) && IsChain(spans, path) && (path[0] == t || path[|path| - 1] == t)
    ensures IsChain(Survivors(spans, spans), path)
  {
    SurvivorsAre(spans, spans);
    forall i | 0 <= i < |path| ensures path[i] in Survivors(spans, spans) {
      WalkIsWanted(spans, t, path, i);
    }
  }

  lemma WalkIsWanted(spans: seq<Span>, t: Span, path: seq<Span>, i: nat)
    requires t in spans && HasData(t) && IsChain(spans, path) && (path[0] == t || path[|path| - 1] == t)
    requires i < |path|
    ensures path[i] in spans && Wanted(spans, path[i])
  {
    if path[0] == t {
      assert Linked(spans, path[..i + 1], t, path[i]);
    } else {
      assert Linked(spans, path[i..], path[i], t);
    }
  }

  /** Sampling a forest leaves a forest, and sampling it again changes nothing. */
  lemma SamplingIsIdempotent(spans: seq<Span>)
    requires IsForest(spans)
    ensures var kept := Survivors(spans, spans);
            IsForest(kept) && Survivors(kept, kept) == kept
  {
    var kept := Survivors(spans, spans);
    SurvivorsAre(spans, spans);
    forall path | IsChain(kept, path) && |path| > 1 ensures path[0] != path[|path| - 1] {
      assert IsChain(spans, path);
    }
    forall s | s in kept ensures Wanted(kept, s) {
      var t, path :| t in spans && HasData(t) && (Linked(spans, path, t, s) || Linked(spans, path, s, t));
      WalkSurvives(spans, t, path);
      assert t in path && t in kept;
      assert Linked(kept, path, t, s) || Linked(kept, path, s, t);
    }
    SurvivorsOfWanted(kept, kept);
  }

  // ---- The client as the program keeps it ----

  lemma IndexNext(spans: seq<Span>, i: nat, index: map<Id, Span>)
    requires UniqueIds(spans) && i < |spans| && IsIndex(spans[..i], index)
    ensures IsIndex(spans[..i + 1], index[spans[i].id := spans[i]])
  {
    TakeNext(spans, i);
  }

  lemma ChildIndexNext(spans: seq<Span>, i: nat, pindex: map<Id, seq<Span>>)
    requires i < |spans| && IsChildIndex(spans[..i], pindex)
    ensures var key := ParentKey(spans[i]);
            IsChildIndex(spans[..i + 1], pindex[key := (if key in pindex then pindex[key] else []) + [spans[i]]])
  {
    TakeNext(spans, i);
  }

  method BuildSpansIndex(spans: seq<Span>) returns (index: map<Id, Span>, pindex: map<Id, seq<Span>>)
    requires UniqueIds(spans)
    ensures IsIndex(spans, index) && IsChildIndex(spans, pindex)
  {
    index, pindex := map[], map[];
    var i := 0;
    while i < |spans|
      invariant 0 <= i <= |spans|
      invariant IsIndex(spans[..i], index) && IsChildIndex(spans[..i], pindex)
    {
      var span := spans[i];
      IndexNext(spans, i, index);
      index := index[span.id := span];
      ChildIndexNext(spans, i, pindex);
      var pSpanId := ParentKey(span);
      var siblings := if pSpanId in pindex then pindex[pSpanId] else [];
      pindex := pindex[pSpanId := siblings + [span]];
      i := i + 1;
    }
    assert spans[..i] == spans;
  }

  method IsKept(span: Span, index: map<Id, Span>, pindex: map<Id, seq<Span>>, ghost spans: seq<Span>)
    returns (keep: bool)
    requires IsForest(spans) && IsIndex(spans, index) && IsChildIndex(spans, pindex) && span in spans
    ensures keep <==> Wanted(spans, span)
  {
    KeptIffWanted(span, index, pindex, spans);
    if KeepByParent(span, index, spans) {
      return true;
    } else if KeepByChildren(span, pindex, spans) {
      return true;
    }
    return false;
  }

  ghost predicate SampledTo(done: seq<Span>, spans: seq<Span>, i: nat) {
    i <= |spans| && done + Survivors(spans, spans[i..]) == Survivors(spans, spans)
  }

  lemma SampledEnds(done: seq<Span>, spans: seq<Span>)
    ensures SampledTo([], spans, 0)
    ensures SampledTo(done, spans, |spans|) ==> done == Survivors(spans, spans)
  {
    assert spans[0..] == spans && [] + Survivors(spans, spans) == Survivors(spans, spans);
    assert spans[|spans|..] == [] && done + [] == done;
  }

  method KeepOne(done: seq<Span>, spans: seq<Span>, i: nat, index: map<Id, Span>, pindex: map<Id, seq<Span>>)
    returns (rspans: seq<Span>)
    requires i < |spans| && IsForest(spans) && IsIndex(spans, index) && IsChildIndex(spans, pindex)
    requires SampledTo(done, spans, i)
    ensures SampledTo(rspans, spans, i + 1)
  {
    SurvivorsNext(done, spans, i);
    var keep := IsKept(spans[i], index, pindex, spans);
    rspans := if keep then done + [spans[i]] else done;
  }

  /** The inner loop: the spans that replace those of one library. */
  method SampleSpans(spans: seq<Span>) returns (rspans: seq<Span>)
    requires IsForest(spans)
    ensures rspans == Survivors(spans, spans)
  {
    var index, pindex := BuildSpansIndex(spans);
    rspans := [];
    var i := 0;
    SampledEnds(rspans, spans);
    while i < |spans|
      invariant 0 <= i <= |spans| && SampledTo(rspans, spans, i)
    {
      rspans := KeepOne(rspans, spans, i, index, pindex);
      i := i + 1;
    }
    SampledEnds(rspans, spans);
  }

  /** A resource lists instrumentation libraries, a library lists spans; entries may be nil. */
  type Library = Option<seq<Span>>
  type Resource = Option<seq<Library>>

  ghost function LiveLibraries(libs: seq<Library>): seq<Library> {
    if libs == [] then []
    else (if libs[0].Some? && Survivors(libs[0].value, libs[0].value) != []
          then [Some(Survivors(libs[0].value, libs[0].value))] else [])
         + LiveLibraries(libs[1..])
  }

  ghost function LiveResources(resources: seq<Resource>): seq<Resource> {
    if resources == [] then []
    else (if resources[0].Some? && LiveLibraries(resources[0].value) != []
          then [Some(LiveLibraries(resources[0].value))] else [])
         + LiveResources(resources[1..])
  }

  ghost predicate AllForests(libs: seq<Library>) {
    forall l :: l in libs && l.Some? ==> IsForest(l.value)
  }

  lemma LiveLibrariesNext(done: seq<Library>, libs: seq<Library>, i: nat)
    requires i < |libs|
    ensures var live := libs[i].Some? && Survivors(libs[i].value, libs[i].value) != [];
            done + LiveLibraries(libs[i..]) ==
            (if live then done + [Some(Survivors(libs[i].value, libs[i].value))] else done)
            + LiveLibraries(libs[i + 1..])
  {
    var rest := LiveLibraries(libs[i + 1..]);
    assert libs[i..][1..] == libs[i + 1..];
    if libs[i].Some? {
      ConcatAssoc(done, [Some(Survivors(libs[i].value, libs[i].value))], rest);
    }
    assert [] + rest == rest;
  }

  lemma LiveResourcesNext(done: seq<Resource>, resources: seq<Resource>, i: nat)
    requires i < |resources|
    ensures var live := resources[i].Some? && LiveLibraries(resources[i].value) != [];
            done + LiveResources(resources[i..]) ==
            (if live then done + [Some(LiveLibraries(resources[i].value))] else done)
            + LiveResources(resources[i + 1..])
  {
    var rest := LiveResources(resources[i + 1..]);
    assert resources[i..][1..] == resources[i + 1..];
    if resources[i].Some? {
      ConcatAssoc(done, [Some(LiveLibraries(resources[i].value))], rest);
    }
    assert [] + rest == rest;
  }

  // ---- A whole batch ----

  lemma {:induction false} LiveLibrariesFixed(libs: seq<Library>)
    requires AllForests(libs)
    ensures AllForests(LiveLibraries(libs)) && LiveLibraries(LiveLibraries(libs)) == LiveLibraries(libs)
  {
    if libs != [] {
      assert libs[0] in libs;
      LiveLibrariesFixed(libs[1..]);
      if libs[0].Some? {
        SamplingIsIdempotent(libs[0].value);
      }
      var rest := LiveLibraries(libs[1..]);
      assert LiveLibraries(libs) == rest || LiveLibraries(libs)[1..] == rest;
    }
  }

  /** Sampling what was sent a second time sends the same again. */
  lemma {:induction false} LiveResourcesFixed(resources: seq<Resource>)
    requires forall r :: r in resources && r.Some? ==> AllForests(r.value)
    ensures LiveResources(LiveResources(resources)) == LiveResources(resources)
  {
    if resources != [] {
      assert resources[0] in resources;
      LiveResourcesFixed(resources[1..]);
      if resources[0].Some? {
        LiveLibrariesFixed(resources[0].value);
      }
      var rest := LiveResources(resources[1..]);
      assert LiveResources(resources) == rest || LiveResources(resources)[1..] == rest;
    }
  }
}
