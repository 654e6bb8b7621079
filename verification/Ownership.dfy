/** Which watch an event belongs to, and the URLs it purges: `EventFilter` of `filter.py` and
    `Mapper` of `mapper.py`. */
module Ownership {
  import opened Prelude
  import opened Strings
  import opened Globs

  /** The components of a path below "/"; `relative_to` is removal of a prefix. */
  type Path = seq<string>

  datatype Binding = Binding(cdn: string, urlPrefix: string)
  datatype Watch = Watch(path: Path, ignore: seq<string>, flushOnDelete: bool, bindings: seq<Binding>)
  datatype Kind = Invalidate | Delete
  datatype FsEvent = FsEvent(kind: Kind, absPath: Path, watchRoot: Path)
  datatype Target = Target(cdn: string, url: string)

  predicate DistinctRoots(ws: seq<Watch>) {
    forall i, j :: 0 <= i < j < |ws| ==> ws[i].path != ws[j].path
  }

  // ---------------------------------------------------------------- EventFilter

  /** `sorted(watches, key=depth, reverse=True)`, which keeps the order of equal depths. */
  function SortByDepth(ws: seq<Watch>): seq<Watch> {
    if ws == [] then [] else InsertByDepth(ws[0], SortByDepth(ws[1..]))
  }

  function InsertByDepth(w: Watch, sorted: seq<Watch>): seq<Watch> {
    if sorted == [] || |sorted[0].path| <= |w.path| then [w] + sorted
    else [sorted[0]] + InsertByDepth(w, sorted[1..])
  }

  predicate DepthSorted(ws: seq<Watch>) {
    forall i, j :: 0 <= i < j < |ws| ==> |ws[i].path| >= |ws[j].path|
  }

  /** The watches of one depth, in the order of the list. */
  function OfDepth(ws: seq<Watch>, depth: int): seq<Watch> {
    if ws == [] then [] else (if |ws[0].path| == depth then [ws[0]] else []) + OfDepth(ws[1..], depth)
  }

  lemma {:induction false} InsertIsStable(w: Watch, sorted: seq<Watch>, depth: int)
    requires DepthSorted(sorted)
    ensures OfDepth(InsertByDepth(w, sorted), depth) == OfDepth([w] + sorted, depth)
  {
    assert ([w] + sorted)[1..] == sorted;
    if sorted != [] && |sorted[0].path| > |w.path| {
      var rest := sorted[1..];
      InsertIsStable(w, rest, depth);
      assert ([w] + rest)[1..] == rest && ([sorted[0]] + InsertByDepth(w, rest))[1..] == InsertByDepth(w, rest);
      assert |sorted[0].path| != depth || |w.path| != depth;
    }
  }

  lemma {:induction false} InsertKeepsSorted(w: Watch, sorted: seq<Watch>)
    requires DepthSorted(sorted)
    ensures var r := InsertByDepth(w, sorted);
      DepthSorted(r) && |r| == |sorted| + 1 && (r[0] == w || (sorted != [] && r[0] == sorted[0]))
  {
    if sorted != [] && |sorted[0].path| > |w.path| {
      var rest := sorted[1..];
      InsertKeepsSorted(w, rest);
      var r := InsertByDepth(w, rest);
      forall i, j | 0 <= i < j < |[sorted[0]] + r| ensures |([sorted[0]] + r)[i].path| >= |([sorted[0]] + r)[j].path| {
        if i == 0 {
          assert |sorted[0].path| >= |r[0].path| >= |r[j - 1].path|;
        }
      }
    }
  }

  lemma {:induction false} InsertKeepsWatches(w: Watch, sorted: seq<Watch>)
    ensures multiset(InsertByDepth(w, sorted)) == multiset([w] + sorted)
  {
    if sorted != [] && |sorted[0].path| > |w.path| {
      InsertKeepsWatches(w, sorted[1..]);
      assert sorted == [sorted[0]] + sorted[1..];
    }
  }

  lemma {:induction false} SortIsStable(ws: seq<Watch>)
    ensures DepthSorted(SortByDepth(ws)) && multiset(SortByDepth(ws)) == multiset(ws)
    ensures forall depth :: OfDepth(SortByDepth(ws), depth) == OfDepth(ws, depth)
  {
    if ws != [] {
      SortIsStable(ws[1..]);
      InsertKeepsSorted(ws[0], SortByDepth(ws[1..]));
      InsertKeepsWatches(ws[0], SortByDepth(ws[1..]));
      assert ws == [ws[0]] + ws[1..];
      forall depth ensures OfDepth(SortByDepth(ws), depth) == OfDepth(ws, depth) {
        InsertIsStable(ws[0], SortByDepth(ws[1..]), depth);
        assert ([ws[0]] + SortByDepth(ws[1..]))[1..] == SortByDepth(ws[1..]);
      }
    }
  }

  /** The first watch in the list whose root is a prefix of the path. */
  function FirstOwner(ws: seq<Watch>, p: Path): (o: Option<Watch>)
    ensures o.Some? ==> o.value.path <= p
  {
    if ws == [] then None
    else if ws[0].path <= p then Some(ws[0])
    else FirstOwner(ws[1..], p)
  }

  /** Watch i of the configuration owns p: no other root on the way to p is deeper, and none as
      deep is configured earlier. */
  ghost predicate Owns(ws: seq<Watch>, i: nat, p: Path) {
    && i < |ws| && ws[i].path <= p
    && forall j :: 0 <= j < |ws| && ws[j].path <= p ==>
        |ws[j].path| < |ws[i].path| || (ws[j].path == ws[i].path && i <= j)
  }

  /** Whether an event mask is relevant downstream, and as what. */
  function Relevance(mask: string, flushOnDelete: bool): Option<Kind> {
    if mask == "IN_MOVED_TO" || mask == "IN_CLOSE_WRITE" then Some(Invalidate)
    else if (mask == "IN_DELETE" || mask == "IN_MOVED_FROM") && flushOnDelete then Some(Delete)
    else None
  }

  /** What the filter lets through: the path has an owner, its relative path matches none of the
      owner's ignore patterns, and the mask is relevant to the owner. */
  ghost function Verdict(fn: Fnmatch, ws: seq<Watch>, mask: string, p: Path): (v: Option<FsEvent>)
    ensures v.Some? ==> v.value.absPath == p && v.value.watchRoot <= p
  {
    match FirstOwner(ws, p)
    case None => None
    case Some(w) =>
      if MatchesSome(fn, p[|w.path|..], w.ignore) then None
      else match Relevance(mask, w.flushOnDelete)
        case None => None
        case Some(kind) => Some(FsEvent(kind, p, w.path))
  }

  class EventFilter {
    const watches: seq<Watch>

    /** Sorted by decreasing depth, and stably: watches of one depth keep their order. */
    constructor (ws: seq<Watch>)
      ensures DepthSorted(watches) && multiset(watches) == multiset(ws)
      ensures forall depth :: OfDepth(watches, depth) == OfDepth(ws, depth)
      ensures watches == SortByDepth(ws)
    {
      watches := SortByDepth(ws);
      SortIsStable(ws);
    }

    /** None without an owner, for an ignored path, and for a mask that is neither a change nor, where the
        owner wants those, a deletion. */
    method Normalize(fn: Fnmatch, mask: string, p: Path) returns (r: Option<FsEvent>)
      ensures r == Verdict(fn, watches, mask, p)
      ensures var owner := FirstOwner(watches, p);
        && (r.Some? <==>
              && owner.Some? && !MatchesSome(fn, p[|owner.value.path|..], owner.value.ignore)
              && (|| mask == "IN_MOVED_TO" || mask == "IN_CLOSE_WRITE"
                  || ((mask == "IN_DELETE" || mask == "IN_MOVED_FROM") && owner.value.flushOnDelete)))
        && (r.Some? ==>
              && r.value.absPath == p && r.value.watchRoot == owner.value.path
              && (r.value.kind == Invalidate <==> mask == "IN_MOVED_TO" || mask == "IN_CLOSE_WRITE"))
    {
      var owner: Option<Watch> := None;
      var k := 0;
      while k < |watches|
        invariant 0 <= k <= |watches|
        invariant owner == None && FirstOwner(watches, p) == FirstOwner(watches[k..], p)
      {
        assert watches[k..][1..] == watches[k + 1..];
        if watches[k].path <= p {
          owner := Some(watches[k]);
          break;
        }
        k := k + 1;
      }
      if owner == None {
        return None;
      }
      var w := owner.value;
      var ignored := MatchesAnyGlob(fn, p[|w.path|..], w.ignore);
      if ignored {
        return None;
      }
      if mask == "IN_MOVED_TO" || mask == "IN_CLOSE_WRITE" {
        return Some(FsEvent(Invalidate, p, w.path));
      } else if mask == "IN_DELETE" || mask == "IN_MOVED_FROM" {
        if !w.flushOnDelete {
          return None;
        }
        return Some(FsEvent(Delete, p, w.path));
      }
      return None;
    }
  }

  /** For every list of watches the scan finds an owner exactly when there is one, the deepest and
      among equals the first configured. */
  lemma {:induction false} ScanFindsDeepestOwner(ws: seq<Watch>, p: Path, i: nat)
    requires Owns(ws, i, p)
    ensures FirstOwner(SortByDepth(ws), p) == Some(ws[i])
  {
    var rest := ws[1..];
    SortedScan(rest, p);
    InsertScan(ws[0], SortByDepth(rest), p);
    if i > 0 {
      forall j | 0 <= j < |rest| && rest[j].path <= p
        ensures |rest[j].path| < |ws[i].path| || (rest[j].path == ws[i].path && i - 1 <= j)
      {
        assert rest[j] == ws[j + 1];
      }
      ScanFindsDeepestOwner(rest, p, i - 1);
    } else {
      forall j | 0 <= j < |rest| && rest[j].path <= p ensures |rest[j].path| <= |ws[0].path| {
        assert rest[j] == ws[j + 1];
      }
    }
  }

  lemma NoOwnerNoRoot(ws: seq<Watch>, p: Path)
    ensures FirstOwner(SortByDepth(ws), p) == None <==> forall i :: 0 <= i < |ws| ==> !(ws[i].path <= p)
  {
    SortedScan(ws, p);
  }

  /** The sorted list is sorted and its scan answers for the unsorted one: some root is a prefix,
      and the answer is one of the deepest. */
  lemma {:induction false} SortedScan(ws: seq<Watch>, p: Path)
    ensures DepthSorted(SortByDepth(ws))
    ensures FirstOwner(SortByDepth(ws), p) == None <==> forall i :: 0 <= i < |ws| ==> !(ws[i].path <= p)
    ensures FirstOwner(SortByDepth(ws), p).Some? ==>
      var w := FirstOwner(SortByDepth(ws), p).value;
      w in ws && w.path <= p && forall i :: 0 <= i < |ws| && ws[i].path <= p ==> |ws[i].path| <= |w.path|
  {
    if ws != [] {
      SortedScan(ws[1..], p);
      InsertKeepsSorted(ws[0], SortByDepth(ws[1..]));
      InsertScan(ws[0], SortByDepth(ws[1..]), p);
      assert forall i :: 0 < i < |ws| ==> ws[i] == ws[1..][i - 1];
    }
  }

  lemma {:induction false} InsertScan(w: Watch, sorted: seq<Watch>, p: Path)
    requires DepthSorted(sorted)
    ensures FirstOwner(InsertByDepth(w, sorted), p) ==
      var o := FirstOwner(sorted, p);
      if w.path <= p && (o == None || |o.value.path| <= |w.path|) then Some(w) else o
  {
    if sorted == [] || |sorted[0].path| <= |w.path| {
      assert ([w] + sorted)[1..] == sorted;
      OwnerIsMember(sorted, p);
    } else {
      InsertScan(w, sorted[1..], p);
      var r := InsertByDepth(w, sorted[1..]);
      assert ([sorted[0]] + r)[1..] == r;
    }
  }

  lemma {:induction false} OwnerIsMember(ws: seq<Watch>, p: Path)
    ensures FirstOwner(ws, p).Some? ==> FirstOwner(ws, p).value in ws
  {
    if ws != [] {
      OwnerIsMember(ws[1..], p);
    }
  }

  // ---------------------------------------------------------------- Mapper

  /** The dictionary from root to bindings; a later watch on the same root replaces an earlier. */
  function ByRoot(ws: seq<Watch>): map<Path, seq<Binding>> {
    if ws == [] then map[]
    else ByRoot(ws[..|ws| - 1])[ws[|ws| - 1].path := ws[|ws| - 1].bindings]
  }

  /** `as_posix()` of a relative path; the empty one is written ".". */
  function AsPosix(rel: Path): string {
    if rel == [] then "." else Join(rel)
  }

  function Url(b: Binding, rel: Path): string {
    RStrip(b.urlPrefix) + "/" + AsPosix(rel)
  }

  function TargetsFor(bindings: seq<Binding>, rel: Path): (ts: seq<Target>)
    ensures |ts| == |bindings|
    ensures forall i :: 0 <= i < |ts| ==> ts[i] == Target(bindings[i].cdn, Url(bindings[i], rel))
  {
    seq(|bindings|, i requires 0 <= i < |bindings| => Target(bindings[i].cdn, Url(bindings[i], rel)))
  }

  /** `Mapper.map` */
  function Map(byRoot: map<Path, seq<Binding>>, e: FsEvent): seq<Target>
    requires e.watchRoot <= e.absPath
  {
    if e.watchRoot !in byRoot || byRoot[e.watchRoot] == [] then []
    else TargetsFor(byRoot[e.watchRoot], e.absPath[|e.watchRoot|..])
  }

  lemma {:induction false} DictionaryKeepsLast(ws: seq<Watch>, i: nat)
    requires i < |ws| && forall j :: i < j < |ws| ==> ws[j].path != ws[i].path
    ensures ws[i].path in ByRoot(ws) && ByRoot(ws)[ws[i].path] == ws[i].bindings
  {
    if i < |ws| - 1 {
      DictionaryKeepsLast(ws[..|ws| - 1], i);
    }
  }

  /** Filter and mapper together, for any list of watches: an event that passes is reported for the
      deepest root on its path, and purges one URL per binding of the last watch configured on
      that root. */
  lemma PassedEventIsMapped(fn: Fnmatch, ws: seq<Watch>, mask: string, p: Path, last: nat)
    requires Verdict(fn, SortByDepth(ws), mask, p).Some?
    requires last < |ws| && ws[last].path <= p
    requires forall j :: 0 <= j < |ws| && ws[j].path <= p && j > last ==> |ws[j].path| < |ws[last].path|
    requires forall j :: 0 <= j < |ws| && ws[j].path <= p ==> |ws[j].path| <= |ws[last].path|
    ensures var e := Verdict(fn, SortByDepth(ws), mask, p).value;
      && e.absPath == p && e.watchRoot == ws[last].path
      && Map(ByRoot(ws), e) == TargetsFor(ws[last].bindings, p[|ws[last].path|..])
  {
    SortedScan(ws, p);
    var w := FirstOwner(SortByDepth(ws), p).value;
    assert w.path == p[..|w.path|] && ws[last].path == p[..|ws[last].path|];
    DictionaryKeepsLast(ws, last);
  }

  /** With distinct roots that watch is the one whose ignore patterns and `flush_on_delete` the
      filter applied. */
  lemma FilterAndMapperAgree(fn: Fnmatch, ws: seq<Watch>, mask: string, p: Path, i: nat)
    requires DistinctRoots(ws) && Owns(ws, i, p)
    ensures var v := Verdict(fn, SortByDepth(ws), mask, p);
      && (v.Some? <==>
            && !MatchesSome(fn, p[|ws[i].path|..], ws[i].ignore)
            && (|| mask == "IN_MOVED_TO" || mask == "IN_CLOSE_WRITE"
                || ((mask == "IN_DELETE" || mask == "IN_MOVED_FROM") && ws[i].flushOnDelete)))
      && (v.Some? ==>
            && v.value.absPath == p && v.value.watchRoot == ws[i].path
            && (v.value.kind == Invalidate <==> mask == "IN_MOVED_TO" || mask == "IN_CLOSE_WRITE"))
      && (v.Some? ==> Map(ByRoot(ws), v.value) == TargetsFor(ws[i].bindings, p[|ws[i].path|..]))
  {
    ScanFindsDeepestOwner(ws, p, i);
    if Verdict(fn, SortByDepth(ws), mask, p).Some? {
      PassedEventIsMapped(fn, ws, mask, p, i);
    }
  }

  /** On a root configured twice they disagree: the filter asks the first watch, the mapper uses
      the bindings of the last. */
  lemma RepeatedRootSplitsTheWatch(fn: Fnmatch, root: Path, name: string, ours: seq<Binding>, theirs: seq<Binding>)
    ensures var ws := [Watch(root, [], true, ours), Watch(root, ["**"], true, theirs)];
      var p := root + [name];
      var e := FsEvent(Delete, p, root);
      Verdict(fn, SortByDepth(ws), "IN_DELETE", p) == Some(e) && Map(ByRoot(ws), e) == TargetsFor(theirs, [name])
  {
    var ws, p := [Watch(root, [], true, ours), Watch(root, ["**"], true, theirs)], root + [name];
    ScanFindsDeepestOwner(ws, p, 0);
    PassedEventIsMapped(fn, ws, "IN_DELETE", p, 1);
    assert p[|root|..] == [name];
  }

  // ---------------------------------------------------------------- URLs

  predicate IsRelative(rel: Path) {
    forall i :: 0 <= i < |rel| ==> IsComponent(rel[i])
  }

  /** Stripping the prefix and splitting at "/" gives the relative path back. */
  lemma UrlRoundTrip(b: Binding, rel: Path)
    requires IsRelative(rel)
    ensures RStrip(b.urlPrefix) + "/" <= Url(b, rel)
    ensures Split(Url(b, rel)[|RStrip(b.urlPrefix)| + 1..]) == if rel == [] then ["."] else rel
  {
    var head := RStrip(b.urlPrefix) + "/";
    assert Url(b, rel) == head + AsPosix(rel);
    assert Url(b, rel)[|head|..] == AsPosix(rel);
    if rel == [] {
      SplitJoin(["."]);
    } else {
      SplitJoin(rel);
    }
  }

  lemma DistinctFilesDistinctUrls(b: Binding, rel: Path, other: Path)
    requires IsRelative(rel) && IsRelative(other) && rel != other
    ensures Url(b, rel) != Url(b, other)
  {
    UrlRoundTrip(b, rel);
    UrlRoundTrip(b, other);
    var dot: Path := ["."];
    assert !IsComponent(dot[0]) && !IsRelative(dot);
  }
}
