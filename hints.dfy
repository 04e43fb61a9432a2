/** HintsAndErrorsProvider: turns published diagnostics into editor errors, merging the lists a
    server sends for the same document version. */
module Hints {
  import opened Wrappers
  import opened Protocol
  import opened EditorHints

  /** ListMerger: the version it collects for and every diagnostic received for that version. */
  datatype ListMerger = ListMerger(version: int, items: set<Diagnostic>)

  /** A missing version counts as -1. */
  function VersionOf(v: Option<int>): (n: int)
    ensures v.None? ==> n == -1
    ensures v.Some? ==> n == v.value
  {
    if v.None? then -1 else v.value
  }

  /** The merger `get` settles on for an incoming version: a fresh empty one when nothing is
      cached, when the version is 0, or when the version is newer than the cached one;
      otherwise the cached one, even when the incoming version is older. */
  function NextMerger(cached: Option<ListMerger>, version: int): ListMerger {
    if cached.None? || version == 0 then ListMerger(version, {})
    else if cached.value.version < version then ListMerger(version, {})
    else cached.value
  }

  function DiagnosticSet(ds: seq<Diagnostic>): (s: set<Diagnostic>)
    ensures forall d :: d in s <==> d in ds
  {
    set d | d in ds
  }

  /** Two diagnostics that differ only in a field the editor does not show (such as their
      source) are both kept by the set, as lsp4j's equality keeps them apart. */
  lemma DiagnosticsDifferingInDetailsBothKept(d: Diagnostic, e: Diagnostic)
    requires d.range == e.range && d.severity == e.severity && d.message == e.message
    requires d.details != e.details
    ensures |DiagnosticSet([d, e])| == 2
  {
    assert DiagnosticSet([d, e]) == {d, e};
  }

  /** The merger after `combinedStream`: the settled merger with the new diagnostics added. */
  function Merged(cached: Option<ListMerger>, pdp: PublishDiagnosticsParams): ListMerger {
    var m := NextMerger(cached, VersionOf(pdp.version));
    m.(items := m.items + DiagnosticSet(pdp.diagnostics))
  }

  function Lookup(cache: map<string, ListMerger>, uri: string): Option<ListMerger> {
    if uri in cache then Some(cache[uri]) else None
  }

  /** A fresh merger is installed exactly when nothing is cached, the version is 0, or the
      version is newer; a kept merger is the cached one unchanged. Away from version 0 the
      retained version never decreases. */
  lemma NextMergerRules(cached: Option<ListMerger>, version: int)
    ensures var m := NextMerger(cached, version);
      (m == ListMerger(version, {})) <==>
        (cached.None? || version == 0 || cached.value.version < version || cached.value == ListMerger(version, {}))
    ensures cached.Some? && version != 0 ==>
      NextMerger(cached, version).version == if cached.value.version < version then version else cached.value.version
    ensures cached.Some? && version != 0 && version <= cached.value.version ==> NextMerger(cached, version) == cached.value
  {
  }

  /** Version 0 always starts over: only the diagnostics of this publish remain. */
  lemma VersionZeroResets(cached: Option<ListMerger>, pdp: PublishDiagnosticsParams)
    requires pdp.version == Some(0)
    ensures Merged(cached, pdp) == ListMerger(0, DiagnosticSet(pdp.diagnostics))
  {
  }

  /** A publish for an older version than the cached one is merged into the newer list. */
  lemma StaleDiagnosticsAreMergedIn(cached: ListMerger, pdp: PublishDiagnosticsParams)
    requires VersionOf(pdp.version) != 0 && VersionOf(pdp.version) < cached.version
    ensures Merged(Some(cached), pdp) == ListMerger(cached.version, cached.items + DiagnosticSet(pdp.diagnostics))
  {
  }

  /** The merger after a series of publishes for one URI. */
  function MergeAll(cached: Option<ListMerger>, publishes: seq<PublishDiagnosticsParams>): ListMerger
    requires publishes != []
    decreases |publishes|
  {
    var m := Merged(cached, publishes[0]);
    if |publishes| == 1 then m else MergeAll(Some(m), publishes[1..])
  }

  function AllDiagnostics(publishes: seq<PublishDiagnosticsParams>): set<Diagnostic>
    decreases |publishes|
  {
    if publishes == [] then {} else DiagnosticSet(publishes[0].diagnostics) + AllDiagnostics(publishes[1..])
  }

  /** Publishes that all carry the cached version (not 0) accumulate: the combined list is the
      set union of everything received, each diagnostic once. */
  lemma {:induction false} SameVersionAccumulates(cached: ListMerger, publishes: seq<PublishDiagnosticsParams>)
    requires publishes != [] && cached.version != 0
    requires forall i :: 0 <= i < |publishes| ==> VersionOf(publishes[i].version) == cached.version
    ensures MergeAll(Some(cached), publishes) == ListMerger(cached.version, cached.items + AllDiagnostics(publishes))
    decreases |publishes|
  {
    var m := Merged(Some(cached), publishes[0]);
    assert m == ListMerger(cached.version, cached.items + DiagnosticSet(publishes[0].diagnostics));
    if |publishes| > 1 {
      SameVersionAccumulates(m, publishes[1..]);
    }
  }

  /** One publish with a new version followed by more for that version: the combined list is
      exactly the union of what was sent for the new version. */
  lemma NewVersionCollectsOnlyItsOwn(cached: Option<ListMerger>, publishes: seq<PublishDiagnosticsParams>, v: int)
    requires publishes != [] && v != 0
    requires cached.None? || cached.value.version < v
    requires forall i :: 0 <= i < |publishes| ==> VersionOf(publishes[i].version) == v
    ensures MergeAll(cached, publishes) == ListMerger(v, AllDiagnostics(publishes))
  {
    var m := Merged(cached, publishes[0]);
    assert m == ListMerger(v, DiagnosticSet(publishes[0].diagnostics));
    if |publishes| > 1 {
      SameVersionAccumulates(m, publishes[1..]);
    }
  }

  /** The error description made for one diagnostic: it always carries a lazy fix list. */
  function ErrorFor(uri: string, d: Diagnostic, offset: Position -> int): (e: ErrorDescription)
    ensures e.severity == SeverityOf(d.severity) && e.message == d.message
    ensures e.fixes == LazyFixes(uri, d)
  {
    Describe(d, LazyFixes(uri, d), offset)
  }

  class HintsAndErrorsProvider {
    var cachedLists: map<string, ListMerger>

    constructor ()
      ensures cachedLists == map[]
    {
      cachedLists := map[];
    }

    /** get: settles the merger for the publish's URI and version; no other URI's entry
        changes. */
    method Get(pdp: PublishDiagnosticsParams) returns (m: ListMerger)
      modifies this
      ensures m == NextMerger(Lookup(old(cachedLists), pdp.uri), VersionOf(pdp.version))
      ensures cachedLists == old(cachedLists)[pdp.uri := m]
    {
      var version := if pdp.version.None? then -1 else pdp.version.value;
      var cached := if pdp.uri in cachedLists then Some(cachedLists[pdp.uri]) else None;
      if cached.None? || version == 0 {
        m := ListMerger(version, {});
        cachedLists := cachedLists[pdp.uri := m];
      } else if cached.value.version < version {
        m := ListMerger(version, {});
        cachedLists := cachedLists[pdp.uri := m];
      } else {
        m := cached.value;
        cachedLists := cachedLists[pdp.uri := m];
      }
    }

    /** transform: merges the publish into the URI's list and describes every diagnostic of
        the combined list. */
    method Transform(pdp: PublishDiagnosticsParams, offset: Position -> int) returns (errors: set<ErrorDescription>)
      modifies this
      ensures cachedLists == old(cachedLists)[pdp.uri := Merged(Lookup(old(cachedLists), pdp.uri), pdp)]
      ensures errors == set d | d in cachedLists[pdp.uri].items :: ErrorFor(pdp.uri, d, offset)
    {
      var m := Get(pdp);
      m := m.(items := m.items + DiagnosticSet(pdp.diagnostics));
      cachedLists := cachedLists[pdp.uri := m];
      errors := set d | d in m.items :: ErrorFor(pdp.uri, d, offset);
    }
  }
}
