/** ReverseEngineeringModule.java: discovery of the relations between the modules of a
    build. A module probes every candidate with Module's own update operations: a
    candidate is an edge when the update does not raise an argument error. */
module ReverseEngineering {
  import opened Base
  import opened Xml
  import opened Gav
  import opened Descriptor
  import opened Pom

  // ---------------------------------------------------------------- module names

  /** replaceAll("[-]", ""): every '-' removed, all other characters kept in order. */
  function StripDashes(s: string): (r: string)
    ensures '-' !in r
    ensures forall c :: c != '-' ==> multiset(r)[c] == multiset(s)[c]
    ensures |r| == |s| - multiset(s)['-']
    decreases |s|
  {
    if s == [] then []
    else
      var init, last := s[..|s| - 1], s[|s| - 1];
      assert s == init + [last];
      assert multiset(s) == multiset(init) + multiset{last};
      if last == '-' then StripDashes(init) else StripDashes(init) + [last]
  }

  /** Removing dashes distributes over concatenation, so it keeps the order of what it keeps. */
  lemma {:induction false} StripDashesAppend(a: string, b: string)
    ensures StripDashes(a + b) == StripDashes(a) + StripDashes(b)
    decreases |b|
  {
    if b == [] {
      assert a + b == a;
    } else {
      var init, last := b[..|b| - 1], b[|b| - 1];
      assert a + b == (a + init) + [last];
      assert (a + b)[..|a + b| - 1] == a + init;
      StripDashesAppend(a, init);
    }
  }

  /** A name without dashes is its own module name. */
  lemma {:induction false} StripDashesNoDash(s: string)
    requires '-' !in s
    ensures StripDashes(s) == s
    decreases |s|
  {
    if s != [] {
      assert s[|s| - 1] in s;
      assert forall c :: c in s[..|s| - 1] ==> c in s;
      StripDashesNoDash(s[..|s| - 1]);
      assert s[..|s| - 1] + [s[|s| - 1]] == s;
    }
  }

  lemma StripDashesIdempotent(s: string)
    ensures StripDashes(StripDashes(s)) == StripDashes(s)
  {
    StripDashesNoDash(StripDashes(s));
  }

  /** moduleName(): the artifactId without dashes; a null artifactId is dereferenced. */
  function ModuleNameOf(doc: Element): (r: Result<string>)
    ensures r.Err? <==> ArtifactId(doc).None?
    ensures r.Err? ==> r.error == NullRef
    ensures r.Ok? ==> r.value == StripDashes(ArtifactId(doc).value)
  {
    match ArtifactId(doc)
    case None => Err(NullRef)
    case Some(a) => Ok(StripDashes(a))
  }

  // ---------------------------------------------------------------- probing candidates

  /** A candidate module as the probing module sees it: its own pom, read afresh at
      every probe, or another pom, which the probes never change. */
  datatype Candidate = Own | Other(id: Coordinates)

  /** The identity a probe passes to Module's update operation. */
  function IdOf(c: Candidate, doc: Element): Coordinates
  {
    match c
    case Own => Identity(doc)
    case Other(id) => id
  }

  /** parentVersion(module) raised an argument error: the candidate is not the parent. */
  predicate Swallowed(doc: Element, c: Candidate)
  {
    ParentEdit(doc, IdOf(c, doc)) == Err(Arg)
  }

  /** Candidate k is the first whose parentVersion probe does not raise an argument error. */
  predicate FirstUnswallowed(doc: Element, cands: seq<Candidate>, k: nat)
  {
    k < |cands| && !Swallowed(doc, cands[k]) && forall j :: 0 <= j < k ==> Swallowed(doc, cands[j])
  }

  /** detectParent: the first candidate whose parentVersion probe succeeds; an argument
      error moves on (and leaves the pom as it was), any other error ends the search. */
  function ParentProbe(doc: Element, cands: seq<Candidate>): (r: Result<Option<nat>>)
    ensures r.Ok? && r.value.Some? ==> r.value.value < |cands|
    decreases |cands|
  {
    if cands == [] then Ok(None)
    else
      match ParentEdit(doc, IdOf(cands[0], doc))
      case Ok(_) => Ok(Some(0))
      case Err(e) => if e != Arg then Err(e) else ShiftIndex(ParentProbe(doc, cands[1..]), 1)
  }

  /** detectParent finds the first candidate that is not swallowed: it returns that one
      when its probe succeeds and propagates its error otherwise; with every candidate
      swallowed it finds none. */
  lemma {:induction false} ParentProbeFirst(doc: Element, cands: seq<Candidate>)
    ensures var r := ParentProbe(doc, cands);
      && (r.Ok? && r.value.Some? ==> FirstUnswallowed(doc, cands, r.value.value))
      && (r.Ok? && r.value.Some? ==> ParentEdit(doc, IdOf(cands[r.value.value], doc)).Ok?)
      && (r == Ok(None) <==> forall k :: 0 <= k < |cands| ==> Swallowed(doc, cands[k]))
      && (r.Err? ==> r.error != Arg)
      && (r.Err? ==> exists k: nat :: FirstUnswallowed(doc, cands, k) && ParentEdit(doc, IdOf(cands[k], doc)) == Err(r.error))
    decreases |cands|
  {
    hide ParentEdit;
    if cands != [] {
      var rest := cands[1..];
      assert forall k :: 1 <= k < |cands| ==> cands[k] == rest[k - 1];
      ParentProbeFirst(doc, rest);
      var r := ParentProbe(doc, rest);
      if ParentEdit(doc, IdOf(cands[0], doc)) == Err(Arg) {
        if r.Ok? && r.value.Some? {
          assert FirstUnswallowed(doc, cands, r.value.value + 1);
        }
        if r.Err? {
          var k: nat :| FirstUnswallowed(doc, rest, k) && ParentEdit(doc, IdOf(rest[k], doc)) == Err(r.error);
          assert FirstUnswallowed(doc, cands, k + 1);
        }
      } else {
        assert FirstUnswallowed(doc, cands, 0);
      }
    }
  }

  /** One iteration of detectParent's loop, on the suffix starting at candidate i. */
  lemma ParentProbeStep(doc: Element, cands: seq<Candidate>, i: nat)
    requires i < |cands|
    ensures ShiftIndex(ParentProbe(doc, cands[i..]), i) ==
      match ParentEdit(doc, IdOf(cands[i], doc))
      case Ok(_) => Ok(Some(i))
      case Err(e) => if e != Arg then Err(e) else ShiftIndex(ParentProbe(doc, cands[i + 1..]), i + 1)
  {
    hide ParentEdit;
    assert cands[i..][0] == cands[i] && cands[i..][1..] == cands[i + 1..];
  }

  /** The state of a findDependencies / findPluginDependencies scan: the indices of the
      candidates found so far, the probing pom as the probes left it, and the error that
      ended the scan, if one did. */
  datatype Scan = Scan(found: seq<nat>, doc: Element, failure: Option<Error>)

  /** One probe of the scan: candidate i is recorded when its update succeeds on the pom
      as the scan has left it; an argument error skips it; any other error ends the scan. */
  function Probe(prev: Scan, i: nat, c: Candidate, kind: Kind): (s: Scan)
    requires prev.failure.None?
    ensures var r := EntryEdit(prev.doc, IdOf(c, prev.doc), kind);
      && (r.Ok? ==> s.found == prev.found + [i] && s.doc == Apply(prev.doc, r) && s.failure.None?)
      && (r.Err? ==> s.found == prev.found && s.doc == prev.doc)
      && (r.Err? && r.error == Arg ==> s.failure.None?)
      && (r.Err? && r.error != Arg ==> s.failure == Some(r.error))
  {
    var r := EntryEdit(prev.doc, IdOf(c, prev.doc), kind);
    if r.Ok? then Scan(prev.found + [i], Apply(prev.doc, r), None)
    else if r.error == Arg then prev
    else Scan(prev.found, prev.doc, Some(r.error))
  }

  /** The scan over `cands`: each probe runs updateDependency (or updatePluginDependency)
      on the pom as the earlier probes left it. */
  function EntryScan(doc: Element, cands: seq<Candidate>, kind: Kind): (s: Scan)
    ensures forall i :: 0 <= i < |s.found| ==> s.found[i] < |cands|
    decreases |cands|
  {
    if cands == [] then Scan([], doc, None)
    else
      var i := |cands| - 1;
      var prev := EntryScan(doc, cands[..i], kind);
      if prev.failure.Some? then prev else Probe(prev, i, cands[i], kind)
  }

  predicate Increasing(xs: seq<nat>)
  {
    forall i, j :: 0 <= i < j < |xs| ==> xs[i] < xs[j]
  }

  /** The candidates are found in input order, each at most once. */
  lemma {:induction false} EntryScanOrdered(doc: Element, cands: seq<Candidate>, kind: Kind)
    ensures Increasing(EntryScan(doc, cands, kind).found)
    decreases |cands|
  {
    hide EntryEdit;
    if cands != [] {
      var n := |cands| - 1;
      EntryScanOrdered(doc, cands[..n], kind);
      var prev := EntryScan(doc, cands[..n], kind);
      assert forall k :: 0 <= k < |prev.found| ==> prev.found[k] < n;
      if prev.failure.None? {
        var s := Probe(prev, n, cands[n], kind);
        assert EntryScan(doc, cands, kind) == s;
        if s.found != prev.found {
          assert s.found == prev.found + [n];
          forall i, j | 0 <= i < j < |s.found| ensures s.found[i] < s.found[j] {
            assert s.found[i] == prev.found[i];
            if j < |prev.found| {
              assert s.found[j] == prev.found[j];
            } else {
              assert s.found[j] == n;
            }
          }
        }
      }
    }
  }

  /** The scan before candidate i has run. */
  function ScanBefore(doc: Element, cands: seq<Candidate>, kind: Kind, i: nat): Scan
    requires i <= |cands|
  {
    EntryScan(doc, cands[..i], kind)
  }

  /** Candidate i is found exactly when the scan reaches it and its probe succeeds on the
      pom the earlier probes left. */
  lemma {:induction false} EntryScanFinds(doc: Element, cands: seq<Candidate>, kind: Kind, i: nat)
    requires i < |cands|
    ensures var before := ScanBefore(doc, cands, kind, i);
      i in EntryScan(doc, cands, kind).found <==>
        before.failure.None? && EntryEdit(before.doc, IdOf(cands[i], before.doc), kind).Ok?
    decreases |cands|
  {
    hide EntryEdit;
    var n := |cands| - 1;
    if i == n {
      EntryScanFindsLast(doc, cands, kind);
    } else {
      EntryScanFinds(doc, cands[..n], kind, i);
      assert cands[..n][..i] == cands[..i] && cands[..n][i] == cands[i];
      EntryScanKeeps(doc, cands, kind, i);
    }
  }

  lemma EntryScanFindsLast(doc: Element, cands: seq<Candidate>, kind: Kind)
    requires |cands| > 0
    ensures var n := |cands| - 1; var before := ScanBefore(doc, cands, kind, n);
      n in EntryScan(doc, cands, kind).found <==>
        before.failure.None? && EntryEdit(before.doc, IdOf(cands[n], before.doc), kind).Ok?
  {
    hide EntryEdit;
    var n := |cands| - 1;
    assert n !in EntryScan(doc, cands[..n], kind).found;
  }

  /** The last probe does not change whether an earlier candidate was found. */
  lemma EntryScanKeeps(doc: Element, cands: seq<Candidate>, kind: Kind, i: nat)
    requires i < |cands| - 1
    ensures i in EntryScan(doc, cands, kind).found <==> i in EntryScan(doc, cands[..|cands| - 1], kind).found
  {
    hide EntryEdit;
  }

  /** A scan only ever ends on a dereferenced null: the update operations raise nothing else
      but the argument errors the scan skips. */
  lemma {:induction false} EntryScanFailure(doc: Element, cands: seq<Candidate>, kind: Kind)
    ensures EntryScan(doc, cands, kind).failure.Some? ==> EntryScan(doc, cands, kind).failure.value == NullRef
    decreases |cands|
  {
    if cands != [] {
      var n := |cands| - 1;
      EntryScanFailure(doc, cands[..n], kind);
      var prev := EntryScan(doc, cands[..n], kind);
      if prev.failure.None? {
        EntryEditCases(prev.doc, IdOf(cands[n], prev.doc), kind);
      }
    }
  }

  /** One iteration of the scan's loop: candidate i is probed on the pom the earlier probes left. */
  lemma EntryScanStep(doc: Element, cands: seq<Candidate>, kind: Kind, i: nat)
    requires i < |cands|
    ensures var prev := ScanBefore(doc, cands, kind, i);
      EntryScan(doc, cands[..i + 1], kind) == if prev.failure.Some? then prev else Probe(prev, i, cands[i], kind)
  {
    hide EntryEdit;
    assert cands[..i + 1][..i] == cands[..i];
  }

  /** What one probe does to the scan, told by the outcome of the update it runs. */
  lemma ProbeOutcome(prev: Scan, i: nat, c: Candidate, kind: Kind, outcome: Outcome)
    requires prev.failure.None?
    requires outcome == OutcomeOf(EntryEdit(prev.doc, IdOf(c, prev.doc), kind))
    ensures var ed := EntryEdit(prev.doc, IdOf(c, prev.doc), kind);
      && (outcome == Pass ==> Probe(prev, i, c, kind) == Scan(prev.found + [i], Apply(prev.doc, ed), None))
      && (outcome == Fail(Arg) ==> Probe(prev, i, c, kind) == prev)
      && (outcome.Fail? ==> Apply(prev.doc, ed) == prev.doc && Probe(prev, i, c, kind).doc == prev.doc)
      && (outcome.Fail? && outcome.error != Arg ==> Probe(prev, i, c, kind).failure == Some(outcome.error))
  {
    hide EntryEdit;
  }

  /** A scan that has failed stays failed: later candidates are never probed. */
  lemma {:induction false} EntryScanStops(doc: Element, cands: seq<Candidate>, kind: Kind, j: nat)
    requires j <= |cands| && ScanBefore(doc, cands, kind, j).failure.Some?
    ensures EntryScan(doc, cands, kind) == ScanBefore(doc, cands, kind, j)
    decreases |cands| - j
  {
    hide EntryEdit;
    if j < |cands| {
      var n := |cands| - 1;
      assert cands[..n][..j] == cands[..j];
      EntryScanStops(doc, cands[..n], kind, j);
      var prev := EntryScan(doc, cands[..n], kind);
      assert prev == ScanBefore(doc, cands, kind, j);
      assert prev.failure.Some?;
    } else {
      assert cands[..j] == cands;
    }
  }

  /** What consider(modules) computes, on the candidates' identities: the parent (None
      when detectParent failed), the dependencies and plugin dependencies (None when
      their scan failed or was not reached), the pom after all probes, and the error. */
  datatype Discovery = Discovery(
    parent: Option<Option<nat>>,
    dependencies: Option<seq<nat>>,
    plugins: Option<seq<nat>>,
    doc: Element,
    failure: Option<Error>)

  /** The scans of consider: findDependencies on the pom detectParent left, then, unless it
      failed, findPluginDependencies on the pom the first scan left. */
  function ScanStages(doc: Element, cands: seq<Candidate>): (d: Discovery)
    ensures d.parent.None?
    ensures d.failure.None? <==> d.dependencies.Some? && d.plugins.Some?
    ensures d.dependencies.Some? ==> forall k :: 0 <= k < |d.dependencies.value| ==> d.dependencies.value[k] < |cands|
    ensures d.plugins.Some? ==> d.dependencies.Some? && forall k :: 0 <= k < |d.plugins.value| ==> d.plugins.value[k] < |cands|
    ensures forall k :: 0 <= k < |Edges(d)| ==> Edges(d)[k] < |cands|
  {
    var s := EntryScan(doc, cands, DependencyKind);
    if s.failure.Some? then Discovery(None, None, None, s.doc, s.failure)
    else
      var t := EntryScan(s.doc, cands, PluginKind);
      Discovery(None, Some(s.found), if t.failure.Some? then None else Some(t.found), t.doc, t.failure)
  }

  /** The document detectParent leaves behind: the parent reference rewritten when a parent was found. */
  function AfterParent(doc: Element, cands: seq<Candidate>, p: Option<nat>): Element
    requires p.Some? ==> p.value < |cands|
  {
    if p.Some? then Apply(doc, ParentEdit(doc, IdOf(cands[p.value], doc))) else doc
  }

  /** consider: detectParent, then findDependencies, then findPluginDependencies, each on
      the pom as the previous stage left it; an error ends the sequence. */
  function Discover(doc: Element, cands: seq<Candidate>): (d: Discovery)
    ensures d.failure.None? <==> d.parent.Some? && d.dependencies.Some? && d.plugins.Some?
    ensures d.parent.Some? && d.parent.value.Some? ==> d.parent.value.value < |cands|
    ensures d.dependencies.Some? ==> d.parent.Some? && forall k :: 0 <= k < |d.dependencies.value| ==> d.dependencies.value[k] < |cands|
    ensures d.plugins.Some? ==> d.dependencies.Some? && forall k :: 0 <= k < |d.plugins.value| ==> d.plugins.value[k] < |cands|
    ensures forall k :: 0 <= k < |Edges(d)| ==> Edges(d)[k] < |cands|
  {
    match ParentProbe(doc, cands)
    case Err(e) => Discovery(None, None, None, doc, Some(e))
    case Ok(p) =>
      var stages := ScanStages(AfterParent(doc, cands, p), cands);
      stages.(parent := Some(p))
  }

  /** consider() fails only with the state error of a parent without a version, or a
      dereferenced null. */
  lemma DiscoverFailure(doc: Element, cands: seq<Candidate>)
    ensures var d := Discover(doc, cands);
      d.failure.Some? ==> d.failure.value == State || d.failure.value == NullRef
  {
    var d := Discover(doc, cands);
    var probe := ParentProbe(doc, cands);
    ParentProbeFirst(doc, cands);
    if probe.Err? {
      var k: nat :| FirstUnswallowed(doc, cands, k) && ParentEdit(doc, IdOf(cands[k], doc)) == Err(probe.error);
      ParentEditCases(doc, IdOf(cands[k], doc));
    } else {
      var doc1 := AfterParent(doc, cands, probe.value);
      EntryScanFailure(doc1, cands, DependencyKind);
      var s := EntryScan(doc1, cands, DependencyKind);
      if s.failure.None? {
        EntryScanFailure(s.doc, cands, PluginKind);
      }
    }
  }

  /** The candidates consider(modules) notifies, in order: parent, dependencies, plugins. */
  function Edges(d: Discovery): seq<nat>
  {
    (if d.parent.Some? && d.parent.value.Some? then [d.parent.value.value] else [])
    + (if d.dependencies.Some? then d.dependencies.value else [])
    + (if d.plugins.Some? then d.plugins.value else [])
  }

  /** The two ways the entry stages of consider can end. */
  lemma ScanStagesCases(doc: Element, cands: seq<Candidate>)
    ensures var s1 := EntryScan(doc, cands, DependencyKind); var s2 := EntryScan(s1.doc, cands, PluginKind);
      && (s1.failure.Some? ==> ScanStages(doc, cands) == Discovery(None, None, None, s1.doc, s1.failure))
      && (s1.failure.None? ==>
            ScanStages(doc, cands) == Discovery(None, Some(s1.found), if s2.failure.Some? then None else Some(s2.found), s2.doc, s2.failure))
  {
  }

  /** What the entry stages of consider add to the modules notified so far. */
  lemma ScanStagesSent<T>(xs: seq<T>, doc: Element, cands: seq<Candidate>, sent: seq<T>)
    requires |cands| == |xs|
    ensures var s1 := EntryScan(doc, cands, DependencyKind); var s2 := EntryScan(s1.doc, cands, PluginKind);
      var e := ScanStages(doc, cands);
      && (s1.failure.Some? ==> sent + Pick(xs, Edges(e)) == sent)
      && (s1.failure.None? && s2.failure.Some? ==> sent + Pick(xs, Edges(e)) == sent + Pick(xs, s1.found))
      && (s1.failure.None? && s2.failure.None? ==> sent + Pick(xs, Edges(e)) == sent + Pick(xs, s1.found) + Pick(xs, s2.found))
  {
    var s1 := EntryScan(doc, cands, DependencyKind);
    var s2 := EntryScan(s1.doc, cands, PluginKind);
    var e := ScanStages(doc, cands);
    hide EntryScan, Pick;
    if s1.failure.Some? {
      assert Edges(e) == [];
    } else if s2.failure.Some? {
      assert Edges(e) == s1.found;
    } else {
      assert Edges(e) == s1.found + s2.found;
      PickAppend(xs, s1.found, s2.found);
      assert sent + Pick(xs, s1.found) + Pick(xs, s2.found) == sent + (Pick(xs, s1.found) + Pick(xs, s2.found));
    }
  }

  /** Discover is detectParent followed by the entry stages, and the modules it notifies
      are the parent followed by those the entry stages notify. */
  lemma DiscoverParts<T>(xs: seq<T>, doc: Element, cands: seq<Candidate>)
    requires |cands| == |xs|
    ensures var d, probe := Discover(doc, cands), ParentProbe(doc, cands);
      && (probe.Err? ==> d == Discovery(None, None, None, doc, Some(probe.error)) && Pick(xs, Edges(d)) == [])
      && (probe.Ok? ==>
            var stages := ScanStages(AfterParent(doc, cands, probe.value), cands);
            && d == stages.(parent := Some(probe.value))
            && Pick(xs, Edges(d)) == (if probe.value.Some? then [xs[probe.value.value]] else []) + Pick(xs, Edges(stages)))
  {
    var d, probe := Discover(doc, cands), ParentProbe(doc, cands);
    hide EntryScan, Pick, ScanStages, ParentProbe, AfterParent;
    if probe.Err? {
      assert Edges(d) == [];
    } else {
      var stages := ScanStages(AfterParent(doc, cands, probe.value), cands);
      var first: seq<nat> := if probe.value.Some? then [probe.value.value] else [];
      assert Edges(d) == first + Edges(stages);
      PickAppend(xs, first, Edges(stages));
    }
  }

  /** The elements of `xs` at the indices `ix`, in that order. */
  function Pick<T>(xs: seq<T>, ix: seq<nat>): (r: seq<T>)
    requires forall k :: 0 <= k < |ix| ==> ix[k] < |xs|
    ensures |r| == |ix| && forall k :: 0 <= k < |ix| ==> r[k] == xs[ix[k]]
  {
    seq(|ix|, k requires 0 <= k < |ix| => xs[ix[k]])
  }


  lemma PickSnoc<T>(xs: seq<T>, ix: seq<nat>, j: nat)
    requires forall k :: 0 <= k < |ix| ==> ix[k] < |xs|
    requires j < |xs|
    ensures Pick(xs, ix + [j]) == Pick(xs, ix) + [xs[j]]
  {
    assert forall k :: 0 <= k < |ix| ==> (ix + [j])[k] == ix[k];
  }

  function Repeat<T>(x: T, n: nat): (r: seq<T>)
    ensures |r| == n && forall k :: 0 <= k < n ==> r[k] == x
  {
    seq(n, _ => x)
  }

  lemma PickAppend<T>(xs: seq<T>, a: seq<nat>, b: seq<nat>)
    requires forall k :: 0 <= k < |a| ==> a[k] < |xs|
    requires forall k :: 0 <= k < |b| ==> b[k] < |xs|
    ensures Pick(xs, a + b) == Pick(xs, a) + Pick(xs, b)
  {
    assert forall k :: 0 <= k < |a| ==> (a + b)[k] == a[k];
    assert forall k :: |a| <= k < |a| + |b| ==> (a + b)[k] == b[k - |a|];
  }

  lemma RepeatOne<T>(x: T)
    ensures forall n: nat :: Repeat(x, n) + [x] == Repeat(x, n + 1)
  {
  }

  // ---------------------------------------------------------------- the script text

  function LoadLine(name: string, path: string, version: Option<string>): string
  {
    name + " = load(\"" + path + "\", \"" + JavaString(version) + "\");\n"
  }

  function CallLine(name: string, operation: string, argument: string): string
  {
    name + "." + operation + "(" + argument + ");\n"
  }

  function CallLines(name: string, operation: string, arguments: seq<string>): (r: seq<string>)
    ensures |r| == |arguments| && forall k :: 0 <= k < |r| ==> r[k] == CallLine(name, operation, arguments[k])
  {
    seq(|arguments|, k requires 0 <= k < |arguments| => CallLine(name, operation, arguments[k]))
  }

  /** The lines of toString(), in order: the load line, the optional updateParent line,
      one updateDependency line per dependency, one updatePluginDependency line per plugin. */
  function ScriptLines(name: string, path: string, version: Option<string>, parent: Option<string>,
                       dependencies: seq<string>, plugins: seq<string>): (ls: seq<string>)
    ensures |ls| == 1 + (if parent.Some? then 1 else 0) + |dependencies| + |plugins|
    ensures ls[0] == LoadLine(name, path, version)
    ensures parent.Some? ==> ls[1] == CallLine(name, "updateParent", parent.value)
    ensures var d := if parent.Some? then 2 else 1;
      && (forall k :: 0 <= k < |dependencies| ==> ls[d + k] == CallLine(name, "updateDependency", dependencies[k]))
      && (forall k :: 0 <= k < |plugins| ==> ls[d + |dependencies| + k] == CallLine(name, "updatePluginDependency", plugins[k]))
  {
    [LoadLine(name, path, version)]
    + (if parent.Some? then [CallLine(name, "updateParent", parent.value)] else [])
    + CallLines(name, "updateDependency", dependencies)
    + CallLines(name, "updatePluginDependency", plugins)
  }

  /** The lines written one after the other. */
  function Join(ls: seq<string>): string
    decreases |ls|
  {
    if ls == [] then "" else Join(ls[..|ls| - 1]) + ls[|ls| - 1]
  }

  lemma {:induction false} JoinAppend(a: seq<string>, b: seq<string>)
    ensures Join(a + b) == Join(a) + Join(b)
    decreases |b|
  {
    if b == [] {
      assert a + b == a;
    } else {
      assert (a + b)[..|a + b| - 1] == a + b[..|b| - 1];
      JoinAppend(a, b[..|b| - 1]);
    }
  }

  lemma JoinOne(l: string)
    ensures Join([l]) == l
  {
    assert [l][..0] == [];
  }

  predicate AllOk<T>(rs: seq<Result<T>>)
  {
    forall k :: 0 <= k < |rs| ==> rs[k].Ok?
  }

  function Values<T>(rs: seq<Result<T>>): (vs: seq<T>)
    requires AllOk(rs)
    ensures |vs| == |rs| && forall k :: 0 <= k < |rs| ==> vs[k] == rs[k].value
  {
    seq(|rs|, k requires 0 <= k < |rs| => rs[k].value)
  }

  /** toString() from the names it needs: a null artifactId anywhere, or lists that
      consider() never set, are dereferenced; otherwise the lines and an empty line. */
  function Script(name: Result<string>, path: string, version: Option<string>, parent: Option<Result<string>>,
                  dependencies: Option<seq<Result<string>>>, plugins: Option<seq<Result<string>>>): (r: Result<string>)
    ensures r.Err? ==> r.error == NullRef
    ensures r.Ok? <==>
      && name.Ok? && (parent.Some? ==> parent.value.Ok?)
      && dependencies.Some? && AllOk(dependencies.value) && plugins.Some? && AllOk(plugins.value)
    ensures r.Ok? ==> r.value == Join(ScriptLines(name.value, path, version,
                                                  if parent.Some? then Some(parent.value.value) else None,
                                                  Values(dependencies.value), Values(plugins.value))) + "\n"
  {
    if name.Err? || (parent.Some? && parent.value.Err?) || dependencies.None? || !AllOk(dependencies.value)
       || plugins.None? || !AllOk(plugins.value)
    then Err(NullRef)
    else Ok(Join(ScriptLines(name.value, path, version, if parent.Some? then Some(parent.value.value) else None,
                             Values(dependencies.value), Values(plugins.value))) + "\n")
  }

  lemma JoinNone(name: string, operation: string)
    ensures Join(CallLines(name, operation, [])) == ""
  {
  }

  /** One more call line at the end of the text. */
  lemma JoinCallsSnoc(name: string, operation: string, arguments: seq<string>, x: string)
    ensures Join(CallLines(name, operation, arguments + [x])) ==
      Join(CallLines(name, operation, arguments)) + CallLine(name, operation, x)
  {
    var ls := CallLines(name, operation, arguments + [x]);
    assert ls[..|ls| - 1] == CallLines(name, operation, arguments);
  }

  /** The script's text is its parts written one after the other, as toString appends them. */
  lemma ScriptJoin(name: string, path: string, version: Option<string>, parent: Option<string>,
                   dependencies: seq<string>, plugins: seq<string>)
    ensures Join(ScriptLines(name, path, version, parent, dependencies, plugins)) ==
      LoadLine(name, path, version)
      + (if parent.Some? then CallLine(name, "updateParent", parent.value) else "")
      + Join(CallLines(name, "updateDependency", dependencies))
      + Join(CallLines(name, "updatePluginDependency", plugins))
  {
    var head := [LoadLine(name, path, version)];
    var p := if parent.Some? then [CallLine(name, "updateParent", parent.value)] else [];
    var ds := CallLines(name, "updateDependency", dependencies);
    var ps := CallLines(name, "updatePluginDependency", plugins);
    assert ScriptLines(name, path, version, parent, dependencies, plugins) == head + p + ds + ps;
    hide ScriptLines, CallLines;
    JoinAppend(head + p + ds, ps);
    JoinAppend(head + p, ds);
    JoinAppend(head, p);
    JoinOne(head[0]);
    if parent.Some? {
      JoinOne(p[0]);
    }
  }

  lemma LinesEnd(name: string, path: string, version: Option<string>, operation: string, argument: string)
    ensures EndsWith(LoadLine(name, path, version), ";\n")
    ensures EndsWith(CallLine(name, operation, argument), ";\n")
  {
    EndsWithAppend(name + " = load(\"" + path + "\", \"" + JavaString(version), "\");\n", ";\n");
    EndsWithAppend(name + "." + operation + "(" + argument, ");\n", ";\n");
  }

  /** The text of several lines starts with the first and ends with the last. */
  lemma JoinEnds(ls: seq<string>)
    requires |ls| > 0
    ensures StartsWith(Join(ls), ls[0])
    ensures EndsWith(ls[|ls| - 1], ";\n") ==> EndsWith(Join(ls), ";\n")
  {
    assert ls == [ls[0]] + ls[1..];
    JoinAppend([ls[0]], ls[1..]);
    JoinOne(ls[0]);
    StartsWithAppend(ls[0], Join(ls[1..]), ls[0]);
    if EndsWith(ls[|ls| - 1], ";\n") {
      EndsWithAppend(Join(ls[..|ls| - 1]), ls[|ls| - 1], ";\n");
    }
  }

  /** Every line of the script ends in ";\n". */
  lemma LastLineEnds(name: string, path: string, version: Option<string>, parent: Option<string>,
                     dependencies: seq<string>, plugins: seq<string>)
    ensures var ls := ScriptLines(name, path, version, parent, dependencies, plugins);
      EndsWith(ls[|ls| - 1], ";\n")
  {
    hide ScriptLines;
    var ls := ScriptLines(name, path, version, parent, dependencies, plugins);
    var n := |ls| - 1;
    var d := if parent.Some? then 2 else 1;
    if n == 0 {
      LinesEnd(name, path, version, "", "");
    } else if parent.Some? && n == 1 {
      LinesEnd(name, path, version, "updateParent", parent.value);
    } else if n < d + |dependencies| {
      LinesEnd(name, path, version, "updateDependency", dependencies[n - d]);
    } else {
      LinesEnd(name, path, version, "updatePluginDependency", plugins[n - d - |dependencies|]);
    }
  }

  /** A rendered script starts with the module's load line and ends with an empty line. */
  lemma ScriptShape(name: string, path: string, version: Option<string>, parent: Option<string>,
                    dependencies: seq<string>, plugins: seq<string>)
    ensures var text := Join(ScriptLines(name, path, version, parent, dependencies, plugins)) + "\n";
      && StartsWith(text, LoadLine(name, path, version))
      && EndsWith(text, ";\n\n")
  {
    var ls := ScriptLines(name, path, version, parent, dependencies, plugins);
    hide ScriptLines;
    LastLineEnds(name, path, version, parent, dependencies, plugins);
    JoinEnds(ls);
    StartsWithAppend(Join(ls), "\n", ls[0]);
    EndsWithNewline(Join(ls));
  }

  /** The moduleName() of each module, in order. */
  function Names(ms: seq<ReverseEngineeringModule>): seq<Result<string>>
    reads set m | m in ms :: m.pom
  {
    seq(|ms|, k requires 0 <= k < |ms| reads set m | m in ms :: m.pom => ModuleNameOf(ms[k].pom.root))
  }

  lemma NamesAt(ms: seq<ReverseEngineeringModule>)
    ensures |Names(ms)| == |ms| && forall k :: 0 <= k < |ms| ==> Names(ms)[k] == ModuleNameOf(ms[k].pom.root)
  {
  }

  /** One loop of toString(): a call line per module appended to the builder, or the
      dereferenced null of the first module without an artifactId. */
  method AppendCalls(builder: string, name: string, operation: string, ms: seq<ReverseEngineeringModule>)
    returns (r: Result<string>)
    ensures AllOk(Names(ms)) ==> r == Ok(builder + Join(CallLines(name, operation, Values(Names(ms)))))
    ensures !AllOk(Names(ms)) ==> r == Err(NullRef)
  {
    NamesAt(ms);
    hide Join, CallLines, CallLine, ModuleNameOf, Names, Values;
    var text := builder;
    ghost var written: seq<string> := [];
    JoinNone(name, operation);
    for i := 0 to |ms|
      invariant |written| == i
      invariant forall k :: 0 <= k < i ==> ModuleNameOf(ms[k].pom.root) == Ok(written[k])
      invariant text == builder + Join(CallLines(name, operation, written))
    {
      var n := ModuleNameOf(ms[i].pom.root);
      if n.Err? {
        assert Names(ms)[i].Err?;
        return Err(NullRef);
      }
      JoinCallsSnoc(name, operation, written, n.value);
      text := text + CallLine(name, operation, n.value);
      written := written + [n.value];
    }
    assert written == Values(Names(ms));
    return Ok(text);
  }

  // ---------------------------------------------------------------- the module

  class ReverseEngineeringModule {
    /** The Module part of this module: its pom, which the probes edit. */
    const pom: Module
    var parent: Option<ReverseEngineeringModule>
    /** null until consider() sets it. */
    var dependencies: Option<seq<ReverseEngineeringModule>>
    var pluginDependencies: Option<seq<ReverseEngineeringModule>>
    /** The modules that found this one as parent, dependency or plugin dependency. */
    var dependsOnMe: seq<ReverseEngineeringModule>

    constructor (pom: Module)
      ensures this.pom == pom
      ensures parent.None? && dependencies.None? && pluginDependencies.None? && dependsOnMe == []
    {
      this.pom := pom;
      parent := None;
      dependencies := None;
      pluginDependencies := None;
      dependsOnMe := [];
    }

    /** The modules as candidates for this module's probes. */
    function Candidates(modules: seq<ReverseEngineeringModule>): (cs: seq<Candidate>)
      reads set m | m in modules && m.pom != pom :: m.pom
      ensures |cs| == |modules|
    {
      seq(|modules|, i requires 0 <= i < |modules| reads set m | m in modules && m.pom != pom :: m.pom =>
        if modules[i].pom == pom then Own else Other(Identity(modules[i].pom.root)))
    }

    /** The i-th candidate: this module itself, or the identity another module's pom has now. */
    lemma CandidateAt(modules: seq<ReverseEngineeringModule>, i: nat)
      requires i < |modules|
      ensures Candidates(modules)[i] == if modules[i].pom == pom then Own else Other(Identity(modules[i].pom.root))
    {
    }

    /** The probes edit only this module's own pom, so the candidates stay as they were. */
    twostate lemma CandidatesStable(modules: seq<ReverseEngineeringModule>)
      requires forall i :: 0 <= i < |modules| && modules[i].pom != pom ==> modules[i].pom.root == old(modules[i].pom.root)
      ensures Candidates(modules) == old(Candidates(modules))
    {
    }

    /** subModules(): the texts of the `modules` children in document order; none
        without a `modules` element. */
    method SubModules() returns (r: seq<string>)
      ensures |r| == |ChildrenAt(pom.root, ["modules"])|
      ensures forall k :: 0 <= k < |r| ==> r[k] == ChildrenAt(pom.root, ["modules"])[k].text
    {
      r := [];
      ResolveOne(pom.root, "modules");
      var modulesElement := FirstNamed(pom.root.children, "modules");
      if modulesElement.Some? {
        AtCons(pom.root, modulesElement.value, []);
        assert [modulesElement.value] + [] == [modulesElement.value];
        var modules := pom.root.children[modulesElement.value].children;
        for i := 0 to |modules|
          invariant |r| == i && forall k :: 0 <= k < i ==> r[k] == modules[k].text
        {
          r := r + [modules[i].text];
        }
      }
    }

    /** detectParent(modules): the first module whose parentVersion(module) probe does not
        raise an argument error; that probe's write is kept. */
    method DetectParent(modules: seq<ReverseEngineeringModule>) returns (r: Result<Option<ReverseEngineeringModule>>)
      modifies pom`root
      ensures var doc := old(pom.root); var cands := old(Candidates(modules)); var probe := ParentProbe(doc, cands);
        && (probe.Err? ==> r == Err(probe.error) && pom.root == doc)
        && (probe == Ok(None) ==> r == Ok(None) && pom.root == doc)
        && (probe.Ok? && probe.value.Some? ==>
              && r == Ok(Some(modules[probe.value.value]))
              && pom.root == Apply(doc, ParentEdit(doc, IdOf(cands[probe.value.value], doc))))
    {
      hide ParentEdit, Identity, SetText, Resolve;
      ghost var doc := pom.root;
      ghost var cands := Candidates(modules);
      var i := 0;
      while i < |modules|
        invariant 0 <= i <= |modules|
        invariant pom.root == doc
        invariant ParentProbe(doc, cands) == ShiftIndex(ParentProbe(doc, cands[i..]), i)
      {
        var candidate := modules[i];
        var id := Identity(candidate.pom.root);
        CandidateAt(modules, i);
        assert id == IdOf(cands[i], doc);
        ParentProbeStep(doc, cands, i);
        var outcome := pom.SetParentVersionFrom(id);
        if outcome == Pass {
          return Ok(Some(candidate));
        }
        if outcome != Fail(Arg) {
          return Err(outcome.error);
        }
        i := i + 1;
      }
      assert cands[i..] == [];
      return Ok(None);
    }

    /** One probe of findDependencies / findPluginDependencies: updateDependency (or
        updatePluginDependency) with the candidate's identity, read from its pom now. */
    method ProbeEntry(candidate: ReverseEngineeringModule, kind: Kind, ghost doc: Element, ghost cands: seq<Candidate>, ghost i: nat)
      returns (outcome: Outcome)
      requires i < |cands|
      requires cands[i] == if candidate.pom == pom then Own else Other(Identity(candidate.pom.root))
      requires ScanBefore(doc, cands, kind, i).failure.None? && pom.root == ScanBefore(doc, cands, kind, i).doc
      modifies pom`root
      ensures var prev, next := ScanBefore(doc, cands, kind, i), ScanBefore(doc, cands, kind, i + 1);
        && pom.root == next.doc
        && (outcome == Pass ==> next.found == prev.found + [i] && next.failure.None?)
        && (outcome == Fail(Arg) ==> next == prev)
        && (outcome != Pass && outcome != Fail(Arg) ==> next.failure == Some(outcome.error))
    {
      ghost var prev := ScanBefore(doc, cands, kind, i);
      EntryScanStep(doc, cands, kind, i);
      hide EntryEdit, Identity, SetText, Resolve, Probe, EntryScan;
      var id := Identity(candidate.pom.root);
      assert id == IdOf(cands[i], prev.doc);
      if kind == DependencyKind {
        outcome := pom.UpdateDependency(id);
      } else {
        outcome := pom.UpdatePluginDependency(id);
      }
      ProbeOutcome(prev, i, cands[i], kind, outcome);
    }

    /** findDependencies / findPluginDependencies: the modules whose probe succeeds, in
        input order; a probe's argument error is skipped, any other error propagates. */
    method FindEntries(modules: seq<ReverseEngineeringModule>, kind: Kind) returns (r: Result<seq<ReverseEngineeringModule>>)
      modifies pom`root
      ensures var s := EntryScan(old(pom.root), old(Candidates(modules)), kind);
        && pom.root == s.doc
        && (s.failure.Some? ==> r == Err(s.failure.value))
        && (s.failure.None? ==> r == Ok(Pick<ReverseEngineeringModule>(modules, s.found)))
    {
      ghost var doc := pom.root;
      ghost var cands := Candidates(modules);
      assert ScanBefore(doc, cands, kind, 0) == Scan([], doc, None);
      hide EntryEdit, Identity, SetText, Resolve, Probe, Pick, EntryScan;
      var result: seq<ReverseEngineeringModule> := [];
      var i := 0;
      while i < |modules|
        invariant 0 <= i <= |modules|
        invariant ScanBefore(doc, cands, kind, i).failure.None? && pom.root == ScanBefore(doc, cands, kind, i).doc
        invariant result == Pick<ReverseEngineeringModule>(modules, ScanBefore(doc, cands, kind, i).found)
      {
        var candidate := modules[i];
        CandidateAt(modules, i);
        var outcome := ProbeEntry(candidate, kind, doc, cands, i);
        if outcome == Pass {
          PickSnoc(modules, ScanBefore(doc, cands, kind, i).found, i);
          result := result + [candidate];
        } else if outcome != Fail(Arg) {
          EntryScanStops(doc, cands, kind, i + 1);
          return Err(outcome.error);
        }
        i := i + 1;
      }
      assert cands[..i] == cands;
      return Ok(result);
    }

    /** findDependencies(modules). */
    method FindDependencies(modules: seq<ReverseEngineeringModule>) returns (r: Result<seq<ReverseEngineeringModule>>)
      modifies pom`root
      ensures var s := EntryScan(old(pom.root), old(Candidates(modules)), DependencyKind);
        && pom.root == s.doc
        && (s.failure.Some? ==> r == Err(s.failure.value))
        && (s.failure.None? ==> r == Ok(Pick<ReverseEngineeringModule>(modules, s.found)))
    {
      r := FindEntries(modules, DependencyKind);
    }

    /** findPluginDependencies(modules). */
    method FindPluginDependencies(modules: seq<ReverseEngineeringModule>) returns (r: Result<seq<ReverseEngineeringModule>>)
      modifies pom`root
      ensures var s := EntryScan(old(pom.root), old(Candidates(modules)), PluginKind);
        && pom.root == s.doc
        && (s.failure.Some? ==> r == Err(s.failure.value))
        && (s.failure.None? ==> r == Ok(Pick<ReverseEngineeringModule>(modules, s.found)))
    {
      r := FindEntries(modules, PluginKind);
    }

    /** consider(modules): detectParent, then findDependencies, then findPluginDependencies,
        each stored as it completes; every module found is told, by addDependency, that this
        module depends on it. An error ends consider and leaves the later fields as they were. */
    method Consider(modules: seq<ReverseEngineeringModule>) returns (r: Outcome)
      modifies this`parent, this`dependencies, this`pluginDependencies, pom`root
      modifies modules`dependsOnMe
      ensures var d := Discover(old(pom.root), old(Candidates(modules)));
        && pom.root == d.doc
        && r == (if d.failure.Some? then Fail(d.failure.value) else Pass)
        && parent == (match d.parent case None => old(parent) case Some(p) => if p.Some? then Some(modules[p.value]) else None)
        && dependencies == (if d.dependencies.Some? then Some(Pick<ReverseEngineeringModule>(modules, d.dependencies.value)) else old(dependencies))
        && pluginDependencies == (if d.plugins.Some? then Some(Pick<ReverseEngineeringModule>(modules, d.plugins.value)) else old(pluginDependencies))
        && forall j :: 0 <= j < |modules| ==>
             modules[j].dependsOnMe == old(modules[j].dependsOnMe) + Repeat<ReverseEngineeringModule>(this, multiset(Pick<ReverseEngineeringModule>(modules, Edges(d)))[modules[j]])
    {
      ghost var base := map x | x in modules :: x.dependsOnMe;
      assert Tallied(modules, base, []);
      ghost var doc, cands := pom.root, Candidates(modules);
      DiscoverParts(modules, doc, cands);
      hide Discover, ScanStages, ParentProbe, ParentEdit, EntryScan, EntryEdit, Identity, SetText, Resolve, Apply, Repeat, Pick, Candidates, Tallied, AfterParent;
      r := ConsiderParent(modules, base);
      if r.Pass? {
        r := ConsiderEntries(modules, base, if parent.Some? then [parent.value] else []);
      }
      TalliedMeans(modules, base, Pick<ReverseEngineeringModule>(modules, Edges(Discover(doc, cands))));
    }

    /** The first stage of consider: detectParent stored, then addDependency(this) on the parent found. */
    method ConsiderParent(modules: seq<ReverseEngineeringModule>, ghost base: map<ReverseEngineeringModule, seq<ReverseEngineeringModule>>)
      returns (r: Outcome)
      requires Tallied(modules, base, [])
      modifies pom`root, this`parent, modules`dependsOnMe
      ensures dependencies == old(dependencies) && pluginDependencies == old(pluginDependencies)
      ensures var doc, cands := old(pom.root), old(Candidates(modules));
        var probe := ParentProbe(doc, cands);
        && (probe.Err? ==> r == Fail(probe.error) && pom.root == doc && parent == old(parent) && Tallied(modules, base, []))
        && (probe == Ok(None) ==> r == Pass && pom.root == doc && parent == None && Tallied(modules, base, []))
        && (probe.Ok? && probe.value.Some? ==>
              var k := probe.value.value;
              && r == Pass
              && pom.root == Apply(doc, ParentEdit(doc, IdOf(cands[k], doc)))
              && parent == Some(modules[k])
              && Tallied(modules, base, [modules[k]]))
      ensures Candidates(modules) == old(Candidates(modules))
    {
      ghost var probe := ParentProbe(pom.root, Candidates(modules));
      hide ParentProbe, ParentEdit, Identity, SetText, Resolve, Apply, Repeat, Tallied, Pick;
      var found := DetectParent(modules);
      CandidatesStable(modules);
      if found.Err? {
        return Fail(found.error);
      }
      parent := found.value;
      if parent.Some? {
        assert parent.value == modules[probe.value.value];
        NotifyOne(parent.value, modules, base, []);
        assert [] + [parent.value] == [parent.value];
      }
      return Pass;
    }

    /** The stages of consider after detectParent: findDependencies, and findPluginDependencies
        unless that one failed. */
    method ConsiderEntries(modules: seq<ReverseEngineeringModule>,
                  ghost base: map<ReverseEngineeringModule, seq<ReverseEngineeringModule>>, ghost sent: seq<ReverseEngineeringModule>)
      returns (r: Outcome)
      requires Tallied(modules, base, sent)
      modifies pom`root, this`dependencies, this`pluginDependencies, modules`dependsOnMe
      ensures parent == old(parent)
      ensures var e := ScanStages(old(pom.root), old(Candidates(modules)));
        && pom.root == e.doc
        && r == (if e.failure.Some? then Fail(e.failure.value) else Pass)
        && dependencies == (if e.dependencies.Some? then Some(Pick<ReverseEngineeringModule>(modules, e.dependencies.value)) else old(dependencies))
        && pluginDependencies == (if e.plugins.Some? then Some(Pick<ReverseEngineeringModule>(modules, e.plugins.value)) else old(pluginDependencies))
        && Tallied(modules, base, sent + Pick<ReverseEngineeringModule>(modules, Edges(e)))
      ensures Candidates(modules) == old(Candidates(modules))
    {
      ghost var cands := Candidates(modules);
      ghost var s1 := EntryScan(pom.root, cands, DependencyKind);
      ghost var s2 := EntryScan(s1.doc, cands, PluginKind);
      ghost var e := ScanStages(pom.root, cands);
      hide ScanStages, EntryScan, EntryEdit, Probe, Identity, SetText, Resolve, Apply, Tallied, Pick, Candidates;
      ScanStagesCases(pom.root, cands);
      ScanStagesSent(modules, pom.root, cands, sent);
      r := ConsiderDependencies(modules, base, sent);
      if r.Pass? {
        r := ConsiderPlugins(modules, base, sent + Pick<ReverseEngineeringModule>(modules, s1.found));
      }
    }

    /** The second stage of consider: findDependencies stored, then addDependency(this) on each module found. */
    method ConsiderDependencies(modules: seq<ReverseEngineeringModule>,
                  ghost base: map<ReverseEngineeringModule, seq<ReverseEngineeringModule>>, ghost sent: seq<ReverseEngineeringModule>)
      returns (r: Outcome)
      requires Tallied(modules, base, sent)
      modifies pom`root, this`dependencies, modules`dependsOnMe
      ensures parent == old(parent) && pluginDependencies == old(pluginDependencies)
      ensures var s := EntryScan(old(pom.root), old(Candidates(modules)), DependencyKind);
        && pom.root == s.doc
        && r == (if s.failure.Some? then Fail(s.failure.value) else Pass)
        && dependencies == (if s.failure.Some? then old(dependencies) else Some(Pick<ReverseEngineeringModule>(modules, s.found)))
        && Tallied(modules, base, if s.failure.Some? then sent else sent + Pick<ReverseEngineeringModule>(modules, s.found))
      ensures Candidates(modules) == old(Candidates(modules))
    {
      hide EntryScan, EntryEdit, Probe, Identity, SetText, Resolve, Apply, Tallied;
      var found := FindDependencies(modules);
      CandidatesStable(modules);
      if found.Err? {
        return Fail(found.error);
      }
      dependencies := Some(found.value);
      Notify(found.value, modules, base, sent);
      return Pass;
    }

    /** The last stage of consider: findPluginDependencies stored, then addDependency(this) on each module found. */
    method ConsiderPlugins(modules: seq<ReverseEngineeringModule>,
                  ghost base: map<ReverseEngineeringModule, seq<ReverseEngineeringModule>>, ghost sent: seq<ReverseEngineeringModule>)
      returns (r: Outcome)
      requires Tallied(modules, base, sent)
      modifies pom`root, this`pluginDependencies, modules`dependsOnMe
      ensures parent == old(parent) && dependencies == old(dependencies)
      ensures var s := EntryScan(old(pom.root), old(Candidates(modules)), PluginKind);
        && pom.root == s.doc
        && r == (if s.failure.Some? then Fail(s.failure.value) else Pass)
        && pluginDependencies == (if s.failure.Some? then old(pluginDependencies) else Some(Pick<ReverseEngineeringModule>(modules, s.found)))
        && Tallied(modules, base, if s.failure.Some? then sent else sent + Pick<ReverseEngineeringModule>(modules, s.found))
      ensures Candidates(modules) == old(Candidates(modules))
    {
      hide EntryScan, EntryEdit, Probe, Identity, SetText, Resolve, Apply, Tallied;
      var found := FindPluginDependencies(modules);
      CandidatesStable(modules);
      if found.Err? {
        return Fail(found.error);
      }
      pluginDependencies := Some(found.value);
      Notify(found.value, modules, base, sent);
      return Pass;
    }

    /** Every module of `modules` has heard from this module once per occurrence in
        `sent`, on top of what it had heard before consider (`base`). */
    ghost predicate Tallied(modules: seq<ReverseEngineeringModule>, base: map<ReverseEngineeringModule, seq<ReverseEngineeringModule>>, sent: seq<ReverseEngineeringModule>)
      reads modules`dependsOnMe
    {
      forall j :: 0 <= j < |modules| ==>
        modules[j] in base && modules[j].dependsOnMe == base[modules[j]] + Repeat<ReverseEngineeringModule>(this, multiset(sent)[modules[j]])
    }

    lemma TalliedMeans(modules: seq<ReverseEngineeringModule>, base: map<ReverseEngineeringModule, seq<ReverseEngineeringModule>>, sent: seq<ReverseEngineeringModule>)
      requires Tallied(modules, base, sent)
      ensures forall j :: 0 <= j < |modules| ==>
        modules[j].dependsOnMe == base[modules[j]] + Repeat<ReverseEngineeringModule>(this, multiset(sent)[modules[j]])
    {
    }

    /** The loops of consider: addDependency(this) on every module found, in order. The
        ghost parameters tally what the earlier stages of consider have sent. */
    method Notify(targets: seq<ReverseEngineeringModule>, ghost modules: seq<ReverseEngineeringModule>,
                  ghost base: map<ReverseEngineeringModule, seq<ReverseEngineeringModule>>, ghost sent: seq<ReverseEngineeringModule>)
      requires forall k :: 0 <= k < |targets| ==> targets[k] in modules
      requires Tallied(modules, base, sent)
      modifies (set m | m in targets)`dependsOnMe
      ensures Tallied(modules, base, sent + targets)
    {
      hide Tallied;
      assert sent + targets[..0] == sent;
      for i := 0 to |targets|
        invariant Tallied(modules, base, sent + targets[..i])
      {
        NotifyOne(targets[i], modules, base, sent + targets[..i]);
        assert sent + targets[..i + 1] == (sent + targets[..i]) + [targets[i]];
      }
      assert targets[..|targets|] == targets;
    }

    /** One addDependency(this) of the loops of consider, with its effect on the tally. */
    method NotifyOne(t: ReverseEngineeringModule, ghost modules: seq<ReverseEngineeringModule>,
                     ghost base: map<ReverseEngineeringModule, seq<ReverseEngineeringModule>>, ghost sent: seq<ReverseEngineeringModule>)
      requires Tallied(modules, base, sent)
      modifies t`dependsOnMe
      ensures Tallied(modules, base, sent + [t])
      ensures Candidates(modules) == old(Candidates(modules))
    {
      t.AddDependency(this);
      forall j | 0 <= j < |modules|
        ensures modules[j].dependsOnMe == base[modules[j]] + Repeat<ReverseEngineeringModule>(this, multiset(sent + [t])[modules[j]])
      {
        assert multiset(sent + [t])[modules[j]] == multiset(sent)[modules[j]] + if modules[j] == t then 1 else 0;
        RepeatOne(this);
      }
    }

    /** addDependency(m): m depends on this module. */
    method AddDependency(iDependOnYou: ReverseEngineeringModule)
      modifies this`dependsOnMe
      ensures dependsOnMe == old(dependsOnMe) + [iDependOnYou]
    {
      dependsOnMe := dependsOnMe + [iDependOnYou];
    }

    /** toString(): the script lines that reload this module and redo what consider() found. */
    method ToString() returns (r: Result<string>)
      ensures r == Script(ModuleNameOf(pom.root), pom.moduleName, Version(pom.root),
                          if parent.Some? then Some(ModuleNameOf(parent.value.pom.root)) else None,
                          if dependencies.Some? then Some(Names(dependencies.value)) else None,
                          if pluginDependencies.Some? then Some(Names(pluginDependencies.value)) else None)
    {
      hide Join, CallLines, CallLine, LoadLine, ScriptLines, Names, Values, AllOk, ModuleNameOf, Version, JavaString;
      var name := ModuleNameOf(pom.root);
      if name.Err? {
        return Err(NullRef);
      }
      var builder := LoadLine(name.value, pom.moduleName, Version(pom.root));
      ghost var p: Option<string> := None;
      if parent.Some? {
        var parentName := ModuleNameOf(parent.value.pom.root);
        if parentName.Err? {
          return Err(NullRef);
        }
        p := Some(parentName.value);
        builder := builder + CallLine(name.value, "updateParent", parentName.value);
      }
      if dependencies.None? {
        return Err(NullRef);
      }
      var withDependencies := AppendCalls(builder, name.value, "updateDependency", dependencies.value);
      if withDependencies.Err? {
        return Err(NullRef);
      }
      if pluginDependencies.None? {
        return Err(NullRef);
      }
      var withPlugins := AppendCalls(withDependencies.value, name.value, "updatePluginDependency", pluginDependencies.value);
      if withPlugins.Err? {
        return Err(NullRef);
      }
      ghost var head := LoadLine(name.value, pom.moduleName, Version(pom.root));
      assert builder == head + (if p.Some? then CallLine(name.value, "updateParent", p.value) else "");
      ScriptJoin(name.value, pom.moduleName, Version(pom.root), p,
                 Values(Names(dependencies.value)), Values(Names(pluginDependencies.value)));
      return Ok(withPlugins.value + "\n");
    }

    /** compareTo(x): 0 for this very module, -1 when x depends on it, 1 otherwise. */
    function CompareTo(x: ReverseEngineeringModule): (r: int)
      reads this
      ensures r == 0 <==> x == this
      ensures r == -1 <==> x != this && x in dependsOnMe
      ensures r == 1 <==> x != this && x !in dependsOnMe
    {
      if x == this then 0 else if x in dependsOnMe then -1 else 1
    }

    /** A module that consider() told about this one orders this one first. */
    lemma NotifiedComesFirst(m: ReverseEngineeringModule, before: seq<ReverseEngineeringModule>, n: nat)
      requires m != this && n > 0
      requires m.dependsOnMe == before + Repeat<ReverseEngineeringModule>(this, n)
      ensures m.CompareTo(this) == -1
    {
      assert m.dependsOnMe[|before|] == this;
    }
  }
}
