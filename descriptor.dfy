/** What Module.java reads from a pom and which single text each of its edits writes,
    as functions of the document. The class in pom.dfy performs these edits in place. */
module Descriptor {
  import opened Base
  import opened Xml
  import opened Gav

  const SnapshotSuffix := "-SNAPSHOT"

  predicate IsSnapshot(s: string)
  {
    EndsWith(s, SnapshotSuffix)
  }

  // ---------------------------------------------------------------- identity

  /** The text of `item` inside the parent block (parent/item), if both exist. */
  function ParentItem(doc: Element, item: string): (r: Option<string>)
    ensures r == match Resolve(doc, ["parent", item]) case None => None case Some(p) => TextAt(doc, p)
  {
    ResolveTwo(doc, "parent", item);
    match Child(doc, "parent")
    case None => None
    case Some(parent) => ChildText(parent, item)
  }

  /** myOrParent: the module's own `item` if it has one, otherwise the parent block's,
      otherwise null. Only one parent hop is considered. */
  function MyOrParent(doc: Element, item: string): (r: Option<string>)
    ensures Resolve(doc, [item]).Some? ==> r == TextAt(doc, Resolve(doc, [item]).value)
    ensures Resolve(doc, [item]).None? ==> r == ParentItem(doc, item)
  {
    ResolveOne(doc, item);
    match ChildText(doc, item)
    case Some(v) => Some(v)
    case None => ParentItem(doc, item)
  }

  /** groupId(): the module's own groupId, otherwise the parent block's. */
  function GroupId(doc: Element): (r: Option<string>)
    ensures Resolve(doc, ["groupId"]).Some? ==> r == TextAt(doc, Resolve(doc, ["groupId"]).value)
    ensures Resolve(doc, ["groupId"]).None? ==>
      r == match Resolve(doc, ["parent", "groupId"]) case None => None case Some(p) => TextAt(doc, p)
  {
    MyOrParent(doc, "groupId")
  }

  /** artifactId(): the module's own artifactId; the parent is never consulted. */
  function ArtifactId(doc: Element): (r: Option<string>)
    ensures r == match Resolve(doc, ["artifactId"]) case None => None case Some(p) => TextAt(doc, p)
  {
    ResolveOne(doc, "artifactId");
    ChildText(doc, "artifactId")
  }

  /** version(): the module's own version, otherwise the parent block's. */
  function Version(doc: Element): (r: Option<string>)
    ensures Resolve(doc, ["version"]).Some? ==> r == TextAt(doc, Resolve(doc, ["version"]).value)
    ensures Resolve(doc, ["version"]).None? ==>
      r == match Resolve(doc, ["parent", "version"]) case None => None case Some(p) => TextAt(doc, p)
  {
    MyOrParent(doc, "version")
  }

  /** parentVersion(): the text of parent/version, null when there is no parent block. */
  function ParentVersion(doc: Element): (r: Option<string>)
    ensures r == match Resolve(doc, ["parent", "version"]) case None => None case Some(p) => TextAt(doc, p)
  {
    ParentItem(doc, "version")
  }

  /** The coordinates a module presents to the modules that refer to it. */
  function Identity(doc: Element): Coordinates
  {
    Coordinates(GroupId(doc), ArtifactId(doc), Version(doc))
  }

  /** A one-name lookup is getChild. */
  lemma ResolveOne(doc: Element, item: string)
    ensures Resolve(doc, [item]) == match FirstNamed(doc.children, item) case None => None case Some(i) => Some([i])
    ensures Resolve(doc, [item]).Some? ==> TextAt(doc, Resolve(doc, [item]).value) == ChildText(doc, item)
  {
    assert [item][0] == item && [item][1..] == [];
    match FirstNamed(doc.children, item)
    case None =>
    case Some(i) =>
      AtCons(doc, i, []);
      assert [i] + [] == [i];
  }

  /** A two-name lookup is getChild twice. */
  lemma ResolveTwo(doc: Element, outer: string, inner: string)
    ensures Resolve(doc, [outer, inner]) ==
      match FirstNamed(doc.children, outer)
      case None => None
      case Some(i) => match FirstNamed(doc.children[i].children, inner) case None => None case Some(j) => Some([i, j])
    ensures Resolve(doc, [outer, inner]).Some? ==>
      TextAt(doc, Resolve(doc, [outer, inner]).value) == ChildText(Child(doc, outer).value, inner)
  {
    assert [outer, inner][0] == outer && [outer, inner][1..] == [inner];
    match FirstNamed(doc.children, outer)
    case None =>
    case Some(i) =>
      ResolveOne(doc.children[i], inner);
      match FirstNamed(doc.children[i].children, inner)
      case None =>
      case Some(j) =>
        AtCons(doc, i, [j]);
        assert [i] + [j] == [i, j];
  }

  // ---------------------------------------------------------------- edits

  /** The document after a successful edit; a failed edit leaves it as it was. */
  function Apply(doc: Element, r: Result<Edit>): Element
    requires r.Ok? ==> Fits(doc, r.value)
  {
    if r.Ok? then SetText(doc, r.value.path, r.value.text) else doc
  }

  function OutcomeOf(r: Result<Edit>): Outcome
  {
    if r.Ok? then Pass else Fail(r.error)
  }

  /** groupId(String) / artifactId(String): the own child gets the text; a missing child
      is the NullPointerException of getChild(..).setText. */
  function OwnEdit(doc: Element, item: string, v: Option<string>): (r: Result<Edit>)
    ensures r.Ok? <==> Resolve(doc, [item]).Some?
    ensures r.Ok? ==> r.value == Edit(Resolve(doc, [item]).value, JdomText(v))
    ensures r.Err? ==> r.error == NullRef
  {
    ResolveOne(doc, item);
    match FirstNamed(doc.children, item)
    case None => Err(NullRef)
    case Some(i) => Ok(Edit([i], JdomText(v)))
  }

  /** version(String): refused with a state error when the pom had no version of its own
      when it was loaded (`original`); otherwise the own version child gets the text. */
  function VersionEdit(doc: Element, original: Option<string>, v: Option<string>): (r: Result<Edit>)
    ensures original.None? ==> r == Err(State)
    ensures original.Some? ==> r == OwnEdit(doc, "version", v)
  {
    if original.None? then Err(State) else OwnEdit(doc, "version", v)
  }

  /** The commit message the first version bump seeds. */
  function BumpMessage(original: string, v: Option<string>): string
  {
    "Bump " + original + " -> " + JavaString(v)
  }

  /** parentVersion(String): no parent block is an argument error, a parent block
      without a version is a state error, otherwise parent/version gets `v`. */
  function ParentVersionEdit(doc: Element, v: string): (r: Result<Edit>)
    ensures Resolve(doc, ["parent"]).None? ==> r == Err(Arg)
    ensures Resolve(doc, ["parent"]).Some? && Resolve(doc, ["parent", "version"]).None? ==> r == Err(State)
    ensures Resolve(doc, ["parent", "version"]).Some? ==> r == Ok(Edit(Resolve(doc, ["parent", "version"]).value, v))
  {
    ResolveOne(doc, "parent");
    ResolveTwo(doc, "parent", "version");
    match FirstNamed(doc.children, "parent")
    case None => Err(Arg)
    case Some(i) =>
      match FirstNamed(doc.children[i].children, "version")
      case None => Err(State)
      case Some(j) => Ok(Edit([i, j], v))
  }

  /** The parent block names module `m`: its groupId and artifactId exist and equal m's. */
  predicate NamesParent(doc: Element, m: Coordinates)
  {
    && ParentItem(doc, "groupId").Some? && ParentItem(doc, "artifactId").Some?
    && m.groupId == ParentItem(doc, "groupId") && m.artifactId == ParentItem(doc, "artifactId")
  }

  /** parentVersion(Module): the parent block must exist (argument error) and name `m`
      (argument error on a mismatch), and must hold a version (state error); parent/version
      then gets m's version. A parent block without groupId or artifactId, or a null
      groupId or artifactId of `m` where it is compared, is a NullPointerException. */
  function ParentEdit(doc: Element, m: Coordinates): (r: Result<Edit>)
    ensures r.Ok? ==> r == ParentVersionEdit(doc, JdomText(m.version))
    ensures r.Ok? ==> Fits(doc, r.value)
  {
    ResolveOne(doc, "parent");
    ResolveTwo(doc, "parent", "version");
    match Child(doc, "parent")
    case None => Err(Arg)
    case Some(parent) =>
      var existingGroupId := ChildText(parent, "groupId");
      var existingArtifactId := ChildText(parent, "artifactId");
      if existingGroupId.None? || existingArtifactId.None? then Err(NullRef)
      else if m.groupId.None? then Err(NullRef)
      else if m.groupId != existingGroupId then Err(Arg)
      else if m.artifactId.None? then Err(NullRef)
      else if m.artifactId != existingArtifactId then Err(Arg)
      else match ParentVersionEdit(doc, JdomText(m.version))
        case Err(_) => Err(State)
        case Ok(ed) => Ok(ed)
  }

  /** The outcomes of parentVersion(Module): no parent block, or a parent block naming
      another module, is an argument error; a parent block naming `m` without a version is
      a state error; with a version the edit succeeds; the rest are null dereferences. */
  lemma ParentEditCases(doc: Element, m: Coordinates)
    ensures var r := ParentEdit(doc, m);
      && (r == Err(Arg) <==>
            || Resolve(doc, ["parent"]).None?
            || (&& ParentItem(doc, "groupId").Some? && ParentItem(doc, "artifactId").Some? && m.groupId.Some?
                && (m.groupId != ParentItem(doc, "groupId") || (m.artifactId.Some? && m.artifactId != ParentItem(doc, "artifactId")))))
      && (r == Err(State) <==> NamesParent(doc, m) && Resolve(doc, ["parent", "version"]).None?)
      && (r.Ok? <==> NamesParent(doc, m) && Resolve(doc, ["parent", "version"]).Some?)
      && (r.Ok? ==> r.value == Edit(Resolve(doc, ["parent", "version"]).value, JdomText(m.version)))
      && (r.Err? ==> r.error != Unsupported)
  {
    ResolveOne(doc, "parent");
    ResolveTwo(doc, "parent", "version");
  }

  /** updateProperty: properties/name gets `v`; a missing properties block or a missing
      property is an argument error. */
  function PropertyEdit(doc: Element, name: string, v: string): (r: Result<Edit>)
    ensures r.Ok? <==> Resolve(doc, ["properties", name]).Some?
    ensures r.Ok? ==> r.value == Edit(Resolve(doc, ["properties", name]).value, v)
    ensures r.Err? ==> r.error == Arg
  {
    ResolveTwo(doc, "properties", name);
    match FirstNamed(doc.children, "properties")
    case None => Err(Arg)
    case Some(i) =>
      match FirstNamed(doc.children[i].children, name)
      case None => Err(Arg)
      case Some(j) => Ok(Edit([i, j], v))
  }

  /** The property a version text refers to: `${name}` names property `name`;
      anything else is a literal version. */
  function PropertyName(t: string): (r: Option<string>)
    ensures r.Some? <==> StartsWith(t, "${") && EndsWith(t, "}")
    ensures r.Some? ==> t == "${" + r.value + "}"
  {
    if StartsWith(t, "${") && EndsWith(t, "}") then
      assert t[1] == '{' && t[|t| - 1] == '}';
      var name := t[2..][..|t| - 3];
      assert t == t[..2] + name + t[|t| - 1..];
      Some(name)
    else None
  }

  lemma PlaceholderRoundTrip(name: string)
    ensures PropertyName("${" + name + "}") == Some(name)
  {
    var t := "${" + name + "}";
    assert t[..2] == "${" && t[|t| - 1..] == "}";
    var r := PropertyName(t);
    assert "${" + r.value + "}" == "${" + name + "}";
    assert r.value == t[2..|t| - 1];
  }

  /** The two lists updateDependency / updatePluginDependency look in. */
  datatype Kind = DependencyKind | PluginKind

  /** The management list, searched first. */
  function ManagedList(kind: Kind): seq<string>
  {
    match kind
    case DependencyKind => ["dependencyManagement", "dependencies"]
    case PluginKind => ["build", "pluginManagement", "plugins"]
  }

  /** The plain list, searched only when the management list has no match. */
  function PlainList(kind: Kind): seq<string>
  {
    match kind
    case DependencyKind => ["dependencies"]
    case PluginKind => ["build", "plugins"]
  }

  /** An entry refers to `m`: its groupId and artifactId equal m's (which are not null). */
  predicate Matches(entry: Element, m: Coordinates)
  {
    m.groupId.Some? && m.artifactId.Some? && ChildText(entry, "groupId") == m.groupId && ChildText(entry, "artifactId") == m.artifactId
  }

  /** The scan of findDependencyElement over one list fails with a NullPointerException:
      m's groupId is null and the list is not empty, or m's artifactId is null and some
      entry has m's groupId. */
  predicate ScanFaults(cs: seq<Element>, m: Coordinates)
  {
    || (|cs| > 0 && m.groupId.None?)
    || (m.groupId.Some? && m.artifactId.None? && exists k :: 0 <= k < |cs| && ChildText(cs[k], "groupId") == m.groupId)
  }

  /** The index of the first entry of `cs` that matches `m`, compared as the Java code does:
      groupId first (m.groupId().equals), then artifactId. */
  function MatchEntry(cs: seq<Element>, m: Coordinates): (r: Result<Option<nat>>)
    ensures r.Err? <==> ScanFaults(cs, m)
    ensures r.Err? ==> r.error == NullRef
    ensures r.Ok? && r.value.Some? ==> r.value.value < |cs| && Matches(cs[r.value.value], m)
    ensures r.Ok? && r.value.Some? ==> forall k :: 0 <= k < r.value.value ==> !Matches(cs[k], m)
    ensures r == Ok(None) ==> forall k :: 0 <= k < |cs| ==> !Matches(cs[k], m)
    decreases |cs|
  {
    if cs == [] then Ok(None)
    else if m.groupId.None? then Err(NullRef)
    else if ChildText(cs[0], "groupId") == m.groupId && m.artifactId.None? then Err(NullRef)
    else if Matches(cs[0], m) then Ok(Some(0))
    else
      var rest := MatchEntry(cs[1..], m);
      assert forall k :: 1 <= k < |cs| ==> cs[k] == cs[1..][k - 1];
      assert ScanFaults(cs, m) <==> ScanFaults(cs[1..], m) by {
        if ScanFaults(cs[1..], m) {
          var k :| 0 <= k < |cs[1..]| && ChildText(cs[1..][k], "groupId") == m.groupId;
          assert ChildText(cs[k + 1], "groupId") == m.groupId;
        }
      }
      match rest
      case Err(e) => Err(e)
      case Ok(None) => Ok(None)
      case Ok(Some(i)) => Ok(Some(i + 1))
  }

  /** findDependencyElement(m, names): the path of the first entry matching `m` in the
      list at `names` (an empty list when the path is missing), or none. */
  function FindIn(doc: Element, names: seq<string>, m: Coordinates): (r: Result<Option<Path>>)
    ensures r.Err? <==> MatchEntry(ChildrenAt(doc, names), m).Err?
    ensures r.Err? ==> r.error == NullRef
    ensures r == Ok(None) <==> MatchEntry(ChildrenAt(doc, names), m) == Ok(None)
    ensures r.Ok? && r.value.Some? ==>
      && Resolve(doc, names).Some? && |r.value.value| == |names| + 1
      && MatchEntry(ChildrenAt(doc, names), m) == Ok(Some(r.value.value[|names|]))
      && r.value.value == Resolve(doc, names).value + [r.value.value[|names|]]
      && At(doc, r.value.value) == Some(ChildrenAt(doc, names)[r.value.value[|names|]])
  {
    match Resolve(doc, names)
    case None => Ok(None)
    case Some(base) =>
      match MatchEntry(At(doc, base).value.children, m)
      case Err(e) => Err(e)
      case Ok(None) => Ok(None)
      case Ok(Some(i)) =>
        AtAppend(doc, base, [i]);
        assert (base + [i])[|names|] == i;
        Ok(Some(base + [i]))
  }

  /** A search result for a suffix, re-indexed for the whole list. */
  function ShiftIndex(r: Result<Option<nat>>, n: nat): Result<Option<nat>>
  {
    match r
    case Ok(Some(i)) => Ok(Some(i + n))
    case _ => r
  }

  /** One step of the scan: the entry at `i` faults, matches, or passes the scan on. */
  lemma MatchStep(cs: seq<Element>, m: Coordinates, i: nat)
    requires i < |cs|
    ensures ShiftIndex(MatchEntry(cs[i..], m), i) ==
      if m.groupId.None? then Err(NullRef)
      else if ChildText(cs[i], "groupId") == m.groupId && m.artifactId.None? then Err(NullRef)
      else if Matches(cs[i], m) then Ok(Some(i))
      else ShiftIndex(MatchEntry(cs[i + 1..], m), i + 1)
  {
    assert cs[i..][0] == cs[i] && cs[i..][1..] == cs[i + 1..];
  }

  /** findDependencyElement looks the list up and then scans it. */
  lemma FindInByMatch(doc: Element, names: seq<string>, m: Coordinates)
    ensures FindIn(doc, names, m) ==
      match Resolve(doc, names)
      case None => Ok(None)
      case Some(base) =>
        match MatchEntry(ChildrenAt(doc, names), m)
        case Err(e) => Err(e)
        case Ok(None) => Ok(None)
        case Ok(Some(i)) => Ok(Some(base + [i]))
  {
  }

  /** The entry updateDependency / updatePluginDependency edits: the first match in the
      management list, else the first match in the plain list. */
  function FindEntry(doc: Element, m: Coordinates, kind: Kind): (r: Result<Option<Path>>)
    ensures FindIn(doc, ManagedList(kind), m).Err? ==> r == FindIn(doc, ManagedList(kind), m)
    ensures FindIn(doc, ManagedList(kind), m) == Ok(None) ==> r == FindIn(doc, PlainList(kind), m)
    ensures FindIn(doc, ManagedList(kind), m).Ok? && FindIn(doc, ManagedList(kind), m).value.Some? ==>
      r == FindIn(doc, ManagedList(kind), m)
    ensures r.Ok? && r.value.Some? ==> At(doc, r.value.value).Some? && Matches(At(doc, r.value.value).value, m)
  {
    match FindIn(doc, ManagedList(kind), m)
    case Err(e) => Err(e)
    case Ok(Some(p)) => Ok(Some(p))
    case Ok(None) => FindIn(doc, PlainList(kind), m)
  }

  /** updateDependency(m) / updatePluginDependency(m): find the entry; no entry, or an
      entry without a version, is an argument error; a `${name}` version redirects the
      write to property `name`; otherwise the entry's version gets m's version. */
  function EntryEdit(doc: Element, m: Coordinates, kind: Kind): (r: Result<Edit>)
    ensures r.Ok? ==> Fits(doc, r.value) && r.value.text == JdomText(m.version)
  {
    match FindEntry(doc, m, kind)
    case Err(e) => Err(e)
    case Ok(None) => Err(Arg)
    case Ok(Some(p)) =>
      var entry := At(doc, p).value;
      match FirstNamed(entry.children, "version")
      case None => Err(Arg)
      case Some(j) =>
        match PropertyName(entry.children[j].text)
        case Some(name) => PropertyEdit(doc, name, JdomText(m.version))
        case None =>
          AtAppend(doc, p, [j]);
          AtCons(entry, j, []);
          assert [j] + [] == [j];
          Ok(Edit(p + [j], JdomText(m.version)))
  }

  // ---------------------------------------------------------------- properties of the edits

  /** The outcomes of updateDependency(m): no matching entry is an argument error, a
      failing scan is a null dereference, and no other error kind occurs. */
  lemma EntryEditCases(doc: Element, m: Coordinates, kind: Kind)
    ensures var r := EntryEdit(doc, m, kind);
      && (FindEntry(doc, m, kind) == Ok(None) ==> r == Err(Arg))
      && (r.Err? && r.error == NullRef <==> FindEntry(doc, m, kind).Err?)
      && (r.Err? ==> r.error == Arg || r.error == NullRef)
  {
  }



  /** What a setter writes the matching getter reads back. */
  lemma OwnSetThenGet(doc: Element, item: string, v: Option<string>)
    requires Resolve(doc, [item]).Some?
    ensures ChildText(Apply(doc, OwnEdit(doc, item, v)), item) == Some(JdomText(v))
    ensures MyOrParent(Apply(doc, OwnEdit(doc, item, v)), item) == Some(JdomText(v))
  {
    var p := Resolve(doc, [item]).value;
    var doc' := Apply(doc, OwnEdit(doc, item, v));
    SetTextShape(doc, p, JdomText(v));
    ResolveByShape(doc', doc, [item]);
    ResolveOne(doc', item);
  }

  lemma ParentSetThenGet(doc: Element, v: string)
    requires ParentVersionEdit(doc, v).Ok?
    ensures ParentVersion(Apply(doc, ParentVersionEdit(doc, v))) == Some(v)
  {
    var p := Resolve(doc, ["parent", "version"]).value;
    var doc' := Apply(doc, ParentVersionEdit(doc, v));
    SetTextShape(doc, p, v);
    ResolveByShape(doc', doc, ["parent", "version"]);
  }

  /** parentVersion(m) leaves parentVersion() equal to m's version. */
  lemma ParentEditThenGet(doc: Element, m: Coordinates)
    requires ParentEdit(doc, m).Ok?
    ensures ParentVersion(Apply(doc, ParentEdit(doc, m))) == Some(JdomText(m.version))
  {
    assert ParentEdit(doc, m) == ParentVersionEdit(doc, JdomText(m.version));
    ParentSetThenGet(doc, JdomText(m.version));
  }

  lemma PropertySetThenGet(doc: Element, name: string, v: string)
    requires PropertyEdit(doc, name, v).Ok?
    ensures var doc' := Apply(doc, PropertyEdit(doc, name, v));
      Resolve(doc', ["properties", name]) == Resolve(doc, ["properties", name])
      && TextAt(doc', Resolve(doc', ["properties", name]).value) == Some(v)
  {
    var p := Resolve(doc, ["properties", name]).value;
    var doc' := Apply(doc, PropertyEdit(doc, name, v));
    SetTextShape(doc, p, v);
    ResolveByShape(doc', doc, ["properties", name]);
  }

  /** artifactId() never consults the parent: replacing the parent block by any other
      parent block leaves it unchanged. */
  lemma ArtifactIdIgnoresParent(doc: Element, i: nat, other: Element)
    requires i < |doc.children| && doc.children[i].name == "parent" && other.name == "parent"
    ensures ArtifactId(doc.(children := doc.children[i := other])) == ArtifactId(doc)
  {
    var doc' := doc.(children := doc.children[i := other]);
    FirstNamedByNames(doc.children, doc'.children, "artifactId");
  }

  /** An entry without a version child cannot be updated: an argument error. */
  lemma EntryWithoutVersion(doc: Element, m: Coordinates, kind: Kind, p: Path)
    requires FindEntry(doc, m, kind) == Ok(Some(p))
    requires ChildText(At(doc, p).value, "version").None?
    ensures EntryEdit(doc, m, kind) == Err(Arg)
  {
  }

  /** An entry whose version is a plain value has that version element rewritten. */
  lemma EntryDirect(doc: Element, m: Coordinates, kind: Kind, p: Path, j: nat)
    requires FindEntry(doc, m, kind) == Ok(Some(p))
    requires FirstNamed(At(doc, p).value.children, "version") == Some(j)
    requires PropertyName(At(doc, p).value.children[j].text).None?
    ensures EntryEdit(doc, m, kind) == Ok(Edit(p + [j], JdomText(m.version)))
    ensures NameAt(doc, p + [j]) == Some("version")
    ensures TextAt(Apply(doc, EntryEdit(doc, m, kind)), p + [j]) == Some(JdomText(m.version))
  {
    AtAppend(doc, p, [j]);
    AtCons(At(doc, p).value, j, []);
    assert [j] + [] == [j];
  }

  /** Where the entry's version is a `${name}` placeholder, updateDependency writes
      property `name` instead, and the entry's own version text stays as it was. */
  lemma EntryRedirect(doc: Element, m: Coordinates, kind: Kind, p: Path, j: nat)
    requires FindEntry(doc, m, kind) == Ok(Some(p))
    requires FirstNamed(At(doc, p).value.children, "version") == Some(j)
    requires PropertyName(At(doc, p).value.children[j].text).Some?
    ensures var name := PropertyName(At(doc, p).value.children[j].text).value;
      EntryEdit(doc, m, kind) == PropertyEdit(doc, name, JdomText(m.version))
    ensures EntryEdit(doc, m, kind).Ok? ==>
      TextAt(Apply(doc, EntryEdit(doc, m, kind)), p + [j]) == TextAt(doc, p + [j])
  {
    var r := EntryEdit(doc, m, kind);
    if r.Ok? {
      var name := PropertyName(At(doc, p).value.children[j].text).value;
      var q := r.value.path;
      assert q == Resolve(doc, ["properties", name]).value;
      ResolveHead(doc, ["properties", name]);
      EntryPathHead(doc, m, kind, p);
      assert q != p + [j] by { assert (p + [j])[0] == p[0]; }
      SetTextFrame(doc, q, r.value.text, p + [j]);
    }
  }

  /** The entries updateDependency searches lie outside `properties`: the first step of
      their path names dependencyManagement, dependencies or build. */
  lemma EntryPathHead(doc: Element, m: Coordinates, kind: Kind, p: Path)
    requires FindEntry(doc, m, kind) == Ok(Some(p))
    ensures |p| > 0 && p[0] < |doc.children| && doc.children[p[0]].name != "properties"
  {
    var names := if FindIn(doc, ManagedList(kind), m) == Ok(Some(p)) then ManagedList(kind) else PlainList(kind);
    assert FindIn(doc, names, m) == Ok(Some(p));
    var base := Resolve(doc, names).value;
    assert p == base + [p[|names|]];
    ResolveHead(doc, names);
    assert p[0] == base[0];
  }

  /** The first step of a resolved path is the first child with the first name. */
  lemma ResolveHead(doc: Element, names: seq<string>)
    requires |names| > 0 && Resolve(doc, names).Some?
    ensures var p := Resolve(doc, names).value; p[0] < |doc.children| && doc.children[p[0]].name == names[0]
  {
  }

  // ---------------------------------------------------------------- SNAPSHOT scan

  /** The lists findSnapshots scans for dependency and plugin entries. */
  datatype Section = Dependencies | DependencyManagement | Plugins | PluginManagement

  /** One finding of findSnapshots, with the value that ends in -SNAPSHOT. */
  datatype Finding =
    | InModuleVersion(version: string)
    | InParentVersion(version: string)
    | InProperty(name: string, value: string)
    | InEntry(section: Section, groupId: Option<string>, artifactId: Option<string>, version: string)
  {
    /** The value the finding is about. */
    function Value(): string
    {
      match this
      case InModuleVersion(v) => v
      case InParentVersion(v) => v
      case InProperty(_, v) => v
      case InEntry(_, _, _, v) => v
    }

    /** The position of the finding's category in the fixed reporting order. */
    function Rank(): nat
    {
      match this
      case InModuleVersion(_) => 0
      case InParentVersion(_) => 1
      case InProperty(_, _) => 2
      case InEntry(Dependencies, _, _, _) => 3
      case InEntry(DependencyManagement, _, _, _) => 4
      case InEntry(Plugins, _, _, _) => 5
      case InEntry(PluginManagement, _, _, _) => 6
    }

    /** The message findSnapshots reports. */
    function Message(): string
    {
      match this
      case InModuleVersion(_) => "Module version"
      case InParentVersion(v) => "Parent version " + v
      case InProperty(n, v) => "Property " + n + ":" + v
      case InEntry(s, g, a, v) => SectionLabel(s) + " " + JavaString(g) + ":" + JavaString(a) + ":" + v
    }
  }

  function SectionLabel(s: Section): string
  {
    match s
    case Dependencies => "Dependency"
    case DependencyManagement => "Dependency management"
    case Plugins => "Plugin"
    case PluginManagement => "Plugin management"
  }

  function SectionList(s: Section): seq<string>
  {
    match s
    case Dependencies => ["dependencies"]
    case DependencyManagement => ["dependencyManagement", "dependencies"]
    case Plugins => ["build", "plugins"]
    case PluginManagement => ["build", "pluginManagement", "plugins"]
  }

  function Messages(fs: seq<Finding>): (r: seq<string>)
    ensures |r| == |fs|
  {
    seq(|fs|, i requires 0 <= i < |fs| => fs[i].Message())
  }

  lemma MessagesAppend(a: seq<Finding>, b: seq<Finding>)
    ensures Messages(a + b) == Messages(a) + Messages(b)
  {
  }

  /** The finding for one property, if its text ends in -SNAPSHOT. */
  function PropertyFinding(c: Element): Option<Finding>
  {
    if IsSnapshot(c.text) then Some(InProperty(c.name, c.text)) else None
  }

  /** The finding for one dependency or plugin entry, if it has a version ending in -SNAPSHOT. */
  function EntryFinding(s: Section, c: Element): Option<Finding>
  {
    match ChildText(c, "version")
    case Some(v) => if IsSnapshot(v) then Some(InEntry(s, ChildText(c, "groupId"), ChildText(c, "artifactId"), v)) else None
    case None => None
  }

  /** The findings for a list of children, in child order. */
  function ListFindings(s: Option<Section>, cs: seq<Element>): (r: seq<Finding>)
    ensures |r| <= |cs|
    decreases |cs|
  {
    if cs == [] then []
    else
      var last := cs[|cs| - 1];
      var one := if s.None? then PropertyFinding(last) else EntryFinding(s.value, last);
      ListFindings(s, cs[..|cs| - 1]) + (if one.Some? then [one.value] else [])
  }

  /** Every finding of a list is about a -SNAPSHOT value and belongs to the list's category. */
  lemma {:induction false} ListFindingsSound(s: Option<Section>, cs: seq<Element>)
    ensures forall f :: f in ListFindings(s, cs) ==>
      IsSnapshot(f.Value()) && if s.None? then f.InProperty? else f.InEntry? && f.section == s.value
    decreases |cs|
  {
    if cs != [] {
      ListFindingsSound(s, cs[..|cs| - 1]);
    }
  }

  /** Every child with a finding contributes it. */
  lemma {:induction false} ListFindingsComplete(s: Option<Section>, cs: seq<Element>, k: nat)
    requires k < |cs|
    ensures s.None? && PropertyFinding(cs[k]).Some? ==> PropertyFinding(cs[k]).value in ListFindings(s, cs)
    ensures s.Some? && EntryFinding(s.value, cs[k]).Some? ==> EntryFinding(s.value, cs[k]).value in ListFindings(s, cs)
    decreases |cs|
  {
    var n := |cs| - 1;
    if k < n {
      ListFindingsComplete(s, cs[..n], k);
      assert cs[..n][k] == cs[k];
    }
  }

  /** One more child scanned adds its message, if it has a finding. */
  lemma ScanStep(s: Option<Section>, cs: seq<Element>, i: nat)
    requires i < |cs|
    ensures var one := if s.None? then PropertyFinding(cs[i]) else EntryFinding(s.value, cs[i]);
      Messages(ListFindings(s, cs[..i + 1])) ==
        Messages(ListFindings(s, cs[..i])) + (if one.Some? then [one.value.Message()] else [])
  {
    var one := if s.None? then PropertyFinding(cs[i]) else EntryFinding(s.value, cs[i]);
    assert cs[..i + 1][..i] == cs[..i];
    MessagesAppend(ListFindings(s, cs[..i]), if one.Some? then [one.value] else []);
  }

  /** One more entry of a scanned list: its message, written out as findSnapshots builds it. */
  lemma SectionStep(section: Section, cs: seq<Element>, i: nat)
    requires i < |cs|
    ensures var version := ChildText(cs[i], "version");
      Messages(ListFindings(Some(section), cs[..i + 1])) ==
        Messages(ListFindings(Some(section), cs[..i]))
        + if version.Some? && IsSnapshot(version.value)
          then [SectionLabel(section) + " " + JavaString(ChildText(cs[i], "groupId")) + ":"
                + JavaString(ChildText(cs[i], "artifactId")) + ":" + version.value]
          else []
  {
    ScanStep(Some(section), cs, i);
  }

  /** One more property: its message, written out as findSnapshots builds it. */
  lemma PropertyStep(cs: seq<Element>, i: nat)
    requires i < |cs|
    ensures Messages(ListFindings(None, cs[..i + 1])) ==
      Messages(ListFindings(None, cs[..i])) + if IsSnapshot(cs[i].text) then ["Property " + cs[i].name + ":" + cs[i].text] else []
  {
    ScanStep(None, cs, i);
  }

  /** The seven categories findSnapshots scans, in its order, after the module version check. */
  function Findings(doc: Element, version: string): (r: seq<Finding>)
    ensures IsSnapshot(version) ==> |r| > 0 && r[0] == InModuleVersion(version)
  {
    (if IsSnapshot(version) then [InModuleVersion(version)] else [])
    + (match ParentVersion(doc) case Some(pv) => if IsSnapshot(pv) then [InParentVersion(pv)] else [] case None => [])
    + ListFindings(None, ChildrenAt(doc, ["properties"]))
    + ListFindings(Some(Dependencies), ChildrenAt(doc, SectionList(Dependencies)))
    + ListFindings(Some(DependencyManagement), ChildrenAt(doc, SectionList(DependencyManagement)))
    + ListFindings(Some(Plugins), ChildrenAt(doc, SectionList(Plugins)))
    + ListFindings(Some(PluginManagement), ChildrenAt(doc, SectionList(PluginManagement)))
  }

  /** findSnapshots(): a NullPointerException when version() is null, otherwise the findings. */
  function Snapshots(doc: Element): (r: Result<seq<Finding>>)
    ensures r.Err? <==> Version(doc).None?
    ensures r.Err? ==> r.error == NullRef
  {
    match Version(doc)
    case None => Err(NullRef)
    case Some(v) => Ok(Findings(doc, v))
  }

  /** Every finding is about a value that ends in -SNAPSHOT. */
  lemma SnapshotsSound(doc: Element)
    ensures Snapshots(doc).Ok? ==> forall f :: f in Snapshots(doc).value ==> IsSnapshot(f.Value())
  {
    ListFindingsSound(None, ChildrenAt(doc, ["properties"]));
    forall s: Section {
      ListFindingsSound(Some(s), ChildrenAt(doc, SectionList(s)));
    }
  }

  /** Every value that ends in -SNAPSHOT is reported: the module and parent versions,
      each property and each entry of the four scanned lists. */
  lemma SnapshotsComplete(doc: Element, s: Section, k: nat)
    requires Snapshots(doc).Ok?
    ensures IsSnapshot(Version(doc).value) ==> InModuleVersion(Version(doc).value) in Snapshots(doc).value
    ensures ParentVersion(doc).Some? && IsSnapshot(ParentVersion(doc).value) ==>
      InParentVersion(ParentVersion(doc).value) in Snapshots(doc).value
    ensures k < |ChildrenAt(doc, ["properties"])| && PropertyFinding(ChildrenAt(doc, ["properties"])[k]).Some? ==>
      PropertyFinding(ChildrenAt(doc, ["properties"])[k]).value in Snapshots(doc).value
    ensures k < |ChildrenAt(doc, SectionList(s))| && EntryFinding(s, ChildrenAt(doc, SectionList(s))[k]).Some? ==>
      EntryFinding(s, ChildrenAt(doc, SectionList(s))[k]).value in Snapshots(doc).value
  {
    if k < |ChildrenAt(doc, ["properties"])| {
      ListFindingsComplete(None, ChildrenAt(doc, ["properties"]), k);
    }
    if k < |ChildrenAt(doc, SectionList(s))| {
      ListFindingsComplete(Some(s), ChildrenAt(doc, SectionList(s)), k);
    }
  }

  /** A category-constant block of findings. */
  predicate AllRank(fs: seq<Finding>, n: nat)
  {
    forall f :: f in fs ==> f.Rank() == n
  }

  predicate InOrder(fs: seq<Finding>)
  {
    forall i, j :: 0 <= i < j < |fs| ==> fs[i].Rank() <= fs[j].Rank()
  }

  lemma InOrderAppend(a: seq<Finding>, b: seq<Finding>, n: nat)
    requires InOrder(a) && (forall f :: f in a ==> f.Rank() <= n) && AllRank(b, n)
    ensures InOrder(a + b) && forall f :: f in a + b ==> f.Rank() <= n
  {
    forall i, j | 0 <= i < j < |a + b| ensures (a + b)[i].Rank() <= (a + b)[j].Rank() {
      if j >= |a| {
        assert (a + b)[j] in b;
        if i < |a| { assert (a + b)[i] in a; } else { assert (a + b)[i] in b; }
      }
    }
  }

  /** Findings come in the fixed category order: module version, parent version,
      properties, dependencies, dependency management, plugins, plugin management. */
  lemma SnapshotsInOrder(doc: Element)
    requires Version(doc).Some?
    ensures InOrder(Snapshots(doc).value)
  {
    FindingsInOrder(doc, Version(doc).value);
  }

  lemma FindingsInOrder(doc: Element, v: string)
    ensures InOrder(Findings(doc, v))
  {
    var b0: seq<Finding> := if IsSnapshot(v) then [InModuleVersion(v)] else [];
    var b1: seq<Finding> := match ParentVersion(doc) case Some(pv) => if IsSnapshot(pv) then [InParentVersion(pv)] else [] case None => [];
    var b2 := ListFindings(None, ChildrenAt(doc, ["properties"]));
    var b3 := ListFindings(Some(Dependencies), ChildrenAt(doc, SectionList(Dependencies)));
    var b4 := ListFindings(Some(DependencyManagement), ChildrenAt(doc, SectionList(DependencyManagement)));
    var b5 := ListFindings(Some(Plugins), ChildrenAt(doc, SectionList(Plugins)));
    var b6 := ListFindings(Some(PluginManagement), ChildrenAt(doc, SectionList(PluginManagement)));
    assert Findings(doc, v) == b0 + b1 + b2 + b3 + b4 + b5 + b6;
    hide Findings, ParentVersion, ListFindings, ChildrenAt, Resolve;
    ListFindingsRank(None, ChildrenAt(doc, ["properties"]), 2);
    ListFindingsRank(Some(Dependencies), ChildrenAt(doc, SectionList(Dependencies)), 3);
    ListFindingsRank(Some(DependencyManagement), ChildrenAt(doc, SectionList(DependencyManagement)), 4);
    ListFindingsRank(Some(Plugins), ChildrenAt(doc, SectionList(Plugins)), 5);
    ListFindingsRank(Some(PluginManagement), ChildrenAt(doc, SectionList(PluginManagement)), 6);
    BlocksInOrder(b0, b1, b2, b3, b4, b5, b6);
  }

  /** The findings of one scanned list all have that list's rank. */
  lemma ListFindingsRank(s: Option<Section>, cs: seq<Element>, n: nat)
    requires n == match s case None => 2 case Some(sec) => InEntry(sec, None, None, "").Rank()
    ensures AllRank(ListFindings(s, cs), n)
  {
    ListFindingsSound(s, cs);
  }

  /** Seven blocks of increasing rank, one after the other, are in order. */
  lemma BlocksInOrder(b0: seq<Finding>, b1: seq<Finding>, b2: seq<Finding>, b3: seq<Finding>,
                      b4: seq<Finding>, b5: seq<Finding>, b6: seq<Finding>)
    requires AllRank(b0, 0) && AllRank(b1, 1) && AllRank(b2, 2) && AllRank(b3, 3)
    requires AllRank(b4, 4) && AllRank(b5, 5) && AllRank(b6, 6)
    ensures InOrder(b0 + b1 + b2 + b3 + b4 + b5 + b6)
  {
    InOrderAppend([], b0, 0);
    assert [] + b0 == b0;
    InOrderAppend(b0, b1, 1);
    InOrderAppend(b0 + b1, b2, 2);
    InOrderAppend(b0 + b1 + b2, b3, 3);
    InOrderAppend(b0 + b1 + b2 + b3, b4, 4);
    InOrderAppend(b0 + b1 + b2 + b3 + b4, b5, 5);
    InOrderAppend(b0 + b1 + b2 + b3 + b4 + b5, b6, 6);
  }

  /** With no -SNAPSHOT value anywhere the scan reports an empty list, never null. */
  lemma SnapshotsEmpty(doc: Element)
    requires Version(doc).Some? && !IsSnapshot(Version(doc).value)
    requires ParentVersion(doc).Some? ==> !IsSnapshot(ParentVersion(doc).value)
    requires forall c :: c in ChildrenAt(doc, ["properties"]) ==> PropertyFinding(c).None?
    requires forall s, c :: c in ChildrenAt(doc, SectionList(s)) ==> EntryFinding(s, c).None?
    ensures Snapshots(doc) == Ok([])
  {
    var v := Version(doc).value;
    assert (if IsSnapshot(v) then [InModuleVersion(v)] else []) == [];
    assert (match ParentVersion(doc) case Some(pv) => if IsSnapshot(pv) then [InParentVersion(pv)] else [] case None => []) == [];
    NoFindings(None, ChildrenAt(doc, ["properties"]));
    NoFindings(Some(Dependencies), ChildrenAt(doc, SectionList(Dependencies)));
    NoFindings(Some(DependencyManagement), ChildrenAt(doc, SectionList(DependencyManagement)));
    NoFindings(Some(Plugins), ChildrenAt(doc, SectionList(Plugins)));
    NoFindings(Some(PluginManagement), ChildrenAt(doc, SectionList(PluginManagement)));
    assert Findings(doc, v) == [];
  }

  lemma {:induction false} NoFindings(s: Option<Section>, cs: seq<Element>)
    requires s.None? ==> forall c :: c in cs ==> PropertyFinding(c).None?
    requires s.Some? ==> forall c :: c in cs ==> EntryFinding(s.value, c).None?
    ensures ListFindings(s, cs) == []
    decreases |cs|
  {
    if cs != [] {
      assert forall c :: c in cs[..|cs| - 1] ==> c in cs;
      NoFindings(s, cs[..|cs| - 1]);
      assert cs[|cs| - 1] in cs;
    }
  }

  // ---------------------------------------------------------------- the poms of the module tests

  /** A pom with its own groupId, artifactId and version, like the "simple" test module. */
  const SimplePom := Element("project", "", [
    Element("modelVersion", "4.0.0", []),
    Element("groupId", "se.tla.maven", []),
    Element("artifactId", "versionbumper", []),
    Element("version", "1.0-SNAPSHOT", [])])

  /** A pom that takes groupId and version from its parent block, like the "withparent" test module. */
  const WithParentPom := Element("project", "", [
    Element("parent", "", [
      Element("groupId", "se.tla.maven", []),
      Element("artifactId", "parent", []),
      Element("version", "0.1-SNAPSHOT", [])]),
    Element("artifactId", "withparent", [])])

  lemma SimpleIdentity()
    ensures GroupId(SimplePom) == Some("se.tla.maven")
    ensures ArtifactId(SimplePom) == Some("versionbumper")
    ensures Version(SimplePom) == Some("1.0-SNAPSHOT")
    ensures Identity(SimplePom).Gav() == "se.tla.maven:versionbumper:1.0-SNAPSHOT"
    ensures ParentVersion(SimplePom).None?
  {
    assert Identity(SimplePom) == Coordinates(Some("se.tla.maven"), Some("versionbumper"), Some("1.0-SNAPSHOT"));
    SimpleGav();
  }

  lemma SimpleGav()
    ensures Coordinates(Some("se.tla.maven"), Some("versionbumper"), Some("1.0-SNAPSHOT")).Gav()
      == "se.tla.maven:versionbumper:1.0-SNAPSHOT"
  {
  }

  lemma WithParentIdentity()
    ensures GroupId(WithParentPom) == Some("se.tla.maven")
    ensures Version(WithParentPom) == Some("0.1-SNAPSHOT")
    ensures ParentVersion(WithParentPom) == Some("0.1-SNAPSHOT")
    ensures ArtifactId(WithParentPom) == Some("withparent")
  {
  }
}
