/** The mutable pom model of Module.java: a parsed document that the setters edit in
    place, one element text at a time, plus the commit data attached to the module. */
module Pom {
  import opened Base
  import opened Xml
  import opened Gav
  import opened Descriptor

  class Module {
    /** The parsed pom.xml; the edit operations replace it by the edited tree. */
    var root: Element
    /** The symbolic name the module was loaded under (toString). */
    const moduleName: string
    /** The module's own version when it was loaded: null without a version child. */
    const originalVersion: Option<string>
    /** The label to apply on save (`label` is a Dafny keyword). */
    var labelText: Option<string>
    var commitMessage: Option<string>
    var labelOnlyPomXml: bool

    /** The version read at load time exists exactly when the document has a version
        child. No edit changes the document's shape, so every edit keeps it. */
    ghost predicate Valid()
      reads this
    {
      originalVersion.Some? <==> Resolve(root, ["version"]).Some?
    }

    /** Module(baseDir, moduleName) over an already parsed document: a null module name
        becomes "", the own version is remembered, nothing is labelled. */
    constructor (moduleName: Option<string>, doc: Element)
      ensures root == doc
      ensures this.moduleName == (if moduleName.Some? then moduleName.value else "")
      ensures originalVersion == ChildText(doc, "version")
      ensures labelText.None? && commitMessage.None? && !labelOnlyPomXml
      ensures Valid()
    {
      this.moduleName := if moduleName.Some? then moduleName.value else "";
      root := doc;
      var version := Child(doc, "version");
      originalVersion := if version.Some? then Some(version.value.text) else None;
      labelText := None;
      commitMessage := None;
      labelOnlyPomXml := false;
      new;
      ResolveOne(doc, "version");
    }

    /** JDOM's setText on the element at `p`: that text changes and nothing else. */
    method Write(p: Path, t: string)
      requires At(root, p).Some?
      modifies this`root
      ensures root == SetText(old(root), p, t)
      ensures SameShape(root, old(root))
      ensures Valid() == old(Valid())
    {
      SetTextShape(root, p, t);
      ResolveByShape(SetText(root, p, t), root, ["version"]);
      root := SetText(root, p, t);
    }

    /** getChild(item).setText(v) on the root. */
    method SetOwn(item: string, v: Option<string>) returns (r: Outcome)
      modifies this`root
      ensures r == OutcomeOf(OwnEdit(old(root), item, v))
      ensures root == Apply(old(root), OwnEdit(old(root), item, v))
      ensures Valid() == old(Valid())
    {
      match FirstNamed(root.children, item)
      case None =>
        r := Fail(NullRef);
      case Some(i) =>
        AtCons(root, i, []);
        assert [i] + [] == [i];
        Write([i], JdomText(v));
        r := Pass;
    }

    /** groupId(String). */
    method SetGroupId(groupId: Option<string>) returns (r: Outcome)
      modifies this`root
      ensures r == OutcomeOf(OwnEdit(old(root), "groupId", groupId))
      ensures root == Apply(old(root), OwnEdit(old(root), "groupId", groupId))
      ensures Valid() == old(Valid())
    {
      r := SetOwn("groupId", groupId);
    }

    /** artifactId(String). */
    method SetArtifactId(artifactId: Option<string>) returns (r: Outcome)
      modifies this`root
      ensures r == OutcomeOf(OwnEdit(old(root), "artifactId", artifactId))
      ensures root == Apply(old(root), OwnEdit(old(root), "artifactId", artifactId))
      ensures Valid() == old(Valid())
    {
      r := SetOwn("artifactId", artifactId);
    }

    /** version(String): a state error without a version of its own; the first bump
        seeds the commit message, an existing message is kept. */
    method SetVersion(version: Option<string>) returns (r: Outcome)
      modifies this`root, this`commitMessage
      ensures r == OutcomeOf(VersionEdit(old(root), originalVersion, version))
      ensures root == Apply(old(root), VersionEdit(old(root), originalVersion, version))
      ensures commitMessage ==
        if originalVersion.Some? && old(commitMessage).None? then Some(BumpMessage(originalVersion.value, version))
        else old(commitMessage)
      ensures old(Valid()) && originalVersion.Some? ==> r == Pass
      ensures Valid() == old(Valid())
    {
      if originalVersion.None? {
        return Fail(State);
      }
      if commitMessage.None? {
        commitMessage := Some("Bump " + originalVersion.value + " -> " + JavaString(version));
      }
      r := SetOwn("version", version);
    }

    /** parentVersion(String): no parent is an argument error, a parent without a
        version a state error; otherwise parent/version gets the text. */
    method SetParentVersion(parentVersion: Option<string>) returns (r: Outcome)
      modifies this`root
      ensures r == OutcomeOf(ParentVersionEdit(old(root), JdomText(parentVersion)))
      ensures root == Apply(old(root), ParentVersionEdit(old(root), JdomText(parentVersion)))
      ensures Valid() == old(Valid())
    {
      match FirstNamed(root.children, "parent")
      case None =>
        r := Fail(Arg);
      case Some(i) =>
        match FirstNamed(root.children[i].children, "version")
        case None =>
          r := Fail(State);
        case Some(j) =>
          VersionPath(i, j);
          Write([i, j], JdomText(parentVersion));
          r := Pass;
    }

    /** The path [i, j] exists when j indexes a child of root's i-th child. */
    lemma VersionPath(i: nat, j: nat)
      requires i < |root.children| && j < |root.children[i].children|
      ensures At(root, [i, j]) == Some(root.children[i].children[j])
    {
      AtCons(root, i, [j]);
      AtCons(root.children[i], j, []);
      assert [i] + [j] == [i, j] && [j] + [] == [j];
    }

    /** parentVersion(Module): the parent block must name `newParent`, compared as the
        Java code compares (groupId first); parent/version then gets newParent's version. */
    method SetParentVersionFrom(newParent: Coordinates) returns (r: Outcome)
      modifies this`root
      ensures r == OutcomeOf(ParentEdit(old(root), newParent))
      ensures root == Apply(old(root), ParentEdit(old(root), newParent))
      ensures Valid() == old(Valid())
    {
      match FirstNamed(root.children, "parent")
      case None =>
        r := Fail(Arg);
      case Some(i) =>
        var existingParent := root.children[i];
        var groupIdElement := Child(existingParent, "groupId");
        if groupIdElement.None? {
          return Fail(NullRef);
        }
        var artifactIdElement := Child(existingParent, "artifactId");
        if artifactIdElement.None? {
          return Fail(NullRef);
        }
        if newParent.groupId.None? {
          return Fail(NullRef);
        }
        if newParent.groupId.value != groupIdElement.value.text {
          return Fail(Arg);
        }
        if newParent.artifactId.None? {
          return Fail(NullRef);
        }
        if newParent.artifactId.value != artifactIdElement.value.text {
          return Fail(Arg);
        }
        match FirstNamed(existingParent.children, "version")
        case None =>
          r := Fail(State);
        case Some(j) =>
          VersionPath(i, j);
          Write([i, j], JdomText(newParent.version));
          r := Pass;
    }

    /** updateProperty(name, value): properties/name gets the value; a missing
        properties block or property is an argument error and changes nothing. */
    method UpdateProperty(propertyName: string, value: Option<string>) returns (r: Outcome)
      modifies this`root
      ensures r == OutcomeOf(PropertyEdit(old(root), propertyName, JdomText(value)))
      ensures root == Apply(old(root), PropertyEdit(old(root), propertyName, JdomText(value)))
      ensures Valid() == old(Valid())
    {
      match FirstNamed(root.children, "properties")
      case None =>
        r := Fail(Arg);
      case Some(i) =>
        match FirstNamed(root.children[i].children, propertyName)
        case None =>
          r := Fail(Arg);
        case Some(j) =>
          VersionPath(i, j);
          Write([i, j], JdomText(value));
          r := Pass;
    }

    /** getChildElements(names): follow getChild through `names`; the children found
        there, or none as soon as a step is missing. Also returns the path walked. */
    method GetChildElements(names: seq<string>) returns (base: Option<Path>, cs: seq<Element>)
      ensures base == Resolve(root, names)
      ensures cs == ChildrenAt(root, names)
    {
      var cur := root;
      var path: Path := [];
      var k := 0;
      while k < |names|
        invariant 0 <= k <= |names|
        invariant Resolve(root, names[..k]) == Some(path) && At(root, path) == Some(cur)
      {
        ResolveSnoc(root, names[..k], names[k]);
        assert names[..k + 1] == names[..k] + [names[k]];
        match FirstNamed(cur.children, names[k])
        case None =>
          ResolvePrefixNone(root, names[..k + 1], names[k + 1..]);
          assert names[..k + 1] + names[k + 1..] == names;
          return None, [];
        case Some(i) =>
          AtAppend(root, path, [i]);
          AtCons(cur, i, []);
          assert [i] + [] == [i];
          cur := cur.children[i];
          path := path + [i];
          k := k + 1;
      }
      assert names[..k] == names;
      return Some(path), cur.children;
    }

    /** findDependencyElement(m, names): the first entry of the list at `names` whose
        groupId and artifactId equal m's; m's null groupId or artifactId is dereferenced
        as in the Java comparison. */
    method FindDependencyElement(m: Coordinates, names: seq<string>) returns (r: Result<Option<Path>>)
      ensures r == FindIn(root, names, m)
    {
      var base, cs := GetChildElements(names);
      FindInByMatch(root, names, m);
      assert base.None? ==> cs == [];
      assert cs[0..] == cs && MatchEntry([], m) == Ok(None);
      hide FindIn, MatchEntry, ChildrenAt, Resolve, ChildText;
      var i := 0;
      while i < |cs|
        invariant 0 <= i <= |cs|
        invariant MatchEntry(cs, m) == ShiftIndex(MatchEntry(cs[i..], m), i)
      {
        var dep := cs[i];
        var groupId := ChildText(dep, "groupId");
        var artifactId := ChildText(dep, "artifactId");
        MatchStep(cs, m, i);
        if m.groupId.None? {
          return Err(NullRef);
        }
        if Some(m.groupId.value) == groupId {
          if m.artifactId.None? {
            return Err(NullRef);
          }
          if Some(m.artifactId.value) == artifactId {
            return Ok(Some(base.value + [i]));
          }
        }
        i := i + 1;
      }
      assert cs[i..] == [];
      return Ok(None);
    }

    /** updateDependency / updatePluginDependency: the management list first, then the
        plain list; a `${name}` version is redirected to updateProperty(name, ...). */
    method UpdateEntry(m: Coordinates, kind: Kind) returns (r: Outcome)
      modifies this`root
      ensures r == OutcomeOf(EntryEdit(old(root), m, kind))
      ensures root == Apply(old(root), EntryEdit(old(root), m, kind))
      ensures Valid() == old(Valid())
    {
      ghost var doc := root;
      hide FindIn, MatchEntry, ChildrenAt, Resolve, ChildText, SetText, PropertyEdit;
      var dep := FindDependencyElement(m, ManagedList(kind));
      if dep == Ok(None) {
        dep := FindDependencyElement(m, PlainList(kind));
      }
      assert dep == FindEntry(doc, m, kind);
      match dep
      case Err(e) =>
        r := Fail(e);
      case Ok(None) =>
        r := Fail(Arg);
      case Ok(Some(p)) =>
        var entry := At(root, p).value;
        match FirstNamed(entry.children, "version")
        case None =>
          r := Fail(Arg);
        case Some(j) =>
          var versionText := entry.children[j].text;
          if StartsWith(versionText, "${") && EndsWith(versionText, "}") {
            assert versionText[1] == '{' && versionText[|versionText| - 1] == '}';
            var propertyName := versionText[2..][..|versionText| - 3];
            assert PropertyName(versionText) == Some(propertyName);
            assert EntryEdit(doc, m, kind) == PropertyEdit(doc, propertyName, JdomText(m.version));
            r := UpdateProperty(propertyName, m.version);
          } else {
            EntryDirect(doc, m, kind, p, j);
            Write(p + [j], JdomText(m.version));
            r := Pass;
          }
    }

    /** updateDependency(m). */
    method UpdateDependency(m: Coordinates) returns (r: Outcome)
      modifies this`root
      ensures r == OutcomeOf(EntryEdit(old(root), m, DependencyKind))
      ensures root == Apply(old(root), EntryEdit(old(root), m, DependencyKind))
      ensures Valid() == old(Valid())
    {
      r := UpdateEntry(m, DependencyKind);
    }

    /** updatePluginDependency(m). */
    method UpdatePluginDependency(m: Coordinates) returns (r: Outcome)
      modifies this`root
      ensures r == OutcomeOf(EntryEdit(old(root), m, PluginKind))
      ensures root == Apply(old(root), EntryEdit(old(root), m, PluginKind))
      ensures Valid() == old(Valid())
    {
      r := UpdateEntry(m, PluginKind);
    }

    /** The messages for one scanned list of dependency or plugin entries. */
    method ScanEntries(section: Section) returns (part: seq<string>)
      ensures part == Messages(ListFindings(Some(section), ChildrenAt(root, SectionList(section))))
    {
      var _, deps := GetChildElements(SectionList(section));
      assert Messages(ListFindings(Some(section), deps[..0])) == [];
      hide ListFindings, Messages, ChildText;
      part := [];
      var i := 0;
      while i < |deps|
        invariant 0 <= i <= |deps|
        invariant part == Messages(ListFindings(Some(section), deps[..i]))
      {
        var dep := deps[i];
        var version := ChildText(dep, "version");
        SectionStep(section, deps, i);
        if version.Some? && IsSnapshot(version.value) {
          part := part + [SectionLabel(section) + " " + JavaString(ChildText(dep, "groupId")) + ":"
                          + JavaString(ChildText(dep, "artifactId")) + ":" + version.value];
        }
        i := i + 1;
      }
      assert deps[..i] == deps;
    }

    /** The properties part of findSnapshots(): one message per property whose value ends in -SNAPSHOT. */
    method ScanProperties() returns (part: seq<string>)
      ensures part == Messages(ListFindings(None, ChildrenAt(root, ["properties"])))
    {
      var properties: seq<Element> := [];
      ResolveOne(root, "properties");
      var k := FirstNamed(root.children, "properties");
      if k.Some? {
        AtCons(root, k.value, []);
        assert [k.value] + [] == [k.value];
        properties := root.children[k.value].children;
      }
      assert properties == ChildrenAt(root, ["properties"]);
      assert Messages(ListFindings(None, properties[..0])) == [];
      hide ListFindings, Messages;
      var i := 0;
      part := [];
      while i < |properties|
        invariant 0 <= i <= |properties|
        invariant part == Messages(ListFindings(None, properties[..i]))
      {
        var child := properties[i];
        var text := child.text;
        PropertyStep(properties, i);
        if IsSnapshot(text) {
          part := part + ["Property " + child.name + ":" + text];
        }
        i := i + 1;
      }
      assert properties[..i] == properties;
    }

    /** findSnapshots(): one message per value ending in -SNAPSHOT, category by category;
        a null version() is dereferenced first. */
    method FindSnapshots() returns (r: Result<seq<string>>)
      ensures r == match Snapshots(root) case Err(e) => Err(e) case Ok(fs) => Ok(Messages(fs))
    {
      var version := Version(root);
      if version.None? {
        return Err(NullRef);
      }
      var result: seq<string> := [];
      if IsSnapshot(version.value) {
        result := result + ["Module version"];
      }
      var parentVersion := ParentVersion(root);
      if parentVersion.Some? && IsSnapshot(parentVersion.value) {
        result := result + ["Parent version " + parentVersion.value];
      }
      ghost var head := (if IsSnapshot(version.value) then [InModuleVersion(version.value)] else [])
        + (match parentVersion case Some(pv) => if IsSnapshot(pv) then [InParentVersion(pv)] else [] case None => []);
      assert result == Messages(head);

      var part := ScanProperties();
      ghost var props := ListFindings(None, ChildrenAt(root, ["properties"]));
      MessagesAppend(head, props);
      result := result + part;

      var dependencies := ScanEntries(Dependencies);
      ghost var b3 := ListFindings(Some(Dependencies), ChildrenAt(root, SectionList(Dependencies)));
      MessagesAppend(head + props, b3);
      result := result + dependencies;

      var management := ScanEntries(DependencyManagement);
      ghost var b4 := ListFindings(Some(DependencyManagement), ChildrenAt(root, SectionList(DependencyManagement)));
      MessagesAppend(head + props + b3, b4);
      result := result + management;

      var plugins := ScanEntries(Plugins);
      ghost var b5 := ListFindings(Some(Plugins), ChildrenAt(root, SectionList(Plugins)));
      MessagesAppend(head + props + b3 + b4, b5);
      result := result + plugins;

      var pluginManagement := ScanEntries(PluginManagement);
      ghost var b6 := ListFindings(Some(PluginManagement), ChildrenAt(root, SectionList(PluginManagement)));
      MessagesAppend(head + props + b3 + b4 + b5, b6);
      result := result + pluginManagement;

      assert Findings(root, version.value) == head + props + b3 + b4 + b5 + b6;
      return Ok(result);
    }

    /** label(String). */
    method SetLabel(labelText: Option<string>)
      modifies this`labelText
      ensures this.labelText == labelText
    {
      this.labelText := labelText;
    }

    /** commitMessage(String): replaces any message, seeded or not. */
    method SetCommitMessage(commitMessage: Option<string>)
      modifies this`commitMessage
      ensures this.commitMessage == commitMessage
    {
      this.commitMessage := commitMessage;
    }

    /** labelOnlyPomXml(boolean). */
    method SetLabelOnlyPomXml(labelOnlyPomXml: bool)
      modifies this`labelOnlyPomXml
      ensures this.labelOnlyPomXml == labelOnlyPomXml
    {
      this.labelOnlyPomXml := labelOnlyPomXml;
    }
  }
}
