/** ReadonlyModule.java: a module the tool knows only by its coordinates (an artifact
    it has no control over but that other modules depend on). It answers the three
    identity getters, gav and toString; every other operation is refused. */
module Readonly {
  import opened Base
  import opened Gav

  datatype ReadonlyModule = ReadonlyModule(groupId: Option<string>, artifactId: Option<string>, version: Option<string>)
  {
    /** groupId(), artifactId(), version(): the constructor's arguments, as seen by the
        modules that refer to this one. */
    function Identity(): (c: Coordinates)
      ensures c.groupId == groupId && c.artifactId == artifactId && c.version == version
    {
      Coordinates(groupId, artifactId, version)
    }

    /** gav(): the three getters joined by ':'. */
    function Gav(): (s: string)
      ensures s == JavaString(groupId) + ":" + JavaString(artifactId) + ":" + JavaString(version)
    {
      Identity().Gav()
    }

    /** toString(): the gav string. */
    function ToString(): (s: string)
      ensures s == Gav()
      ensures |s| == |JavaString(groupId)| + |JavaString(artifactId)| + |JavaString(version)| + 2
    {
      Identity().Gav()
    }

    /** Every operation other than the identity getters throws UnsupportedOperationException. */
    function Invoke(op: Operation): (r: Outcome)
      ensures r == Fail(Unsupported)
    {
      match op
      case _ => Fail(Unsupported)
    }
  }

  /** The operations a ReadonlyModule inherits from Module and refuses: the setters, the
      update operations, save, and the getters other than the identity ones. */
  datatype Operation =
    | SetGroupId(newGroupId: Option<string>)
    | SetArtifactId(newArtifactId: Option<string>)
    | SetVersion(newVersion: Option<string>)
    | GetParentVersion
    | SetParentVersion(parentVersion: Option<string>)
    | SetParentVersionFrom(newParent: Coordinates)
    | UpdateDependency(moduleToUpdate: Coordinates)
    | UpdatePluginDependency(pluginToUpdate: Coordinates)
    | UpdateProperty(propertyName: string, value: Option<string>)
    | Save
    | SetLabel(labelText: Option<string>)
    | GetLabel
    | SetCommitMessage(commitMessage: Option<string>)
    | GetCommitMessage
    | FindSnapshots
    | SetLabelOnlyPomXml(labelOnlyPomXml: bool)
    | GetLabelOnlyPomXml
    | PomFile

  /** ReadonlyModule(baseDirName, moduleName): a read-only module cannot be loaded from disk. */
  function Load(baseDirName: string, moduleName: string): (r: Result<ReadonlyModule>)
    ensures r == Err(Unsupported)
  {
    Err(Unsupported)
  }

  /** The three coordinates are recovered from gav() when groupId and artifactId hold no ':'. */
  lemma GavIdentifies(a: ReadonlyModule, b: ReadonlyModule)
    requires a.groupId.Some? && a.artifactId.Some? && a.version.Some?
    requires b.groupId.Some? && b.artifactId.Some? && b.version.Some?
    requires ':' !in a.groupId.value && ':' !in a.artifactId.value
    requires ':' !in b.groupId.value && ':' !in b.artifactId.value
    requires a.Gav() == b.Gav()
    ensures a == b
  {
    GavDetermines(a.Identity(), b.Identity());
  }

  /** The module the read-only tests construct. */
  lemma ReadonlyExample()
    ensures var m := ReadonlyModule(Some("groupId"), Some("artifactId"), Some("1.0"));
      && m.Identity() == Coordinates(Some("groupId"), Some("artifactId"), Some("1.0"))
      && m.Gav() == "groupId:artifactId:1.0" && m.ToString() == "groupId:artifactId:1.0"
  {
  }
}
