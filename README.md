# Maven version bumper: the pom model

This project models the in-memory pom model of jimpa/Maven-version-bumper and proves
properties of it. That model is three Java classes:

- `Module` is a loaded `pom.xml`. It reads the module's coordinates, and it makes one
  kind of edit, a text replacement:
  - setting the module's own version;
  - setting the parent block's version;
  - updating the version of a dependency or plugin entry, redirected to a property when
    the entry says `${name}`;
  - updating a property.

  It also lists every `-SNAPSHOT` value, and it keeps the label and commit
  message for the save.
- `ReadonlyModule` is a module known only by its coordinates. It refuses
  everything else.
- `ReverseEngineeringModule` discovers how the modules of a build relate:
  - It probes every module of the list, itself included, with `Module`'s own update
    operations. A probe that succeeds is an edge. One that raises an argument error
    skips the candidate, and any other error ends `consider`.
  - It records the reverse edges in `dependsOnMe`.
  - It renders a script that reloads the module and redoes those updates.

The files follow that structure:

- `base.dfy`: optional values, the error kinds, and the results of operations.
- `xml.dfy`: the parsed document as a tree of named elements. The tree is read through
  JDOM's `getChild` and written with `setText`. A frame lemma shows that the modelled
  `setText` changes one text and nothing else (see "## Left out" for its child elements).
- `gav.dfy`: coordinates and the `gav()` string.
- `descriptor.dfy`: what `Module` reads from a document, and which single edit each of its
  operations makes. Each edit is a `Result<Edit>`: the path and the new text, or the
  exception raised. These functions are the specification of the class in `pom.dfy`.
- `pom.dfy`: `Module` as a class. Its tree field is replaced by the edited tree. Each
  method is proved to make exactly the edit of its specification function, and to
  keep the module's invariant: the version read at load time exists exactly when the
  document has a version child.
- `readonly.dfy`: `ReadonlyModule` as a datatype.
- `reverse.dfy`: `ReverseEngineeringModule` as a class. It holds its `Module` as a field.
  Its probing loops are proved against scan functions, and `consider` against the
  function `Discover`. The reverse edges are proved per module: a module's `dependsOnMe`
  grows by one entry for each time `consider` found it.

Errors are `Arg` (IllegalArgumentException), `State` (IllegalStateException) and
`Unsupported` (UnsupportedOperationException). A fourth kind, `NullRef`, stands for the
NullPointerExceptions the code raises when it dereferences a missing element or a
null getter result. The code raises these in several places:

- `getChild(..).setText` on a missing child;
- `equals` on a null groupId;
- `endsWith` on a null version;
- `replaceAll` on a null artifactId;
- iterating a list that `consider` never set.

Leaving them out would make those paths look like successes.

Two behaviours of the code are easy to misread:

- `groupId(String)` and `artifactId(String)` on a pom without its own groupId or
  artifactId raise a null dereference, not a dedicated error. The other setters check
  first and raise an argument or state error.
- `parentVersion(Module)` compares groupId first. On a groupId mismatch it raises an
  argument error, even when the module's artifactId is null.

## Model

| member | source | states |
|---|---|---|
| Gav.Coordinates.Gav | src/main/java/se/tla/mavenversionbumper/Module.java:107-109 | gav() is the three coordinates with a null one written "null", separated by ':' at the two positions the lengths give |
| Gav.GavDetermines | src/main/java/se/tla/mavenversionbumper/Module.java:107-109 | when groupId and artifactId hold no ':', equal gav strings mean equal rendered groupId, artifactId and version |
| Descriptor.ParentItem | src/main/java/se/tla/mavenversionbumper/Module.java:150-156 | the text at the path parent/item when both steps exist, null otherwise |
| Descriptor.MyOrParent | src/main/java/se/tla/mavenversionbumper/Module.java:196-206 | the module's own child text when that child exists, otherwise the parent block's child text (one hop only), otherwise null |
| Descriptor.GroupId | src/main/java/se/tla/mavenversionbumper/Module.java:111-113 | the text of the own groupId child when there is one, otherwise the text at parent/groupId, otherwise null |
| Descriptor.Version | src/main/java/se/tla/mavenversionbumper/Module.java:133-135 | the text of the own version child when there is one, otherwise the text at parent/version, otherwise null |
| Descriptor.ParentVersion | src/main/java/se/tla/mavenversionbumper/Module.java:150-156 | the text at parent/version, null when either step is missing; the module's own version is not consulted |
| Descriptor.ArtifactId | src/main/java/se/tla/mavenversionbumper/Module.java:122-124 | the text of the module's own artifactId child, or null; the parent is not consulted |
| Descriptor.ArtifactIdIgnoresParent | src/main/java/se/tla/mavenversionbumper/Module.java:122-124 | replacing the parent block with any other parent block leaves artifactId() unchanged |
| Descriptor.SimpleIdentity | src/test/java/se/tla/mavenversionbumper/ModuleTest.java:27-35 | a pom with its own groupId, artifactId and version has gav "se.tla.maven:versionbumper:1.0-SNAPSHOT" and no parent version |
| Descriptor.SimpleGav | src/test/java/se/tla/mavenversionbumper/ModuleTest.java:34 | the gav string of the simple module's coordinates |
| Descriptor.WithParentIdentity | src/test/java/se/tla/mavenversionbumper/ModuleTest.java:37-50 | a pom without its own groupId and version takes both from its parent block; parentVersion() reads that block |
| Descriptor.OwnEdit | src/main/java/se/tla/mavenversionbumper/Module.java:118-131 | the edit succeeds exactly when the own child exists and then writes the value (null clears) into it; otherwise a null dereference |
| Descriptor.VersionEdit | src/main/java/se/tla/mavenversionbumper/Module.java:140-148 | a state error when the pom had no own version at load time, otherwise the own version child gets the value |
| Descriptor.ParentVersionEdit | src/main/java/se/tla/mavenversionbumper/Module.java:161-171 | no parent block is an argument error; a parent block without a version is a state error; otherwise the write goes to parent/version |
| Descriptor.ParentEdit | src/main/java/se/tla/mavenversionbumper/Module.java:178-194 | a successful parentVersion(Module) is exactly parentVersion(m.version()), and its edit fits the document |
| Descriptor.ParentEditCases | src/main/java/se/tla/mavenversionbumper/Module.java:178-194 | argument error iff there is no parent block or it names another module; state error iff it names m without a version; success iff it names m with a version, writing m's version to parent/version; never Unsupported |
| Descriptor.ParentSetThenGet | src/main/java/se/tla/mavenversionbumper/Module.java:150-171 | after a successful parentVersion(s), parentVersion() returns s |
| Descriptor.ParentEditThenGet | src/main/java/se/tla/mavenversionbumper/Module.java:178-194 | after a successful parentVersion(m), parentVersion() returns m's version |
| Descriptor.OwnSetThenGet | src/main/java/se/tla/mavenversionbumper/Module.java:111-135 | after setting an existing own child, both the child text and myOrParent return the value written |
| Descriptor.PropertyEdit | src/main/java/se/tla/mavenversionbumper/Module.java:291-303 | success iff properties/name exists, writing the value there; otherwise an argument error |
| Descriptor.PropertySetThenGet | src/main/java/se/tla/mavenversionbumper/Module.java:291-303 | after updateProperty the property is found at the same place and holds the value |
| Descriptor.PropertyName | src/main/java/se/tla/mavenversionbumper/Module.java:236-238 | a version text names a property iff it starts with "${" and ends with "}", and the text is then "${" + name + "}" |
| Descriptor.PlaceholderRoundTrip | src/main/java/se/tla/mavenversionbumper/Module.java:236-238 | the property name of "${name}" is name |
| Descriptor.MatchEntry | src/main/java/se/tla/mavenversionbumper/Module.java:351-362 | the first entry whose groupId and artifactId equal m's, with no earlier match; none when nothing matches; a null dereference exactly when the Java comparison reaches a null groupId or artifactId of m |
| Descriptor.FindIn | src/main/java/se/tla/mavenversionbumper/Module.java:351-375 | findDependencyElement over the list at the path (empty when the path is missing): the path of the matching entry, below the resolved list |
| Descriptor.MatchStep | src/main/java/se/tla/mavenversionbumper/Module.java:352-359 | one loop iteration: the entry at i faults, matches, or hands the search to the next entry |
| Descriptor.FindEntry | src/main/java/se/tla/mavenversionbumper/Module.java:218-224 | the management list is searched first; the plain list only when the management list has no match; a found entry matches m |
| Descriptor.EntryEdit | src/main/java/se/tla/mavenversionbumper/Module.java:216-282 | a successful update fits the document and writes m's version (null clears) |
| Descriptor.EntryEditCases | src/main/java/se/tla/mavenversionbumper/Module.java:216-245 | no matching entry is an argument error; a null dereference exactly when the search faults; no other error kind but Arg and NullRef |
| Descriptor.EntryWithoutVersion | src/main/java/se/tla/mavenversionbumper/Module.java:230-234 | a matched entry without a version child is an argument error |
| Descriptor.EntryDirect | src/main/java/se/tla/mavenversionbumper/Module.java:236-244 | a literal version is overwritten in the entry's own version element |
| Descriptor.EntryRedirect | src/main/java/se/tla/mavenversionbumper/Module.java:236-242 | a `${name}` version becomes updateProperty(name, m.version()), and the entry's own version text is left as it was |
| Descriptor.EntryPathHead | src/main/java/se/tla/mavenversionbumper/Module.java:216-282 | the entries searched lie outside the properties block |
| Descriptor.ListFindings | src/main/java/se/tla/mavenversionbumper/Module.java:388-431 | the findings of one scanned list (properties or one of the four entry lists), no more findings than children |
| Descriptor.ListFindingsSound | src/main/java/se/tla/mavenversionbumper/Module.java:390-431 | every finding of a scanned list is about a value ending in -SNAPSHOT and belongs to that list's category |
| Descriptor.ListFindingsComplete | src/main/java/se/tla/mavenversionbumper/Module.java:390-431 | every child of a scanned list whose value ends in -SNAPSHOT contributes its finding |
| Descriptor.SectionStep | src/main/java/se/tla/mavenversionbumper/Module.java:399-405 | one more entry adds its message, written as findSnapshots writes it, when its version ends in -SNAPSHOT |
| Descriptor.PropertyStep | src/main/java/se/tla/mavenversionbumper/Module.java:389-397 | one more property adds "Property name:value" when its value ends in -SNAPSHOT |
| Descriptor.Findings | src/main/java/se/tla/mavenversionbumper/Module.java:380-431 | with a -SNAPSHOT module version, the first finding reported is that version |
| Descriptor.Snapshots | src/main/java/se/tla/mavenversionbumper/Module.java:377-435 | findSnapshots fails exactly when version() is null, and then with a null dereference |
| Descriptor.SnapshotsSound | src/main/java/se/tla/mavenversionbumper/Module.java:377-435 | every reported finding is about a value ending in -SNAPSHOT |
| Descriptor.SnapshotsComplete | src/main/java/se/tla/mavenversionbumper/Module.java:377-435 | every -SNAPSHOT value (module version, parent version, each property, each entry of the four lists) is reported |
| Descriptor.SnapshotsInOrder | src/main/java/se/tla/mavenversionbumper/Module.java:377-435 | findings come in the fixed category order: module version, parent version, properties, dependencies, dependency management, plugins, plugin management |
| Descriptor.SnapshotsEmpty | src/main/java/se/tla/mavenversionbumper/Module.java:377-435 | with no -SNAPSHOT value anywhere the result is an empty list, not null |
| Descriptor.NoFindings | src/main/java/se/tla/mavenversionbumper/Module.java:390-431 | a list with no -SNAPSHOT child yields no findings |
| Pom.Module.constructor | src/main/java/se/tla/mavenversionbumper/Module.java:57-77 | a null module name becomes ""; the version read at load time is the own version child's text; nothing is labelled; labelOnlyPomXml is false |
| Pom.Module.SetGroupId | src/main/java/se/tla/mavenversionbumper/Module.java:118-120 | the outcome and new document are those of the own-groupId edit; the invariant is kept |
| Pom.Module.SetArtifactId | src/main/java/se/tla/mavenversionbumper/Module.java:129-131 | the outcome and new document are those of the own-artifactId edit |
| Pom.Module.SetVersion | src/main/java/se/tla/mavenversionbumper/Module.java:140-148 | the outcome and document of the version edit; the commit message is seeded with "Bump original -> v" only when it was unset and the pom has its own version; a valid module with its own version always succeeds |
| Pom.Module.SetParentVersion | src/main/java/se/tla/mavenversionbumper/Module.java:161-171 | the outcome and document of the parent-version edit |
| Pom.Module.SetParentVersionFrom | src/main/java/se/tla/mavenversionbumper/Module.java:178-194 | the outcome and document of the parentVersion(Module) edit |
| Pom.Module.UpdateProperty | src/main/java/se/tla/mavenversionbumper/Module.java:291-303 | the outcome and document of the property edit; a failure leaves the document as it was |
| Pom.Module.GetChildElements | src/main/java/se/tla/mavenversionbumper/Module.java:364-375 | the loop walks getChild through the names; the children at the path, or none as soon as a step is missing |
| Pom.Module.FindDependencyElement | src/main/java/se/tla/mavenversionbumper/Module.java:351-362 | the loop returns FindIn: the first matching entry, none, or the null dereference |
| Pom.Module.UpdateEntry | src/main/java/se/tla/mavenversionbumper/Module.java:216-282 | the outcome and document of the entry edit for either kind |
| Pom.Module.UpdateDependency | src/main/java/se/tla/mavenversionbumper/Module.java:216-245 | the outcome and document of the dependency edit |
| Pom.Module.UpdatePluginDependency | src/main/java/se/tla/mavenversionbumper/Module.java:253-282 | the outcome and document of the plugin edit |
| Pom.Module.ScanProperties | src/main/java/se/tla/mavenversionbumper/Module.java:388-397 | the messages of the properties findings, in child order |
| Pom.Module.ScanEntries | src/main/java/se/tla/mavenversionbumper/Module.java:399-431 | the messages of one scanned list's findings, in entry order |
| Pom.Module.FindSnapshots | src/main/java/se/tla/mavenversionbumper/Module.java:377-435 | a null dereference when version() is null, otherwise the messages of the findings in category order |
| Pom.Module.SetLabel | src/main/java/se/tla/mavenversionbumper/Module.java:326-332 | the label read back is the one last stored |
| Pom.Module.SetCommitMessage | src/main/java/se/tla/mavenversionbumper/Module.java:340-349 | the commit message read back is the one last stored, seeded or not |
| Pom.Module.SetLabelOnlyPomXml | src/main/java/se/tla/mavenversionbumper/Module.java:449-458 | the flag read back is the one last stored |
| Readonly.ReadonlyModule.Identity | src/main/java/se/tla/mavenversionbumper/ReadonlyModule.java:39-73 | groupId(), artifactId() and version() are exactly the constructor's arguments |
| Readonly.ReadonlyModule.Gav | src/main/java/se/tla/mavenversionbumper/ReadonlyModule.java:46-48 | gav() is groupId + ":" + artifactId + ":" + version |
| Readonly.ReadonlyModule.ToString | src/main/java/se/tla/mavenversionbumper/ReadonlyModule.java:156-158 | toString() equals gav() |
| Readonly.ReadonlyModule.Invoke | src/main/java/se/tla/mavenversionbumper/ReadonlyModule.java:76-153 | every other operation, setter or getter, fails with Unsupported; the value cannot change |
| Readonly.Load | src/main/java/se/tla/mavenversionbumper/ReadonlyModule.java:35-37 | the path-based constructor always fails with Unsupported |
| Readonly.GavIdentifies | src/main/java/se/tla/mavenversionbumper/ReadonlyModule.java:46-48 | two read-only modules with colon-free groupId and artifactId and equal gav strings are equal |
| Readonly.ReadonlyExample | src/test/java/se/tla/mavenversionbumper/ReadonlyModuleTest.java:38-48 | the test module's getters, gav and toString |
| ReverseEngineering.StripDashes | src/main/java/se/tla/mavenversionbumper/ReverseEngineeringModule.java:56-58 | no '-' is left, every other character keeps its count, and the length drops by the number of dashes |
| ReverseEngineering.StripDashesAppend | src/main/java/se/tla/mavenversionbumper/ReverseEngineeringModule.java:56-58 | removing dashes distributes over concatenation, so the kept characters stay in order |
| ReverseEngineering.StripDashesNoDash | src/main/java/se/tla/mavenversionbumper/ReverseEngineeringModule.java:56-58 | a name without dashes is unchanged |
| ReverseEngineering.StripDashesIdempotent | src/main/java/se/tla/mavenversionbumper/ReverseEngineeringModule.java:56-58 | stripping twice is stripping once |
| ReverseEngineering.ModuleNameOf | src/main/java/se/tla/mavenversionbumper/ReverseEngineeringModule.java:56-58 | moduleName() is artifactId() without dashes, or a null dereference exactly when artifactId() is null |
| ReverseEngineering.ParentProbe | src/main/java/se/tla/mavenversionbumper/ReverseEngineeringModule.java:64-75 | a found parent index lies within the candidates |
| ReverseEngineering.ParentProbeFirst | src/main/java/se/tla/mavenversionbumper/ReverseEngineeringModule.java:64-75 | the parent found is the first candidate whose probe raises no argument error, and its probe succeeded; none iff every probe raised an argument error; an error is never Arg and is that of the first such candidate |
| ReverseEngineering.ParentProbeStep | src/main/java/se/tla/mavenversionbumper/ReverseEngineeringModule.java:66-73 | one loop iteration: success returns this candidate, an argument error moves on, anything else ends the search |
| ReverseEngineering.Probe | src/main/java/se/tla/mavenversionbumper/ReverseEngineeringModule.java:80-87 | a successful update records the candidate and keeps its write; an argument error skips it and leaves the pom as it was; any other error ends the scan with that error |
| ReverseEngineering.EntryScan | src/main/java/se/tla/mavenversionbumper/ReverseEngineeringModule.java:77-105 | every index found is a candidate |
| ReverseEngineering.EntryScanOrdered | src/main/java/se/tla/mavenversionbumper/ReverseEngineeringModule.java:77-90 | the candidates are found in input order, each at most once |
| ReverseEngineering.EntryScanFinds | src/main/java/se/tla/mavenversionbumper/ReverseEngineeringModule.java:77-90 | candidate i is found iff the scan reached it and its update succeeded on the pom the earlier probes left |
| ReverseEngineering.EntryScanFailure | src/main/java/se/tla/mavenversionbumper/ReverseEngineeringModule.java:77-105 | a scan can end only on a null dereference |
| ReverseEngineering.EntryScanStops | src/main/java/se/tla/mavenversionbumper/ReverseEngineeringModule.java:77-105 | once a probe fails with a non-argument error, no later candidate is probed |
| ReverseEngineering.ScanStages | src/main/java/se/tla/mavenversionbumper/ReverseEngineeringModule.java:113-120 | the two scans succeed together or fail; the plugin list exists only after the dependency list; every edge is a candidate |
| ReverseEngineering.Discover | src/main/java/se/tla/mavenversionbumper/ReverseEngineeringModule.java:107-121 | consider succeeds iff all three stages ran; each later stage ran only after the earlier one; every edge is a candidate |
| ReverseEngineering.DiscoverFailure | src/main/java/se/tla/mavenversionbumper/ReverseEngineeringModule.java:107-121 | consider can fail only with the state error of a parent block without a version, or a null dereference |
| ReverseEngineering.DiscoverParts | src/main/java/se/tla/mavenversionbumper/ReverseEngineeringModule.java:107-121 | consider is detectParent followed by the scans on the pom detectParent left; the modules notified are the parent followed by those the scans found |
| ReverseEngineering.ScanStagesSent | src/main/java/se/tla/mavenversionbumper/ReverseEngineeringModule.java:113-120 | the modules the scans notify are the dependencies followed by the plugin dependencies, as far as the scans got |
| ReverseEngineering.ScriptLines | src/main/java/se/tla/mavenversionbumper/ReverseEngineeringModule.java:127-142 | the load line first, the optional updateParent line, then one updateDependency line per dependency and one updatePluginDependency line per plugin, in order |
| ReverseEngineering.Script | src/main/java/se/tla/mavenversionbumper/ReverseEngineeringModule.java:127-142 | toString succeeds iff every name it needs exists and both lists were set; the text is the lines followed by an empty line; the only error is a null dereference |
| ReverseEngineering.ScriptJoin | src/main/java/se/tla/mavenversionbumper/ReverseEngineeringModule.java:127-142 | the script's text is its parts appended one after the other, as the builder appends them |
| ReverseEngineering.ScriptShape | src/main/java/se/tla/mavenversionbumper/ReverseEngineeringModule.java:127-142 | a script starts with the module's load line and ends in ";\n\n" |
| ReverseEngineering.AppendCalls | src/main/java/se/tla/mavenversionbumper/ReverseEngineeringModule.java:133-138 | each loop of toString appends one call line per module, or fails on the first module without an artifactId |
| ReverseEngineering.ReverseEngineeringModule.constructor | src/main/java/se/tla/mavenversionbumper/ReverseEngineeringModule.java:32-41 | a new module has no parent, no lists yet and no module depending on it |
| ReverseEngineering.ReverseEngineeringModule.SubModules | src/main/java/se/tla/mavenversionbumper/ReverseEngineeringModule.java:43-54 | the texts of the modules element's children in document order; none without a modules element |
| ReverseEngineering.ReverseEngineeringModule.DetectParent | src/main/java/se/tla/mavenversionbumper/ReverseEngineeringModule.java:64-75 | the loop returns the module at ParentProbe's index and keeps that probe's write, returns none, or propagates the error with the pom unchanged |
| ReverseEngineering.ReverseEngineeringModule.ProbeEntry | src/main/java/se/tla/mavenversionbumper/ReverseEngineeringModule.java:80-87 | one probe advances the scan by exactly one candidate |
| ReverseEngineering.ReverseEngineeringModule.FindEntries | src/main/java/se/tla/mavenversionbumper/ReverseEngineeringModule.java:77-105 | the loop returns the modules at the scan's indices, in order, and leaves the pom the scan ends with; a non-argument error propagates |
| ReverseEngineering.ReverseEngineeringModule.FindDependencies | src/main/java/se/tla/mavenversionbumper/ReverseEngineeringModule.java:77-90 | findDependencies is the dependency scan |
| ReverseEngineering.ReverseEngineeringModule.FindPluginDependencies | src/main/java/se/tla/mavenversionbumper/ReverseEngineeringModule.java:92-105 | findPluginDependencies is the plugin scan |
| ReverseEngineering.ReverseEngineeringModule.Consider | src/main/java/se/tla/mavenversionbumper/ReverseEngineeringModule.java:107-121 | the pom, the outcome and the parent, dependencies and pluginDependencies fields are those of Discover, and a field whose stage was not reached keeps its value; each module's dependsOnMe gains this module once per time it was found |
| ReverseEngineering.ReverseEngineeringModule.ConsiderParent | src/main/java/se/tla/mavenversionbumper/ReverseEngineeringModule.java:109-112 | the parent stage: the parent field is set, and the parent found is told once |
| ReverseEngineering.ReverseEngineeringModule.ConsiderEntries | src/main/java/se/tla/mavenversionbumper/ReverseEngineeringModule.java:113-120 | the two scan stages and their notifications; the parent field is untouched |
| ReverseEngineering.ReverseEngineeringModule.ConsiderDependencies | src/main/java/se/tla/mavenversionbumper/ReverseEngineeringModule.java:113-116 | the dependencies field is set from the scan and each module found is told once |
| ReverseEngineering.ReverseEngineeringModule.ConsiderPlugins | src/main/java/se/tla/mavenversionbumper/ReverseEngineeringModule.java:117-120 | the pluginDependencies field is set from the scan and each module found is told once |
| ReverseEngineering.ReverseEngineeringModule.Notify | src/main/java/se/tla/mavenversionbumper/ReverseEngineeringModule.java:114-116 | addDependency(this) on each module of a list adds exactly those to the tally |
| ReverseEngineering.ReverseEngineeringModule.NotifyOne | src/main/java/se/tla/mavenversionbumper/ReverseEngineeringModule.java:123-125 | one addDependency(this) adds one entry to the tally of that module and no other |
| ReverseEngineering.ReverseEngineeringModule.AddDependency | src/main/java/se/tla/mavenversionbumper/ReverseEngineeringModule.java:123-125 | the module is appended to dependsOnMe |
| ReverseEngineering.ReverseEngineeringModule.ToString | src/main/java/se/tla/mavenversionbumper/ReverseEngineeringModule.java:127-142 | the builder's text is Script over this module's name, path and version, the parent's name and the names in both lists |
| ReverseEngineering.ReverseEngineeringModule.CompareTo | src/main/java/se/tla/mavenversionbumper/ReverseEngineeringModule.java:144-154 | 0 exactly for this module itself, -1 exactly for another module in dependsOnMe, 1 exactly otherwise |
| ReverseEngineering.ReverseEngineeringModule.NotifiedComesFirst | src/main/java/se/tla/mavenversionbumper/ReverseEngineeringModule.java:144-154 | a module whose dependsOnMe gained this module, as Consider states, compares this module as -1 |

## Left out

- Loading and saving are file I/O through a foreign XML library, so the model does not
  cover them. This includes directory lookup, JDOM parsing and `save()`
  (Module.java:57-102, 313-319). The `Module` constructor takes an already parsed tree.
- Xml.SetText keeps the element's child elements, while JDOM's `setText` replaces all of an
  element's content, child elements included. The elements the code writes (a version,
  groupId or artifactId, or a property) hold only text in a Maven pom, and no modelled
  operation reads below an element it writes. A model with content replacement would
  differ only on poms that put elements inside those.
- `pomFile()` and the `File` fields are file handles with no logic.
- The exception messages are not modelled. They embed `gav()` strings. Only the kind of
  each exception is kept.
- XML namespaces are not modelled. Every element is in the root's namespace, and names
  are plain strings.
- An element's attributes, comments and mixed content are not modelled. An element is
  its name, its text and its child elements.
- `Module.toString()` (Module.java:471-474) is not modelled. It returns the module name
  and is not part of the modelled operations.
- The protected no-argument `Module()` constructor only exists for `ReadonlyModule`.
- `ReverseEngineeringModule` extends `Module` in Java. The model gives it a `Module` field
  instead, because Dafny has no class inheritance without traits. `path()` is that
  module's name field.
- `ReverseEngineeringModule`'s constructor takes a `Module`. It does not take a
  directory.
- The probes of other modules read those modules' poms as they are at the probe. The
  probes only ever write this module's own pom.
- `ReadonlyModule`'s refused operations are one `Invoke` over a datatype of operations.
  The module is a value, so "changes nothing" holds by construction.
- The getters `label()`, `commitMessage()` and `labelOnlyPomXml()` are direct field reads of
  the class.
- `Main.java`, the version-control adapters and the test fakes are not part of this model.
- Descriptor.EntryEdit: its own contract says only that a successful edit fits the
  document and writes m's version. The full case analysis is in the lemmas
  EntryEditCases, EntryWithoutVersion, EntryDirect and EntryRedirect.
- Descriptor.SimpleIdentity and Descriptor.WithParentIdentity: the test poms themselves
  are not part of this model. The lemmas use small poms with the same coordinates.
