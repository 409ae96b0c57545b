/** The identity of a Maven module as the other modules see it: groupId,
    artifactId and version, each of which the Java getters may return as null. */
module Gav {
  import opened Base

  datatype Coordinates = Coordinates(groupId: Option<string>, artifactId: Option<string>, version: Option<string>)
  {
    /** gav(): the three coordinates joined by ':' (a null coordinate is written "null"). */
    function Gav(): (s: string)
      ensures |s| == |JavaString(groupId)| + |JavaString(artifactId)| + |JavaString(version)| + 2
      ensures s[|JavaString(groupId)|] == ':'
      ensures s[|JavaString(groupId)| + 1 + |JavaString(artifactId)|] == ':'
    {
      JavaString(groupId) + ":" + JavaString(artifactId) + ":" + JavaString(version)
    }
  }

  /** A string split at its first ':' is determined by the two sides. */
  lemma SplitAtColon(x: string, y: string, u: string, v: string)
    requires ':' !in x && ':' !in u
    requires x + ":" + y == u + ":" + v
    ensures x == u && y == v
  {
    var s := x + ":" + y;
    assert s[|x|] == ':' && s[|u|] == ':';
    assert forall k :: 0 <= k < |x| ==> s[k] == x[k];
    assert forall k :: 0 <= k < |u| ==> s[k] == u[k];
    assert |x| == |u|;
    assert x == s[..|x|];
    assert u == s[..|u|];
    assert y == s[|x| + 1..];
    assert v == s[|u| + 1..];
  }

  /** When neither groupId nor artifactId contains ':', the gav string determines
      all three rendered coordinates: gav() loses no information. */
  lemma GavDetermines(a: Coordinates, b: Coordinates)
    requires ':' !in JavaString(a.groupId) && ':' !in JavaString(a.artifactId)
    requires ':' !in JavaString(b.groupId) && ':' !in JavaString(b.artifactId)
    requires a.Gav() == b.Gav()
    ensures JavaString(a.groupId) == JavaString(b.groupId)
    ensures JavaString(a.artifactId) == JavaString(b.artifactId)
    ensures JavaString(a.version) == JavaString(b.version)
  {
    var ga, aa, va := JavaString(a.groupId), JavaString(a.artifactId), JavaString(a.version);
    var gb, ab, vb := JavaString(b.groupId), JavaString(b.artifactId), JavaString(b.version);
    assert ga + ":" + aa + ":" + va == ga + ":" + (aa + ":" + va);
    assert gb + ":" + ab + ":" + vb == gb + ":" + (ab + ":" + vb);
    SplitAtColon(ga, aa + ":" + va, gb, ab + ":" + vb);
    SplitAtColon(aa, va, ab, vb);
  }
}
