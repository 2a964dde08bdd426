/** module-cpp/src/framework/details/sendtoschema.cpp: send_to_schema, the
    C++ form of the asset message (path, name, uuid, type and the
    ownership flag), with its JSON mapping and its path-extension helpers. */
module CppSendToSchema {
  import opened Common
  import opened PyJson
  import opened CppJson

  datatype SendToSchema = SendToSchema(takeFileOwnership: bool, path: string, name: string, uuid: string, assetType: string)

  /** Serialize: the five members written into `root`, over whatever it
      held. */
  function Serialize(root: map<string, Json>, s: SendToSchema): (r: map<string, Json>)
    ensures r.Keys == root.Keys + {"path", "name", "uuid", "type", "take_file_ownership"}
    ensures forall k :: k in root && k !in {"path", "name", "uuid", "type", "take_file_ownership"} ==> r[k] == root[k]
  {
    root["path" := JStr(s.path)]["name" := JStr(s.name)]["uuid" := JStr(s.uuid)]
        ["type" := JStr(s.assetType)]["take_file_ownership" := JBool(s.takeFileOwnership)]
  }

  /** Deserialize(const Json::Value&): the members assigned in order,
      missing strings read as "", a missing flag as false; the first access
      that throws ends it, keeping the members assigned before it. It
      throws, always a logic error, exactly when the root is neither null
      nor an object, a string member holds a list or an object, or the flag
      holds a string, a list or an object. */
  function Deserialize(s: SendToSchema, root: Json): (r: (SendToSchema, Option<Fault>))
    ensures r.1.Some? ==> r.1 == Some(LogicError) && r.0.takeFileOwnership == s.takeFileOwnership
    ensures r.1.None? <==>
      (root.JNull? || root.JObj?)
      && !ContainerAt(root, "path") && !ContainerAt(root, "name") && !ContainerAt(root, "uuid")
      && !ContainerAt(root, "type") && !ContainerAt(root, "take_file_ownership")
      && !(HasKey(root, "take_file_ownership") && root.fields["take_file_ownership"].JStr?)
    ensures r.1.None? && TextOrMissing(root, "path") ==> r.0.path == TextAt(root, "path")
    ensures r.1.None? && TextOrMissing(root, "name") ==> r.0.name == TextAt(root, "name")
    ensures r.1.None? && TextOrMissing(root, "uuid") ==> r.0.uuid == TextAt(root, "uuid")
    ensures r.1.None? && TextOrMissing(root, "type") ==> r.0.assetType == TextAt(root, "type")
    ensures r.1.None? && HasKey(root, "take_file_ownership") && root.fields["take_file_ownership"].JBool? ==>
      r.0.takeFileOwnership == root.fields["take_file_ownership"].b
    ensures r.1.None? && !HasKey(root, "take_file_ownership") ==> !r.0.takeFileOwnership
  {
    match ReadString(root, "path")
    case Err(f) => (s, Some(f))
    case Ok(path) =>
      var s1 := s.(path := path);
      match ReadString(root, "name")
      case Err(f) => (s1, Some(f))
      case Ok(name) =>
        var s2 := s1.(name := name);
        match ReadString(root, "uuid")
        case Err(f) => (s2, Some(f))
        case Ok(uuid) =>
          var s3 := s2.(uuid := uuid);
          match ReadString(root, "type")
          case Err(f) => (s3, Some(f))
          case Ok(t) =>
            var s4 := s3.(assetType := t);
            match ReadBool(root, "take_file_ownership", JBool(false))
            case Err(f) => (s4, Some(f))
            case Ok(b) => (s4.(takeFileOwnership := b), None)
  }

  /** Deserialize(const std::string&): nothing changes when the text does
      not parse. `parsed` is what the reader makes of it. */
  function DeserializeText(s: SendToSchema, parsed: Option<Json>): (SendToSchema, Option<Fault>) {
    if parsed.None? then (s, None) else Deserialize(s, parsed.value)
  }

  /** std::string::npos. */
  const Npos: nat := 0xFFFF_FFFF_FFFF_FFFF

  /** The last position of c in s, if any. */
  function LastIndexOf(s: string, c: char): (p: Option<nat>)
    ensures p.Some? ==> p.value < |s| && s[p.value] == c && forall i :: p.value < i < |s| ==> s[i] != c
    ensures p.None? ==> forall i :: 0 <= i < |s| ==> s[i] != c
    decreases |s|
  {
    if s == [] then None
    else if s[|s| - 1] == c then Some(|s| - 1)
    else LastIndexOf(s[..|s| - 1], c)
  }

  /** std::string::find_last_of for one character: the position, or npos. */
  function FindLastOf(s: string, c: char): nat {
    match LastIndexOf(s, c)
    case None => Npos
    case Some(p) => p
  }

  /** getPathExtension: the text after the last '.'. With no '.',
      find_last_of gives npos and npos + 1 wraps to 0 in size_t, so the whole
      path is returned. The extension is a suffix of the path; for any path
      shorter than npos, as every std::string is, it is the whole path or
      the text after a '.', and holds no '.'. */
  function GetPathExtension(s: SendToSchema): (r: string)
    ensures |r| <= |s.path| && r == s.path[|s.path| - |r|..]
    ensures |s.path| < Npos ==> r == s.path || s.path[|s.path| - |r| - 1] == '.'
    ensures |s.path| < Npos ==> forall i :: 0 <= i < |r| ==> r[i] != '.'
  {
    if |s.path| > 0 then
      var start := ExtensionStart(s.path);
      if start <= |s.path| then s.path[start..] else s.path
    else ""
  }

  /** Where getPathExtension's substring starts, `find_last_of('.') + 1` in
      size_t: after the last '.', or 0 when there is none. */
  function ExtensionStart(path: string): (start: nat)
    ensures |path| < Npos ==>
      && (start == 0 ==> forall i :: 0 <= i < |path| ==> path[i] != '.')
      && (start > 0 ==> start <= |path| && path[start - 1] == '.' && forall i :: start <= i < |path| ==> path[i] != '.')
  {
    var start := (FindLastOf(path, '.') + 1) % 0x1_0000_0000_0000_0000;
    match LastIndexOf(path, '.')
    case None =>
      assert (Npos + 1) % 0x1_0000_0000_0000_0000 == 0;
      start
    case Some(p) =>
      assert p + 1 < 0x1_0000_0000_0000_0000 ==> (p + 1) % 0x1_0000_0000_0000_0000 == p + 1;
      start
  }

  /** isPathFileExtension: `compare(...) == 0`; an extension that matches
      ends the path, and holds no '.'. */
  predicate IsPathFileExtension(s: SendToSchema, extension: string)
    ensures IsPathFileExtension(s, extension) ==> |extension| <= |s.path| && s.path[|s.path| - |extension|..] == extension
    ensures IsPathFileExtension(s, extension) && |s.path| < Npos ==> forall i :: 0 <= i < |extension| ==> extension[i] != '.'
  {
    GetPathExtension(s) == extension
  }

  /** Deserialize(Serialize(s)) gives s back, over any previous contents. */
  lemma SerializeRoundTrip(t: SendToSchema, s: SendToSchema, root: map<string, Json>)
    ensures Deserialize(t, JObj(Serialize(root, s))) == (s, None)
  {
  }

  /** An empty object resets every member: strings to "" and the flag to
      false. */
  lemma MissingMembersDefault(t: SendToSchema)
    ensures Deserialize(t, JObj(map[])) == (SendToSchema(false, "", "", "", ""), None)
  {
  }

  /** A path member that is a list or an object throws at once and leaves
      the schema unchanged; a later member that throws keeps the path
      already read. */
  lemma FirstThrowKeepsEarlier(t: SendToSchema, m: map<string, Json>)
    requires "path" in m && m["path"].JStr?
    requires "name" in m && (m["name"].JArr? || m["name"].JObj?)
    ensures Deserialize(t, JObj(m)) == (t.(path := m["path"].s), Some(LogicError))
    ensures Deserialize(t, JObj(m["path" := JArr([])])) == (t, Some(LogicError))
  {
  }

  /** Text that does not parse changes nothing. */
  lemma UnparsedKeeps(t: SendToSchema)
    ensures DeserializeText(t, None) == (t, None)
  {
  }

  /** An empty path has the empty extension, and a path without '.' is
      its own extension. */
  lemma ExtensionWithoutDot(s: SendToSchema)
    requires forall i :: 0 <= i < |s.path| ==> s.path[i] != '.'
    ensures GetPathExtension(s) == s.path
  {
    assert LastIndexOf(s.path, '.') == None;
    assert (Npos + 1) % 0x1_0000_0000_0000_0000 == 0;
  }

  /** With a '.' in the path, the extension is the text after the last one,
      and so holds no '.'. A std::string is always shorter than npos. */
  lemma ExtensionAfterLastDot(s: SendToSchema, p: nat)
    requires |s.path| < Npos
    requires p < |s.path| && s.path[p] == '.' && forall i :: p < i < |s.path| ==> s.path[i] != '.'
    ensures GetPathExtension(s) == s.path[p + 1..]
    ensures forall i :: 0 <= i < |GetPathExtension(s)| ==> GetPathExtension(s)[i] != '.'
  {
    var q := LastIndexOf(s.path, '.');
    assert q.Some?;
    assert q.value == p;
    assert (p + 1) % 0x1_0000_0000_0000_0000 == p + 1;
  }

  /** A path written as stem + "." + ext, with no '.' in ext, has extension
      ext, whatever the stem holds. */
  lemma SuffixIsExtension(s: SendToSchema, stem: string, ext: string)
    requires |s.path| < Npos && s.path == stem + "." + ext
    requires forall i :: 0 <= i < |ext| ==> ext[i] != '.'
    ensures IsPathFileExtension(s, ext)
  {
    var p := |stem|;
    assert s.path[p] == '.';
    assert forall i :: p < i < |s.path| ==> s.path[i] == ext[i - p - 1];
    ExtensionAfterLastDot(s, p);
    assert s.path[p + 1..] == ext;
  }
}
