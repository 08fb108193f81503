/**
 * Project persistence over the file manager: each project's metadata is
 * the JSON file `projects/<id>/metadata.json`; listing reads every project
 * folder, drops the unreadable ones, and orders the rest newest first.
 *
 * The file manager is the in-memory one; JSON and the text codecs are
 * parameters (`parse` rejects with the parser's message).
 */
module ProjectsStorage {
  import opened Text
  import opened ProjectTypes
  import Sorting
  import Base64
  import DebugFileManager

  const ProjectsFolder := "projects"
  const ReadProjectsFailedPrefix := "Failed to read projects: "
  const ReadProjectFailedPrefix := "Failed to read project: "

  datatype Codec = Codec(
    stringify: ProjectMetadata -> string,
    parse: string -> Answer<ProjectMetadata>,
    encodeText: string -> seq<byte>,
    decodeText: seq<byte> -> string)

  function MetadataPath(id: string): string {
    "projects/" + id + "/metadata.json"
  }

  /** The bytes `saveProject` stores: the metadata as JSON, encoded. */
  function MetadataBytes(metadata: ProjectMetadata, codec: Codec): seq<byte> {
    codec.encodeText(codec.stringify(metadata))
  }

  /**
   * One project folder as `getProjects` loads it: a read error rejects, a
   * missing file or metadata that does not parse is nothing, otherwise the
   * parsed metadata.
   */
  function LoadProject(files: map<string, string>, id: string, codec: Codec): (r: Answer<Option<ProjectMetadata>>)
    ensures DebugFileManager.Decodable(files) ==> r.Value?
  {
    match DebugFileManager.ReadFile(files, MetadataPath(id))
    case Rejected(message) => Rejected(message)
    case Value(None) => Value(None)
    case Value(Some(bytes)) =>
      var parsed := codec.parse(codec.decodeText(bytes));
      if parsed.Rejected? then Value(None) else Value(Some(parsed.value))
  }

  /** `Promise.all` over the folders, then the non-null results in folder order. */
  function LoadAll(files: map<string, string>, ids: seq<string>, codec: Codec): (r: Answer<seq<ProjectMetadata>>)
    ensures DebugFileManager.Decodable(files) ==> r.Value?
    ensures r.Value? ==> forall p :: p in r.value ==> exists id :: id in ids && LoadProject(files, id, codec) == Value(Some(p))
    ensures r.Value? ==> forall id :: id in ids && LoadProject(files, id, codec).Value? && LoadProject(files, id, codec).value.Some? ==>
      LoadProject(files, id, codec).value.value in r.value
  {
    if ids == [] then Value([])
    else
      var first := LoadProject(files, ids[0], codec);
      var rest := LoadAll(files, ids[1..], codec);
      assert forall id :: id in ids <==> id == ids[0] || id in ids[1..];
      if first.Rejected? then Rejected(first.message)
      else if rest.Rejected? then rest
      else Value((if first.value.Some? then [first.value.value] else []) + rest.value)
  }

  /** The comparator `b.dateCreated - a.dateCreated`: ascending order of the negated date. */
  function NewestFirst(p: ProjectMetadata): int {
    -p.dateCreated
  }

  /** `slice(0, limit)`: a negative limit counts from the end; no limit keeps everything. */
  function SliceTo<T>(s: seq<T>, limit: Option<int>): (r: seq<T>)
    ensures |r| <= |s| && r == s[..|r|]
    ensures limit.None? ==> r == s
    ensures limit.Some? && limit.value >= 0 ==> |r| == (if limit.value < |s| then limit.value else |s|)
    ensures limit.Some? && limit.value < 0 ==> |r| == (if |s| + limit.value > 0 then |s| + limit.value else 0)
  {
    if limit.None? then s
    else
      var end := if limit.value < 0 then |s| + limit.value else limit.value;
      s[..Clamp(end, |s|)]
  }

  lemma PrefixSorted<T>(s: seq<T>, n: nat, key: T -> int)
    requires n <= |s| && Sorting.SortedBy(s, key)
    ensures Sorting.SortedBy(s[..n], key)
  {
  }

  /** `saveProject`: the metadata file holds the project's JSON. */
  method SaveProject(fm: DebugFileManager.FileManager, metadata: ProjectMetadata, codec: Codec)
    modifies fm
    ensures fm.files == old(fm.files)[MetadataPath(metadata.id) := Base64.Encode(MetadataBytes(metadata, codec))]
    ensures old(fm.Valid()) ==> fm.Valid()
  {
    var metadataJson := codec.stringify(metadata);
    var metadataBytes := codec.encodeText(metadataJson);
    var buffer := new byte[|metadataBytes|](i requires 0 <= i < |metadataBytes| => metadataBytes[i]);
    assert buffer[..] == metadataBytes;
    fm.Save(buffer, MetadataPath(metadata.id));
  }

  /**
   * `getProjects`: no projects folder means no projects; otherwise every
   * readable project, newest first, cut to the limit. A read error
   * rejects, which never happens to files the manager wrote.
   */
  method GetProjects(fm: DebugFileManager.FileManager, allKeys: seq<string>, limit: Option<int>, codec: Codec)
    returns (r: Answer<seq<ProjectMetadata>>)
    requires forall k :: k in allKeys <==> k in fm.files
    ensures (forall k :: k in fm.files ==> !StartsWith(k, "projects/")) ==> r == Value([])
    ensures fm.Valid() ==> r.Value?
    ensures r.Value? ==> Sorting.SortedBy(r.value, NewestFirst)
    ensures (exists k :: k in fm.files && StartsWith(k, "projects/")) ==>
      var loaded := LoadAll(fm.files, DebugFileManager.Directories(allKeys, "projects/"), codec);
      r == (if loaded.Rejected? then Rejected(ReadProjectsFailedPrefix + loaded.message)
            else Value(SliceTo(Sorting.SortBy(loaded.value, NewestFirst), limit)))
  {
    var listing := fm.ListDirectory(ProjectsFolder, allKeys);
    assert DebugFileManager.PathPrefix(ProjectsFolder) == "projects/";
    if listing.FolderMissing? {
      return Value([]);
    }
    var loaded := LoadAll(fm.files, listing.names, codec);
    if loaded.Rejected? {
      return Rejected(ReadProjectsFailedPrefix + loaded.message);
    }
    var projects := Sorting.SortBy(loaded.value, NewestFirst);
    var result := SliceTo(projects, limit);
    PrefixSorted(projects, |result|, NewestFirst);
    r := Value(result);
  }

  /**
   * `getProject`: nothing for a missing (or empty) metadata file; a read
   * error or metadata that does not parse rejects.
   */
  method GetProject(fm: DebugFileManager.FileManager, idProject: string, codec: Codec)
    returns (r: Answer<Option<ProjectMetadata>>)
    ensures var read := DebugFileManager.ReadFile(fm.files, MetadataPath(idProject));
      r == match read
        case Rejected(message) => Rejected(ReadProjectFailedPrefix + message)
        case Value(None) => Value(None)
        case Value(Some(bytes)) =>
          var parsed := codec.parse(codec.decodeText(bytes));
          if parsed.Rejected? then Rejected(ReadProjectFailedPrefix + parsed.message) else Value(Some(parsed.value))
  {
    var metadataBytes := fm.Read(MetadataPath(idProject));
    if metadataBytes.Rejected? {
      return Rejected(ReadProjectFailedPrefix + metadataBytes.message);
    }
    if metadataBytes.value.None? {
      return Value(None);
    }
    var metadataJson := codec.decodeText(metadataBytes.value.value[..]);
    var parsed := codec.parse(metadataJson);
    if parsed.Rejected? {
      return Rejected(ReadProjectFailedPrefix + parsed.message);
    }
    r := Value(Some(parsed.value));
  }

  /** `deleteProject`: only the metadata file goes; the folder's other files stay. */
  method DeleteProject(fm: DebugFileManager.FileManager, idProject: string)
    modifies fm
    ensures fm.files == old(fm.files) - {MetadataPath(idProject)}
    ensures old(fm.Valid()) ==> fm.Valid()
  {
    fm.Delete(MetadataPath(idProject));
  }

  /** What a project's metadata reads back as after `saveProject`, when JSON and the text codecs undo each other. */
  lemma LoadAfterSave(files: map<string, string>, metadata: ProjectMetadata, codec: Codec)
    requires MetadataBytes(metadata, codec) != []
    requires codec.parse(codec.decodeText(MetadataBytes(metadata, codec))) == Value(metadata)
    ensures LoadProject(files[MetadataPath(metadata.id) := Base64.Encode(MetadataBytes(metadata, codec))], metadata.id, codec)
      == Value(Some(metadata))
  {
    DebugFileManager.ReadAfterSave(files, MetadataPath(metadata.id), MetadataBytes(metadata, codec));
  }

  /** A saved project with a plain id (non-empty, no '/') is one of the folders the listing reads. */
  lemma SavedProjectListed(files: map<string, string>, keys: seq<string>, id: string)
    requires forall k :: k in keys <==> k in files
    requires MetadataPath(id) in files && id != [] && '/' !in id
    ensures id in DebugFileManager.Directories(keys, "projects/")
  {
    var key := MetadataPath(id);
    var prefix := "projects/";
    assert key == prefix + (id + "/metadata.json");
    assert StartsWith(key, prefix);
    var rel := key[|prefix|..];
    assert rel == id + "/metadata.json";
    assert IndexOf(rel, '/') == |id| by {
      assert rel[|id|] == '/';
      assert rel[..|id|] == id;
    }
    assert rel[..|id|] == id;
    assert DebugFileManager.EntryOf(key, prefix, id);
  }
}
