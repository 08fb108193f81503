/**
 * The debug file manager: files kept as base64 text in a key-value store
 * (IndexedDB in the browser), directories derived from the `/`-separated
 * keys.
 *
 * The store is a map from file name to stored text. Its calls are taken to
 * succeed; `getAllKeys` is a parameter listing the store's keys in the
 * order the store returns them. The text codecs are parameters.
 */
module DebugFileManager {
  import opened Text
  import Base64

  /** Stands for the message of the error `atob` raises on text that is not base64. */
  const DecodeErrorMessage := "Invalid base64 text"
  const AppendFailedPrefix := "Failed to append to file: "
  const ReadFailedPrefix := "Failed to read file "
  const DirectoryMissingPrefix := "Directory does not exist: "

  /** `listDirectory`'s outcome: the entries, or the folder-does-not-exist error the project listing treats specially. */
  datatype Listing = Entries(names: seq<string>) | FolderMissing(message: string)

  /** Every stored text decodes: what `save` and `append` write always does. */
  predicate Decodable(files: map<string, string>) {
    forall k :: k in files ==> Base64.Decode(files[k]).Some?
  }

  /**
   * What `read` yields for a name: nothing for a missing file or an empty
   * stored text (both falsy), an error when the text does not decode,
   * otherwise the decoded bytes.
   */
  function ReadFile(files: map<string, string>, name: string): (r: Answer<Option<seq<byte>>>)
    ensures Decodable(files) ==> r.Value?
    ensures r.Value? && r.value.Some? ==> name in files && Base64.Decode(files[name]) == r.value
  {
    if name !in files || files[name] == "" then Value(None)
    else match Base64.Decode(files[name])
      case None => Rejected(ReadFailedPrefix + name + ": " + DecodeErrorMessage)
      case Some(b) => Value(Some(b))
  }

  /** The text `append` finds in a file: nothing for a missing or empty file, otherwise its decoded bytes as text. */
  function ExistingText(files: map<string, string>, name: string, decodeText: seq<byte> -> string): string {
    var r := ReadFile(files, name);
    if r.Value? && r.value.Some? then decodeText(r.value.value) else ""
  }

  /** Reading a saved file gives back its bytes, except that an empty file reads as missing. */
  lemma ReadAfterSave(files: map<string, string>, name: string, data: seq<byte>)
    ensures ReadFile(files[name := Base64.Encode(data)], name) == Value(if data == [] then None else Some(data))
    ensures Decodable(files) ==> Decodable(files[name := Base64.Encode(data)])
  {
    var m := files[name := Base64.Encode(data)];
    Base64.DecodeEncode(data);
    assert m[name] == Base64.Encode(data);
    assert m[name] == "" <==> data == [];
    assert Decodable(files) ==> Decodable(m) by {
      if Decodable(files) {
        forall k | k in m ensures Base64.Decode(m[k]).Some? {
          if k != name {
            assert m[k] == files[k];
          }
        }
      }
    }
  }

  /**
   * Appending adds the text at the end of what the file held, provided the
   * text codecs undo each other on the new content (as UTF-8 encoding
   * and decoding do).
   */
  lemma AppendAddsText(files: map<string, string>, name: string, data: string,
                       encodeText: string -> seq<byte>, decodeText: seq<byte> -> string)
    requires var t := ExistingText(files, name, decodeText) + data;
      decodeText(encodeText(t)) == t && (encodeText(t) == [] ==> t == [])
    ensures var t := ExistingText(files, name, decodeText) + data;
      ExistingText(files[name := Base64.Encode(encodeText(t))], name, decodeText) == t
  {
    var t := ExistingText(files, name, decodeText) + data;
    ReadAfterSave(files, name, encodeText(t));
  }

  /**
   * The files after one `append` of `data` to `name` that read the store
   * in the state `seen` and writes into `files`: nothing changes when the
   * text it read does not decode, otherwise the file holds the re-encoded
   * text it read followed by the data. An append that runs alone reads and
   * writes the same state.
   */
  function AppendOnto(files: map<string, string>, seen: map<string, string>, name: string, data: string,
                      encodeText: string -> seq<byte>, decodeText: seq<byte> -> string): map<string, string>
  {
    if ReadFile(seen, name).Rejected? then files
    else files[name := Base64.Encode(encodeText(ExistingText(seen, name, decodeText) + data))]
  }

  /** The pieces one after another. */
  function Joined(pieces: seq<string>): string {
    if pieces == [] then [] else Joined(pieces[..|pieces| - 1]) + pieces[|pieces| - 1]
  }

  /** Appends of the pieces in order, each finishing before the next begins. */
  function SequentialAppends(files: map<string, string>, name: string, pieces: seq<string>,
                             encodeText: string -> seq<byte>, decodeText: seq<byte> -> string): map<string, string>
  {
    if pieces == [] then files
    else
      var before := SequentialAppends(files, name, pieces[..|pieces| - 1], encodeText, decodeText);
      AppendOnto(before, before, name, pieces[|pieces| - 1], encodeText, decodeText)
  }

  lemma SequentialSnoc(files: map<string, string>, name: string, pieces: seq<string>, x: string,
                       encodeText: string -> seq<byte>, decodeText: seq<byte> -> string)
    ensures SequentialAppends(files, name, pieces + [x], encodeText, decodeText)
      == AppendOnto(SequentialAppends(files, name, pieces, encodeText, decodeText),
                    SequentialAppends(files, name, pieces, encodeText, decodeText), name, x, encodeText, decodeText)
  {
    assert (pieces + [x])[..|pieces|] == pieces;
  }

  /**
   * Appends of the pieces started together, as un-awaited `append` calls
   * are: every read is answered from the store before any write lands, and
   * the writes then land in order.
   */
  function OverlappedAppends(files: map<string, string>, name: string, pieces: seq<string>,
                             encodeText: string -> seq<byte>, decodeText: seq<byte> -> string): map<string, string>
  {
    if pieces == [] then files
    else
      var before := OverlappedAppends(files, name, pieces[..|pieces| - 1], encodeText, decodeText);
      AppendOnto(before, files, name, pieces[|pieces| - 1], encodeText, decodeText)
  }

  /** The text codecs undo each other, as UTF-8 encoding and decoding do. */
  ghost predicate CodecsInverse(encodeText: string -> seq<byte>, decodeText: seq<byte> -> string) {
    forall t :: decodeText(encodeText(t)) == t && (encodeText(t) == [] ==> t == [])
  }

  /**
   * As written: overlapping appends leave the file holding its old text
   * and the last piece only; every earlier piece is lost.
   */
  lemma OverlappedKeepsLast(files: map<string, string>, name: string, pieces: seq<string>,
                            encodeText: string -> seq<byte>, decodeText: seq<byte> -> string)
    requires Decodable(files) && CodecsInverse(encodeText, decodeText) && pieces != []
    ensures ExistingText(OverlappedAppends(files, name, pieces, encodeText, decodeText), name, decodeText)
      == ExistingText(files, name, decodeText) + pieces[|pieces| - 1]
  {
    var before := OverlappedAppends(files, name, pieces[..|pieces| - 1], encodeText, decodeText);
    var t := ExistingText(files, name, decodeText) + pieces[|pieces| - 1];
    assert decodeText(encodeText(t)) == t && (encodeText(t) == [] ==> t == []);
    ReadAfterSave(before, name, encodeText(t));
  }

  /**
   * Two lines handed on together: the file ends with the old text and the
   * second line, and the first line, when it is not empty, is missing.
   */
  lemma OverlappedLosesFirst(files: map<string, string>, name: string, a: string, b: string,
                             encodeText: string -> seq<byte>, decodeText: seq<byte> -> string)
    requires Decodable(files) && CodecsInverse(encodeText, decodeText) && a != []
    ensures ExistingText(OverlappedAppends(files, name, [a, b], encodeText, decodeText), name, decodeText)
      == ExistingText(files, name, decodeText) + b
    ensures ExistingText(OverlappedAppends(files, name, [a, b], encodeText, decodeText), name, decodeText)
      != ExistingText(files, name, decodeText) + a + b
  {
    OverlappedKeepsLast(files, name, [a, b], encodeText, decodeText);
  }

  /**
   * Corrected: appends that each finish before the next begins keep every
   * piece, in order, and keep the store decodable.
   */
  lemma {:induction false} SequentialKeepsAll(files: map<string, string>, name: string, pieces: seq<string>,
                                              encodeText: string -> seq<byte>, decodeText: seq<byte> -> string)
    requires Decodable(files) && CodecsInverse(encodeText, decodeText)
    ensures Decodable(SequentialAppends(files, name, pieces, encodeText, decodeText))
    ensures ExistingText(SequentialAppends(files, name, pieces, encodeText, decodeText), name, decodeText)
      == ExistingText(files, name, decodeText) + Joined(pieces)
    decreases |pieces|
  {
    if pieces != [] {
      var init := pieces[..|pieces| - 1];
      var last := pieces[|pieces| - 1];
      var before := SequentialAppends(files, name, init, encodeText, decodeText);
      SequentialKeepsAll(files, name, init, encodeText, decodeText);
      assert SequentialAppends(files, name, pieces, encodeText, decodeText)
        == AppendOnto(before, before, name, last, encodeText, decodeText);
      AppendAloneAdds(before, name, last, encodeText, decodeText);
      assert Joined(pieces) == Joined(init) + last;
      Regroup(ExistingText(files, name, decodeText), Joined(init), last,
        ExistingText(before, name, decodeText), Joined(pieces));
    } else {
      assert SequentialAppends(files, name, pieces, encodeText, decodeText) == files;
      assert ExistingText(files, name, decodeText) + Joined(pieces) == ExistingText(files, name, decodeText);
    }
  }

  lemma Regroup(a: string, b: string, c: string, ab: string, bc: string)
    requires ab == a + b && bc == b + c
    ensures ab + c == a + bc
  {
  }

  /** One append on its own adds its data and keeps the store decodable. */
  lemma AppendAloneAdds(files: map<string, string>, name: string, data: string,
                        encodeText: string -> seq<byte>, decodeText: seq<byte> -> string)
    requires Decodable(files) && CodecsInverse(encodeText, decodeText)
    ensures Decodable(AppendOnto(files, files, name, data, encodeText, decodeText))
    ensures ExistingText(AppendOnto(files, files, name, data, encodeText, decodeText), name, decodeText)
      == ExistingText(files, name, decodeText) + data
  {
    var t := ExistingText(files, name, decodeText) + data;
    assert decodeText(encodeText(t)) == t && (encodeText(t) == [] ==> t == []);
    ReadAfterSave(files, name, encodeText(t));
  }

  /** `path` with a trailing '/'. */
  function PathPrefix(path: string): (r: string)
    ensures EndsWith(r, "/")
  {
    if EndsWith(path, "/") then path else path + "/"
  }

  /** The first segment of a key below the prefix, as `split('/')[0]` gives it. */
  function FirstSegment(relative: string): (r: string)
    ensures '/' !in r
  {
    Split(relative, '/')[0]
  }

  /** `key` lies below `prefix` and its first segment below it is `x`, a non-empty name. */
  predicate EntryOf(key: string, prefix: string, x: string) {
    StartsWith(key, prefix) && x == FirstSegment(key[|prefix|..]) && x != ""
  }

  /** The directory set `listDirectory` builds: each non-empty first segment once, in the order the keys yield them. */
  function Directories(keys: seq<string>, prefix: string): (r: seq<string>)
    ensures NoDuplicates(r)
    ensures forall x :: x in r <==> exists k :: k in keys && EntryOf(k, prefix, x)
    ensures forall x :: x in r ==> x != "" && '/' !in x
  {
    if keys == [] then []
    else
      var init := keys[..|keys| - 1];
      var key := keys[|keys| - 1];
      var dirs := Directories(init, prefix);
      assert forall k :: k in keys <==> k in init || k == key;
      if StartsWith(key, prefix) && FirstSegment(key[|prefix|..]) != "" && FirstSegment(key[|prefix|..]) !in dirs then
        assert EntryOf(key, prefix, FirstSegment(key[|prefix|..]));
        dirs + [FirstSegment(key[|prefix|..])]
      else
        dirs
  }

  class FileManager {
    /** The stored base64 text of each file. */
    var files: map<string, string>

    predicate Valid()
      reads this
    {
      Decodable(files)
    }

    constructor()
      ensures Valid() && files == map[]
    {
      files := map[];
    }

    /** `save`: the file holds the base64 text of the bytes. */
    method Save(data: array<byte>, filename: string)
      modifies this
      ensures files == old(files)[filename := Base64.Encode(data[..])]
      ensures old(Valid()) ==> Valid()
    {
      var text := Base64.Uint8ArrayToBase64(data);
      ReadAfterSave(files, filename, data[..]);
      files := files[filename := text];
    }

    /**
     * `append`: the file's current text (decoded from its stored base64,
     * when there is any) with `data` after it, re-encoded. It fails, and
     * writes nothing, only when the stored text does not decode, which
     * never happens to files this manager wrote.
     */
    method Append(data: string, filename: string, encodeText: string -> seq<byte>, decodeText: seq<byte> -> string)
      returns (r: Status)
      modifies this
      ensures r.Failed? <==> ReadFile(old(files), filename).Rejected?
      ensures r.Failed? ==> r == Failed(AppendFailedPrefix + DecodeErrorMessage) && files == old(files)
      ensures r.Done? ==>
        files == old(files)[filename := Base64.Encode(encodeText(ExistingText(old(files), filename, decodeText) + data))]
      ensures files == AppendOnto(old(files), old(files), filename, data, encodeText, decodeText)
      ensures old(Valid()) ==> Valid() && r.Done?
    {
      var existingContent := "";
      if filename in files && files[filename] != "" {
        var existingBytes := Base64.Base64ToUint8Array(files[filename]);
        if existingBytes.None? {
          return Failed(AppendFailedPrefix + DecodeErrorMessage);
        }
        existingContent := decodeText(existingBytes.value[..]);
      }
      var newContent := existingContent + data;
      var bytes := encodeText(newContent);
      var buffer := new byte[|bytes|](i requires 0 <= i < |bytes| => bytes[i]);
      assert buffer[..] == bytes;
      var newText := Base64.Uint8ArrayToBase64(buffer);
      ReadAfterSave(files, filename, bytes);
      files := files[filename := newText];
      r := Done;
    }

    /** `read`: what `ReadFile` says, in a fresh array. */
    method Read(filename: string) returns (r: Answer<Option<array<byte>>>)
      ensures r.Rejected? <==> ReadFile(files, filename).Rejected?
      ensures r.Rejected? ==> r.message == ReadFile(files, filename).message
      ensures r.Value? ==> (r.value.None? <==> ReadFile(files, filename).value.None?)
      ensures r.Value? && r.value.Some? ==> fresh(r.value.value) && r.value.value[..] == ReadFile(files, filename).value.value
      ensures Valid() ==> r.Value?
    {
      if filename !in files || files[filename] == "" {
        return Value(None);
      }
      var bytes := Base64.Base64ToUint8Array(files[filename]);
      if bytes.None? {
        return Rejected(ReadFailedPrefix + filename + ": " + DecodeErrorMessage);
      }
      r := Value(Some(bytes.value));
    }

    /** `delete`: the file is gone; deleting a missing file is no error. */
    method Delete(filename: string)
      modifies this
      ensures files == old(files) - {filename}
      ensures old(Valid()) ==> Valid()
    {
      files := files - {filename};
    }

    /**
     * `listDirectory`: the folder-missing error when no key lies below the
     * path (with a '/' added unless it ends with one); otherwise each
     * non-empty first segment below it, once, in the order of the keys.
     */
    method ListDirectory(path: string, allKeys: seq<string>) returns (r: Listing)
      requires forall k :: k in allKeys <==> k in files
      ensures r.FolderMissing? <==> forall k :: k in files ==> !StartsWith(k, PathPrefix(path))
      ensures r.FolderMissing? ==> r.message == DirectoryMissingPrefix + path
      ensures r.Entries? ==> r.names == Directories(allKeys, PathPrefix(path))
    {
      var prefix := PathPrefix(path);
      var hasContent := exists k :: k in allKeys && StartsWith(k, prefix);
      if !hasContent {
        return FolderMissing(DirectoryMissingPrefix + path);
      }
      var directories: seq<string> := [];
      for i := 0 to |allKeys|
        invariant directories == Directories(allKeys[..i], prefix)
      {
        var key := allKeys[i];
        assert allKeys[..i + 1][..i] == allKeys[..i];
        if StartsWith(key, prefix) {
          var firstSegment := FirstSegment(key[|prefix|..]);
          if firstSegment != "" && firstSegment !in directories {
            directories := directories + [firstSegment];
          }
        }
      }
      assert allKeys[..|allKeys|] == allKeys;
      r := Entries(directories);
    }
  }
}
