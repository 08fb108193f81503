/**
 * The EML logger: while a project is open it subscribes to the EML
 * service and appends every line, stamped with the receive time, to the
 * project's `eml.txt` as `<epoch ms>,<line>` and a newline.
 *
 * The clock is a parameter of the data handler; the text codecs are
 * oracles; the subscription id the service generates is a parameter.
 */
module EmlLogger {
  import opened Text
  import opened Lifecycle
  import opened ProjectTypes
  import Base64
  import DebugFileManager
  import EmlService

  /** `getLogFilePath`: the open project's `eml.txt`, nothing without a project. */
  function GetLogFilePath(project: Option<ProjectMetadata>): (r: Option<string>)
    ensures r.Some? <==> project.Some?
    ensures r.Some? ==> StartsWith(r.value, "projects/") && EndsWith(r.value, "/eml.txt")
  {
    if project.None? then None else Some("projects/" + project.value.id + "/eml.txt")
  }

  /** One record without its newline: the timestamp in decimal, a comma, the data. */
  function LineBody(timestamp: nat, data: string): string {
    NatToString(timestamp) + "," + data
  }

  function LogLine(timestamp: nat, data: string): string {
    LineBody(timestamp, data) + "\n"
  }

  /** The log text of successive records. */
  function LogText(records: seq<(nat, string)>): string {
    if records == [] then [] else LogLine(records[0].0, records[0].1) + LogText(records[1..])
  }

  /** The log line of each record, in order. */
  function LogLines(records: seq<(nat, string)>): (r: seq<string>)
    ensures |r| == |records|
  {
    if records == [] then []
    else LogLines(records[..|records| - 1]) + [LogLine(records[|records| - 1].0, records[|records| - 1].1)]
  }

  lemma LogLinesSnoc(records: seq<(nat, string)>, i: nat)
    requires i < |records|
    ensures LogLines(records[..i + 1]) == LogLines(records[..i]) + [LogLine(records[i].0, records[i].1)]
  {
    assert records[..i + 1][..i] == records[..i];
  }

  lemma {:induction false} LogTextSnoc(records: seq<(nat, string)>, r: (nat, string))
    ensures LogText(records + [r]) == LogText(records) + LogLine(r.0, r.1)
    decreases |records|
  {
    if records == [] {
      assert LogText([r]) == LogLine(r.0, r.1) + LogText([]);
    } else {
      assert (records + [r])[1..] == records[1..] + [r];
      LogTextSnoc(records[1..], r);
    }
  }

  /** The log lines one after another are the log text of the records. */
  lemma {:induction false} LogLinesText(records: seq<(nat, string)>)
    ensures DebugFileManager.Joined(LogLines(records)) == LogText(records)
    decreases |records|
  {
    if records != [] {
      var init := records[..|records| - 1];
      var last := records[|records| - 1];
      LogLinesText(init);
      LogTextSnoc(init, last);
      assert init + [last] == records;
    }
  }

  /**
   * A chunk's records handled one after another reach the log whole and in
   * order, after the text it held.
   */
  lemma ChunkLogged(files: map<string, string>, path: string, records: seq<(nat, string)>,
                    encodeText: string -> seq<byte>, decodeText: seq<byte> -> string)
    requires DebugFileManager.Decodable(files) && DebugFileManager.CodecsInverse(encodeText, decodeText)
    ensures DebugFileManager.ExistingText(DebugFileManager.SequentialAppends(files, path, LogLines(records), encodeText, decodeText), path, decodeText)
      == DebugFileManager.ExistingText(files, path, decodeText) + LogText(records)
  {
    DebugFileManager.SequentialKeepsAll(files, path, LogLines(records), encodeText, decodeText);
    LogLinesText(records);
  }

  /** The first comma of a record ends its timestamp, which reads back as the number; the rest is the data. */
  lemma LineBodyFields(timestamp: nat, data: string)
    ensures var body := LineBody(timestamp, data);
      var i := IndexOf(body, ',');
      i == |NatToString(timestamp)| && ParseInt(body[..i]) == Finite(timestamp as real) && body[i + 1..] == data
  {
    var ts := NatToString(timestamp);
    var body := LineBody(timestamp, data);
    assert body[|ts|] == ',';
    assert body[..|ts|] == ts;
    assert ',' !in ts by {
      assert forall k :: 0 <= k < |ts| ==> IsDigit(ts[k]);
    }
    EmlService.FirstIndex(body, ',', |ts|);
    var i := IndexOf(body, ',');
    ParseNatToString(timestamp);
    assert body[i + 1..] == data;
  }

  lemma SplitCons(x: string, rest: string)
    requires '\n' !in x
    ensures Split(x + "\n" + rest, '\n') == [x] + Split(rest, '\n')
  {
    var s := x + "\n" + rest;
    assert s[..|x|] == x;
    EmlService.FirstIndex(s, '\n', |x|);
    assert s[|x| + 1..] == rest;
  }

  lemma BodyWithoutNewline(timestamp: nat, data: string)
    requires '\n' !in data
    ensures '\n' !in LineBody(timestamp, data)
  {
    var ts := NatToString(timestamp);
    assert forall k :: 0 <= k < |ts| ==> IsDigit(ts[k]);
    assert forall k :: 0 <= k < |LineBody(timestamp, data)| ==>
      LineBody(timestamp, data)[k] == if k < |ts| then ts[k] else if k == |ts| then ',' else data[k - |ts| - 1];
  }

  function Bodies(records: seq<(nat, string)>): (r: seq<string>)
    ensures |r| == |records|
    ensures forall k :: 0 <= k < |r| ==> r[k] == LineBody(records[k].0, records[k].1)
  {
    if records == [] then [] else [LineBody(records[0].0, records[0].1)] + Bodies(records[1..])
  }

  /**
   * A log of lines without newlines splits back into its records, with
   * the empty piece after the final newline.
   */
  lemma {:induction false} LogTextSplits(records: seq<(nat, string)>)
    requires forall k :: 0 <= k < |records| ==> '\n' !in records[k].1
    ensures Split(LogText(records), '\n') == Bodies(records) + [""]
    decreases |records|
  {
    if records != [] {
      var r := records[0];
      var rest := records[1..];
      var body := LineBody(r.0, r.1);
      BodyWithoutNewline(r.0, r.1);
      assert forall k :: 0 <= k < |rest| ==> rest[k] == records[k + 1];
      calc {
        Split(LogText(records), '\n');
        { assert LogText(records) == body + "\n" + LogText(rest); }
        Split(body + "\n" + LogText(rest), '\n');
        { SplitCons(body, LogText(rest)); }
        [body] + Split(LogText(rest), '\n');
        { LogTextSplits(rest); }
        [body] + (Bodies(rest) + [""]);
        ([body] + Bodies(rest)) + [""];
        Bodies(records) + [""];
      }
    }
  }

  class Logger {
    const service: EmlService.Service
    const fileManager: DebugFileManager.FileManager
    /** The id of the logger's subscription, while it has one. */
    var unsubscribe: Option<string>

    constructor(service: EmlService.Service, fileManager: DebugFileManager.FileManager)
      ensures this.service == service && this.fileManager == fileManager && unsubscribe == None
    {
      this.service := service;
      this.fileManager := fileManager;
      unsubscribe := None;
    }

    /**
     * `handleEmlData`: without a project nothing happens; otherwise the
     * record goes at the end of the project's log, and a failed append
     * is swallowed, leaving the files as they were.
     */
    method HandleEmlData(data: string, project: Option<ProjectMetadata>, now: nat,
                         encodeText: string -> seq<byte>, decodeText: seq<byte> -> string)
      modifies fileManager
      ensures project.None? ==> fileManager.files == old(fileManager.files)
      ensures project.Some? ==>
        var path := GetLogFilePath(project).value;
        fileManager.files == if DebugFileManager.ReadFile(old(fileManager.files), path).Rejected? then old(fileManager.files)
          else old(fileManager.files)[path := Base64.Encode(encodeText(
            DebugFileManager.ExistingText(old(fileManager.files), path, decodeText) + LogLine(now, data)))]
      ensures project.Some? ==> fileManager.files == DebugFileManager.AppendOnto(old(fileManager.files), old(fileManager.files),
        GetLogFilePath(project).value, LogLine(now, data), encodeText, decodeText)
      ensures old(fileManager.Valid()) ==> fileManager.Valid()
    {
      var filePath := GetLogFilePath(project);
      if filePath.None? {
        return;
      }
      var logLine := LogLine(now, data);
      var _ := fileManager.Append(logLine, filePath.value, encodeText, decodeText);
    }

    /**
     * The lines of one chunk handled one after another, each append
     * finishing before the next line's begins: the log is the appends in
     * order. Under `DebugFileManager.SequentialKeepsAll` and `LogLinesText`
     * it gains every record, in order. `useEmlLogger` starts the appends
     * together instead; see `DebugFileManager.OverlappedLosesFirst`.
     */
    method HandleEmlDataEach(records: seq<(nat, string)>, project: Option<ProjectMetadata>,
                             encodeText: string -> seq<byte>, decodeText: seq<byte> -> string)
      modifies fileManager
      ensures project.None? ==> fileManager.files == old(fileManager.files)
      ensures project.Some? ==> fileManager.files == DebugFileManager.SequentialAppends(old(fileManager.files),
        GetLogFilePath(project).value, LogLines(records), encodeText, decodeText)
      ensures old(fileManager.Valid()) ==> fileManager.Valid()
    {
      if project.None? {
        // Every handler call returns at once without a project.
        return;
      }
      ghost var path := GetLogFilePath(project).value;
      var i := 0;
      while i < |records|
        invariant 0 <= i <= |records|
        invariant fileManager.files == DebugFileManager.SequentialAppends(old(fileManager.files),
          path, LogLines(records[..i]), encodeText, decodeText)
        invariant old(fileManager.Valid()) ==> fileManager.Valid()
      {
        HandleEmlData(records[i].1, project, records[i].0, encodeText, decodeText);
        LogLinesSnoc(records, i);
        DebugFileManager.SequentialSnoc(old(fileManager.files), path, LogLines(records[..i]),
          LogLine(records[i].0, records[i].1), encodeText, decodeText);
        i := i + 1;
      }
      assert records[..i] == records;
    }

    /** `startLogging`: a no-op while subscribed or without a project; otherwise the logger subscribes. */
    method StartLogging(project: Option<ProjectMetadata>, callbackId: string)
      requires service.Valid()
      modifies this`unsubscribe, service`callbacks
      ensures service.Valid()
      ensures old(unsubscribe).Some? || project.None? ==> unsubscribe == old(unsubscribe) && service.callbacks == old(service.callbacks)
      ensures old(unsubscribe).None? && project.Some? ==>
        unsubscribe == Some(callbackId) && service.callbacks == Put(old(service.callbacks), callbackId, AsyncListener<string>())
    {
      if unsubscribe.Some? {
        return;
      }
      if project.None? {
        return;
      }
      var id := service.SubscribeToData(callbackId, AsyncListener<string>().throws, AsyncListener<string>().hasOnError);
      unsubscribe := Some(id);
    }

    /** `stopLogging`: the subscription, if any, is removed and forgotten. */
    method StopLogging()
      requires service.Valid()
      modifies this`unsubscribe, service`callbacks
      ensures service.Valid() && unsubscribe == None
      ensures service.callbacks == if old(unsubscribe).Some? then Remove(old(service.callbacks), old(unsubscribe).value) else old(service.callbacks)
    {
      if unsubscribe.Some? {
        service.Unsubscribe(unsubscribe.value);
        unsubscribe := None;
      }
    }

    /** The project watcher (also run once at creation): a project starts logging, none stops it. */
    method ProjectChanged(newProject: Option<ProjectMetadata>, callbackId: string)
      requires service.Valid()
      modifies this`unsubscribe, service`callbacks
      ensures service.Valid()
      ensures newProject.None? ==> unsubscribe == None
      ensures newProject.Some? ==> unsubscribe == if old(unsubscribe).Some? then old(unsubscribe) else Some(callbackId)
    {
      if newProject.Some? {
        StartLogging(newProject, callbackId);
      } else {
        StopLogging();
      }
    }
  }
}
