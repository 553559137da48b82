/**
 * The upload route: checks the required form fields, creates a directory for the company, then
 * walks the submitted files in order, rejecting the first one with a disallowed MIME type or a
 * size over 10 MiB and saving every file before it under a timestamped name.
 */
module UploadRoute {
  import opened Outcomes
  import opened Js

  /** A `File` entry of the multipart form. */
  datatype UploadedFile = UploadedFile(name: string, size: nat, mimeType: string, content: seq<Byte>)

  /** One value of the repeated `files` field: a file, or a plain string, which is skipped. */
  datatype FormEntry = TextEntry(value: string) | FileEntry(file: UploadedFile)

  /** The form; a missing text field is the empty string, which JavaScript treats the same in every check here. */
  datatype UploadForm = UploadForm(
    companyName: string, complianceType: string, effectiveDate: string, description: Option<string>,
    files: seq<FormEntry>)

  /** An entry of `uploadedFiles`. */
  datatype SavedFile = SavedFile(originalName: string, savedName: string, size: nat, mimeType: string, path: string)

  /** An entry of the response's `uploadedFiles`. */
  datatype FileSummary = FileSummary(name: string, size: nat, mimeType: string)

  datatype UploadResponse =
    | UploadRejected(status: nat, error: string)
    | UploadAccepted(companyName: string, complianceType: string, effectiveDate: string,
                     fileCount: nat, uploadedFiles: seq<FileSummary>)

  const MissingFields := "Missing required fields"
  const NoFiles := "No files uploaded"
  const AllowedMimeTypes := ["application/pdf", "application/vnd.openxmlformats-officedocument.wordprocessingml.document", "text/plain"]
  const MaxUploadBytes := 10 * 1024 * 1024

  /** The directory, relative to the working directory: runs of white space in the company name become one `_`. */
  function UploadDir(companyName: string): (dir: string)
    ensures NoSpace(companyName) ==> dir == "uploads/" + companyName
  {
    "uploads/" + ReplaceSpaceRuns(companyName, "_")
  }

  /** The company part of the directory never holds white space. */
  lemma UploadDirNoSpace(companyName: string)
    ensures NoSpace(UploadDir(companyName)[8..])
  {
    var underscore := "_";
    assert NoSpace(underscore);
    assert UploadDir(companyName)[8..] == ReplaceSpaceRuns(companyName, "_");
  }

  /**
   * Each maximal run of white space in the company name becomes exactly one `_`: a name
   * `a w b`, with `a` free of white space, `w` a run and `b` not starting with white space, is
   * filed under `a`, one `_`, then the directory part for `b`.
   */
  lemma UploadDirRun(a: string, w: string, b: string)
    requires NoSpace(a) && w != [] && AllSpace(w) && (b == [] || !IsSpace(b[0]))
    ensures UploadDir(a + w + b) == "uploads/" + a + "_" + ReplaceSpaceRuns(b, "_")
  {
    RunBecomesOne(a, w, b, "_");
  }

  /** The index of the last `.` in `s`, if any. */
  function LastDot(s: string): (r: Option<nat>)
    ensures r.None? <==> '.' !in s
    ensures r.Some? ==> r.value < |s| && s[r.value] == '.' && '.' !in s[r.value + 1..]
  {
    if s == [] then None
    else if s[|s| - 1] == '.' then Some(|s| - 1)
    else
      var r := LastDot(s[..|s| - 1]);
      assert s == s[..|s| - 1] + [s[|s| - 1]];
      if r.Some? then
        assert s[r.value + 1..] == s[..|s| - 1][r.value + 1..] + [s[|s| - 1]];
        r
      else r
  }

  /**
   * `path.extname` of a name with no `/`: from the last dot to the end, or empty when there is no
   * dot, when the last dot is the first character, or for the name `..`.
   */
  function ExtName(name: string): (ext: string)
    ensures |ext| <= |name| && ext == name[|name| - |ext|..]
    ensures ext != [] ==> ext[0] == '.' && '.' !in ext[1..]
  {
    var dot := LastDot(name);
    if dot.None? || dot.value == 0 || name == ".." then ""
    else
      assert name[dot.value..][1..] == name[dot.value + 1..];
      name[dot.value..]
  }

  /** `${baseName}_${timestamp}${extension}`, where the base name is the name without its extension. */
  function SavedName(name: string, timestamp: nat): string {
    var ext := ExtName(name);
    name[..|name| - |ext|] + "_" + NatToString(timestamp) + ext
  }

  /** A name with a stem and a dot-free extension is saved as stem, timestamp, extension. */
  lemma SavedNameOfStemAndExtension(stem: string, ext: string, timestamp: nat)
    requires stem != [] && stem != "." && '.' !in ext
    ensures SavedName(stem + "." + ext, timestamp) == stem + "_" + NatToString(timestamp) + "." + ext
  {
    var name := stem + "." + ext;
    var dot := LastDot(name);
    assert name[|stem|] == '.';
    assert dot.value == |stem|;
    assert name != ".." by {
      if |name| == 2 {
        assert stem == [stem[0]] && name[0] == stem[0];
      }
    }
    var dotExt := "." + ext;
    assert name[dot.value..] == dotExt;
    assert ExtName(name) == dotExt;
    assert name[..|name| - |dotExt|] == stem;
    var digits := NatToString(timestamp);
    assert SavedName(name, timestamp) == stem + "_" + digits + dotExt;
    assert stem + "_" + digits + dotExt == stem + "_" + digits + "." + ext;
  }

  /** A name without a dot keeps no extension: the timestamp goes at the end. */
  lemma SavedNameWithoutDot(name: string, timestamp: nat)
    requires '.' !in name
    ensures SavedName(name, timestamp) == name + "_" + NatToString(timestamp)
  {
    assert name[..|name|] == name;
  }

  /** The checks of one file, type first. */
  predicate Accepted(f: UploadedFile) {
    f.mimeType in AllowedMimeTypes && f.size <= MaxUploadBytes
  }

  /** The 400 message for a rejected file: the type check runs before the size check. */
  function RejectionMessage(f: UploadedFile): (m: string)
    ensures f.mimeType !in AllowedMimeTypes ==> m == "Invalid file type: " + f.name
    ensures f.mimeType in AllowedMimeTypes ==> m == "File too large: " + f.name
  {
    if f.mimeType !in AllowedMimeTypes then "Invalid file type: " + f.name else "File too large: " + f.name
  }

  /** The first file the loop rejects, if any; string entries are skipped. */
  function FirstRejected(entries: seq<FormEntry>): (r: Option<UploadedFile>)
    ensures r.Some? ==> FileEntry(r.value) in entries && !Accepted(r.value)
  {
    if entries == [] then None
    else if entries[0].FileEntry? && !Accepted(entries[0].file) then Some(entries[0].file)
    else
      var r := FirstRejected(entries[1..]);
      assert r.Some? ==> FileEntry(r.value) in entries[1..];
      r
  }

  /** The files the loop saves, in order: every file entry before the first rejected one. */
  function SavedUploads(entries: seq<FormEntry>): (saved: seq<UploadedFile>)
    ensures forall f :: f in saved ==> FileEntry(f) in entries && Accepted(f)
  {
    if entries == [] then []
    else match entries[0]
      case TextEntry(_) => SavedUploads(entries[1..])
      case FileEntry(f) =>
        if Accepted(f) then [f] + SavedUploads(entries[1..]) else []
  }

  function RecordOf(f: UploadedFile, dir: string, timestamp: nat): SavedFile {
    var savedName := SavedName(f.name, timestamp);
    SavedFile(f.name, savedName, f.size, f.mimeType, dir + "/" + savedName)
  }

  /** The records of the saved files; the `k`-th saved file is named with the `k`-th clock reading. */
  function Records(saved: seq<UploadedFile>, dir: string, clock: nat -> nat): (rs: seq<SavedFile>)
    ensures |rs| == |saved|
  {
    if saved == [] then [] else Records(saved[..|saved| - 1], dir, clock) + [RecordOf(saved[|saved| - 1], dir, clock(|saved| - 1))]
  }

  /** The store after writing the saved files one after the other. */
  function WriteAll(store: map<string, seq<Byte>>, saved: seq<UploadedFile>, dir: string, clock: nat -> nat): map<string, seq<Byte>> {
    if saved == [] then store
    else
      var last := saved[|saved| - 1];
      WriteAll(store, saved[..|saved| - 1], dir, clock)[RecordOf(last, dir, clock(|saved| - 1)).path := last.content]
  }

  function Summaries(records: seq<SavedFile>): (s: seq<FileSummary>)
    ensures |s| == |records|
    ensures forall k :: 0 <= k < |records| ==> s[k] == FileSummary(records[k].originalName, records[k].size, records[k].mimeType)
  {
    if records == [] then [] else [FileSummary(records[0].originalName, records[0].size, records[0].mimeType)] + Summaries(records[1..])
  }

  /** The file system: the directories made and the files written. */
  class Disk {
    var dirs: set<string>
    var files: map<string, seq<Byte>>

    constructor (dirs0: set<string>, files0: map<string, seq<Byte>>)
      ensures dirs == dirs0 && files == files0
    {
      dirs := dirs0;
      files := files0;
    }

    /** `mkdir(dir, { recursive: true })`. */
    method Mkdir(dir: string)
      modifies this
      ensures dirs == old(dirs) + {dir} && files == old(files)
    {
      dirs := dirs + {dir};
    }

    /** `writeFile(path, content)`: creates or replaces the file. */
    method WriteFile(path: string, content: seq<Byte>)
      modifies this
      ensures files == old(files)[path := content] && dirs == old(dirs)
    {
      files := files[path := content];
    }
  }

  /**
   * `POST /api/upload`. `clock(k)` is what `Date.now()` returns the `k`-th time it is called,
   * once per saved file.
   */
  method Post(form: UploadForm, clock: nat -> nat, disk: Disk) returns (response: UploadResponse)
    modifies disk
    ensures form.companyName == "" || form.complianceType == "" || form.effectiveDate == "" ==>
      response == UploadRejected(400, MissingFields) && unchanged(disk)
    ensures form.companyName != "" && form.complianceType != "" && form.effectiveDate != "" && form.files == [] ==>
      response == UploadRejected(400, NoFiles) && unchanged(disk)
    ensures form.companyName != "" && form.complianceType != "" && form.effectiveDate != "" && form.files != [] ==>
      var dir := UploadDir(form.companyName);
      var saved := SavedUploads(form.files);
      && disk.dirs == old(disk.dirs) + {dir}
      && disk.files == WriteAll(old(disk.files), saved, dir, clock)
      && response == match FirstRejected(form.files)
        case Some(f) => UploadRejected(400, RejectionMessage(f))
        case None => UploadAccepted(form.companyName, form.complianceType, form.effectiveDate,
                                    |saved|, Summaries(Records(saved, dir, clock)))
  {
    if form.companyName == "" || form.complianceType == "" || form.effectiveDate == "" {
      return UploadRejected(400, MissingFields);
    }
    if |form.files| == 0 {
      return UploadRejected(400, NoFiles);
    }
    var uploadDir := UploadDir(form.companyName);
    disk.Mkdir(uploadDir);
    var error, uploadedFiles := SaveFiles(form.files, uploadDir, clock, disk);
    if error.Some? {
      return UploadRejected(400, error.value);
    }
    response := UploadAccepted(form.companyName, form.complianceType, form.effectiveDate,
                               |uploadedFiles|, Summaries(uploadedFiles));
  }

  /**
   * Writing one accepted file: it is named with the next clock reading, written under the
   * directory and recorded after the files saved before it.
   */
  method SaveFile(file: UploadedFile, uploadDir: string, clock: nat -> nat, disk: Disk,
                  uploadedFiles: seq<SavedFile>, ghost store: map<string, seq<Byte>>, ghost saved: seq<UploadedFile>)
    returns (records: seq<SavedFile>)
    requires uploadedFiles == Records(saved, uploadDir, clock)
    requires disk.files == WriteAll(store, saved, uploadDir, clock)
    modifies disk
    ensures records == Records(saved + [file], uploadDir, clock)
    ensures disk.files == WriteAll(store, saved + [file], uploadDir, clock)
    ensures disk.dirs == old(disk.dirs)
  {
    var timestamp := clock(|uploadedFiles|);
    var uniqueFilename := SavedName(file.name, timestamp);
    var filePath := uploadDir + "/" + uniqueFilename;
    disk.WriteFile(filePath, file.content);
    records := uploadedFiles + [SavedFile(file.name, uniqueFilename, file.size, file.mimeType, filePath)];
    SaveOneMore(store, saved, file, uploadDir, clock);
  }

  /**
   * The loop over the files: saves each accepted file until the first rejected one, whose
   * message it returns.
   */
  method SaveFiles(files: seq<FormEntry>, uploadDir: string, clock: nat -> nat, disk: Disk)
    returns (error: Option<string>, uploadedFiles: seq<SavedFile>)
    modifies disk
    ensures error == match FirstRejected(files)
      case Some(f) => Some(RejectionMessage(f))
      case None => None
    ensures uploadedFiles == Records(SavedUploads(files), uploadDir, clock)
    ensures disk.files == WriteAll(old(disk.files), SavedUploads(files), uploadDir, clock)
    ensures disk.dirs == old(disk.dirs)
  {
    uploadedFiles := [];
    ghost var saved: seq<UploadedFile> := [];
    var i := 0;
    while i < |files|
      invariant Progress(files, i, saved)
      invariant uploadedFiles == Records(saved, uploadDir, clock)
      invariant disk.files == WriteAll(old(disk.files), saved, uploadDir, clock)
      invariant disk.dirs == old(disk.dirs)
    {
      Advances(files, i, saved);
      if files[i].FileEntry? {
        var file := files[i].file;
        if file.mimeType !in AllowedMimeTypes {
          StopsHere(files, i, saved);
          return Some("Invalid file type: " + file.name), uploadedFiles;
        }
        if file.size > MaxUploadBytes {
          StopsHere(files, i, saved);
          return Some("File too large: " + file.name), uploadedFiles;
        }
        uploadedFiles := SaveFile(file, uploadDir, clock, disk, uploadedFiles, old(disk.files), saved);
        saved := saved + [file];
      }
      assert Progress(files, i + 1, saved);
      i := i + 1;
    }
    Finished(files, i, saved);
    error := None;
  }

  /** The `k`-th record is the `k`-th saved file, named with the `k`-th clock reading. */
  lemma {:induction false} RecordsInOrder(saved: seq<UploadedFile>, dir: string, clock: nat -> nat, k: nat)
    requires k < |saved|
    ensures Records(saved, dir, clock)[k] == RecordOf(saved[k], dir, clock(k))
  {
    if k < |saved| - 1 {
      RecordsInOrder(saved[..|saved| - 1], dir, clock, k);
    }
  }

  /** Saving one more file appends its record and writes its content under the record's path. */
  lemma SaveOneMore(store: map<string, seq<Byte>>, saved: seq<UploadedFile>, f: UploadedFile, dir: string, clock: nat -> nat)
    ensures Records(saved + [f], dir, clock) == Records(saved, dir, clock) + [RecordOf(f, dir, clock(|saved|))]
    ensures WriteAll(store, saved + [f], dir, clock) == WriteAll(store, saved, dir, clock)[RecordOf(f, dir, clock(|saved|)).path := f.content]
  {
    assert (saved + [f])[..|saved|] == saved;
  }

  /** How the first entry decides what is saved and what is rejected. */
  lemma Step(entries: seq<FormEntry>)
    requires entries != []
    ensures entries[0].TextEntry? ==>
      SavedUploads(entries) == SavedUploads(entries[1..]) && FirstRejected(entries) == FirstRejected(entries[1..])
    ensures entries[0].FileEntry? && !Accepted(entries[0].file) ==>
      SavedUploads(entries) == [] && FirstRejected(entries) == Some(entries[0].file)
    ensures entries[0].FileEntry? && Accepted(entries[0].file) ==>
      SavedUploads(entries) == [entries[0].file] + SavedUploads(entries[1..]) && FirstRejected(entries) == FirstRejected(entries[1..])
  {
  }

  /** The loop has looked at `files[..i]` and saved `saved`: what it will save and reject is decided by the rest. */
  ghost predicate Progress(files: seq<FormEntry>, i: nat, saved: seq<UploadedFile>) {
    && i <= |files|
    && SavedUploads(files) == saved + SavedUploads(files[i..])
    && FirstRejected(files) == FirstRejected(files[i..])
  }

  /** The loop returns at a rejected file: what it saved so far is all it ever saves. */
  lemma StopsHere(files: seq<FormEntry>, i: nat, saved: seq<UploadedFile>)
    requires i < |files| && files[i].FileEntry? && !Accepted(files[i].file)
    requires Progress(files, i, saved)
    ensures SavedUploads(files) == saved && FirstRejected(files) == Some(files[i].file)
  {
    Step(files[i..]);
    assert saved + [] == saved;
  }

  /** The loop moves past a string entry or an accepted file. */
  lemma Advances(files: seq<FormEntry>, i: nat, saved: seq<UploadedFile>)
    requires i < |files| && Progress(files, i, saved)
    ensures files[i].TextEntry? ==> Progress(files, i + 1, saved)
    ensures files[i].FileEntry? && Accepted(files[i].file) ==> Progress(files, i + 1, saved + [files[i].file])
  {
    assert files[i..][1..] == files[i + 1..];
    Step(files[i..]);
    if files[i].FileEntry? {
      assert saved + ([files[i].file] + SavedUploads(files[i + 1..])) == (saved + [files[i].file]) + SavedUploads(files[i + 1..]);
    }
  }

  /** The loop ran to the end: nothing was rejected and everything it saved is all there is. */
  lemma Finished(files: seq<FormEntry>, i: nat, saved: seq<UploadedFile>)
    requires i >= |files| && Progress(files, i, saved)
    ensures SavedUploads(files) == saved && FirstRejected(files).None?
  {
    assert files[i..] == [];
    assert saved + [] == saved;
  }

  /**
   * The upload is not all-or-nothing: when the first rejected file comes after accepted ones, the
   * request fails with that file's message, yet every file before it has been saved.
   */
  lemma {:induction false} RejectionKeepsEarlierFiles(entries: seq<FormEntry>, i: nat)
    requires i < |entries| && entries[i].FileEntry? && !Accepted(entries[i].file)
    requires forall j :: 0 <= j < i && entries[j].FileEntry? ==> Accepted(entries[j].file)
    ensures FirstRejected(entries) == Some(entries[i].file)
    ensures SavedUploads(entries) == FileEntries(entries[..i])
  {
    if i > 0 {
      assert entries[1..][..i - 1] == entries[..i][1..];
      RejectionKeepsEarlierFiles(entries[1..], i - 1);
    }
  }

  /** The files among the entries, in order. */
  function FileEntries(entries: seq<FormEntry>): (fs: seq<UploadedFile>)
    ensures forall f :: f in fs <==> FileEntry(f) in entries
  {
    if entries == [] then []
    else
      var rest := FileEntries(entries[1..]);
      assert forall e :: e in entries <==> e == entries[0] || e in entries[1..];
      if entries[0].FileEntry? then [entries[0].file] + rest else rest
  }

  /** When nothing is rejected, every file entry is saved, in input order, and none is dropped. */
  lemma {:induction false} AllAcceptedAllSaved(entries: seq<FormEntry>)
    requires FirstRejected(entries).None?
    ensures SavedUploads(entries) == FileEntries(entries)
  {
    if entries != [] {
      AllAcceptedAllSaved(entries[1..]);
    }
  }

  /** The size limit is inclusive: a file of exactly 10 MiB with an allowed type is saved. */
  lemma ExactLimitAccepted(f: UploadedFile)
    requires f.mimeType in AllowedMimeTypes && f.size == 10485760
    ensures Accepted(f)
  {
  }
}
