/**
 * The drag-and-drop uploader component: the list of accepted files it keeps (bounded by
 * `maxFiles`), the list of rejected files, the id it gives every listed file, and the
 * parent callback that is told the list after every change.
 */
module FileUpload {
  import opened Js
  import UploadRoute

  /** What the drop zone hands over for one file. */
  datatype DroppedFile = DroppedFile(name: string, size: nat, lastModified: nat, mimeType: string)

  /** One entry of the listed files: the file, its id and an empty error list. */
  datatype ListedFile = ListedFile(file: DroppedFile, id: string, errors: seq<string>)

  /** A file the drop zone refused, with the drop zone's reasons. */
  datatype FileRejection = FileRejection(file: DroppedFile, errors: seq<string>)

  const DefaultMaxSizeMb: nat := 10

  /** The id of a listed file: name, size and last-modified time joined by `-`. */
  function FileId(f: DroppedFile): string {
    f.name + "-" + NatToString(f.size) + "-" + NatToString(f.lastModified)
  }

  /** A number's decimal digits never contain the `-` separator. */
  lemma NoDashInNumber(n: nat)
    ensures '-' !in NatToString(n)
  {
    var d := NatToString(n);
    forall i | 0 <= i < |d| ensures d[i] != '-' {
      assert IsDigit(d[i]);
    }
  }

  /** Cutting at the last separator is unambiguous when the tail holds no separator. */
  lemma SplitAtLast(a1: string, b1: string, a2: string, b2: string, c: char)
    requires c !in b1 && c !in b2
    requires a1 + [c] + b1 == a2 + [c] + b2
    ensures a1 == a2 && b1 == b2
  {
    AfterLastOf(a1, c, b1);
    AfterLastOf(a2, c, b2);
    var s := a1 + [c] + b1;
    assert a1 == s[..|a1|] && a2 == s[..|a2|];
  }

  /**
   * The id determines the name, the size and the last-modified time: the two numbers hold no
   * `-`, so the string can be cut from the right.
   */
  lemma FileIdInjective(f: DroppedFile, g: DroppedFile)
    requires FileId(f) == FileId(g)
    ensures f.name == g.name && f.size == g.size && f.lastModified == g.lastModified
  {
    NoDashInNumber(f.size);
    NoDashInNumber(g.size);
    NoDashInNumber(f.lastModified);
    NoDashInNumber(g.lastModified);
    assert FileId(f) == (f.name + "-" + NatToString(f.size)) + ['-'] + NatToString(f.lastModified);
    assert FileId(g) == (g.name + "-" + NatToString(g.size)) + ['-'] + NatToString(g.lastModified);
    SplitAtLast(f.name + "-" + NatToString(f.size), NatToString(f.lastModified),
                g.name + "-" + NatToString(g.size), NatToString(g.lastModified), '-');
    assert f.name + "-" + NatToString(f.size) == f.name + ['-'] + NatToString(f.size);
    assert g.name + "-" + NatToString(g.size) == g.name + ['-'] + NatToString(g.size);
    SplitAtLast(f.name, NatToString(f.size), g.name, NatToString(g.size), '-');
    NatToStringInjective(f.size, g.size);
    NatToStringInjective(f.lastModified, g.lastModified);
  }

  /** The size limit handed to the drop zone: megabytes times 1024 times 1024. */
  function MaxSizeBytes(maxSizeMb: nat): (bytes: nat)
    ensures bytes % (1024 * 1024) == 0 && bytes / (1024 * 1024) == maxSizeMb
  {
    maxSizeMb * 1024 * 1024
  }

  /** With the default of 10 the drop zone's limit is the upload route's 10 MiB. */
  lemma DefaultLimitMatchesServer()
    ensures MaxSizeBytes(DefaultMaxSizeMb) == UploadRoute.MaxUploadBytes
  {
  }

  /** The entries made for newly accepted files, in drop order. */
  function NewEntries(accepted: seq<DroppedFile>): (r: seq<ListedFile>)
    ensures |r| == |accepted|
    ensures forall i :: 0 <= i < |r| ==> r[i] == ListedFile(accepted[i], FileId(accepted[i]), [])
  {
    if accepted == [] then [] else [ListedFile(accepted[0], FileId(accepted[0]), [])] + NewEntries(accepted[1..])
  }

  function Min(a: nat, b: nat): nat {
    if a <= b then a else b
  }

  /**
   * The list after a drop: the previous entries, then the new ones, cut to the first
   * `maxFiles`. A list already within the bound is kept whole, in front.
   */
  function ListAfterDrop(prev: seq<ListedFile>, accepted: seq<DroppedFile>, maxFiles: nat): (r: seq<ListedFile>)
    ensures |r| == Min(|prev| + |accepted|, maxFiles)
    ensures |prev| <= maxFiles ==> r[..|prev|] == prev
    ensures forall i :: |prev| <= i < |r| ==> r[i] == ListedFile(accepted[i - |prev|], FileId(accepted[i - |prev|]), [])
  {
    var all := prev + NewEntries(accepted);
    all[..Min(|all|, maxFiles)]
  }

  /** Every entry carries the id of its own file and no errors. */
  ghost predicate WellFormed(entries: seq<ListedFile>) {
    forall e :: e in entries ==> e.id == FileId(e.file) && e.errors == []
  }

  lemma DropKeepsWellFormed(prev: seq<ListedFile>, accepted: seq<DroppedFile>, maxFiles: nat)
    requires WellFormed(prev)
    ensures WellFormed(ListAfterDrop(prev, accepted, maxFiles))
  {
    var r := ListAfterDrop(prev, accepted, maxFiles);
    forall e | e in r ensures e.id == FileId(e.file) && e.errors == [] {
      var i :| 0 <= i < |r| && r[i] == e;
      if i < |prev| {
        assert r[i] == (prev + NewEntries(accepted))[i] == prev[i];
      }
    }
  }

  /** `removeFile`: every entry with that id goes; the rest keep their order. */
  function ListAfterRemove(prev: seq<ListedFile>, fileId: string): (r: seq<ListedFile>)
    ensures forall e :: e in r <==> e in prev && e.id != fileId
    ensures |r| <= |prev|
  {
    Filter(prev, (e: ListedFile) => e.id != fileId)
  }

  /**
   * The removal works entry by entry and keeps the order: the list without an entry is the empty
   * list, one entry stays exactly when its id differs, and a concatenation loses its entries part
   * by part.
   */
  lemma RemoveKeepsOrder(prev: seq<ListedFile>, rest: seq<ListedFile>, e: ListedFile, fileId: string)
    ensures ListAfterRemove([], fileId) == []
    ensures ListAfterRemove([e], fileId) == if e.id != fileId then [e] else []
    ensures ListAfterRemove(prev + rest, fileId) == ListAfterRemove(prev, fileId) + ListAfterRemove(rest, fileId)
  {
    FilterAppend(prev, rest, (e: ListedFile) => e.id != fileId);
  }

  /** An entry with another id stays as many times as it was listed; one with that id is gone. */
  lemma RemoveKeepsCount(prev: seq<ListedFile>, fileId: string, e: ListedFile)
    ensures multiset(ListAfterRemove(prev, fileId))[e] == if e.id != fileId then multiset(prev)[e] else 0
  {
    FilterCount(prev, (e: ListedFile) => e.id != fileId, e);
  }

  /**
   * Removing a listed file by its id takes out exactly the entries for the same name, size
   * and last-modified time.
   */
  lemma RemoveByIdRemovesSameFile(prev: seq<ListedFile>, f: DroppedFile, e: ListedFile)
    requires WellFormed(prev) && e in prev
    ensures e in ListAfterRemove(prev, FileId(f)) <==>
      !(e.file.name == f.name && e.file.size == f.size && e.file.lastModified == f.lastModified)
  {
    if e.id == FileId(f) {
      FileIdInjective(e.file, f);
    }
  }

  /** The uploader's state cells and the parent's callback. */
  class Uploader {
    const maxFiles: nat
    const maxSizeMb: nat
    /** Whether the parent passed `onFilesChange`. */
    const notifiesParent: bool
    var uploadedFiles: seq<ListedFile>
    var rejectedFiles: seq<FileRejection>
    /** Every list `onFilesChange` received, oldest first. */
    var reported: seq<seq<ListedFile>>

    ghost predicate Valid()
      reads this
    {
      |uploadedFiles| <= maxFiles && WellFormed(uploadedFiles)
    }

    /**
     * Mounting: both lists empty, and the effect reports the empty list once. The props'
     * defaults are five files and 10 MB; the arguments carry whatever props were given.
     */
    constructor (maxFiles: nat, maxSizeMb: nat, notifiesParent: bool)
      ensures Valid()
      ensures this.maxFiles == maxFiles && this.maxSizeMb == maxSizeMb && this.notifiesParent == notifiesParent
      ensures uploadedFiles == [] && rejectedFiles == []
      ensures reported == (if notifiesParent then [[]] else [])
    {
      this.maxFiles := maxFiles;
      this.maxSizeMb := maxSizeMb;
      this.notifiesParent := notifiesParent;
      uploadedFiles := [];
      rejectedFiles := [];
      reported := if notifiesParent then [[]] else [];
    }

    /** The effect that follows a change of `uploadedFiles`. */
    method Report()
      modifies this
      ensures uploadedFiles == old(uploadedFiles) && rejectedFiles == old(rejectedFiles)
      ensures reported == old(reported) + (if notifiesParent then [uploadedFiles] else [])
    {
      if notifiesParent {
        reported := reported + [uploadedFiles];
      }
    }

    /** `onDrop`: list the accepted files up to the bound, keep every rejection. */
    method OnDrop(accepted: seq<DroppedFile>, fileRejections: seq<FileRejection>)
      requires Valid()
      modifies this
      ensures Valid()
      ensures uploadedFiles == ListAfterDrop(old(uploadedFiles), accepted, maxFiles)
      ensures uploadedFiles[..|old(uploadedFiles)|] == old(uploadedFiles)
      ensures rejectedFiles == old(rejectedFiles) + fileRejections
      ensures reported == old(reported) + (if notifiesParent then [uploadedFiles] else [])
    {
      DropKeepsWellFormed(uploadedFiles, accepted, maxFiles);
      uploadedFiles := ListAfterDrop(uploadedFiles, accepted, maxFiles);
      if |fileRejections| > 0 {
        rejectedFiles := rejectedFiles + fileRejections;
      }
      Report();
    }

    /** `removeFile`: drop the entries with that id; the rejections stay. */
    method RemoveFile(fileId: string)
      requires Valid()
      modifies this
      ensures Valid()
      ensures uploadedFiles == ListAfterRemove(old(uploadedFiles), fileId)
      ensures rejectedFiles == old(rejectedFiles)
      ensures reported == old(reported) + (if notifiesParent then [uploadedFiles] else [])
    {
      uploadedFiles := ListAfterRemove(uploadedFiles, fileId);
      Report();
    }
  }

  /** Once the list is full, a drop changes nothing in it: the new files are the ones cut off. */
  lemma FullListIgnoresDrop(prev: seq<ListedFile>, accepted: seq<DroppedFile>, maxFiles: nat)
    requires |prev| == maxFiles
    ensures ListAfterDrop(prev, accepted, maxFiles) == prev
  {
  }
}
