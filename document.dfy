/** The Document entity of data/entities/document.py: a file record whose
    constructor requires a path and a name. */
module DocumentEntity {
  import opened Wrappers
  import opened Calendar

  datatype Document = Document(
    filePath: string,
    fileName: string,
    fileType: Option<string> := None,
    fileSize: Option<int> := None,
    modifiedDate: Option<DateTime> := None,
    indexedContent: Option<string> := None,
    id: Option<int> := None,
    createdAt: Option<DateTime> := None)

  /** The ValueErrors of `__post_init__`. */
  datatype DocumentError = FilePathRequired | FileNameRequired
  {
    function Message(): string {
      match this
      case FilePathRequired => "File path is required"
      case FileNameRequired => "File name is required"
    }
  }

  /** `Document(...)`: the path is checked before the name. */
  function Create(d: Document): (r: Result<Document, DocumentError>)
    ensures r.Success? <==> d.filePath != "" && d.fileName != ""
    ensures r.Success? ==> r.value == d
    ensures d.filePath == "" ==> r == Failure(FilePathRequired)
    ensures d.filePath != "" && d.fileName == "" ==> r == Failure(FileNameRequired)
  {
    if d.filePath == "" then Failure(FilePathRequired)
    else if d.fileName == "" then Failure(FileNameRequired)
    else Success(d)
  }

  /** A document with a path and a name is accepted with every metadata
      field at its default; with neither, the path error is the one
      reported. */
  lemma CreateExamples(path: string, name: string)
    requires path != "" && name != ""
    ensures Create(Document(path, name)).Success?
    ensures var d := Create(Document(path, name)).value;
      d.fileType == None && d.fileSize == None && d.modifiedDate == None
      && d.indexedContent == None && d.id == None && d.createdAt == None
    ensures Create(Document("", "")) == Failure(FilePathRequired)
    ensures Create(Document("", "")).error.Message() == "File path is required"
    ensures Create(Document(path, "")).error.Message() == "File name is required"
  {
  }
}
