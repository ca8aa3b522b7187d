/**
  Saving an uploaded file under `/tmp` (`bpslibrary/utils/fileuploader.py`).

  The request's files are a map from form field name to the name the client
  gave the uploaded file. Werkzeug's `secure_filename` is a parameter, and
  writing the file (`file.save`) is left out: the model returns the path the
  file would be written to.
 */
module FileUploader {
  import opened Wrappers
  import opened Text
  import opened Enums

  /** The three errors the upload checks raise, in the order they are checked. */
  datatype UploadError =
    | FileNotFound     // `FileNotFoundError`: no such field in the request
    | NoFileSelected   // `ValueError`: the field holds a file with an empty name
    | NotPermitted     // `ValueError`: the extension is not allowed

  /** The text each error carries. */
  function Message(e: UploadError): string
  {
    match e
    case FileNotFound => "Could not find the file!"
    case NoFileSelected => "No files have been selected."
    case NotPermitted => "This file type is not permitted."
  }

  /** The extensions allowed for each kind of file. */
  function AllowedExtensions(t: FileType): (r: seq<string>)
    ensures |r| >= 1
    ensures forall e :: e in r ==> Lower(e) == e && '.' !in e
  {
    match t
    case Image => ["jpg", "jpeg", "png", "bmp"]
    case Csv => ["csv"]
  }

  /** The extension check: the name holds a dot and the text after the last
      dot, lower-cased, is one of `allowed`. */
  predicate Permitted(fileName: string, allowed: seq<string>)
  {
    '.' in fileName && Lower(Extension(fileName)) in allowed
  }

  /** `os.path.join(dir, name)`: an absolute `name` replaces `dir`; otherwise
      one '/' separates them unless `dir` is empty or already ends in '/'. */
  function PathJoin(dir: string, name: string): (r: string)
    ensures name != [] && name[0] == '/' ==> r == name
    ensures (name == [] || name[0] != '/') ==> |r| >= |name| && r[|r| - |name|..] == name
  {
    if name != [] && name[0] == '/' then name
    else if dir == [] || dir[|dir| - 1] == '/' then dir + name
    else dir + "/" + name
  }

  /** `upload_to_tmp(post_request, file_name, file_type)`: the path the file
      is saved to, or the first check it fails. */
  function UploadToTmp(files: map<string, string>, fieldName: string, fileType: FileType,
                       secure: string -> string): (r: Result<string, UploadError>)
    ensures r == Failure(FileNotFound) <==> fieldName !in files
    ensures r == Failure(NoFileSelected) <==> fieldName in files && files[fieldName] == ""
    ensures r == Failure(NotPermitted) <==>
      && fieldName in files && files[fieldName] != ""
      && !Permitted(files[fieldName], AllowedExtensions(fileType))
    ensures r.Success? <==>
      && fieldName in files && files[fieldName] != ""
      && Permitted(files[fieldName], AllowedExtensions(fileType))
    ensures r.Success? && (secure(files[fieldName]) == [] || secure(files[fieldName])[0] != '/') ==>
      r.value == "/tmp/" + secure(files[fieldName])
  {
    var allowed := AllowedExtensions(fileType);
    if fieldName !in files then Failure(FileNotFound)
    else
      var name := files[fieldName];
      if name == "" then Failure(NoFileSelected)
      else if !Permitted(name, allowed) then Failure(NotPermitted)
      else Success(PathJoin("/tmp", secure(name)))
  }

  /** Lower-casing never makes or removes a dot. */
  lemma LowerKeepsDots(s: string)
    ensures '.' in Lower(s) <==> '.' in s
  {
    if '.' in s {
      var i :| 0 <= i < |s| && s[i] == '.';
      assert Lower(s)[i] == '.';
    }
    if '.' in Lower(s) {
      var i :| 0 <= i < |s| && Lower(s)[i] == '.';
      assert s[i] == '.';
    }
  }

  lemma LowerAppend(a: string, b: string)
    ensures Lower(a + b) == Lower(a) + Lower(b)
  {
  }

  lemma LowerIdempotent(s: string)
    ensures Lower(Lower(s)) == Lower(s)
  {
  }

  /** A name ending in "." and a dot-free `e` passes the check exactly when
      `e`, lower-cased, is allowed: only the last dot counts. */
  lemma {:induction false} PermittedByLastPart(p: string, e: string, allowed: seq<string>)
    requires '.' !in e
    ensures Permitted(p + "." + e, allowed) <==> Lower(e) in allowed
  {
    ExtensionUnique(p + "." + e, p, e);
  }

  /** The check ignores case: a name and its lower-cased form pass or fail together. */
  lemma {:induction false} PermittedIgnoresCase(fileName: string, allowed: seq<string>)
    ensures Permitted(fileName, allowed) <==> Permitted(Lower(fileName), allowed)
  {
    LowerKeepsDots(fileName);
    if '.' in fileName {
      var e := Extension(fileName);
      var p :| fileName == p + "." + e;
      LowerAppend(p + ".", e);
      LowerAppend(p, ".");
      assert Lower(".") == ".";
      LowerKeepsDots(e);
      PermittedByLastPart(p, e, allowed);
      PermittedByLastPart(Lower(p), Lower(e), allowed);
      LowerIdempotent(e);
    }
  }

  /** No name is accepted both as an image and as a CSV file. */
  lemma {:induction false} ImageAndCsvDisjoint(fileName: string)
    ensures !(Permitted(fileName, AllowedExtensions(Image)) && Permitted(fileName, AllowedExtensions(Csv)))
  {
  }
}
