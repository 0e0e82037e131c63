/**
 * `Engine::read_file` of src/api/files.rs: the file's text with a leading shebang
 * line removed, or an `ErrorSystem` when the file cannot be opened or read.
 * Opening and reading are I/O, so their result is a parameter (`FileAccess`).
 */
module Files {
  import opened Text
  import opened Errors

  /** What the file system gave back: an open error, a read error, or the text. */
  datatype FileAccess = CannotOpen(openError: string) | CannotRead(readError: string) | Contents(text: string)

  /** The text `read_file` returns for file contents `contents`. */
  function WithoutShebang(contents: string): (r: string)
    ensures IsSuffix(r, contents)
    ensures !Matches(contents, 0, "#!") ==> r == contents
    ensures Matches(contents, 0, "#!") && '\n' in contents ==>
      |r| > 0 && r[0] == '\n' && '\n' !in contents[..|contents| - |r|]
    ensures Matches(contents, 0, "#!") && '\n' !in contents ==> r == ""
  {
    if !Matches(contents, 0, "#!") then contents
    else
      match Find('\n', contents, 0)
      case Some(n) =>
        assert forall c :: c in contents[..n] ==> c != '\n';
        contents[n..]
      case None =>
        assert forall c :: c in contents ==> c != '\n';
        ""
  }

  /** `read_file(path)`: the error mapping, then the in-place removal of the shebang. */
  method ReadFile(path: string, access: FileAccess) returns (r: ResultOf<string>)
    ensures access.CannotOpen? ==> r == Err(ErrorSystem("Cannot open script file '" + path + "'", access.openError))
    ensures access.CannotRead? ==> r == Err(ErrorSystem("Cannot read script file '" + path + "'", access.readError))
    ensures access.Contents? ==> r == Ok(WithoutShebang(access.text))
    ensures r.Err? ==> !IsCatchable(r.error)
  {
    if access.CannotOpen? {
      return Err(ErrorSystem("Cannot open script file '" + path + "'", access.openError));
    }
    if access.CannotRead? {
      return Err(ErrorSystem("Cannot read script file '" + path + "'", access.readError));
    }
    var contents := access.text;
    if Matches(contents, 0, "#!") {
      var newline := Find('\n', contents, 0);
      match newline {
        case Some(n) =>
          contents := contents[n..];
        case None =>
          contents := "";
      }
    }
    r := Ok(contents);
  }

  /** Stripping twice is stripping once: what is left starts with a newline or is empty, never with `#!`. */
  lemma StripTwiceIsStripOnce(contents: string)
    ensures WithoutShebang(WithoutShebang(contents)) == WithoutShebang(contents)
  {
    var r := WithoutShebang(contents);
    if Matches(contents, 0, "#!") {
      assert r == "" || r[0] != "#!"[0];
    }
  }
}
