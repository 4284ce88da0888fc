/**
 * The simulated file system: a `File` is a name, optional contents and a
 * permission string; a `FileSocket` is a pair of text buffers (IN and OUT)
 * that the interpreter uses as standard input and output.
 */
module FileSystem {
  import opened Wrappers

  const DefaultPermissions: string := "rw-rw-rw-"

  /** `str(x)` of a file's contents, which may be `None`. */
  function ContentsText(c: Option<string>): string {
    if c.None? then "None" else c.value
  }

  /** The dictionary `File.json` returns. */
  datatype FileJson = FileJson(name: string, contents: string, permissions: string)

  /** One file; `contents` is `None` for the placeholder `chmod` creates. */
  datatype File = File(name: string, contents: Option<string>, permissions: string)
  {
    /** `File.__eq__`: name, contents and permissions all agree, which is exactly
        equality of the three fields. */
    predicate Equals(other: File): (r: bool)
      ensures r <==> this == other
    {
      if name != other.name then false
      else if contents != other.contents then false
      else permissions == other.permissions
    }

    /** `setPermissions`: only the permission string changes. */
    function SetPermissions(p: string): (f: File)
      ensures f.permissions == p
      ensures f.name == name && f.contents == contents
    {
      this.(permissions := p)
    }

    /** `json`: every field rendered with `str`. */
    function Json(): (j: FileJson)
      ensures j.name == name && j.permissions == permissions
      ensures contents.Some? ==> j.contents == contents.value
      ensures contents.None? ==> j.contents == "None"
    {
      FileJson(name, ContentsText(contents), permissions)
    }
  }

  /** `File(**fd)`: the file a json dictionary describes. */
  function FileFromJson(j: FileJson): (f: File)
    ensures f.Json() == j
    ensures f.contents.Some?
  {
    File(j.name, Some(j.contents), j.permissions)
  }

  /** A file survives a round trip through json unless its contents are `None`,
      which come back as the text "None". */
  lemma FileJsonRoundTrip(f: File)
    ensures f.contents.Some? ==> FileFromJson(f.Json()) == f
    ensures f.contents.None? ==> FileFromJson(f.Json()) == f.(contents := Some("None"))
  {
  }

  /** The dictionary `FileSocket.json` returns. */
  datatype SocketJson = SocketJson(IN: string, OUT: string, idNum: int)

  /** A socket: what the next reader will get (IN) and what has been written (OUT). */
  datatype FileSocket = FileSocket(id: int, IN: string, OUT: string)
  {
    /** `FileSocket.__eq__`: OUT, id and IN agree, which is exactly equality. */
    predicate Equals(other: FileSocket): (r: bool)
      ensures r <==> this == other
    {
      if OUT != other.OUT then false
      else if id != other.id then false
      else IN == other.IN
    }

    /** `write`: appends to OUT; the source returns the new OUT. */
    function Write(text: string): (s: FileSocket)
      ensures s.OUT == OUT + text
      ensures s.IN == IN && s.id == id
    {
      this.(OUT := OUT + text)
    }

    /** `read`: hands over IN and empties it. */
    function Read(): (r: (FileSocket, string))
      ensures r.1 == IN
      ensures r.0.IN == "" && r.0.OUT == OUT && r.0.id == id
    {
      (this.(IN := ""), IN)
    }

    /** `transfer`: what was written becomes what will be read; OUT is emptied. */
    function Transfer(): (s: FileSocket)
      ensures s.IN == OUT && s.OUT == "" && s.id == id
    {
      this.(IN := OUT, OUT := "")
    }

    /** `peek`: IN, without consuming it. */
    function Peek(): (t: string)
      ensures t == IN
    {
      IN
    }

    function Json(): (j: SocketJson)
      ensures j.IN == IN && j.OUT == OUT && j.idNum == id
    {
      SocketJson(IN, OUT, id)
    }
  }

  /** `FileSocket(**d)`, used when a state is loaded from json. */
  function SocketFromJson(j: SocketJson): (s: FileSocket)
    ensures s.Json() == j
  {
    FileSocket(j.idNum, j.IN, j.OUT)
  }

  lemma SocketJsonRoundTrip(s: FileSocket)
    ensures SocketFromJson(s.Json()) == s
  {
  }


  /** Two writes are one write of the concatenation. */
  lemma WritesAccumulate(s: FileSocket, a: string, b: string)
    ensures s.Write(a).Write(b) == s.Write(a + b)
  {
    assert s.OUT + a + b == s.OUT + (a + b);
  }

  /** One hop of a pipe: everything written before the transfer is what the next
      reader gets, after which both buffers are empty. */
  lemma PipeHop(s: FileSocket, t: string)
    ensures s.Write(t).Transfer().Read().1 == s.OUT + t
    ensures s.Write(t).Transfer().Read().0 == FileSocket(s.id, "", "")
  {
  }

  /** Reading consumes: a second read gets nothing. */
  lemma ReadConsumes(s: FileSocket)
    ensures s.Read().0.Read().1 == ""
    ensures s.Read().0.Peek() == ""
  {
  }
}
