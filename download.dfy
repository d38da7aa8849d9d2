/** fetch_file of davinci_crawling/net.py: validate a streamed response,
    write its non-empty chunks into a file of a temporary directory and
    hand that file to copy_file, re-raising every failure as a
    DownloadException that carries the URL.

    The transport's answer (a response, or the message of the exception
    requests.get raised) and copy_file, whose module is not part of this
    model, are parameters. The temporary file is an object whose list of
    writes the download appends to.
 */
module Download {
  import opened Http

  /** Size of the pieces iter_content is asked for (1 MiB). */
  const ChunkSize: int := 1024 * 1024
  const DefaultBasePath: string := "."

  /** The exception a download failed with, before it is wrapped. */
  datatype Cause =
    | TransportFailure(message: string)  // requests.get raised
    | MissingFilename                    // ValueError('Could not find a filename')
    | ContentError(status: int)          // raised by __content_error
    | OpenFailed(path: string)           // open(abs_path, 'wb') named a directory
    | CopyFailed(message: string)        // copy_file raised

  /** DownloadException(url), raised from the cause. */
  datatype DownloadError = DownloadError(url: string, cause: Cause)

  /** The streaming GET of fetch_file: 1800 seconds on both phases. */
  function DownloadRequest(url: string): (r: Request)
    ensures r.verb == Get && r.url == url && r.stream && r.contentType.None?
    ensures r.connectTimeout == r.readTimeout == Some(DownloadTimeout)
  {
    Request(Get, url, None, Some(DownloadTimeout), Some(DownloadTimeout), true)
  }

  /** os.path.basename: what follows the last '/'. */
  function Basename(p: string): (r: string)
    ensures |r| <= |p| && r == p[|p| - |r|..]
    ensures '/' !in r
    ensures |r| == |p| || p[|p| - |r| - 1] == '/'
  {
    if p == [] || p[|p| - 1] == '/' then []
    else
      var init, last := p[..|p| - 1], p[|p| - 1];
      assert p == init + [last];
      SlashFreeSuffixGrows(init, Basename(init), last);
      Basename(init) + [last]
  }

  /** A '/'-free suffix that reaches back to a '/' (or to the start) stays
      one when a character other than '/' is appended to both. */
  lemma SlashFreeSuffixGrows(init: string, b: string, last: char)
    requires |b| <= |init| && b == init[|init| - |b|..] && '/' !in b
    requires |b| == |init| || init[|init| - |b| - 1] == '/'
    requires last != '/'
    ensures var p, r := init + [last], b + [last];
      |r| <= |p| && r == p[|p| - |r|..] && '/' !in r &&
      (|r| == |p| || p[|p| - |r| - 1] == '/')
  {
    var p, r := init + [last], b + [last];
    assert p[|p| - |r|..] == init[|init| - |b|..] + [last];
    if |b| < |init| {
      assert p[|p| - |r| - 1] == init[|init| - |b| - 1];
    }
  }

  /** Whatever follows the last '/' of a path (or all of it, when it has
      none) is that path's base name. */
  lemma {:induction false} BasenameAfterSlash(prefix: string, name: string)
    requires prefix == [] || prefix[|prefix| - 1] == '/'
    requires '/' !in name
    ensures Basename(prefix + name) == name
  {
    if name != [] {
      var p, init, last := prefix + name, name[..|name| - 1], name[|name| - 1];
      assert last != '/' && p[|p| - 1] == last;
      assert p[..|p| - 1] == prefix + init;
      BasenameAfterSlash(prefix, init);
      assert Basename(p) == Basename(prefix + init) + [last];
      assert init + [last] == name;
    }
  }

  /** Base names are fixed points of Basename. */
  lemma BasenameIdempotent(p: string)
    ensures Basename(Basename(p)) == Basename(p)
  {
    BasenameAfterSlash([], Basename(p));
    assert [] + Basename(p) == Basename(p);
  }

  /** os.path.join(dir, name) for two components: an absolute name replaces
      dir, otherwise a '/' is inserted unless dir is empty or ends in one. */
  function JoinPath(dir: string, name: string): (r: string)
    ensures name != [] && name[0] == '/' ==> r == name
    ensures |name| <= |r| && r[|r| - |name|..] == name
    ensures (name == [] || name[0] != '/') ==>
      |r| == |dir| + |name| + (if dir == [] || dir[|dir| - 1] == '/' then 0 else 1) &&
      r[..|dir|] == dir &&
      (dir != [] && dir[|dir| - 1] != '/' ==> r[|dir|] == '/')
  {
    if name != [] && name[0] == '/' then name
    else if dir == [] || dir[|dir| - 1] == '/' then dir + name
    else dir + "/" + name
  }

  /** `options.get("base_path", ".")`. */
  function BasePath(options: map<string, string>): (r: string)
    ensures "base_path" in options ==> r == options["base_path"]
    ensures "base_path" !in options ==> r == DefaultBasePath
  {
    if "base_path" in options then options["base_path"] else DefaultBasePath
  }

  /** `"{0}/{1}".format(base_path, filename)`. */
  function DestinationPath(options: map<string, string>, filename: string): (r: string)
    ensures |r| == |BasePath(options)| + 1 + |filename|
    ensures r[..|BasePath(options)|] == BasePath(options)
    ensures r[|BasePath(options)|..] == "/" + filename
  {
    BasePath(options) + "/" + filename
  }

  /** The destination lies directly under the base path and its base name
      is the downloaded file's name. */
  lemma DestinationNamesFile(options: map<string, string>, tempDir: string, filename: string)
    requires '/' !in filename
    ensures Basename(DestinationPath(options, filename)) == filename
    ensures Basename(JoinPath(tempDir, filename)) == filename
  {
    var base := BasePath(options);
    BasenameAfterSlash(base + "/", filename);
    JoinedNameIsBasename(tempDir, filename);
  }

  /** A '/'-free name joined to any directory is the base name of the join. */
  lemma JoinedNameIsBasename(dir: string, name: string)
    requires '/' !in name
    ensures Basename(JoinPath(dir, name)) == name
  {
    if name != [] && name[0] == '/' {
      assert false;
    } else if dir == [] || dir[|dir| - 1] == '/' {
      BasenameAfterSlash(dir, name);
    } else {
      BasenameAfterSlash(dir + "/", name);
    }
  }

  /** The checks fetch_file makes before writing anything: a filename
      parameter must be present (checked first), and the status must be
      exactly 200. On success, the base name of that filename. */
  function CheckResponse(response: Response): (r: Result<string, Cause>)
    ensures r.Success? <==> "filename" in response.disposition && response.status == HttpOk
    ensures "filename" !in response.disposition ==> r == Failure(MissingFilename)
    ensures "filename" in response.disposition && response.status != HttpOk ==>
      r == Failure(ContentError(response.status))
    ensures r.Success? ==> r.value == Basename(response.disposition["filename"])
  {
    if "filename" !in response.disposition then Failure(MissingFilename)
    else
      var filename := Basename(response.disposition["filename"]);
      if response.status == HttpOk then Success(filename) else Failure(ContentError(response.status))
  }

  /** A success status other than 200 is still a failed download. */
  lemma CreatedIsRejected(response: Response)
    requires response.status == 201 && "filename" in response.disposition
    ensures CheckResponse(response) == Failure(ContentError(201))
  {
  }

  /** Names that, joined to the temporary directory, name a directory, so
      that opening them for writing fails. */
  predicate NamesDirectory(filename: string) {
    filename == [] || filename == "." || filename == ".."
  }

  /** The chunks `if chunk:` lets through, in order. */
  function NonEmptyChunks(chunks: seq<seq<Byte>>): (r: seq<seq<Byte>>)
    ensures |r| <= |chunks|
    ensures forall i :: 0 <= i < |r| ==> r[i] != []
    ensures forall c :: c != [] ==> multiset(r)[c] == multiset(chunks)[c]
  {
    if chunks == [] then []
    else
      var init, last := chunks[..|chunks| - 1], chunks[|chunks| - 1];
      assert chunks == init + [last];
      NonEmptyChunks(init) + (if last != [] then [last] else [])
  }

  /** The bytes of a sequence of writes, in order. */
  function Flatten(writes: seq<seq<Byte>>): seq<Byte> {
    if writes == [] then [] else Flatten(writes[..|writes| - 1]) + writes[|writes| - 1]
  }

  /** The bytes of consecutive writes are the bytes of each, in order. */
  lemma {:induction false} FlattenConcat(a: seq<seq<Byte>>, b: seq<seq<Byte>>)
    ensures Flatten(a + b) == Flatten(a) + Flatten(b)
    decreases |b|
  {
    if b != [] {
      var init := b[..|b| - 1];
      assert (a + b)[..|a + b| - 1] == a + init;
      FlattenConcat(a, init);
    } else {
      assert a + b == a;
    }
  }

  /** Filtering a concatenation filters each part. */
  lemma {:induction false} NonEmptyChunksConcat(a: seq<seq<Byte>>, b: seq<seq<Byte>>)
    ensures NonEmptyChunks(a + b) == NonEmptyChunks(a) + NonEmptyChunks(b)
    decreases |b|
  {
    if b != [] {
      var init, last := b[..|b| - 1], b[|b| - 1];
      assert (a + b)[..|a + b| - 1] == a + init;
      assert (a + b)[|a + b| - 1] == last;
      NonEmptyChunksConcat(a, init);
    } else {
      assert a + b == a;
    }
  }

  /** Skipping empty chunks loses no byte and reorders nothing; when no
      chunk is empty, every chunk is written. */
  lemma {:induction false} SkippingEmptyChunksKeepsBytes(chunks: seq<seq<Byte>>)
    ensures Flatten(NonEmptyChunks(chunks)) == Flatten(chunks)
    ensures (forall i :: 0 <= i < |chunks| ==> chunks[i] != []) ==> NonEmptyChunks(chunks) == chunks
  {
    if chunks != [] {
      var init, last := chunks[..|chunks| - 1], chunks[|chunks| - 1];
      assert chunks == init + [last];
      SkippingEmptyChunksKeepsBytes(init);
      var kept := NonEmptyChunks(init);
      var tail: seq<seq<Byte>> := if last != [] then [last] else [];
      assert NonEmptyChunks(chunks) == kept + tail;
      FlattenConcat(kept, tail);
      assert Flatten(tail) == last by {
        if last != [] {
          assert tail[..0] == [];
        }
      }
      if forall i :: 0 <= i < |chunks| ==> chunks[i] != [] {
        assert forall i :: 0 <= i < |init| ==> init[i] == chunks[i];
      }
    }
  }

  /** The file opened for writing in the temporary directory; `writes` are
      the chunks written to it, in order. */
  class TempFile {
    const path: string
    var writes: seq<seq<Byte>>

    constructor Open(path: string)
      ensures this.path == path && writes == []
    {
      this.path := path;
      writes := [];
    }

    method Write(chunk: seq<Byte>)
      modifies this
      ensures writes == old(writes) + [chunk]
      ensures Content() == old(Content()) + chunk
    {
      FlattenConcat(writes, [chunk]);
      assert [chunk][..0] == [];
      writes := writes + [chunk];
    }

    /** The bytes the file holds. */
    function Content(): seq<Byte>
      reads this
    {
      Flatten(writes)
    }
  }

  /** fetch_file. `transport` is what requests.get produced; `copyFile`
      stands for copy_file(options, abs_path, dest_file), giving the final
      path or the message of the exception it raised. `request` is the
      request issued to the transport. `written` is the
      sequence of chunks written to the temporary file (empty when the file
      was never opened). */
  method FetchFile(url: string, options: map<string, string>, tempDir: string,
                   transport: Result<Response, string>,
                   copyFile: (map<string, string>, string, string) -> Result<string, string>)
    returns (request: Request, r: Result<File, DownloadError>, written: seq<seq<Byte>>)
    ensures request == DownloadRequest(url)
    ensures r.Failure? ==> r.error.url == url
    ensures transport.Failure? ==>
      r == Failure(DownloadError(url, TransportFailure(transport.error))) && written == []
    ensures transport.Success? && CheckResponse(transport.value).Failure? ==>
      r == Failure(DownloadError(url, CheckResponse(transport.value).error)) && written == []
    ensures transport.Success? && CheckResponse(transport.value).Success? ==>
      var response := transport.value;
      var filename := CheckResponse(response).value;
      var tempPath := JoinPath(tempDir, filename);
      if NamesDirectory(filename) then
        r == Failure(DownloadError(url, OpenFailed(tempPath))) && written == []
      else
        written == NonEmptyChunks(response.chunks) &&
        match copyFile(options, tempPath, DestinationPath(options, filename))
        case Success(dest) => r == Success(File(HttpOk, dest, filename, response))
        case Failure(message) => r == Failure(DownloadError(url, CopyFailed(message)))
  {
    request, written := DownloadRequest(url), [];
    if transport.Failure? {
      return request, Failure(DownloadError(url, TransportFailure(transport.error))), written;
    }
    var response := transport.value;
    var checked := CheckResponse(response);
    if checked.Failure? {
      return request, Failure(DownloadError(url, checked.error)), written;
    }
    var filename := checked.value;
    var tempPath := JoinPath(tempDir, filename);
    if NamesDirectory(filename) {
      return request, Failure(DownloadError(url, OpenFailed(tempPath))), written;
    }
    var f := new TempFile.Open(tempPath);
    var chunks := response.chunks;
    for i := 0 to |chunks|
      invariant f.writes == NonEmptyChunks(chunks[..i])
    {
      if chunks[i] != [] {
        f.Write(chunks[i]);
      }
      assert chunks[..i + 1][..i] == chunks[..i];
    }
    assert chunks[..|chunks|] == chunks;
    written := f.writes;
    var copied := copyFile(options, tempPath, DestinationPath(options, filename));
    match copied
    case Success(dest) =>
      r := Success(File(HttpOk, dest, filename, response));
    case Failure(message) =>
      r := Failure(DownloadError(url, CopyFailed(message)));
  }

  /** What a successful download guarantees: the response was a 200 with a
      filename parameter, the file is named after that parameter's base
      name, every byte of the body reached the temporary file, and
      copy_file was asked for base_path/filename. */
  lemma SuccessfulDownload(url: string, options: map<string, string>, tempDir: string,
                           response: Response, filename: string, written: seq<seq<Byte>>)
    requires CheckResponse(response) == Success(filename)
    requires written == NonEmptyChunks(response.chunks)
    ensures response.status == HttpOk && "filename" in response.disposition
    ensures filename == Basename(response.disposition["filename"]) && '/' !in filename
    ensures Flatten(written) == Flatten(response.chunks)
    ensures Basename(DestinationPath(options, filename)) == filename
    ensures Basename(JoinPath(tempDir, filename)) == filename
  {
    SkippingEmptyChunksKeepsBytes(response.chunks);
    DestinationNamesFile(options, tempDir, filename);
  }
}
