/**
 * The decisions the three HTTP handlers of src/api/main.go make, as pure
 * functions from the request and the outcomes of the library calls they
 * make (body decoding, form parsing, file-system operations) to the
 * response and the side effects performed, in order.
 */
module Handlers {
  import opened Wrappers
  import opened MachineInt
  import opened GoStrings
  import opened NativeSquare

  const StatusOK: int := 200
  const StatusBadRequest: int := 400
  const StatusMethodNotAllowed: int := 405
  const StatusInternalServerError: int := 500

  datatype Response = Response(status: int, body: string)

  /** `http.Error`: the status, and the message followed by a newline. */
  function HttpError(message: string, status: int): Response
  {
    Response(status, message + "\n")
  }

  /** The body `jsonHandler` decodes: `{"message": ..., "number": ...}`. */
  datatype DataPayload = DataPayload(message: string, number: Int64)

  /** How a library call on the file system or a stream ended. */
  datatype IoResult = Done | Failed(reason: string)

  /** The side effects a handler performs, in the order it performs them. */
  datatype Effect =
    | ReadBody                                        // decode or parse the request body
    | CreateFile(path: string)                        // create or truncate a file
    | EncodeJson(path: string, payload: DataPayload)  // write pretty-printed JSON
    | MakeDirs(dir: string)                           // `os.MkdirAll`
    | CopyUpload(path: string)                        // `io.Copy` of the uploaded stream

  datatype Outcome = Outcome(response: Response, effects: seq<Effect>)

  const MethodPost: string := "POST"
  const JsonFile: string := "data.json"

  /** The answer of both POST-only handlers to any other method. */
  function MethodNotAllowed(): Outcome
  {
    Outcome(HttpError("Invalid request method. Only POST is allowed.", StatusMethodNotAllowed), [])
  }

  // ---------------------------------------------------------------------
  // jsonHandler
  // ---------------------------------------------------------------------

  /**
   * `jsonHandler`: `decoded` is the payload the JSON decoder produced (None
   * when decoding failed), `create` and `encode` how creating data.json and
   * writing the payload to it ended. Any method but POST is refused with 405
   * before anything else happens; a payload that does not decode gets 400
   * and no file is touched; a file-system failure gets 500; otherwise the
   * payload has been written to data.json and the answer is 200.
   */
  function JsonHandler(httpMethod: string, decoded: Option<DataPayload>, create: IoResult, encode: IoResult): (o: Outcome)
    ensures o.response.status == StatusMethodNotAllowed <==> httpMethod != MethodPost
    ensures httpMethod != MethodPost ==> o.effects == []
    ensures httpMethod == MethodPost ==> |o.effects| > 0 && o.effects[0] == ReadBody
    ensures o.response.status == StatusBadRequest <==> httpMethod == MethodPost && decoded.None?
    ensures o.response.status == StatusBadRequest ==> o.effects == [ReadBody]
    ensures o.response.status == StatusInternalServerError <==>
            httpMethod == MethodPost && decoded.Some? && (create.Failed? || encode.Failed?)
    ensures o.response.status == StatusOK <==>
            httpMethod == MethodPost && decoded.Some? && create.Done? && encode.Done?
    ensures o.response.status == StatusOK ==>
            o.effects == [ReadBody, CreateFile(JsonFile), EncodeJson(JsonFile, decoded.value)]
    ensures forall p, d :: EncodeJson(p, d) in o.effects ==> create.Done?
    ensures httpMethod == MethodPost && decoded.Some? ==>
            o.effects == [ReadBody, CreateFile(JsonFile)] + (if create.Done? then [EncodeJson(JsonFile, decoded.value)] else [])
  {
    if httpMethod != MethodPost then MethodNotAllowed()
    else if decoded.None? then
      Outcome(HttpError("Invalid JSON payload.", StatusBadRequest), [ReadBody])
    else if create.Failed? then
      Outcome(HttpError("Failed to create file: " + create.reason, StatusInternalServerError),
              [ReadBody, CreateFile(JsonFile)])
    else
      var effects := [ReadBody, CreateFile(JsonFile), EncodeJson(JsonFile, decoded.value)];
      if encode.Failed? then
        Outcome(HttpError("Failed to write JSON to file: " + encode.reason, StatusInternalServerError), effects)
      else
        Outcome(Response(StatusOK, "JSON payload successfully written to data.json\n"), effects)
  }

  // ---------------------------------------------------------------------
  // fileUploadHandler
  // ---------------------------------------------------------------------

  /** `n` slashes. */
  function Slashes(n: nat): (s: string)
    ensures |s| == n && forall i :: 0 <= i < n ==> s[i] == '/'
  {
    seq(n, _ => '/')
  }

  /** The destination directory: the `destDir` form value, "." when it is empty. */
  function UploadDir(destDir: string): (dir: string)
    ensures destDir == [] ==> dir == "."
    ensures destDir != [] ==> dir == destDir
  {
    if destDir == "" then "." else destDir
  }

  /** The destination file name: `destFilename`, the client's file name when it is empty. */
  function UploadName(destFilename: string, clientName: string): (name: string)
    ensures destFilename != [] ==> name == destFilename
    ensures destFilename == [] ==> name == clientName
  {
    if destFilename == "" then clientName else destFilename
  }

  /**
   * The destination path: the directory with all its trailing slashes
   * removed, one slash, and the file name.
   */
  function DestinationPath(destDir: string, destFilename: string, clientName: string): (path: string)
    ensures var dir, name := UploadDir(destDir), UploadName(destFilename, clientName);
            exists k: nat | k <= |dir| ::
              && dir == dir[..|dir| - k] + Slashes(k)
              && (k < |dir| ==> dir[|dir| - k - 1] != '/')
              && path == dir[..|dir| - k] + "/" + name
  {
    var dir := UploadDir(destDir);
    var trimmed := TrimRight(dir, "/");
    var k := |dir| - |trimmed|;
    assert dir == dir[..|dir| - k] + Slashes(k);
    TrimRight(dir, "/") + "/" + UploadName(destFilename, clientName)
  }

  /** With neither value supplied, the file lands in the current directory under the client's name. */
  lemma DestinationDefaults(clientName: string)
    ensures DestinationPath("", "", clientName) == "./" + clientName
  {
  }

  /**
   * Any number of trailing slashes on a directory collapses to exactly one
   * separator; with none, the path is the directory, a slash and the name.
   */
  lemma {:induction false} DestinationJoin(dir: string, k: nat, name: string, clientName: string)
    requires dir != [] && dir[|dir| - 1] != '/'
    requires name != []
    ensures DestinationPath(dir + Slashes(k), name, clientName) == dir + "/" + name
  {
    var d := dir + Slashes(k);
    assert TrimRight(d, "/") == dir by {
      var t := TrimRight(d, "/");
      assert d[|dir| - 1] == dir[|dir| - 1];
      assert |t| == |dir|;
    }
  }

  /** A directory made of slashes only resolves to the root: "/" + name. */
  lemma DestinationAllSlashes(k: nat, name: string, clientName: string)
    requires k > 0 && name != []
    ensures DestinationPath(Slashes(k), name, clientName) == "/" + name
  {
    assert TrimRight(Slashes(k), "/") == [];
  }

  /** The fields of the parsed multipart form the handler reads. */
  datatype UploadForm = UploadForm(
    clientFile: Option<string>,  // the client's file name of field "file"; None when the field is missing
    destDir: string,             // `r.FormValue("destDir")`, "" when absent
    destFilename: string)        // `r.FormValue("destFilename")`, "" when absent

  /**
   * `fileUploadHandler`: `form` is the parsed multipart form (None when
   * parsing failed), `mkdir`, `create` and `copy` how the three file-system
   * steps ended. Any method but POST is refused with 405 before anything
   * happens; a malformed form or a missing file field gets 400 before the
   * file system is touched; a failing step gets 500 and stops there;
   * otherwise the file has been copied to the destination path and the
   * answer names it.
   */
  function UploadHandler(httpMethod: string, form: Option<UploadForm>, mkdir: IoResult, create: IoResult, copy: IoResult): (o: Outcome)
    ensures o.response.status == StatusMethodNotAllowed <==> httpMethod != MethodPost
    ensures httpMethod != MethodPost ==> o.effects == []
    ensures o.response.status == StatusBadRequest <==>
            httpMethod == MethodPost && (form.None? || form.value.clientFile.None?)
    ensures o.response.status == StatusBadRequest ==> o.effects == [ReadBody]
    ensures o.response.status == StatusOK <==>
            httpMethod == MethodPost && form.Some? && form.value.clientFile.Some? &&
            mkdir.Done? && create.Done? && copy.Done?
    ensures o.response.status == StatusOK ==>
            var f := form.value;
            var path := DestinationPath(f.destDir, f.destFilename, f.clientFile.value);
            && o.effects == [ReadBody, MakeDirs(UploadDir(f.destDir)), CreateFile(path), CopyUpload(path)]
            && o.response.body == "File successfully uploaded to: " + path + "\n"
    ensures o.response.status == StatusInternalServerError <==>
            httpMethod == MethodPost && form.Some? && form.value.clientFile.Some? &&
            (mkdir.Failed? || create.Failed? || copy.Failed?)
    ensures forall p :: CreateFile(p) in o.effects ==> mkdir.Done?
    ensures forall p :: CopyUpload(p) in o.effects ==> mkdir.Done? && create.Done?
    ensures httpMethod == MethodPost && form.Some? && form.value.clientFile.Some? ==>
            var f := form.value;
            var path := DestinationPath(f.destDir, f.destFilename, f.clientFile.value);
            && (mkdir.Failed? ==> o.effects == [ReadBody, MakeDirs(UploadDir(f.destDir))])
            && (mkdir.Done? && create.Failed? ==> o.effects == [ReadBody, MakeDirs(UploadDir(f.destDir)), CreateFile(path)])
            && (mkdir.Done? && create.Done? ==>
                  o.effects == [ReadBody, MakeDirs(UploadDir(f.destDir)), CreateFile(path), CopyUpload(path)])
  {
    if httpMethod != MethodPost then MethodNotAllowed()
    else if form.None? then
      Outcome(HttpError("Error parsing form data.", StatusBadRequest), [ReadBody])
    else if form.value.clientFile.None? then
      Outcome(HttpError("Error retrieving file from form data.", StatusBadRequest), [ReadBody])
    else
      var f := form.value;
      var dir := UploadDir(f.destDir);
      var path := DestinationPath(f.destDir, f.destFilename, f.clientFile.value);
      if mkdir.Failed? then
        Outcome(HttpError("Error creating destination directory: " + mkdir.reason, StatusInternalServerError),
                [ReadBody, MakeDirs(dir)])
      else if create.Failed? then
        Outcome(HttpError("Error creating file on server: " + create.reason, StatusInternalServerError),
                [ReadBody, MakeDirs(dir), CreateFile(path)])
      else
        var effects := [ReadBody, MakeDirs(dir), CreateFile(path), CopyUpload(path)];
        if copy.Failed? then
          Outcome(HttpError("Error saving file: " + copy.reason, StatusInternalServerError), effects)
        else
          Outcome(Response(StatusOK, "File successfully uploaded to: " + path + "\n"), effects)
  }

  // ---------------------------------------------------------------------
  // squareHandler
  // ---------------------------------------------------------------------

  /** The values given for `key` in a parsed query string, in order. */
  function QueryValues(query: seq<(string, string)>, key: string): (vs: seq<string>)
    ensures forall v :: v in vs ==> (key, v) in query
    ensures |vs| == 0 <==> forall i :: 0 <= i < |query| ==> query[i].0 != key
    ensures |vs| > 0 ==> exists i :: 0 <= i < |query| && query[i] == (key, vs[0]) &&
                                     forall j :: 0 <= j < i ==> query[j].0 != key
  {
    if query == [] then []
    else if query[0].0 == key then [query[0].1] + QueryValues(query[1..], key)
    else QueryValues(query[1..], key)
  }

  /** The success text of the square handler. */
  function SquareText(num: Int64): string
  {
    "The square of " + Itoa(num) + " is " + Itoa(SquareOf(num)) + "\n"
  }

  /**
   * `squareHandler`, for any method: 400 when `number` is missing or its
   * first value is empty, 400 when that value is not an integer, otherwise
   * 200 with the number and its square as computed across the native
   * boundary.
   */
  function SquareHandler(query: seq<(string, string)>): (resp: Response)
    ensures resp.status == StatusOK || resp.status == StatusBadRequest
    ensures var keys := QueryValues(query, "number");
            resp.status == StatusOK <==> |keys| > 0 && Atoi(keys[0]).Some?
    ensures resp.status == StatusOK ==>
            resp.body == SquareText(Atoi(QueryValues(query, "number")[0]).value)
  {
    var keys := QueryValues(query, "number");
    if |keys| == 0 || |keys[0]| < 1 then
      HttpError("Missing 'number' query parameter", StatusBadRequest)
    else
      match Atoi(keys[0])
      case None => HttpError("Invalid 'number' query parameter. Must be an integer.", StatusBadRequest)
      case Some(num) => Response(StatusOK, SquareText(num))
  }

  /** For a number whose square fits in 32 bits the handler reports it exactly. */
  lemma SquareHandlerExact(n: Int64)
    requires -46340 <= n <= 46340
    ensures SquareHandler([("number", Itoa(n))]) ==
            Response(StatusOK, "The square of " + Itoa(n) + " is " + Itoa(n * n) + "\n")
  {
    AtoiItoa(n);
    assert QueryValues([("number", Itoa(n))], "number") == [Itoa(n)];
  }

  /** Only the first value counts, and an empty one counts as missing. */
  lemma SquareHandlerFirstValueOnly(rest: seq<(string, string)>)
    ensures SquareHandler([("number", "")] + rest) ==
            HttpError("Missing 'number' query parameter", StatusBadRequest)
  {
    assert ([("number", "")] + rest)[1..] == rest;
  }
}
