/** The upload endpoint (`upload_file`): an extension check, a size check,
    key derivation from the owner and the sanitised filename, an existence
    probe, then a write of the payload and a write of its metadata sidecar,
    against an object store held as a map. */
module Upload {
  import opened Sanitizer

  newtype byte = x: int | 0 <= x < 256

  /** 2 * 1024 * 1024: the largest payload, in bytes, that is accepted. */
  const MaxFileSize: nat := 2 * 1024 * 1024

  const MetadataSuffix: string := ".metadata.json"

  const ConflictDetail: string := "A file with the same name already exists in the bucket."

  /** What `str()` yields for the 409 HTTPException: "<status>: <detail>". */
  const ConflictText: string := "409: " + ConflictDetail

  const UploadFailurePrefix: string := "Failed to upload file to S3: "

  const MetadataFailurePrefix: string := "Failed to upload metadata to S3: "

  /** What the store holds at a key: an uploaded payload, or the metadata
      sidecar {"metadataAttributes": {"owner": owner}}, known by its owner. */
  datatype StoredObject = Blob(data: seq<byte>) | MetadataJson(owner: string)

  type Objects = map<string, StoredObject>

  /** One multipart request: the raw filename, the owner field and the payload. */
  datatype Request = Request(filename: string, owner: string, contents: seq<byte>)

  /** The exception that the outer `except Exception` around the probe and
      the primary write catches. */
  datatype Cause =
    | Conflict               // the 409 HTTPException raised after a successful probe
    | Fault(reason: string)  // any other exception, by its str()

  /** The HTTP answer of the endpoint. */
  datatype Response =
    | Uploaded
    | InvalidType
    | TooLarge
    | UploadFailed(cause: Cause)
    | MetadataFailed(reason: string)
  {
    /** 200 for success, 400 and 413 for the two checks, 500 for either write. */
    function Status(): (code: nat)
      ensures code == 200 <==> Uploaded?
      ensures code == 400 <==> InvalidType?
      ensures code == 413 <==> TooLarge?
      ensures code == 500 <==> UploadFailed? || MetadataFailed?
    {
      match this
      case Uploaded => 200
      case InvalidType => 400
      case TooLarge => 413
      case UploadFailed(_) => 500
      case MetadataFailed(_) => 500
    }

    /** The `message` of the success body, or the `detail` of the error. */
    /** A failure's detail names the write that failed, then carries the text
        of the exception caught: the 409's own rendering for a conflict. */
    function Text(): (t: string)
      ensures UploadFailed? ==> |UploadFailurePrefix| <= |t| && t[..|UploadFailurePrefix|] == UploadFailurePrefix
      ensures this == UploadFailed(Conflict) ==> t[|UploadFailurePrefix|..] == ConflictText
      ensures UploadFailed? && cause.Fault? ==> t[|UploadFailurePrefix|..] == cause.reason
      ensures MetadataFailed? ==>
        |MetadataFailurePrefix| <= |t| && t[..|MetadataFailurePrefix|] == MetadataFailurePrefix
      ensures MetadataFailed? ==> t[|MetadataFailurePrefix|..] == reason
    {
      match this
      case Uploaded => "File and metadata uploaded successfully."
      case InvalidType => "Invalid file type. Only CSV and PDF files are allowed."
      case TooLarge => "The file size exceeds the maximum limit of 2 MB."
      case UploadFailed(Conflict) => UploadFailurePrefix + ConflictText
      case UploadFailed(Fault(reason)) => UploadFailurePrefix + reason
      case MetadataFailed(reason) => MetadataFailurePrefix + reason
    }
  }

  /** How `head_object` behaves, apart from whether the key is present. */
  datatype ProbeFault =
    | ProbeAnswers                 // returns when the key exists, raises ClientError (404) when not
    | ProbeClientError             // raises a ClientError whatever the key (403, throttling, ...)
    | ProbeRaises(reason: string)  // raises an exception that is not a ClientError

  /** Whether one `upload_fileobj` call raises. */
  datatype WriteFault = WriteSucceeds | WriteRaises(reason: string)

  /** The behaviour of the three store calls of one request. */
  datatype Faults = Faults(probe: ProbeFault, primary: WriteFault, sidecar: WriteFault)

  /** What the probe does: return, raise a ClientError, or raise anything else. */
  datatype HeadResult = Found | ClientError | OtherError(reason: string)

  /** `head_object`: it returns only for a present key with an answering probe. */
  function Head(objects: Objects, key: string, fault: ProbeFault): (r: HeadResult)
    ensures r == Found <==> fault == ProbeAnswers && key in objects
    ensures r == ClientError <==> fault == ProbeClientError || (fault == ProbeAnswers && key !in objects)
    ensures r.OtherError? <==> fault.ProbeRaises?
    ensures r.OtherError? ==> r.reason == fault.reason
  {
    match fault
    case ProbeAnswers => if key in objects then Found else ClientError
    case ProbeClientError => ClientError
    case ProbeRaises(reason) => OtherError(reason)
  }

  predicate EndsWith(s: string, suffix: string) {
    |suffix| <= |s| && s[|s| - |suffix|..] == suffix
  }

  /** `filename.endswith(('.csv', '.pdf'))`, case-sensitive, on the raw name. */
  function HasAllowedExtension(filename: string): (b: bool)
    ensures b <==> 4 <= |filename| && filename[|filename| - 4..] in {".csv", ".pdf"}
  {
    EndsWith(filename, ".csv") || EndsWith(filename, ".pdf")
  }

  /** `f"{owner}/{sanitized_filename}"`: the owner is used as it is. */
  function ObjectKey(table: Table, req: Request): (key: string)
    ensures |req.owner| < |key| && key[..|req.owner|] == req.owner && key[|req.owner|] == '/'
    ensures AllAllowed(key[|req.owner| + 1..]) && '/' !in key[|req.owner| + 1..]
    ensures |key| <= |req.owner| + 1 + |Unidecode(table, req.filename)|
  {
    req.owner + "/" + SanitizeFilename(table, req.filename)
  }

  function SidecarKey(key: string): string {
    key + MetadataSuffix
  }

  /** The state after one `upload_fileobj` call. */
  function Put(objects: Objects, key: string, obj: StoredObject, fault: WriteFault): Objects {
    if fault == WriteSucceeds then objects[key := obj] else objects
  }

  datatype Outcome = Outcome(response: Response, objects: Objects)

  /** The response of one `upload_file` call and the store it leaves behind. */
  function UploadSpec(objects: Objects, table: Table, req: Request, faults: Faults): (o: Outcome)
    ensures o.response.Status() == 400 <==> !HasAllowedExtension(req.filename)
    ensures o.response.Status() == 413 <==> HasAllowedExtension(req.filename) && |req.contents| > MaxFileSize
    ensures o.response == UploadFailed(Conflict) <==>
      Admissible(req) && Head(objects, ObjectKey(table, req), faults.probe) == Found
    ensures o.objects != objects ==>
      && Admissible(req)
      && Head(objects, ObjectKey(table, req), faults.probe) == ClientError
      && faults.primary == WriteSucceeds
  {
    if !HasAllowedExtension(req.filename) then Outcome(InvalidType, objects)
    else if |req.contents| > MaxFileSize then Outcome(TooLarge, objects)
    else
      var key := ObjectKey(table, req);
      match Head(objects, key, faults.probe)
      case Found => Outcome(UploadFailed(Conflict), objects)
      case OtherError(reason) => Outcome(UploadFailed(Fault(reason)), objects)
      case ClientError =>
        match faults.primary
        case WriteRaises(reason) => Outcome(UploadFailed(Fault(reason)), objects)
        case WriteSucceeds =>
          var stored := Put(objects, key, Blob(req.contents), WriteSucceeds);
          match faults.sidecar
          case WriteRaises(reason) => Outcome(MetadataFailed(reason), stored)
          case WriteSucceeds =>
            Outcome(Uploaded, Put(stored, SidecarKey(key), MetadataJson(req.owner), WriteSucceeds))
  }

  /** The checks before any store access pass. */
  predicate Admissible(req: Request) {
    HasAllowedExtension(req.filename) && |req.contents| <= MaxFileSize
  }

  // ---------------------------------------------------------------------
  // Properties of one call

  /** A filename without ".csv" or ".pdf" at its end is answered with 400,
      whatever the payload, and the store is left alone. */
  lemma RejectsExtension(objects: Objects, table: Table, req: Request, faults: Faults)
    requires !HasAllowedExtension(req.filename)
    ensures UploadSpec(objects, table, req, faults) == Outcome(InvalidType, objects)
    ensures InvalidType.Status() == 400
  {
  }

  /** The extension test is case-sensitive: "report.CSV" is refused. */
  lemma ExtensionIsCaseSensitive(filename: string)
    requires filename == "report.CSV"
    ensures !HasAllowedExtension(filename)
  {
    assert filename[|filename| - 4..] == ".CSV";
  }

  /** 413 is the answer exactly when the extension passes and the payload is
      longer than 2 097 152 bytes; the store is then untouched. */
  lemma SizeCeiling(objects: Objects, table: Table, req: Request, faults: Faults)
    ensures var o := UploadSpec(objects, table, req, faults);
      o.response == TooLarge <==> HasAllowedExtension(req.filename) && |req.contents| > 2097152
    ensures UploadSpec(objects, table, req, faults).response == TooLarge ==>
      UploadSpec(objects, table, req, faults).objects == objects && TooLarge.Status() == 413
  {
  }

  /** 2 097 152 bytes pass the size check; 2 097 153 bytes do not. */
  lemma SizeBoundary(objects: Objects, table: Table, req: Request, faults: Faults)
    requires HasAllowedExtension(req.filename)
    ensures |req.contents| == 2097152 ==> UploadSpec(objects, table, req, faults).response != TooLarge
    ensures |req.contents| == 2097153 ==> UploadSpec(objects, table, req, faults) == Outcome(TooLarge, objects)
  {
  }

  /** A key that already exists is not written again: the probe answers, the
      409 it raises is caught by the outer handler and surfaces as a 500
      whose detail carries the conflict text; neither object is written. */
  lemma DuplicateFails(objects: Objects, table: Table, req: Request, faults: Faults)
    requires Admissible(req) && faults.probe == ProbeAnswers
    requires ObjectKey(table, req) in objects
    ensures UploadSpec(objects, table, req, faults) == Outcome(UploadFailed(Conflict), objects)
    ensures UploadFailed(Conflict).Status() == 500
    ensures UploadFailed(Conflict).Text() == "Failed to upload file to S3: " + "409: " + ConflictDetail
  {
  }

  /** Any ClientError of the probe counts as "absent": the payload is
      written, over an existing object if there is one. */
  lemma ClientErrorMeansAbsent(objects: Objects, table: Table, req: Request, faults: Faults)
    requires Admissible(req) && faults.probe == ProbeClientError && faults.primary == WriteSucceeds
    ensures var o := UploadSpec(objects, table, req, faults);
      ObjectKey(table, req) in o.objects && o.objects[ObjectKey(table, req)] == Blob(req.contents)
  {
  }

  /** The request succeeds exactly when the checks pass, the probe raises a
      ClientError and both writes go through; the store then gains the
      payload at the key and the sidecar next to it, and nothing else. */
  lemma SuccessWritesTwoKeys(objects: Objects, table: Table, req: Request, faults: Faults)
    ensures var o := UploadSpec(objects, table, req, faults);
      o.response == Uploaded <==>
        && Admissible(req)
        && Head(objects, ObjectKey(table, req), faults.probe) == ClientError
        && faults.primary == WriteSucceeds
        && faults.sidecar == WriteSucceeds
    ensures var o := UploadSpec(objects, table, req, faults);
      var key := ObjectKey(table, req);
      o.response == Uploaded ==>
        && o.objects.Keys == objects.Keys + {key, key + ".metadata.json"}
        && o.objects[key] == Blob(req.contents)
        && o.objects[key + ".metadata.json"] == MetadataJson(req.owner)
        && Uploaded.Status() == 200
  {
    var key := ObjectKey(table, req);
    assert key != key + ".metadata.json" by {
      assert |key| < |key + ".metadata.json"|;
    }
  }

  /** A failed sidecar write answers 500 and leaves the payload in place:
      the first write is not rolled back. */
  lemma SidecarFailureKeepsPayload(objects: Objects, table: Table, req: Request, faults: Faults)
    requires UploadSpec(objects, table, req, faults).response.MetadataFailed?
    ensures UploadSpec(objects, table, req, faults).objects == objects[ObjectKey(table, req) := Blob(req.contents)]
    ensures UploadSpec(objects, table, req, faults).response.Status() == 500
    ensures faults.sidecar.WriteRaises? && faults.primary == WriteSucceeds
  {
  }

  /** Whatever happens, only the key and its sidecar key can change, and no
      object is ever removed. */
  lemma NothingElseChanges(objects: Objects, table: Table, req: Request, faults: Faults)
    ensures var o := UploadSpec(objects, table, req, faults);
      var key := ObjectKey(table, req);
      forall k :: k in objects && k != key && k != SidecarKey(key) ==>
        k in o.objects && o.objects[k] == objects[k]
    ensures objects.Keys <= UploadSpec(objects, table, req, faults).objects.Keys
    ensures UploadSpec(objects, table, req, faults).objects.Keys <=
      objects.Keys + {ObjectKey(table, req), SidecarKey(ObjectKey(table, req))}
  {
  }

  /** An error raised before or at the primary write leaves the store as it was. */
  lemma EarlyErrorsWriteNothing(objects: Objects, table: Table, req: Request, faults: Faults)
    requires UploadSpec(objects, table, req, faults).response.UploadFailed?
          || UploadSpec(objects, table, req, faults).response.InvalidType?
          || UploadSpec(objects, table, req, faults).response.TooLarge?
    ensures UploadSpec(objects, table, req, faults).objects == objects
  {
  }

  // ---------------------------------------------------------------------
  // Properties of several calls and of the store

  /** Uploading the same owner and filename again, with a probe that answers,
      fails without a write: the store still holds the first payload. */
  lemma SecondUploadConflicts(objects: Objects, table: Table, first: Request, second: Request, faults: Faults)
    requires UploadSpec(objects, table, first, faults).response == Uploaded
    requires second.filename == first.filename && second.owner == first.owner
    requires |second.contents| <= MaxFileSize
    requires faults.probe == ProbeAnswers
    ensures var after := UploadSpec(objects, table, first, faults).objects;
      && UploadSpec(after, table, second, faults) == Outcome(UploadFailed(Conflict), after)
      && after[ObjectKey(table, first)] == Blob(first.contents)
  {
    SuccessWritesTwoKeys(objects, table, first, faults);
  }

  /** A well-formed store keeps payloads at ".csv" or ".pdf" keys only, and
      every metadata sidecar next to a payload: a sidecar is never present
      without its payload. */
  ghost predicate WellFormed(objects: Objects) {
    forall k :: k in objects ==>
      match objects[k]
      case Blob(_) => HasAllowedExtension(k)
      case MetadataJson(_) =>
        EndsWith(k, MetadataSuffix)
        && k[..|k| - |MetadataSuffix|] in objects
        && objects[k[..|k| - |MetadataSuffix|]].Blob?
  }

  /** The key keeps the extension checked on the raw filename, since the
      extension is made of allowed ASCII characters and survives sanitising. */
  lemma KeyHasExtension(table: Table, req: Request)
    requires HasAllowedExtension(req.filename)
    ensures HasAllowedExtension(ObjectKey(table, req))
  {
    var f := req.filename;
    var ext := f[|f| - 4..];
    var stem := f[..|f| - 4];
    assert f == stem + ext;
    assert AllAllowed(ext) by {
      if EndsWith(f, ".csv") { assert ext == ".csv"; } else { assert ext == ".pdf"; }
    }
    SanitizeKeepsSuffix(table, stem, ext);
    var prefix := req.owner + "/" + SanitizeFilename(table, stem);
    assert ObjectKey(table, req) == prefix + ext;
    AppendKeepsExtension(prefix, ext);
  }

  lemma AppendKeepsExtension(prefix: string, ext: string)
    requires ext == ".csv" || ext == ".pdf"
    ensures HasAllowedExtension(prefix + ext)
  {
    assert (prefix + ext)[|prefix + ext| - 4..] == ext;
  }

  /** The owner "acme" and the name "relatório março.csv" give the key
      "acme/relatorio_marco.csv". */
  lemma KeyExample(req: Request)
    requires req.owner == "acme" && req.filename == "relat\U{00F3}rio mar\U{00E7}o.csv"
    ensures ObjectKey(ExampleTable, req) == "acme/relatorio_marco.csv"
  {
    SanitizeFilenameExample(req.filename);
    KeySpelling(req.owner, SanitizeFilename(ExampleTable, req.filename));
  }

  lemma KeySpelling(owner: string, name: string)
    requires owner == "acme" && name == "relatorio_marco.csv"
    ensures owner + "/" + name == "acme/relatorio_marco.csv"
  {
  }

  /** Storing a payload at a ".csv" or ".pdf" key keeps the store well formed. */
  lemma PutBlobKeepsWellFormed(objects: Objects, key: string, data: seq<byte>)
    requires WellFormed(objects) && HasAllowedExtension(key)
    ensures WellFormed(objects[key := Blob(data)])
  {
    var stored := objects[key := Blob(data)];
    forall k | k in stored && stored[k].MetadataJson?
      ensures EndsWith(k, MetadataSuffix)
      ensures k[..|k| - |MetadataSuffix|] in stored
      ensures stored[k[..|k| - |MetadataSuffix|]].Blob?
    {
      assert k != key;
      assert objects[k].MetadataJson?;
    }
  }

  /** Storing the sidecar next to a stored payload keeps the store well formed. */
  lemma PutSidecarKeepsWellFormed(objects: Objects, key: string, owner: string)
    requires WellFormed(objects) && HasAllowedExtension(key)
    requires key in objects && objects[key].Blob?
    ensures WellFormed(objects[SidecarKey(key) := MetadataJson(owner)])
  {
    var side := SidecarKey(key);
    var stored := objects[side := MetadataJson(owner)];
    assert side[|side| - 4..] == "json";
    assert side[..|side| - |MetadataSuffix|] == key;
    assert side != key;
    forall k | k in stored
      ensures match stored[k]
        case Blob(_) => HasAllowedExtension(k)
        case MetadataJson(_) =>
          EndsWith(k, MetadataSuffix)
          && k[..|k| - |MetadataSuffix|] in stored
          && stored[k[..|k| - |MetadataSuffix|]].Blob?
    {
      if k != side {
        assert stored[k] == objects[k];
        if objects[k].MetadataJson? {
          var p := k[..|k| - |MetadataSuffix|];
          assert objects[p].Blob?;
          assert HasAllowedExtension(p);
          assert p != side;
        }
      }
    }
  }

  /** Every outcome of an upload, successful or not, keeps the store well formed. */
  lemma UploadKeepsWellFormed(objects: Objects, table: Table, req: Request, faults: Faults)
    requires WellFormed(objects)
    ensures WellFormed(UploadSpec(objects, table, req, faults).objects)
  {
    if Admissible(req) {
      var key := ObjectKey(table, req);
      KeyHasExtension(table, req);
      PutBlobKeepsWellFormed(objects, key, req.contents);
      PutSidecarKeepsWellFormed(objects[key := Blob(req.contents)], key, req.owner);
    }
  }

  // ---------------------------------------------------------------------
  // The handler, run against a store object

  class ObjectStore {
    var objects: Objects

    constructor (initial: Objects)
      ensures objects == initial
    {
      objects := initial;
    }

    /** `head_object`: reads the store and changes nothing. */
    method HeadObject(key: string, fault: ProbeFault) returns (r: HeadResult)
      ensures r == Found <==> fault == ProbeAnswers && key in objects
      ensures r == ClientError <==> fault == ProbeClientError || (fault == ProbeAnswers && key !in objects)
      ensures r.OtherError? <==> fault.ProbeRaises?
      ensures r.OtherError? ==> r.reason == fault.reason
    {
      r := Head(objects, key, fault);
    }

    /** `upload_fileobj`: the object is stored at the key unless the call raises. */
    method UploadFileobj(key: string, obj: StoredObject, fault: WriteFault) returns (ok: bool)
      modifies this
      ensures ok <==> fault == WriteSucceeds
      ensures objects == if ok then old(objects)[key := obj] else old(objects)
    {
      ok := fault == WriteSucceeds;
      if ok {
        objects := objects[key := obj];
      }
    }

    /** `upload_file`: the checks, the probe and the two writes, in order,
        each error ending the request. */
    method UploadFile(table: Table, req: Request, faults: Faults) returns (response: Response)
      modifies this
      ensures Outcome(response, objects) == UploadSpec(old(objects), table, req, faults)
      ensures WellFormed(old(objects)) ==> WellFormed(objects)
    {
      if WellFormed(objects) {
        UploadKeepsWellFormed(objects, table, req, faults);
      }
      if !HasAllowedExtension(req.filename) {
        return InvalidType;
      }
      if |req.contents| > MaxFileSize {
        return TooLarge;
      }
      var key := ObjectKey(table, req);
      var probe := HeadObject(key, faults.probe);
      match probe {
        case Found =>
          return UploadFailed(Conflict);
        case OtherError(reason) =>
          return UploadFailed(Fault(reason));
        case ClientError =>
          var ok := UploadFileobj(key, Blob(req.contents), faults.primary);
          if !ok {
            return UploadFailed(Fault(faults.primary.reason));
          }
      }
      var ok := UploadFileobj(SidecarKey(key), MetadataJson(req.owner), faults.sidecar);
      if !ok {
        return MetadataFailed(faults.sidecar.reason);
      }
      return Uploaded;
    }
  }
}
