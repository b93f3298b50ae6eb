/** Storage of intermediate and final results of granular processing:
    object-key construction and parsing, the "bucket/key" locations the
    service hands back, moving a result to its final place, and the two
    clean-up loops.

    The service writes and deletes through the store's direct (bucket,
    key) operations. Its clock reading is the `timestamp` parameter, text
    already formatted as yyyyMMdd-HHmmss. */
module IntermediateStorage {
  import opened Wrappers
  import opened JavaText
  import opened S3Storage
  import opened Sorting

  const DefaultIntermediateBucket: string := "intermediate-data"
  const DefaultProcessedBucket: string := "processed-data"
  const UnknownFilename: string := "unknown.fits"

  /** The "bucket/key" location text the service reports for an object. */
  function Location(bucket: string, key: string): string {
    bucket + "/" + key
  }

  /** A file name as `extractFilename` accepts it unchanged: no '/', and a
      ".fits" ending in any letter case. */
  predicate IsFitsName(name: string) {
    '/' !in name && EndsWith(ToLower(name), ".fits")
  }

  /** `extractFilename`: "unknown.fits" for a missing or blank path;
      otherwise the last '/'-separated piece, with ".fits" appended unless
      it already ends so. A path made of '/' only splits into nothing, and
      reading the last piece of nothing throws. */
  function ExtractFilename(path: Option<string>): (r: Result<string>)
    ensures path.None? || Trim(path.value) == "" ==> r == Success(UnknownFilename)
    ensures r.Success? ==> IsFitsName(r.value)
    ensures r.Success? && path.Some? && Trim(path.value) != "" ==>
      var parts := Split(path.value, '/');
      |parts| > 0 && (r.value == parts[|parts| - 1] || r.value == parts[|parts| - 1] + ".fits")
  {
    if path.None? || Trim(path.value) == "" then
      assert IsFitsName(UnknownFilename) by { assert ToLower(UnknownFilename) == UnknownFilename; }
      Success(UnknownFilename)
    else
      var parts := Split(path.value, '/');
      if |parts| == 0 then Failure("ArrayIndexOutOfBoundsException")
      else
        var name := parts[|parts| - 1];
        if EndsWith(ToLower(name), ".fits") then Success(name)
        else
          FitsSuffixLower(name);
          Success(name + ".fits")
  }

  /** The only paths `extractFilename` fails on are non-blank paths made
      of '/' alone. */
  lemma ExtractFilenameFails(path: Option<string>)
    ensures ExtractFilename(path).Failure? <==> path.Some? && Trim(path.value) != "" && AllSlashes(path.value)
  {
    if path.Some? && Trim(path.value) != "" {
      SplitNothingIffAllSlashes(path.value);
    }
  }

  predicate AllSlashes(s: string) {
    forall k :: 0 <= k < |s| ==> s[k] == '/'
  }

  lemma FitsSuffixLower(name: string)
    ensures EndsWith(ToLower(name + ".fits"), ".fits")
  {
    var t := ToLower(name + ".fits");
    assert t[|t| - 5..] == ".fits";
  }

  /** A non-empty string splits into no pieces exactly when it consists of
      separators only. */
  lemma SplitNothingIffAllSlashes(s: string)
    requires |s| > 0
    ensures Split(s, '/') == [] <==> AllSlashes(s)
  {
    var all := SplitAll(s, '/');
    if Split(s, '/') == [] {
      assert '/' in s;
      assert forall k :: 0 <= k < |all| ==> all[k] == "";
      JoinOfEmptyPieces(all);
    }
    if AllSlashes(s) {
      assert s[0] == '/';
      forall k | 0 <= k < |all|
        ensures all[k] == ""
      {
        PieceCharsOccur(all, k);
        assert |all[k]| == 0 || all[k][0] in all[k];
      }
    }
  }

  lemma {:induction false} JoinOfEmptyPieces(parts: seq<string>)
    requires forall k :: 0 <= k < |parts| ==> parts[k] == ""
    ensures AllSlashes(Join(parts, '/'))
    decreases |parts|
  {
    if |parts| > 1 {
      JoinOfEmptyPieces(parts[1..]);
    }
  }

  lemma {:induction false} PieceCharsOccur(parts: seq<string>, k: nat)
    requires k < |parts|
    ensures forall c :: c in parts[k] ==> c in Join(parts, '/')
    decreases |parts|
  {
    if k > 0 {
      PieceCharsOccur(parts[1..], k - 1);
    }
  }

  /** A FITS file name is given back unchanged. Every name `extractFilename`
      produces is one, so extracting again changes nothing. */
  lemma FitsNamesAreKept(name: string)
    requires IsFitsName(name)
    ensures ExtractFilename(Some(name)) == Success(name)
  {
    var t := ToLower(name);
    assert t[|t| - 5..] == ".fits";
    assert t[|t| - 4] == 'f';
    assert !IsTrimmable(name[|name| - 4]);
  }

  // ---------------------------------------------------------------------
  // Keys

  /** `customPath` trimmed, with a '/' added unless it already ends so. */
  function DirectoryPrefix(customPath: string): (d: string)
    ensures EndsWith(d, "/")
    ensures d == Trim(customPath) || d == Trim(customPath) + "/"
  {
    var c := Trim(customPath);
    if EndsWith(c, "/") then c else c + "/"
  }

  /** The standard key sessions/{session}/{step}/{timestamp}/{file}. */
  function StandardKey(sessionId: string, stepType: string, timestamp: string, filename: string): string {
    "sessions/" + sessionId + "/" + stepType + "/" + timestamp + "/" + filename
  }

  /** `buildIntermediateKey`: under a non-blank custom path, the trimmed
      path as a directory plus the file name; otherwise the standard key. */
  function BuildIntermediateKey(sessionId: string, stepType: string, originalImagePath: Option<string>,
                                customOutputPath: Option<string>, timestamp: string): (r: Result<string>)
    ensures r.Success? <==> ExtractFilename(originalImagePath).Success?
    ensures r.Success? && customOutputPath.Some? && Trim(customOutputPath.value) != "" ==>
      r.value == DirectoryPrefix(customOutputPath.value) + ExtractFilename(originalImagePath).value
    ensures r.Success? && (customOutputPath.None? || Trim(customOutputPath.value) == "") ==>
      r.value == StandardKey(sessionId, stepType, timestamp, ExtractFilename(originalImagePath).value)
  {
    var filename :- ExtractFilename(originalImagePath);
    if customOutputPath.Some? && Trim(customOutputPath.value) != "" then
      Success(DirectoryPrefix(customOutputPath.value) + filename)
    else
      Success(StandardKey(sessionId, stepType, timestamp, filename))
  }

  /** A standard key is the five segments joined with '/'. */
  lemma StandardKeyIsJoin(sessionId: string, stepType: string, timestamp: string, filename: string)
    ensures StandardKey(sessionId, stepType, timestamp, filename) ==
      Join(["sessions", sessionId, stepType, timestamp, filename], '/')
  {
    var parts := ["sessions", sessionId, stepType, timestamp, filename];
    assert parts[1..] == [sessionId, stepType, timestamp, filename];
    assert parts[1..][1..] == [stepType, timestamp, filename];
    assert parts[1..][1..][1..] == [timestamp, filename];
    assert parts[1..][1..][1..][1..] == [filename];
    calc {
      Join(parts, '/');
      "sessions" + "/" + Join([sessionId, stepType, timestamp, filename], '/');
      "sessions" + "/" + (sessionId + "/" + Join([stepType, timestamp, filename], '/'));
      "sessions" + "/" + (sessionId + "/" + (stepType + "/" + Join([timestamp, filename], '/')));
      "sessions" + "/" + (sessionId + "/" + (stepType + "/" + (timestamp + "/" + filename)));
    }
  }

  datatype FileInfo = FileInfo(key: string, sessionId: string, stepType: string, filename: string,
                               timestamp: string, fullPath: string, finalResult: bool)

  /** `parseIntermediateFileInfo`: a key is understood only when it has at
      least four segments, starting with "sessions" and the session id; the
      file name is the last segment of a longer key and the timestamp
      segment otherwise. */
  function ParseIntermediateFileInfo(key: string, sessionId: string): (r: Option<FileInfo>)
    ensures var parts := Split(key, '/');
      r.Some? <==> |parts| >= 4 && parts[0] == "sessions" && parts[1] == sessionId
    ensures r.Some? ==> (r.value.key == key && r.value.sessionId == sessionId &&
      r.value.stepType == Split(key, '/')[2] && r.value.fullPath == Location(DefaultIntermediateBucket, key))
    ensures r.Some? ==> (r.value.finalResult <==> r.value.stepType == "final" || Contains(key, "final"))
  {
    var parts := Split(key, '/');
    if |parts| < 4 || parts[0] != "sessions" || parts[1] != sessionId then None
    else
      var filename := if |parts| > 4 then parts[|parts| - 1] else parts[3];
      Some(FileInfo(key, sessionId, parts[2], filename, parts[3], Location(DefaultIntermediateBucket, key),
                    parts[2] == "final" || Contains(key, "final")))
  }

  /** A standard key parses back into the step, timestamp and file it was
      built from, for the session it was built for. */
  lemma {:induction false} StandardKeyRoundTrip(sessionId: string, stepType: string, timestamp: string, filename: string)
    requires '/' !in sessionId && '/' !in stepType && '/' !in timestamp
    requires IsFitsName(filename)
    ensures var key := StandardKey(sessionId, stepType, timestamp, filename);
      var info := ParseIntermediateFileInfo(key, sessionId);
      info.Some? && info.value.stepType == stepType && info.value.timestamp == timestamp &&
      info.value.filename == filename
  {
    var parts := ["sessions", sessionId, stepType, timestamp, filename];
    var key := StandardKey(sessionId, stepType, timestamp, filename);
    StandardKeyIsJoin(sessionId, stepType, timestamp, filename);
    assert forall k :: 0 <= k < |parts| ==> '/' !in parts[k];
    SplitAllJoin(parts, '/');
    assert |filename| >= 5;
    SplitKeepsNonEmptyTail(key, '/');
    assert Split(key, '/') == parts;
  }

  // ---------------------------------------------------------------------
  // Storing and moving results

  /** `storeIntermediateResult`: the data goes to the requested or the
      default intermediate bucket under the built key, and the location
      "bucket/key" is returned. Every failure becomes one message. */
  function StoreIntermediateResult(s3: S3, sessionId: string, stepType: string, originalImagePath: Option<string>,
                                   data: Data, outputBucket: Option<string>, customOutputPath: Option<string>,
                                   timestamp: string): (r: Result<(S3, string)>)
    ensures var bucket := outputBucket.GetOr(DefaultIntermediateBucket);
      var key := BuildIntermediateKey(sessionId, stepType, originalImagePath, customOutputPath, timestamp);
      (r.Success? <==> key.Success? && bucket !in s3.failing) &&
      (r.Success? ==> r.value == (s3.(objects := s3.objects[(bucket, key.value) := data]), Location(bucket, key.value)))
    ensures r.Failure? ==> r.error == "Failed to store intermediate result"
  {
    var bucket := outputBucket.GetOr(DefaultIntermediateBucket);
    match BuildIntermediateKey(sessionId, stepType, originalImagePath, customOutputPath, timestamp)
    case Failure(_) => Failure("Failed to store intermediate result")
    case Success(key) =>
      match StoreData(s3, bucket, key, data)
      case Failure(_) => Failure("Failed to store intermediate result")
      case Success((stored, _)) => Success((stored, Location(bucket, key)))
  }

  /** Reading a "bucket/key" location: the text before the first '/' is the
      bucket, the rest the key. This is the reading the service's own
      locations need; see `MoveFinalResult` and the custom workflow. */
  function ReadLocation(s3: S3, location: string): (r: Result<Data>)
    ensures var parts := SplitOnce(location, '/');
      (r.Success? <==> |parts| == 2 && RetrieveData(s3, parts[0], parts[1]).Success?) &&
      (r.Success? ==> r.value == s3.objects[(parts[0], parts[1])])
    ensures r.Failure? ==> r.error == "Failed to download file from S3"
  {
    var parts := SplitOnce(location, '/');
    if |parts| < 2 then Failure("Failed to download file from S3")
    else
      match RetrieveData(s3, parts[0], parts[1])
      case Failure(_) => Failure("Failed to download file from S3")
      case Success(data) => Success(data)
  }

  /** A location written by the service reads back as what was written,
      whenever the bucket name has no '/'. */
  lemma ReadWhatWasStored(s3: S3, bucket: string, key: string, data: Data)
    requires '/' !in bucket && bucket !in s3.failing
    ensures ReadLocation(s3.(objects := s3.objects[(bucket, key) := data]), Location(bucket, key)) == Success(data)
  {
    LocationSplits(bucket, key);
  }

  lemma LocationSplits(bucket: string, key: string)
    requires '/' !in bucket
    ensures SplitOnce(Location(bucket, key), '/') == [bucket, key]
  {
    var loc := Location(bucket, key);
    assert loc[|bucket|] == '/' && loc[..|bucket|] == bucket;
    IndexOfFirst(loc, '/', |bucket|);
    assert loc[|bucket| + 1..] == key;
  }

  /** `downloadFile`, which wants "s3://", cannot read a location of the
      service's own: bucket names have no ':' in them. */
  lemma DownloadRejectsLocations(s3: S3, bucket: string, key: string)
    requires ':' !in bucket
    ensures DownloadFile(s3, Location(bucket, key)) == Failure("Failed to download file from S3")
  {
    var loc := Location(bucket, key);
    assert |bucket| >= 3 ==> loc[2] == bucket[2];
    assert |bucket| < 3 ==> loc[|bucket|] == '/';
  }

  /** The final key: a key ending in ".fits" is kept; otherwise it is a
      directory, and the source key's file name goes after exactly one
      '/'. */
  function FinalKey(requested: string, sourceKey: string): (r: Result<string>)
    ensures EndsWith(requested, ".fits") ==> r == Success(requested)
    ensures r.Failure? <==> !EndsWith(requested, ".fits") && ExtractFilename(Some(sourceKey)).Failure?
    ensures r.Success? && !EndsWith(requested, ".fits") ==>
      var name := ExtractFilename(Some(sourceKey)).value;
      (EndsWith(requested, "/") ==> r.value == requested + name) &&
      (!EndsWith(requested, "/") ==> r.value == requested + "/" + name)
  {
    if EndsWith(requested, ".fits") then Success(requested)
    else
      var name :- ExtractFilename(Some(sourceKey));
      if EndsWith(requested, "/") then Success(requested + name) else Success(requested + "/" + name)
  }

  /** A final key always names a file: it ends in ".fits", lower or upper
      case, and never has an empty last segment. */
  lemma FinalKeyNamesFile(requested: string, sourceKey: string)
    requires FinalKey(requested, sourceKey).Success?
    ensures EndsWith(ToLower(FinalKey(requested, sourceKey).value), ".fits")
  {
    var r := FinalKey(requested, sourceKey).value;
    if EndsWith(requested, ".fits") {
      var t := ToLower(r);
      assert t[|t| - 5..] == r[|r| - 5..];
    } else {
      var name := ExtractFilename(Some(sourceKey)).value;
      var t := ToLower(r);
      assert r[|r| - |name|..] == name;
      assert t[|t| - 5..] == ToLower(name)[|name| - 5..];
    }
  }

  /** `moveFinalResult` with the way the source location is read left
      open: split "bucket/key" at the first '/', read the source, build the
      final key from the requested path or the source key, and write to
      the requested or the default processed bucket. Every failure becomes
      one message. */
  function MoveFinalResultWith(s3: S3, read: (S3, string) -> Result<Data>, intermediatePath: string,
                               finalBucket: Option<string>, finalPath: Option<string>): (r: Result<(S3, string)>)
    ensures r.Failure? ==> r.error == "Failed to move final result"
    ensures r.Success? <==> (|SplitOnce(intermediatePath, '/')| == 2 && read(s3, intermediatePath).Success? &&
      FinalKey(finalPath.GetOr(SplitOnce(intermediatePath, '/')[1]), SplitOnce(intermediatePath, '/')[1]).Success? &&
      finalBucket.GetOr(DefaultProcessedBucket) !in s3.failing)
    ensures r.Success? ==>
      var target := finalBucket.GetOr(DefaultProcessedBucket);
      var sourceKey := SplitOnce(intermediatePath, '/')[1];
      var key := FinalKey(finalPath.GetOr(sourceKey), sourceKey).value;
      r.value == (s3.(objects := s3.objects[(target, key) := read(s3, intermediatePath).value]), Location(target, key))
  {
    var parts := SplitOnce(intermediatePath, '/');
    if |parts| < 2 then Failure("Failed to move final result")
    else
      var sourceKey := parts[1];
      match read(s3, intermediatePath)
      case Failure(_) => Failure("Failed to move final result")
      case Success(data) =>
        match FinalKey(finalPath.GetOr(sourceKey), sourceKey)
        case Failure(_) => Failure("Failed to move final result")
        case Success(key) =>
          var target := finalBucket.GetOr(DefaultProcessedBucket);
          match StoreData(s3, target, key, data)
          case Failure(_) => Failure("Failed to move final result")
          case Success((stored, _)) => Success((stored, Location(target, key)))
  }

  /** `moveFinalResult` as written: the source is read with
      `downloadFile`. */
  function MoveFinalResultAsWritten(s3: S3, intermediatePath: string, finalBucket: Option<string>,
                                    finalPath: Option<string>): (r: Result<(S3, string)>)
    ensures !StartsWith(intermediatePath, Scheme) ==> r == Failure("Failed to move final result")
  {
    MoveFinalResultWith(s3, DownloadFile, intermediatePath, finalBucket, finalPath)
  }

  /** No location the service itself reported can be moved as written. */
  lemma MoveAsWrittenRejectsLocations(s3: S3, bucket: string, key: string, finalBucket: Option<string>,
                                      finalPath: Option<string>)
    requires ':' !in bucket
    ensures MoveFinalResultAsWritten(s3, Location(bucket, key), finalBucket, finalPath).Failure?
  {
    DownloadRejectsLocations(s3, bucket, key);
  }

  /** `moveFinalResult` reading its "bucket/key" argument as the location
      it is: an object the service stored moves to its final place. */
  function MoveFinalResult(s3: S3, intermediatePath: string, finalBucket: Option<string>,
                           finalPath: Option<string>): (r: Result<(S3, string)>)
    ensures r.Success? ==> ReadLocation(s3, intermediatePath).Success?
  {
    MoveFinalResultWith(s3, ReadLocation, intermediatePath, finalBucket, finalPath)
  }

  /** Moving a stored object to a ".fits" key in a working bucket succeeds
      and copies exactly the stored data there. */
  lemma MoveStoredResult(s3: S3, bucket: string, key: string, data: Data, finalBucket: string, finalPath: string)
    requires '/' !in bucket && bucket !in s3.failing && finalBucket !in s3.failing
    requires EndsWith(finalPath, ".fits")
    ensures var stored := s3.(objects := s3.objects[(bucket, key) := data]);
      var moved := MoveFinalResult(stored, Location(bucket, key), Some(finalBucket), Some(finalPath));
      moved.Success? && moved.value.1 == Location(finalBucket, finalPath) &&
      moved.value.0.objects[(finalBucket, finalPath)] == data
  {
    ReadWhatWasStored(s3, bucket, key, data);
    LocationSplits(bucket, key);
  }

  // ---------------------------------------------------------------------
  // Clean-up

  /** The object a listed location names, when it can be deleted: a
      location without '/' throws, and a failing bucket refuses. */
  predicate DeletesObject(location: string, failing: set<string>, o: (string, string)) {
    var parts := SplitOnce(location, '/');
    |parts| == 2 && parts[0] !in failing && o == (parts[0], parts[1])
  }

  /** Some location of `files` deletes `o`. */
  predicate DeletedBy(files: seq<string>, failing: set<string>, o: (string, string)) {
    exists i :: 0 <= i < |files| && DeletesObject(files[i], failing, o)
  }

  lemma DeletedByCons(files: seq<string>, failing: set<string>, o: (string, string))
    requires |files| > 0
    ensures DeletedBy(files, failing, o) <==> DeletesObject(files[0], failing, o) || DeletedBy(files[1..], failing, o)
  {
    if DeletedBy(files, failing, o) && !DeletesObject(files[0], failing, o) {
      var i :| 0 <= i < |files| && DeletesObject(files[i], failing, o);
      assert files[1..][i - 1] == files[i];
    }
    if DeletedBy(files[1..], failing, o) {
      var i :| 0 <= i < |files[1..]| && DeletesObject(files[1..][i], failing, o);
      assert files[i + 1] == files[1..][i];
    }
  }

  /** `cleanupIntermediateFiles`: each location is deleted on its own, and
      one failing delete does not stop the others; a missing or empty list
      does nothing. */
  function CleanupIntermediateFiles(s3: S3, files: Option<seq<string>>): (r: S3)
    ensures files.None? || files.value == [] ==> r == s3
    ensures r.failing == s3.failing
    ensures files.Some? ==> forall o :: o in r.objects <==>
      o in s3.objects && !DeletedBy(files.value, s3.failing, o)
    ensures forall o :: o in r.objects ==> r.objects[o] == s3.objects[o]
  {
    if files.None? then s3 else DeleteEach(s3, files.value)
  }

  function DeleteEach(s3: S3, files: seq<string>): (r: S3)
    ensures r.failing == s3.failing
    ensures forall o :: o in r.objects <==>
      o in s3.objects && !DeletedBy(files, s3.failing, o)
    ensures forall o :: o in r.objects ==> r.objects[o] == s3.objects[o]
    decreases |files|
  {
    if |files| == 0 then s3
    else
      var parts := SplitOnce(files[0], '/');
      var next := if |parts| == 2 && DeleteObject(s3, parts[0], parts[1]).Success?
                  then DeleteObject(s3, parts[0], parts[1]).value else s3;
      var r := DeleteEach(next, files[1..]);
      forall o
        ensures DeletedBy(files, s3.failing, o) <==> DeletesObject(files[0], s3.failing, o) || DeletedBy(files[1..], s3.failing, o)
      {
        DeletedByCons(files, s3.failing, o);
      }
      r
  }

  /** The sort key of a listed file: its time, read from the timestamp
      segment by `instant` (yyyyMMdd-HHmmss). */
  function TimeKey(instant: string -> Option<real>): FileInfo -> real {
    (info: FileInfo) => instant(info.timestamp).GetOr(0.0)
  }

  /** A listed file whose timestamp segment does not parse: its time is
      null. */
  predicate Untimed(infos: seq<FileInfo>, instant: string -> Option<real>) {
    exists i :: 0 <= i < |infos| && instant(infos[i].timestamp).None?
  }

  /** `listIntermediateResults` over the keys the store lists under
      "sessions/{session}/" in the intermediate bucket: the keys that parse,
      ordered by time. `instant` stands for the timestamp parse and gives
      None where it fails; the sort compares the times and throws on a
      null one as soon as there are two entries to compare. */
  function ListIntermediateResults(s3: S3, sessionId: string, listing: seq<string>,
                                   instant: string -> Option<real>): (r: Result<seq<FileInfo>>)
    ensures var parsed := ParsedKeys(listing, sessionId);
      r.Failure? <==> DefaultIntermediateBucket in s3.failing || (|parsed| >= 2 && Untimed(parsed, instant))
    ensures r.Failure? ==> r.error == "Failed to list intermediate results"
    ensures r.Success? ==> forall i :: 0 <= i < |r.value| ==>
      r.value[i].key in listing && ParseIntermediateFileInfo(r.value[i].key, sessionId) == Some(r.value[i])
    ensures r.Success? ==> forall k :: k in listing && ParseIntermediateFileInfo(k, sessionId).Some? ==>
      ParseIntermediateFileInfo(k, sessionId).value in r.value
    ensures r.Success? ==> SortedBy(r.value, TimeKey(instant))
    ensures r.Success? ==> multiset(r.value) == multiset(ParsedKeys(listing, sessionId))
  {
    var parsed := ParsedKeys(listing, sessionId);
    if DefaultIntermediateBucket in s3.failing || (|parsed| >= 2 && Untimed(parsed, instant)) then
      Failure("Failed to list intermediate results")
    else
      var sorted := SortBy(parsed, TimeKey(instant));
      ReorderedListing(listing, sessionId, sorted);
      Success(sorted)
  }

  /** A reordering of the parsed keys keeps what is known of each entry. */
  lemma ReorderedListing(listing: seq<string>, sessionId: string, sorted: seq<FileInfo>)
    requires multiset(sorted) == multiset(ParsedKeys(listing, sessionId))
    ensures forall i :: 0 <= i < |sorted| ==>
      sorted[i].key in listing && ParseIntermediateFileInfo(sorted[i].key, sessionId) == Some(sorted[i])
    ensures forall k :: k in listing && ParseIntermediateFileInfo(k, sessionId).Some? ==>
      ParseIntermediateFileInfo(k, sessionId).value in sorted
  {
    var parsed := ParsedKeys(listing, sessionId);
    SameElements(sorted, parsed);
    forall i | 0 <= i < |sorted|
      ensures sorted[i].key in listing && ParseIntermediateFileInfo(sorted[i].key, sessionId) == Some(sorted[i])
    {
      assert sorted[i] in parsed;
      var j :| 0 <= j < |parsed| && parsed[j] == sorted[i];
    }
  }

  lemma SameElements<T>(a: seq<T>, b: seq<T>)
    requires multiset(a) == multiset(b)
    ensures forall x :: x in a <==> x in b
  {
    forall x
      ensures x in a <==> x in b
    {
      assert x in a <==> x in multiset(a);
      assert x in b <==> x in multiset(b);
    }
  }

  /** Two session files with no readable time cannot be listed. */
  lemma UntimedFilesFailListing(s3: S3)
    requires DefaultIntermediateBucket !in s3.failing
    ensures ListIntermediateResults(s3, "s1", [StandardKey("s1", "calibrate", "latest", "a.fits"),
                                               StandardKey("s1", "calibrate", "latest", "b.fits")], _ => None).Failure?
  {
    var listing := [StandardKey("s1", "calibrate", "latest", "a.fits"), StandardKey("s1", "calibrate", "latest", "b.fits")];
    FitsSuffixLower("a");
    FitsSuffixLower("b");
    assert "a" + ".fits" == "a.fits" && "b" + ".fits" == "b.fits";
    StandardKeyRoundTrip("s1", "calibrate", "latest", "a.fits");
    StandardKeyRoundTrip("s1", "calibrate", "latest", "b.fits");
    assert listing[1..] == [listing[1]];
    var parsed := ParsedKeys(listing, "s1");
    assert |parsed| == 2;
    assert parsed[0].timestamp == "latest";
  }

  function ParsedKeys(keys: seq<string>, sessionId: string): (r: seq<FileInfo>)
    ensures forall i :: 0 <= i < |r| ==>
      r[i].key in keys && ParseIntermediateFileInfo(r[i].key, sessionId) == Some(r[i])
    ensures forall k :: k in keys && ParseIntermediateFileInfo(k, sessionId).Some? ==>
      ParseIntermediateFileInfo(k, sessionId).value in r
  {
    if |keys| == 0 then []
    else
      var rest := ParsedKeys(keys[1..], sessionId);
      match ParseIntermediateFileInfo(keys[0], sessionId)
      case None => rest
      case Some(info) => [info] + rest
  }

  /** Whether `cleanupSessionFiles` deletes a listed file. */
  predicate DeletedInSession(info: FileInfo, keepFinalResult: bool) {
    !(keepFinalResult && info.finalResult)
  }

  /** `cleanupSessionFiles`: deletes the listed session files from the
      intermediate bucket, keeping final results when asked; a failure to
      list leaves everything in place. */
  function CleanupSessionFiles(s3: S3, sessionId: string, keepFinalResult: bool, listing: seq<string>,
                               instant: string -> Option<real>): (r: S3)
    ensures ListIntermediateResults(s3, sessionId, listing, instant).Failure? ==> r == s3
    ensures r.failing == s3.failing
    ensures forall o :: o in r.objects ==> o in s3.objects && r.objects[o] == s3.objects[o]
    ensures forall o :: o in s3.objects && o.0 != DefaultIntermediateBucket ==> o in r.objects
    ensures forall o :: o in s3.objects && o !in r.objects ==>
      o.0 == DefaultIntermediateBucket && o.1 in listing &&
      ParseIntermediateFileInfo(o.1, sessionId).Some? &&
      DeletedInSession(ParseIntermediateFileInfo(o.1, sessionId).value, keepFinalResult)
  {
    match ListIntermediateResults(s3, sessionId, listing, instant)
    case Failure(_) => s3
    case Success(infos) => DeleteListed(s3, sessionId, infos, keepFinalResult)
  }

  function DeleteListed(s3: S3, sessionId: string, infos: seq<FileInfo>, keepFinalResult: bool): (r: S3)
    requires forall i :: 0 <= i < |infos| ==> ParseIntermediateFileInfo(infos[i].key, sessionId) == Some(infos[i])
    ensures r.failing == s3.failing
    ensures forall o :: o in r.objects ==> o in s3.objects && r.objects[o] == s3.objects[o]
    ensures forall o :: o in s3.objects && o !in r.objects ==>
      o.0 == DefaultIntermediateBucket &&
      exists i :: 0 <= i < |infos| && infos[i].key == o.1 && DeletedInSession(infos[i], keepFinalResult)
    decreases |infos|
  {
    if |infos| == 0 then s3
    else
      var info := infos[0];
      var next := if DeletedInSession(info, keepFinalResult) && DeleteObject(s3, DefaultIntermediateBucket, info.key).Success?
                  then DeleteObject(s3, DefaultIntermediateBucket, info.key).value else s3;
      var r := DeleteListed(next, sessionId, infos[1..], keepFinalResult);
      assert forall o :: o in s3.objects && o !in r.objects ==>
        o.0 == DefaultIntermediateBucket &&
        exists i :: 0 <= i < |infos| && infos[i].key == o.1 && DeletedInSession(infos[i], keepFinalResult) by {
        forall o | o in s3.objects && o !in r.objects
          ensures o.0 == DefaultIntermediateBucket &&
            exists i :: 0 <= i < |infos| && infos[i].key == o.1 && DeletedInSession(infos[i], keepFinalResult)
        {
          if o in next.objects {
            var i :| 0 <= i < |infos[1..]| && infos[1..][i].key == o.1 && DeletedInSession(infos[1..][i], keepFinalResult);
            assert infos[i + 1] == infos[1..][i];
          } else {
            assert infos[0].key == o.1;
          }
        }
      }
      r
  }

  /** With keepFinalResult set, no final result of the session is deleted. */
  lemma KeepFinalKeepsFinalResults(s3: S3, sessionId: string, listing: seq<string>,
                                   instant: string -> Option<real>, key: string)
    requires (DefaultIntermediateBucket, key) in s3.objects
    requires ParseIntermediateFileInfo(key, sessionId).Some? && ParseIntermediateFileInfo(key, sessionId).value.finalResult
    ensures (DefaultIntermediateBucket, key) in CleanupSessionFiles(s3, sessionId, true, listing, instant).objects
  {
  }
}
