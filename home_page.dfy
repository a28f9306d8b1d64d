/**
 * The home page's state (app/page.tsx): the recently identified movies
 * loaded once on mount, and the upload flow started when a file is chosen.
 */
module HomePage {
  import opened Wrappers
  import opened Text
  import Api

  /** How many recent movies the page asks for. */
  const RecentCount := 24

  const SelectVideo := "Please select a video file"
  const UploadingLarge := "Uploading large video..."
  const UploadingPlain := "Uploading video..."

  /** 25 MB: `file.size / (1024 * 1024) > 25` holds exactly for sizes above this. */
  const LargeFileBytes := 25 * 1024 * 1024

  /** The chosen file's name, MIME type and size in bytes. */
  datatype FileInfo = FileInfo(name: string, mimeType: string, size: nat)

  /** The message shown when an upload starts, chosen by the file's size. */
  function StartMessage(size: nat): (m: string)
    ensures m == UploadingLarge <==> (size as real) / (1024.0 * 1024.0) > 25.0
    ensures m == UploadingLarge || m == UploadingPlain
  {
    if size > LargeFileBytes then UploadingLarge else UploadingPlain
  }

  /** `movie.tmdb_id || movie.id`: the TMDB id unless it is 0. */
  function RouteId(m: Api.Movie): int {
    if m.tmdbId != 0 then m.tmdbId else m.id
  }

  /** The movie page a recognition navigates to, and that a recent-movie card links to. */
  function MoviePath(m: Api.Movie): (path: string)
    ensures StartsWith(path, "/movie/")
  {
    StartsWithAppend("/movie/", IntToDecimal(RouteId(m)));
    "/movie/" + IntToDecimal(RouteId(m))
  }

  /** Two movies lead to the same page exactly when their route ids agree. */
  lemma MoviePathIdentifies(a: Api.Movie, b: Api.Movie)
    ensures MoviePath(a) == MoviePath(b) <==> RouteId(a) == RouteId(b)
  {
    if MoviePath(a) == MoviePath(b) {
      assert MoviePath(a)[7..] == IntToDecimal(RouteId(a));
      assert MoviePath(b)[7..] == IntToDecimal(RouteId(b));
      IntToDecimalInjective(RouteId(a), RouteId(b));
    }
  }

  /** `err instanceof Error ? err.message : 'Failed to identify movie'`. */
  function ErrorText(t: Api.Thrown): (text: string)
    ensures t.ErrorObject? ==> text == t.message
    ensures t.NonError? ==> text == Api.FailedToIdentify
  {
    match t
    case ErrorObject(message) => message
    case NonError => Api.FailedToIdentify
  }

  /** `file.type.startsWith('video/')`. */
  predicate IsVideo(f: FileInfo) {
    StartsWith(f.mimeType, "video/")
  }

  class Home {
    var recentMovies: seq<Api.Movie>
    var loading: bool
    var isUploading: bool
    var uploadProgress: int
    var uploadMessage: string
    var error: Option<string>
    /** The file input's `value`. */
    var fileInputValue: string
    /** The last path handed to `router.push`, if any. */
    var route: Option<string>

    /** The state on first render; `inputValue` is whatever the file input holds. */
    constructor (inputValue: string)
      ensures recentMovies == [] && loading && !isUploading
      ensures uploadProgress == 0 && uploadMessage == "" && error == None
      ensures fileInputValue == inputValue && route == None
    {
      recentMovies := [];
      loading := true;
      isUploading := false;
      uploadProgress := 0;
      uploadMessage := "";
      error := None;
      fileInputValue := inputValue;
      route := None;
    }

    /**
     * The mount effect: the 24 most recent distinct movies, then `loading`
     * off. `getRecentlyIdentified` answers `[]` on failure rather than
     * throwing, so the effect's own catch is never reached.
     */
    method LoadRecent(answer: Api.StoreAnswer<seq<Api.UploadRow>>)
      modifies this
      ensures answer.StoreThrew? || answer.error.Some? ==> recentMovies == []
      ensures answer.Answer? && answer.error.None? ==>
        recentMovies == Api.UniqueMovies(Api.Take(answer.data.GetOr([]), RecentCount))
      ensures |recentMovies| <= RecentCount && Api.NoDuplicateIds(recentMovies)
      ensures !loading
      ensures isUploading == old(isUploading) && uploadProgress == old(uploadProgress)
      ensures uploadMessage == old(uploadMessage) && error == old(error)
      ensures fileInputValue == old(fileInputValue) && route == old(route)
    {
      var movies := Api.GetRecentlyIdentified(answer, RecentCount);
      recentMovies := movies;
      loading := false;
    }

    /** The synchronous start of an upload of an accepted file. */
    method StartUpload(file: FileInfo)
      modifies this
      ensures error == None && isUploading && uploadProgress == 0
      ensures uploadMessage == StartMessage(file.size)
      ensures recentMovies == old(recentMovies) && loading == old(loading)
      ensures fileInputValue == old(fileInputValue) && route == old(route)
    {
      error := None;
      isUploading := true;
      uploadProgress := 0;
      uploadMessage := StartMessage(file.size);
    }

    /** The progress callback passed to `recognizeVideo`. */
    method OnProgress(e: Api.ProgressEvent)
      modifies this
      ensures uploadProgress == e.percent && uploadMessage == e.message
      ensures error == old(error) && isUploading == old(isUploading)
      ensures recentMovies == old(recentMovies) && loading == old(loading)
      ensures fileInputValue == old(fileInputValue) && route == old(route)
    {
      uploadProgress := e.percent;
      uploadMessage := e.message;
    }

    /** Navigate on success; show the error and stop uploading on failure. */
    method Finish(outcome: Api.Outcome)
      requires outcome.Recognized? ==> outcome.result.movie.Some?
      modifies this
      ensures outcome.Recognized? ==>
        route == Some(MoviePath(outcome.result.movie.value)) && error == old(error) && isUploading == old(isUploading)
      ensures outcome.Rejected? ==>
        route == old(route) && error == Some(ErrorText(outcome.thrown)) && !isUploading
      ensures uploadProgress == old(uploadProgress) && uploadMessage == old(uploadMessage)
      ensures recentMovies == old(recentMovies) && loading == old(loading)
      ensures fileInputValue == old(fileInputValue)
    {
      match outcome
      case Recognized(result) =>
        route := Some(MoviePath(result.movie.value));
      case Rejected(thrown) =>
        error := Some(ErrorText(thrown));
        isUploading := false;
    }

    /**
     * `handleFileChange` for the chosen `files`, where `response` is what the
     * recognition request gives. No file: nothing changes. A file that is not
     * a video: only the error is set. A video: the upload starts, each
     * progress event is shown in turn, then the page navigates (staying in
     * the uploading state) or shows the error, and the input is cleared.
     */
    method HandleFileChange(files: seq<FileInfo>, response: Api.Response<Api.RecognitionResult>)
      modifies this
      ensures recentMovies == old(recentMovies) && loading == old(loading)
      ensures files == [] ==>
        isUploading == old(isUploading) && uploadProgress == old(uploadProgress) &&
        uploadMessage == old(uploadMessage) && error == old(error) &&
        fileInputValue == old(fileInputValue) && route == old(route)
      ensures files != [] && !IsVideo(files[0]) ==>
        error == Some(SelectVideo) &&
        isUploading == old(isUploading) && uploadProgress == old(uploadProgress) &&
        uploadMessage == old(uploadMessage) && fileInputValue == old(fileInputValue) && route == old(route)
      ensures files != [] && IsVideo(files[0]) ==>
        var s := Api.RecognizeVideo(true, response);
        var last := s.progress[|s.progress| - 1];
        fileInputValue == "" &&
        uploadProgress == last.percent && uploadMessage == last.message &&
        (s.outcome.Recognized? ==>
          route == Some(MoviePath(s.outcome.result.movie.value)) && isUploading && error == None) &&
        (s.outcome.Rejected? ==>
          route == old(route) && !isUploading && error == Some(ErrorText(s.outcome.thrown)))
    {
      if |files| == 0 {
        return;
      }
      var file := files[0];
      if !StartsWith(file.mimeType, "video/") {
        error := Some(SelectVideo);
        return;
      }
      StartUpload(file);
      var s := Api.RecognizeVideo(true, response);
      for i := 0 to |s.progress|
        invariant i > 0 ==> uploadProgress == s.progress[i - 1].percent && uploadMessage == s.progress[i - 1].message
        invariant error == None && isUploading
        invariant recentMovies == old(recentMovies) && loading == old(loading)
        invariant fileInputValue == old(fileInputValue) && route == old(route)
      {
        OnProgress(s.progress[i]);
      }
      Finish(s.outcome);
      fileInputValue := "";
    }
  }

  /**
   * After a video upload the message shown is the last progress message of
   * the recognition, never the size-dependent one set when it started: the
   * first callback already replaces it.
   */
  lemma StartMessageReplaced(response: Api.Response<Api.RecognitionResult>)
    ensures var s := Api.RecognizeVideo(true, response);
      s.progress[|s.progress| - 1].message != UploadingLarge &&
      s.progress[0] == Api.Uploading
  {
  }

  /** A successful upload ends with the bar at 100 and "Movie identified!". */
  lemma RecognizedEndsAtFull(response: Api.Response<Api.RecognitionResult>)
    requires Api.RecognizeVideo(true, response).outcome.Recognized?
    ensures var s := Api.RecognizeVideo(true, response);
      s.progress[|s.progress| - 1] == Api.Identified
  {
  }
}
