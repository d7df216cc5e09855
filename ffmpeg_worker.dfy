/**
 * lib/config/ffmpeg-worker.ts: the one FFmpeg instance of the page, created
 * and loaded on first use, dropped when its load fails and on dispose. The
 * load itself (fetching the core script and the WebAssembly module) is
 * given as its outcome.
 */
module FFmpegWorker {
  import opened Wrappers

  /** An FFmpeg instance; `loaded` turns true once its core has loaded. */
  class FFmpeg {
    var loaded: bool

    constructor()
      ensures !loaded
    {
      loaded := false;
    }

    /** `load`: succeeds unless `failure` names the error it rejects with. */
    method Load(failure: Option<JsError>) returns (r: Result<(), JsError>)
      modifies this
      ensures failure.None? ==> r.Ok? && loaded
      ensures failure.Some? ==> r == Err(failure.value) && loaded == old(loaded)
    {
      match failure
      case None =>
        loaded := true;
        r := Ok(());
      case Some(e) =>
        r := Err(e);
    }
  }

  /** The module-level `ffmpegInstance`. */
  class Worker {
    var instance: FFmpeg?

    constructor()
      ensures instance == null
    {
      instance := null;
    }

    /**
     * `getFFmpeg`: a loaded instance is returned as it is; otherwise a fresh
     * instance replaces the old one and is loaded. When the load fails the
     * instance is dropped and the load's error is passed on.
     */
    method GetFFmpeg(loadFailure: Option<JsError>) returns (r: Result<FFmpeg, JsError>)
      modifies this
      ensures old(instance) != null && old(instance.loaded) ==> r == Ok(old(instance)) && instance == old(instance)
      ensures !(old(instance) != null && old(instance.loaded)) && loadFailure.None? ==>
                r.Ok? && fresh(r.value) && r.value.loaded && instance == r.value
      ensures !(old(instance) != null && old(instance.loaded)) && loadFailure.Some? ==>
                r == Err(loadFailure.value) && instance == null
    {
      if instance != null && instance.loaded {
        return Ok(instance);
      }
      var created := new FFmpeg();
      instance := created;
      if !created.loaded {
        var loading := created.Load(loadFailure);
        if loading.Err? {
          instance := null;
          return Err(loading.error);
        }
      }
      return Ok(created);
    }

    /** `disposeFFmpeg`: forgets the instance; a second dispose changes nothing. */
    method DisposeFFmpeg()
      modifies this
      ensures instance == null
    {
      if instance != null {
        instance := null;
      }
    }
  }

  /** After a failed load the next call loads a fresh instance again. */
  method RetryAfterFailure(worker: Worker, error: JsError) returns (first: Result<FFmpeg, JsError>, second: Result<FFmpeg, JsError>)
    requires worker.instance == null
    modifies worker
    ensures first == Err(error)
    ensures second.Ok? && fresh(second.value) && second.value.loaded && worker.instance == second.value
  {
    first := worker.GetFFmpeg(Some(error));
    second := worker.GetFFmpeg(None);
  }

  /** A loaded instance is reused by every later call, whatever a load would do. */
  method ReuseLoaded(worker: Worker, failure: Option<JsError>) returns (first: Result<FFmpeg, JsError>, second: Result<FFmpeg, JsError>)
    modifies worker
    ensures first.Ok? && first == second && worker.instance == first.value
  {
    first := worker.GetFFmpeg(None);
    second := worker.GetFFmpeg(failure);
  }

  /** Disposing twice leaves the same state as disposing once, and the next call loads afresh. */
  method DisposeTwice(worker: Worker) returns (next: Result<FFmpeg, JsError>)
    modifies worker
    ensures next.Ok? && fresh(next.value) && next.value.loaded
  {
    worker.DisposeFFmpeg();
    worker.DisposeFFmpeg();
    assert worker.instance == null;
    next := worker.GetFFmpeg(None);
  }
}
