/** Model loading with a cache and a remote-then-local source fallback
    (src/lib/ai/loaders.ts). What `coco.load` and `blazeface.load` return
    for each source is an oracle result; a cache is the module-level
    variable holding the loaded handle. */
module Loaders {
  import opened Wrappers

  /** A loaded model, identified opaquely. */
  datatype Handle = Handle(id: nat)

  datatype Source = Remote | Local

  /** `ModelInitError(message, originalError)`. */
  datatype InitError = ModelInitError(message: string, cause: Cause)
  datatype Cause = LibraryError(message: string) | Wrapped(inner: InitError)

  /** The cache after a load, its result, and the sources it tried. */
  datatype LoadStep = LoadStep(cache: Option<Handle>, result: Result<Handle, InitError>, attempts: seq<Source>)

  /** The shared body of `loadCocoSsd` and `loadBlazeFace`. */
  function LoadWithFallback(cache: Option<Handle>, remote: Result<Handle, string>,
                            local: Result<Handle, string>, failure: string): (r: LoadStep)
    ensures cache.Some? ==> r == LoadStep(cache, Ok(cache.value), [])
    ensures cache.None? ==> |r.attempts| > 0 && r.attempts[0] == Remote
    ensures cache.None? && remote.Ok? ==> r.attempts == [Remote] && r.result == Ok(remote.value)
    ensures cache.None? && remote.Err? ==> r.attempts == [Remote, Local]
    ensures cache.None? && remote.Err? && local.Ok? ==> r.result == Ok(local.value)
    ensures cache.None? && remote.Err? && local.Err?
            ==> r.result == Err(ModelInitError(failure, LibraryError(local.error)))
    ensures r.result.Ok? <==> r.cache.Some?
    ensures r.result.Ok? ==> r.cache == Some(r.result.value)
  {
    match cache
    case Some(h) => LoadStep(cache, Ok(h), [])
    case None =>
      match remote
      case Ok(h) => LoadStep(Some(h), Ok(h), [Remote])
      case Err(_) =>
        match local
        case Ok(h) => LoadStep(Some(h), Ok(h), [Remote, Local])
        case Err(e) => LoadStep(None, Err(ModelInitError(failure, LibraryError(e))), [Remote, Local])
  }

  const CocoFailure: string := "Failed to load COCO-SSD model from CDN and local fallback"
  const BlazeFailure: string := "Failed to load BlazeFace model from CDN and local fallback"
  const ModelsFailure: string := "Failed to load AI models"

  function LoadCocoSsd(cache: Option<Handle>, remote: Result<Handle, string>, local: Result<Handle, string>): (r: LoadStep)
    ensures r.result.Err? ==> r.result.error.message == CocoFailure && r.cache.None?
  {
    LoadWithFallback(cache, remote, local, CocoFailure)
  }

  function LoadBlazeFace(cache: Option<Handle>, remote: Result<Handle, string>, local: Result<Handle, string>): (r: LoadStep)
    ensures r.result.Err? ==> r.result.error.message == BlazeFailure && r.cache.None?
  {
    LoadWithFallback(cache, remote, local, BlazeFailure)
  }

  /** After a successful load, the next call returns the cached handle and
      loads nothing, whatever the sources would do now. */
  lemma SecondLoadUsesCache(cache: Option<Handle>, remote1: Result<Handle, string>, local1: Result<Handle, string>,
                            remote2: Result<Handle, string>, local2: Result<Handle, string>, failure: string)
    requires LoadWithFallback(cache, remote1, local1, failure).result.Ok?
    ensures var s := LoadWithFallback(cache, remote1, local1, failure);
            LoadWithFallback(s.cache, remote2, local2, failure) == LoadStep(s.cache, s.result, [])
  {
  }

  /** After a total failure nothing is cached, so the next call starts again
      from the remote source. */
  lemma RetryAfterTotalFailure(cache: Option<Handle>, remote1: Result<Handle, string>, local1: Result<Handle, string>,
                               remote2: Result<Handle, string>, local2: Result<Handle, string>, failure: string)
    requires LoadWithFallback(cache, remote1, local1, failure).result.Err?
    ensures var s := LoadWithFallback(cache, remote1, local1, failure);
            LoadWithFallback(s.cache, remote2, local2, failure).attempts[0] == Remote
  {
  }

  /** The two loader caches. */
  datatype Registry = Registry(coco: Option<Handle>, blaze: Option<Handle>)

  datatype ModelsStep = ModelsStep(registry: Registry, result: Result<(Handle, Handle), InitError>)

  /** `loadModels()`: both loads run to completion (`Promise.all` does not
      cancel the other one), and the aggregate fails with the first
      rejection, wrapped. When both reject, which one settles first is
      decided by `cocoRejectsFirst`. */
  function LoadModels(reg: Registry,
                      cocoRemote: Result<Handle, string>, cocoLocal: Result<Handle, string>,
                      blazeRemote: Result<Handle, string>, blazeLocal: Result<Handle, string>,
                      cocoRejectsFirst: bool): (r: ModelsStep)
    ensures var c := LoadCocoSsd(reg.coco, cocoRemote, cocoLocal);
            var b := LoadBlazeFace(reg.blaze, blazeRemote, blazeLocal);
            && r.registry == Registry(c.cache, b.cache)
            && (r.result.Ok? <==> c.result.Ok? && b.result.Ok?)
            && (r.result.Ok? ==> r.result.value == (c.result.value, b.result.value))
            && (r.result.Err? ==>
                  && r.result.error.message == ModelsFailure
                  && r.result.error.cause.Wrapped?
                  && ((c.result.Err? && r.result.error.cause.inner == c.result.error)
                      || (b.result.Err? && r.result.error.cause.inner == b.result.error)))
  {
    var c := LoadCocoSsd(reg.coco, cocoRemote, cocoLocal);
    var b := LoadBlazeFace(reg.blaze, blazeRemote, blazeLocal);
    var reg' := Registry(c.cache, b.cache);
    match (c.result, b.result)
    case (Ok(hc), Ok(hb)) => ModelsStep(reg', Ok((hc, hb)))
    case (Err(ec), Ok(_)) => ModelsStep(reg', Err(ModelInitError(ModelsFailure, Wrapped(ec))))
    case (Ok(_), Err(eb)) => ModelsStep(reg', Err(ModelInitError(ModelsFailure, Wrapped(eb))))
    case (Err(ec), Err(eb)) =>
      ModelsStep(reg', Err(ModelInitError(ModelsFailure, Wrapped(if cocoRejectsFirst then ec else eb))))
  }
}
