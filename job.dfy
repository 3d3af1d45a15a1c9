/**
 * The daily job of HomeTest/main.py (lines 76-159): run the crawler script,
 * then the uploader script, each as a child process, and exit 0 exactly when
 * both steps succeeded.  A child process is seen only through how it ended.
 */
module Job {
  import Upload

  /** How a child process ended: its exit status, the 600-second timeout, or a launch error. */
  datatype StepRun = Exited(code: int) | TimedOut | LaunchFailed

  /** What `main()` did: whether it started the uploader, and what it returned. */
  datatype JobRun = JobRun(uploaderInvoked: bool, success: bool)

  /** `run_scraper` / `run_uploader`: True only for a child that exited with status 0. */
  function Succeeded(step: StepRun): (ok: bool)
    ensures ok <==> step.Exited? && step.code == 0
    ensures step.TimedOut? || step.LaunchFailed? ==> !ok
  {
    match step
    case Exited(c) => c == 0
    case TimedOut => false
    case LaunchFailed => false
  }

  /** `main()`: the uploader runs only after a successful crawl; the job succeeds iff both do. */
  function Main(scraper: StepRun, uploader: StepRun): (r: JobRun)
    ensures r.uploaderInvoked <==> Succeeded(scraper)
    ensures r.success <==> Succeeded(scraper) && Succeeded(uploader)
  {
    if !Succeeded(scraper) then JobRun(false, false)
    else if !Succeeded(uploader) then JobRun(true, false)
    else JobRun(true, true)
  }

  /** `sys.exit(0 if success else 1)`. */
  function JobExit(r: JobRun): (code: int)
    ensures code == 0 <==> r.success
    ensures code == 0 || code == 1
  {
    if r.success then 0 else 1
  }

  /**
   * The status of a Python script that ends by falling off its last line: 0,
   * unless an exception escaped, which gives 1.  The crawler script ends this
   * way; an exception escapes it when a request, the processing of an article
   * or the metadata save raises.
   */
  function ScriptExit(raised: bool): (code: int)
    ensures code == 0 <==> !raised
    ensures code == 0 || code == 1
  {
    if raised then 1 else 0
  }

  /** A crawl whose metadata was saved is a successful first step. */
  lemma CrawlerSuccessIsStepSuccess(ok: bool)
    ensures Succeeded(Exited(ScriptExit(!ok))) <==> ok
  {
  }

  // ---------------------------------------------------------------------------
  // Exit status of the uploader script
  // ---------------------------------------------------------------------------

  /**
   * As written, the uploader's `__main__` calls `upload_articles()` and drops
   * its return value, so only an escaped exception makes the exit status
   * non-zero; a vector store that could not be found or created still exits 0.
   */
  function UploaderExitAsWritten(result: Upload.UploadResult): (code: int)
    ensures code == 0 <==> !result.Raised?
  {
    ScriptExit(result.Raised?)
  }

  /** The job then reports success although nothing was uploaded. */
  lemma StoreFailureReportedAsSuccess(scraper: StepRun)
    requires Succeeded(scraper)
    ensures Main(scraper, Exited(UploaderExitAsWritten(Upload.StoreUnavailable))).success
  {
  }

  /** Intended: the script exits with status 1 whenever `upload_articles()` did not finish its work. */
  function UploaderExit(result: Upload.UploadResult): (code: int)
    ensures code == 0 <==> result.Done?
    ensures code == 0 || code == 1
  {
    if result.Done? then 0 else 1
  }

  /** With the intended exit status, a successful job means the upload pass completed. */
  lemma JobSuccessMeansUploaded(scraper: StepRun, result: Upload.UploadResult)
    ensures var r := Main(scraper, Exited(UploaderExit(result)));
      && (r.success <==> Succeeded(scraper) && result.Done?)
      && (JobExit(r) == 0 ==> result.Done?)
  {
  }
}
