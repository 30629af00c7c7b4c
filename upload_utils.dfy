/**
 * The simulated upload of the upload page: `simulateUpload` sets the
 * "uploading" flag and a zero progress, then an interval timer adds 10 to the
 * progress on every tick until the tick that sees 100, which stops the timer,
 * clears the flag, marks the upload complete and makes up a share link.
 *
 * The four React state variables are the fields of `UploadSimulation`; the
 * timer is a flag saying whether ticks still have an effect, and the timer's
 * period is not modelled. `Math.random().toString(36)` is a parameter.
 */
module UploadUtils {
  import opened JsText

  const LinkPrefix := "https://share.temp/"
  const ProgressStep := 10
  const FullProgress := 100

  /** The four state variables and whether the interval is still set. */
  datatype Simulation = Simulation(
    progress: int,
    isUploading: bool,
    uploadComplete: bool,
    shareableLink: string,
    timerRunning: bool)

  /** The page's initial state: nothing uploading, no link, no timer. */
  const Initial := Simulation(0, false, false, "", false)

  /** Starting: uploading, progress 0, interval set; completion and link are left as they were. */
  function Start(s: Simulation): Simulation {
    s.(isUploading := true, progress := 0, timerRunning := true)
  }

  /** The link made from `Math.random().toString(36)`: its text from position 7 on. */
  function ShareableLink(random36: string): (link: string)
    ensures StartsWith(link, LinkPrefix)
  {
    LinkPrefix + Substring(random36, 7)
  }

  /** One interval tick; once the interval is cleared a tick changes nothing. */
  function Tick(s: Simulation, random36: string): Simulation {
    if !s.timerRunning then s
    else if s.progress >= FullProgress then
      s.(timerRunning := false, isUploading := false, uploadComplete := true,
         shareableLink := ShareableLink(random36), progress := FullProgress)
    else s.(progress := s.progress + ProgressStep)
  }

  /** `n` ticks in a row; only the completing tick consumes the random text. */
  function Ticks(s: Simulation, n: nat, random36: string): Simulation {
    if n == 0 then s else Tick(Ticks(s, n - 1, random36), random36)
  }

  /** The simulation after the tick that completes a run started from `s`. */
  function Completed(s: Simulation, random36: string): Simulation {
    Start(s).(progress := FullProgress, isUploading := false, uploadComplete := true,
              shareableLink := ShareableLink(random36), timerRunning := false)
  }

  /**
   * What every reachable state satisfies: progress is a multiple of 10 in
   * [0, 100], a running interval means the upload flag is set, and the link
   * is empty or a share link.
   */
  predicate Steady(s: Simulation) {
    && 0 <= s.progress <= FullProgress
    && s.progress % ProgressStep == 0
    && (s.timerRunning ==> s.isUploading)
    && (s.shareableLink == "" || StartsWith(s.shareableLink, LinkPrefix))
  }

  /** Starting gives progress 0 and the upload flag, and keeps the completion flag and the link. */
  lemma StartResetsProgress(s: Simulation)
    ensures var t := Start(s);
      && t.progress == 0 && t.isUploading && t.timerRunning
      && t.uploadComplete == s.uploadComplete && t.shareableLink == s.shareableLink
  {
  }

  /** A running tick below 100 adds exactly 10 and changes nothing else. */
  lemma TickBelowFull(s: Simulation, random36: string)
    requires s.timerRunning && s.progress < FullProgress
    ensures Tick(s, random36) == s.(progress := s.progress + 10)
  {
  }

  /**
   * A running tick at 100 or more completes: progress 100, not uploading,
   * complete, a share link, and the interval cleared.
   */
  lemma TickAtFull(s: Simulation, random36: string)
    requires s.timerRunning && s.progress >= FullProgress
    ensures var t := Tick(s, random36);
      && t.progress == 100 && !t.isUploading && t.uploadComplete && !t.timerRunning
      && StartsWith(t.shareableLink, LinkPrefix)
      && t.shareableLink[|LinkPrefix|..] == Substring(random36, 7)
  {
  }

  /** The link changes only on the tick that completes a run. */
  lemma LinkChangesOnlyAtCompletion(s: Simulation, random36: string)
    requires Tick(s, random36).shareableLink != s.shareableLink
    ensures s.timerRunning && s.progress >= 100
    ensures Tick(s, random36).uploadComplete && !Tick(s, random36).timerRunning
  {
  }

  /** Once the interval is cleared, no number of ticks changes anything. */
  lemma {:induction false} StoppedTimerIsInert(s: Simulation, n: nat, random36: string)
    requires !s.timerRunning
    ensures Ticks(s, n, random36) == s
  {
    if n > 0 {
      StoppedTimerIsInert(s, n - 1, random36);
    }
  }

  lemma InitialIsSteady()
    ensures Steady(Initial)
  {
  }

  lemma StartPreservesSteady(s: Simulation)
    requires Steady(s)
    ensures Steady(Start(s))
  {
  }

  lemma TickPreservesSteady(s: Simulation, random36: string)
    requires Steady(s)
    ensures Steady(Tick(s, random36))
  {
  }

  /**
   * From a start, the first 10 ticks raise the progress by 10 each and change
   * nothing else, so it reaches 100 on the 10th; the 11th tick completes the
   * run, and later ticks change nothing.
   */
  lemma {:induction false} ProgressFromStart(s: Simulation, k: nat, random36: string)
    ensures k <= 10 ==> Ticks(Start(s), k, random36) == Start(s).(progress := 10 * k)
    ensures k >= 11 ==> Ticks(Start(s), k, random36) == Completed(s, random36)
  {
    if k > 0 {
      ProgressFromStart(s, k - 1, random36);
    }
  }

  /** A started run is still uploading, and not newly complete, before its 11th tick. */
  lemma CompletionOnEleventhTick(s: Simulation, k: nat, random36: string)
    requires !s.uploadComplete
    ensures !Ticks(Start(s), k, random36).uploadComplete <==> k <= 10
    ensures Ticks(Start(s), k, random36).isUploading <==> k <= 10
    ensures Ticks(Start(s), k, random36).progress == if k <= 10 then 10 * k else 100
  {
    ProgressFromStart(s, k, random36);
  }

  /** The simulated upload's state variables and its interval timer. */
  class UploadSimulation {
    var progress: int
    var isUploading: bool
    var uploadComplete: bool
    var shareableLink: string
    var timerRunning: bool

    function State(): Simulation
      reads this
    {
      Simulation(progress, isUploading, uploadComplete, shareableLink, timerRunning)
    }

    constructor()
      ensures State() == Initial
    {
      progress := 0;
      isUploading := false;
      uploadComplete := false;
      shareableLink := "";
      timerRunning := false;
    }

    /** `simulateUpload`: set the flag and zero progress, then set the interval. */
    method SimulateUpload()
      modifies this
      ensures State() == Start(old(State()))
    {
      isUploading := true;
      progress := 0;
      timerRunning := true;
    }

    /** The interval callback, given the value `Math.random().toString(36)` would return. */
    method IntervalTick(random36: string)
      modifies this
      ensures State() == Tick(old(State()), random36)
    {
      if !timerRunning {
        return;
      }
      if progress >= FullProgress {
        timerRunning := false;
        isUploading := false;
        uploadComplete := true;
        shareableLink := ShareableLink(random36);
        progress := FullProgress;
      } else {
        progress := progress + ProgressStep;
      }
    }
  }
}
