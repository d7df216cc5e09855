/**
 * app/page.tsx: the page's state (the chosen language, the loading flag,
 * the current stage, the stage list, the shown transcription and the
 * abort controller of the running upload) and the handlers that change it.
 *
 * The React state setters are field assignments. `transcribeAudio` runs
 * while the user may press the abort button; the model runs it to its end
 * (`OpenAi.TranscribeAudio`) and then delivers its progress events to the
 * page, with the abort, when the user presses it, placed between two events.
 */
module HomePage {
  import opened Wrappers
  import opened Whisper
  import opened OpenAi
  import opened ProgressStages
  import Translations

  /** The alert shown when a file is chosen before a language. */
  const NoLanguageAlert: string := "Please select a language first"

  /** `STAGES`: the five stages of an upload, each at 0 percent. */
  const InitialStages: seq<Stage> := [
    Stage("analyzing", Translations.Analyzing, 0.0),
    Stage("compressing", Translations.Compressing, 0.0),
    Stage("splitting", Translations.Splitting, 0.0),
    Stage("transcribing", Translations.Transcribing, 0.0),
    Stage("merging", Translations.MergingResults, 0.0)
  ]

  /** The stage ids are distinct, so the progress dots single out the current stage. */
  lemma InitialStagesUnique()
    ensures UniqueIds(InitialStages)
    ensures |InitialStages| == 5 && forall i | 0 <= i < 5 :: InitialStages[i].progress == 0.0
  {
  }

  /** `updateStageProgress`'s update of the list: the stages with `stageId` get `progress`. */
  function UpdatedStages(stages: seq<Stage>, stageId: string, progress: real): (r: seq<Stage>)
    ensures |r| == |stages|
    ensures forall i | 0 <= i < |stages| ::
              r[i].id == stages[i].id && r[i].labelKey == stages[i].labelKey
              && r[i].progress == (if stages[i].id == stageId then progress else stages[i].progress)
  {
    seq(|stages|, i requires 0 <= i < |stages| =>
      if stages[i].id == stageId then stages[i].(progress := progress) else stages[i])
  }

  /** An update with an id no stage has changes nothing. */
  lemma UpdateUnknownId(stages: seq<Stage>, stageId: string, progress: real)
    requires forall i | 0 <= i < |stages| :: stages[i].id != stageId
    ensures UpdatedStages(stages, stageId, progress) == stages
  {
    var r := UpdatedStages(stages, stageId, progress);
    assert forall i | 0 <= i < |stages| :: r[i] == stages[i];
  }

  /** A later update of the same stage overrides an earlier one. */
  lemma UpdateOverrides(stages: seq<Stage>, stageId: string, first: real, second: real)
    ensures UpdatedStages(UpdatedStages(stages, stageId, first), stageId, second)
            == UpdatedStages(stages, stageId, second)
  {
    var a := UpdatedStages(UpdatedStages(stages, stageId, first), stageId, second);
    var b := UpdatedStages(stages, stageId, second);
    assert forall i | 0 <= i < |stages| :: a[i] == b[i];
  }

  /** Updates of different stages do not interfere. */
  lemma UpdatesCommute(stages: seq<Stage>, one: string, p: real, other: string, q: real)
    requires one != other
    ensures UpdatedStages(UpdatedStages(stages, one, p), other, q)
            == UpdatedStages(UpdatedStages(stages, other, q), one, p)
  {
    var a := UpdatedStages(UpdatedStages(stages, one, p), other, q);
    var b := UpdatedStages(UpdatedStages(stages, other, q), one, p);
    assert forall i | 0 <= i < |stages| :: a[i] == b[i];
  }

  /**
   * The stage list and the current stage after the progress callback has
   * seen `events`: each event makes its stage current and sets its progress.
   */
  function Replay(stages: seq<Stage>, current: string, events: seq<Event>): (seq<Stage>, string)
    decreases |events|
  {
    if |events| == 0 then (stages, current)
    else
      var before := Replay(stages, current, events[..|events| - 1]);
      var last := events[|events| - 1];
      (UpdatedStages(before.0, last.stage, last.progress), last.stage)
  }

  /** The progress the last event for `id` reports, or `otherwise` when no event is for `id`. */
  function LastProgress(events: seq<Event>, id: string, otherwise: real): real
    decreases |events|
  {
    if |events| == 0 then otherwise
    else if events[|events| - 1].stage == id then events[|events| - 1].progress
    else LastProgress(events[..|events| - 1], id, otherwise)
  }

  /**
   * After a run of events every stage keeps its id and label and shows the
   * progress of the last event for it, and the current stage is the last
   * event's stage.
   */
  lemma {:induction false} ReplayShowsLastProgress(stages: seq<Stage>, current: string, events: seq<Event>)
    ensures |Replay(stages, current, events).0| == |stages|
    ensures forall i | 0 <= i < |stages| ::
              Replay(stages, current, events).0[i].id == stages[i].id
              && Replay(stages, current, events).0[i].labelKey == stages[i].labelKey
              && Replay(stages, current, events).0[i].progress == LastProgress(events, stages[i].id, stages[i].progress)
    ensures Replay(stages, current, events).1 == if |events| == 0 then current else events[|events| - 1].stage
    decreases |events|
  {
    if |events| > 0 {
      ReplayShowsLastProgress(stages, current, events[..|events| - 1]);
    }
  }

  /** Delivering events in two runs is delivering them at once. */
  lemma {:induction false} ReplayAppend(stages: seq<Stage>, current: string, first: seq<Event>, second: seq<Event>)
    ensures Replay(stages, current, first + second)
            == Replay(Replay(stages, current, first).0, Replay(stages, current, first).1, second)
    decreases |second|
  {
    if |second| == 0 {
      assert first + second == first;
    } else {
      assert (first + second)[..|first + second| - 1] == first + second[..|second| - 1];
      ReplayAppend(stages, current, first, second[..|second| - 1]);
    }
  }

  /**
   * What `handleFileUpload` leaves in `transcription`: the response of a
   * completed run, else what was shown before. Whether the user aborted
   * plays no part, since the controller's signal never reaches
   * `transcribeAudio`.
   */
  function ShownAsWritten(previous: Option<WhisperResponse>, outcome: Settled<WhisperResponse>, aborted: bool): Option<WhisperResponse> {
    if outcome.Completed? then Some(outcome.value) else previous
  }

  /**
   * The intended behaviour: an aborted upload settles with an `AbortError`
   * and leaves the shown transcription as it was.
   */
  function ShownWithSignal(previous: Option<WhisperResponse>, outcome: Settled<WhisperResponse>, aborted: bool): Option<WhisperResponse> {
    if aborted then previous else ShownAsWritten(previous, outcome, false)
  }

  /** As written, a response that completes after the abort replaces the shown transcription. */
  lemma AbortedResponseShown(response: WhisperResponse)
    ensures ShownAsWritten(None, Completed(response), true) == Some(response)
    ensures ShownAsWritten(None, Completed(response), true) != ShownWithSignal(None, Completed(response), true)
  {
  }

  /** With the signal passed on, an abort keeps what was shown, and without an abort nothing differs. */
  lemma SignalKeepsShown(previous: Option<WhisperResponse>, outcome: Settled<WhisperResponse>, aborted: bool)
    ensures aborted ==> ShownWithSignal(previous, outcome, aborted) == previous
    ensures !aborted ==> ShownWithSignal(previous, outcome, aborted) == ShownAsWritten(previous, outcome, aborted)
    ensures ShownWithSignal(previous, outcome, aborted) == Some(outcome.value) <== !aborted && outcome.Completed?
  {
  }

  /**
   * Whether the user presses abort while the upload runs: after `abortAt` of
   * the `count` progress events. The two analyzing events are sent before
   * `transcribeAudio` first waits, so an `abortAt` of 0 or 1 cannot happen;
   * the contracts below cover those values as well.
   */
  predicate AbortsDuring(abortAt: Option<nat>, count: nat) {
    abortAt.Some? && abortAt.value <= count
  }

  /** `AbortController`: `aborted` is its signal's flag. */
  class AbortController {
    var aborted: bool

    constructor()
      ensures !aborted
    {
      aborted := false;
    }

    method Abort()
      modifies this
      ensures aborted
    {
      aborted := true;
    }
  }

  /** The state of the `Home` component. */
  class Home {
    var selectedLanguage: string
    var isLoading: bool
    var currentStage: string
    var stages: seq<Stage>
    var transcription: Option<WhisperResponse>
    var controller: AbortController?

    constructor()
      ensures selectedLanguage == "" && transcription == None && Idle()
    {
      selectedLanguage := "";
      isLoading := false;
      currentStage := "";
      stages := InitialStages;
      transcription := None;
      controller := null;
    }

    /** Nothing is loading: no stage, the initial stage list and no controller. */
    predicate Idle()
      reads this
    {
      !isLoading && currentStage == "" && stages == InitialStages && controller == null
    }

    /** `setSelectedLanguage`, wired to the language selector. */
    method SelectLanguage(language: string)
      modifies this`selectedLanguage
      ensures selectedLanguage == language
    {
      selectedLanguage := language;
    }

    /** `updateStageProgress`. */
    method UpdateStageProgress(stageId: string, progress: real)
      modifies this`stages
      ensures stages == UpdatedStages(old(stages), stageId, progress)
    {
      stages := UpdatedStages(stages, stageId, progress);
    }

    /** The progress callback handed to `transcribeAudio`. */
    method OnProgress(event: Event)
      modifies this`currentStage, this`stages
      ensures currentStage == event.stage && stages == UpdatedStages(old(stages), event.stage, event.progress)
    {
      currentStage := event.stage;
      UpdateStageProgress(event.stage, event.progress);
    }

    /** The callback, called once per event in order. */
    method DeliverEvents(events: seq<Event>)
      modifies this`currentStage, this`stages
      ensures (stages, currentStage) == Replay(old(stages), old(currentStage), events)
    {
      var i := 0;
      while i < |events|
        invariant 0 <= i <= |events|
        invariant (stages, currentStage) == Replay(old(stages), old(currentStage), events[..i])
      {
        assert events[..i + 1][..i] == events[..i];
        OnProgress(events[i]);
        i := i + 1;
      }
      assert events[..i] == events;
    }

    /** `handleAbort`: with a running upload, aborts its controller and resets the progress display. */
    method HandleAbort()
      modifies this`controller, this`isLoading, this`currentStage, this`stages, controller
      ensures old(controller) == null ==>
                controller == null && isLoading == old(isLoading)
                && currentStage == old(currentStage) && stages == old(stages)
      ensures old(controller) != null ==> old(controller).aborted && Idle()
    {
      if controller != null {
        controller.Abort();
        controller := null;
        isLoading := false;
        currentStage := "";
        stages := InitialStages;
      }
    }

    /** The first steps of the `try` block: loading, at the analyzing stage, with a new controller. */
    method Start()
      modifies this`isLoading, this`currentStage, this`stages, this`controller
      ensures isLoading && currentStage == "analyzing"
      ensures stages == UpdatedStages(old(stages), "analyzing", 100.0)
      ensures controller != null && fresh(controller) && !controller.aborted
    {
      isLoading := true;
      currentStage := "analyzing";
      UpdateStageProgress("analyzing", 100.0);
      controller := new AbortController();
    }

    /** The `finally` block. */
    method Finish()
      modifies this`isLoading, this`currentStage, this`stages, this`controller
      ensures Idle()
    {
      isLoading := false;
      currentStage := "";
      stages := InitialStages;
      controller := null;
    }

    /**
     * `handleFileUpload`, as written. Without a language it only returns the
     * alert. Otherwise it starts, runs `transcribeAudio`, and when that
     * settles shows a completed response and resets the progress display; a
     * run that never settles leaves the display as the events left it. An
     * abort after `abortAt` events resets the display, but the events that
     * follow still reach it and a completed response is still shown.
     */
    method HandleFileUpload(file: MediaFile, codec: Codec, remote: Remote, abortAt: Option<nat>)
      returns (alert: Option<string>)
      modifies this
      ensures old(selectedLanguage) == "" ==> alert == Some(NoLanguageAlert) && unchanged(this)
      ensures old(selectedLanguage) != "" ==> alert == None && selectedLanguage == old(selectedLanguage)
      ensures old(selectedLanguage) != "" ==>
                var run := Pipeline(file, old(selectedLanguage), codec, remote);
                var aborted := AbortsDuring(abortAt, |run.events|);
                transcription == ShownAsWritten(old(transcription), run.outcome, aborted)
                && (!run.outcome.Pending? ==> Idle())
                && (run.outcome.Pending? && aborted ==>
                      !isLoading && controller == null
                      && (stages, currentStage) == Replay(InitialStages, "", run.events[abortAt.value..]))
                && (run.outcome.Pending? && !aborted ==>
                      isLoading && controller != null && fresh(controller) && !controller.aborted
                      && (stages, currentStage)
                         == Replay(UpdatedStages(old(stages), "analyzing", 100.0), "analyzing", run.events))
    {
      if selectedLanguage == "" {
        return Some(NoLanguageAlert);
      }
      alert := None;
      Start();
      var started := stages;
      var outcome, events := TranscribeAudio(file, selectedLanguage, codec, remote);
      if AbortsDuring(abortAt, |events|) {
        var k := abortAt.value;
        DeliverEvents(events[..k]);
        HandleAbort();
        DeliverEvents(events[k..]);
      } else {
        DeliverEvents(events);
        assert (stages, currentStage) == Replay(started, "analyzing", events);
      }
      match outcome
      case Completed(response) =>
        transcription := Some(response);
        Finish();
      case Failed(_) =>
        Finish();
      case Pending =>
    }

    /**
     * `handleFileUpload` with the controller's signal passed to
     * `transcribeAudio`: an abort rejects the run with an `AbortError`, so
     * no later event reaches the page, the `finally` block resets it and the
     * shown transcription stays as it was.
     */
    method HandleFileUploadWithSignal(file: MediaFile, codec: Codec, remote: Remote, abortAt: Option<nat>)
      returns (alert: Option<string>)
      modifies this
      ensures old(selectedLanguage) == "" ==> alert == Some(NoLanguageAlert) && unchanged(this)
      ensures old(selectedLanguage) != "" ==> alert == None && selectedLanguage == old(selectedLanguage)
      ensures old(selectedLanguage) != "" ==>
                var run := Pipeline(file, old(selectedLanguage), codec, remote);
                var aborted := AbortsDuring(abortAt, |run.events|);
                transcription == ShownWithSignal(old(transcription), run.outcome, aborted)
                && (aborted || !run.outcome.Pending? ==> Idle())
                && (run.outcome.Pending? && !aborted ==>
                      isLoading && controller != null && fresh(controller) && !controller.aborted
                      && (stages, currentStage)
                         == Replay(UpdatedStages(old(stages), "analyzing", 100.0), "analyzing", run.events))
    {
      if selectedLanguage == "" {
        return Some(NoLanguageAlert);
      }
      alert := None;
      Start();
      var started := stages;
      var outcome, events := TranscribeAudio(file, selectedLanguage, codec, remote);
      if AbortsDuring(abortAt, |events|) {
        DeliverEvents(events[..abortAt.value]);
        HandleAbort();
        Finish();
        return;
      }
      DeliverEvents(events);
      assert (stages, currentStage) == Replay(started, "analyzing", events);
      match outcome
      case Completed(response) =>
        transcription := Some(response);
        Finish();
      case Failed(_) =>
        Finish();
      case Pending =>
    }
  }
}
