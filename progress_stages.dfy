/**
 * components/progress-with-stages.tsx: the progress bar of the current
 * stage, its translated label and one dot per stage, coloured by where the
 * stage stands relative to the current one.
 */
module ProgressStages {
  import opened Wrappers
  import Translations

  /** One processing stage: its id, the translation key of its label and its progress in percent. */
  datatype Stage = Stage(id: string, labelKey: Translations.Key, progress: real)

  /** `stages.find((s) => s.id === current)`: the first stage with that id. */
  function FindStage(stages: seq<Stage>, current: string): (r: Option<Stage>)
    ensures r.None? <==> forall i | 0 <= i < |stages| :: stages[i].id != current
    ensures r.Some? ==> r.value == stages[FindIndex(stages, current)]
  {
    if |stages| == 0 then None
    else if stages[0].id == current then Some(stages[0])
    else FindStage(stages[1..], current)
  }

  /** `stages.findIndex((s) => s.id === current)`: the first index with that id, or -1. */
  function FindIndex(stages: seq<Stage>, current: string): (r: int)
    ensures -1 <= r < |stages|
    ensures r == -1 <==> forall i | 0 <= i < |stages| :: stages[i].id != current
    ensures r >= 0 ==> stages[r].id == current && forall i | 0 <= i < r :: stages[i].id != current
  {
    if |stages| == 0 then -1
    else if stages[0].id == current then 0
    else
      var rest := FindIndex(stages[1..], current);
      if rest == -1 then -1 else rest + 1
  }

  /** The bar's value: `currentStageData?.progress || 0`. */
  function BarValue(stages: seq<Stage>, current: string): real {
    match FindStage(stages, current)
    case None => 0.0
    case Some(stage) => stage.progress
  }

  /** The label under the bar: `t(currentStageData?.label || "")`; no stage reads as `undefined`. */
  function StageLabel(stages: seq<Stage>, current: string, language: string): Option<string> {
    match FindStage(stages, current)
    case None => None
    case Some(stage) => Translations.Translate(language, Some(stage.labelKey))
  }

  const Primary: string := "bg-primary"
  const Passed: string := "bg-primary/50"
  const Muted: string := "bg-muted"

  /** The colour class of one dot. */
  function DotClass(stages: seq<Stage>, current: string, stage: Stage): string {
    if stage.id == current then Primary
    else if FindIndex(stages, current) > FindIndex(stages, stage.id) then Passed
    else Muted
  }

  /** The dots, one per stage in stage order. */
  function Dots(stages: seq<Stage>, current: string): (dots: seq<string>)
    ensures |dots| == |stages|
  {
    seq(|stages|, i requires 0 <= i < |stages| => DotClass(stages, current, stages[i]))
  }

  predicate UniqueIds(stages: seq<Stage>) {
    forall i, j | 0 <= i < j < |stages| :: stages[i].id != stages[j].id
  }

  /** The bar shows the progress of the first stage with the current id, and 0 with none. */
  lemma BarShowsCurrent(stages: seq<Stage>, current: string)
    ensures FindIndex(stages, current) == -1 ==> BarValue(stages, current) == 0.0
    ensures FindIndex(stages, current) >= 0 ==>
              BarValue(stages, current) == stages[FindIndex(stages, current)].progress
  {
  }

  /** A current id that matches no stage leaves every dot muted. */
  lemma AllMutedWhenAbsent(stages: seq<Stage>, current: string)
    requires forall i | 0 <= i < |stages| :: stages[i].id != current
    ensures forall i | 0 <= i < |stages| :: Dots(stages, current)[i] == Muted
  {
    forall i | 0 <= i < |stages| ensures Dots(stages, current)[i] == Muted {
      assert FindIndex(stages, stages[i].id) >= 0;
    }
  }

  /** With unique ids, the first index of a stage's id is its own index. */
  lemma IndexOfUnique(stages: seq<Stage>, i: int)
    requires UniqueIds(stages) && 0 <= i < |stages|
    ensures FindIndex(stages, stages[i].id) == i
  {
  }

  /**
   * With unique ids and a current stage that is present at index `c`, the
   * dot of `c` is the only primary one, the dots before it are half-primary
   * and the dots after it muted.
   */
  lemma DotsAroundCurrent(stages: seq<Stage>, c: int)
    requires UniqueIds(stages) && 0 <= c < |stages|
    ensures var dots := Dots(stages, stages[c].id);
            forall i | 0 <= i < |stages| ::
              (dots[i] == Primary <==> i == c) && (dots[i] == Passed <==> i < c) && (dots[i] == Muted <==> i > c)
  {
    var current := stages[c].id;
    IndexOfUnique(stages, c);
    forall i | 0 <= i < |stages|
      ensures var d := Dots(stages, current)[i];
              (d == Primary <==> i == c) && (d == Passed <==> i < c) && (d == Muted <==> i > c)
    {
      IndexOfUnique(stages, i);
    }
  }

  /** Hence exactly one dot is primary. */
  lemma ExactlyOnePrimary(stages: seq<Stage>, c: int)
    requires UniqueIds(stages) && 0 <= c < |stages|
    ensures var dots := Dots(stages, stages[c].id);
            Dots(stages, stages[c].id)[c] == Primary
            && forall i | 0 <= i < |stages| && i != c :: dots[i] != Primary
  {
    DotsAroundCurrent(stages, c);
  }
}
