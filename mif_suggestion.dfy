/** The MIF suggestion widget of components/mif-suggestion.tsx: it asks the
    engine for a suggestion, lets the clinician pick a score, and on
    confirmation records the decision in the engine's log and hands the
    score to the form. */
module MifSuggestion {
  import opened Text
  import opened Js
  import opened MifAiService

  const RedText := "text-red-500 dark:text-red-400"
  const AmberText := "text-amber-500 dark:text-amber-400"
  const BlueText := "text-blue-500 dark:text-blue-400"
  const GreenText := "text-green-500 dark:text-green-400"

  /** `getMIFScoreColor` (the analytics dashboard has an identical copy):
      1-2 red, 3-4 amber, 5-6 blue, 7 green. */
  function ScoreColor(score: int): (c: string)
    ensures c == RedText <==> score <= 2
    ensures c == AmberText <==> 2 < score <= 4
    ensures c == BlueText <==> 4 < score <= 6
    ensures c == GreenText <==> score > 6
  {
    if score <= 2 then RedText
    else if score <= 4 then AmberText
    else if score <= 6 then BlueText
    else GreenText
  }

  /** `getConfidenceColor`: below 0.5 red, below 0.7 amber, below 0.9 blue,
      otherwise green. */
  function ConfidenceColor(confidence: real): (c: string)
    ensures c == RedText <==> confidence < 0.5
    ensures c == AmberText <==> 0.5 <= confidence < 0.7
    ensures c == BlueText <==> 0.7 <= confidence < 0.9
    ensures c == GreenText <==> confidence >= 0.9
  {
    if confidence < 0.5 then RedText
    else if confidence < 0.7 then AmberText
    else if confidence < 0.9 then BlueText
    else GreenText
  }

  /** A suggestion the widget can show (it never analyses blank text) is
      never coloured red. */
  lemma SuggestionNeverRed(fieldText: string, fieldName: string, fieldLabel: string, history: seq<HistoryEntry>)
    requires !IsBlank(fieldText)
    ensures ConfidenceColor(Analysis(fieldText, fieldName, fieldLabel, history).confidence) != RedText
  {
    ConfidenceBounds(fieldText, fieldName, fieldLabel, history);
  }

  /** The state of one widget instance. */
  class SuggestionWidget {
    const fieldText: string
    const fieldName: string
    const fieldLabel: string
    /** The engine's module-level log, shared by every widget. */
    const store: AnalysisHistoryStore
    var loading: bool
    var analyzing: bool
    var analysis: Option<AnalysisResult>
    var selectedScore: Option<Score>
    var historyLoaded: bool
    /** The scores handed to `onConfirm`, in order. */
    var confirmed: seq<Score>

    constructor(store: AnalysisHistoryStore, fieldText: string, fieldName: string, fieldLabel: string)
      ensures this.store == store && this.fieldText == fieldText
      ensures this.fieldName == fieldName && this.fieldLabel == fieldLabel
      ensures !loading && !analyzing && analysis == None && selectedScore == None
      ensures !historyLoaded && confirmed == []
    {
      this.store := store;
      this.fieldText := fieldText;
      this.fieldName := fieldName;
      this.fieldLabel := fieldLabel;
      loading := false;
      analyzing := false;
      analysis := None;
      selectedScore := None;
      historyLoaded := false;
      confirmed := [];
    }

    /** The mount effect: load the log once. */
    method Mount()
      modifies this, store
      ensures historyLoaded
      ensures !old(historyLoaded) ==> store.entries == LoadedLog(old(store.entries), old(store.stored))
      ensures old(historyLoaded) ==> store.entries == old(store.entries)
      ensures store.stored == old(store.stored)
      ensures loading == old(loading) && analyzing == old(analyzing) && analysis == old(analysis)
      ensures selectedScore == old(selectedScore) && confirmed == old(confirmed)
    {
      if !historyLoaded {
        store.Load();
        historyLoaded := true;
      }
    }

    /** `analyzeMIF`: nothing happens for blank text; otherwise the engine's
        result is shown and its score preselected. */
    method AnalyzeMif()
      modifies this, store
      ensures IsBlank(fieldText) ==> unchanged(this) && unchanged(store)
      ensures !IsBlank(fieldText) ==>
        && store.entries == (if old(store.entries) == [] then LoadedLog(old(store.entries), old(store.stored))
                             else old(store.entries))
        && analysis == Some(Analysis(fieldText, fieldName, fieldLabel, store.entries))
        && selectedScore == Some(analysis.value.score)
        && analyzing && !loading
      ensures store.stored == old(store.stored)
      ensures historyLoaded == old(historyLoaded) && confirmed == old(confirmed)
    {
      if IsBlank(fieldText) {
        return;
      }
      loading := true;
      analyzing := true;
      var result := store.Analyze(fieldText, fieldName, fieldLabel);
      ghost var entries := store.entries;
      assert result == Analysis(fieldText, fieldName, fieldLabel, entries);
      analysis := Some(result);
      selectedScore := Some(result.score);
      loading := false;
    }

    /** Picking a radio option. */
    method SelectScore(score: Score)
      modifies this
      ensures selectedScore == Some(score)
      ensures loading == old(loading) && analyzing == old(analyzing) && analysis == old(analysis)
      ensures historyLoaded == old(historyLoaded) && confirmed == old(confirmed)
    {
      selectedScore := Some(score);
    }

    /** The cancel button hides the card but keeps the analysis. */
    method Cancel()
      modifies this
      ensures !analyzing
      ensures loading == old(loading) && analysis == old(analysis) && selectedScore == old(selectedScore)
      ensures historyLoaded == old(historyLoaded) && confirmed == old(confirmed)
    {
      analyzing := false;
    }

    /** `handleConfirm`: with a selected score, the decision is appended to
        the log when an analysis exists, the score goes to `onConfirm` once,
        and the analysis is cleared. `timestamp` is the clock reading. */
    method Confirm(timestamp: int)
      modifies this, store
      ensures old(selectedScore).None? ==> unchanged(this) && unchanged(store)
      ensures old(selectedScore).Some? ==>
        && confirmed == old(confirmed) + [old(selectedScore).value]
        && !analyzing && analysis == None
        && (old(analysis).Some? ==>
              store.entries == Bounded(old(store.entries)
                + [HistoryEntry(fieldText, old(analysis).value.score, old(selectedScore).value, fieldName, timestamp)])
              && store.stored == Saved(store.entries))
        && (old(analysis).None? ==> store.entries == old(store.entries) && store.stored == old(store.stored))
      ensures selectedScore == old(selectedScore) && loading == old(loading) && historyLoaded == old(historyLoaded)
    {
      if selectedScore.Some? {
        if analysis.Some? {
          store.Add(HistoryEntry(fieldText, analysis.value.score, selectedScore.value, fieldName, timestamp));
        }
        confirmed := confirmed + [selectedScore.value];
        analyzing := false;
        analysis := None;
      }
    }
  }
}
