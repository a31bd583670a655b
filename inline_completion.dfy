/**
 * Inline snippet suggestions while typing a comment.
 *
 * Every change of a document passes a fixed series of guards. When it
 * passes them, the listener stamps `lastRequestTimestamp` with the current
 * time and captures that stamp. A follow-up check (posted to run later on
 * the UI thread) disposes any preview being shown and looks at the text from
 * the start of the caret's line to the caret: if it is a comment of more
 * than one word, a search request carrying the stamp is put on an alarm to
 * run 500 ms later. When the request runs, it queries the Codiga API only
 * if its captured stamp still equals `lastRequestTimestamp`, and shows a
 * preview of the snippets found, at the caret offset it captured.
 *
 * The clock, the IDE's state and the API are inputs. The comment helpers of
 * the language utilities are given as functions. The UI thread's queue and
 * the alarm are queues of pending work, and what the listener does to the
 * outside (disposing and showing previews, calling the API) is a log of
 * effects.
 */
module InlineCompletion {
  import opened Wrappers

  /** The alarm's delay before a search request runs, in milliseconds. */
  const TimeoutRequestPollingMilliseconds: int := 500

  /** The comment helpers of the language utilities. */
  datatype LanguageUtils<!L> = LanguageUtils(
    getLanguageFromFilename: string -> L,
    lineStartsWithComment: (L, string) -> bool,
    numberOfWordsInComment: string -> int,
    removeLineFromCommentsSymbols: string -> string)

  /** What the document event and the editor lookup tell the listener. */
  datatype DocumentEvent = DocumentEvent(inBulkUpdate: bool, hasActiveEditor: bool, hasProject: bool)

  /** The application settings the listener reads. */
  datatype Settings = Settings(codigaEnabled: bool, useInlineCompletion: bool, onlyPublic: bool, onlyPrivate: bool, onlyFavorite: bool)

  /**
   * The editor as the deferred check finds it: the text, whether a preview
   * is shown, the file's path (none when the document has no file), the
   * caret line's start and the caret, the names of the file's dependencies
   * and its project-relative filename.
   */
  datatype EditorState = EditorState(
    text: seq<char>,
    hasPreview: bool,
    filePath: Option<string>,
    lineStart: int,
    caretOffset: int,
    dependencies: seq<string>,
    relativeFilename: string)

  /** The semantic search request sent to the API. */
  datatype SemanticQuery<L> = SemanticQuery(
    searchTerm: Option<string>,
    dependencies: seq<string>,
    language: L,
    filename: string,
    onlyPublic: bool,
    onlyPrivate: bool,
    onlyFavorite: bool)

  /** A search request waiting on the alarm, with what it captured. */
  datatype SearchRequest<L> = SearchRequest(
    due: int,
    requestTimestamp: int,
    caretOffset: int,
    language: L,
    searchTerm: Option<string>,
    dependencies: seq<string>,
    filename: string)

  /** What the listener does to the outside. */
  datatype Effect<L, S> = PreviewDisposed | ApiQueried(query: SemanticQuery<L>) | PreviewDisplayed(offset: int, snippets: seq<S>)

  /** The early returns of `documentChanged`, in order. */
  predicate GuardsPass(ev: DocumentEvent, settings: Settings)
  {
    !ev.inBulkUpdate && ev.hasActiveEditor && ev.hasProject && settings.codigaEnabled && settings.useInlineCompletion
  }

  /** The text from the caret line's start to the caret; `None` when the range is not in the document. */
  function CurrentLine(e: EditorState): (r: Option<string>)
    ensures r.Some? <==> 0 <= e.lineStart <= e.caretOffset <= |e.text|
    ensures r.Some? ==> |r.value| == e.caretOffset - e.lineStart
    ensures r.Some? ==> forall i :: 0 <= i < |r.value| ==> r.value[i] == e.text[e.lineStart + i]
  {
    if 0 <= e.lineStart <= e.caretOffset <= |e.text| then Some(e.text[e.lineStart..e.caretOffset]) else None
  }

  /** The filtering of the check: a comment of more than one word in a file. */
  predicate WorthSearching<L>(e: EditorState, utils: LanguageUtils<L>)
  {
    && e.filePath.Some?
    && CurrentLine(e).Some?
    && utils.lineStartsWithComment(utils.getLanguageFromFilename(e.filePath.value), CurrentLine(e).value)
    && utils.numberOfWordsInComment(CurrentLine(e).value) > 1
  }

  /** The search request the check prepares, started at `now` for stamp `stamp`. */
  function PrepareRequest<L>(e: EditorState, utils: LanguageUtils<L>, stamp: int, now: int): (r: SearchRequest<L>)
    requires WorthSearching(e, utils)
    ensures r.due - now == TimeoutRequestPollingMilliseconds
    ensures r.requestTimestamp == stamp && r.caretOffset == e.caretOffset
    ensures r.language == utils.getLanguageFromFilename(e.filePath.value)
    ensures r.searchTerm == Some(utils.removeLineFromCommentsSymbols(e.text[e.lineStart..e.caretOffset]))
  {
    var line := CurrentLine(e).value;
    SearchRequest(now + TimeoutRequestPollingMilliseconds, stamp, e.caretOffset,
      utils.getLanguageFromFilename(e.filePath.value),
      Some(utils.removeLineFromCommentsSymbols(line)), e.dependencies, e.relativeFilename)
  }

  /** The API query a request makes, with the visibility settings read when it runs. */
  function QueryOf<L>(req: SearchRequest<L>, settings: Settings): SemanticQuery<L>
  {
    SemanticQuery(req.searchTerm, req.dependencies, req.language, req.filename,
      settings.onlyPublic, settings.onlyPrivate, settings.onlyFavorite)
  }

  /** What a request does when it runs: nothing if stale, else query and maybe display. */
  function RequestEffects<L, S>(req: SearchRequest<L>, lastRequestTimestamp: int, settings: Settings,
                                getRecipesSemantic: SemanticQuery<L> -> seq<S>): (r: seq<Effect<L, S>>)
    ensures req.requestTimestamp != lastRequestTimestamp ==> r == []
    ensures req.requestTimestamp == lastRequestTimestamp ==>
      |r| >= 1 && r[0] == ApiQueried(QueryOf(req, settings))
    ensures req.requestTimestamp == lastRequestTimestamp ==>
      (|r| == 2 <==> getRecipesSemantic(QueryOf(req, settings)) != [])
    ensures |r| == 2 ==> r[1] == PreviewDisplayed(req.caretOffset, getRecipesSemantic(QueryOf(req, settings)))
    ensures |r| <= 2
  {
    if req.requestTimestamp != lastRequestTimestamp then []
    else
      var query := QueryOf(req, settings);
      var snippets := getRecipesSemantic(query);
      [ApiQueried(query)] + (if snippets != [] then [PreviewDisplayed(req.caretOffset, snippets)] else [])
  }

  /** Whether a preview was disposed, as an effect log. */
  function DisposalEffects<L, S>(e: EditorState): seq<Effect<L, S>>
  {
    if e.hasPreview then [PreviewDisposed] else []
  }

  /** The document listener. In unit-test mode nothing is deferred. */
  class InlineDocumentListener<L, S> {
    const utils: LanguageUtils<L>
    const getRecipesSemantic: SemanticQuery<L> -> seq<S>
    const unitTestMode: bool

    var lastRequestTimestamp: int
    /** Checks posted to run later on the UI thread, each with its captured stamp. */
    var postedChecks: seq<int>
    /** Search requests waiting on the alarm. */
    var alarm: seq<SearchRequest<L>>
    var effects: seq<Effect<L, S>>

    constructor (utils: LanguageUtils<L>, getRecipesSemantic: SemanticQuery<L> -> seq<S>, unitTestMode: bool)
      ensures this.utils == utils && this.getRecipesSemantic == getRecipesSemantic && this.unitTestMode == unitTestMode
      ensures lastRequestTimestamp == 0 && postedChecks == [] && alarm == [] && effects == []
    {
      this.utils := utils;
      this.getRecipesSemantic := getRecipesSemantic;
      this.unitTestMode := unitTestMode;
      lastRequestTimestamp := 0;
      postedChecks := [];
      alarm := [];
      effects := [];
    }

    /**
     * `documentChanged`. A failed guard returns with nothing changed.
     * Otherwise the stamp becomes `now` and a check carrying it is posted
     * (run at once in unit-test mode, against `editor` and `settings`).
     */
    method DocumentChanged(ev: DocumentEvent, settings: Settings, now: int, editor: EditorState)
      modifies this
      ensures !GuardsPass(ev, settings) ==>
        lastRequestTimestamp == old(lastRequestTimestamp) && postedChecks == old(postedChecks)
        && alarm == old(alarm) && effects == old(effects)
      ensures GuardsPass(ev, settings) ==> lastRequestTimestamp == now
      ensures GuardsPass(ev, settings) && !unitTestMode ==>
        postedChecks == old(postedChecks) + [now] && alarm == old(alarm) && effects == old(effects)
      ensures GuardsPass(ev, settings) && unitTestMode ==>
        postedChecks == old(postedChecks) && alarm == old(alarm)
        && effects == old(effects) + DisposalEffects(editor)
          + (if WorthSearching(editor, utils)
             then RequestEffects(PrepareRequest(editor, utils, now, now), now, settings, getRecipesSemantic)
             else [])
    {
      if ev.inBulkUpdate {
        return;
      }
      if !ev.hasActiveEditor {
        return;
      }
      if !ev.hasProject {
        return;
      }
      if !settings.codigaEnabled {
        return;
      }
      if !settings.useInlineCompletion {
        return;
      }
      lastRequestTimestamp := now;
      var requestTimestamp := lastRequestTimestamp;
      if unitTestMode {
        CheckDocumentAndInitiateSnippetPreview(requestTimestamp, editor, settings, now);
      } else {
        postedChecks := postedChecks + [requestTimestamp];
      }
    }

    /**
     * The UI thread runs the oldest posted check, against the editor as it
     * is now.
     */
    method RunPostedCheck(editor: EditorState, settings: Settings, now: int)
      modifies this
      ensures old(postedChecks) == [] ==> postedChecks == [] && alarm == old(alarm) && effects == old(effects)
      ensures lastRequestTimestamp == old(lastRequestTimestamp)
      ensures old(postedChecks) != [] && !unitTestMode ==>
        postedChecks == old(postedChecks)[1..]
        && effects == old(effects) + DisposalEffects(editor)
        && alarm == old(alarm) + (if WorthSearching(editor, utils)
                                  then [PrepareRequest(editor, utils, old(postedChecks)[0], now)] else [])
      ensures old(postedChecks) != [] && unitTestMode ==>
        postedChecks == old(postedChecks)[1..] && alarm == old(alarm)
        && effects == old(effects) + DisposalEffects(editor)
          + (if WorthSearching(editor, utils)
             then RequestEffects(PrepareRequest(editor, utils, old(postedChecks)[0], now), lastRequestTimestamp, settings, getRecipesSemantic)
             else [])
    {
      if postedChecks == [] {
        return;
      }
      var requestTimestamp := postedChecks[0];
      postedChecks := postedChecks[1..];
      CheckDocumentAndInitiateSnippetPreview(requestTimestamp, editor, settings, now);
    }

    /**
     * `checkDocumentAndInitiateSnippetPreview`: disposes the shown preview
     * first, then filters; a request that passes goes on the alarm (or runs
     * at once in unit-test mode).
     */
    method CheckDocumentAndInitiateSnippetPreview(requestTimestamp: int, editor: EditorState, settings: Settings, now: int)
      modifies this
      ensures lastRequestTimestamp == old(lastRequestTimestamp) && postedChecks == old(postedChecks)
      ensures !unitTestMode ==>
        effects == old(effects) + DisposalEffects(editor)
        && alarm == old(alarm) + (if WorthSearching(editor, utils)
                                  then [PrepareRequest(editor, utils, requestTimestamp, now)] else [])
      ensures unitTestMode ==>
        alarm == old(alarm)
        && effects == old(effects) + DisposalEffects(editor)
          + (if WorthSearching(editor, utils)
             then RequestEffects(PrepareRequest(editor, utils, requestTimestamp, now), lastRequestTimestamp, settings, getRecipesSemantic)
             else [])
    {
      if editor.hasPreview {
        effects := effects + [PreviewDisposed];
      }
      if editor.filePath.None? {
        return;
      }
      var language := utils.getLanguageFromFilename(editor.filePath.value);
      var currentLine := CurrentLine(editor);
      if currentLine.None? {
        return;
      }
      if !utils.lineStartsWithComment(language, currentLine.value) {
        return;
      }
      var numberOfWords := utils.numberOfWordsInComment(currentLine.value);
      if numberOfWords <= 1 {
        return;
      }
      var request := SearchRequest(now + TimeoutRequestPollingMilliseconds, requestTimestamp, editor.caretOffset,
        language, Some(utils.removeLineFromCommentsSymbols(currentLine.value)), editor.dependencies, editor.relativeFilename);
      assert request == PrepareRequest(editor, utils, requestTimestamp, now);
      if unitTestMode {
        QueryRecipesAndShowSnippetPreview(request, settings);
      } else {
        alarm := alarm + [request];
      }
    }

    /** The alarm runs its oldest request once it is due. */
    method RunAlarm(settings: Settings, now: int)
      modifies this
      ensures lastRequestTimestamp == old(lastRequestTimestamp) && postedChecks == old(postedChecks)
      ensures old(alarm) == [] || now < old(alarm)[0].due ==> alarm == old(alarm) && effects == old(effects)
      ensures old(alarm) != [] && old(alarm)[0].due <= now ==>
        alarm == old(alarm)[1..]
        && effects == old(effects) + RequestEffects(old(alarm)[0], lastRequestTimestamp, settings, getRecipesSemantic)
    {
      if alarm == [] || now < alarm[0].due {
        return;
      }
      var request := alarm[0];
      alarm := alarm[1..];
      QueryRecipesAndShowSnippetPreview(request, settings);
    }

    /**
     * `queryRecipesAndShowSnippetPreview`: a request whose stamp is not the
     * current one does nothing; a current one queries the API and shows the
     * snippets found, if any.
     */
    method QueryRecipesAndShowSnippetPreview(request: SearchRequest<L>, settings: Settings)
      modifies this
      ensures lastRequestTimestamp == old(lastRequestTimestamp) && postedChecks == old(postedChecks) && alarm == old(alarm)
      ensures effects == old(effects) + RequestEffects(request, lastRequestTimestamp, settings, getRecipesSemantic)
    {
      if request.requestTimestamp != lastRequestTimestamp {
        return;
      }
      var query := QueryOf(request, settings);
      effects := effects + [ApiQueried(query)];
      var snippets := getRecipesSemantic(query);
      if snippets != [] {
        effects := effects + [PreviewDisplayed(request.caretOffset, snippets)];
      }
    }
  }

  // ---------------------------------------------------------------------------
  // Debouncing, as a sequence of events.

  /** The number of API queries in an effect log. */
  function Queries<L, S>(effects: seq<Effect<L, S>>): nat
  {
    if effects == [] then 0 else (if effects[0].ApiQueried? then 1 else 0) + Queries(effects[1..])
  }

  /** Queries are counted log by log. */
  lemma {:induction false} QueriesAppend<L, S>(a: seq<Effect<L, S>>, b: seq<Effect<L, S>>)
    ensures Queries(a + b) == Queries(a) + Queries(b)
  {
    if a == [] {
      assert a + b == b;
    } else {
      assert (a + b)[1..] == a[1..] + b;
      QueriesAppend(a[1..], b);
    }
  }

  /** A request sends at most one query, and none when stale. */
  lemma {:induction false} RequestQueries<L, S>(req: SearchRequest<L>, last: int, settings: Settings, api: SemanticQuery<L> -> seq<S>)
    ensures Queries(RequestEffects(req, last, settings, api)) == if req.requestTimestamp == last then 1 else 0
  {
    var r := RequestEffects(req, last, settings, api);
    if r != [] {
      assert r[1..] == [] || (r[1..] == [r[1]] && !r[1].ApiQueried?);
      if r[1..] != [] {
        assert r[1..][1..] == [];
        assert Queries(r[1..]) == Queries(r[1..][1..]);
      }
      assert Queries(r) == 1 + Queries(r[1..]);
    }
  }

  /** Disposals send no query. */
  lemma {:induction false} DisposalsSendNothing<L, S>(d: seq<Effect<L, S>>)
    requires forall k :: 0 <= k < |d| ==> d[k] == PreviewDisposed
    ensures Queries(d) == 0
  {
    if d != [] {
      DisposalsSendNothing(d[1..]);
    }
  }

  /**
   * A log of disposals followed by one current request holds exactly that
   * request's query, and any preview it shows is at that request's caret.
   */
  lemma CurrentRequestLog<L, S>(d: seq<Effect<L, S>>, req: SearchRequest<L>, settings: Settings, api: SemanticQuery<L> -> seq<S>)
    requires forall k :: 0 <= k < |d| ==> d[k] == PreviewDisposed
    ensures var log := d + RequestEffects(req, req.requestTimestamp, settings, api);
      && Queries(log) == 1
      && ApiQueried(QueryOf(req, settings)) in log
      && (forall e :: e in log && e.ApiQueried? ==> e.query == QueryOf(req, settings))
      && (forall e :: e in log && e.PreviewDisplayed? ==> e.offset == req.caretOffset)
  {
    var r := RequestEffects(req, req.requestTimestamp, settings, api);
    DisposalsSendNothing(d);
    RequestQueries(req, req.requestTimestamp, settings, api);
    QueriesAppend(d, r);
    assert (d + r)[|d|] == r[0];
  }

  /**
   * Two qualifying edits 100 ms apart whose checks and alarms all run: the
   * first request is stale when it runs and sends nothing, so the API is
   * queried once, with the second edit's query, and a preview can only be
   * placed at the second edit's caret.
   */
  method DebounceTwoEdits<L, S>(utils: LanguageUtils<L>, api: SemanticQuery<L> -> seq<S>,
                                ev: DocumentEvent, settings: Settings, editor1: EditorState, editor2: EditorState)
    returns (queries: nat, log: seq<Effect<L, S>>)
    requires GuardsPass(ev, settings) && WorthSearching(editor1, utils) && WorthSearching(editor2, utils)
    ensures queries == Queries(log) == 1
    ensures ApiQueried(QueryOf(PrepareRequest(editor2, utils, 100, 100), settings)) in log
    ensures forall e :: e in log && e.ApiQueried? ==> e.query == QueryOf(PrepareRequest(editor2, utils, 100, 100), settings)
    ensures forall e :: e in log && e.PreviewDisplayed? ==> e.offset == editor2.caretOffset
  {
    var listener := new InlineDocumentListener(utils, api, false);
    listener.DocumentChanged(ev, settings, 0, editor1);
    listener.RunPostedCheck(editor1, settings, 0);
    listener.DocumentChanged(ev, settings, 100, editor2);
    listener.RunPostedCheck(editor2, settings, 100);
    var req1 := PrepareRequest(editor1, utils, 0, 0);
    var req2 := PrepareRequest(editor2, utils, 100, 100);
    assert listener.alarm == [req1, req2] && listener.lastRequestTimestamp == 100;
    ghost var disposals := listener.effects;
    assert disposals == DisposalEffects<L, S>(editor1) + DisposalEffects<L, S>(editor2);
    listener.RunAlarm(settings, 500);
    assert listener.effects == disposals;
    listener.RunAlarm(settings, 600);
    CurrentRequestLog(disposals, req2, settings, api);
    log := listener.effects;
    queries := Queries(log);
  }

  /**
   * The staleness check is an equality of millisecond stamps: two edits in
   * the same millisecond both pass it, and the API is queried twice.
   */
  method SameMillisecondEdits<L, S>(utils: LanguageUtils<L>, api: SemanticQuery<L> -> seq<S>,
                                    ev: DocumentEvent, settings: Settings, editor: EditorState, now: int)
    returns (queries: nat)
    requires GuardsPass(ev, settings) && WorthSearching(editor, utils)
    ensures queries == 2
  {
    var listener := new InlineDocumentListener(utils, api, false);
    listener.DocumentChanged(ev, settings, now, editor);
    listener.RunPostedCheck(editor, settings, now);
    listener.DocumentChanged(ev, settings, now, editor);
    listener.RunPostedCheck(editor, settings, now);
    ghost var before := listener.effects;
    var req := PrepareRequest(editor, utils, now, now);
    listener.RunAlarm(settings, now + TimeoutRequestPollingMilliseconds);
    listener.RunAlarm(settings, now + TimeoutRequestPollingMilliseconds);
    RequestQueries(req, now, settings, api);
    QueriesAppend(before, RequestEffects(req, now, settings, api));
    QueriesAppend(before + RequestEffects(req, now, settings, api), RequestEffects(req, now, settings, api));
    QueriesAppend(DisposalEffects<L, S>(editor), DisposalEffects<L, S>(editor));
    assert Queries(DisposalEffects<L, S>(editor)) == 0;
    queries := Queries(listener.effects);
  }
}
