/**
 * Walkthroughs of the session, each on a fresh session against the
 * model, with the service's answers given as oracle responses.
 */
module Scenarios {
  import opened Types
  import opened App
  import G = GeminiService
  import JsText

  /** A stand-in for `JSON.parse` that reads any text as the given payload. */
  function ParsesAs(d: WordAnalysis): string -> G.ParseResult
  {
    (_: string) => G.Parsed(d)
  }

  /** A session on the input screen with English and the given category selected. */
  method Ready(cat: Category) returns (s: Session)
    ensures fresh(s) && s.Valid()
    ensures s.Model() == State(WordInput, Some(English), Some(cat), "", None, false, [], [], false, [])
  {
    s := new Session();
    s.SelectLanguage(English);
    s.SelectCategory(cat);
  }

  /** A typed term with nothing to trim at either end is decided as typed. */
  lemma TypedAsIs(st: State, typed: string)
    requires st.inputText == typed && typed != []
    requires !JsText.IsTrimmable(typed[0]) && !JsText.IsTrimmable(typed[|typed| - 1])
    ensures Decide(st, None) == Classify(typed, st.selectedLang.Some? && st.selectedCategory.Some?,
                                         st.currentData.Some?)
  {
    JsText.TrimUnchanged(typed);
  }

  /** No command has five letters, so "Heart" is always analysed. */
  lemma HeartIsAWord(hasResult: bool)
    ensures Classify("Heart", true, hasResult) == Analyze("Heart")
  {
    assert |JsText.ToLower("Heart")| == 5;
  }

  /** "Menu" spells the reset command. */
  lemma MenuIsHome(hasResult: bool)
    ensures Classify("Menu", true, hasResult) == GoHome
  {
    CommandsAreLowerWords();
    JsText.LowerEquals("Menu", "menu");
  }

  /** "home" picked from the overlay is the reset command. */
  lemma HomeArgumentIsHome(st: State)
    requires st.selectedLang.Some? && st.selectedCategory.Some?
    ensures Decide(st, Some("home")) == GoHome
  {
    CommandsAreLowerWords();
    JsText.LowerEquals("home", "home");
  }

  /** "History" spells an overlay command. */
  lemma HistoryIsPhoneCommand()
    ensures Classify("History", true, false) == ShowPhone
  {
    JsText.LowerEquals("History", "history");
    assert JsText.ToLower("History") == PhoneCommands[0];
  }

  /** "Heart" is typed and sent; no command has five letters, so it is analysed. */
  method SubmitHeart(s: Session) returns (action: Action)
    requires s.Valid() && s.viewMode == WordInput
    modifies s
    ensures s.Valid() && action == Analyze("Heart")
    ensures s.Model() == old(s.Model()).(inputText := "Heart", isLoading := true, viewMode := Loading,
      inFlight := old(s.inFlight) + [Pending("Heart", old(s.selectedLang).value, old(s.selectedCategory).value)])
  {
    s.SetInput("Heart");
    TypedAsIs(s.Model(), "Heart");
    HeartIsAWord(s.currentData.Some?);
    action := s.Submit(None);
  }

  /**
   * The language, the category, "Heart": the first service call answers,
   * the result screen shows, and the history holds that one entry.
   */
  method HeartResult(cat: Category, now: int) returns (s: Session, calls: nat)
    ensures fresh(s) && s.Valid()
    ensures s.Model() == State(Analysis, Some(English), Some(cat), "",
      Some(WordAnalysis("Heart", CategoryName(cat))), false, [HistoryEntry("Heart", cat, now)], [], false, [])
    ensures calls == 1
  {
    s := Ready(cat);
    var _ := SubmitHeart(s);
    var outcome, reqs := s.Settle(0, G.Text("{}"), G.NoText, ParsesAs(WordAnalysis("Heart", "GRAMMAR")), now);
    calls := |reqs|;
  }

  /** English, word formation, "Heart": the first service call answers. */
  method HeartRound() returns (mode: ViewMode, history: seq<HistoryEntry>, calls: nat)
    ensures mode == Analysis
    ensures history == [HistoryEntry("Heart", WordFormation, 0)]
    ensures calls == 1
  {
    var s;
    s, calls := HeartResult(WordFormation, 0);
    mode, history := s.viewMode, s.history;
  }

  /** Sends a "fav" spelled in any case from the input field of a result screen. */
  method SubmitFav(s: Session, typed: string)
    requires s.Valid() && s.viewMode == Analysis && SpellsIgnoringCase(typed, FavCommand)
    requires s.selectedLang.Some? && s.selectedCategory.Some?
    modifies s
    ensures s.Valid()
    ensures s.Model() == old(s.Model()).(favorites := Toggled(old(s.favorites), old(s.currentData).value.word),
                                         inputText := "")
  {
    ClassifyMeaning(typed, true, true);
    s.SetInput(typed);
    TypedAsIs(s.Model(), typed);
    var _ := s.Submit(None);
  }

  /**
   * From the "Heart" result, "fav" marks it a favorite and "FAV" unmarks
   * it; the result screen stays and no call is made.
   */
  method FavTwice() returns (first: seq<string>, second: seq<string>, mode: ViewMode, pending: nat)
    ensures first == ["Heart"] && second == []
    ensures mode == Analysis && pending == 0
  {
    var s, _ := HeartResult(WordFormation, 0);
    SubmitFav(s, "fav");
    first := s.favorites;
    SubmitFav(s, "FAV");
    second := s.favorites;
    mode, pending := s.viewMode, |s.inFlight|;
  }

  /** Sends "Menu" from the input field of a result screen. */
  method SubmitMenu(s: Session)
    requires s.Valid() && s.viewMode == Analysis
    requires s.selectedLang.Some? && s.selectedCategory.Some?
    modifies s
    ensures s.Valid()
    ensures s.Model() == old(s.Model()).(selectedLang := None, selectedCategory := None,
                                         inputText := "", currentData := None, viewMode := LangSelect)
  {
    s.SetInput("Menu");
    TypedAsIs(s.Model(), "Menu");
    MenuIsHome(true);
    var _ := s.Submit(None);
  }

  /** "Menu" from the result screen: back to the first screen, selections gone, history kept. */
  method MenuFromResult() returns (mode: ViewMode, lang: Option<Language>, cat: Option<Category>, history: seq<HistoryEntry>)
    ensures mode == LangSelect && lang == None && cat == None
    ensures history == [HistoryEntry("Heart", IdiomsPhrasal, 7)]
  {
    var s, _ := HeartResult(IdiomsPhrasal, 7);
    SubmitMenu(s);
    mode, lang, cat, history := s.viewMode, s.selectedLang, s.selectedCategory, s.history;
  }

  /**
   * The service throws an error that is not a transport failure: one call,
   * the error screen; "Start over" then returns to the first screen.
   */
  method ErrorThenStartOver() returns (failed: ViewMode, restarted: ViewMode, calls: nat, history: seq<HistoryEntry>)
    ensures failed == Error && restarted == LangSelect
    ensures calls == 1 && history == []
  {
    var s := Ready(Grammar);
    var _ := SubmitHeart(s);
    var _, reqs := s.Settle(0, G.Throws(G.ErrorObject("quota")), G.NoText,
                            ParsesAs(WordAnalysis("Heart", "GRAMMAR")), 0);
    failed, calls := s.viewMode, |reqs|;
    s.ResetToStart();
    restarted, history := s.viewMode, s.history;
  }

  /**
   * The first call fails with a transport error, the retry answers: two
   * calls, the result screen, and the result keeps the category the
   * service echoed instead of the one selected.
   */
  method RetryRound() returns (mode: ViewMode, calls: nat, shown: WordAnalysis, history: seq<HistoryEntry>)
    ensures mode == Analysis && calls == 2
    ensures shown == WordAnalysis("Heart", "GRAMMAR")
    ensures history == [HistoryEntry("Heart", WordFormation, 3)]
  {
    var s := Ready(WordFormation);
    var _ := SubmitHeart(s);
    var failure := G.ErrorObject("xhr error");
    assert JsText.OccursAt(failure.message, G.RetrySignature, 0);
    var _, reqs := s.Settle(0, G.Throws(failure), G.Text("{}"), ParsesAs(WordAnalysis("Heart", "GRAMMAR")), 3);
    mode, calls, shown, history := s.viewMode, |reqs|, s.currentData.value, s.history;
  }

  /** "fav" with no current result is sent for analysis like any word. */
  method FavWithoutResult() returns (mode: ViewMode, pending: seq<Pending>, favorites: seq<string>)
    ensures mode == Loading
    ensures pending == [Pending("fav", English, Challenge)]
    ensures favorites == []
  {
    var s := Ready(Challenge);
    FavWithoutResultIsAnalysed("fav");
    s.SetInput("fav");
    TypedAsIs(s.Model(), "fav");
    var _ := s.Submit(None);
    mode, pending, favorites := s.viewMode, s.inFlight, s.favorites;
  }

  /** "History" typed on the input screen opens the overlay and leaves the screen as it is. */
  method HistoryCommand() returns (mode: ViewMode, phone: bool, input: string)
    ensures mode == WordInput && phone && input == ""
  {
    var s := Ready(WordFormation);
    s.SetInput("History");
    TypedAsIs(s.Model(), "History");
    HistoryIsPhoneCommand();
    var _ := s.Submit(None);
    mode, phone, input := s.viewMode, s.isPhoneOpen, s.inputText;
  }

  /** "Heart" is sent, then "home" is picked from the overlay while it loads. */
  method HomeWhileLoading() returns (s: Session)
    ensures fresh(s) && s.Valid()
    ensures s.Model() == State(LangSelect, None, None, "", None, true, [], [], false,
                               [Pending("Heart", English, Grammar)])
  {
    s := Ready(Grammar);
    var _ := SubmitHeart(s);
    s.OpenPhone();
    HomeArgumentIsHome(s.Model());
    var _ := s.SelectFromPhone("home");
  }

  /**
   * While "Heart" is loading, "home" is picked from the overlay and the
   * session resets; the late answer is still applied: the result screen
   * shows with no language selected, and the history gains the entry.
   */
  method LateCompletionAfterReset() returns (mode: ViewMode, lang: Option<Language>, history: seq<HistoryEntry>)
    ensures mode == Analysis && lang == None
    ensures history == [HistoryEntry("Heart", Grammar, 9)]
  {
    var s := HomeWhileLoading();
    var _, _ := s.Settle(0, G.Text("{}"), G.NoText, ParsesAs(WordAnalysis("Heart", "GRAMMAR")), 9);
    mode, lang, history := s.viewMode, s.selectedLang, s.history;
  }
}
